/** What every event does to the calls, and which datagrams go to whom, as their receivers read them. */
module SipAnswers {
  import opened Wrappers
  import opened Strings
  import opened Sip
  import opened SipRoundTrip
  import opened SipEngine
  import opened SipEngineRuns
  import opened SipEngineEnds

  // ---- responses as their receivers read them ---------------------------------------

  /** The datagram goes to `target` and reads as a response without body to `req`, its To tagged as said. */
  ghost predicate Responds(d: Datagram, target: Addr, req: Request, code: nat, reason: string, tag: Option<string>)
    requires Answerable(req)
  {
    var r := ParseResponse(d.payload);
    && d.target == target && r.Some? && r.value.status == code && r.value.reason == reason && r.value.body == ""
    && Mirrors(req, r.value.headers, ToValue(req.headers.Get("to").value, tag))
  }

  /** One such datagram, or none when the request lacks a field that a response needs. */
  ghost predicate OneReply(ds: seq<Datagram>, target: Addr, req: Request, code: nat, reason: string,
                           tag: Option<string>) {
    if Answerable(req) then |ds| == 1 && Responds(ds[0], target, req, code, reason, tag) else ds == []
  }

  /** A reason phrase of words with single spaces between them. */
  ghost predicate IsReason(reason: string) {
    exists ws :: ws != [] && AllWords(Rust, ws) && NoNewlines(ws) && reason == JoinSpace(ws)
  }

  predicate NoNewlines(ws: seq<string>) { forall i :: 0 <= i < |ws| ==> NoChar('\n', ws[i]) }

  lemma {:induction false} JoinIsClean(ws: seq<string>)
    requires ws != [] && AllWords(Rust, ws) && NoNewlines(ws)
    ensures JoinSpace(ws) != "" && Clean(JoinSpace(ws))
  {
    if |ws| > 1 {
      JoinIsClean(ws[1..]);
      var r, rest := JoinSpace(ws), JoinSpace(ws[1..]);
      assert r[0] == ws[0][0] && r[|r| - 1] == rest[|rest| - 1];
    }
  }

  lemma ReasonReadsBack(reason: string)
    requires IsReason(reason)
    ensures reason != "" && Clean(reason) && JoinSpace(Words(Rust, reason)) == reason
  {
    var ws :| ws != [] && AllWords(Rust, ws) && NoNewlines(ws) && reason == JoinSpace(ws);
    JoinIsClean(ws);
    WordsOfJoin(Rust, ws);
  }

  lemma OneWordReasons()
    ensures IsReason("OK") && IsReason("Trying") && IsReason("Ringing")
  {
    OneWord("OK");
    OneWord("Trying");
    OneWord("Ringing");
  }

  lemma BadRequestReason()
    ensures IsReason("Bad Request")
  {
    TwoWords("Bad", "Request");
  }

  lemma TerminatedReason()
    ensures IsReason("Request Terminated")
  {
    TwoWords("Request", "Terminated");
  }

  lemma UnavailableReason()
    ensures IsReason("Service Unavailable")
  {
    TwoWords("Service", "Unavailable");
  }

  lemma NotAcceptableReason()
    ensures IsReason("Not Acceptable Here")
  {
    ThreeWordReason("Not", "Acceptable", "Here");
  }

  lemma OneWord(a: string)
    requires a != "" && NoSpace(Rust, a) && NoChar('\n', a)
    ensures IsReason(a)
  {
    assert AllWords(Rust, [a]) && NoNewlines([a]) && JoinSpace([a]) == a;
  }

  lemma TwoWords(a: string, b: string)
    requires AllWords(Rust, [a, b]) && NoNewlines([a, b])
    ensures IsReason(a + " " + b)
  {
    assert [a, b][1..] == [b];
    assert JoinSpace([a, b]) == a + " " + b;
  }

  lemma ThreeWordReason(a: string, b: string, c: string)
    requires AllWords(Rust, [a, b, c]) && NoNewlines([a, b, c])
    ensures IsReason(a + " " + b + " " + c)
  {
    assert [a, b, c][1..] == [b, c] && [b, c][1..] == [c];
    assert JoinSpace([b, c]) == b + " " + c;
    assert JoinSpace([a, b, c]) == a + " " + (b + " " + c) == a + " " + b + " " + c;
  }

  lemma ReplyReads(req: Request, code: nat, reason: string, tag: Option<string>, target: Addr)
    requires WellRead(req) && code < 0x1_0000 && IsReason(reason) && (tag.Some? ==> IsTag(tag.value))
    ensures OneReply(SendTo(ResponseText(req, code, reason, tag), target), target, req, code, reason, tag)
  {
    ReasonReadsBack(reason);
    if Answerable(req) { ResponseReadsBack(req, code, reason, tag); }
  }

  // ---- what happens to the calls ----------------------------------------------------

  /** Pending invites only age: those younger than sixty seconds stay. */
  ghost predicate PendingAge(s: State, r: State, now: nat) {
    && (forall c :: c in r.pending <==> c in s.pending && now - s.pending[c].createdAt < 60_000)
    && (forall c :: c in r.pending ==> r.pending[c] == s.pending[c])
  }

  /** The pool, the dialogs and the counters are the same. */
  ghost predicate CallsKept(s: State, r: State) {
    && r.inUse == s.inUse && r.dialogs == s.dialogs && r.active == s.active && r.teardowns == s.teardowns
    && r.accepted == s.accepted && r.rejected == s.rejected && r.setups == s.setups && r.running == s.running
  }

  /** Call `c` is closed and its port is free; nothing else happens to any call. */
  ghost predicate Closes(s: State, r: State, c: string)
    requires c in s.dialogs
  {
    && r.dialogs == s.dialogs - {c} && r.inUse == s.inUse - {s.dialogs[c].port}
    && r.active == s.active - 1 && r.teardowns == s.teardowns + 1
    && r.accepted == s.accepted && r.rejected == s.rejected && r.setups == s.setups && r.running == s.running
  }

  ghost predicate IsRequest(e: Event, name: string) {
    e.Received? && e.request.Some? && e.request.value.requestMethod == name && WellRead(e.request.value)
  }

  // ---- BYE --------------------------------------------------------------------------

  /** What identifies a BYE: its Call-ID and its CSeq. */
  function ByeKey(req: Request): (k: string) {
    (match req.headers.Get("call-id") case Some(c) => c case None => "<missing-call-id>") + "|"
    + (match req.headers.Get("cseq") case Some(q) => q case None => "0 BYE")
  }

  lemma CloseExactly(s: State, c: string)
    requires Booked(s)
    ensures var r := CloseDialog(s, c);
            && r.pending == s.pending && r.answers == s.answers && r.outbound == s.outbound
            && if c in s.dialogs then Closes(s, r, c) else CallsKept(s, r)
  {
    if c in s.dialogs { RemoveOne(s.dialogs, c); }
  }

  lemma ByeState(s: State, e: Event, text: Option<string>)
    requires Booked(s) && e.Received? && e.request.Some?
    ensures var r := AnswerBye(s, e, text).state;
            var c := CallIdOf(e.request.value);
            && r.pending == s.pending
            && (if c in s.dialogs then Closes(s, r, c) else CallsKept(s, r))
            && (text.Some? && e.sendOk ==> r.answers == s.answers[AnswerKey(e.request.value) :=
                                             CachedAnswer(text.value, e.source, e.now)])
  {
    var r := AnswerBye(s, e, text).state;
    CloseExactly(s.(answers := r.answers), CallIdOf(e.request.value));
  }

  /**
    A BYE that was not answered before closes its call, frees the port, moves the call from active to
    torn down, and is answered with a 200 to its sender; a BYE for no open call is only answered.
   */
  lemma ByeCloses(cfg: Config, s: State, e: Event)
    requires s.running && Booked(s) && IsRequest(e, "BYE") && ByeKey(e.request.value) !in s.answers
    ensures var o := Step(cfg, s, e);
            var c := CallIdOf(e.request.value);
            && (if c in s.dialogs then Closes(s, o.state, c) else CallsKept(s, o.state))
            && PendingAge(s, o.state, e.now)
            && OneReply(o.sent, e.source, e.request.value, 200, "OK", None)
  {
    ByeState(s, e, ResponseText(e.request.value, 200, "OK", None));
    OneWordReasons();
    ReplyReads(e.request.value, 200, "OK", None, e.source);
  }

  // ---- the same BYE again -----------------------------------------------------------

  /** Less than three hundred seconds after `since`, if it is a datagram. */
  predicate InTime(e: Event, since: nat) { e.Received? || e.Responded? ==> e.now - since < 300_000 }

  lemma RequestKeepsAnswer(cfg: Config, s: State, e: Event, key: string)
    requires e.Received? && key in s.answers
    ensures var r := OnRequest(cfg, s, e).state; key in r.answers && r.answers[key] == s.answers[key]
  {
    if e.request.Some? && e.request.value.requestMethod == "BYE" && AnswerKey(e.request.value) !in s.answers {
      ByeKeepsAnswer(s, e, ResponseText(e.request.value, 200, "OK", None), key);
    }
  }

  lemma ByeKeepsAnswer(s: State, e: Event, text: Option<string>, key: string)
    requires e.Received? && e.request.Some? && key in s.answers && AnswerKey(e.request.value) !in s.answers
    ensures var r := AnswerBye(s, e, text).state; key in r.answers && r.answers[key] == s.answers[key]
  {
  }

  lemma SetupKeepsAnswers(cfg: Config, s: State, e: Event)
    requires e.SetupDone?
    ensures OnSetupDone(cfg, s, e).state.answers == s.answers
  {
    if e.callId in s.pending {
      var p := s.pending[e.callId];
      ConcludeKeepsAnswers(cfg, s, e, ResponseText(p.request, 503, "Service Unavailable", Some(p.tag)),
                           OkText(p.request, p.tag, cfg.host, p.port), RemoteUri(p.request));
    }
  }

  lemma ConcludeKeepsAnswers(cfg: Config, s: State, e: Event, refusal: Option<string>, okText: Option<string>,
                             remote: Option<string>)
    requires e.SetupDone? && e.callId in s.pending
    requires okText.Some? ==> Answerable(s.pending[e.callId].request)
    ensures Conclude(cfg, s, e, refusal, okText, remote).state.answers == s.answers
  {
  }

  lemma StepKeepsAnswer(cfg: Config, s: State, e: Event, key: string)
    requires key in s.answers && InTime(e, s.answers[key].createdAt)
    ensures var r := Step(cfg, s, e).state; key in r.answers && r.answers[key] == s.answers[key]
  {
    if s.running {
      match e
      case Received(_, _, _, _, _, _, _) => RequestKeepsAnswer(cfg, s, e, key);
      case Responded(_, _, _, _, _, _) => ResponseFrame(cfg, s, e);
      case SetupDone(_, _, _, _, _) => SetupKeepsAnswers(cfg, s, e);
      case BackendEnd(_, _) =>
      case InviteSent(_, _) =>
      case CommandsClosed =>
    }
  }

  lemma {:induction false} RunKeepsAnswer(cfg: Config, s: State, es: seq<Event>, key: string)
    requires key in s.answers && forall i :: 0 <= i < |es| ==> InTime(es[i], s.answers[key].createdAt)
    ensures var r := Run(cfg, s, es); key in r.answers && r.answers[key] == s.answers[key]
  {
    if es != [] {
      RunKeepsAnswer(cfg, s, es[..|es| - 1], key);
      StepKeepsAnswer(cfg, Run(cfg, s, es[..|es| - 1]), es[|es| - 1], key);
    }
  }

  lemma FirstBye(cfg: Config, s: State, e: Event) returns (o: Outcome)
    requires s.running && Booked(s) && IsRequest(e, "BYE") && Answerable(e.request.value) && e.sendOk
    requires ByeKey(e.request.value) !in s.answers
    ensures var key := ByeKey(e.request.value);
            && o == Step(cfg, s, e) && |o.sent| == 1 && key in o.state.answers
            && o.state.answers[key] == CachedAnswer(o.sent[0].payload, o.sent[0].target, e.now)
  {
    ByeState(s, e, ResponseText(e.request.value, 200, "OK", None));
    o := Step(cfg, s, e);
  }

  lemma CachedBye(cfg: Config, s: State, e: Event)
    requires s.running && IsRequest(e, "BYE") && ByeKey(e.request.value) in s.answers
    ensures var o := Step(cfg, s, e);
            var a := s.answers[ByeKey(e.request.value)];
            && o.sent == [Datagram(a.payload, a.destination)] && CallsKept(s, o.state) && PendingAge(s, o.state, e.now)
  {
  }

  /** From `s`, after any events in time, the BYE gets the datagrams `sent` and does nothing else. */
  ghost predicate AnswersAgain(cfg: Config, s: State, again: Event, since: nat, sent: seq<Datagram>)
    requires again.Received?
  {
    forall es: seq<Event> | Run(cfg, s, es).running && forall i :: 0 <= i < |es| ==> InTime(es[i], since) ::
      var r := Run(cfg, s, es);
      var o := Step(cfg, r, again);
      o.sent == sent && CallsKept(r, o.state) && PendingAge(r, o.state, again.now)
  }

  /**
    The same BYE again, from anywhere and after whatever happened in less than three hundred seconds,
    gets the very datagram that answered it first, and does nothing else.
   */
  lemma ByeAnsweredOnce(cfg: Config, s: State, e: Event, again: Event) returns (first: Outcome)
    requires s.running && Booked(s) && IsRequest(e, "BYE") && Answerable(e.request.value) && e.sendOk
    requires ByeKey(e.request.value) !in s.answers
    requires IsRequest(again, "BYE") && ByeKey(again.request.value) == ByeKey(e.request.value)
    ensures first == Step(cfg, s, e) && |first.sent| == 1
    ensures AnswersAgain(cfg, first.state, again, e.now, first.sent)
  {
    first := FirstBye(cfg, s, e);
    AnsweredAgain(cfg, first.state, again, first.sent[0], e.now);
    assert first.sent == [first.sent[0]];
  }

  lemma AnsweredAgain(cfg: Config, s: State, again: Event, d: Datagram, since: nat)
    requires IsRequest(again, "BYE") && ByeKey(again.request.value) in s.answers
    requires s.answers[ByeKey(again.request.value)] == CachedAnswer(d.payload, d.target, since)
    ensures AnswersAgain(cfg, s, again, since, [d])
  {
    forall es: seq<Event> | Run(cfg, s, es).running && forall i :: 0 <= i < |es| ==> InTime(es[i], since)
      ensures var r := Run(cfg, s, es);
              var o := Step(cfg, r, again);
              o.sent == [d] && CallsKept(r, o.state) && PendingAge(r, o.state, again.now)
    {
      RunKeepsAnswer(cfg, s, es, ByeKey(again.request.value));
      CachedBye(cfg, Run(cfg, s, es), again);
    }
  }

  // ---- CANCEL -----------------------------------------------------------------------

  /** The pending invite is dropped and its port is free; nothing else happens to any call. */
  ghost predicate Drops(s: State, r: State, c: string)
    requires c in s.pending
  {
    && r.inUse == s.inUse - {s.pending[c].port} && r.dialogs == s.dialogs
    && r.active == s.active && r.teardowns == s.teardowns && r.accepted == s.accepted && r.setups == s.setups
    && r.running == s.running
  }

  /**
    A CANCEL is answered with a 200 to its sender; for a pending invite the port is freed and a 487,
    tagged as the invite's responses are, goes to whoever sent the invite.
   */
  lemma CancelDrops(cfg: Config, s: State, e: Event) returns (own: seq<Datagram>, other: seq<Datagram>)
    requires s.running && IsRequest(e, "CANCEL")
    requires forall c :: c in s.pending ==> PendingOk(c, s.pending[c])
    ensures var o := Step(cfg, s, e);
            var c := CallIdOf(e.request.value);
            && o.sent == own + other && OneReply(own, e.source, e.request.value, 200, "OK", None)
            && (if c in s.pending then
                  && Drops(s, o.state, c) && o.state.rejected == s.rejected
                  && PendingAge(s.(pending := s.pending - {c}), o.state, e.now)
                  && OneReply(other, s.pending[c].source, s.pending[c].request, 487, "Request Terminated",
                              Some(s.pending[c].tag))
                else other == [] && CallsKept(s, o.state) && PendingAge(s, o.state, e.now))
  {
    var req, c := e.request.value, CallIdOf(e.request.value);
    own := SendTo(ResponseText(req, 200, "OK", None), e.source);
    OneWordReasons();
    ReplyReads(req, 200, "OK", None, e.source);
    other := [];
    if c in s.pending {
      var p := s.pending[c];
      assert PendingOk(c, p);
      TerminatedReason();
      ReplyReads(p.request, 487, "Request Terminated", Some(p.tag), p.source);
      other := SendTo(ResponseText(p.request, 487, "Request Terminated", Some(p.tag)), p.source);
    }
    assert own + [] == own;
  }

  // ---- setup results ----------------------------------------------------------------

  /** The invite is out of the table. */
  ghost predicate NoLongerPending(s: State, r: State, c: string) {
    r.pending == s.pending - {c} && r.answers == s.answers && r.outbound == s.outbound
  }

  /** A setup that failed: the invite is refused with a 503 to its sender, and its port is free. */
  lemma SetupFails(cfg: Config, s: State, e: Event)
    requires s.running && e.SetupDone? && e.callId in s.pending && e.bridgePort.None?
    requires PendingOk(e.callId, s.pending[e.callId])
    ensures var p := s.pending[e.callId];
            var o := Step(cfg, s, e);
            && Drops(s, o.state, e.callId) && o.state.rejected == s.rejected + 1
            && NoLongerPending(s, o.state, e.callId)
            && OneReply(o.sent, p.source, p.request, 503, "Service Unavailable", Some(p.tag))
  {
    var p := s.pending[e.callId];
    UnavailableReason();
    ReplyReads(p.request, 503, "Service Unavailable", Some(p.tag), p.source);
    ConcludeFails(cfg, s, e, ResponseText(p.request, 503, "Service Unavailable", Some(p.tag)),
                  OkText(p.request, p.tag, cfg.host, p.port), RemoteUri(p.request));
  }

  lemma ConcludeFails(cfg: Config, s: State, e: Event, refusal: Option<string>, okText: Option<string>,
                      remote: Option<string>)
    requires e.SetupDone? && e.callId in s.pending && (okText.Some? ==> Answerable(s.pending[e.callId].request))
    ensures var o := Conclude(cfg, s, e, refusal, okText, remote);
            && (e.bridgePort.None? ==>
                  && Drops(s, o.state, e.callId) && o.state.rejected == s.rejected + 1
                  && NoLongerPending(s, o.state, e.callId) && o.sent == SendTo(refusal, s.pending[e.callId].source))
            && (e.bridgePort.Some? && okText.None? ==>
                  && Drops(s, o.state, e.callId) && o.state.rejected == s.rejected + 1
                  && NoLongerPending(s, o.state, e.callId) && o.sent == [])
            && (e.bridgePort.Some? && okText.Some? && !e.sendOk ==>
                  && Drops(s, o.state, e.callId) && o.state.rejected == s.rejected
                  && NoLongerPending(s, o.state, e.callId)
                  && o.sent == [Datagram(okText.value, s.pending[e.callId].source)])
  {
  }

  /**
    A setup that succeeded for an invite that cannot be answered, or whose 200 OK cannot be sent, opens
    nothing and frees the port.
   */
  lemma SetupInVain(cfg: Config, s: State, e: Event)
    requires s.running && e.SetupDone? && e.callId in s.pending && e.bridgePort.Some?
    requires !Answerable(s.pending[e.callId].request) || !e.sendOk
    ensures var p := s.pending[e.callId];
            var o := Step(cfg, s, e);
            && Drops(s, o.state, e.callId) && NoLongerPending(s, o.state, e.callId)
            && o.state.rejected == s.rejected + (if Answerable(p.request) then 0 else 1)
            && |o.sent| == if Answerable(p.request) then 1 else 0
  {
    var p := s.pending[e.callId];
    ConcludeFails(cfg, s, e, ResponseText(p.request, 503, "Service Unavailable", Some(p.tag)),
                  OkText(p.request, p.tag, cfg.host, p.port), RemoteUri(p.request));
  }

  /** The dialog opened for `p` under `c`: its ends, its ports and the text to resend. */
  ghost predicate OpenedFor(d: Dialog, p: Pending, e: Event, text: string)
    requires e.SetupDone? && e.bridgePort.Some?
  {
    && d.port == p.port && d.bridgePort == e.bridgePort.value && d.okPayload == text && d.okTarget == p.source
    && d.remoteTarget == (if e.contactAddr.Some? then e.contactAddr.value else p.source)
    && d.signaling.localCseq == 1
    && match p.request.headers.Get("contact")
       case None => d.signaling.remoteUri == p.request.uri
       case Some(v) => UriOfNameAddr(v) == Some(d.signaling.remoteUri)
  }

  /** The datagram goes to the caller and reads as a 200 OK that offers the host and the port. */
  ghost predicate Offers(cfg: Config, d: Datagram, p: Pending)
    requires Answerable(p.request)
  {
    var r := ParseResponse(d.payload);
    && d.target == p.source && r.Some? && r.value.status == 200 && r.value.reason == "OK"
    && Mirrors(p.request, r.value.headers, EnsureTag(p.request.headers.Get("to").value, p.tag))
    && r.value.headers.Get("contact") == Some("<sip:sbc@" + cfg.host + ":5060>")
    && forall parseIp: string -> Option<string>, fallback: string ::
         MediaAddr(d.payload, parseIp, fallback) ==
         match parseIp(cfg.host) case None => None case Some(ip) => Some((ip, p.port))
  }

  lemma OkOffers(cfg: Config, p: Pending)
    requires GoodConfig(cfg) && WellRead(p.request) && Answerable(p.request) && IsTag(p.tag) && p.port < 0x1_0000
    ensures OkText(p.request, p.tag, cfg.host, p.port).Some?
    ensures Offers(cfg, Datagram(OkText(p.request, p.tag, cfg.host, p.port).value, p.source), p)
  {
    OkReadsBack(p.request, p.tag, cfg.host, SdpOffer(cfg.host, p.port));
    OkContact(p.request, p.tag, cfg.host, SdpOffer(cfg.host, p.port));
    forall parseIp: string -> Option<string>, fallback: string
      ensures MediaAddr(OkText(p.request, p.tag, cfg.host, p.port).value, parseIp, fallback) ==
              match parseIp(cfg.host) case None => None case Some(ip) => Some((ip, p.port))
    {
      OkMediaAddr(p.request, p.tag, cfg.host, p.port, parseIp, fallback);
    }
  }

  lemma ConcludeSucceeds(cfg: Config, s: State, e: Event, refusal: Option<string>, ok: string, uri: string)
    requires e.SetupDone? && e.callId in s.pending && Answerable(s.pending[e.callId].request)
    requires e.bridgePort.Some? && e.sendOk && s.running && RemoteUri(s.pending[e.callId].request) == Some(uri)
    ensures var p := s.pending[e.callId];
            var o := Conclude(cfg, s, e, refusal, Some(ok), Some(uri));
            && o.sent == [Datagram(ok, p.source)] && NoLongerPending(s, o.state, e.callId)
            && e.callId in o.state.dialogs && o.state.dialogs == s.dialogs[e.callId := o.state.dialogs[e.callId]]
            && OpenedFor(o.state.dialogs[e.callId], p, e, ok)
            && o.state.inUse == s.inUse && o.state.active == s.active + 1 && o.state.accepted == s.accepted + 1
            && o.state.teardowns == s.teardowns && o.state.rejected == s.rejected && o.state.setups == s.setups
            && o.state.running
  {
  }

  /**
    A setup that succeeded for an answerable invite with a usable Contact, once the 200 OK is sent: one
    datagram to the caller, which offers the host and the port that was kept for it, and the open call.
   */
  lemma SetupAnswers(cfg: Config, s: State, e: Event)
    requires s.running && GoodConfig(cfg) && e.SetupDone? && e.callId in s.pending && e.bridgePort.Some? && e.sendOk
    requires PendingOk(e.callId, s.pending[e.callId]) && Answerable(s.pending[e.callId].request)
    requires !CrossedContact(s.pending[e.callId].request.headers) && PortsInRange(cfg, s)
    ensures var p := s.pending[e.callId];
            var o := Step(cfg, s, e);
            && |o.sent| == 1 && Offers(cfg, o.sent[0], p) && NoLongerPending(s, o.state, e.callId)
            && e.callId in o.state.dialogs && o.state.dialogs == s.dialogs[e.callId := o.state.dialogs[e.callId]]
            && OpenedFor(o.state.dialogs[e.callId], p, e, o.sent[0].payload)
            && o.state.inUse == s.inUse && o.state.active == s.active + 1 && o.state.accepted == s.accepted + 1
            && o.state.teardowns == s.teardowns && o.state.rejected == s.rejected && o.state.running
  {
    var p := s.pending[e.callId];
    RemoteUriIff(p.request);
    OkOffers(cfg, p);
    ConcludeSucceeds(cfg, s, e, ResponseText(p.request, 503, "Service Unavailable", Some(p.tag)),
                     OkText(p.request, p.tag, cfg.host, p.port).value, RemoteUri(p.request).value);
  }

  /** A result for no pending invite only frees the port it names. */
  lemma SetupLate(cfg: Config, s: State, e: Event)
    requires s.running && e.SetupDone? && e.callId !in s.pending
    ensures var o := Step(cfg, s, e);
            && o.sent == []
            && o.state == s.(inUse := o.state.inUse)
            && o.state.inUse == if e.bridgePort.Some? then s.inUse - {e.bridgePort.value} else s.inUse
  {
  }

  // ---- age --------------------------------------------------------------------------

  /** After any datagram nothing is kept that is too old: sixty seconds for invites, three hundred for the rest. */
  lemma NothingOldIsKept(cfg: Config, s: State, e: Event)
    requires s.running && (e.Received? || e.Responded?)
    ensures var r := Step(cfg, s, e).state;
            && (forall c :: c in r.pending ==> e.now - r.pending[c].createdAt < 60_000)
            && (forall k :: k in r.answers ==> e.now - r.answers[k].createdAt < 300_000)
            && (forall c :: c in r.outbound ==> e.now - r.outbound[c].createdAt < 300_000)
  {
  }

  // ---- the end from inside, and everything else -------------------------------------

  /** The backend ends a call: it is closed and one datagram goes to its remote target; otherwise nothing happens. */
  lemma BackendCloses(cfg: Config, s: State, e: Event)
    requires s.running && Booked(s) && e.BackendEnd?
    ensures var o := Step(cfg, s, e);
            && (e.callId in s.dialogs ==>
                  && Closes(s, o.state, e.callId) && o.state.pending == s.pending && o.state.answers == s.answers
                  && |o.sent| == 1 && o.sent[0].target == s.dialogs[e.callId].remoteTarget)
            && (e.callId !in s.dialogs ==> o == Outcome(s, []))
  {
    CloseExactly(s, e.callId);
  }

  /** A datagram that is no INVITE, BYE or CANCEL and no response gets no answer and touches no call. */
  lemma OtherRequests(cfg: Config, s: State, e: Event)
    requires s.running && e.Received?
    requires e.request.None? || e.request.value.requestMethod !in {"INVITE", "BYE", "CANCEL"}
    ensures var o := Step(cfg, s, e); o.sent == [] && CallsKept(s, o.state) && PendingAge(s, o.state, e.now)
  {
  }

  // ---- INVITE -----------------------------------------------------------------------

  /** What is sent at once for a new call: 100, and 180 with the tag of the call if the gateway is to ring. */
  ghost predicate Early(cfg: Config, trying: seq<Datagram>, ringing: seq<Datagram>, e: Event)
    requires e.Received? && e.request.Some?
  {
    && OneReply(trying, e.source, e.request.value, 100, "Trying", None)
    && if cfg.ringing then OneReply(ringing, e.source, e.request.value, 180, "Ringing", Some(e.tag)) else ringing == []
  }

  lemma EarlyReads(cfg: Config, e: Event)
    requires IsRequest(e, "INVITE") && IsTag(e.tag)
    ensures Early(cfg, SendTo(ResponseText(e.request.value, 100, "Trying", None), e.source),
                  if cfg.ringing then SendTo(RingingText(e.request.value, e.tag), e.source) else [], e)
  {
    OneWordReasons();
    ReplyReads(e.request.value, 100, "Trying", None, e.source);
    ReplyReads(e.request.value, 180, "Ringing", Some(e.tag), e.source);
  }

  lemma FinalReads(e: Event)
    requires IsRequest(e, "INVITE") && IsTag(e.tag) && IsTag(e.rejectTag)
    ensures OneReply(SendTo(ResponseText(e.request.value, 503, "Service Unavailable", Some(e.rejectTag)), e.source),
                     e.source, e.request.value, 503, "Service Unavailable", Some(e.rejectTag))
    ensures OneReply(SendTo(ResponseText(e.request.value, 488, "Not Acceptable Here", Some(e.tag)), e.source),
                     e.source, e.request.value, 488, "Not Acceptable Here", Some(e.tag))
  {
    UnavailableReason();
    NotAcceptableReason();
    ReplyReads(e.request.value, 503, "Service Unavailable", Some(e.rejectTag), e.source);
    ReplyReads(e.request.value, 488, "Not Acceptable Here", Some(e.tag), e.source);
  }

  /** Every port of the range is in use. */
  ghost predicate Full(cfg: Config, s: State) { forall p :: cfg.portStart <= p <= cfg.portEnd ==> p in s.inUse }

  /** The least port of the range that is not in use. */
  ghost predicate Lowest(cfg: Config, s: State, port: nat) {
    cfg.portStart <= port <= cfg.portEnd && port !in s.inUse && forall p :: cfg.portStart <= p < port ==> p in s.inUse
  }

  /** The new call waits for its setup on the lowest free port. */
  ghost predicate Waits(cfg: Config, s: State, r: State, e: Event, c: string)
    requires e.Received? && e.request.Some?
  {
    && c in r.pending && Lowest(cfg, s, r.pending[c].port)
    && r.pending[c] == Pending(e.request.value, e.source, e.tag, r.pending[c].port, e.now, |s.setups|)
    && r.inUse == s.inUse + {r.pending[c].port} && r.setups == s.setups + [Setup(c, r.pending[c].port)]
    && r.dialogs == s.dialogs && r.active == s.active && r.teardowns == s.teardowns && r.accepted == s.accepted
    && r.rejected == s.rejected && r.running == s.running
  }

  /** The call is counted as rejected, and nothing else happens to any call. */
  ghost predicate Rejects(s: State, r: State) { CallsKept(s.(rejected := s.rejected + 1), r) }

  /** The three ways a new call can go; `final` is what is sent after the early responses. */
  ghost predicate Admission(cfg: Config, s: State, r: State, e: Event, c: string, final: seq<Datagram>,
                            full: seq<Datagram>, unusable: seq<Datagram>)
    requires e.Received? && e.request.Some?
  {
    if Full(cfg, s) then Rejects(s, r) && final == full
    else if !e.media then Rejects(s, r) && final == unusable
    else Waits(cfg, s, r, e, c) && final == []
  }

  lemma AdmitCases(cfg: Config, s: State, e: Event, c: string, early: seq<Datagram>, full: seq<Datagram>,
                   unusable: seq<Datagram>)
    returns (final: seq<Datagram>)
    requires e.Received? && e.request.Some? && CallIdOf(e.request.value) == c
    ensures var o := AdmitWith(cfg, s, e, early, full, unusable);
            && o.sent == early + final && Admission(cfg, s, o.state, e, c, final, full, unusable)
            && (forall d :: d in o.state.pending && d != c ==> d in s.pending && o.state.pending[d] == s.pending[d])
            && (forall d :: d in s.pending && d != c ==> d in o.state.pending)
  {
    var r := FirstFree(cfg.portStart, cfg.portEnd, s.inUse);
    if r.Some? { assert !Full(cfg, s); }
    final := if Full(cfg, s) then full else if !e.media then unusable else [];
    assert early + [] == early;
  }

  lemma AdmissionAges(cfg: Config, s: State, r: State, e: Event, c: string, final: seq<Datagram>,
                      full: seq<Datagram>, unusable: seq<Datagram>)
    requires e.Received? && e.request.Some? && Admission(cfg, s, r, e, c, final, full, unusable)
    requires forall d :: d in r.pending && d != c ==> d in s.pending && r.pending[d] == s.pending[d]
    requires forall d :: d in s.pending && d != c ==> d in r.pending
    ensures Admission(cfg, s, Cleanup(r, e.now), e, c, final, full, unusable)
    ensures OthersAge(s, Cleanup(r, e.now), c, e.now)
  {
  }

  /** The other pending invites only age. */
  ghost predicate OthersAge(s: State, r: State, c: string, now: nat) {
    forall d :: d != c ==>
      && (d in r.pending <==> d in s.pending && now - s.pending[d].createdAt < 60_000)
      && (d in r.pending ==> r.pending[d] == s.pending[d])
  }

  /**
    An INVITE for a new call: the early responses, then a 503 with a tag of its own when every port is in
    use, a 488 with the call's tag when its media cannot be used, and otherwise a setup on the lowest free
    port.
   */
  lemma InviteAnswered(cfg: Config, s: State, e: Event, c: string)
    returns (trying: seq<Datagram>, ringing: seq<Datagram>, final: seq<Datagram>, full: seq<Datagram>,
             unusable: seq<Datagram>)
    requires s.running && IsRequest(e, "INVITE") && IsTag(e.tag) && IsTag(e.rejectTag)
    requires e.request.value.headers.Get("call-id") == Some(c) && c != MISSING_CALL_ID
    requires c !in s.dialogs && c !in s.pending
    ensures var o := Step(cfg, s, e);
            && o.sent == trying + ringing + final && Early(cfg, trying, ringing, e)
            && Admission(cfg, s, o.state, e, c, final, full, unusable) && OthersAge(s, o.state, c, e.now)
    ensures OneReply(full, e.source, e.request.value, 503, "Service Unavailable", Some(e.rejectTag))
    ensures OneReply(unusable, e.source, e.request.value, 488, "Not Acceptable Here", Some(e.tag))
  {
    var req := e.request.value;
    trying := SendTo(ResponseText(req, 100, "Trying", None), e.source);
    ringing := if cfg.ringing then SendTo(RingingText(req, e.tag), e.source) else [];
    full := SendTo(ResponseText(req, 503, "Service Unavailable", Some(e.rejectTag)), e.source);
    unusable := SendTo(ResponseText(req, 488, "Not Acceptable Here", Some(e.tag)), e.source);
    EarlyReads(cfg, e);
    FinalReads(e);
    AdmitIs(cfg, s, e, trying + ringing, full, unusable);
    final := AdmitCases(cfg, s, e, c, trying + ringing, full, unusable);
    AdmissionAges(cfg, s, AdmitWith(cfg, s, e, trying + ringing, full, unusable).state, e, c, final, full, unusable);
  }

  lemma AdmitIs(cfg: Config, s: State, e: Event, early: seq<Datagram>, full: seq<Datagram>, unusable: seq<Datagram>)
    requires IsRequest(e, "INVITE") && e.request.value.headers.Get("call-id").Some?
    requires var c := CallIdOf(e.request.value); c != MISSING_CALL_ID && c !in s.dialogs && c !in s.pending
    requires early == SendTo(ResponseText(e.request.value, 100, "Trying", None), e.source)
                      + (if cfg.ringing then SendTo(RingingText(e.request.value, e.tag), e.source) else [])
    requires full == SendTo(ResponseText(e.request.value, 503, "Service Unavailable", Some(e.rejectTag)), e.source)
    requires unusable == SendTo(ResponseText(e.request.value, 488, "Not Acceptable Here", Some(e.tag)), e.source)
    ensures OnRequest(cfg, s, e) == AdmitWith(cfg, s, e, early, full, unusable)
  {
  }

  /** An INVITE for an invite that is pending is ignored. */
  lemma InviteIgnored(cfg: Config, s: State, e: Event)
    requires s.running && IsRequest(e, "INVITE")
    requires CallIdOf(e.request.value) in s.pending && CallIdOf(e.request.value) !in s.dialogs
    ensures var o := Step(cfg, s, e); o.sent == [] && CallsKept(s, o.state) && PendingAge(s, o.state, e.now)
  {
  }

  /**
    The 400 for an INVITE without a Call-ID is never sent, since a response needs one; it goes out only to
    a Call-ID that spells the placeholder.
   */
  lemma InviteWithoutCallId(cfg: Config, s: State, e: Event)
    requires s.running && IsRequest(e, "INVITE") && MISSING_CALL_ID !in s.dialogs && MISSING_CALL_ID !in s.pending
    requires CallIdOf(e.request.value) == MISSING_CALL_ID
    ensures var o := Step(cfg, s, e);
            && CallsKept(s, o.state) && PendingAge(s, o.state, e.now)
            && (e.request.value.headers.Get("call-id").None? ==> o.sent == [])
            && OneReply(o.sent, e.source, e.request.value, 400, "Bad Request", None)
  {
    BadRequestReason();
    ReplyReads(e.request.value, 400, "Bad Request", None, e.source);
  }
}
