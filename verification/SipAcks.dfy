/** Which responses the engine acknowledges, and what the ACK says. */
module SipAcks {
  import opened Wrappers
  import opened Strings
  import opened Sip
  import opened SipRoundTrip
  import opened SipEngine
  import opened SipEngineRuns
  import opened SipEngineEnds

  // ---- the INVITEs the gateway sent -------------------------------------------------

  ghost predicate WasSent(es: seq<Event>, inv: SentInvite, c: string) {
    inv.callId == c && exists i :: 0 <= i < |es| && es[i].InviteSent? && es[i].invite == inv
  }

  /** A step remembers no INVITE but those it remembered and the one it sends. */
  ghost predicate Remembers(s: State, r: State, e: Event) {
    forall c :: c in r.outbound ==>
      || (c in s.outbound && r.outbound[c].invite == s.outbound[c].invite)
      || (e.InviteSent? && c == e.invite.callId && r.outbound[c].invite == e.invite)
  }

  lemma StepRemembers(cfg: Config, s: State, e: Event)
    ensures Remembers(s, Step(cfg, s, e).state, e)
  {
    if s.running {
      match e
      case Received(_, _, _, _, _, _, _) => RequestKeepsOutbound(cfg, s, e);
      case Responded(_, _, _, _, _, _) => ResponseRemembers(cfg, s, e);
      case SetupDone(_, _, _, _, _) => SetupKeepsOutbound(cfg, s, e);
      case BackendEnd(_, _) =>
      case InviteSent(_, _) =>
      case CommandsClosed =>
    }
  }

  lemma RequestKeepsOutbound(cfg: Config, s: State, e: Event)
    requires e.Received?
    ensures OnRequest(cfg, s, e).state.outbound == s.outbound
  {
  }

  lemma SetupKeepsOutbound(cfg: Config, s: State, e: Event)
    requires e.SetupDone?
    ensures OnSetupDone(cfg, s, e).state.outbound == s.outbound
  {
  }

  lemma ResponseRemembers(cfg: Config, s: State, e: Event)
    requires e.Responded?
    ensures Remembers(s, OnResponse(cfg, s, e).state, e)
  {
    var h := e.response.headers;
    if AnswersOutbound(s, h) && h.Get("to").Some? {
      var c := h.Get("call-id").value;
      var uri := AckUri(s.outbound[c].invite, h);
      if uri.Some? {
        AckRemembers(s, e, c, AckText(s.outbound[c].invite, uri.value, h.Get("to").value, cfg.host, e.branch));
      }
    }
  }

  lemma AckRemembers(s: State, e: Event, c: string, text: string)
    requires e.Responded? && c in s.outbound
    ensures Remembers(s, Acknowledge(s, e, c, text).state, e)
  {
  }

  /** On every run, what is remembered under a Call-ID is an INVITE that was sent with it. */
  lemma {:induction false} OutboundWasSent(cfg: Config, es: seq<Event>)
    ensures forall c :: c in Run(cfg, Init(), es).outbound ==> WasSent(es, Run(cfg, Init(), es).outbound[c].invite, c)
  {
    if es != [] {
      var n := |es| - 1;
      OutboundWasSent(cfg, es[..n]);
      var s := Run(cfg, Init(), es[..n]);
      StepRemembers(cfg, s, es[n]);
      StillSent(es, n, s, Step(cfg, s, es[n]).state);
    }
  }

  lemma StillSent(es: seq<Event>, n: nat, s: State, r: State)
    requires |es| == n + 1 && Remembers(s, r, es[n])
    requires forall c :: c in s.outbound ==> WasSent(es[..n], s.outbound[c].invite, c)
    ensures forall c :: c in r.outbound ==> WasSent(es, r.outbound[c].invite, c)
  {
    forall c | c in r.outbound ensures WasSent(es, r.outbound[c].invite, c) {
      if c in s.outbound && r.outbound[c].invite == s.outbound[c].invite {
        var i :| 0 <= i < n && es[..n][i].InviteSent? && es[..n][i].invite == s.outbound[c].invite;
        assert es[i] == es[..n][i];
      }
    }
  }

  // ---- the ACK ----------------------------------------------------------------------

  /** A response to an INVITE that the gateway sent and remembers, with a To, and a Contact that can be read. */
  predicate Acknowledged(s: State, h: Headers) {
    AnswersOutbound(s, h) && h.Get("to").Some? && !CrossedContact(h)
  }

  /** One ACK for exactly these responses: their status does not matter. */
  lemma AckedExactly(cfg: Config, s: State, e: Event)
    requires e.Responded?
    ensures |OnResponse(cfg, s, e).sent| == if Acknowledged(s, e.response.headers) then 1 else 0
  {
    var h := e.response.headers;
    if AnswersOutbound(s, h) { AckUriIff(s.outbound[h.Get("call-id").value].invite, h); }
  }

  ghost predicate CleanResponse(r: Response) { r.headers.Valid() && CleanValues(r.headers.entries) }

  lemma ResponsesAreClean(text: string, w: Setting)
    requires Arrival(text, w).Responded?
    ensures CleanResponse(Arrival(text, w).response)
  {
    EntriesAreClean(Lines(SplitMessage(text).0)[1..]);
  }

  /** Where an ACK is addressed to: what the Contact of the response says or, without one, as the INVITE was. */
  predicate Targets(uri: string, h: Headers, inv: SentInvite) {
    match h.Get("contact") case None => uri == inv.uri case Some(v) => UriOfNameAddr(v) == Some(uri)
  }

  /** The ACK `text` to `uri` answers the response with these headers on behalf of `inv`. */
  ghost predicate Answers(text: string, uri: string, h: Headers, inv: SentInvite)
    requires Addressable(uri)
  {
    var r := ParseRequest(text);
    && r.Some? && r.value.requestMethod == "ACK" && r.value.uri == Words(Rust, uri)[0]
    && r.value.headers.Get("call-id") == h.Get("call-id") && r.value.headers.Get("to") == h.Get("to")
    && r.value.headers.Get("from") == Some(inv.from)
    && r.value.headers.Get("cseq") == Some(Decimal(inv.cseq) + " ACK")
  }

  /** What the gateway puts into an INVITE of its own. */
  predicate CleanInvite(inv: SentInvite) { Clean(inv.from) && Clean(inv.callId) && NoChar('\n', inv.uri) }

  /**
    Section 17.1.1.3 of RFC 3261, on every run: each ACK that is sent carries Call-ID and To of the
    response and From and CSeq number of an INVITE sent earlier in that run, and can be read exactly
    when its target can be addressed.
   */
  lemma AckAnswersTheResponse(cfg: Config, es: seq<Event>, e: Event) returns (uri: string)
    requires forall i :: 0 <= i < |es| && es[i].InviteSent? ==> CleanInvite(es[i].invite)
    requires IsHost(cfg.host) && e.Responded? && CleanResponse(e.response) && IsTag(e.branch)
    requires Acknowledged(Run(cfg, Init(), es), e.response.headers)
    ensures var s, h := Run(cfg, Init(), es), e.response.headers;
            var c := h.Get("call-id").value;
            var inv := s.outbound[c].invite;
            WasSent(es, inv, c) && Targets(uri, h, inv) && AckSent(OnResponse(cfg, s, e).sent, uri, e, inv)
  {
    var s := Run(cfg, Init(), es);
    OutboundWasSent(cfg, es);
    var c := e.response.headers.Get("call-id").value;
    assert WasSent(es, s.outbound[c].invite, c);
    uri := AckReads(cfg, s, e, c);
  }

  /** One datagram, to the address of the Contact or back to the sender: an ACK if the target can be addressed. */
  ghost predicate AckSent(sent: seq<Datagram>, uri: string, e: Event, inv: SentInvite)
    requires e.Responded?
  {
    && |sent| == 1
    && sent[0].target == (if e.contactAddr.Some? then e.contactAddr.value else e.source)
    && (Addressable(uri) ==> Answers(sent[0].payload, uri, e.response.headers, inv))
    && (!Addressable(uri) ==> ParseRequest(sent[0].payload).None?)
  }

  lemma AckReads(cfg: Config, s: State, e: Event, c: string) returns (uri: string)
    requires IsHost(cfg.host) && e.Responded? && CleanResponse(e.response) && IsTag(e.branch)
    requires Acknowledged(s, e.response.headers) && e.response.headers.Get("call-id") == Some(c)
    requires CleanInvite(s.outbound[c].invite) && s.outbound[c].invite.callId == c
    ensures Targets(uri, e.response.headers, s.outbound[c].invite)
    ensures AckSent(OnResponse(cfg, s, e).sent, uri, e, s.outbound[c].invite)
  {
    var h, inv := e.response.headers, s.outbound[c].invite;
    AckUriIff(inv, h);
    uri := AckUri(inv, h).value;
    FirstOfIsClean(h.entries, "to");
    if h.Get("contact").Some? {
      FirstOfIsClean(h.entries, "contact");
      NameAddrIsOneLine(h.Get("contact").value);
    }
    AckRoundTrip(inv, uri, h.Get("to").value, cfg.host, e.branch);
  }

  /** The ACK is remembered as sent exactly when its datagram went out and the transaction goes on. */
  lemma AckIsRemembered(cfg: Config, s: State, e: Event, c: string)
    requires e.Responded? && Acknowledged(s, e.response.headers) && e.response.headers.Get("call-id") == Some(c)
    ensures var r := OnResponse(cfg, s, e).state;
            c in r.outbound ==> (r.outbound[c].acked <==> s.outbound[c].acked || e.sendOk)
  {
    var h, inv := e.response.headers, s.outbound[c].invite;
    AckUriIff(inv, h);
    MarksAck(s, e, c, AckText(inv, AckUri(inv, h).value, h.Get("to").value, cfg.host, e.branch));
  }

  lemma MarksAck(s: State, e: Event, c: string, text: string)
    requires e.Responded? && c in s.outbound
    ensures var r := Acknowledge(s, e, c, text).state;
            c in r.outbound ==> (r.outbound[c].acked <==> s.outbound[c].acked || e.sendOk)
  {
  }

  // ---- retransmissions --------------------------------------------------------------

  /** Step by step: what is left of the transaction after its response. */
  lemma AfterResponse(cfg: Config, s: State, e: Event, c: string)
    requires e.Responded? && Acknowledged(s, e.response.headers) && e.response.headers.Get("call-id") == Some(c)
    ensures var r := OnResponse(cfg, s, e).state;
            && (c in r.outbound <==> e.response.status < 300)
            && (c in r.outbound ==> r.outbound[c].invite == s.outbound[c].invite
                                    && r.outbound[c].createdAt == s.outbound[c].createdAt)
  {
    var h, inv := e.response.headers, s.outbound[c].invite;
    AckUriIff(inv, h);
    AckLeaves(s, e, c, AckText(inv, AckUri(inv, h).value, h.Get("to").value, cfg.host, e.branch));
  }

  lemma AckLeaves(s: State, e: Event, c: string, text: string)
    requires e.Responded? && c in s.outbound
    ensures var r := Acknowledge(s, e, c, text).state;
            && (c in r.outbound <==> e.response.status < 300)
            && (c in r.outbound ==> r.outbound[c].invite == s.outbound[c].invite
                                    && r.outbound[c].createdAt == s.outbound[c].createdAt)
  {
  }

  /**
    An acknowledged response that arrives again is acknowledged again exactly when it is no failure and
    its INVITE was less than five minutes old when it arrived first.
   */
  lemma AckedAgainIff(cfg: Config, s: State, e: Event, again: Event)
    requires s.running && e.Responded? && Acknowledged(s, e.response.headers)
    requires again.Responded? && again.response == e.response
    ensures var created := s.outbound[e.response.headers.Get("call-id").value].createdAt;
            |Step(cfg, Step(cfg, s, e).state, again).sent| ==
            if e.response.status < 300 && !Expired(created, e.now, OUTBOUND_LIFETIME_MS) then 1 else 0
  {
    var c := e.response.headers.Get("call-id").value;
    AfterResponse(cfg, s, e, c);
    ResponseRunning(cfg, s, e);
    AckedExactly(cfg, Cleanup(OnResponse(cfg, s, e).state, e.now), again);
  }
}
