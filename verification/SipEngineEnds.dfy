/** When the engine task ends. */
module SipEngineEnds {
  import opened Wrappers
  import opened Strings
  import opened Sip
  import opened SipEngine
  import opened SipEngineRuns

  /** A Contact whose first `>` comes before its first `<`. */
  predicate Crossed(v: string) {
    Find(v, "<").Some? && Find(v, ">").Some? && Find(v, ">").value < Find(v, "<").value
  }

  predicate CrossedContact(h: Headers) { h.Get("contact").Some? && Crossed(h.Get("contact").value) }

  lemma UriIff(v: string)
    ensures UriOfNameAddr(v).None? <==> Crossed(v)
  {
    var a, b := Find(v, "<"), Find(v, ">");
    if a.Some? && b.Some? { assert v[a.value..a.value + 1][0] == '<' && v[b.value..b.value + 1][0] == '>'; }
  }

  lemma RemoteUriIff(req: Request)
    ensures RemoteUri(req).None? <==> CrossedContact(req.headers)
  {
    if req.headers.Get("contact").Some? { UriIff(req.headers.Get("contact").value); }
  }

  lemma AckUriIff(inv: SentInvite, h: Headers)
    ensures AckUri(inv, h).None? <==> CrossedContact(h)
  {
    if h.Get("contact").Some? { UriIff(h.Get("contact").value); }
  }

  /** A setup that succeeded for a pending, answerable invite with a crossed Contact, once its 200 OK was sent. */
  predicate AbortsAnswering(s: State, e: Event) {
    && e.SetupDone? && e.callId in s.pending && e.bridgePort.Some? && e.sendOk
    && Answerable(s.pending[e.callId].request) && CrossedContact(s.pending[e.callId].request.headers)
  }

  /** A response with a To and a crossed Contact to an INVITE that the gateway sent and remembers. */
  predicate AbortsAcking(s: State, e: Event) {
    e.Responded? && AnswersOutbound(s, e.response.headers) && e.response.headers.Get("to").Some?
    && CrossedContact(e.response.headers)
  }

  predicate Ends(s: State, e: Event) { AbortsAnswering(s, e) || AbortsAcking(s, e) || e.CommandsClosed? }

  /** The running task ends in exactly these steps: two ways to abort, and the orderly one. */
  lemma AbortStep(cfg: Config, s: State, e: Event)
    requires s.running
    ensures !Step(cfg, s, e).state.running <==> Ends(s, e)
  {
    match e
    case Received(_, _, _, _, _, _, _) => RequestKeepsRunning(cfg, s, e);
    case Responded(_, _, _, _, _, _) => ResponseRunning(cfg, s, e);
    case SetupDone(_, c, _, _, _) =>
      if c in s.pending {
        var p := s.pending[c];
        RemoteUriIff(p.request);
        ConcludeRunning(cfg, s, e, ResponseText(p.request, 503, "Service Unavailable", Some(p.tag)),
                        OkText(p.request, p.tag, cfg.host, p.port), RemoteUri(p.request));
      }
    case BackendEnd(_, _) =>
    case InviteSent(_, _) =>
    case CommandsClosed =>
  }

  lemma ResponseRunning(cfg: Config, s: State, e: Event)
    requires s.running && e.Responded?
    ensures !OnResponse(cfg, s, e).state.running <==> AbortsAcking(s, e)
  {
    var h := e.response.headers;
    if AnswersOutbound(s, h) { AckUriIff(s.outbound[h.Get("call-id").value].invite, h); }
  }

  lemma RequestKeepsRunning(cfg: Config, s: State, e: Event)
    requires e.Received?
    ensures OnRequest(cfg, s, e).state.running == s.running
  {
  }

  lemma ConcludeRunning(cfg: Config, s: State, e: Event, refusal: Option<string>, okText: Option<string>,
                        remote: Option<string>)
    requires s.running && e.SetupDone? && e.callId in s.pending
    requires okText.Some? ==> Answerable(s.pending[e.callId].request)
    ensures !Conclude(cfg, s, e, refusal, okText, remote).state.running <==>
            e.bridgePort.Some? && e.sendOk && okText.Some? && remote.None?
  {
  }

  ghost predicate EndedAt(run: Runner, es: seq<Event>, i: int) {
    0 <= i < |es| && run(es[..i]).running && Ends(run(es[..i]), es[i])
  }

  lemma EndedEarlier(run: Runner, es: seq<Event>, n: nat)
    requires |es| == n + 1
    ensures (exists i :: EndedAt(run, es, i)) <==> (exists i :: EndedAt(run, es[..n], i)) || EndedAt(run, es, n)
  {
    forall i | 0 <= i < n ensures EndedAt(run, es, i) <==> EndedAt(run, es[..n], i) {
      assert es[..n][..i] == es[..i] && es[..n][i] == es[i];
    }
  }

  /** A run has stopped if and only if one of its steps ended the task. */
  lemma {:induction false} StoppedExactly(cfg: Config, es: seq<Event>)
    ensures !Run(cfg, Init(), es).running <==> exists i :: EndedAt(RunnerOf(cfg), es, i)
  {
    if es != [] {
      var n := |es| - 1;
      StoppedExactly(cfg, es[..n]);
      EndedEarlier(RunnerOf(cfg), es, n);
      var s := Run(cfg, Init(), es[..n]);
      if s.running { AbortStep(cfg, s, es[n]); }
    }
  }

  /** An INVITE, or a response to an INVITE of the gateway, with a crossed Contact; or the end of the commands. */
  predicate Harmful(s: State, e: Event) {
    || (e.Received? && e.request.Some? && e.request.value.requestMethod == "INVITE"
        && CrossedContact(e.request.value.headers))
    || AbortsAcking(s, e)
    || e.CommandsClosed?
  }

  /**
    The task survives every run on which no received INVITE, and no response to an INVITE that the
    gateway sent and remembers, has a crossed Contact, until its command channel is closed.
   */
  lemma EngineSurvives(cfg: Config, es: seq<Event>)
    requires forall i :: 0 <= i < |es| ==> !Harmful(Run(cfg, Init(), es[..i]), es[i])
    ensures Run(cfg, Init(), es).running
  {
    StoppedExactly(cfg, es);
    forall i | 0 <= i < |es| ensures !EndedAt(RunnerOf(cfg), es, i) {
      EveryRunIsTraced(cfg, es[..i]);
      TracedNeverEnds(cfg, RunnerOf(cfg), es, i);
    }
  }

  lemma TracedNeverEnds(cfg: Config, run: Runner, es: seq<Event>, i: nat)
    requires i < |es| && Traced(cfg, run, es[..i], run(es[..i]))
    requires forall j :: 0 <= j < |es| ==> !Harmful(run(es[..j]), es[j])
    ensures !EndedAt(run, es, i)
  {
    var s := run(es[..i]);
    if es[i].SetupDone? && es[i].callId in s.pending {
      var c := es[i].callId;
      var j :| PendingFrom(cfg, run, es[..i], c, s.pending[c], j);
      assert es[..i][j] == es[j];
    }
  }
}
