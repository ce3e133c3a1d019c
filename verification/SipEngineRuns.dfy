/** What every run of the engine keeps. */
module SipEngineRuns {
  import opened Wrappers
  import opened Strings
  import opened Sip
  import opened SipRoundTrip
  import opened SipEngine

  // ---- bookkeeping on every run -----------------------------------------------------

  /** Call-IDs are pending or open, never both; the counters count the dialogs. */
  ghost predicate Booked(s: State) {
    && s.pending.Keys !! s.dialogs.Keys
    && s.active == |s.dialogs|
    && s.accepted == |s.dialogs| + s.teardowns
  }

  lemma RemoveOne(m: map<string, Dialog>, c: string)
    requires c in m
    ensures |m - {c}| == |m| - 1
  {
    assert (m - {c}).Keys == m.Keys - {c};
  }

  lemma AddOne(m: map<string, Dialog>, c: string, d: Dialog)
    requires c !in m
    ensures |m[c := d]| == |m| + 1
  {
    assert m[c := d].Keys == m.Keys + {c};
  }

  lemma CloseBooked(s: State, c: string)
    requires Booked(s)
    ensures Booked(CloseDialog(s, c))
  {
    if c in s.dialogs { RemoveOne(s.dialogs, c); }
  }

  lemma SetupBooked(cfg: Config, s: State, e: Event)
    requires Booked(s) && e.SetupDone?
    ensures Booked(OnSetupDone(cfg, s, e).state)
  {
    if e.callId in s.pending {
      var p := s.pending[e.callId];
      ConcludeBooked(cfg, s, e, ResponseText(p.request, 503, "Service Unavailable", Some(p.tag)),
                     OkText(p.request, p.tag, cfg.host, p.port), RemoteUri(p.request));
    }
  }

  lemma ConcludeBooked(cfg: Config, s: State, e: Event, refusal: Option<string>, okText: Option<string>,
                       remote: Option<string>)
    requires Booked(s) && e.SetupDone? && e.callId in s.pending
    requires okText.Some? ==> Answerable(s.pending[e.callId].request)
    ensures Booked(Conclude(cfg, s, e, refusal, okText, remote).state)
  {
    var r := Conclude(cfg, s, e, refusal, okText, remote).state;
    var c := e.callId;
    if c in r.dialogs { AddOne(s.dialogs, c, r.dialogs[c]); }
  }

  lemma InviteBooked(cfg: Config, s: State, e: Event)
    requires Booked(s) && e.Received? && e.request.Some?
    ensures Booked(OnInvite(cfg, s, e).state)
  {
    var c := CallIdOf(e.request.value);
    if c !in s.dialogs && c !in s.pending && c != MISSING_CALL_ID {
      var early, full, unusable := AdmitTexts(cfg, s, e);
      AdmitBooked(cfg, s, e, early, full, unusable);
    }
  }

  /** What is sent does not matter for the state. */
  lemma AdmitTexts(cfg: Config, s: State, e: Event)
    returns (early: seq<Datagram>, full: seq<Datagram>, unusable: seq<Datagram>)
    requires e.Received? && e.request.Some?
    ensures Admit(cfg, s, e) == AdmitWith(cfg, s, e, early, full, unusable)
  {
    var req := e.request.value;
    early := SendTo(ResponseText(req, 100, "Trying", None), e.source)
             + (if cfg.ringing then SendTo(RingingText(req, e.tag), e.source) else []);
    full := SendTo(ResponseText(req, 503, "Service Unavailable", Some(e.rejectTag)), e.source);
    unusable := SendTo(ResponseText(req, 488, "Not Acceptable Here", Some(e.tag)), e.source);
  }

  lemma AdmitBooked(cfg: Config, s: State, e: Event, early: seq<Datagram>, full: seq<Datagram>,
                    unusable: seq<Datagram>)
    requires Booked(s) && e.Received? && e.request.Some? && CallIdOf(e.request.value) !in s.dialogs
    ensures Booked(AdmitWith(cfg, s, e, early, full, unusable).state)
  {
  }

  lemma RequestBooked(cfg: Config, s: State, e: Event)
    requires Booked(s) && e.Received?
    ensures Booked(OnRequest(cfg, s, e).state)
  {
    if e.request.Some? {
      var req := e.request.value;
      var c := CallIdOf(req);
      match req.requestMethod
      case "INVITE" => InviteBooked(cfg, s, e);
      case "BYE" =>
        var text := ResponseText(req, 200, "OK", None);
        var key := AnswerKey(req);
        if key !in s.answers {
          var s1 := if text.Some? && e.sendOk
                    then s.(answers := s.answers[key := CachedAnswer(text.value, e.source, e.now)]) else s;
          CloseBooked(s1, c);
        }
      case "CANCEL" =>
      case _ =>
    }
  }

  lemma StepBooked(cfg: Config, s: State, e: Event)
    requires Booked(s)
    ensures Booked(Step(cfg, s, e).state)
  {
    if s.running {
      match e
      case Received(_, _, _, now, _, _, _) => RequestBooked(cfg, s, e);
      case Responded(_, _, _, _, _, _) => ResponseFrame(cfg, s, e);
      case SetupDone(_, _, _, _, _) => SetupBooked(cfg, s, e);
      case BackendEnd(c, _) => CloseBooked(s, c);
      case InviteSent(_, _) =>
      case CommandsClosed =>
    }
  }

  /** A response touches nothing of the inbound calls. */
  lemma ResponseFrame(cfg: Config, s: State, e: Event)
    requires e.Responded?
    ensures var r := OnResponse(cfg, s, e).state;
            r == s.(outbound := r.outbound, running := r.running)
  {
    var h := e.response.headers;
    if AnswersOutbound(s, h) && h.Get("to").Some? {
      var c := h.Get("call-id").value;
      var uri := AckUri(s.outbound[c].invite, h);
      if uri.Some? {
        AcknowledgeFrame(s, e, c, AckText(s.outbound[c].invite, uri.value, h.Get("to").value, cfg.host, e.branch));
      }
    }
  }

  lemma AcknowledgeFrame(s: State, e: Event, c: string, text: string)
    requires e.Responded? && c in s.outbound
    ensures var r := Acknowledge(s, e, c, text).state; r == s.(outbound := r.outbound)
  {
  }

  /** On every run, whatever arrives, expires or is cancelled. */
  lemma {:induction false} EveryRunIsBooked(cfg: Config, es: seq<Event>)
    ensures Booked(Run(cfg, Init(), es))
  {
    if es != [] {
      EveryRunIsBooked(cfg, es[..|es| - 1]);
      StepBooked(cfg, Run(cfg, Init(), es[..|es| - 1]), es[|es| - 1]);
    }
  }

  /** The active-call gauge is never decremented at zero: it would wrap only with no dialog to close. */
  lemma GaugeNeverUnderflows(cfg: Config, es: seq<Event>, c: string)
    ensures var s := Run(cfg, Init(), es); c in s.dialogs ==> s.active > 0 && CloseDialog(s, c).active == s.active - 1
  {
    EveryRunIsBooked(cfg, es);
    var s := Run(cfg, Init(), es);
    if c in s.dialogs { RemoveOne(s.dialogs, c); }
  }

  // ---- who holds which port ---------------------------------------------------------

  function PendingPorts(m: map<string, Pending>): (ps: set<nat>) { set c | c in m :: m[c].port }
  function DialogPorts(m: map<string, Dialog>): (ps: set<nat>) { set c | c in m :: m[c].port }
  function HeldPorts(s: State): (ps: set<nat>) { PendingPorts(s.pending) + DialogPorts(s.dialogs) }

  ghost predicate DistinctPending(m: map<string, Pending>) {
    forall c, d :: c in m && d in m && c != d ==> m[c].port != m[d].port
  }

  ghost predicate DistinctDialogs(m: map<string, Dialog>) {
    forall c, d :: c in m && d in m && c != d ==> m[c].port != m[d].port
  }

  /** No two calls hold the same port. */
  ghost predicate Exclusive(s: State) {
    DistinctPending(s.pending) && DistinctDialogs(s.dialogs) && PendingPorts(s.pending) !! DialogPorts(s.dialogs)
  }

  /** The pool's set is the ports that calls hold, one call each, and the leaked ones, held by none. */
  ghost predicate Tracked(s: State, leaked: set<nat>) {
    s.inUse == HeldPorts(s) + leaked && HeldPorts(s) !! leaked && Exclusive(s)
  }

  /** The pool's set is exactly the ports that calls hold, one call each. */
  ghost predicate Owned(s: State) { Tracked(s, {}) }

  lemma PendingWithout(m: map<string, Pending>, c: string)
    requires DistinctPending(m) && c in m
    ensures PendingPorts(m - {c}) == PendingPorts(m) - {m[c].port} && m[c].port in PendingPorts(m)
    ensures DistinctPending(m - {c})
  {
    var r := m - {c};
    forall p | p in PendingPorts(m) - {m[c].port} ensures p in PendingPorts(r) {
      var d :| d in m && m[d].port == p;
      assert d in r && r[d].port == p;
    }
  }

  lemma PendingWith(m: map<string, Pending>, c: string, v: Pending)
    requires DistinctPending(m) && c !in m && v.port !in PendingPorts(m)
    ensures PendingPorts(m[c := v]) == PendingPorts(m) + {v.port} && DistinctPending(m[c := v])
  {
    var r := m[c := v];
    assert r[c] == v;
    forall p | p in PendingPorts(m) ensures p in PendingPorts(r) {
      var d :| d in m && m[d].port == p;
      assert r[d].port == p;
    }
    assert forall d :: d in m ==> m[d].port in PendingPorts(m) && r[d] == m[d];
  }

  lemma DialogsWithout(m: map<string, Dialog>, c: string)
    requires DistinctDialogs(m) && c in m
    ensures DialogPorts(m - {c}) == DialogPorts(m) - {m[c].port} && m[c].port in DialogPorts(m)
    ensures DistinctDialogs(m - {c})
  {
    var r := m - {c};
    forall p | p in DialogPorts(m) - {m[c].port} ensures p in DialogPorts(r) {
      var d :| d in m && m[d].port == p;
      assert d in r && r[d].port == p;
    }
  }

  lemma DialogsWith(m: map<string, Dialog>, c: string, v: Dialog)
    requires DistinctDialogs(m) && c !in m && v.port !in DialogPorts(m)
    ensures DialogPorts(m[c := v]) == DialogPorts(m) + {v.port} && DistinctDialogs(m[c := v])
  {
    var r := m[c := v];
    assert r[c] == v;
    forall p | p in DialogPorts(m) ensures p in DialogPorts(r) {
      var d :| d in m && m[d].port == p;
      assert r[d].port == p;
    }
    assert forall d :: d in m ==> m[d].port in DialogPorts(m) && r[d] == m[d];
  }

  lemma DropPendingTracked(s: State, leaked: set<nat>, c: string)
    requires Tracked(s, leaked) && c in s.pending
    ensures Tracked(DropPending(s, c), leaked)
  {
    PendingWithout(s.pending, c);
  }

  lemma CloseTracked(s: State, leaked: set<nat>, c: string)
    requires Tracked(s, leaked)
    ensures Tracked(CloseDialog(s, c), leaked)
  {
    if c in s.dialogs { DialogsWithout(s.dialogs, c); }
  }

  lemma InviteTracked(cfg: Config, s: State, leaked: set<nat>, e: Event)
    requires Tracked(s, leaked) && e.Received? && e.request.Some?
    ensures Tracked(OnInvite(cfg, s, e).state, leaked)
  {
    var c := CallIdOf(e.request.value);
    if c !in s.dialogs && c !in s.pending && c != MISSING_CALL_ID {
      var early, full, unusable := AdmitTexts(cfg, s, e);
      AdmitTracked(cfg, s, leaked, e, early, full, unusable);
    }
  }

  lemma AdmitTracked(cfg: Config, s: State, leaked: set<nat>, e: Event, early: seq<Datagram>, full: seq<Datagram>,
                     unusable: seq<Datagram>)
    requires Tracked(s, leaked) && e.Received? && e.request.Some? && CallIdOf(e.request.value) !in s.pending
    ensures Tracked(AdmitWith(cfg, s, e, early, full, unusable).state, leaked)
  {
    var c := CallIdOf(e.request.value);
    var port := FirstFree(cfg.portStart, cfg.portEnd, s.inUse);
    if port.Some? {
      PendingWith(s.pending, c, Pending(e.request.value, e.source, e.tag, port.value, e.now, |s.setups|));
    }
  }

  lemma SetupTracked(cfg: Config, s: State, leaked: set<nat>, e: Event)
    requires Tracked(s, leaked) && Booked(s) && e.SetupDone? && e.callId in s.pending
    ensures Tracked(OnSetupDone(cfg, s, e).state, leaked)
  {
    var p := s.pending[e.callId];
    ConcludeTracked(cfg, s, leaked, e, ResponseText(p.request, 503, "Service Unavailable", Some(p.tag)),
                    OkText(p.request, p.tag, cfg.host, p.port), RemoteUri(p.request));
  }

  lemma ConcludeTracked(cfg: Config, s: State, leaked: set<nat>, e: Event,
                        refusal: Option<string>, okText: Option<string>, remote: Option<string>)
    requires Tracked(s, leaked) && Booked(s) && e.SetupDone? && e.callId in s.pending
    requires okText.Some? ==> Answerable(s.pending[e.callId].request)
    ensures Tracked(Conclude(cfg, s, e, refusal, okText, remote).state, leaked)
  {
    var r := Conclude(cfg, s, e, refusal, okText, remote).state;
    var c := e.callId;
    DropPendingTracked(s, leaked, c);
    if r.dialogs != s.dialogs {
      PromoteTracked(s, leaked, c, r.dialogs[c]);
    }
  }

  lemma PromoteTracked(s: State, leaked: set<nat>, c: string, d: Dialog)
    requires Tracked(s, leaked) && Booked(s) && c in s.pending && d.port == s.pending[c].port
    ensures Tracked(s.(pending := s.pending - {c}, dialogs := s.dialogs[c := d]), leaked)
  {
    PendingWithout(s.pending, c);
    DialogsWith(s.dialogs, c, d);
  }

  lemma LateSetup(s: State, leaked: set<nat>, port: nat)
    requires Tracked(s, leaked)
    ensures Tracked(s.(inUse := s.inUse - {port}), leaked - {port}) <==> port !in HeldPorts(s)
  {
    var r := s.(inUse := s.inUse - {port});
    assert HeldPorts(r) == HeldPorts(s);
    if port !in HeldPorts(s) { assert r.inUse == HeldPorts(r) + (leaked - {port}); }
  }

  lemma RequestTracked(cfg: Config, s: State, leaked: set<nat>, e: Event)
    requires Tracked(s, leaked) && e.Received?
    ensures Tracked(OnRequest(cfg, s, e).state, leaked)
  {
    if e.request.Some? {
      var req := e.request.value;
      var c := CallIdOf(req);
      match req.requestMethod
      case "INVITE" => InviteTracked(cfg, s, leaked, e);
      case "BYE" => ByeTracked(s, leaked, e);
      case "CANCEL" => if c in s.pending { DropPendingTracked(s, leaked, c); }
      case _ =>
    }
  }

  lemma ByeTracked(s: State, leaked: set<nat>, e: Event)
    requires Tracked(s, leaked) && e.Received? && e.request.Some?
    ensures Tracked(OnBye(s, e).state, leaked)
  {
    var req := e.request.value;
    var key := AnswerKey(req);
    if key !in s.answers {
      var text := ResponseText(req, 200, "OK", None);
      var s1 := if text.Some? && e.sendOk
                then s.(answers := s.answers[key := CachedAnswer(text.value, e.source, e.now)]) else s;
      assert HeldPorts(s1) == HeldPorts(s);
      CloseTracked(s1, leaked, CallIdOf(req));
    }
  }

  /** The ports of the pending invites that expire now. */
  function ExpiredPorts(m: map<string, Pending>, now: nat): (ps: set<nat>) {
    set c | c in m && Expired(m[c].createdAt, now, PENDING_LIFETIME_MS) :: m[c].port
  }

  lemma CleanupTracked(s: State, leaked: set<nat>, now: nat)
    requires Tracked(s, leaked)
    ensures Tracked(Cleanup(s, now), leaked + ExpiredPorts(s.pending, now))
  {
    var r := Cleanup(s, now);
    var gone := ExpiredPorts(s.pending, now);
    forall p | p in PendingPorts(s.pending) ensures p in PendingPorts(r.pending) + gone {
      var c :| c in s.pending && s.pending[c].port == p;
      if !Expired(s.pending[c].createdAt, now, PENDING_LIFETIME_MS) { assert c in r.pending && r.pending[c].port == p; }
    }
    forall p | p in gone ensures p in PendingPorts(s.pending) && p !in PendingPorts(r.pending) {
      var c :| c in s.pending && Expired(s.pending[c].createdAt, now, PENDING_LIFETIME_MS) && s.pending[c].port == p;
      assert forall d :: d in r.pending ==> d != c && d in s.pending && r.pending[d] == s.pending[d];
    }
    assert PendingPorts(r.pending) <= PendingPorts(s.pending);
  }

  /**
    The leaked ports after a step: expiry leaks the ports of the invites it drops, a late setup
    result gives its own back.
   */
  function Leaked(cfg: Config, s: State, leaked: set<nat>, e: Event): (r: set<nat>) {
    if !s.running then leaked
    else match e
      case Received(_, _, _, now, _, _, _) => leaked + ExpiredPorts(OnRequest(cfg, s, e).state.pending, now)
      case Responded(_, _, now, _, _, _) => leaked + ExpiredPorts(s.pending, now)
      case SetupDone(_, c, Some(port), _, _) => if c in s.pending then leaked else leaked - {port}
      case _ => leaked
  }

  /** A setup that succeeds once its invite is no longer pending, while some call holds the port it was given. */
  predicate Steals(s: State, e: Event) {
    s.running && e.SetupDone? && e.bridgePort.Some? && e.callId !in s.pending && e.bridgePort.value in HeldPorts(s)
  }

  /** The pool stays accounted for, leaks included, exactly when the step does not release a port some call holds. */
  lemma TrackingStep(cfg: Config, s: State, leaked: set<nat>, e: Event)
    requires Tracked(s, leaked) && Booked(s)
    ensures Tracked(Step(cfg, s, e).state, Leaked(cfg, s, leaked, e)) <==> !Steals(s, e)
  {
    if s.running {
      match e
      case Received(_, _, _, now, _, _, _) =>
        RequestTracked(cfg, s, leaked, e);
        CleanupTracked(OnRequest(cfg, s, e).state, leaked, now);
      case Responded(_, _, now, _, _, _) =>
        ResponseFrame(cfg, s, e);
        assert HeldPorts(OnResponse(cfg, s, e).state) == HeldPorts(s);
        CleanupTracked(OnResponse(cfg, s, e).state, leaked, now);
      case SetupDone(_, c, bridge, _, _) =>
        if c in s.pending { SetupTracked(cfg, s, leaked, e); }
        else if bridge.Some? { LateSetup(s, leaked, bridge.value); }
      case BackendEnd(c, _) => CloseTracked(s, leaked, c);
      case InviteSent(_, _) => assert HeldPorts(Step(cfg, s, e).state) == HeldPorts(s);
      case CommandsClosed => assert HeldPorts(Step(cfg, s, e).state) == HeldPorts(s);
    }
  }

  ghost function LeakedBy(cfg: Config, es: seq<Event>): (r: set<nat>) {
    if es == [] then {}
    else Leaked(cfg, Run(cfg, Init(), es[..|es| - 1]), LeakedBy(cfg, es[..|es| - 1]), es[|es| - 1])
  }

  ghost predicate NeverSteals(cfg: Config, es: seq<Event>) {
    forall i :: 0 <= i < |es| ==> !Steals(Run(cfg, Init(), es[..i]), es[i])
  }

  /**
    On every run, with CANCEL and expiry, in which no late setup result names a port that a call
    holds: no two calls share a port, and the pool is their ports and the leaked ones.
   */
  lemma {:induction false} EveryPortIsAccountedFor(cfg: Config, es: seq<Event>)
    requires NeverSteals(cfg, es)
    ensures Tracked(Run(cfg, Init(), es), LeakedBy(cfg, es))
  {
    if es == [] {
      assert HeldPorts(Init()) == {};
    } else {
      var n := |es| - 1;
      forall i | 0 <= i < n ensures !Steals(Run(cfg, Init(), es[..n][..i]), es[..n][i]) {
        assert es[..n][..i] == es[..i];
      }
      EveryPortIsAccountedFor(cfg, es[..n]);
      EveryRunIsBooked(cfg, es[..n]);
      TrackingStep(cfg, Run(cfg, Init(), es[..n]), LeakedBy(cfg, es[..n]), es[n]);
    }
  }

  ghost predicate DropsInvite(s: State, now: nat) {
    exists c :: c in s.pending && Expired(s.pending[c].createdAt, now, PENDING_LIFETIME_MS)
  }

  lemma CleanupOwned(s: State, now: nat)
    requires Owned(s)
    ensures Owned(Cleanup(s, now)) <==> !DropsInvite(s, now)
  {
    CleanupTracked(s, {}, now);
    if DropsInvite(s, now) {
      var c :| c in s.pending && Expired(s.pending[c].createdAt, now, PENDING_LIFETIME_MS);
      assert s.pending[c].port in ExpiredPorts(s.pending, now);
    } else {
      assert ExpiredPorts(s.pending, now) == {};
    }
  }

  /**
    The two ways a step can lose track of a port: a datagram after which a pending invite is
    sixty seconds old, or a late setup result for a port that some call holds.
   */
  ghost predicate LosesTrack(cfg: Config, s: State, e: Event) {
    s.running &&
    match e
    case Received(_, _, _, now, _, _, _) => DropsInvite(OnRequest(cfg, s, e).state, now)
    case Responded(_, _, now, _, _, _) => DropsInvite(s, now)
    case SetupDone(_, _, _, _, _) => Steals(s, e)
    case _ => false
  }

  lemma RequestOwnership(cfg: Config, s: State, e: Event)
    requires Owned(s) && s.running && e.Received?
    ensures Owned(Step(cfg, s, e).state) <==> !DropsInvite(OnRequest(cfg, s, e).state, e.now)
  {
    RequestTracked(cfg, s, {}, e);
    CleanupOwned(OnRequest(cfg, s, e).state, e.now);
  }

  lemma ResponseOwnership(cfg: Config, s: State, e: Event)
    requires Owned(s) && s.running && e.Responded?
    ensures Owned(Step(cfg, s, e).state) <==> !DropsInvite(s, e.now)
  {
    ResponseFrame(cfg, s, e);
    var r := OnResponse(cfg, s, e).state;
    assert HeldPorts(r) == HeldPorts(s);
    CleanupOwned(r, e.now);
  }

  lemma SetupOwnership(cfg: Config, s: State, e: Event)
    requires Owned(s) && Booked(s) && s.running && e.SetupDone?
    ensures Owned(Step(cfg, s, e).state) <==> !Steals(s, e)
  {
    if e.callId in s.pending {
      SetupTracked(cfg, s, {}, e);
    } else if e.bridgePort.Some? {
      assert {} - {e.bridgePort.value} == {};
      LateSetup(s, {}, e.bridgePort.value);
    }
  }

  /** Ownership survives a step exactly when that step is neither of the two. */
  lemma OwnershipStep(cfg: Config, s: State, e: Event)
    requires Owned(s) && Booked(s)
    ensures Owned(Step(cfg, s, e).state) <==> !LosesTrack(cfg, s, e)
  {
    if s.running {
      match e
      case Received(_, _, _, _, _, _, _) => RequestOwnership(cfg, s, e);
      case Responded(_, _, _, _, _, _) => ResponseOwnership(cfg, s, e);
      case SetupDone(_, _, _, _, _) => SetupOwnership(cfg, s, e);
      case BackendEnd(c, _) => CloseTracked(s, {}, c);
      case InviteSent(_, _) => assert HeldPorts(Step(cfg, s, e).state) == HeldPorts(s);
      case CommandsClosed => assert HeldPorts(Step(cfg, s, e).state) == HeldPorts(s);
    }
  }

  /** A setup result under the Call-ID of a pending invite, and no invite left pending for sixty seconds. */
  ghost predicate OnTime(cfg: Config, s: State, e: Event) {
    match e
    case Received(_, _, _, now, _, _, _) => !DropsInvite(OnRequest(cfg, s, e).state, now)
    case Responded(_, _, now, _, _, _) => !DropsInvite(s, now)
    case SetupDone(_, c, _, _, _) => c in s.pending
    case _ => true
  }

  ghost predicate OnTimeRun(cfg: Config, es: seq<Event>) {
    forall i :: 0 <= i < |es| ==> OnTime(cfg, Run(cfg, Init(), es[..i]), es[i])
  }

  /** On every timely run the pool holds exactly the ports of pending invites and dialogs, one call each. */
  lemma {:induction false} TimelyRunsOwnTheirPorts(cfg: Config, es: seq<Event>)
    requires OnTimeRun(cfg, es)
    ensures Owned(Run(cfg, Init(), es))
  {
    if es == [] {
      assert HeldPorts(Init()) == {};
    } else {
      var n := |es| - 1;
      forall i | 0 <= i < n ensures OnTime(cfg, Run(cfg, Init(), es[..n][..i]), es[..n][i]) {
        assert es[..n][..i] == es[..i];
      }
      TimelyRunsOwnTheirPorts(cfg, es[..n]);
      EveryRunIsBooked(cfg, es[..n]);
      OwnershipStep(cfg, Run(cfg, Init(), es[..n]), es[n]);
    }
  }

  /** An invite is refused for want of a port only when some call holds each port of the range. */
  lemma RefusedOnlyWhenFull(cfg: Config, es: seq<Event>)
    requires OnTimeRun(cfg, es)
    ensures var s := Run(cfg, Init(), es);
            FirstFree(cfg.portStart, cfg.portEnd, s.inUse).None?
            <==> forall p :: cfg.portStart <= p <= cfg.portEnd ==> p in HeldPorts(s)
  {
    TimelyRunsOwnTheirPorts(cfg, es);
    var s := Run(cfg, Init(), es);
    var r := FirstFree(cfg.portStart, cfg.portEnd, s.inUse);
    if r.Some? { assert r.value !in HeldPorts(s); }
  }

  lemma SharedIsNotOwned(s: State, b: string, c: string)
    requires b in s.pending && c in s.pending && b != c && s.pending[b].port == s.pending[c].port
    ensures !Owned(s)
  {
  }

  lemma RunTo(cfg: Config, es: seq<Event>, i: nat)
    requires i < |es|
    ensures Run(cfg, Init(), es[..i + 1]) == Step(cfg, Run(cfg, Init(), es[..i]), es[i]).state
    ensures Run(cfg, Init(), es[..0]) == Init()
  {
    assert es[..i + 1][..i] == es[..i];
  }

  // ---- dialogs and their signalling -------------------------------------------------

  /** What holds of an event built from socket text and fresh UUIDs. */
  ghost predicate Genuine(e: Event) {
    e.Received? ==>
      && IsTag(e.tag) && IsTag(e.rejectTag)
      && (e.request.Some? ==> WellRead(e.request.value) && NoChar('\n', e.request.value.uri))
  }

  lemma ArrivalsAreGenuine(text: string, w: Setting)
    requires IsTag(w.tag) && IsTag(w.rejectTag)
    ensures Genuine(Arrival(text, w))
  {
    if ParseRequest(text).Some? {
      ParsedValuesAreClean(text);
      var line := Trim(Rust, Lines(SplitMessage(text).0)[0]);
      WordsAreWords(Rust, "", line);
      assert Words(Rust, line)[1] in Words(Rust, line);
      assert IsSpace(Rust, '\n');
    }
  }

  /** A pending invite is filed under its own Call-ID and can be answered from what it keeps. */
  ghost predicate PendingOk(c: string, p: Pending) {
    && WellRead(p.request) && NoChar('\n', p.request.uri) && IsTag(p.tag)
    && p.request.headers.Get("call-id") == Some(c)
  }

  /**
    Sections 12.1.1 and 12.2.1.1 of RFC 3261: the signalling kept for the dialog is the mirror
    of the 200 OK that opened it.
   */
  ghost predicate DialogOk(cfg: Config, c: string, d: Dialog) { MirrorsOk(c, d) && NamesPort(cfg, d) }

  ghost predicate MirrorsOk(c: string, d: Dialog) {
    var r := ParseResponse(d.okPayload);
    && r.Some? && r.value.status == 200
    && r.value.headers.Get("to") == Some(d.signaling.localFrom)
    && r.value.headers.Get("from") == Some(d.signaling.remoteTo)
    && r.value.headers.Get("call-id") == Some(c)
    && d.signaling.callId == c
    && CleanSignaling(d.signaling)
  }

  /** The session description of the stored 200 OK reads back as the gateway's host and the dialog's own port. */
  ghost predicate NamesPort(cfg: Config, d: Dialog) {
    forall parseIp: string -> Option<string>, fallback: string ::
      MediaAddr(d.okPayload, parseIp, fallback) ==
      match parseIp(cfg.host) case None => None case Some(ip) => Some((ip, d.port))
  }

  ghost predicate Answering(cfg: Config, s: State) {
    && (forall c :: c in s.pending ==> PendingOk(c, s.pending[c]))
    && (forall c :: c in s.dialogs ==> DialogOk(cfg, c, s.dialogs[c]))
  }

  lemma UriIsOneLine(req: Request)
    requires WellRead(req) && NoChar('\n', req.uri) && RemoteUri(req).Some?
    ensures NoChar('\n', RemoteUri(req).value)
  {
    if req.headers.Get("contact").Some? {
      FirstOfIsClean(req.headers.entries, "contact");
      NameAddrIsOneLine(req.headers.Get("contact").value);
    }
  }

  lemma NameAddrIsOneLine(v: string)
    requires NoChar('\n', v) && UriOfNameAddr(v).Some?
    ensures NoChar('\n', UriOfNameAddr(v).value)
  {
    var a, b := Find(v, "<"), Find(v, ">");
    TrimIsClean(v);
    if a.Some? && b.Some? { TrimIsClean(v[a.value + 1..b.value]); }
  }

  lemma NewDialogOk(cfg: Config, c: string, p: Pending, uri: string, ok: string, contactAddr: Option<Addr>,
                    bridge: nat)
    requires IsHost(cfg.host) && PendingOk(c, p) && p.port < 0x1_0000
    requires OkText(p.request, p.tag, cfg.host, p.port) == Some(ok) && RemoteUri(p.request) == Some(uri)
    ensures Answerable(p.request) && DialogOk(cfg, c, DialogFor(cfg, p, c, uri, ok, contactAddr, bridge))
  {
    OkReadsBack(p.request, p.tag, cfg.host, SdpOffer(cfg.host, p.port));
    UriIsOneLine(p.request);
    var es := p.request.headers.entries;
    FirstOfIsClean(es, "from");
    FirstOfIsClean(es, "call-id");
    ToIsClean(p.request, Some(p.tag));
    NewDialogNamesPort(cfg, c, p, uri, ok, contactAddr, bridge);
  }

  lemma NewDialogNamesPort(cfg: Config, c: string, p: Pending, uri: string, ok: string, contactAddr: Option<Addr>,
                           bridge: nat)
    requires IsHost(cfg.host) && PendingOk(c, p) && p.port < 0x1_0000 && Answerable(p.request)
    requires OkText(p.request, p.tag, cfg.host, p.port) == Some(ok)
    ensures NamesPort(cfg, DialogFor(cfg, p, c, uri, ok, contactAddr, bridge))
  {
    var d := DialogFor(cfg, p, c, uri, ok, contactAddr, bridge);
    forall parseIp: string -> Option<string>, fallback: string
      ensures MediaAddr(d.okPayload, parseIp, fallback) ==
              match parseIp(cfg.host) case None => None case Some(ip) => Some((ip, d.port))
    {
      OkMediaAddr(p.request, p.tag, cfg.host, p.port, parseIp, fallback);
    }
  }

  ghost predicate PortsInRange(cfg: Config, s: State) {
    forall c :: c in s.pending ==> s.pending[c].port <= cfg.portEnd
  }

  ghost predicate GoodConfig(cfg: Config) { IsHost(cfg.host) && cfg.portEnd < 0x1_0000 }

  /** `e` is an INVITE for a new call `c`, and `p` is what is kept of it. */
  ghost predicate Files(cfg: Config, s: State, e: Event, c: string, p: Pending) {
    && Invites(s, e, c)
    && p.request == e.request.value && p.tag == e.tag && p.port <= cfg.portEnd
  }

  /** An INVITE that carries a Call-ID of no pending invite and no dialog. */
  predicate Invites(s: State, e: Event, c: string) {
    && e.Received? && e.request.Some? && e.request.value.requestMethod == "INVITE"
    && e.request.value.headers.Get("call-id") == Some(c) && c != MISSING_CALL_ID
    && c !in s.pending && c !in s.dialogs
  }

  /** A request can only remove entries, or file its own invite. */
  lemma RequestFrame(cfg: Config, s: State, e: Event)
    requires e.Received?
    ensures var r := OnRequest(cfg, s, e).state;
            && (forall c :: c in r.dialogs ==> c in s.dialogs && r.dialogs[c] == s.dialogs[c])
            && (forall c :: c in r.pending ==>
                  || (c in s.pending && r.pending[c] == s.pending[c])
                  || Files(cfg, s, e, c, r.pending[c]))
  {
    if e.request.Some? && e.request.value.requestMethod == "INVITE" { InviteFrame(cfg, s, e); }
  }

  lemma InviteFrame(cfg: Config, s: State, e: Event)
    requires e.Received? && e.request.Some? && e.request.value.requestMethod == "INVITE"
    ensures var r := OnInvite(cfg, s, e).state;
            && r.dialogs == s.dialogs
            && (forall c :: c in r.pending ==>
                  (c in s.pending && r.pending[c] == s.pending[c]) || Files(cfg, s, e, c, r.pending[c]))
  {
    var c := CallIdOf(e.request.value);
    if c !in s.dialogs && c !in s.pending && c != MISSING_CALL_ID {
      var early, full, unusable := AdmitTexts(cfg, s, e);
      AdmitFrame(cfg, s, e, early, full, unusable);
    }
  }

  lemma AdmitFrame(cfg: Config, s: State, e: Event, early: seq<Datagram>, full: seq<Datagram>,
                   unusable: seq<Datagram>)
    requires e.Received? && e.request.Some? && Invites(s, e, CallIdOf(e.request.value))
    ensures var r := AdmitWith(cfg, s, e, early, full, unusable).state;
            && r.dialogs == s.dialogs
            && (forall c :: c in r.pending ==>
                  (c in s.pending && r.pending[c] == s.pending[c]) || Files(cfg, s, e, c, r.pending[c]))
  {
  }

  lemma RequestAnswering(cfg: Config, s: State, e: Event)
    requires e.Received? && Genuine(e) && Answering(cfg, s) && PortsInRange(cfg, s)
    ensures Answering(cfg, OnRequest(cfg, s, e).state) && PortsInRange(cfg, OnRequest(cfg, s, e).state)
  {
    var r := OnRequest(cfg, s, e).state;
    RequestFrame(cfg, s, e);
    KeepsAnswering(cfg, s, r);
  }

  lemma KeepsAnswering(cfg: Config, s: State, r: State)
    requires Answering(cfg, s)
    requires forall c :: c in r.dialogs ==>
               (c in s.dialogs && r.dialogs[c] == s.dialogs[c]) || DialogOk(cfg, c, r.dialogs[c])
    requires forall c :: c in r.pending ==>
               (c in s.pending && r.pending[c] == s.pending[c]) || PendingOk(c, r.pending[c])
    ensures Answering(cfg, r)
  {
  }

  /** A setup result can only remove entries, or open the dialog of its pending invite. */
  lemma SetupFrame(cfg: Config, s: State, e: Event)
    requires e.SetupDone?
    ensures var r := OnSetupDone(cfg, s, e).state;
            && (forall c :: c in r.pending ==> c in s.pending && r.pending[c] == s.pending[c])
            && (forall c :: c in r.dialogs ==>
                  || (c in s.dialogs && r.dialogs[c] == s.dialogs[c])
                  || (&& c == e.callId && c in s.pending
                      && Opens(cfg, c, s.pending[c], r.dialogs[c], e.contactAddr, e.bridgePort)))
  {
    SetupDialogs(cfg, s, e);
    if e.callId in s.pending { SetupOpens(cfg, s, e); }
  }

  /** A setup result changes at most its own dialog. */
  lemma SetupDialogs(cfg: Config, s: State, e: Event)
    requires e.SetupDone?
    ensures var r := OnSetupDone(cfg, s, e).state;
            && (forall c :: c in r.pending ==> c in s.pending && r.pending[c] == s.pending[c])
            && (forall c :: c in r.dialogs && (c != e.callId || c !in s.pending) ==>
                  c in s.dialogs && r.dialogs[c] == s.dialogs[c])
  {
    if e.callId in s.pending {
      var p := s.pending[e.callId];
      ConcludeDialogs(cfg, s, e, ResponseText(p.request, 503, "Service Unavailable", Some(p.tag)),
                      OkText(p.request, p.tag, cfg.host, p.port), RemoteUri(p.request));
    }
  }

  lemma ConcludeDialogs(cfg: Config, s: State, e: Event, refusal: Option<string>, okText: Option<string>,
                        remote: Option<string>)
    requires e.SetupDone? && e.callId in s.pending
    requires okText.Some? ==> Answerable(s.pending[e.callId].request)
    ensures var r := Conclude(cfg, s, e, refusal, okText, remote).state;
            && (forall c :: c in r.pending ==> c in s.pending && r.pending[c] == s.pending[c])
            && (forall c :: c in r.dialogs && c != e.callId ==> c in s.dialogs && r.dialogs[c] == s.dialogs[c])
  {
  }

  lemma SetupOpens(cfg: Config, s: State, e: Event)
    requires e.SetupDone? && e.callId in s.pending
    ensures var r := OnSetupDone(cfg, s, e).state;
            var c := e.callId;
            c in r.dialogs ==> (c in s.dialogs && r.dialogs[c] == s.dialogs[c])
                               || Opens(cfg, c, s.pending[c], r.dialogs[c], e.contactAddr, e.bridgePort)
  {
  }

  /** `d` is the dialog opened for `p` by a result whose bridge listens on `bridge`. */
  ghost predicate Opens(cfg: Config, c: string, p: Pending, d: Dialog, contactAddr: Option<Addr>, bridge: Option<nat>) {
    && OkText(p.request, p.tag, cfg.host, p.port).Some? && RemoteUri(p.request).Some?
    && Answerable(p.request) && bridge.Some?
    && d == DialogFor(cfg, p, c, RemoteUri(p.request).value, OkText(p.request, p.tag, cfg.host, p.port).value,
                      contactAddr, bridge.value)
  }

  lemma SetupAnswering(cfg: Config, s: State, e: Event)
    requires GoodConfig(cfg) && e.SetupDone? && Answering(cfg, s) && PortsInRange(cfg, s)
    ensures Answering(cfg, OnSetupDone(cfg, s, e).state) && PortsInRange(cfg, OnSetupDone(cfg, s, e).state)
  {
    var r := OnSetupDone(cfg, s, e).state;
    SetupFrame(cfg, s, e);
    var c := e.callId;
    if c in r.dialogs && c in s.pending && Opens(cfg, c, s.pending[c], r.dialogs[c], e.contactAddr, e.bridgePort) {
      OpenedIsOk(cfg, c, s.pending[c], r.dialogs[c], e.contactAddr, e.bridgePort);
    }
    KeepsAnswering(cfg, s, r);
  }

  lemma OpenedIsOk(cfg: Config, c: string, p: Pending, d: Dialog, contactAddr: Option<Addr>, bridge: Option<nat>)
    requires IsHost(cfg.host) && PendingOk(c, p) && p.port < 0x1_0000 && Opens(cfg, c, p, d, contactAddr, bridge)
    ensures DialogOk(cfg, c, d)
  {
    NewDialogOk(cfg, c, p, RemoteUri(p.request).value, OkText(p.request, p.tag, cfg.host, p.port).value, contactAddr,
                bridge.value);
  }

  lemma CleanupAnswering(cfg: Config, s: State, now: nat)
    requires Answering(cfg, s) && PortsInRange(cfg, s)
    ensures Answering(cfg, Cleanup(s, now)) && PortsInRange(cfg, Cleanup(s, now))
  {
    KeepsAnswering(cfg, s, Cleanup(s, now));
  }

  lemma StepAnswering(cfg: Config, s: State, e: Event)
    requires GoodConfig(cfg) && Genuine(e) && Answering(cfg, s) && PortsInRange(cfg, s)
    ensures Answering(cfg, Step(cfg, s, e).state) && PortsInRange(cfg, Step(cfg, s, e).state)
  {
    if s.running {
      match e
      case Received(_, _, _, now, _, _, _) =>
        RequestAnswering(cfg, s, e);
        CleanupAnswering(cfg, OnRequest(cfg, s, e).state, now);
      case SetupDone(_, _, _, _, _) => SetupAnswering(cfg, s, e);
      case _ =>
        OtherFrame(cfg, s, e);
        KeepsAnswering(cfg, s, Step(cfg, s, e).state);
    }
  }

  lemma {:induction false} EveryRunAnswers(cfg: Config, es: seq<Event>)
    requires GoodConfig(cfg) && forall i :: 0 <= i < |es| ==> Genuine(es[i])
    ensures Answering(cfg, Run(cfg, Init(), es)) && PortsInRange(cfg, Run(cfg, Init(), es))
  {
    if es != [] {
      EveryRunAnswers(cfg, es[..|es| - 1]);
      StepAnswering(cfg, Run(cfg, Init(), es[..|es| - 1]), es[|es| - 1]);
    }
  }

  /**
    On every run, the one datagram sent when the backend ends an open call is a BYE of the dialog
    its 200 OK opened: From is the To of that 200 OK, To is its From, the Call-ID is unchanged.
    It is readable as a request exactly when the remote target is addressable.
   */
  lemma ByeBelongsToDialog(cfg: Config, es: seq<Event>, c: string, branch: string)
    requires GoodConfig(cfg) && IsTag(branch) && forall i :: 0 <= i < |es| ==> Genuine(es[i])
    requires Run(cfg, Init(), es).running && c in Run(cfg, Init(), es).dialogs
    ensures var s := Run(cfg, Init(), es);
            var o := Step(cfg, s, BackendEnd(c, branch));
            |o.sent| == 1 && c !in o.state.dialogs && ByeMirrors(s.dialogs[c], o.sent[0].payload, c)
  {
    EveryRunAnswers(cfg, es);
    var s := Run(cfg, Init(), es);
    assert DialogOk(cfg, c, s.dialogs[c]);
    ByeMirrorsOk(c, s.dialogs[c], branch);
    EndSendsBye(cfg, s, c, branch);
  }

  lemma EndSendsBye(cfg: Config, s: State, c: string, branch: string)
    requires s.running && c in s.dialogs
    ensures var o := Step(cfg, s, BackendEnd(c, branch));
            |o.sent| == 1 && c !in o.state.dialogs && o.sent[0].payload == ByeText(s.dialogs[c].signaling, branch)
  {
  }

  /** The BYE text read back against the 200 OK of the dialog, read back. */
  ghost predicate ByeMirrors(d: Dialog, byeText: string, c: string) {
    var ok, bye := ParseResponse(d.okPayload), ParseRequest(byeText);
    && ok.Some?
    && (bye.Some? <==> Addressable(d.signaling.remoteUri))
    && (bye.Some? ==>
          && bye.value.requestMethod == "BYE"
          && bye.value.headers.Get("from") == ok.value.headers.Get("to")
          && bye.value.headers.Get("to") == ok.value.headers.Get("from")
          && bye.value.headers.Get("call-id") == ok.value.headers.Get("call-id") == Some(c))
  }

  lemma ByeMirrorsOk(c: string, d: Dialog, branch: string)
    requires MirrorsOk(c, d) && IsTag(branch)
    ensures ByeMirrors(d, ByeText(d.signaling, branch), c)
  {
    ByeRoundTrip(d.signaling, branch);
  }

  /** The 180 and the 200 OK of one invite carry the same To, hence the same tag. */
  lemma RingingAndOkAgree(req: Request, tag: string, host: string, port: nat)
    requires WellRead(req) && Answerable(req) && IsTag(tag) && IsHost(host)
    ensures var ringing := ParseResponse(RingingText(req, tag).value);
            var ok := ParseResponse(OkText(req, tag, host, port).value);
            ringing.Some? && ok.Some? && ringing.value.headers.Get("to") == ok.value.headers.Get("to")
  {
    OkReadsBack(req, tag, host, SdpOffer(host, port));
    RingsTo(req, tag);
  }

  /** A duplicate INVITE for an open dialog resends the stored text and starts nothing. */
  lemma DuplicateInvite(cfg: Config, s: State, e: Event)
    requires s.running && e.Received? && e.request.Some? && e.request.value.requestMethod == "INVITE"
    requires CallIdOf(e.request.value) in s.dialogs
    ensures var d := s.dialogs[CallIdOf(e.request.value)];
            var o := Step(cfg, s, e);
            && o.sent == [Datagram(d.okPayload, d.okTarget)]
            && o.state == Cleanup(s, e.now)
            && o.state.inUse == s.inUse && o.state.dialogs == s.dialogs && o.state.pending.Keys <= s.pending.Keys
  {
  }

  lemma DialogStep(cfg: Config, s: State, e: Event, c: string)
    requires Booked(s) && c in s.dialogs && c in Step(cfg, s, e).state.dialogs
    ensures Step(cfg, s, e).state.dialogs[c] == s.dialogs[c]
  {
    match e
    case Received(_, _, _, _, _, _, _) => RequestFrame(cfg, s, e);
    case Responded(_, _, _, _, _, _) => ResponseFrame(cfg, s, e);
    case SetupDone(_, _, _, _, _) => SetupDialogs(cfg, s, e);
    case BackendEnd(_, _) =>
    case InviteSent(_, _) =>
    case CommandsClosed =>
  }

  /** While a call stays open its dialog never changes, so every duplicate gets byte-identical text. */
  lemma {:induction false} DialogIsStable(cfg: Config, es: seq<Event>, from: nat, upto: nat, c: string)
    requires from <= upto <= |es|
    requires forall i :: from <= i <= upto ==> c in Run(cfg, Init(), es[..i]).dialogs
    ensures Run(cfg, Init(), es[..upto]).dialogs[c] == Run(cfg, Init(), es[..from]).dialogs[c]
    decreases upto
  {
    if from < upto {
      DialogIsStable(cfg, es, from, upto - 1, c);
      EveryRunIsBooked(cfg, es[..upto - 1]);
      RunTo(cfg, es, upto - 1);
      StepIsStable(cfg, Run(cfg, Init(), es[..upto - 1]), es[upto - 1], Run(cfg, Init(), es[..upto]), c);
    }
  }

  lemma StepIsStable(cfg: Config, s: State, e: Event, r: State, c: string)
    requires Booked(s) && r == Step(cfg, s, e).state && c in s.dialogs && c in r.dialogs
    ensures r.dialogs[c] == s.dialogs[c]
  {
    DialogStep(cfg, s, e, c);
  }

  // ---- one tag for the whole call ---------------------------------------------------

  /** The state a run from the start ends in. */
  type Runner = seq<Event> -> State

  function RunnerOf(cfg: Config): (run: Runner) { es => Run(cfg, Init(), es) }

  /** Pending call `c` was invited by the `i`-th event. */
  ghost predicate PendingFrom(cfg: Config, run: Runner, es: seq<Event>, c: string, p: Pending, i: int) {
    0 <= i < |es| && run(es[..i]).running && Files(cfg, run(es[..i]), es[i], c, p)
  }

  /** The two ends of `d` are those of the INVITE `e`. */
  ghost predicate EndsOf(e: Event, d: Dialog) {
    && e.Received? && e.request.Some? && Answerable(e.request.value)
    && d.signaling.localFrom == EnsureTag(e.request.value.headers.Get("to").value, e.tag)
    && d.signaling.remoteTo == e.request.value.headers.Get("from").value
  }

  /** Dialog `c` was invited by the `i`-th event. */
  ghost predicate DialogFrom(run: Runner, es: seq<Event>, c: string, d: Dialog, i: int) {
    0 <= i < |es| && run(es[..i]).running && Invites(run(es[..i]), es[i], c) && EndsOf(es[i], d)
  }

  ghost predicate Traced(cfg: Config, run: Runner, es: seq<Event>, s: State) {
    && (forall c :: c in s.pending ==> exists i :: PendingFrom(cfg, run, es, c, s.pending[c], i))
    && (forall c :: c in s.dialogs ==> exists i :: DialogFrom(run, es, c, s.dialogs[c], i))
  }

  lemma PendingStays(cfg: Config, run: Runner, es: seq<Event>, s: State, c: string, p: Pending)
    requires es != [] && Traced(cfg, run, es[..|es| - 1], s) && c in s.pending && s.pending[c] == p
    ensures exists i :: PendingFrom(cfg, run, es, c, p, i)
  {
    var n := |es| - 1;
    var i :| PendingFrom(cfg, run, es[..n], c, p, i);
    assert es[..n][..i] == es[..i] && es[..n][i] == es[i];
    assert PendingFrom(cfg, run, es, c, p, i);
  }

  lemma DialogStays(cfg: Config, run: Runner, es: seq<Event>, s: State, c: string, d: Dialog)
    requires es != [] && Traced(cfg, run, es[..|es| - 1], s) && c in s.dialogs && s.dialogs[c] == d
    ensures exists i :: DialogFrom(run, es, c, d, i)
  {
    var n := |es| - 1;
    var i :| DialogFrom(run, es[..n], c, d, i);
    assert es[..n][..i] == es[..i] && es[..n][i] == es[i];
    assert DialogFrom(run, es, c, d, i);
  }

  /** The dialog opened for a pending invite keeps the two ends of the INVITE it came from. */
  lemma OpenedIsTraced(cfg: Config, run: Runner, es: seq<Event>, c: string, p: Pending, d: Dialog,
                       contactAddr: Option<Addr>, bridge: Option<nat>, i: int)
    requires PendingFrom(cfg, run, es, c, p, i) && Opens(cfg, c, p, d, contactAddr, bridge)
    ensures DialogFrom(run, es, c, d, i)
  {
  }

  lemma RequestTraced(cfg: Config, run: Runner, es: seq<Event>, s: State)
    requires es != [] && s == run(es[..|es| - 1]) && s.running && Traced(cfg, run, es[..|es| - 1], s)
    requires es[|es| - 1].Received?
    ensures Traced(cfg, run, es, Step(cfg, s, es[|es| - 1]).state)
  {
    var n := |es| - 1;
    var e := es[n];
    var r := Step(cfg, s, e).state;
    RequestFrame(cfg, s, e);
    forall c | c in r.pending ensures exists i :: PendingFrom(cfg, run, es, c, r.pending[c], i) {
      if c in s.pending && r.pending[c] == s.pending[c] {
        PendingStays(cfg, run, es, s, c, r.pending[c]);
      } else {
        assert PendingFrom(cfg, run, es, c, r.pending[c], n);
      }
    }
    forall c | c in r.dialogs ensures exists i :: DialogFrom(run, es, c, r.dialogs[c], i) {
      DialogStays(cfg, run, es, s, c, r.dialogs[c]);
    }
  }

  lemma SetupTraced(cfg: Config, run: Runner, es: seq<Event>, s: State)
    requires es != [] && s == run(es[..|es| - 1]) && s.running && Traced(cfg, run, es[..|es| - 1], s)
    requires es[|es| - 1].SetupDone?
    ensures Traced(cfg, run, es, Step(cfg, s, es[|es| - 1]).state)
  {
    var e := es[|es| - 1];
    var r := Step(cfg, s, e).state;
    SetupFrame(cfg, s, e);
    forall c | c in r.pending ensures exists i :: PendingFrom(cfg, run, es, c, r.pending[c], i) {
      PendingStays(cfg, run, es, s, c, r.pending[c]);
    }
    forall c | c in r.dialogs ensures exists i :: DialogFrom(run, es, c, r.dialogs[c], i) {
      if c in s.dialogs && r.dialogs[c] == s.dialogs[c] {
        DialogStays(cfg, run, es, s, c, r.dialogs[c]);
      } else {
        PendingStays(cfg, run, es, s, c, s.pending[c]);
        var i :| PendingFrom(cfg, run, es, c, s.pending[c], i);
        OpenedIsTraced(cfg, run, es, c, s.pending[c], r.dialogs[c], e.contactAddr, e.bridgePort, i);
      }
    }
  }

  lemma OtherTraced(cfg: Config, run: Runner, es: seq<Event>, s: State)
    requires es != [] && s == run(es[..|es| - 1]) && Traced(cfg, run, es[..|es| - 1], s)
    requires !s.running || (!es[|es| - 1].Received? && !es[|es| - 1].SetupDone?)
    ensures Traced(cfg, run, es, Step(cfg, s, es[|es| - 1]).state)
  {
    var r := Step(cfg, s, es[|es| - 1]).state;
    OtherFrame(cfg, s, es[|es| - 1]);
    forall c | c in r.pending ensures exists i :: PendingFrom(cfg, run, es, c, r.pending[c], i) {
      PendingStays(cfg, run, es, s, c, r.pending[c]);
    }
    forall c | c in r.dialogs ensures exists i :: DialogFrom(run, es, c, r.dialogs[c], i) {
      DialogStays(cfg, run, es, s, c, r.dialogs[c]);
    }
  }

  /** Every other event can only remove entries. */
  lemma OtherFrame(cfg: Config, s: State, e: Event)
    requires !s.running || (!e.Received? && !e.SetupDone?)
    ensures var r := Step(cfg, s, e).state;
            && (forall c :: c in r.pending ==> c in s.pending && r.pending[c] == s.pending[c])
            && (forall c :: c in r.dialogs ==> c in s.dialogs && r.dialogs[c] == s.dialogs[c])
  {
    if s.running && e.Responded? { ResponseFrame(cfg, s, e); }
  }

  /** On every run each pending invite and each dialog goes back to one INVITE that was received. */
  lemma {:induction false} EveryRunIsTraced(cfg: Config, es: seq<Event>)
    ensures Traced(cfg, RunnerOf(cfg), es, Run(cfg, Init(), es))
  {
    if es != [] {
      EveryRunIsTraced(cfg, es[..|es| - 1]);
      StepTraced(cfg, RunnerOf(cfg), es, Run(cfg, Init(), es[..|es| - 1]));
    }
  }

  lemma StepTraced(cfg: Config, run: Runner, es: seq<Event>, s: State)
    requires es != [] && s == run(es[..|es| - 1]) && Traced(cfg, run, es[..|es| - 1], s)
    ensures Traced(cfg, run, es, Step(cfg, s, es[|es| - 1]).state)
  {
    if s.running && es[|es| - 1].Received? {
      RequestTraced(cfg, run, es, s);
    } else if s.running && es[|es| - 1].SetupDone? {
      SetupTraced(cfg, run, es, s);
    } else {
      OtherTraced(cfg, run, es, s);
    }
  }

  /** The second datagram sent for a new call that can be answered is its 180, when ringing is on. */
  lemma RingsWith(cfg: Config, s: State, e: Event, c: string)
    requires s.running && cfg.ringing && Invites(s, e, c) && Answerable(e.request.value)
    ensures var o := Step(cfg, s, e);
            |o.sent| >= 2 && Some(o.sent[1].payload) == RingingText(e.request.value, e.tag)
  {
  }

  /**
    On every run, an open dialog goes back to one received INVITE: the 180 sent for it carries the
    To, hence the tag, that the BYE of the dialog carries as From, and the To of that BYE is the
    From of the INVITE.
   */
  lemma OneTagPerCall(cfg: Config, es: seq<Event>, c: string, branch: string) returns (i: nat)
    requires GoodConfig(cfg) && IsTag(branch) && forall j :: 0 <= j < |es| ==> Genuine(es[j])
    requires Run(cfg, Init(), es).running && c in Run(cfg, Init(), es).dialogs
    ensures i < |es| && Run(cfg, Init(), es[..i]).running && Invites(Run(cfg, Init(), es[..i]), es[i], c)
    ensures var invited := Step(cfg, Run(cfg, Init(), es[..i]), es[i]).sent;
            var ended := Step(cfg, Run(cfg, Init(), es), BackendEnd(c, branch)).sent;
            && |ended| == 1
            && SameCall(cfg, es[i].request.value, invited, Run(cfg, Init(), es).dialogs[c], ended[0].payload)
  {
    EveryRunIsTraced(cfg, es);
    EveryRunAnswers(cfg, es);
    var s := Run(cfg, Init(), es);
    assert DialogOk(cfg, c, s.dialogs[c]);
    var k :| DialogFrom(RunnerOf(cfg), es, c, s.dialogs[c], k);
    i := k;
    CallIsOne(cfg, Run(cfg, Init(), es[..i]), es[i], s, c, branch);
  }

  lemma CallIsOne(cfg: Config, s0: State, e: Event, s: State, c: string, branch: string)
    requires s0.running && Invites(s0, e, c) && Genuine(e) && IsTag(branch)
    requires s.running && c in s.dialogs && CleanSignaling(s.dialogs[c].signaling) && EndsOf(e, s.dialogs[c])
    ensures var ended := Step(cfg, s, BackendEnd(c, branch)).sent;
            |ended| == 1 && SameCall(cfg, e.request.value, Step(cfg, s0, e).sent, s.dialogs[c], ended[0].payload)
  {
    EndSendsBye(cfg, s, c, branch);
    ByeKeepsEnds(s.dialogs[c], branch);
    if cfg.ringing { InviteRings(cfg, s0, e, c, s.dialogs[c]); }
  }

  lemma InviteRings(cfg: Config, s0: State, e: Event, c: string, d: Dialog)
    requires s0.running && cfg.ringing && Invites(s0, e, c) && Genuine(e) && EndsOf(e, d)
    ensures |Step(cfg, s0, e).sent| >= 2 && Rings(Step(cfg, s0, e).sent[1].payload, d.signaling.localFrom)
  {
    RingsWith(cfg, s0, e, c);
    RingsTo(e.request.value, e.tag);
  }

  lemma RingsTo(req: Request, tag: string)
    requires WellRead(req) && Answerable(req) && IsTag(tag)
    ensures RingingText(req, tag).Some?
    ensures Rings(RingingText(req, tag).value, EnsureTag(req.headers.Get("to").value, tag))
  {
    ResponseReadsBack(req, 180, "Ringing", Some(tag));
  }

  lemma ByeKeepsEnds(d: Dialog, branch: string)
    requires CleanSignaling(d.signaling) && IsTag(branch)
    ensures ByeHas(ByeText(d.signaling, branch), d)
  {
    ByeRoundTrip(d.signaling, branch);
  }

  /** Readable exactly when the target is addressable, and then from and to the two ends of the dialog. */
  ghost predicate ByeHas(text: string, d: Dialog) {
    var bye := ParseRequest(text);
    && (bye.Some? <==> Addressable(d.signaling.remoteUri))
    && (bye.Some? ==> && bye.value.headers.Get("from") == Some(d.signaling.localFrom)
                      && bye.value.headers.Get("to") == Some(d.signaling.remoteTo))
  }

  /** The 180 among the datagrams sent for the INVITE, and the BYE, belong to the two ends of the dialog. */
  ghost predicate SameCall(cfg: Config, req: Request, invited: seq<Datagram>, d: Dialog, byeText: string) {
    && (cfg.ringing ==> |invited| >= 2 && Rings(invited[1].payload, d.signaling.localFrom))
    && ByeHas(byeText, d)
    && req.headers.Get("from") == Some(d.signaling.remoteTo)
  }

  /** `text` parses as a 180 with that To. */
  ghost predicate Rings(text: string, to: string) {
    var r := ParseResponse(text);
    r.Some? && r.value.status == 180 && r.value.headers.Get("to") == Some(to)
  }
}
