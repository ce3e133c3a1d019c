/** Runs of received texts on which the engine does not do what one might expect. */
module SipWitnesses {
  import opened Wrappers
  import opened Strings
  import opened Sip
  import opened SipRoundTrip
  import opened SipEngine
  import opened SipEngineRuns
  import opened SipEngineEnds
  import opened SipBridges
  import opened SipAcks

  // ---- requests as they come from the socket ----------------------------------------

  /** What a caller puts into its requests, and what the gateway sees of it. */
  datatype Caller = Caller(
    via: string, from: string, to: string, cseq: string, contact: string, port: nat,
    parseIp: string -> Option<string>, source: Addr, tag: string, rejectTag: string)
  {
    ghost predicate Valid() {
      && Clean(via) && Clean(from) && Clean(to) && Clean(cseq) && Clean(contact) && port < 0x1_0000
      && IsTag(tag) && IsTag(rejectTag)
    }
  }

  function FieldsOf(k: Caller, id: string): (fs: seq<Entry>) {
    [("Via", k.via), ("From", k.from), ("To", k.to), ("Call-ID", id), ("CSeq", k.cseq), ("Contact", k.contact)]
  }

  function RequestLine(name: string): string { name + " " + "sip:x" + " " + SIP_VERSION }

  /** A request with the six fields and an SDP body that names an audio port. */
  function RequestText(k: Caller, name: string, id: string): (text: string) {
    Message([RequestLine(name)] + FieldLines(FieldsOf(k, id)), CrlfLines([AudioLine(k.port)]))
  }

  /** The events that such texts become on arrival. */
  type Asker = (string, string) -> Event

  function Ask(k: Caller): (ask: Asker) { (name, id) => Arrival(RequestText(k, name, id), AtStart(k)) }

  /** At time zero, with every send succeeding. */
  function AtStart(k: Caller): (w: Setting) {
    Setting(k.parseIp, k.source, 0, k.tag, k.rejectTag, "", None, true)
  }

  predicate IsName(name: string) { name in {"INVITE", "CANCEL"} }

  predicate IsId(id: string) { Clean(id) && id != MISSING_CALL_ID }

  lemma NameIsWord(name: string)
    requires IsName(name)
    ensures name != "" && NoSpace(Rust, name) && Upper(name) == name
  {
  }

  lemma RequestLineWords(name: string)
    requires name != "" && NoSpace(Rust, name)
    ensures var t := RequestLine(name);
            && t != "" && NoChar('\n', t) && Trim(Rust, t) == t && Words(Rust, t) == [name, "sip:x", SIP_VERSION]
  {
    ThreeWords(name, "sip:x", SIP_VERSION);
    assert IsSpace(Rust, '\n');
    assert NoChar('\n', name);
  }

  lemma FieldsAreClean(k: Caller, id: string)
    requires k.Valid() && Clean(id)
    ensures CleanFields(FieldsOf(k, id))
  {
    CopiedNamesAreClean();
    ContactNameIsClean();
  }

  lemma ContactNameIsClean()
    ensures "Contact" != "" && NoSpace(Rust, "Contact") && NoChar(':', "Contact")
  {
  }

  /** The arriving request reads as it was written. */
  ghost predicate Asks(e: Event, k: Caller, name: string, id: string) {
    && e.Received? && e.request.Some? && e.media && e.now == 0 && e.sendOk
    && e.source == k.source && e.tag == k.tag && e.rejectTag == k.rejectTag
    && Reads(e.request.value, k, name, id)
  }

  ghost predicate Reads(req: Request, k: Caller, name: string, id: string) {
    && req.requestMethod == name && req.headers.Get("call-id") == Some(id)
    && req.headers.Get("contact") == Some(k.contact) && Answerable(req)
  }

  lemma FieldLookups(k: Caller, id: string, h: Headers)
    requires h.Valid() && h.entries == LowerFields(FieldsOf(k, id))
    ensures h.Get("from") == Some(k.from) && h.Get("to") == Some(k.to) && h.Get("call-id") == Some(id)
    ensures h.Get("cseq") == Some(k.cseq) && h.Get("contact") == Some(k.contact) && h.Values("via") != []
  {
    LowerNames();
    LowerOtherNames();
    var es := h.entries;
    assert es == [es[0]] + ([es[1]] + ([es[2]] + ([es[3]] + ([es[4]] + ([es[5]] + [])))));
    FirstAfter(es[0], [es[1]] + ([es[2]] + ([es[3]] + ([es[4]] + ([es[5]] + [])))));
    FirstAfter(es[1], [es[2]] + ([es[3]] + ([es[4]] + ([es[5]] + []))));
    FirstAfter(es[2], [es[3]] + ([es[4]] + ([es[5]] + [])));
    FirstAfter(es[3], [es[4]] + ([es[5]] + []));
    FirstAfter(es[4], [es[5]] + []);
    FirstAfter(es[5], []);
  }

  lemma RequestReads(k: Caller, name: string, id: string)
    requires k.Valid() && IsName(name) && Clean(id)
    ensures var r := ParseRequest(RequestText(k, name, id));
            r.Some? && Reads(r.value, k, name, id) && r.value.body == CrlfLines([AudioLine(k.port)])
  {
    NameIsWord(name);
    RequestLineWords(name);
    FieldsAreClean(k, id);
    BuiltRequestParses(RequestLine(name), FieldsOf(k, id), CrlfLines([AudioLine(k.port)]));
    var r := ParseRequest(RequestText(k, name, id));
    assert IsSipVersion(SIP_VERSION);
    FieldLookups(k, id, r.value.headers);
  }

  lemma MediaIsFound(text: string, port: nat, parseIp: string -> Option<string>, fallback: string)
    requires port < 0x1_0000 && ParseRequest(text).Some?
             && ParseRequest(text).value.body == CrlfLines([AudioLine(port)])
    ensures MediaAddr(text, parseIp, fallback) == Some((fallback, port))
  {
    AudioLineIsPlain(port);
    LinesOfCrlf([AudioLine(port)]);
    ScanAudio(port, [], parseIp, fallback);
    assert [AudioLine(port)] + [] == [AudioLine(port)];
  }

  /** A text of this shape arrives as the request it spells, with usable media. */
  lemma TextArrives(k: Caller, name: string, id: string)
    requires k.Valid() && IsName(name) && Clean(id)
    ensures Asks(Ask(k)(name, id), k, name, id) && Genuine(Ask(k)(name, id))
  {
    RequestReads(k, name, id);
    MediaIsFound(RequestText(k, name, id), k.port, k.parseIp, k.source.ip);
    ArrivalsAreGenuine(RequestText(k, name, id), AtStart(k));
  }

  ghost predicate ReadsAll(ask: Asker, k: Caller) {
    forall name, id :: IsName(name) && Clean(id) ==> Asks(ask(name, id), k, name, id) && Genuine(ask(name, id))
  }

  lemma TextsArrive(k: Caller)
    requires k.Valid()
    ensures ReadsAll(Ask(k), k)
  {
    forall name, id | IsName(name) && Clean(id)
      ensures Asks(Ask(k)(name, id), k, name, id) && Genuine(Ask(k)(name, id))
    {
      TextArrives(k, name, id);
    }
  }

  lemma ReadsOne(ask: Asker, k: Caller, name: string, id: string)
    requires ReadsAll(ask, k) && IsName(name) && Clean(id)
    ensures Asks(ask(name, id), k, name, id) && Genuine(ask(name, id))
  {
  }

  // ---- steps of a young engine ------------------------------------------------------

  /** Running, nothing pending was received after the start, and no INVITE was sent. */
  ghost predicate Young(s: State) {
    s.running && s.outbound == map[] && forall c :: c in s.pending ==> s.pending[c].createdAt == 0
  }

  lemma NothingExpires(s: State)
    requires Young(s)
    ensures Cleanup(s, 0).pending == s.pending && Cleanup(s, 0).outbound == map[]
  {
  }

  /** A setup that succeeded on `port`. */
  function Success(setup: nat, id: string, port: nat): (e: Event) { SetupDone(setup, id, Some(port), None, true) }

  /** The new call is pending on the port and its setup was started. */
  ghost predicate Filed(s: State, r: State, k: Caller, id: string, port: nat) {
    && Young(r) && r.dialogs == s.dialogs && r.inUse == s.inUse + {port} && r.setups == s.setups + [Setup(id, port)]
    && id in r.pending && r.pending == s.pending[id := r.pending[id]]
    && r.pending[id].port == port && r.pending[id].setup == |s.setups| && Reads(r.pending[id].request, k, "INVITE", id)
  }

  lemma InviteIsFiled(cfg: Config, s: State, e: Event, k: Caller, id: string)
    requires Young(s) && FirstFree(cfg.portStart, cfg.portEnd, s.inUse).Some?
    requires Asks(e, k, "INVITE", id) && IsId(id) && id !in s.pending && id !in s.dialogs
    ensures Filed(s, Step(cfg, s, e).state, k, id, FirstFree(cfg.portStart, cfg.portEnd, s.inUse).value)
  {
    var early, full, unusable := AdmitTexts(cfg, s, e);
    NothingExpires(AdmitWith(cfg, s, e, early, full, unusable).state);
  }

  /** The pending call is gone, and so is its port. */
  ghost predicate Dropped(s: State, r: State, id: string)
    requires id in s.pending
  {
    && Young(r) && r.dialogs == s.dialogs && r.setups == s.setups
    && r.inUse == s.inUse - {s.pending[id].port} && r.pending == s.pending - {id}
  }

  lemma CancelIsHeard(cfg: Config, s: State, e: Event, k: Caller, id: string)
    requires Young(s) && Asks(e, k, "CANCEL", id) && id in s.pending
    ensures Dropped(s, Step(cfg, s, e).state, id)
  {
    NothingExpires(OnRequest(cfg, s, e).state);
  }

  lemma LateAnswer(cfg: Config, s: State, e: Event)
    requires Young(s) && e.SetupDone? && e.bridgePort.Some? && e.callId !in s.pending
    ensures Step(cfg, s, e).state == s.(inUse := s.inUse - {e.bridgePort.value})
  {
  }

  // ---- runs as folds of a step ------------------------------------------------------

  type Stepper = (State, Event) -> State

  function StepperOf(cfg: Config): (step: Stepper) { (s, e) => Step(cfg, s, e).state }

  function Fold(step: Stepper, es: seq<Event>): (s: State) {
    if es == [] then Init() else step(Fold(step, es[..|es| - 1]), es[|es| - 1])
  }

  lemma {:induction false} RunFolds(cfg: Config, es: seq<Event>)
    ensures Run(cfg, Init(), es) == Fold(StepperOf(cfg), es)
  {
    if es != [] { RunFolds(cfg, es[..|es| - 1]); }
  }

  lemma FoldTo(step: Stepper, es: seq<Event>, i: nat)
    requires i < |es|
    ensures Fold(step, es[..i + 1]) == step(Fold(step, es[..i]), es[i])
  {
    assert es[..i + 1][..i] == es[..i];
  }

  /** What the step does with the caller's requests and with late results, as far as the runs below need it. */
  ghost predicate Serves(cfg: Config, step: Stepper, k: Caller) {
    && (forall s, e, id {:trigger Asks(e, k, "INVITE", id), step(s, e)} ::
          && Young(s) && Asks(e, k, "INVITE", id) && IsId(id) && id !in s.pending && id !in s.dialogs
          && FirstFree(cfg.portStart, cfg.portEnd, s.inUse).Some?
          ==> Filed(s, step(s, e), k, id, FirstFree(cfg.portStart, cfg.portEnd, s.inUse).value))
    && (forall s, e, id {:trigger Asks(e, k, "CANCEL", id), step(s, e)} ::
          Young(s) && Asks(e, k, "CANCEL", id) && id in s.pending ==> Dropped(s, step(s, e), id))
    && (forall s, e: Event :: Young(s) && e.SetupDone? && e.bridgePort.Some? && e.callId !in s.pending
          ==> step(s, e) == s.(inUse := s.inUse - {e.bridgePort.value}))
  }

  lemma EngineServes(cfg: Config, k: Caller)
    ensures Serves(cfg, StepperOf(cfg), k)
  {
    forall s, e, id | && Young(s) && Asks(e, k, "INVITE", id) && IsId(id) && id !in s.pending && id !in s.dialogs
                      && FirstFree(cfg.portStart, cfg.portEnd, s.inUse).Some?
      ensures Filed(s, StepperOf(cfg)(s, e), k, id, FirstFree(cfg.portStart, cfg.portEnd, s.inUse).value)
    {
      InviteIsFiled(cfg, s, e, k, id);
    }
    forall s, e, id | Young(s) && Asks(e, k, "CANCEL", id) && id in s.pending
      ensures Dropped(s, StepperOf(cfg)(s, e), id)
    {
      CancelIsHeard(cfg, s, e, k, id);
    }
    forall s, e: Event | Young(s) && e.SetupDone? && e.bridgePort.Some? && e.callId !in s.pending
      ensures StepperOf(cfg)(s, e) == s.(inUse := s.inUse - {e.bridgePort.value})
    {
      LateAnswer(cfg, s, e);
    }
  }

  lemma FirstPort(cfg: Config, inUse: set<nat>)
    requires cfg.portStart <= cfg.portEnd && cfg.portStart !in inUse
    ensures FirstFree(cfg.portStart, cfg.portEnd, inUse) == Some(cfg.portStart)
  {
  }

  lemma LettersAreIds()
    ensures IsId("a") && IsId("b") && IsId("c")
  {
  }

  /** Only `id` is pending, on the first port of the pool, which holds `inUse`. */
  ghost predicate OnlyPending(cfg: Config, s: State, id: string, inUse: set<nat>) {
    && Young(s) && s.dialogs == map[] && s.inUse == inUse
    && s.pending.Keys == {id} && s.pending[id].port == cfg.portStart
  }

  /** One INVITE and nothing else. */
  ghost predicate Invited(cfg: Config, s: State, k: Caller, id: string) {
    && OnlyPending(cfg, s, id, {cfg.portStart}) && s.setups == [Setup(id, cfg.portStart)]
    && Reads(s.pending[id].request, k, "INVITE", id)
  }

  lemma FirstInvited(cfg: Config, step: Stepper, k: Caller, es: seq<Event>, id: string)
    requires Serves(cfg, step, k) && cfg.portStart <= cfg.portEnd && es != [] && IsId(id)
    requires Asks(es[0], k, "INVITE", id)
    ensures Invited(cfg, Fold(step, es[..1]), k, id)
  {
    FoldTo(step, es, 0);
    FirstPort(cfg, {});
  }

  /** Nothing is left of the call but its setup task. */
  ghost predicate Idle(cfg: Config, s: State, id: string) {
    && Young(s) && s.dialogs == map[] && s.inUse == {} && s.pending == map[]
    && s.setups == [Setup(id, cfg.portStart)]
  }

  lemma Cancelled(cfg: Config, step: Stepper, k: Caller, es: seq<Event>, id: string)
    requires Serves(cfg, step, k) && cfg.portStart <= cfg.portEnd && |es| >= 2 && IsId(id)
    requires Asks(es[0], k, "INVITE", id) && Asks(es[1], k, "CANCEL", id)
    ensures Idle(cfg, Fold(step, es[..2]), id)
  {
    FirstInvited(cfg, step, k, es, id);
    FoldTo(step, es, 1);
    DroppedIsIdle(cfg, Fold(step, es[..1]), Fold(step, es[..2]), k, id);
  }

  lemma DroppedIsIdle(cfg: Config, s: State, r: State, k: Caller, id: string)
    requires Invited(cfg, s, k, id) && Dropped(s, r, id)
    ensures Idle(cfg, r, id)
  {
  }

  /** Invited and cancelled again, then another call is invited, on the same port. */
  ghost predicate Replaced(es: seq<Event>, k: Caller, id: string, other: string) {
    && |es| >= 3 && Asks(es[0], k, "INVITE", id) && Asks(es[1], k, "CANCEL", id) && Asks(es[2], k, "INVITE", other)
    && IsId(id) && IsId(other)
  }

  lemma SecondInvited(cfg: Config, step: Stepper, k: Caller, es: seq<Event>, id: string, other: string)
    requires Serves(cfg, step, k) && cfg.portStart <= cfg.portEnd && Replaced(es, k, id, other)
    ensures OnlyPending(cfg, Fold(step, es[..3]), other, {cfg.portStart})
    ensures Fold(step, es[..3]).setups == [Setup(id, cfg.portStart), Setup(other, cfg.portStart)]
  {
    Cancelled(cfg, step, k, es, id);
    FirstPort(cfg, {});
    FoldTo(step, es, 2);
  }

  // ---- a late result shares a port --------------------------------------------------

  /** A pool of one port. */
  predicate OnePort(cfg: Config) { cfg.portStart == cfg.portEnd }

  /** Invite a, cancel a, invite b, a's setup ends late, invite c. */
  function LateRun(ask: Asker, port: nat): (es: seq<Event>) {
    [ask("INVITE", "a"), ask("CANCEL", "a"), ask("INVITE", "b"), Success(0, "a", port), ask("INVITE", "c")]
  }

  /** Five events of which the texts read as in `LateRun`. */
  ghost predicate LateShape(es: seq<Event>, k: Caller, a: string, b: string, c: string, port: nat) {
    && |es| == 5 && Replaced(es, k, a, b) && es[3] == Success(0, a, port) && Asks(es[4], k, "INVITE", c)
    && IsId(c) && a != b && b != c
  }

  /** Two pending calls on one port. */
  ghost predicate Shares(s: State, b: string, c: string) {
    b != c && b in s.pending && c in s.pending && s.pending[b].port == s.pending[c].port
  }

  lemma LateResultCame(cfg: Config, step: Stepper, k: Caller, a: string, b: string, c: string, es: seq<Event>)
    requires Serves(cfg, step, k) && OnePort(cfg) && LateShape(es, k, a, b, c, cfg.portStart)
    ensures OnlyPending(cfg, Fold(step, es[..4]), b, {})
  {
    SecondInvited(cfg, step, k, es, a, b);
    FoldTo(step, es, 3);
  }

  lemma LateShapeShares(cfg: Config, step: Stepper, k: Caller, a: string, b: string, c: string, es: seq<Event>)
    requires Serves(cfg, step, k) && OnePort(cfg) && LateShape(es, k, a, b, c, cfg.portStart)
    ensures Shares(Fold(step, es), b, c)
  {
    LateResultCame(cfg, step, k, a, b, c, es);
    FirstPort(cfg, {});
    FoldTo(step, es, 4);
    assert es[..5] == es;
  }

  lemma LateRunReads(ask: Asker, k: Caller, port: nat)
    requires ReadsAll(ask, k)
    ensures LateShape(LateRun(ask, port), k, "a", "b", "c", port)
  {
    LettersAreIds();
    ReadsOne(ask, k, "INVITE", "a");
    ReadsOne(ask, k, "CANCEL", "a");
    ReadsOne(ask, k, "INVITE", "b");
    ReadsOne(ask, k, "INVITE", "c");
  }

  /**
    For every caller and every pool of one port, five events after which two calls hold the port:
    the texts are ordinary INVITEs and a CANCEL, and the setup of the cancelled call ends late.
   */
  lemma LateResultSharesAPort(cfg: Config, k: Caller)
    requires OnePort(cfg) && k.Valid()
    ensures var s := Run(cfg, Init(), LateRun(Ask(k), cfg.portStart)); Shares(s, "b", "c") && !Owned(s)
  {
    TextsArrive(k);
    LateRunReads(Ask(k), k, cfg.portStart);
    EngineServes(cfg, k);
    LateShapeShares(cfg, StepperOf(cfg), k, "a", "b", "c", LateRun(Ask(k), cfg.portStart));
    RunFolds(cfg, LateRun(Ask(k), cfg.portStart));
    SharedIsNotOwned(Run(cfg, Init(), LateRun(Ask(k), cfg.portStart)), "b", "c");
  }

  // ---- an overtaken result misroutes ------------------------------------------------

  /** Invite a, cancel a, invite b, invite a again, and the first setup of a ends. */
  function OvertakenRun(ask: Asker, port: nat): (es: seq<Event>) {
    [ask("INVITE", "a"), ask("CANCEL", "a"), ask("INVITE", "b"), ask("INVITE", "a"), Success(0, "a", port)]
  }

  ghost predicate OvertakenShape(es: seq<Event>, k: Caller, a: string, b: string, port: nat) {
    |es| == 5 && Replaced(es, k, a, b) && Asks(es[3], k, "INVITE", a) && es[4] == Success(0, a, port) && a != b
  }

  lemma OvertakenReads(ask: Asker, k: Caller, port: nat)
    requires ReadsAll(ask, k)
    ensures OvertakenShape(OvertakenRun(ask, port), k, "a", "b", port)
  {
    LettersAreIds();
    ReadsOne(ask, k, "INVITE", "a");
    ReadsOne(ask, k, "CANCEL", "a");
    ReadsOne(ask, k, "INVITE", "b");
  }

  lemma SecondPort(cfg: Config)
    requires cfg.portStart < cfg.portEnd
    ensures FirstFree(cfg.portStart, cfg.portEnd, {cfg.portStart}) == Some(cfg.portStart + 1)
  {
    FirstPort(cfg.(portStart := cfg.portStart + 1), {cfg.portStart});
  }

  /** Call b holds the first port, call a the second, and the first setup of a was started with the first. */
  ghost predicate Reinvited(cfg: Config, s: State, k: Caller, a: string, b: string) {
    && Young(s) && a != b && a in s.pending && b in s.pending
    && s.setups != [] && s.setups[0] == Setup(a, cfg.portStart)
    && s.pending[a].port == cfg.portStart + 1 && s.pending[b].port == cfg.portStart && s.pending[a].setup == 2
    && Reads(s.pending[a].request, k, "INVITE", a)
  }

  lemma InvitedAgain(cfg: Config, step: Stepper, k: Caller, a: string, b: string, es: seq<Event>)
    requires Serves(cfg, step, k) && cfg.portStart < cfg.portEnd && OvertakenShape(es, k, a, b, cfg.portStart)
    ensures Reinvited(cfg, Fold(step, es[..4]), k, a, b)
  {
    SecondInvited(cfg, step, k, es, a, b);
    SecondPort(cfg);
    FoldTo(step, es, 3);
  }

  /** Call a advertises the second port; its media bridge listens on the first, which call b holds. */
  ghost predicate CrossBridged(cfg: Config, s: State, a: string, b: string) {
    && a in s.dialogs && s.dialogs[a].port == cfg.portStart + 1 && s.dialogs[a].bridgePort == cfg.portStart
    && b in s.pending && s.pending[b].port == cfg.portStart
  }

  /** The step takes a timely result of a setup that is not the pending invite's, and crosses the calls. */
  ghost predicate Overtakes(cfg: Config, s: State, e: Event, a: string, b: string) {
    OnTime(cfg, s, e) && Reports(s, e) && !Belongs(s, e) && CrossBridged(cfg, Step(cfg, s, e).state, a, b)
  }

  lemma OvertakenOpens(cfg: Config, k: Caller, s: State, a: string, b: string)
    requires Reinvited(cfg, s, k, a, b) && !Crossed(k.contact)
    ensures Overtakes(cfg, s, Success(0, a, cfg.portStart), a, b)
  {
    UriIff(k.contact);
    var p, e := s.pending[a], Success(0, a, cfg.portStart);
    assert RemoteUri(p.request) == UriOfNameAddr(k.contact);
    ConcludeOpens(cfg, s, e, ResponseText(p.request, 503, "Service Unavailable", Some(p.tag)),
                  OkText(p.request, p.tag, cfg.host, p.port), UriOfNameAddr(k.contact).value);
  }

  /**
    For every caller with a usable Contact and every pool of two ports or more, four events after which
    the result of a setup that was cancelled, and started again meanwhile, opens a call that advertises a
    port other than the one its bridge listens on; and that one belongs to another call.
   */
  lemma OvertakenResultMisroutes(cfg: Config, k: Caller)
    requires cfg.portStart < cfg.portEnd && k.Valid() && !Crossed(k.contact)
    ensures var es := OvertakenRun(Ask(k), cfg.portStart);
            Overtakes(cfg, Run(cfg, Init(), es[..4]), es[4], "a", "b")
  {
    TextsArrive(k);
    OvertakenReads(Ask(k), k, cfg.portStart);
    EngineServes(cfg, k);
    var es := OvertakenRun(Ask(k), cfg.portStart);
    InvitedAgain(cfg, StepperOf(cfg), k, "a", "b", es);
    RunFolds(cfg, es[..4]);
    OvertakenOpens(cfg, k, Run(cfg, Init(), es[..4]), "a", "b");
  }

  // ---- an expired invite leaks its port ---------------------------------------------

  /** The state that the second of two events meets when the first is an INVITE. */
  lemma AnswerAwaited(cfg: Config, k: Caller, es: seq<Event>) returns (s: State)
    requires cfg.portStart <= cfg.portEnd && |es| == 2 && Asks(es[0], k, "INVITE", "a")
    ensures Invited(cfg, s, k, "a") && Run(cfg, Init(), es) == Step(cfg, s, es[1]).state
  {
    LettersAreIds();
    EngineServes(cfg, k);
    FirstInvited(cfg, StepperOf(cfg), k, es, "a");
    RunFolds(cfg, es[..1]);
    RunTo(cfg, es, 1);
    assert es[..2] == es;
    s := Fold(StepperOf(cfg), es[..1]);
  }

  /** An INVITE, and later some other datagram. */
  function ExpiryRun(ask: Asker, text: string, w: Setting): (es: seq<Event>) {
    [ask("INVITE", "a"), Arrival(text, w)]
  }

  /** Nobody holds the port that the pool keeps; only a success of its setup gives it back. */
  ghost predicate HoldsForNobody(cfg: Config, s: State, port: nat) {
    && s.running && s.inUse == {port} && HeldPorts(s) == {} && !Owned(s)
    && Step(cfg, s, Success(0, "a", port)).state.inUse == {}
    && Step(cfg, s, SetupDone(0, "a", None, None, true)).state.inUse == {port}
  }

  /**
    For every caller and every pool: once a datagram that is no request arrives sixty seconds after the
    INVITE, the pool keeps a port that no call holds, until its setup reports success; a failure leaves it.
   */
  lemma ExpiryLeaksThePort(cfg: Config, k: Caller, text: string, w: Setting)
    requires cfg.portStart <= cfg.portEnd && k.Valid()
    requires ParseRequest(text).None? && w.now >= PENDING_LIFETIME_MS
    ensures HoldsForNobody(cfg, Run(cfg, Init(), ExpiryRun(Ask(k), text, w)), cfg.portStart)
  {
    LettersAreIds();
    TextArrives(k, "INVITE", "a");
    var s := AnswerAwaited(cfg, k, ExpiryRun(Ask(k), text, w));
    ExpiryEmpties(cfg, s, Arrival(text, w));
  }

  lemma ExpiryEmpties(cfg: Config, s: State, e: Event)
    requires OnlyPending(cfg, s, "a", {cfg.portStart}) && (e.Received? || e.Responded?) && e.now >= PENDING_LIFETIME_MS
    requires e.Received? ==> e.request.None?
    ensures HoldsForNobody(cfg, Step(cfg, s, e).state, cfg.portStart)
  {
    var r := Step(cfg, s, e).state;
    assert r == Cleanup(s, e.now);
    assert r.pending == map[] && r.dialogs == map[];
    assert HeldPorts(r) == {};
  }

  // ---- a Contact in an INVITE -------------------------------------------------------

  /** An INVITE and its successful setup. */
  function Answered(ask: Asker, port: nat): (es: seq<Event>) { [ask("INVITE", "a"), Success(0, "a", port)] }

  lemma AnsweredReads(k: Caller, port: nat)
    requires k.Valid()
    ensures Asks(Answered(Ask(k), port)[0], k, "INVITE", "a")
    ensures forall i :: 0 <= i < 2 ==> Genuine(Answered(Ask(k), port)[i])
  {
    LettersAreIds();
    TextArrives(k, "INVITE", "a");
  }

  /** Any caller whose Contact is crossed, for instance "><", ends the task with one answered INVITE. */
  lemma CrossedContactEndsTheTask(cfg: Config, k: Caller)
    requires cfg.portStart <= cfg.portEnd && k.Valid() && Crossed(k.contact)
    ensures !Run(cfg, Init(), Answered(Ask(k), cfg.portStart)).running
  {
    AnsweredReads(k, cfg.portStart);
    var s := AnswerAwaited(cfg, k, Answered(Ask(k), cfg.portStart));
    AbortStep(cfg, s, Success(0, "a", cfg.portStart));
  }

  // ---- a Contact in a response ------------------------------------------------------

  function ReplyFields(to: string, id: string, contact: string): (fs: seq<Entry>) {
    [("To", to), ("Call-ID", id), ("CSeq", "1 INVITE"), ("Contact", contact)]
  }

  /** What somebody answers to an INVITE of the gateway. */
  datatype Reply = Reply(code: nat, reason: string, to: string, contact: string) {
    ghost predicate Valid() { code < 0x1_0000 && WordReason(reason) && Clean(to) && Clean(contact) }
  }

  function ReplyText(y: Reply, id: string): (text: string) {
    Message([StatusLine(y.code, y.reason)] + FieldLines(ReplyFields(y.to, id, y.contact)), "")
  }

  lemma ReplyFieldsAreClean(to: string, id: string, contact: string)
    requires Clean(to) && Clean(id) && Clean(contact)
    ensures CleanFields(ReplyFields(to, id, contact))
  {
    CopiedNamesAreClean();
    ContactNameIsClean();
  }

  lemma ReplyLookups(to: string, id: string, contact: string, h: Headers)
    requires h.Valid() && h.entries == LowerFields(ReplyFields(to, id, contact))
    ensures h.Get("to") == Some(to) && h.Get("call-id") == Some(id)
    ensures h.Get("cseq") == Some("1 INVITE") && h.Get("contact") == Some(contact)
  {
    LowerNames();
    LowerOtherNames();
    var es := h.entries;
    assert es == [es[0]] + ([es[1]] + ([es[2]] + ([es[3]] + [])));
    FirstAfter(es[0], [es[1]] + ([es[2]] + ([es[3]] + [])));
    FirstAfter(es[1], [es[2]] + ([es[3]] + []));
    FirstAfter(es[2], [es[3]] + []);
    FirstAfter(es[3], []);
  }

  lemma CseqNamesInvite()
    ensures Contains(Upper("1 INVITE"), "INVITE")
  {
    assert Upper("1 INVITE") == "1 INVITE";
    assert MatchAt("1 INVITE", "INVITE", 2);
  }

  /** The response reads as it was written. */
  ghost predicate Replies(e: Event, y: Reply, id: string) {
    e.Responded? && e.response.status == y.code && ReplyReads(e.response.headers, y, id)
  }

  ghost predicate ReplyReads(h: Headers, y: Reply, id: string) {
    && h.Get("to") == Some(y.to) && h.Get("call-id") == Some(id)
    && h.Get("cseq") == Some("1 INVITE") && h.Get("contact") == Some(y.contact)
  }

  lemma ReplyArrives(y: Reply, id: string, w: Setting)
    requires y.Valid() && Clean(id)
    ensures Replies(Arrival(ReplyText(y, id), w), y, id)
  {
    var fs := ReplyFields(y.to, id, y.contact);
    ReplyFieldsAreClean(y.to, id, y.contact);
    WordReasonIsClean(y.reason);
    StatusIsNoRequest(y.code, y.reason, fs, "");
    BuiltResponseParses(y.code, y.reason, fs, "");
    ReplyLookups(y.to, id, y.contact, ParseResponse(ReplyText(y, id)).value.headers);
  }

  /** An INVITE that the gateway sends, and a response to it. */
  function RepliedRun(inv: SentInvite, y: Reply, w: Setting): (es: seq<Event>) {
    [InviteSent(inv, w.now), Arrival(ReplyText(y, inv.callId), w)]
  }

  /**
    Once the gateway has sent an INVITE, whoever answers it with a crossed Contact, under any status,
    ends the task: no INVITE was received, and the pool does not matter.
   */
  lemma CrossedReplyEndsTheTask(cfg: Config, inv: SentInvite, y: Reply, w: Setting)
    requires Clean(inv.callId) && y.Valid() && Crossed(y.contact)
    ensures !Run(cfg, Init(), RepliedRun(inv, y, w)).running
  {
    ReplyArrives(y, inv.callId, w);
    ReplyEnds(cfg, inv, y, w.now, RepliedRun(inv, y, w));
  }

  lemma ReplyEnds(cfg: Config, inv: SentInvite, y: Reply, now: nat, es: seq<Event>)
    requires |es| == 2 && es[0] == InviteSent(inv, now) && Replies(es[1], y, inv.callId) && Crossed(y.contact)
    ensures !Run(cfg, Init(), es).running
  {
    RunTo(cfg, es, 0);
    RunTo(cfg, es, 1);
    assert es[..2] == es;
    CseqNamesInvite();
    AbortStep(cfg, Run(cfg, Init(), es[..1]), es[1]);
  }

  /** The ACK goes out whatever the status is: also for a provisional response, 180 Ringing for instance. */
  lemma EveryReplyIsAcked(cfg: Config, inv: SentInvite, y: Reply, w: Setting)
    requires Clean(inv.callId) && y.Valid() && !Crossed(y.contact)
    ensures var es := RepliedRun(inv, y, w); |Step(cfg, Run(cfg, Init(), es[..1]), es[1]).sent| == 1
  {
    ReplyArrives(y, inv.callId, w);
    ReplyIsAcked(cfg, inv, y, w.now, RepliedRun(inv, y, w));
  }

  lemma ReplyIsAcked(cfg: Config, inv: SentInvite, y: Reply, now: nat, es: seq<Event>)
    requires |es| == 2 && es[0] == InviteSent(inv, now) && Replies(es[1], y, inv.callId) && !Crossed(y.contact)
    ensures |Step(cfg, Run(cfg, Init(), es[..1]), es[1]).sent| == 1
  {
    RunTo(cfg, es, 0);
    CseqNamesInvite();
    AckedExactly(cfg, Run(cfg, Init(), es[..1]), es[1]);
  }

  lemma RingingIsAWord()
    ensures WordReason("Ringing")
  {
    assert Lower("Ringing")[0] != Lower(SIP_VERSION)[0];
  }

  lemma CrossedExists()
    ensures Clean("><") && Crossed("><")
  {
    assert MatchAt("><", ">", 0) && MatchAt("><", "<", 1);
    Mismatch("><", "<", 0, 0);
    FindIs("><", ">", 0);
    FindIs("><", "<", 1);
  }

  /** A Contact of two words in angle brackets names a target of two words. */
  lemma BracketedUri(uri: string)
    requires uri != "" && Trimmed(Rust, uri) && NoChar('<', uri) && NoChar('>', uri)
    ensures UriOfNameAddr("<" + uri + ">") == Some(uri)
  {
    var v := "<" + uri + ">";
    assert v[0..1] == "<" && v[|uri| + 1..|uri| + 2] == ">";
    FindIs(v, "<", 0);
    forall j | 0 <= j < |uri| + 1 ensures !MatchAt(v, ">", j) {
      assert v[j] != '>';
      Mismatch(v, ">", j, 0);
    }
    FindIs(v, ">", |uri| + 1);
    assert v[1..|uri| + 1] == uri;
    TrimOfTrimmed(Rust, uri);
  }

  /** Two words in a URI: not addressable. */
  predicate TwoWords(a: string, b: string) {
    && a != "" && NoSpace(Rust, a) && NoChar('<', a) && NoChar('>', a)
    && b != "" && NoSpace(Rust, b) && NoChar('<', b) && NoChar('>', b) && !IsSipVersion(b)
  }

  lemma SpacedUri(a: string, b: string)
    requires TwoWords(a, b)
    ensures UriOfNameAddr("<" + (a + " " + b) + ">") == Some(a + " " + b) && !Addressable(a + " " + b)
  {
    var uri := a + " " + b;
    assert uri[0] == a[0] && uri[|uri| - 1] == b[|b| - 1];
    BracketedUri(uri);
    TwoWordTarget(a, b);
  }

  /** Call `c` is open and its BYE goes to `uri`. */
  ghost predicate OpensTo(s: State, c: string, uri: string) {
    s.running && c in s.dialogs && s.dialogs[c].signaling.remoteUri == uri
  }

  lemma AnsweredOpens(cfg: Config, k: Caller, s: State, uri: string)
    requires Invited(cfg, s, k, "a") && UriOfNameAddr(k.contact) == Some(uri)
    ensures OpensTo(Step(cfg, s, Success(0, "a", cfg.portStart)).state, "a", uri)
  {
    var p := s.pending["a"];
    assert RemoteUri(p.request) == Some(uri);
    ConcludeOpens(cfg, s, Success(0, "a", cfg.portStart),
                  ResponseText(p.request, 503, "Service Unavailable", Some(p.tag)),
                  OkText(p.request, p.tag, cfg.host, p.port), uri);
  }

  lemma ConcludeOpens(cfg: Config, s: State, e: Event, refusal: Option<string>, okText: Option<string>, uri: string)
    requires s.running && e.SetupDone? && e.callId in s.pending && e.bridgePort.Some? && e.sendOk
    requires okText.Some? && Answerable(s.pending[e.callId].request)
    ensures var r := Conclude(cfg, s, e, refusal, okText, Some(uri)).state;
            && r.running && r.pending == s.pending - {e.callId}
            && e.callId in r.dialogs && r.dialogs[e.callId].signaling.remoteUri == uri
            && r.dialogs[e.callId].port == s.pending[e.callId].port
            && r.dialogs[e.callId].bridgePort == e.bridgePort.value
  {
  }

  /**
    Any caller whose Contact is a URI of two words in angle brackets, for instance "<sip:a b>",
    gets a dialog whose BYE nobody can read as a request.
   */
  lemma SpacedContactGetsNoBye(cfg: Config, k: Caller, a: string, b: string, branch: string)
    requires cfg.portStart <= cfg.portEnd && GoodConfig(cfg) && k.Valid() && IsTag(branch)
    requires TwoWords(a, b) && k.contact == "<" + (a + " " + b) + ">"
    ensures EndsUnreadably(cfg, Run(cfg, Init(), Answered(Ask(k), cfg.portStart)), "a", branch)
  {
    SpacedUri(a, b);
    AnsweredReads(k, cfg.portStart);
    var s := AnswerAwaited(cfg, k, Answered(Ask(k), cfg.portStart));
    AnsweredOpens(cfg, k, s, a + " " + b);
    UnaddressableBye(cfg, Answered(Ask(k), cfg.portStart), "a", a + " " + b, branch);
  }

  /** Call `c` is open, and the one datagram that ends it is no request. */
  ghost predicate EndsUnreadably(cfg: Config, s: State, c: string, branch: string) {
    var o := Step(cfg, s, BackendEnd(c, branch));
    s.running && c in s.dialogs && |o.sent| == 1 && ParseRequest(o.sent[0].payload).None?
  }

  lemma UnaddressableBye(cfg: Config, es: seq<Event>, c: string, uri: string, branch: string)
    requires GoodConfig(cfg) && IsTag(branch) && forall i :: 0 <= i < |es| ==> Genuine(es[i])
    requires OpensTo(Run(cfg, Init(), es), c, uri) && !Addressable(uri)
    ensures EndsUnreadably(cfg, Run(cfg, Init(), es), c, branch)
  {
    ByeBelongsToDialog(cfg, es, c, branch);
  }
}
