/**
  The SIP engine: one task that owns the RTP port pool, the invites being set up, the open
  dialogs and the cached BYE answers, and handles one event at a time.
 */
module SipEngine {
  import opened Wrappers
  import opened Strings
  import opened Sip

  datatype Addr = Addr(ip: string, port: nat)
  datatype Config = Config(host: string, portStart: nat, portEnd: nat, ringing: bool)

  /** An invite being set up; `setup` is the number of the setup task started for it, which is history. */
  datatype Pending = Pending(request: Request, source: Addr, tag: string, port: nat, createdAt: nat, setup: nat)

  /** An open call; `bridgePort` is the port on which its media bridge listens. */
  datatype Dialog = Dialog(port: nat, signaling: Signaling, remoteTarget: Addr, okPayload: string, okTarget: Addr,
                           bridgePort: nat)

  /** An INVITE the gateway sent, and whether an ACK went out for it. */
  datatype Outbound = Outbound(invite: SentInvite, createdAt: nat, acked: bool)

  /** What a setup task was started with. */
  datatype Setup = Setup(callId: string, port: nat)
  datatype CachedAnswer = CachedAnswer(payload: string, destination: Addr, createdAt: nat)
  datatype Datagram = Datagram(payload: string, target: Addr)

  const PENDING_LIFETIME_MS := 60_000
  const ANSWER_LIFETIME_MS := 300_000
  const OUTBOUND_LIFETIME_MS := 300_000
  const MISSING_CALL_ID := "<missing-call-id>"

  /**
    The task's variables.  `accepted` is a history count of the dialogs ever opened, `setups` the
    history of the setup tasks started.  `running` turns false when the task ends: its command
    channel is closed, or an event aborts it (a Contact whose `>` precedes its `<` makes the URI
    slice panic).
   */
  datatype State = State(
    running: bool,
    inUse: set<nat>,
    pending: map<string, Pending>,
    dialogs: map<string, Dialog>,
    answers: map<string, CachedAnswer>,
    outbound: map<string, Outbound>,
    active: nat,
    teardowns: nat,
    rejected: nat,
    accepted: nat,
    setups: seq<Setup>)

  function Init(): (s: State) { State(true, {}, map[], map[], map[], map[], 0, 0, 0, 0, []) }

  /**
    One turn of the select loop.  The environment supplies what the task cannot compute: the
    clock, fresh UUIDs, whether a send succeeded, and what a Contact resolves to.
   */
  datatype Event =
    | Received(request: Option<Request>, media: bool, source: Addr, now: nat, tag: string, rejectTag: string,
               sendOk: bool)
    | Responded(response: Response, source: Addr, now: nat, branch: string, contactAddr: Option<Addr>, sendOk: bool)
    | SetupDone(setup: nat, callId: string, bridgePort: Option<nat>, contactAddr: Option<Addr>, sendOk: bool)
    | BackendEnd(callId: string, branch: string)
    | InviteSent(invite: SentInvite, now: nat)
    | CommandsClosed

  datatype Outcome = Outcome(state: State, sent: seq<Datagram>)

  function CallIdOf(req: Request): (c: string) {
    match req.headers.Get("call-id") case Some(c) => c case None => MISSING_CALL_ID
  }

  function SendTo(text: Option<string>, target: Addr): (ds: seq<Datagram>) {
    match text case Some(t) => [Datagram(t, target)] case None => []
  }

  /** `BoundedRtpPortPool::allocate`: the lowest free port of the range. */
  function FirstFree(lo: nat, hi: nat, inUse: set<nat>): (r: Option<nat>)
    ensures r.Some? ==> lo <= r.value <= hi && r.value !in inUse && forall p :: lo <= p < r.value ==> p in inUse
    ensures r.None? ==> forall p :: lo <= p <= hi ==> p in inUse
    decreases hi + 1 - lo
  {
    if lo > hi then None else if lo !in inUse then Some(lo) else FirstFree(lo + 1, hi, inUse)
  }

  /** `AtomicU64::fetch_sub(1)`: wraps below zero. */
  function FetchSub(n: nat): (r: nat) { if n == 0 then 0xFFFF_FFFF_FFFF_FFFF else n - 1 }

  // ---- one handler per event --------------------------------------------------------

  function OnInvite(cfg: Config, s: State, e: Event): (r: Outcome)
    requires e.Received? && e.request.Some?
  {
    var req := e.request.value;
    var c := CallIdOf(req);
    if c in s.dialogs then
      Outcome(s, [Datagram(s.dialogs[c].okPayload, s.dialogs[c].okTarget)])
    else if c in s.pending then Outcome(s, [])
    else if c == MISSING_CALL_ID then
      Outcome(s, SendTo(ResponseText(req, 400, "Bad Request", None), e.source))
    else Admit(cfg, s, e)
  }

  /** A new call: provisional responses, then a port and a pending setup, or a refusal. */
  function Admit(cfg: Config, s: State, e: Event): (r: Outcome)
    requires e.Received? && e.request.Some?
  {
    var req := e.request.value;
    var early := SendTo(ResponseText(req, 100, "Trying", None), e.source)
                 + (if cfg.ringing then SendTo(RingingText(req, e.tag), e.source) else []);
    AdmitWith(cfg, s, e, early, SendTo(ResponseText(req, 503, "Service Unavailable", Some(e.rejectTag)), e.source),
              SendTo(ResponseText(req, 488, "Not Acceptable Here", Some(e.tag)), e.source))
  }

  /** The same, given what is sent at once, when no port is free, and when the media cannot be used. */
  function AdmitWith(cfg: Config, s: State, e: Event, early: seq<Datagram>, full: seq<Datagram>,
                     unusable: seq<Datagram>): (r: Outcome)
    requires e.Received? && e.request.Some?
  {
    var req := e.request.value;
    match FirstFree(cfg.portStart, cfg.portEnd, s.inUse)
    case None => Outcome(s.(rejected := s.rejected + 1), early + full)
    case Some(port) =>
      if !e.media then Outcome(s.(rejected := s.rejected + 1), early + unusable)
      else
        Outcome(s.(inUse := s.inUse + {port},
                   pending := s.pending[CallIdOf(req) := Pending(req, e.source, e.tag, port, e.now, |s.setups|)],
                   setups := s.setups + [Setup(CallIdOf(req), port)]), early)
  }

  function AnswerKey(req: Request): (k: string) {
    CallIdOf(req) + "|" + (match req.headers.Get("cseq") case Some(q) => q case None => "0 BYE")
  }

  /** Closing a dialog gives its port back and moves it from active to torn down. */
  function CloseDialog(s: State, c: string): (r: State) {
    if c !in s.dialogs then s
    else s.(dialogs := s.dialogs - {c}, inUse := s.inUse - {s.dialogs[c].port},
            active := FetchSub(s.active), teardowns := s.teardowns + 1)
  }

  function OnBye(s: State, e: Event): (r: Outcome)
    requires e.Received? && e.request.Some?
  {
    var req := e.request.value;
    var key := AnswerKey(req);
    if key in s.answers then Outcome(s, [Datagram(s.answers[key].payload, s.answers[key].destination)])
    else AnswerBye(s, e, ResponseText(req, 200, "OK", None))
  }

  /** A BYE that was not answered before, given the text of the answer. */
  function AnswerBye(s: State, e: Event, text: Option<string>): (r: Outcome)
    requires e.Received? && e.request.Some?
  {
    var req := e.request.value;
    var s1 := if text.Some? && e.sendOk
              then s.(answers := s.answers[AnswerKey(req) := CachedAnswer(text.value, e.source, e.now)]) else s;
    Outcome(CloseDialog(s1, CallIdOf(req)), SendTo(text, e.source))
  }

  function OnCancel(s: State, e: Event): (r: Outcome)
    requires e.Received? && e.request.Some?
  {
    var req := e.request.value;
    var c := CallIdOf(req);
    var ok := SendTo(ResponseText(req, 200, "OK", None), e.source);
    if c !in s.pending then Outcome(s, ok)
    else
      var p := s.pending[c];
      Outcome(s.(pending := s.pending - {c}, inUse := s.inUse - {p.port}),
              ok + SendTo(ResponseText(p.request, 487, "Request Terminated", Some(p.tag)), p.source))
  }

  function OnRequest(cfg: Config, s: State, e: Event): (r: Outcome)
    requires e.Received?
  {
    if e.request.None? then Outcome(s, [])
    else match e.request.value.requestMethod
      case "INVITE" => OnInvite(cfg, s, e)
      case "BYE" => OnBye(s, e)
      case "CANCEL" => OnCancel(s, e)
      case _ => Outcome(s, [])
  }

  predicate Expired(createdAt: nat, now: nat, lifetime: nat) { now - createdAt >= lifetime }

  /** `cleanup_stale_state`, run after every datagram: pending invites go without releasing their port. */
  function Cleanup(s: State, now: nat): (r: State) {
    s.(pending := map c | c in s.pending && !Expired(s.pending[c].createdAt, now, PENDING_LIFETIME_MS) :: s.pending[c],
       answers := map k | k in s.answers && !Expired(s.answers[k].createdAt, now, ANSWER_LIFETIME_MS) :: s.answers[k],
       outbound := map c | c in s.outbound && !Expired(s.outbound[c].createdAt, now, OUTBOUND_LIFETIME_MS)
                     :: s.outbound[c])
  }

  /** `None` when reading the Contact of a response aborts the task. */
  function AckUri(inv: SentInvite, h: Headers): (r: Option<string>) {
    match h.Get("contact") case Some(v) => UriOfNameAddr(v) case None => Some(inv.uri)
  }

  /** A response to an INVITE the gateway sent, and still remembers. */
  predicate AnswersOutbound(s: State, h: Headers) {
    && h.Get("call-id").Some? && h.Get("call-id").value in s.outbound
    && h.Get("cseq").Some? && Contains(Upper(h.Get("cseq").value), "INVITE")
  }

  /** `handle_sip_response`: an ACK whatever the status of the response; a failure ends the transaction. */
  function OnResponse(cfg: Config, s: State, e: Event): (r: Outcome)
    requires e.Responded?
  {
    var h := e.response.headers;
    if !AnswersOutbound(s, h) then Outcome(s, [])
    else if h.Get("to").None? then Outcome(Settle(s, h.Get("call-id").value, e.response.status), [])
    else
      var c := h.Get("call-id").value;
      match AckUri(s.outbound[c].invite, h)
      case None => Outcome(s.(running := false), [])
      case Some(uri) =>
        Acknowledge(s, e, c, AckText(s.outbound[c].invite, uri, h.Get("to").value, cfg.host, e.branch))
  }

  /** Sends the ACK, marks it, and settles the transaction. */
  function Acknowledge(s: State, e: Event, c: string, text: string): (r: Outcome)
    requires e.Responded? && c in s.outbound
  {
    Outcome(Settle(if e.sendOk then MarkAcked(s, c) else s, c, e.response.status),
            [Datagram(text, if e.contactAddr.Some? then e.contactAddr.value else e.source)])
  }

  function MarkAcked(s: State, c: string): (r: State)
    requires c in s.outbound
  {
    s.(outbound := s.outbound[c := s.outbound[c].(acked := true)])
  }

  function Settle(s: State, c: string, status: nat): (r: State) {
    if status >= 300 then s.(outbound := s.outbound - {c}) else s
  }

  /** `None` when reading the Contact aborts the task. */
  function RemoteUri(req: Request): (r: Option<string>) {
    match req.headers.Get("contact") case Some(v) => UriOfNameAddr(v) case None => Some(req.uri)
  }

  function DialogFor(cfg: Config, p: Pending, c: string, uri: string, ok: string,
                     contactAddr: Option<Addr>, bridgePort: nat): (d: Dialog)
    requires Answerable(p.request)
  {
    var sig := Signaling(c, EnsureTag(p.request.headers.Get("to").value, p.tag),
                         p.request.headers.Get("from").value, uri, cfg.host, 1);
    Dialog(p.port, sig, if contactAddr.Some? then contactAddr.value else p.source, ok, p.source, bridgePort)
  }

  /** Giving up on a pending invite: out of the table, port back. */
  function DropPending(s: State, c: string): (r: State)
    requires c in s.pending
  {
    s.(pending := s.pending - {c}, inUse := s.inUse - {s.pending[c].port})
  }

  function OnSetupDone(cfg: Config, s: State, e: Event): (r: Outcome)
    requires e.SetupDone?
  {
    var c := e.callId;
    if c !in s.pending then
      Outcome(if e.bridgePort.Some? then s.(inUse := s.inUse - {e.bridgePort.value}) else s, [])
    else
      var p := s.pending[c];
      Conclude(cfg, s, e, ResponseText(p.request, 503, "Service Unavailable", Some(p.tag)),
               OkText(p.request, p.tag, cfg.host, p.port), RemoteUri(p.request))
  }

  /** A setup result for a pending invite, given the texts that can be sent for it. */
  function Conclude(cfg: Config, s: State, e: Event, refusal: Option<string>, okText: Option<string>,
                    remote: Option<string>): (r: Outcome)
    requires e.SetupDone? && e.callId in s.pending
    requires okText.Some? ==> Answerable(s.pending[e.callId].request)
  {
    var c := e.callId;
    var p := s.pending[c];
    if e.bridgePort.None? then Outcome(DropPending(s, c).(rejected := s.rejected + 1), SendTo(refusal, p.source))
    else
      match okText
      case None => Outcome(DropPending(s, c).(rejected := s.rejected + 1), [])
      case Some(ok) =>
        if !e.sendOk then Outcome(DropPending(s, c), [Datagram(ok, p.source)])
        else match remote
          case None => Outcome(s.(running := false), [Datagram(ok, p.source)])
          case Some(uri) =>
            Outcome(s.(pending := s.pending - {c},
                       dialogs := s.dialogs[c := DialogFor(cfg, p, c, uri, ok, e.contactAddr, e.bridgePort.value)],
                       active := s.active + 1, accepted := s.accepted + 1),
                    [Datagram(ok, p.source)])
  }

  function OnBackendEnd(s: State, e: Event): (r: Outcome)
    requires e.BackendEnd?
  {
    if e.callId !in s.dialogs then Outcome(s, [])
    else
      var d := s.dialogs[e.callId];
      Outcome(CloseDialog(s, e.callId), [Datagram(ByeText(d.signaling, e.branch), d.remoteTarget)])
  }

  function Step(cfg: Config, s: State, e: Event): (r: Outcome) {
    if !s.running then Outcome(s, [])
    else match e
      case Received(_, _, _, now, _, _, _) =>
        var o := OnRequest(cfg, s, e);
        Outcome(Cleanup(o.state, now), o.sent)
      case Responded(_, _, now, _, _, _) =>
        var o := OnResponse(cfg, s, e);
        Outcome(Cleanup(o.state, now), o.sent)
      case SetupDone(_, _, _, _, _) => OnSetupDone(cfg, s, e)
      case BackendEnd(_, _) => OnBackendEnd(s, e)
      case InviteSent(inv, now) => Outcome(s.(outbound := s.outbound[inv.callId := Outbound(inv, now, false)]), [])
      case CommandsClosed => Outcome(s.(running := false), [])
  }

  function Run(cfg: Config, s: State, es: seq<Event>): (r: State) {
    if es == [] then s else Step(cfg, Run(cfg, s, es[..|es| - 1]), es[|es| - 1]).state
  }

  /** What the environment adds to a datagram: IP parsing, the clock, fresh UUIDs, name resolution, the sends. */
  datatype Setting = Setting(
    parseIp: string -> Option<string>, source: Addr, now: nat, tag: string, rejectTag: string, branch: string,
    contactAddr: Option<Addr>, sendOk: bool)

  /** The event a datagram becomes once the socket text is parsed. */
  function Arrival(text: string, w: Setting): (e: Event) {
    if ParseRequest(text).None? && ParseResponse(text).Some? then
      Responded(ParseResponse(text).value, w.source, w.now, w.branch, w.contactAddr, w.sendOk)
    else
      Received(ParseRequest(text), MediaAddr(text, w.parseIp, w.source.ip).Some?, w.source, w.now, w.tag, w.rejectTag,
               w.sendOk)
  }

  // ---- the task itself --------------------------------------------------------------

  /** `BoundedRtpPortPool`. */
  class PortPool {
    const start: nat
    const end: nat
    var inUse: set<nat>

    constructor (start: nat, end: nat)
      ensures this.start == start && this.end == end && inUse == {}
    {
      this.start, this.end, inUse := start, end, {};
    }

    /** Takes the lowest free port; fails, changing nothing, only when the whole range is in use. */
    method Allocate() returns (port: Option<nat>)
      modifies this
      ensures port == FirstFree(start, end, old(inUse))
      ensures inUse == if port.Some? then old(inUse) + {port.value} else old(inUse)
    {
      var p := start;
      while p <= end
        invariant FirstFree(start, end, inUse) == FirstFree(p, end, inUse)
        invariant inUse == old(inUse)
        decreases end + 1 - p
      {
        if p !in inUse {
          inUse := inUse + {p};
          return Some(p);
        }
        p := p + 1;
      }
      return None;
    }

    method Release(port: nat)
      modifies this
      ensures inUse == old(inUse) - {port}
    {
      inUse := inUse - {port};
    }
  }

  class Engine {
    const cfg: Config
    const pool: PortPool
    var running: bool
    var pending: map<string, Pending>
    var dialogs: map<string, Dialog>
    var answers: map<string, CachedAnswer>
    var outbound: map<string, Outbound>
    var active: nat
    var teardowns: nat
    var rejected: nat
    ghost var accepted: nat
    var setups: seq<Setup>

    ghost predicate Valid() { pool.start == cfg.portStart && pool.end == cfg.portEnd }

    ghost function Now(): State
      reads this, pool
    {
      State(running, pool.inUse, pending, dialogs, answers, outbound, active, teardowns, rejected, accepted, setups)
    }

    constructor (cfg: Config)
      ensures Valid() && fresh(pool) && this.cfg == cfg && Now() == Init()
    {
      this.cfg := cfg;
      pool := new PortPool(cfg.portStart, cfg.portEnd);
      running, pending, dialogs, answers, outbound := true, map[], map[], map[], map[];
      active, teardowns, rejected, accepted, setups := 0, 0, 0, 0, [];
    }

    method HandleInvite(e: Event) returns (sent: seq<Datagram>)
      requires Valid() && e.Received? && e.request.Some?
      modifies this, pool
      ensures Valid() && Outcome(Now(), sent) == OnInvite(cfg, old(Now()), e)
    {
      var req := e.request.value;
      var c := CallIdOf(req);
      if c in dialogs {
        return [Datagram(dialogs[c].okPayload, dialogs[c].okTarget)];
      }
      if c in pending {
        return [];
      }
      if c == MISSING_CALL_ID {
        return SendTo(ResponseText(req, 400, "Bad Request", None), e.source);
      }
      sent := AdmitInvite(e);
    }

    method AdmitInvite(e: Event) returns (sent: seq<Datagram>)
      requires Valid() && e.Received? && e.request.Some?
      modifies this, pool
      ensures Valid() && Outcome(Now(), sent) == Admit(cfg, old(Now()), e)
    {
      var req := e.request.value;
      var early := SendTo(ResponseText(req, 100, "Trying", None), e.source);
      early := early + (if cfg.ringing then SendTo(RingingText(req, e.tag), e.source) else []);
      var full := SendTo(ResponseText(req, 503, "Service Unavailable", Some(e.rejectTag)), e.source);
      var unusable := SendTo(ResponseText(req, 488, "Not Acceptable Here", Some(e.tag)), e.source);
      sent := FileInvite(e, early, full, unusable);
    }

    method FileInvite(e: Event, early: seq<Datagram>, full: seq<Datagram>, unusable: seq<Datagram>)
      returns (sent: seq<Datagram>)
      requires Valid() && e.Received? && e.request.Some?
      modifies this, pool
      ensures Valid() && Outcome(Now(), sent) == AdmitWith(cfg, old(Now()), e, early, full, unusable)
    {
      var req := e.request.value;
      var port := pool.Allocate();
      if port.None? {
        rejected := rejected + 1;
        return early + full;
      }
      if !e.media {
        rejected := rejected + 1;
        pool.Release(port.value);
        assert old(pool.inUse) + {port.value} - {port.value} == old(pool.inUse);
        return early + unusable;
      }
      pending := pending[CallIdOf(req) := Pending(req, e.source, e.tag, port.value, e.now, |setups|)];
      setups := setups + [Setup(CallIdOf(req), port.value)];
      sent := early;
    }

    method Close(c: string)
      requires Valid()
      modifies this, pool
      ensures Valid() && Now() == CloseDialog(old(Now()), c)
    {
      if c in dialogs {
        var d := dialogs[c];
        dialogs := dialogs - {c};
        pool.Release(d.port);
        active := FetchSub(active);
        teardowns := teardowns + 1;
      }
    }

    method HandleBye(e: Event) returns (sent: seq<Datagram>)
      requires Valid() && e.Received? && e.request.Some?
      modifies this, pool
      ensures Valid() && Outcome(Now(), sent) == OnBye(old(Now()), e)
    {
      var req := e.request.value;
      var key := AnswerKey(req);
      if key in answers {
        return [Datagram(answers[key].payload, answers[key].destination)];
      }
      var text := ResponseText(req, 200, "OK", None);
      if text.Some? && e.sendOk {
        answers := answers[key := CachedAnswer(text.value, e.source, e.now)];
      }
      Close(CallIdOf(req));
      sent := SendTo(text, e.source);
    }

    method HandleCancel(e: Event) returns (sent: seq<Datagram>)
      requires Valid() && e.Received? && e.request.Some?
      modifies this, pool
      ensures Valid() && Outcome(Now(), sent) == OnCancel(old(Now()), e)
    {
      var req := e.request.value;
      var c := CallIdOf(req);
      sent := SendTo(ResponseText(req, 200, "OK", None), e.source);
      if c in pending {
        var p := pending[c];
        pending := pending - {c};
        sent := sent + SendTo(ResponseText(p.request, 487, "Request Terminated", Some(p.tag)), p.source);
        pool.Release(p.port);
      }
    }

    method HandleSetupDone(e: Event) returns (sent: seq<Datagram>)
      requires Valid() && e.SetupDone?
      modifies this, pool
      ensures Valid() && Outcome(Now(), sent) == OnSetupDone(cfg, old(Now()), e)
    {
      var c := e.callId;
      sent := [];
      if c !in pending {
        if e.bridgePort.Some? { pool.Release(e.bridgePort.value); }
        return;
      }
      var p := pending[c];
      sent := ConcludeSetup(e, ResponseText(p.request, 503, "Service Unavailable", Some(p.tag)),
                            OkText(p.request, p.tag, cfg.host, p.port), RemoteUri(p.request));
    }

    method ConcludeSetup(e: Event, refusal: Option<string>, ok: Option<string>, uri: Option<string>)
      returns (sent: seq<Datagram>)
      requires Valid() && e.SetupDone? && e.callId in pending
      requires ok.Some? ==> Answerable(pending[e.callId].request)
      modifies this, pool
      ensures Valid() && Outcome(Now(), sent) == Conclude(cfg, old(Now()), e, refusal, ok, uri)
    {
      var c := e.callId;
      var p := pending[c];
      sent := [];
      if e.bridgePort.None? {
        rejected := rejected + 1;
        pending := pending - {c};
        pool.Release(p.port);
        return SendTo(refusal, p.source);
      }
      if ok.None? {
        rejected := rejected + 1;
        pending := pending - {c};
        pool.Release(p.port);
        return;
      }
      sent := [Datagram(ok.value, p.source)];
      if !e.sendOk {
        pending := pending - {c};
        pool.Release(p.port);
        return;
      }
      if uri.None? {
        running := false;
        return;
      }
      pending := pending - {c};
      dialogs := dialogs[c := DialogFor(cfg, p, c, uri.value, ok.value, e.contactAddr, e.bridgePort.value)];
      active := active + 1;
      accepted := accepted + 1;
    }

    method HandleResponse(e: Event) returns (sent: seq<Datagram>)
      requires Valid() && e.Responded?
      modifies this
      ensures Valid() && Outcome(Now(), sent) == OnResponse(cfg, old(Now()), e)
    {
      var h := e.response.headers;
      sent := [];
      var callId, cseq := h.Get("call-id"), h.Get("cseq");
      if callId.None? || cseq.None? || !Contains(Upper(cseq.value), "INVITE") || callId.value !in outbound { return; }
      var c := callId.value;
      var to := h.Get("to");
      if to.Some? {
        var uri := AckUri(outbound[c].invite, h);
        if uri.None? {
          running := false;
          return;
        }
        var target := if e.contactAddr.Some? then e.contactAddr.value else e.source;
        sent := [Datagram(AckText(outbound[c].invite, uri.value, to.value, cfg.host, e.branch), target)];
        if e.sendOk { outbound := outbound[c := outbound[c].(acked := true)]; }
      }
      if e.response.status >= 300 { outbound := outbound - {c}; }
    }

    /** `cleanup_stale_state`. */
    method Expire(now: nat)
      modifies this
      ensures Now() == Cleanup(old(Now()), now)
    {
      pending := map c | c in pending && !Expired(pending[c].createdAt, now, PENDING_LIFETIME_MS) :: pending[c];
      answers := map k | k in answers && !Expired(answers[k].createdAt, now, ANSWER_LIFETIME_MS) :: answers[k];
      outbound := map c | c in outbound && !Expired(outbound[c].createdAt, now, OUTBOUND_LIFETIME_MS) :: outbound[c];
    }

    /** One turn of the loop does exactly one step of the specification. */
    method Handle(e: Event) returns (sent: seq<Datagram>)
      requires Valid()
      modifies this, pool
      ensures Valid() && Outcome(Now(), sent) == Step(cfg, old(Now()), e)
    {
      sent := [];
      if !running { return; }
      match e
      case Received(request, _, _, now, _, _, _) =>
        if request.Some? {
          var name := request.value.requestMethod;
          if name == "INVITE" { sent := HandleInvite(e); }
          else if name == "BYE" { sent := HandleBye(e); }
          else if name == "CANCEL" { sent := HandleCancel(e); }
        }
        Expire(now);
      case Responded(_, _, now, _, _, _) =>
        sent := HandleResponse(e);
        Expire(now);
      case SetupDone(_, _, _, _, _) => sent := HandleSetupDone(e);
      case BackendEnd(c, branch) =>
        if c in dialogs {
          sent := [Datagram(ByeText(dialogs[c].signaling, branch), dialogs[c].remoteTarget)];
          Close(c);
        }
      case InviteSent(inv, now) => outbound := outbound[inv.callId := Outbound(inv, now, false)];
      case CommandsClosed => running := false;
    }
  }
}
