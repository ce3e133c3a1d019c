/**
  Tool results of a voice call.  Tool runs are tasks beside the event loop; each decides under a
  lock to send its result itself or to queue it, and the loop flushes the queue when a response
  is done.  Between two suspension points everything is one step.
 */
module ToolResults {
  /** What the event loop is doing: `Flushing` and `FinalFlushing` hold what it has still to send. */
  datatype Loop =
    | Receiving
    | FlushDue
    | Flushing(rest: seq<nat>)
    | Draining
    | FinalFlushing(rest: seq<nat>)
    | Closed

  /** Runs are numbered in the order they start.  `queued` and `flushed` are history. */
  datatype State = State(
    started: nat,
    running: set<nat>,
    active: bool,
    ready: seq<nat>,
    sending: set<nat>,
    loop: Loop,
    sent: seq<nat>,
    queued: seq<nat>,
    flushed: seq<nat>)

  function Init(): State { State(0, {}, false, [], {}, Receiving, [], [], []) }

  datatype Event =
    | ResponseCreated
    | ResponseDone
    | ToolCall
    | Finish(run: nat)
    | SendOwn(run: nat)
    | Flush
    | LoopSend
    | LoopResume
    | StreamLost
    | Drained

  predicate Enabled(s: State, e: Event) {
    match e
    case ResponseCreated => s.loop.Receiving?
    case ResponseDone => s.loop.Receiving?
    case ToolCall => s.loop.Receiving?
    case Finish(run) => run in s.running
    case SendOwn(run) => run in s.sending
    case Flush => s.loop.FlushDue?
    case LoopSend => (s.loop.Flushing? || s.loop.FinalFlushing?) && s.loop.rest != []
    case LoopResume => (s.loop.Flushing? || s.loop.FinalFlushing?) && s.loop.rest == []
    case StreamLost => s.loop.Receiving?
    case Drained => s.loop.Draining? && s.running == {} && s.sending == {}
  }

  function Step(s: State, e: Event): (r: State)
    requires Enabled(s, e)
  {
    match e
    case ResponseCreated => s.(active := true)
    case ResponseDone => s.(active := false, loop := FlushDue)
    case ToolCall => s.(started := s.started + 1, running := s.running + {s.started})
    case Finish(run) =>
      var t := s.(running := s.running - {run});
      if s.active then t.(ready := s.ready + [run], queued := s.queued + [run])
      else t.(sending := s.sending + {run})
    case SendOwn(run) => s.(sending := s.sending - {run}, sent := s.sent + [run])
    case Flush => s.(ready := [], loop := Flushing(s.ready))
    case LoopSend =>
      var t := s.(sent := s.sent + [s.loop.rest[0]], flushed := s.flushed + [s.loop.rest[0]]);
      if s.loop.Flushing? then t.(loop := Flushing(s.loop.rest[1..])) else t.(loop := FinalFlushing(s.loop.rest[1..]))
    case LoopResume => s.(loop := if s.loop.Flushing? then Receiving else Closed)
    case StreamLost => s.(loop := Draining)
    case Drained =>
      if s.active then s.(loop := Closed) else s.(ready := [], loop := FinalFlushing(s.ready))
  }

  ghost predicate IsRun(s: State, es: seq<Event>, r: State)
    decreases |es|
  {
    if es == [] then r == s
    else Enabled(s, es[0]) && IsRun(Step(s, es[0]), es[1..], r)
  }

  function Carried(l: Loop): seq<nat> { if l.Flushing? || l.FinalFlushing? then l.rest else [] }

  ghost function Has(xs: set<nat>, x: nat): (n: nat) { if x in xs then 1 else 0 }

  ghost function Copies(xs: seq<nat>, x: nat): (n: nat) { multiset(xs)[x] }

  /** In how many places run `x` is, counted with multiplicity. */
  ghost function Places(s: State, x: nat): (n: nat) {
    Has(s.running, x) + Copies(s.ready, x) + Has(s.sending, x) + Copies(Carried(s.loop), x) + Copies(s.sent, x)
  }

  ghost predicate InOnePlace(s: State) { forall x: nat :: Places(s, x) == if x < s.started then 1 else 0 }

  ghost predicate Ordered(s: State) {
    && (s.ready != [] ==> s.active || s.loop.FlushDue?)
    && s.queued == s.flushed + Carried(s.loop) + s.ready
    && (s.loop.FinalFlushing? ==> s.running == {} && s.sending == {} && s.ready == [] && !s.active)
    && (s.loop.Closed? ==> s.running == {} && s.sending == {})
  }

  ghost predicate Conserved(s: State) { InOnePlace(s) && Ordered(s) }

  lemma CopiesAppend(xs: seq<nat>, y: nat, x: nat)
    ensures Copies(xs + [y], x) == Copies(xs, x) + (if x == y then 1 else 0)
  {
    assert multiset(xs + [y]) == multiset(xs) + multiset{y};
  }

  lemma CopiesHead(xs: seq<nat>, x: nat)
    requires xs != []
    ensures Copies(xs, x) == Copies(xs[1..], x) + (if x == xs[0] then 1 else 0)
  {
    assert xs == [xs[0]] + xs[1..];
    assert multiset(xs) == multiset{xs[0]} + multiset(xs[1..]);
  }

  lemma ToolCallPlaces(s: State, x: nat)
    requires Places(s, s.started) == 0 && Enabled(s, ToolCall)
    ensures Places(Step(s, ToolCall), x) == Places(s, x) + (if x == s.started then 1 else 0)
  {
  }

  /** A run that is still running is nowhere else, since each is in one place. */
  lemma FinishPlaces(s: State, run: nat, x: nat)
    requires Places(s, run) == 1 && run in s.running
    ensures Places(Step(s, Finish(run)), x) == Places(s, x)
  {
    CopiesAppend(s.ready, run, x);
  }

  lemma SendOwnPlaces(s: State, run: nat, x: nat)
    requires run in s.sending
    ensures Places(Step(s, SendOwn(run)), x) == Places(s, x)
  {
    CopiesAppend(s.sent, run, x);
  }

  lemma LoopSendPlaces(s: State, x: nat)
    requires Enabled(s, LoopSend)
    ensures Places(Step(s, LoopSend), x) == Places(s, x)
  {
    CopiesAppend(s.sent, s.loop.rest[0], x);
    CopiesHead(s.loop.rest, x);
  }

  lemma FlushPlaces(s: State, e: Event, x: nat)
    requires Enabled(s, e) && (e.Flush? || e.Drained? || e.LoopResume?)
    ensures Places(Step(s, e), x) == Places(s, x)
  {
    NoCopies(x);
  }

  lemma NoCopies(x: nat)
    ensures Copies([], x) == 0
  {
  }

  lemma ResponsePlaces(s: State, e: Event, x: nat)
    requires Enabled(s, e) && (e.ResponseCreated? || e.ResponseDone? || e.StreamLost?)
    ensures Places(Step(s, e), x) == Places(s, x)
  {
  }

  /** Where run `x` is after a step: a tool call adds the new run, and nothing else changes a count. */
  lemma StepPlaces(s: State, e: Event, x: nat)
    requires InOnePlace(s) && Enabled(s, e)
    ensures Places(Step(s, e), x) == Places(s, x) + (if e.ToolCall? && x == s.started then 1 else 0)
  {
    match e
    case ToolCall =>
      assert Places(s, s.started) == 0;
      ToolCallPlaces(s, x);
    case Finish(run) =>
      assert Places(s, run) == if run < s.started then 1 else 0;
      FinishPlaces(s, run, x);
    case SendOwn(run) => SendOwnPlaces(s, run, x);
    case LoopSend => LoopSendPlaces(s, x);
    case Flush => FlushPlaces(s, e, x);
    case Drained => FlushPlaces(s, e, x);
    case LoopResume => FlushPlaces(s, e, x);
    case ResponseCreated => ResponsePlaces(s, e, x);
    case ResponseDone => ResponsePlaces(s, e, x);
    case StreamLost => ResponsePlaces(s, e, x);
  }

  lemma FinishOrdered(s: State, run: nat)
    requires Ordered(s) && run in s.running
    ensures Ordered(Step(s, Finish(run)))
  {
    var r := Step(s, Finish(run));
    if s.active { assert r.queued == s.flushed + Carried(s.loop) + (s.ready + [run]); }
  }

  lemma LoopSendOrdered(s: State)
    requires Ordered(s) && Enabled(s, LoopSend)
    ensures Ordered(Step(s, LoopSend))
  {
    var r := Step(s, LoopSend);
    HeadMoves(s.flushed, s.loop.rest);
    assert r.flushed + Carried(r.loop) == s.flushed + s.loop.rest;
  }

  lemma HeadMoves(done: seq<nat>, rest: seq<nat>)
    requires rest != []
    ensures (done + [rest[0]]) + rest[1..] == done + rest
  {
  }

  lemma FlushOrdered(s: State)
    requires Ordered(s) && Enabled(s, Flush)
    ensures Ordered(Step(s, Flush))
  {
    NothingBetween(s.flushed, s.ready);
  }

  lemma DrainedOrdered(s: State)
    requires Ordered(s) && Enabled(s, Drained)
    ensures Ordered(Step(s, Drained))
  {
    NothingBetween(s.flushed, s.ready);
  }

  lemma ResumeOrdered(s: State)
    requires Ordered(s) && Enabled(s, LoopResume)
    ensures Ordered(Step(s, LoopResume))
  {
    NothingBetween(s.flushed, s.ready);
  }

  lemma NothingBetween(a: seq<nat>, b: seq<nat>)
    ensures a + [] + b == a + b == a + b + []
  {
  }

  lemma OtherOrdered(s: State, e: Event)
    requires Ordered(s) && Enabled(s, e)
    requires e.ToolCall? || e.SendOwn? || e.ResponseCreated? || e.ResponseDone? || e.StreamLost?
    ensures Ordered(Step(s, e))
  {
  }

  /** The flush keeps the order in which results were queued. */
  lemma StepOrdered(s: State, e: Event)
    requires Ordered(s) && Enabled(s, e)
    ensures Ordered(Step(s, e))
  {
    match e
    case Finish(run) => FinishOrdered(s, run);
    case LoopSend => LoopSendOrdered(s);
    case Flush => FlushOrdered(s);
    case Drained => DrainedOrdered(s);
    case LoopResume => ResumeOrdered(s);
    case ToolCall => OtherOrdered(s, e);
    case SendOwn(_) => OtherOrdered(s, e);
    case ResponseCreated => OtherOrdered(s, e);
    case ResponseDone => OtherOrdered(s, e);
    case StreamLost => OtherOrdered(s, e);
  }

  lemma StepConserves(s: State, e: Event)
    requires Conserved(s) && Enabled(s, e)
    ensures Conserved(Step(s, e))
  {
    forall x: nat ensures Places(Step(s, e), x) == if x < Step(s, e).started then 1 else 0 { StepPlaces(s, e, x); }
    StepOrdered(s, e);
  }

  lemma {:induction false} RunConserves(s: State, es: seq<Event>, r: State)
    requires Conserved(s) && IsRun(s, es, r)
    ensures Conserved(r)
    decreases |es|
  {
    if es != [] {
      StepConserves(s, es[0]);
      RunConserves(Step(s, es[0]), es[1..], r);
    }
  }

  /**
    On every interleaving: each run that was started is still running, queued, on its way or
    sent, in exactly one of these and exactly once; the queue holds something only while a
    response is active or its flush is due; and queued results leave in the order they came.
   */
  lemma EveryResultInOnePlace(es: seq<Event>, s: State)
    requires IsRun(Init(), es, s)
    ensures InOnePlace(s)
    ensures s.ready != [] ==> s.active || s.loop.FlushDue?
    ensures s.flushed + Carried(s.loop) + s.ready == s.queued
  {
    RunConserves(Init(), es, s);
  }

  // ---- nothing is sent into a response ----------------------------------------------

  /** Whether a response is in progress after these events, if `before` says whether one was before them. */
  function Answering(before: bool, es: seq<Event>): (now: bool) {
    if es == [] then before
    else match es[|es| - 1]
      case ResponseCreated => true
      case ResponseDone => false
      case _ => Answering(before, es[..|es| - 1])
  }

  lemma {:induction false} AnsweringHead(before: bool, es: seq<Event>)
    requires es != []
    ensures Answering(before, es) == Answering(Answering(before, es[..1]), es[1..])
    decreases |es|
  {
    var n := |es| - 1;
    if n == 0 {
      assert es[..1] == es && es[1..] == [];
    } else {
      AnsweringHead(before, es[..n]);
      assert es[..n][..1] == es[..1] && es[..n][1..] == es[1..][..n - 1] && es[1..][n - 1] == es[n];
    }
  }

  lemma {:induction false} ActiveIsAnswering(s: State, es: seq<Event>, r: State)
    requires IsRun(s, es, r)
    ensures r.active == Answering(s.active, es)
    decreases |es|
  {
    if es != [] {
      AnsweringHead(s.active, es);
      assert es[..1][..0] == [] && Answering(s.active, []) == s.active;
      ActiveIsAnswering(Step(s, es[0]), es[1..], r);
    }
  }

  /** A result that comes during a response waits for its end; any other is sent by its own run. */
  lemma ResultsWaitForTheResponse(es: seq<Event>, s: State, run: nat)
    requires IsRun(Init(), es, s) && run in s.running
    ensures var r := Step(s, Finish(run));
            && r.sent == s.sent
            && (if Answering(false, es) then r.ready == s.ready + [run] && r.sending == s.sending
                else r.ready == s.ready && r.sending == s.sending + {run})
  {
    ActiveIsAnswering(Init(), es, s);
  }

  lemma TwiceIsTwo(xs: seq<nat>, i: nat, j: nat)
    requires i < j < |xs| && xs[i] == xs[j]
    ensures Copies(xs, xs[i]) >= 2
  {
    assert xs == xs[..j] + [xs[j]] + xs[j + 1..];
    assert xs[..j][i] == xs[i];
    assert multiset(xs) == multiset(xs[..j]) + multiset{xs[j]} + multiset(xs[j + 1..]);
    assert multiset(xs[..j])[xs[i]] >= 1;
  }

  /** No result is ever sent twice. */
  lemma SentAtMostOnce(es: seq<Event>, s: State, i: nat, j: nat)
    requires IsRun(Init(), es, s) && i < j < |s.sent|
    ensures s.sent[i] != s.sent[j]
  {
    EveryResultInOnePlace(es, s);
    assert Places(s, s.sent[i]) <= 1;
    if s.sent[i] == s.sent[j] { TwiceIsTwo(s.sent, i, j); }
  }

  /** When the handler has ended, what was never sent is exactly what is left in the queue. */
  lemma AtTheEnd(es: seq<Event>, s: State)
    requires IsRun(Init(), es, s) && s.loop.Closed?
    ensures forall x: nat :: Copies(s.sent, x) + Copies(s.ready, x) == if x < s.started then 1 else 0
    ensures (s.ready == []) <==> (forall x: nat :: x < s.started ==> x in s.sent)
    ensures !s.active ==> s.ready == []
  {
    RunConserves(Init(), es, s);
    forall x: nat ensures Copies(s.sent, x) + Copies(s.ready, x) == if x < s.started then 1 else 0 {
      assert Places(s, x) == if x < s.started then 1 else 0;
    }
    if s.ready != [] {
      var x := s.ready[0];
      assert x in multiset(s.ready) && Copies(s.ready, x) >= 1;
      assert x < s.started && Copies(s.sent, x) == 0;
      assert x !in multiset(s.sent);
      assert x !in s.sent;
    } else {
      forall x: nat | x < s.started ensures x in s.sent { assert Copies(s.sent, x) == 1 && x in multiset(s.sent); }
    }
  }
}
