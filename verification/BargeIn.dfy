/**
  Barge-in end to end: provider, voice loop, the ordered websocket and the gateway's playout
  buffer.  Samples are tagged with the response they belong to.
 */
module BargeIn {
  import opened Wrappers
  import opened VoiceLoop
  import Playout

  datatype Sample = Sample(value: Playout.Byte, response: string)

  const SILENCE := Sample(0xFF, "")

  /** A message on the wire; `clears` records the response whose interruption sent it. */
  datatype Wired = Wired(message: WsMessage<Sample>, clears: Option<string>)

  datatype System = System(
    voice: Voice,
    wire: seq<Wired>,
    playout: Playout.State<Sample>,
    speaking: Option<string>,
    used: set<string>,
    interrupted: set<string>,
    cleared: set<string>)

  function Init(): System {
    System(Fresh(), [], Playout.Init(), None, {}, {}, {})
  }

  datatype Event = StreamStart | Provider(event: ProviderEvent<Sample>) | Deliver | Tick

  /** The provider speaks one response at a time, each under a fresh id, and tags its audio with it. */
  ghost predicate Allowed(s: System, e: Event) {
    match e
    case Provider(Created(id)) => s.speaking.None? && id.Some? && id.value != "" && id.value !in s.used
    case Provider(AudioDelta(id, audio)) =>
      id.Some? && s.speaking == id && forall i :: 0 <= i < |audio| ==> audio[i].response == id.value
    case Provider(Done) => s.speaking.Some?
    case Deliver => s.wire != []
    case _ => true
  }

  function WireAll(ms: seq<WsMessage<Sample>>, clears: Option<string>): (ws: seq<Wired>) {
    seq(|ms|, i requires 0 <= i < |ms| => Wired(ms[i], if ms[i].ClearPlayback? then clears else None))
  }

  function OnProvider(s: System, e: ProviderEvent<Sample>): (r: System) {
    if s.voice.stopped then s else
    var x := React(s.voice, e);
    var hit := if e.SpeechStarted? then s.speaking else None;
    s.(voice := x.voice,
       wire := s.wire + WireAll(x.messages, hit),
       speaking := (match e case Created(id) => id case Done => None case _ => s.speaking),
       used := (match e case Created(Some(id)) => s.used + {id} case _ => s.used),
       interrupted := s.interrupted + (if hit.Some? then {hit.value} else {}))
  }

  function Command(m: WsMessage<Sample>): Playout.Event<Sample> {
    match m
    case Media(audio) => Playout.Append(audio)
    case ClearPlayback => Playout.Clear
    case EndCall => Playout.End
  }

  function Step(s: System, e: Event): (r: System)
    requires e.Deliver? ==> s.wire != []
  {
    match e
    case StreamStart => s.(voice := s.voice.(streaming := true))
    case Provider(p) => OnProvider(s, p)
    case Deliver =>
      var w := s.wire[0];
      s.(wire := s.wire[1..],
         playout := Playout.Step(SILENCE, s.playout, Command(w.message)),
         cleared := s.cleared + (if w.clears.Some? then {w.clears.value} else {}))
    case Tick => s.(playout := Playout.Step(SILENCE, s.playout, Playout.Tick))
  }

  ghost predicate IsRun(s: System, es: seq<Event>, r: System)
    decreases |es|
  {
    if es == [] then r == s
    else Allowed(s, es[0]) && IsRun(Step(s, es[0]), es[1..], r)
  }

  // ---- where a response's audio can still be ----------------------------------------

  ghost predicate Silent(samples: seq<Sample>, id: string) {
    forall i :: 0 <= i < |samples| ==> samples[i].response != id
  }

  ghost predicate SilentMessage(w: Wired, id: string) { w.message.Media? ==> Silent(w.message.audio, id) }

  ghost predicate SilentWire(wire: seq<Wired>, id: string, from: int) {
    forall q :: from <= q < |wire| && 0 <= q ==> SilentMessage(wire[q], id)
  }

  /** Nothing of the response is on its way to a frame. */
  ghost predicate Gone(s: System, id: string) { SilentWire(s.wire, id, 0) && Silent(s.playout.buffer, id) }

  ghost predicate LabelsCut(s: System) {
    forall p :: 0 <= p < |s.wire| && s.wire[p].clears.Some? ==>
      && s.wire[p].message.ClearPlayback?
      && s.wire[p].clears.value in s.interrupted
      && SilentWire(s.wire, s.wire[p].clears.value, p)
  }

  ghost predicate ClearPending(s: System, id: string) {
    exists p :: 0 <= p < |s.wire| && s.wire[p].clears == Some(id)
  }

  ghost predicate VoiceTracks(s: System) {
    && (s.voice.active <==> s.speaking.Some?)
    && (s.speaking.Some? ==> s.voice.current == s.speaking && s.speaking.value in s.used && s.speaking.value != "")
    && (s.voice.cancelled.Some? ==> s.voice.cancelled.value in s.interrupted)
    && (s.speaking.Some? && s.speaking.value in s.interrupted ==> s.voice.cancelled == s.speaking)
    && s.interrupted <= s.used && s.cleared <= s.interrupted && "" !in s.used
  }

  /** The end of the call is the last message ever sent. */
  ghost predicate EndsLast(s: System) {
    && (forall q :: 0 <= q < |s.wire| && s.wire[q].message.EndCall? ==> q == |s.wire| - 1 && s.voice.stopped)
    && (!s.playout.running ==> s.voice.stopped && s.wire == [])
  }

  ghost predicate NoAudio(s: System) {
    (forall q :: 0 <= q < |s.wire| ==> !s.wire[q].message.Media?) && s.playout.buffer == []
  }

  ghost predicate Sound(s: System) {
    && VoiceTracks(s)
    && (forall id :: id !in s.used && id != "" ==> Gone(s, id))
    && LabelsCut(s)
    && EndsLast(s)
    && (!s.voice.streaming ==> NoAudio(s))
    && (forall id :: id in s.interrupted ==> ClearPending(s, id) || Gone(s, id))
    && (forall id :: id in s.cleared ==> Gone(s, id))
  }

  lemma InitSound()
    ensures Sound(Init())
  {
  }

  // ---- each step keeps it -----------------------------------------------------------

  lemma StartSound(s: System)
    requires Sound(s)
    ensures Sound(Step(s, StreamStart))
  {
    var r := Step(s, StreamStart);
    forall id | Gone(s, id) ensures Gone(r, id) {}
    forall id | ClearPending(s, id) ensures ClearPending(r, id) {}
  }

  lemma TickSound(s: System)
    requires Sound(s)
    ensures Sound(Step(s, Tick))
  {
    var r := Step(s, Tick);
    forall id | Gone(s, id) ensures Gone(r, id) {}
    forall id | ClearPending(s, id) ensures ClearPending(r, id) {}
  }

  lemma DeliverGone(s: System, id: string)
    requires s.wire != [] && Gone(s, id)
    ensures Gone(Step(s, Deliver), id)
  {
    var r := Step(s, Deliver);
    assert SilentMessage(s.wire[0], id);
    forall q | 0 <= q < |r.wire| ensures SilentMessage(r.wire[q], id) { assert r.wire[q] == s.wire[q + 1]; }
  }

  lemma DeliverClear(s: System, id: string)
    requires Sound(s) && s.wire != [] && s.wire[0].clears == Some(id)
    ensures Gone(Step(s, Deliver), id)
  {
    var r := Step(s, Deliver);
    assert s.playout.running && r.playout.buffer == [];
    assert SilentWire(s.wire, id, 0);
    forall q | 0 <= q < |r.wire| ensures SilentMessage(r.wire[q], id) { assert r.wire[q] == s.wire[q + 1]; }
  }

  lemma DeliverSound(s: System)
    requires Sound(s) && s.wire != []
    ensures Sound(Step(s, Deliver))
  {
    var r := Step(s, Deliver);
    assert forall q :: 0 <= q < |r.wire| ==> r.wire[q] == s.wire[q + 1];
    forall id | Gone(s, id) ensures Gone(r, id) { DeliverGone(s, id); }
    forall p | 0 <= p < |r.wire| && r.wire[p].clears.Some? ensures SilentWire(r.wire, r.wire[p].clears.value, p) {
      var id := r.wire[p].clears.value;
      assert SilentWire(s.wire, id, p + 1);
      forall q | p <= q < |r.wire| ensures SilentMessage(r.wire[q], id) { assert r.wire[q] == s.wire[q + 1]; }
    }
    forall id | id in s.interrupted && !Gone(s, id) ensures ClearPending(r, id) || Gone(r, id) {
      var p :| 0 <= p < |s.wire| && s.wire[p].clears == Some(id);
      if p == 0 { DeliverClear(s, id); } else { assert r.wire[p - 1].clears == Some(id); }
    }
    if s.wire[0].clears.Some? { DeliverClear(s, s.wire[0].clears.value); }
  }

  /** Messages that carry no audio and cut nothing leave everything as it was. */
  lemma QuietSound(s: System, r: System)
    requires Sound(s) && r.wire == s.wire && r.playout == s.playout && r.interrupted == s.interrupted
    requires r.cleared == s.cleared && s.used <= r.used && VoiceTracks(r)
    requires r.voice.streaming == s.voice.streaming && r.voice.stopped == s.voice.stopped
    ensures Sound(r)
  {
    forall id | Gone(s, id) ensures Gone(r, id) {}
    forall id | ClearPending(s, id) ensures ClearPending(r, id) {}
  }

  lemma SpeechSound(s: System)
    requires Sound(s) && !s.voice.stopped
    ensures Sound(OnProvider(s, SpeechStarted))
  {
    var r := OnProvider(s, SpeechStarted);
    if s.voice.streaming {
      assert r.wire == s.wire + [Wired(ClearPlayback, s.speaking)];
    } else {
      assert r.wire == s.wire;
    }
    forall id | Gone(s, id) ensures Gone(r, id) {}
    forall id | ClearPending(s, id) ensures ClearPending(r, id) {
      var p :| 0 <= p < |s.wire| && s.wire[p].clears == Some(id);
      assert r.wire[p] == s.wire[p];
    }
    forall p | 0 <= p < |r.wire| && r.wire[p].clears.Some?
      ensures r.wire[p].message.ClearPlayback? && SilentWire(r.wire, r.wire[p].clears.value, p)
    {
      if p < |s.wire| {
        assert r.wire[p] == s.wire[p];
        assert SilentWire(s.wire, s.wire[p].clears.value, p);
      }
    }
    if s.speaking.Some? {
      var id := s.speaking.value;
      if s.voice.streaming { assert r.wire[|s.wire|].clears == Some(id); } else { assert Gone(r, id); }
    }
  }

  lemma AudioSound(s: System, id: string, audio: seq<Sample>)
    requires Sound(s) && !s.voice.stopped && Allowed(s, Provider(AudioDelta(Some(id), audio)))
    ensures Sound(OnProvider(s, AudioDelta(Some(id), audio)))
  {
    var r := OnProvider(s, AudioDelta(Some(id), audio));
    if id in s.interrupted || audio == [] || !s.voice.streaming {
      assert r.wire == s.wire;
      QuietSound(s, r);
    } else {
      assert r.wire == s.wire + [Wired(Media(audio), None)];
      forall other | other != id && Gone(s, other) ensures Gone(r, other) {}
      forall other | ClearPending(s, other) ensures ClearPending(r, other) {
        var p :| 0 <= p < |s.wire| && s.wire[p].clears == Some(other);
        assert r.wire[p] == s.wire[p];
      }
      forall p | 0 <= p < |r.wire| && r.wire[p].clears.Some?
        ensures r.wire[p].message.ClearPlayback? && SilentWire(r.wire, r.wire[p].clears.value, p)
      {
        assert r.wire[p] == s.wire[p];
        assert SilentWire(s.wire, s.wire[p].clears.value, p);
      }
    }
  }

  lemma DoneSound(s: System)
    requires Sound(s) && !s.voice.stopped && s.speaking.Some?
    ensures Sound(OnProvider(s, Done))
  {
    var r := OnProvider(s, Done);
    if !s.voice.closing {
      assert r.wire == s.wire;
      QuietSound(s, r);
    } else {
      assert r.wire == s.wire + [Wired(EndCall, None)];
      forall id | Gone(s, id) ensures Gone(r, id) {}
      forall id | ClearPending(s, id) ensures ClearPending(r, id) {
        var p :| 0 <= p < |s.wire| && s.wire[p].clears == Some(id);
        assert r.wire[p] == s.wire[p];
      }
      forall p | 0 <= p < |r.wire| && r.wire[p].clears.Some?
        ensures r.wire[p].message.ClearPlayback? && SilentWire(r.wire, r.wire[p].clears.value, p)
      {
        assert r.wire[p] == s.wire[p];
        assert SilentWire(s.wire, s.wire[p].clears.value, p);
      }
    }
  }

  lemma StepSound(s: System, e: Event)
    requires Sound(s) && Allowed(s, e)
    ensures Sound(Step(s, e))
  {
    match e
    case StreamStart => StartSound(s);
    case Deliver => DeliverSound(s);
    case Tick => TickSound(s);
    case Provider(p) =>
      if !s.voice.stopped {
        match p
        case SpeechStarted => SpeechSound(s);
        case AudioDelta(id, audio) => AudioSound(s, id.value, audio);
        case Done => DoneSound(s);
        case Created(id) =>
          assert OnProvider(s, p).wire == s.wire;
          QuietSound(s, OnProvider(s, p));
        case _ =>
          assert OnProvider(s, p).wire == s.wire;
          QuietSound(s, OnProvider(s, p));
      }
  }

  lemma {:induction false} RunSound(s: System, es: seq<Event>, r: System)
    requires Sound(s) && IsRun(s, es, r)
    ensures Sound(r) && s.cleared <= r.cleared && s.playout.frames <= r.playout.frames
    decreases |es|
  {
    if es != [] {
      StepSound(s, es[0]);
      RunSound(Step(s, es[0]), es[1..], r);
    }
  }

  // ---- the two promises -------------------------------------------------------------

  lemma StepFrames(s: System, e: Event, id: string)
    requires Sound(s) && Allowed(s, e) && id in s.cleared
    ensures var r := Step(s, e);
            forall k :: |s.playout.frames| <= k < |r.playout.frames| ==> Silent(r.playout.frames[k], id)
  {
    var r := Step(s, e);
    if |r.playout.frames| > |s.playout.frames| {
      assert Gone(s, id) && id != "";
      var f := Playout.Frame(SILENCE, s.playout.buffer);
      assert r.playout.frames == s.playout.frames + [f];
      assert Silent(f, id);
    }
  }

  /**
    Whatever follows: once the gateway has processed the clear of an interrupted response, no
    sample of that response is ever put into a frame again.
   */
  lemma {:induction false} NothingAfterTheClear(before: seq<Event>, s: System, after: seq<Event>, r: System, id: string)
    requires IsRun(Init(), before, s) && IsRun(s, after, r) && id in s.cleared
    ensures |s.playout.frames| <= |r.playout.frames|
    ensures forall k :: |s.playout.frames| <= k < |r.playout.frames| ==> Silent(r.playout.frames[k], id)
  {
    InitSound();
    RunSound(Init(), before, s);
    SilentFrom(s, after, r, id);
  }

  lemma {:induction false} SilentFrom(s: System, es: seq<Event>, r: System, id: string)
    requires Sound(s) && IsRun(s, es, r) && id in s.cleared
    ensures s.playout.frames <= r.playout.frames
    ensures forall k :: |s.playout.frames| <= k < |r.playout.frames| ==> Silent(r.playout.frames[k], id)
    decreases |es|
  {
    if es != [] {
      var m := Step(s, es[0]);
      StepSound(s, es[0]);
      StepFrames(s, es[0], id);
      SilentFrom(m, es[1..], r, id);
      forall k | |s.playout.frames| <= k < |m.playout.frames| ensures Silent(r.playout.frames[k], id) {
        assert r.playout.frames[k] == m.playout.frames[k];
      }
    }
  }

  /** Speaking over a response cancels it and puts its clear on the wire. */
  lemma InterruptionSendsClear(es: seq<Event>, s: System, id: string)
    requires IsRun(Init(), es, s) && s.speaking == Some(id) && s.voice.streaming && !s.voice.stopped
    ensures var r := Step(s, Provider(SpeechStarted));
            && id in r.interrupted && r.voice.cancelled == Some(id)
            && r.wire == s.wire + [Wired(ClearPlayback, Some(id))]
            && React<Sample>(s.voice, SpeechStarted).cancelSent
  {
    InitSound();
    RunSound(Init(), es, s);
    assert WireAll([ClearPlayback], Some(id)) == [Wired(ClearPlayback, Some(id))];
  }

  /**
    Whenever the caller starts to speak on an open stream, during a response or after it, exactly one
    clear goes on the wire; the provider is asked to cancel exactly during a response.
   */
  lemma SpeechSendsClear(es: seq<Event>, s: System)
    requires IsRun(Init(), es, s) && s.voice.streaming && !s.voice.stopped
    ensures var r := Step(s, Provider(SpeechStarted));
            && |r.wire| == |s.wire| + 1 && s.wire <= r.wire && r.wire[|s.wire|].message == ClearPlayback
            && r.playout == s.playout
            && React<Sample>(s.voice, SpeechStarted).cancelSent == s.speaking.Some?
  {
    InitSound();
    RunSound(Init(), es, s);
  }

  /** Audio of a response nobody interrupted is always forwarded, once the stream is up. */
  lemma UninterruptedAudioPasses(es: seq<Event>, s: System, id: string, audio: seq<Sample>)
    requires IsRun(Init(), es, s) && Allowed(s, Provider(AudioDelta(Some(id), audio)))
    requires !s.voice.stopped && s.voice.streaming && audio != [] && id !in s.interrupted
    ensures React(s.voice, AudioDelta(Some(id), audio)).messages == [Media(audio)]
  {
    InitSound();
    RunSound(Init(), es, s);
  }

  /** And audio of an interrupted one never is. */
  lemma InterruptedAudioStops(es: seq<Event>, s: System, id: string, audio: seq<Sample>)
    requires IsRun(Init(), es, s) && Allowed(s, Provider(AudioDelta(Some(id), audio))) && id in s.interrupted
    ensures React(s.voice, AudioDelta(Some(id), audio)).messages == []
  {
    InitSound();
    RunSound(Init(), es, s);
  }

  // ---- whatever was said before -----------------------------------------------------

  /** Marks samples, for instance those said before a certain moment. */
  type Mark = Sample -> bool

  ghost predicate Free(samples: seq<Sample>, mark: Mark) { forall i :: 0 <= i < |samples| ==> !mark(samples[i]) }

  ghost predicate FreeMessage(w: Wired, mark: Mark) { w.message.Media? ==> Free(w.message.audio, mark) }

  ghost predicate FreeWire(wire: seq<Wired>, mark: Mark, from: int) {
    forall q :: from <= q < |wire| && 0 <= q ==> FreeMessage(wire[q], mark)
  }

  /** No marked sample is in what the provider says from here on. */
  ghost predicate SaysFree(e: Event, mark: Mark) {
    e.Provider? && e.event.AudioDelta? ==> Free(e.event.audio, mark)
  }

  /** A clear is on the wire with `n` messages before it, and no marked sample follows it. */
  ghost predicate ClearAhead(s: System, mark: Mark, n: nat) {
    n < |s.wire| && s.wire[n].message.ClearPlayback? && FreeWire(s.wire, mark, n)
  }

  /** No marked sample is on its way to a frame. */
  ghost predicate Swept(s: System, mark: Mark) { FreeWire(s.wire, mark, 0) && Free(s.playout.buffer, mark) }

  lemma WireGrows(s: System, e: Event, mark: Mark)
    requires !e.Deliver? && SaysFree(e, mark)
    ensures var r := Step(s, e);
            && s.wire <= r.wire && FreeWire(r.wire, mark, |s.wire|)
            && (e.Tick? || r.playout == s.playout)
  {
  }

  lemma DeliverSweeps(s: System, mark: Mark, n: nat)
    requires Sound(s) && s.wire != [] && ClearAhead(s, mark, n)
    ensures var r := Step(s, Deliver); if n == 0 then Swept(r, mark) else ClearAhead(r, mark, n - 1)
  {
    var r := Step(s, Deliver);
    assert s.playout.running;
    forall q | n - 1 <= q < |r.wire| && 0 <= q ensures FreeMessage(r.wire[q], mark) {
      assert r.wire[q] == s.wire[q + 1];
    }
    if n > 0 { assert r.wire[n - 1] == s.wire[n]; }
  }

  lemma SweptStays(s: System, e: Event, mark: Mark)
    requires Swept(s, mark) && Allowed(s, e) && SaysFree(e, mark)
    ensures Swept(Step(s, e), mark)
  {
    var r := Step(s, e);
    if e.Deliver? {
      assert FreeMessage(s.wire[0], mark);
      forall q | 0 <= q < |r.wire| ensures FreeMessage(r.wire[q], mark) { assert r.wire[q] == s.wire[q + 1]; }
    } else {
      WireGrows(s, e, mark);
      forall q | 0 <= q < |r.wire| ensures FreeMessage(r.wire[q], mark) {
        if q < |s.wire| { assert r.wire[q] == s.wire[q]; }
      }
    }
  }

  lemma AheadStays(s: System, e: Event, mark: Mark, n: nat)
    requires ClearAhead(s, mark, n) && !e.Deliver? && SaysFree(e, mark)
    ensures ClearAhead(Step(s, e), mark, n)
  {
    var r := Step(s, e);
    WireGrows(s, e, mark);
    assert r.wire[n] == s.wire[n];
    forall q | n <= q < |r.wire| ensures FreeMessage(r.wire[q], mark) {
      if q < |s.wire| { assert r.wire[q] == s.wire[q]; }
    }
  }

  /** How many messages the gateway takes off the wire. */
  function Deliveries(es: seq<Event>): (n: nat) {
    if es == [] then 0 else (if es[0].Deliver? then 1 else 0) + Deliveries(es[1..])
  }

  ghost predicate AllSayFree(es: seq<Event>, mark: Mark) { forall i :: 0 <= i < |es| ==> SaysFree(es[i], mark) }

  lemma {:induction false} ClearArrives(s: System, es: seq<Event>, r: System, mark: Mark, n: nat)
    requires Sound(s) && IsRun(s, es, r) && AllSayFree(es, mark) && ClearAhead(s, mark, n) && Deliveries(es) > n
    ensures Sound(r) && Swept(r, mark)
    decreases |es|
  {
    var m := Step(s, es[0]);
    StepSound(s, es[0]);
    if !es[0].Deliver? {
      AheadStays(s, es[0], mark, n);
      ClearArrives(m, es[1..], r, mark, n);
    } else {
      DeliverSweeps(s, mark, n);
      if n == 0 { StaysSwept(m, es[1..], r, mark); } else { ClearArrives(m, es[1..], r, mark, n - 1); }
    }
  }

  lemma {:induction false} StaysSwept(s: System, es: seq<Event>, r: System, mark: Mark)
    requires Sound(s) && Swept(s, mark) && IsRun(s, es, r) && AllSayFree(es, mark)
    ensures Sound(r) && Swept(r, mark)
    decreases |es|
  {
    if es != [] {
      StepSound(s, es[0]);
      SweptStays(s, es[0], mark);
      StaysSwept(Step(s, es[0]), es[1..], r, mark);
    }
  }

  lemma {:induction false} SweptFrames(s: System, es: seq<Event>, r: System, mark: Mark)
    requires Swept(s, mark) && IsRun(s, es, r) && AllSayFree(es, mark) && !mark(SILENCE)
    ensures s.playout.frames <= r.playout.frames
    ensures forall k :: |s.playout.frames| <= k < |r.playout.frames| ==> Free(r.playout.frames[k], mark)
    decreases |es|
  {
    if es != [] {
      var m := Step(s, es[0]);
      SweptStays(s, es[0], mark);
      SweptFrames(m, es[1..], r, mark);
      forall k | |s.playout.frames| <= k < |m.playout.frames| ensures Free(r.playout.frames[k], mark) {
        assert r.playout.frames[k] == m.playout.frames[k] == Playout.Frame(SILENCE, s.playout.buffer);
      }
    }
  }

  /**
    Once the gateway has taken the clear off the wire, nothing that was said before the caller spoke is
    put into a frame again, whether its response was going on, finished or interrupted: no frame holds
    a marked sample, for any marking that what is said afterwards and silence are free of.
   */
  lemma NothingSaidBefore(before: seq<Event>, s: System, meanwhile: seq<Event>, m: System, after: seq<Event>, r: System,
                          mark: Mark)
    requires IsRun(Init(), before, s) && s.voice.streaming && !s.voice.stopped
    requires IsRun(Step(s, Provider(SpeechStarted)), meanwhile, m) && IsRun(m, after, r)
    requires Deliveries(meanwhile) > |s.wire|
    requires AllSayFree(meanwhile, mark) && AllSayFree(after, mark) && !mark(SILENCE)
    ensures m.playout.frames <= r.playout.frames
    ensures forall k :: |m.playout.frames| <= k < |r.playout.frames| ==> Free(r.playout.frames[k], mark)
  {
    var spoken := SpeechPutsClearAhead(before, s, mark);
    ClearArrives(spoken, meanwhile, m, mark, |s.wire|);
    SweptFrames(m, after, r, mark);
  }

  lemma SpeechPutsClearAhead(es: seq<Event>, s: System, mark: Mark) returns (r: System)
    requires IsRun(Init(), es, s) && s.voice.streaming && !s.voice.stopped
    ensures r == Step(s, Provider(SpeechStarted)) && Sound(r) && ClearAhead(r, mark, |s.wire|)
  {
    InitSound();
    RunSound(Init(), es, s);
    SpeechSendsClear(es, s);
    StepSound(s, Provider(SpeechStarted));
    r := Step(s, Provider(SpeechStarted));
  }

  /**
    The ids matter: a response announced without one keeps its audio flowing when it is interrupted
    before its first delta, and is filtered when it is interrupted after it.
   */
  lemma IdlessResponseSlipsThrough(id: string, audio: seq<Sample>)
    requires audio != []
    ensures var v := React<Sample>(Connected(), Created(None)).voice;
            var early := React<Sample>(v, SpeechStarted).voice;
            var late := React<Sample>(React(v, AudioDelta(Some(id), audio)).voice, SpeechStarted).voice;
            && React(early, AudioDelta(Some(id), audio)).messages == [Media(audio)]
            && React(late, AudioDelta(Some(id), audio)).messages == []
  {
  }
}
