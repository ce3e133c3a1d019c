/** RTP packets and the playout task that paces backend audio onto the wire. */
module Playout {
  import opened Wrappers

  type Byte = x: int | 0 <= x < 256

  // ---- packets ----------------------------------------------------------------------

  const HEADER_LENGTH := 12
  const FRAME_LENGTH := 160
  const SSRC := 0x5162_7363

  function BigEndian(n: nat, width: nat): (bs: seq<Byte>)
    ensures |bs| == width
  {
    if width == 0 then [] else BigEndian(n / 256, width - 1) + [n % 256]
  }

  function FromBigEndian(bs: seq<Byte>): (n: nat) {
    if bs == [] then 0 else FromBigEndian(bs[..|bs| - 1]) * 256 + bs[|bs| - 1]
  }

  function Pow256(k: nat): nat { if k == 0 then 1 else 256 * Pow256(k - 1) }

  lemma {:induction false} BigEndianReadsBack(n: nat, width: nat)
    requires n < Pow256(width)
    ensures FromBigEndian(BigEndian(n, width)) == n
  {
    if width > 0 {
      var bs := BigEndian(n, width);
      assert bs[..|bs| - 1] == BigEndian(n / 256, width - 1);
      BigEndianReadsBack(n / 256, width - 1);
    }
  }

  /** Section 5.1 of RFC 3550: version 2, no extras, payload type 0, then the three numbers. */
  function Packet(sequence: nat, timestamp: nat, ssrc: nat, payload: seq<Byte>): (p: seq<Byte>) {
    [0x80, 0x00] + BigEndian(sequence, 2) + BigEndian(timestamp, 4) + BigEndian(ssrc, 4) + payload
  }

  /** The receiving side drops anything shorter than a header and strips twelve bytes. */
  function StripHeader(p: seq<Byte>): (r: Option<seq<Byte>>) {
    if |p| < HEADER_LENGTH then None else Some(p[HEADER_LENGTH..])
  }

  /**
    A packet gives back the sequence number, timestamp, source and payload it was built from; it says
    version 2, neither padding nor extension nor contributing sources, no marker, payload type 0.
   */
  lemma PacketReadsBack(sequence: nat, timestamp: nat, ssrc: nat, payload: seq<Byte>)
    requires sequence < 0x1_0000 && timestamp < 0x1_0000_0000 && ssrc < 0x1_0000_0000
    ensures var p := Packet(sequence, timestamp, ssrc, payload);
            && |p| == 12 + |payload| && StripHeader(p) == Some(payload)
            && p[0] / 64 == 2 && p[0] % 64 == 0 && p[1] / 128 == 0 && p[1] % 128 == 0
            && FromBigEndian(p[2..4]) == sequence
            && FromBigEndian(p[4..8]) == timestamp
            && FromBigEndian(p[8..12]) == ssrc
  {
    var p := Packet(sequence, timestamp, ssrc, payload);
    assert Pow256(1) == 256 && Pow256(2) == 0x1_0000 && Pow256(3) == 0x100_0000 && Pow256(4) == 0x1_0000_0000;
    assert p[2..4] == BigEndian(sequence, 2) && p[4..8] == BigEndian(timestamp, 4) && p[8..12] == BigEndian(ssrc, 4);
    assert p[12..] == payload;
    BigEndianReadsBack(sequence, 2);
    BigEndianReadsBack(timestamp, 4);
    BigEndianReadsBack(ssrc, 4);
  }

  class RtpPacketBuilder {
    var sequence: nat
    var timestamp: nat
    const ssrc: nat

    constructor (sequence: nat, timestamp: nat, ssrc: nat)
      ensures this.sequence == sequence && this.timestamp == timestamp && this.ssrc == ssrc
    {
      this.sequence, this.timestamp, this.ssrc := sequence, timestamp, ssrc;
    }

    /** `build_packet`: both counters wrap at their width. */
    method BuildPacket(payload: seq<Byte>) returns (packet: seq<Byte>)
      modifies this
      ensures packet == Packet(old(sequence), old(timestamp), ssrc, payload)
      ensures sequence == (old(sequence) + 1) % 0x1_0000
      ensures timestamp == (old(timestamp) + 160) % 0x1_0000_0000
    {
      packet := [0x80];
      packet := packet + [0x00];
      packet := packet + BigEndian(sequence, 2);
      packet := packet + BigEndian(timestamp, 4);
      packet := packet + BigEndian(ssrc, 4);
      packet := packet + payload;
      sequence := (sequence + 1) % 0x1_0000;
      timestamp := (timestamp + 160) % 0x1_0000_0000;
    }
  }

  // ---- the playout task as a state machine ------------------------------------------

  datatype Event<T> = Append(samples: seq<T>) | Clear | End | Tick

  /** What became of samples that left the buffer, in the order they left it. */
  datatype Fate<T> = Framed(data: seq<T>) | Cleared(data: seq<T>)

  /** `fates` is history: the buffer and the frames are what the task holds and sends. */
  datatype State<T> = State(running: bool, buffer: seq<T>, frames: seq<seq<T>>, fates: seq<Fate<T>>)

  function Init<T>(): (s: State<T>) { State(true, [], [], []) }

  function Taken<T>(buffer: seq<T>): (k: nat)
    ensures k <= |buffer| && k <= FRAME_LENGTH && (k < FRAME_LENGTH ==> k == |buffer|)
  {
    if |buffer| < FRAME_LENGTH then |buffer| else FRAME_LENGTH
  }

  /** A frame is what was taken from the buffer, filled up with silence. */
  function Frame<T>(silence: T, buffer: seq<T>): (f: seq<T>)
    ensures |f| == FRAME_LENGTH
  {
    var k := Taken(buffer);
    buffer[..k] + seq(FRAME_LENGTH - k, _ => silence)
  }

  function Step<T>(silence: T, s: State<T>, e: Event<T>): (r: State<T>) {
    if !s.running then s
    else match e
      case Append(samples) => s.(buffer := s.buffer + samples)
      case Clear => s.(buffer := [], fates := s.fates + [Cleared(s.buffer)])
      case End => s.(running := false)
      case Tick =>
        if s.buffer == [] then s
        else
          var k := Taken(s.buffer);
          s.(buffer := s.buffer[k..], frames := s.frames + [Frame(silence, s.buffer)],
             fates := s.fates + [Framed(s.buffer[..k])])
  }

  function Run<T>(silence: T, es: seq<Event<T>>): (s: State<T>) {
    if es == [] then Init() else Step(silence, Run(silence, es[..|es| - 1]), es[|es| - 1])
  }

  /** Everything the backend appended before the end. */
  function Appended<T(==)>(es: seq<Event<T>>): (a: seq<T>) {
    if es == [] then [] else
      var n := |es| - 1;
      Appended(es[..n]) + (if es[n].Append? && End !in es[..n] then es[n].samples else [])
  }

  function Departed<T>(fates: seq<Fate<T>>): (a: seq<T>) {
    if fates == [] then [] else Departed(fates[..|fates| - 1]) + fates[|fates| - 1].data
  }

  /** The samples of the frames alone, padding left out. */
  function FramedData<T>(fates: seq<Fate<T>>): (a: seq<seq<T>>) {
    if fates == [] then [] else
      var f := fates[|fates| - 1];
      FramedData(fates[..|fates| - 1]) + (if f.Framed? then [f.data] else [])
  }

  lemma DepartedSnoc<T>(fates: seq<Fate<T>>, f: Fate<T>)
    ensures Departed(fates + [f]) == Departed(fates) + f.data
    ensures FramedData(fates + [f]) == FramedData(fates) + (if f.Framed? then [f.data] else [])
  {
    assert (fates + [f])[..|fates|] == fates;
  }

  lemma StepConserves<T>(silence: T, s: State<T>, e: Event<T>)
    ensures var r := Step(silence, s, e);
            Departed(r.fates) + r.buffer
            == Departed(s.fates) + s.buffer + (if s.running && e.Append? then e.samples else [])
  {
    if s.running {
      match e
      case Append(samples) =>
      case Clear => DepartedSnoc(s.fates, Cleared(s.buffer));
      case End =>
      case Tick =>
        var k := Taken(s.buffer);
        DepartedSnoc(s.fates, Framed(s.buffer[..k]));
        assert s.buffer == s.buffer[..k] + s.buffer[k..];
    }
  }

  /** Every sample appended is framed, cleared or still buffered, exactly once and in order. */
  lemma {:induction false} PlayoutConserves<T>(silence: T, es: seq<Event<T>>)
    ensures var s := Run(silence, es);
            && Appended(es) == Departed(s.fates) + s.buffer
            && (s.running <==> End !in es)
  {
    if es != [] {
      var n := |es| - 1;
      PlayoutConserves(silence, es[..n]);
      assert es == es[..n] + [es[n]];
      StepConserves(silence, Run(silence, es[..n]), es[n]);
    }
  }

  /** Frame k is the k-th framed piece and silence; a short piece means the buffer had run dry. */
  ghost predicate FramesMatch<T>(silence: T, frames: seq<seq<T>>, pieces: seq<seq<T>>) {
    && |frames| == |pieces|
    && forall k :: 0 <= k < |frames| ==>
         && 0 < |pieces[k]| <= FRAME_LENGTH && |frames[k]| == FRAME_LENGTH
         && frames[k] == pieces[k] + seq(FRAME_LENGTH - |pieces[k]|, _ => silence)
  }

  lemma {:induction false} EveryFrameIsFull<T>(silence: T, es: seq<Event<T>>)
    ensures var s := Run(silence, es); FramesMatch(silence, s.frames, FramedData(s.fates))
  {
    if es != [] {
      var n := |es| - 1;
      var s := Run(silence, es[..n]);
      EveryFrameIsFull(silence, es[..n]);
      var r := Run(silence, es);
      if r.fates != s.fates {
        assert r.fates == s.fates + [r.fates[|s.fates|]];
        DepartedSnoc(s.fates, r.fates[|s.fates|]);
      }
    }
  }

  /** A tick pads only when it drains the buffer. */
  lemma PaddedOnlyWhenDrained<T>(silence: T, s: State<T>)
    requires s.running && s.buffer != []
    ensures var r := Step(silence, s, Tick);
            && |r.frames| == |s.frames| + 1
            && (|s.buffer| >= FRAME_LENGTH ==> r.frames[|s.frames|] == s.buffer[..FRAME_LENGTH])
            && (|s.buffer| < FRAME_LENGTH ==> r.buffer == [] && s.buffer <= r.frames[|s.frames|])
  {
  }

  // ---- the task ---------------------------------------------------------------------

  const SILENCE: Byte := 0xFF

  /** The packets the task sends for its frames: the k-th carries k and 160k, at their widths. */
  function PacketsOf(frames: seq<seq<Byte>>): (ps: seq<seq<Byte>>)
    ensures |ps| == |frames|
    ensures forall k :: 0 <= k < |ps| ==>
      ps[k] == Packet(k % 0x1_0000, 160 * k % 0x1_0000_0000, SSRC, frames[k])
  {
    seq(|frames|, k requires 0 <= k < |frames| => Packet(k % 0x1_0000, 160 * k % 0x1_0000_0000, SSRC, frames[k]))
  }

  /** Fills one frame from the front of the buffer. */
  method TakeFrame(buffer: seq<Byte>) returns (frame: seq<Byte>, rest: seq<Byte>)
    ensures frame == Frame(SILENCE, buffer) && rest == buffer[Taken(buffer)..]
  {
    frame := seq(FRAME_LENGTH, _ => SILENCE);
    rest := buffer;
    var consumed := 0;
    while consumed < FRAME_LENGTH && rest != []
      invariant 0 <= consumed <= FRAME_LENGTH && consumed <= |buffer| && rest == buffer[consumed..]
      invariant |frame| == FRAME_LENGTH
      invariant frame == buffer[..consumed] + seq(FRAME_LENGTH - consumed, _ => SILENCE)
    {
      frame := frame[consumed := rest[0]];
      rest := rest[1..];
      consumed := consumed + 1;
    }
  }

  lemma PacketsSnoc(frames: seq<seq<Byte>>, frame: seq<Byte>)
    ensures PacketsOf(frames + [frame]) ==
            PacketsOf(frames) + [Packet(|frames| % 0x1_0000, 160 * |frames| % 0x1_0000_0000, SSRC, frame)]
  {
  }

  lemma CountersWrap(k: nat)
    ensures (k % 0x1_0000 + 1) % 0x1_0000 == (k + 1) % 0x1_0000
    ensures (160 * k % 0x1_0000_0000 + 160) % 0x1_0000_0000 == 160 * (k + 1) % 0x1_0000_0000
  {
    AddWrapped(k, 1, 0x1_0000);
    AddWrapped(160 * k, 160, 0x1_0000_0000);
    assert 160 * (k + 1) == 160 * k + 160;
  }

  /** Adding to a wrapped counter and wrapping again is wrapping the sum. */
  lemma AddWrapped(x: nat, d: nat, m: nat)
    requires d < m
    ensures (x % m + d) % m == (x + d) % m
  {
    var q, r := x / m, x % m;
    assert x == q * m + r;
    if r + d < m {
      RemainderIs(x + d, q, r + d, m);
      RemainderIs(r + d, 0, r + d, m);
    } else {
      assert (q + 1) * m == q * m + m;
      RemainderIs(x + d, q + 1, r + d - m, m);
      RemainderIs(r + d, 1, r + d - m, m);
    }
  }

  lemma RemainderIs(x: nat, q: nat, r: nat, m: nat)
    requires r < m && x == q * m + r
    ensures x % m == r
  {
    var p := x / m;
    assert x == p * m + x % m;
    MultiplesApart(p, q, m, x % m, r);
  }

  lemma MultiplesApart(p: nat, q: nat, m: nat, a: nat, b: nat)
    requires a < m && b < m && p * m + a == q * m + b
    ensures a == b
  {
    assert (q + 1) * m == q * m + m && (p + 1) * m == p * m + m;
    MulOrder(p, q + 1, m);
    MulOrder(q, p + 1, m);
  }

  lemma MulOrder(a: int, b: int, m: nat)
    requires a * m < b * m
    ensures a < b
  {
    assert (b - a) * m > 0;
  }

  /** The playout task's variables; `frames` and `fates` are history. */
  class PlayoutTask {
    const builder: RtpPacketBuilder
    var buffer: seq<Byte>
    var running: bool
    var packets: seq<seq<Byte>>
    ghost var frames: seq<seq<Byte>>
    ghost var fates: seq<Fate<Byte>>

    ghost predicate Valid()
      reads this, builder
    {
      && packets == PacketsOf(frames) && builder.ssrc == SSRC
      && builder.sequence == |frames| % 0x1_0000 && builder.timestamp == 160 * |frames| % 0x1_0000_0000
    }

    ghost function Now(): State<Byte>
      reads this
    {
      State(running, buffer, frames, fates)
    }

    constructor ()
      ensures Valid() && fresh(builder) && Now() == Init()
    {
      builder := new RtpPacketBuilder(0, 0, SSRC);
      buffer, running, packets, frames, fates := [], true, [], [], [];
    }

    method SendFrame(frame: seq<Byte>)
      requires Valid()
      modifies this`packets, this`frames, builder
      ensures Valid() && frames == old(frames) + [frame]
    {
      PacketsSnoc(frames, frame);
      CountersWrap(|frames|);
      var packet := builder.BuildPacket(frame);
      packets := packets + [packet];
      frames := frames + [frame];
    }

    method OnTick()
      requires Valid() && running
      modifies this, builder
      ensures Valid() && Now() == Step(SILENCE, old(Now()), Tick)
    {
      if buffer != [] {
        var frame, rest := TakeFrame(buffer);
        SendFrame(frame);
        fates := fates + [Framed(buffer[..Taken(buffer)])];
        buffer := rest;
      }
    }

    /** One turn of the select loop; every packet sent so far is the one its frame calls for. */
    method Handle(e: Event<Byte>)
      requires Valid()
      modifies this, builder
      ensures Valid() && Now() == Step(SILENCE, old(Now()), e)
    {
      if !running { return; }
      match e
      case Append(samples) => buffer := buffer + samples;
      case Clear =>
        fates := fates + [Cleared(buffer)];
        buffer := [];
      case End => running := false;
      case Tick => OnTick();
    }
  }

  /** Any interleaving of commands and ticks sends exactly the packets of the specified frames. */
  method Play(es: seq<Event<Byte>>) returns (packets: seq<seq<Byte>>)
    ensures packets == PacketsOf(Run(SILENCE, es).frames)
  {
    var task := new PlayoutTask();
    for i := 0 to |es|
      invariant fresh(task) && fresh(task.builder) && task.Valid()
      invariant task.Now() == Run(SILENCE, es[..i])
    {
      assert es[..i + 1][..i] == es[..i];
      task.Handle(es[i]);
    }
    assert es[..|es|] == es;
    packets := task.packets;
  }

  /** The far end, stripping headers, gets back exactly the frames. */
  lemma PacketsCarryFrames(frames: seq<seq<Byte>>, k: nat)
    requires k < |frames|
    ensures var p := PacketsOf(frames)[k];
            && StripHeader(p) == Some(frames[k])
            && FromBigEndian(p[2..4]) == k % 0x1_0000
            && FromBigEndian(p[4..8]) == 160 * k % 0x1_0000_0000
  {
    PacketReadsBack(k % 0x1_0000, 160 * k % 0x1_0000_0000, SSRC, frames[k]);
  }

  function Flatten<T>(frames: seq<seq<T>>): (s: seq<T>) {
    if frames == [] then [] else Flatten(frames[..|frames| - 1]) + frames[|frames| - 1]
  }

  lemma {:induction false} FlattenLength<T>(frames: seq<seq<T>>, n: nat)
    requires forall k :: 0 <= k < |frames| ==> |frames[k]| == n
    ensures |Flatten(frames)| == n * |frames|
  {
    if frames != [] {
      FlattenLength(frames[..|frames| - 1], n);
      OneMoreTimes(n, |frames| - 1);
    } else {
      assert n * 0 == 0;
    }
  }

  lemma OneMoreTimes(n: nat, k: nat)
    ensures n * (k + 1) == n * k + n
  {
  }

  /**
    For any event sequence, packet k carries 160 samples and, as its timestamp, the number of samples
    sent before it, wrapped at 32 bits (section 5.1 of RFC 3550).
   */
  lemma TimestampsCountSamples(es: seq<Event<Byte>>, k: nat)
    requires k < |Run(SILENCE, es).frames|
    ensures var frames := Run(SILENCE, es).frames;
            var p := PacketsOf(frames)[k];
            && |p| == 12 + 160 && |frames[k]| == 160
            && FromBigEndian(p[4..8]) == |Flatten(frames[..k])| % 0x1_0000_0000
  {
    var frames := Run(SILENCE, es).frames;
    EveryFrameIsFull(SILENCE, es);
    FlattenLength(frames[..k], 160);
    PacketReadsBack(k % 0x1_0000, 160 * k % 0x1_0000_0000, SSRC, frames[k]);
  }
}
