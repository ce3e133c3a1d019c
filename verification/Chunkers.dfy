/** The two chunkers as they run: loops over byte offsets in Rust, over character indexes in Python. */
module Chunkers {
  import opened Wrappers
  import opened Strings
  import opened Utf8
  import opened Chunking

  // ---- Rust -------------------------------------------------------------------------

  datatype TextChunk = TextChunk(index: nat, bytes: nat, text: string)

  function Numbered(cs: seq<string>): (ts: seq<TextChunk>)
    ensures |ts| == |cs| && forall i :: 0 <= i < |cs| ==> ts[i] == TextChunk(i, Size(cs[i]), cs[i])
  {
    seq(|cs|, i requires 0 <= i < |cs| => TextChunk(i, Size(cs[i]), cs[i]))
  }

  /** `&s[i..j]`: panics off a character boundary, hence the preconditions. */
  function Slice(s: string, i: nat, j: nat): (r: string)
    requires IsBoundary(s, i) && IsBoundary(s, j) && Floor(s, i) <= Floor(s, j)
  {
    s[Floor(s, i)..Floor(s, j)]
  }

  lemma PatternsAreAscii(i: nat)
    requires i < |Patterns()|
    ensures Ascii(Patterns()[i])
  {
  }

  lemma AfterPattern(s: string, a: nat, h: nat, pat: string, j: nat)
    requires a <= h <= |s| && Ascii(pat) && MatchAt(s[a..h], pat, j)
    ensures a + j + |pat| <= h && Off(s, a + j + |pat|) == Off(s, a + j) + |pat|
    ensures Off(s[a..h], j) == Off(s, a + j) - Off(s, a)
  {
    var w := s[a..h];
    assert |w| == h - a && j + |pat| <= |w|;
    SliceOfSlice(s, a, h, j, j + |pat|);
    SizeOfSlice(s, a + j, a + j + |pat|);
    OffOfAscii(pat, |pat|);
    OffOfSlice(s, a, h, j);
  }

  /** The end after the last occurrence of one pattern, if that lies far enough in the window. */
  method PatternEndRust(s: string, start: nat, window: string, minimum: nat, pat: string, ghost a: nat, ghost h: nat)
    returns (end: Option<nat>)
    requires a <= h <= |s| && start == Off(s, a) && window == s[a..h] && minimum == Measure(Rust, s, a, h) / 2
             && Ascii(pat)
    ensures var j := RFind(window, pat);
            end == if j.Some? && Measure(Rust, s, a, a + j.value) >= minimum then Some(Off(s, a + j.value + |pat|))
            else None
  {
    var found := RFind(window, pat);
    if found.None? { return None; }
    AfterPattern(s, a, h, pat, found.value);
    var index := Off(window, found.value);
    end := if index >= minimum then Some(start + index + |pat|) else None;
  }

  /** `find_split_point` on byte offsets. */
  method FindSplitPointRust(s: string, start: nat, hardEnd: nat, ghost a: nat, ghost h: nat) returns (end: nat)
    requires a <= h <= |s| && start == Off(s, a) && hardEnd == Off(s, h)
    ensures end == Off(s, if h == |s| then h else SplitAt(Rust, s, a, h, Patterns()))
  {
    OffGrows(s, h, |s|);
    if hardEnd >= Size(s) { return Size(s); }
    FloorOfOff(s, a);
    FloorOfOff(s, h);
    var window := Slice(s, start, hardEnd);
    SizeOfSlice(s, a, h);
    var minimum := Size(window) / 2;
    forall i | 0 <= i < |Patterns()| ensures Ascii(Patterns()[i]) { PatternsAreAscii(i); }
    end := SearchRust(s, start, hardEnd, window, minimum, Patterns(), a, h);
  }

  /** Tries the patterns in turn. */
  method SearchRust(s: string, start: nat, hardEnd: nat, window: string, minimum: nat, ps: seq<string>, ghost a: nat,
                    ghost h: nat)
    returns (end: nat)
    requires a <= h <= |s| && start == Off(s, a) && hardEnd == Off(s, h) && window == s[a..h]
    requires minimum == Measure(Rust, s, a, h) / 2 && forall i :: 0 <= i < |ps| ==> Ascii(ps[i])
    ensures end == Off(s, SplitAt(Rust, s, a, h, ps))
  {
    var i := 0;
    while i < |ps|
      invariant 0 <= i <= |ps|
      invariant SplitAt(Rust, s, a, h, ps) == SplitAt(Rust, s, a, h, ps[i..])
    {
      assert ps[i..][0] == ps[i] && ps[i..][1..] == ps[i + 1..];
      var after := PatternEndRust(s, start, window, minimum, ps[i], a, h);
      if after.Some? { return after.value; }
      i := i + 1;
    }
    return hardEnd;
  }

  /** The chunks from character a on. */
  function ChunksFrom(l: Lang, s: string, a: nat, size: nat, overlap: nat): (cs: seq<string>)
    requires a < |s| && size >= 100
  {
    WindowsTile(l, s, a, size, overlap);
    Pieces(l, s, Windows(l, s, a, size, overlap))
  }

  lemma ChunksHead(l: Lang, s: string, a: nat, size: nat, overlap: nat)
    requires a < |s| && size >= 100
    ensures var e := WindowEnd(l, s, a, size);
            && a < e <= |s|
            && a < NextStart(l, s, a, e, overlap) <= e
            && ChunksFrom(l, s, a, size, overlap) ==
               Piece(l, s, (a, e))
               + (if e == |s| then [] else ChunksFrom(l, s, NextStart(l, s, a, e, overlap), size, overlap))
  {
    WindowIsSound(l, s, a, size);
    var e := WindowEnd(l, s, a, size);
    NextIsSound(l, s, a, e, overlap);
    WindowsTile(l, s, a, size, overlap);
    var ws := Windows(l, s, a, size, overlap);
    if e < |s| {
      assert ws[1..] == Windows(l, s, NextStart(l, s, a, e, overlap), size, overlap);
    } else {
      assert ws == [(a, e)];
      assert Pieces(l, s, ws) == Piece(l, s, ws[0]) + Pieces(l, s, ws[1..]);
      assert |ws[1..]| == 0 && Pieces(l, s, ws[1..]) == [];
    }
  }

  /** One turn of the chunking loop. */
  lemma ChunksUnfold(l: Lang, s: string, a: nat, size: nat, overlap: nat, done: seq<string>)
    requires a < |s| && size >= 100
    ensures var e := WindowEnd(l, s, a, size);
            && a < e <= |s|
            && a < NextStart(l, s, a, e, overlap) <= e
            && done + ChunksFrom(l, s, a, size, overlap) ==
               (done + Piece(l, s, (a, e)))
               + (if e == |s| then [] else ChunksFrom(l, s, NextStart(l, s, a, e, overlap), size, overlap))
  {
    ChunksHead(l, s, a, size, overlap);
  }

  /** Appends a window's text unless it is only white space. */
  method Append(l: Lang, texts: seq<string>, window: string) returns (r: seq<string>)
    ensures r == texts + Kept(l, window)
  {
    r := texts;
    var chunk := Trim(l, window);
    if chunk != "" { r := r + [chunk]; }
  }

  /** The next start, in bytes. */
  method NextStartRust(s: string, start: nat, end: nat, overlap: nat, ghost a: nat, ghost e: nat) returns (next: nat)
    requires a < e <= |s| && start == Off(s, a) && end == Off(s, e)
    ensures next == Off(s, NextStart(Rust, s, a, e, overlap))
  {
    var back := if end >= overlap then end - overlap else 0;
    next := if back > start + 1 then back else start + 1;
    OffGrows(s, a, e);
    OffGrows(s, e, |s|);
    next := BoundaryAtOrAfter(s, next);
  }

  /** `chunk_text`: every slice is taken at character boundaries, and the loop ends. */
  method ChunkText(value: string, size: nat, overlap: nat) returns (r: Option<seq<TextChunk>>)
    ensures r == if ValidLimits(size, overlap) then Some(Numbered(Chunks(Rust, value, size, overlap))) else None
  {
    if size < 100 || overlap >= size { return None; }
    var s := Normalize(Rust, value);
    if s == "" { return Some([]); }
    if Size(s) <= size {
      assert Numbered([s]) == [TextChunk(0, Size(s), s)];
      return Some([TextChunk(0, Size(s), s)]);
    }
    var texts := RustLoop(s, size, overlap);
    return Some(Numbered(texts));
  }

  method RustLoop(s: string, size: nat, overlap: nat) returns (texts: seq<string>)
    requires s != "" && size >= 100
    ensures texts == ChunksFrom(Rust, s, 0, size, overlap)
  {
    texts := [];
    var start := 0;
    ghost var a := 0;
    while true
      invariant a < |s| && start == Off(s, a)
      invariant texts + ChunksFrom(Rust, s, a, size, overlap) == ChunksFrom(Rust, s, 0, size, overlap)
      decreases |s| - a
    {
      ChunksUnfold(Rust, s, a, size, overlap, texts);
      ghost var e := WindowEnd(Rust, s, a, size);
      var end, window := RustWindow(s, start, size, a);
      texts := Append(Rust, texts, window);
      if end >= Size(s) { return; }
      start := NextStartRust(s, start, end, overlap, a, e);
      a := NextStart(Rust, s, a, e, overlap);
    }
  }

  /** One window: its end, and its text sliced at character boundaries. */
  method RustWindow(s: string, start: nat, size: nat, ghost a: nat) returns (end: nat, window: string)
    requires a < |s| && size >= 100 && start == Off(s, a)
    ensures var e := WindowEnd(Rust, s, a, size);
            && a < e && end == Off(s, e) && window == s[a..e] && (end >= Size(s) <==> e == |s|)
  {
    WindowIsSound(Rust, s, a, size);
    ghost var e := WindowEnd(Rust, s, a, size);
    var hardEnd := BoundaryAtOrBefore(s, start + size);
    end := FindSplitPointRust(s, start, hardEnd, a, HardEnd(Rust, s, a, size));
    FloorOfOff(s, a);
    FloorOfOff(s, e);
    OffOrder(s, |s|, e);
    window := Slice(s, start, end);
  }

  // ---- Python -----------------------------------------------------------------------

  /** `_find_split_point`. */
  method FindSplitPointPython(s: string, start: nat, hardEnd: nat) returns (end: nat)
    requires start <= hardEnd <= |s|
    ensures end == if hardEnd == |s| then hardEnd else SplitAt(Python, s, start, hardEnd, Patterns())
  {
    if hardEnd >= |s| { return hardEnd; }
    end := SearchPython(s, start, hardEnd, Patterns());
  }

  method SearchPython(s: string, start: nat, hardEnd: nat, ps: seq<string>) returns (end: nat)
    requires start <= hardEnd <= |s|
    ensures end == SplitAt(Python, s, start, hardEnd, ps)
  {
    var window := s[start..hardEnd];
    var i := 0;
    while i < |ps|
      invariant 0 <= i <= |ps|
      invariant SplitAt(Python, s, start, hardEnd, ps) == SplitAt(Python, s, start, hardEnd, ps[i..])
    {
      assert ps[i..][0] == ps[i] && ps[i..][1..] == ps[i + 1..];
      var found := RFind(window, ps[i]);
      var minimum := if |window| / 2 < 1 then 1 else |window| / 2;
      if found.Some? && found.value >= minimum { return start + found.value + |ps[i]|; }
      i := i + 1;
    }
    return hardEnd;
  }

  /** `split_text_into_chunks`; `None` stands for the ValueError. */
  method SplitTextIntoChunks(value: string, size: int, overlap: int) returns (r: Option<seq<string>>)
    ensures r == if ValidLimits(size, overlap) then Some(Chunks(Python, value, size, overlap)) else None
  {
    if size < 100 { return None; }
    if overlap < 0 || overlap >= size { return None; }
    var s := Normalize(Python, value);
    if s == "" { return Some([]); }
    if |s| <= size { return Some([s]); }
    var texts := PythonLoop(s, size, overlap);
    return Some(texts);
  }

  method PythonWindow(s: string, start: nat, size: nat) returns (end: nat)
    requires start < |s|
    ensures end == WindowEnd(Python, s, start, size)
  {
    var hardEnd := if start + size < |s| then start + size else |s|;
    end := FindSplitPointPython(s, start, hardEnd);
  }

  method NextStartPython(s: string, start: nat, end: nat, overlap: nat) returns (next: nat)
    requires start < end <= |s|
    ensures next == NextStart(Python, s, start, end, overlap)
  {
    next := if end - overlap > start + 1 then end - overlap else start + 1;
  }

  method PythonLoop(s: string, size: nat, overlap: nat) returns (texts: seq<string>)
    requires s != "" && size >= 100
    ensures texts == ChunksFrom(Python, s, 0, size, overlap)
  {
    texts := [];
    var start: nat := 0;
    while start < |s|
      invariant start < |s|
      invariant texts + ChunksFrom(Python, s, start, size, overlap) == ChunksFrom(Python, s, 0, size, overlap)
      decreases |s| - start
    {
      ChunksUnfold(Python, s, start, size, overlap, texts);
      var end := PythonWindow(s, start, size);
      texts := Append(Python, texts, s[start..end]);
      if end >= |s| { return; }
      start := NextStartPython(s, start, end, overlap);
    }
  }
}
