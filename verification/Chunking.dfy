/**
  The chunker that exists twice: on characters in the Python service, on UTF-8 bytes in the Rust
  sidecar.  Positions below are character indexes; the Rust side measures them in bytes.
 */
module Chunking {
  import opened Strings
  import opened Utf8

  // ---- normalisation ----------------------------------------------------------------

  /** `re.sub(r"\s+", " ", s)`, where `after` says whether a space was just written. */
  function Collapse(l: Lang, after: bool, s: string): (r: string)
    decreases |s|
  {
    if s == "" then ""
    else if IsSpace(l, s[0]) then (if after then "" else " ") + Collapse(l, true, s[1..])
    else [s[0]] + Collapse(l, false, s[1..])
  }

  /** Rust joins the words with single spaces; Python collapses the spaces and strips. */
  function Normalize(l: Lang, s: string): (r: string) {
    match l
    case Rust => JoinSpace(Words(Rust, s))
    case Python => Trim(Python, Collapse(Python, false, s))
  }

  // ---- where a window ends and the next one starts ----------------------------------

  function Patterns(): (ps: seq<string>) { ["\n\n", "\n", ". ", " "] }

  /** Length as the implementation measures it: bytes in Rust, characters in Python. */
  function Measure(l: Lang, s: string, a: nat, b: nat): (n: nat)
    requires a <= b <= |s|
  {
    OffGrows(s, a, b);
    match l case Rust => Off(s, b) - Off(s, a) case Python => b - a
  }

  /** The furthest end of a window that starts at a. */
  function HardEnd(l: Lang, s: string, a: nat, size: nat): (h: nat)
    requires a <= |s|
    ensures a <= h <= |s|
  {
    FloorAbove(s, a, Off(s, a) + size);
    match l
    case Rust => Floor(s, Off(s, a) + size)
    case Python => if a + size < |s| then a + size else |s|
  }

  /** How far into the window a separator must lie to be used. */
  function Minimum(l: Lang, n: nat): (m: nat) {
    match l case Rust => n / 2 case Python => if n / 2 < 1 then 1 else n / 2
  }

  /** The end after the last occurrence of the first pattern found far enough in the window. */
  function SplitAt(l: Lang, s: string, a: nat, h: nat, ps: seq<string>): (e: nat)
    requires a <= h <= |s|
    ensures e <= h
  {
    if ps == [] then h
    else
      match RFind(s[a..h], ps[0])
      case Some(j) =>
        if Measure(l, s, a, a + j) >= Minimum(l, Measure(l, s, a, h)) then a + j + |ps[0]|
        else SplitAt(l, s, a, h, ps[1..])
      case None => SplitAt(l, s, a, h, ps[1..])
  }

  function WindowEnd(l: Lang, s: string, a: nat, size: nat): (e: nat)
    requires a <= |s|
    ensures e <= |s|
  {
    var h := HardEnd(l, s, a, size);
    if h == |s| then h else SplitAt(l, s, a, h, Patterns())
  }

  /** The next start steps back by the overlap, but always past the previous start. */
  function NextStart(l: Lang, s: string, a: nat, e: nat, overlap: nat): (b: nat)
    requires a < e <= |s|
  {
    match l
    case Rust =>
      var back := if Off(s, e) >= overlap then Off(s, e) - overlap else 0;
      var i := if back > Off(s, a) + 1 then back else Off(s, a) + 1;
      OffGrows(s, a, e);
      OffGrows(s, e, |s|);
      Ceil(s, i)
    case Python => if e - overlap > a + 1 then e - overlap else a + 1
  }

  // ---- every window is sound --------------------------------------------------------

  lemma HardEndAdvances(l: Lang, s: string, a: nat, size: nat)
    requires a < |s| && size >= 100
    ensures a < HardEnd(l, s, a, size)
    ensures Measure(l, s, a, HardEnd(l, s, a, size)) <= size
    ensures HardEnd(l, s, a, size) < |s| ==> Measure(l, s, a, HardEnd(l, s, a, size)) > size - 4
  {
    var h := HardEnd(l, s, a, size);
    if l.Rust? {
      OffGrows(s, a, a + 1);
      FloorAbove(s, a + 1, Off(s, a) + size);
      if h < |s| { OffGrows(s, h, h + 1); }
    }
  }

  lemma {:induction false} SplitAdvances(l: Lang, s: string, a: nat, h: nat, ps: seq<string>)
    requires a < h <= |s| && Measure(l, s, a, h) >= 2
    ensures a < SplitAt(l, s, a, h, ps) <= h
  {
    if ps != [] {
      match RFind(s[a..h], ps[0])
      case Some(j) =>
        if Measure(l, s, a, a + j) < Minimum(l, Measure(l, s, a, h)) { SplitAdvances(l, s, a, h, ps[1..]); }
      case None => SplitAdvances(l, s, a, h, ps[1..]);
    }
  }

  /** A window is not empty, fits the size, and ends inside the text. */
  lemma WindowIsSound(l: Lang, s: string, a: nat, size: nat)
    requires a < |s| && size >= 100
    ensures a < WindowEnd(l, s, a, size) <= |s|
    ensures Measure(l, s, a, WindowEnd(l, s, a, size)) <= size
  {
    var h := HardEnd(l, s, a, size);
    HardEndAdvances(l, s, a, size);
    if h < |s| {
      SplitAdvances(l, s, a, h, Patterns());
      if l.Rust? { OffGrows(s, WindowEnd(l, s, a, size), h); }
    }
  }

  /** The next window starts after this one starts and no later than it ends. */
  lemma NextIsSound(l: Lang, s: string, a: nat, e: nat, overlap: nat)
    requires a < e <= |s|
    ensures a < NextStart(l, s, a, e, overlap) <= e
  {
    if l.Rust? {
      var back := if Off(s, e) >= overlap then Off(s, e) - overlap else 0;
      var i := if back > Off(s, a) + 1 then back else Off(s, a) + 1;
      OffGrows(s, a, e);
      OffGrows(s, e, |s|);
      CeilSpec(s, i);
      var b := NextStart(l, s, a, e, overlap);
      OffOrder(s, b, a);
    }
  }

  // ---- windows and chunks -----------------------------------------------------------

  type Span = (nat, nat)

  function Windows(l: Lang, s: string, a: nat, size: nat, overlap: nat): (ws: seq<Span>)
    requires a < |s| && size >= 100
    decreases |s| - a
  {
    WindowIsSound(l, s, a, size);
    var e := WindowEnd(l, s, a, size);
    NextIsSound(l, s, a, e, overlap);
    if e == |s| then [(a, e)] else [(a, e)] + Windows(l, s, NextStart(l, s, a, e, overlap), size, overlap)
  }

  /** The windows tile the text: they start at a, end at its end, fit the size, advance, and leave no gap. */
  ghost predicate Tiles(l: Lang, s: string, a: nat, size: nat, ws: seq<Span>) {
    && |ws| > 0 && ws[0].0 == a && ws[|ws| - 1].1 == |s|
    && (forall i :: 0 <= i < |ws| ==> ws[i].0 < ws[i].1 <= |s| && Measure(l, s, ws[i].0, ws[i].1) <= size)
    && (forall i :: 0 < i < |ws| ==> ws[i - 1].0 < ws[i].0 <= ws[i - 1].1)
  }

  lemma {:induction false} WindowsTile(l: Lang, s: string, a: nat, size: nat, overlap: nat)
    requires a < |s| && size >= 100
    ensures Tiles(l, s, a, size, Windows(l, s, a, size, overlap))
    decreases |s| - a
  {
    WindowIsSound(l, s, a, size);
    var e := WindowEnd(l, s, a, size);
    NextIsSound(l, s, a, e, overlap);
    if e < |s| {
      var b := NextStart(l, s, a, e, overlap);
      WindowsTile(l, s, b, size, overlap);
      TilesCons(l, s, a, e, b, size, Windows(l, s, b, size, overlap));
    }
  }

  lemma TilesCons(l: Lang, s: string, a: nat, e: nat, b: nat, size: nat, rest: seq<Span>)
    requires a < e <= |s| && Measure(l, s, a, e) <= size && a < b <= e && Tiles(l, s, b, size, rest)
    ensures Tiles(l, s, a, size, [(a, e)] + rest)
  {
    var ws := [(a, e)] + rest;
    forall i | 0 < i < |ws| ensures ws[i - 1].0 < ws[i].0 <= ws[i - 1].1 {
      if i > 1 { assert ws[i] == rest[i - 1] && ws[i - 1] == rest[i - 2]; }
    }
  }

  /** What a window contributes: its trimmed text, unless that is empty. */
  function Kept(l: Lang, window: string): (ps: seq<string>) {
    var t := Trim(l, window);
    if t == "" then [] else [t]
  }

  function Piece(l: Lang, s: string, w: Span): (ps: seq<string>)
    requires w.0 <= w.1 <= |s|
  {
    Kept(l, s[w.0..w.1])
  }

  ghost predicate SpansIn(s: string, ws: seq<Span>) { forall i :: 0 <= i < |ws| ==> ws[i].0 <= ws[i].1 <= |s| }

  function Pieces(l: Lang, s: string, ws: seq<Span>): (ps: seq<string>)
    requires SpansIn(s, ws)
  {
    if ws == [] then [] else Piece(l, s, ws[0]) + Pieces(l, s, ws[1..])
  }

  function TextLength(l: Lang, s: string): (n: nat) { match l case Rust => Size(s) case Python => |s| }

  predicate ValidLimits(size: int, overlap: int) { size >= 100 && 0 <= overlap < size }

  /** `chunk_text` and `split_text_into_chunks`, after the limits were checked. */
  function Chunks(l: Lang, value: string, size: nat, overlap: nat): (cs: seq<string>)
    requires ValidLimits(size, overlap)
  {
    var s := Normalize(l, value);
    if s == "" then []
    else if TextLength(l, s) <= size then [s]
    else
      WindowsTile(l, s, 0, size, overlap);
      Pieces(l, s, Windows(l, s, 0, size, overlap))
  }

  // ---- where the chunks lie ---------------------------------------------------------

  /** A window with nothing but white space gives no chunk. */
  predicate Blank(l: Lang, s: string, w: Span)
    requires w.0 <= w.1 <= |s|
  {
    SkipSpaces(l, s, w.0) >= w.1
  }

  /** The part of a window between its first and its last non-space character. */
  function Core(l: Lang, s: string, w: Span): (c: Span)
    requires w.0 <= w.1 <= |s|
  {
    (SkipSpaces(l, s, w.0), DropSpaces(l, s, w.1))
  }

  lemma CoreIsInside(l: Lang, s: string, w: Span)
    requires w.0 <= w.1 <= |s| && !Blank(l, s, w)
    ensures var c := Core(l, s, w);
            && w.0 <= c.0 < c.1 <= w.1
            && !IsSpace(l, s[c.0]) && !IsSpace(l, s[c.1 - 1])
            && forall k :: w.0 <= k < c.0 || c.1 <= k < w.1 ==> IsSpace(l, s[k])
  {
    SkippedAreSpaces(l, s, w.0);
    DroppedAreSpaces(l, s, w.1);
  }

  lemma PieceIsCore(l: Lang, s: string, w: Span)
    requires w.0 <= w.1 <= |s|
    ensures Blank(l, s, w) ==> Piece(l, s, w) == []
    ensures !Blank(l, s, w) ==> Core(l, s, w).0 < Core(l, s, w).1
                                && Piece(l, s, w) == [s[Core(l, s, w).0..Core(l, s, w).1]]
  {
    if Blank(l, s, w) {
      SkippedAreSpaces(l, s, w.0);
      AllSpaces(l, s[w.0..w.1]);
    } else {
      CoreIsInside(l, s, w);
      TrimOfWindow(l, s, w, Core(l, s, w));
    }
  }

  lemma TrimOfWindow(l: Lang, s: string, w: Span, c: Span)
    requires w.0 <= c.0 < c.1 <= w.1 <= |s| && !IsSpace(l, s[c.0]) && !IsSpace(l, s[c.1 - 1])
    requires forall k :: w.0 <= k < c.0 || c.1 <= k < w.1 ==> IsSpace(l, s[k])
    ensures Trim(l, s[w.0..w.1]) == s[c.0..c.1]
  {
    WindowIsPadded(l, s, w, c);
    TrimIs(l, s[w.0..w.1], c.0 - w.0, c.1 - w.0);
    SliceOfSlice(s, w.0, w.1, c.0 - w.0, c.1 - w.0);
  }

  /** The same facts, by the positions in the window. */
  lemma WindowIsPadded(l: Lang, s: string, w: Span, c: Span)
    requires w.0 <= c.0 < c.1 <= w.1 <= |s| && !IsSpace(l, s[c.0]) && !IsSpace(l, s[c.1 - 1])
    requires forall k :: w.0 <= k < c.0 || c.1 <= k < w.1 ==> IsSpace(l, s[k])
    ensures var x := s[w.0..w.1];
            && !IsSpace(l, x[c.0 - w.0]) && !IsSpace(l, x[c.1 - w.0 - 1])
            && forall i :: 0 <= i < c.0 - w.0 || c.1 - w.0 <= i < |x| ==> IsSpace(l, x[i])
  {
    var x := s[w.0..w.1];
    forall i | 0 <= i < c.0 - w.0 || c.1 - w.0 <= i < |x| ensures IsSpace(l, x[i]) { assert x[i] == s[w.0 + i]; }
  }

  lemma AllSpaces(l: Lang, x: string)
    requires forall i :: 0 <= i < |x| ==> IsSpace(l, x[i])
    ensures Trim(l, x) == ""
  {
    var a, b := TrimCuts(l, x);
  }

  function Cores(l: Lang, s: string, ws: seq<Span>): (cs: seq<Span>)
    requires SpansIn(s, ws)
  {
    if ws == [] then []
    else (if Blank(l, s, ws[0]) then [] else [Core(l, s, ws[0])]) + Cores(l, s, ws[1..])
  }

  /** The spans of the chunks in the normalised text. */
  function ChunkSpans(l: Lang, value: string, size: nat, overlap: nat): (ps: seq<Span>)
    requires ValidLimits(size, overlap)
  {
    var s := Normalize(l, value);
    if s == "" then []
    else if TextLength(l, s) <= size then [(0, |s|)]
    else
      WindowsTile(l, s, 0, size, overlap);
      Cores(l, s, Windows(l, s, 0, size, overlap))
  }

  /** Chunk `c` is the slice of `s` at `p`; it is not empty and fits the size. */
  ghost predicate At(l: Lang, s: string, size: nat, c: string, p: Span) {
    p.0 < p.1 <= |s| && c == s[p.0..p.1] && TextLength(l, c) <= size
  }

  ghost predicate AllAt(l: Lang, s: string, size: nat, cs: seq<string>, ps: seq<Span>) {
    |cs| == |ps| && forall i :: 0 <= i < |cs| ==> At(l, s, size, cs[i], ps[i])
  }

  ghost predicate Rising(ps: seq<Span>, from: nat) {
    && (forall i :: 0 <= i < |ps| ==> from <= ps[i].0)
    && forall i, j :: 0 <= i < j < |ps| ==> ps[i].0 <= ps[j].0
  }

  predicate InSome(ps: seq<Span>, k: nat) { exists i :: 0 <= i < |ps| && ps[i].0 <= k < ps[i].1 }

  lemma SubsliceFits(l: Lang, s: string, w: Span, lo: nat, hi: nat)
    requires w.0 <= lo <= hi <= w.1 <= |s|
    ensures TextLength(l, s[lo..hi]) <= Measure(l, s, w.0, w.1)
  {
    SizeOfSlice(s, lo, hi);
    OffGrows(s, w.0, lo);
    OffGrows(s, hi, w.1);
  }

  lemma {:induction false} PiecesAreAt(l: Lang, s: string, ws: seq<Span>, size: nat)
    requires SpansIn(s, ws) && forall i :: 0 <= i < |ws| ==> Measure(l, s, ws[i].0, ws[i].1) <= size
    ensures AllAt(l, s, size, Pieces(l, s, ws), Cores(l, s, ws))
    ensures |Pieces(l, s, ws)| <= |ws|
  {
    if ws != [] {
      PieceIsCore(l, s, ws[0]);
      PiecesAreAt(l, s, ws[1..], size);
      if !Blank(l, s, ws[0]) {
        var c := Core(l, s, ws[0]);
        CoreIsInside(l, s, ws[0]);
        SubsliceFits(l, s, ws[0], c.0, c.1);
        AllAtCons(l, s, size, s[c.0..c.1], Pieces(l, s, ws[1..]), c, Cores(l, s, ws[1..]));
      }
    }
  }

  lemma AllAtCons(l: Lang, s: string, size: nat, c: string, cs: seq<string>, p: Span, ps: seq<Span>)
    requires At(l, s, size, c, p) && AllAt(l, s, size, cs, ps)
    ensures AllAt(l, s, size, [c] + cs, [p] + ps)
  {
  }

  lemma {:induction false} SkipGrows(l: Lang, s: string, a: nat, b: nat)
    requires a <= b <= |s|
    ensures SkipSpaces(l, s, a) <= SkipSpaces(l, s, b)
    decreases b - a
  {
    if a < b { SkipGrows(l, s, a + 1, b); }
  }

  lemma {:induction false} CoresRise(l: Lang, s: string, ws: seq<Span>, from: nat)
    requires SpansIn(s, ws) && from <= |s|
    requires forall i :: 0 <= i < |ws| ==> from <= ws[i].0
    requires forall i, j :: 0 <= i < j < |ws| ==> ws[i].0 <= ws[j].0
    ensures Rising(Cores(l, s, ws), SkipSpaces(l, s, from))
  {
    if ws != [] {
      var w := ws[0];
      SkipGrows(l, s, from, w.0);
      CoresRise(l, s, ws[1..], w.0);
    }
  }

  lemma {:induction false} CoresCover(l: Lang, s: string, ws: seq<Span>, i: nat, k: nat)
    requires SpansIn(s, ws) && i < |ws| && ws[i].0 <= k < ws[i].1 && !IsSpace(l, s[k])
    ensures InSome(Cores(l, s, ws), k)
  {
    var rest := Cores(l, s, ws[1..]);
    var head := if Blank(l, s, ws[0]) then [] else [Core(l, s, ws[0])];
    if i == 0 {
      SkippedAreSpaces(l, s, ws[0].0);
      CoreIsInside(l, s, ws[0]);
      assert (head + rest)[0] == Core(l, s, ws[0]);
    } else {
      CoresCover(l, s, ws[1..], i - 1, k);
      var j :| 0 <= j < |rest| && rest[j].0 <= k < rest[j].1;
      assert (head + rest)[|head| + j] == rest[j];
    }
  }

  /** Tiles leave no position out. */
  lemma {:induction false} TilesReach(l: Lang, s: string, a: nat, size: nat, ws: seq<Span>, k: nat) returns (i: nat)
    requires Tiles(l, s, a, size, ws) && a <= k < |s|
    ensures i < |ws| && ws[i].0 <= k < ws[i].1
    decreases |ws|
  {
    if k < ws[0].1 {
      i := 0;
    } else {
      var rest := ws[1..];
      assert forall j :: 0 <= j < |rest| ==> rest[j] == ws[j + 1];
      assert Tiles(l, s, ws[1].0, size, rest);
      i := TilesReach(l, s, ws[1].0, size, rest, k);
      i := i + 1;
    }
  }

  lemma {:induction false} TilesRise(l: Lang, s: string, a: nat, size: nat, ws: seq<Span>, i: nat, j: nat)
    requires Tiles(l, s, a, size, ws) && i < j < |ws|
    ensures ws[i].0 < ws[j].0
    decreases j
  {
    if i < j - 1 { TilesRise(l, s, a, size, ws, i, j - 1); }
  }

  lemma TilesSpansIn(l: Lang, s: string, a: nat, size: nat, ws: seq<Span>)
    requires Tiles(l, s, a, size, ws)
    ensures SpansIn(s, ws) && forall i :: 0 <= i < |ws| ==> Measure(l, s, ws[i].0, ws[i].1) <= size
  {
  }

  /** Every chunk is the slice of the normalised text at its span, not empty and within the size. */
  lemma ChunksAreGood(l: Lang, value: string, size: nat, overlap: nat)
    requires ValidLimits(size, overlap)
    ensures AllAt(l, Normalize(l, value), size, Chunks(l, value, size, overlap), ChunkSpans(l, value, size, overlap))
  {
    var s := Normalize(l, value);
    if s != "" && TextLength(l, s) > size {
      WindowsTile(l, s, 0, size, overlap);
      TilesSpansIn(l, s, 0, size, Windows(l, s, 0, size, overlap));
      PiecesAreAt(l, s, Windows(l, s, 0, size, overlap), size);
    } else {
      assert s[0..|s|] == s;
    }
  }

  /** The spans never step back, and every non-space position of the normalised text is in one. */
  lemma ChunksCover(l: Lang, value: string, size: nat, overlap: nat)
    requires ValidLimits(size, overlap)
    ensures var s, ps := Normalize(l, value), ChunkSpans(l, value, size, overlap);
            Rising(ps, 0) && forall k :: 0 <= k < |s| && !IsSpace(l, s[k]) ==> InSome(ps, k)
  {
    var s, ps := Normalize(l, value), ChunkSpans(l, value, size, overlap);
    if s == "" {
    } else if TextLength(l, s) <= size {
      assert ps[0] == (0, |s|);
    } else {
      WindowsTile(l, s, 0, size, overlap);
      WindowsCover(l, s, size, Windows(l, s, 0, size, overlap));
    }
  }

  lemma WindowsCover(l: Lang, s: string, size: nat, ws: seq<Span>)
    requires Tiles(l, s, 0, size, ws)
    ensures SpansIn(s, ws) && Rising(Cores(l, s, ws), 0)
    ensures forall k :: 0 <= k < |s| && !IsSpace(l, s[k]) ==> InSome(Cores(l, s, ws), k)
  {
    TilesSpansIn(l, s, 0, size, ws);
    forall i, j | 0 <= i < j < |ws| ensures ws[i].0 <= ws[j].0 { TilesRise(l, s, 0, size, ws, i, j); }
    CoresRise(l, s, ws, 0);
    forall k | 0 <= k < |s| && !IsSpace(l, s[k]) ensures InSome(Cores(l, s, ws), k) {
      var i := TilesReach(l, s, 0, size, ws, k);
      CoresCover(l, s, ws, i, k);
    }
  }

  /**
    Two windows that start at `a` and later at `b` give chunks with the same start exactly when
    only white space lies between.
   */
  lemma StartsCoincide(l: Lang, s: string, a: nat, b: nat)
    requires a < b <= |s|
    ensures SkipSpaces(l, s, a) == SkipSpaces(l, s, b) <==> forall x :: a <= x < b ==> IsSpace(l, s[x])
  {
    SkippedAreSpaces(l, s, a);
    SkipGrows(l, s, a, b);
    if forall x :: a <= x < b ==> IsSpace(l, s[x]) { SkipOver(l, s, a, b); }
  }

  lemma {:induction false} SkipOver(l: Lang, s: string, a: nat, b: nat)
    requires a <= b <= |s| && forall x :: a <= x < b ==> IsSpace(l, s[x])
    ensures SkipSpaces(l, s, a) == SkipSpaces(l, s, b)
    decreases b - a
  {
    if a < b { SkipOver(l, s, a + 1, b); }
  }
}
