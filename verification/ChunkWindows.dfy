/** Where the chunkers cut: laws of the windows that say nothing of how the loops find them. */
module ChunkWindows {
  import opened Strings
  import opened Utf8
  import opened Chunking

  // ---- where the next window starts -------------------------------------------------

  /** A position in the implementation's own unit: bytes in Rust, characters in Python. */
  function Pos(l: Lang, s: string, k: nat): (n: nat)
    requires k <= |s|
  {
    match l case Rust => Off(s, k) case Python => k
  }

  /** Past the start of the window, and no further back from its end than the overlap. */
  predicate Eligible(l: Lang, s: string, w: Span, overlap: nat, k: nat)
    requires w.0 < w.1 <= |s| && k <= |s|
  {
    Pos(l, s, k) >= Pos(l, s, w.0) + 1 && Pos(l, s, k) >= Pos(l, s, w.1) - overlap
  }

  /** The next window starts at the least such position. */
  ghost predicate Follows(l: Lang, s: string, w: Span, overlap: nat, b: nat) {
    && w.0 < w.1 <= |s| && b <= |s| && Eligible(l, s, w, overlap, b)
    && forall k :: 0 <= k < b ==> !Eligible(l, s, w, overlap, k)
  }

  lemma NextFollows(l: Lang, s: string, a: nat, e: nat, overlap: nat)
    requires a < e <= |s|
    ensures Follows(l, s, (a, e), overlap, NextStart(l, s, a, e, overlap))
  {
    NextIsSound(l, s, a, e, overlap);
    if l.Rust? {
      var back := if Off(s, e) >= overlap then Off(s, e) - overlap else 0;
      var i := if back > Off(s, a) + 1 then back else Off(s, a) + 1;
      OffGrows(s, a, e);
      OffGrows(s, e, |s|);
      CeilSpec(s, i);
    }
  }

  /**
    When the window is longer than the overlap, the next one shares exactly the overlap with it in
    characters, and in bytes at most three less; otherwise it starts one character further on.
   */
  lemma SharedPart(l: Lang, s: string, w: Span, overlap: nat, b: nat)
    requires Follows(l, s, w, overlap, b) && b <= w.1
    ensures Pos(l, s, w.1) - overlap <= Pos(l, s, w.0) ==> b == w.0 + 1
    ensures Pos(l, s, w.1) - overlap > Pos(l, s, w.0) ==>
              if l.Python? then Measure(l, s, b, w.1) == overlap
              else overlap - 3 <= Measure(l, s, b, w.1) <= overlap
  {
    if Pos(l, s, w.1) - overlap <= Pos(l, s, w.0) {
      OffGrows(s, w.0, w.0 + 1);
      assert Eligible(l, s, w, overlap, w.0 + 1);
      if b <= w.0 { OffGrows(s, b, w.0); }
    } else if l.Python? {
      assert Eligible(l, s, w, overlap, w.1 - overlap);
    } else {
      assert b > 0;
      assert !Eligible(l, s, w, overlap, b - 1);
      OffGrows(s, b - 1, b);
    }
  }

  // ---- where a window ends ----------------------------------------------------------

  /** What a window may end after, best first. */
  const SEPARATORS: seq<string> := ["\n\n", "\n", ". ", " "]

  /** The furthest position that fits. */
  ghost predicate Furthest(l: Lang, s: string, a: nat, size: nat, h: nat) {
    && a <= h <= |s| && Measure(l, s, a, h) <= size
    && (h < |s| ==> Measure(l, s, a, h + 1) > size)
  }

  /** The separator occurs at `j` in the second half of the stretch from `a` to `h`. */
  predicate Usable(l: Lang, s: string, a: nat, h: nat, sep: string, j: nat)
    requires a <= h <= |s|
  {
    && MatchAt(s[a..h], sep, j)
    && Measure(l, s, a, a + j) >= Measure(l, s, a, h) / 2 && (l.Python? ==> j >= 1)
  }

  ghost predicate AnyUsable(l: Lang, s: string, a: nat, h: nat, sep: string)
    requires a <= h <= |s|
  {
    exists j: nat :: Usable(l, s, a, h, sep, j)
  }

  /** `e` comes right after the last usable occurrence of the separator. */
  ghost predicate AfterLast(l: Lang, s: string, a: nat, h: nat, sep: string, e: nat)
    requires a <= h <= |s|
  {
    exists j: nat :: Usable(l, s, a, h, sep, j) && e == a + j + |sep| && forall i :: i > j ==> !MatchAt(s[a..h], sep, i)
  }

  /** The best separator that is usable decides; without one the stretch is cut at its end. */
  ghost predicate CutIn(l: Lang, s: string, a: nat, h: nat, seps: seq<string>, e: nat)
    requires a <= h <= |s|
  {
    || (e == h && forall i :: 0 <= i < |seps| ==> !AnyUsable(l, s, a, h, seps[i]))
    || exists i :: 0 <= i < |seps| && Decides(l, s, a, h, seps, i, e)
  }

  /** The `i`-th separator is usable, no better one is, and `e` comes after it. */
  ghost predicate Decides(l: Lang, s: string, a: nat, h: nat, seps: seq<string>, i: nat, e: nat)
    requires a <= h <= |s| && i < |seps|
  {
    AfterLast(l, s, a, h, seps[i], e) && forall k :: 0 <= k < i ==> !AnyUsable(l, s, a, h, seps[k])
  }

  /** A window ends at the end of the text if that fits, and otherwise at the best cut. */
  ghost predicate EndsWell(l: Lang, s: string, a: nat, size: nat, e: nat) {
    exists h :: Furthest(l, s, a, size, h) && if h == |s| then e == h else CutIn(l, s, a, h, SEPARATORS, e)
  }

  lemma HardEndIsFurthest(l: Lang, s: string, a: nat, size: nat)
    requires a < |s| && size >= 100
    ensures Furthest(l, s, a, size, HardEnd(l, s, a, size))
  {
    HardEndAdvances(l, s, a, size);
  }

  lemma UsableAt(l: Lang, s: string, a: nat, h: nat, sep: string)
    requires a < h <= |s| && sep != ""
    ensures match RFind(s[a..h], sep)
            case None => !AnyUsable(l, s, a, h, sep)
            case Some(j) => if Measure(l, s, a, a + j) >= Minimum(l, Measure(l, s, a, h))
            then AfterLast(l, s, a, h, sep, a + j + |sep|)
            else !AnyUsable(l, s, a, h, sep)
  {
    var w := s[a..h];
    match RFind(w, sep)
    case None =>
      forall j: nat ensures !Usable(l, s, a, h, sep, j) { assert !MatchAt(w, sep, j); }
    case Some(j) =>
      assert forall i :: i > j ==> !MatchAt(w, sep, i);
      if Measure(l, s, a, a + j) >= Minimum(l, Measure(l, s, a, h)) {
        assert Usable(l, s, a, h, sep, j);
      } else {
        forall i: nat ensures !Usable(l, s, a, h, sep, i) {
          if i <= j && MatchAt(w, sep, i) { OffGrows(s, a + i, a + j); }
        }
      }
  }

  lemma {:induction false} SplitIsCut(l: Lang, s: string, a: nat, h: nat, ps: seq<string>)
    requires a < h <= |s| && forall i :: 0 <= i < |ps| ==> ps[i] != ""
    ensures CutIn(l, s, a, h, ps, SplitAt(l, s, a, h, ps))
  {
    if ps != [] {
      UsableAt(l, s, a, h, ps[0]);
      var j := RFind(s[a..h], ps[0]);
      if j.Some? && Measure(l, s, a, a + j.value) >= Minimum(l, Measure(l, s, a, h)) {
        assert Decides(l, s, a, h, ps, 0, SplitAt(l, s, a, h, ps));
      } else {
        SplitIsCut(l, s, a, h, ps[1..]);
        CutCons(l, s, a, h, ps, SplitAt(l, s, a, h, ps[1..]));
      }
    }
  }

  lemma CutCons(l: Lang, s: string, a: nat, h: nat, ps: seq<string>, e: nat)
    requires a <= h <= |s| && ps != [] && !AnyUsable(l, s, a, h, ps[0]) && CutIn(l, s, a, h, ps[1..], e)
    ensures CutIn(l, s, a, h, ps, e)
  {
    if i :| 0 <= i < |ps[1..]| && Decides(l, s, a, h, ps[1..], i, e) {
      assert ps[i + 1] == ps[1..][i];
      forall k | 0 <= k < i + 1 ensures !AnyUsable(l, s, a, h, ps[k]) { if k > 0 { assert ps[k] == ps[1..][k - 1]; } }
      assert Decides(l, s, a, h, ps, i + 1, e);
    } else {
      forall i | 0 <= i < |ps| ensures !AnyUsable(l, s, a, h, ps[i]) { if i > 0 { assert ps[i] == ps[1..][i - 1]; } }
    }
  }

  lemma WindowEndsWell(l: Lang, s: string, a: nat, size: nat)
    requires a < |s| && size >= 100
    ensures EndsWell(l, s, a, size, WindowEnd(l, s, a, size))
  {
    var h := HardEnd(l, s, a, size);
    HardEndIsFurthest(l, s, a, size);
    HardEndAdvances(l, s, a, size);
    assert Patterns() == SEPARATORS;
    SplitIsCut(l, s, a, h, SEPARATORS);
  }

  // ---- all windows, and the chunks --------------------------------------------------

  /** Every window ends where it should, and the next one starts where it should. */
  ghost predicate WellCut(l: Lang, s: string, size: nat, overlap: nat, ws: seq<Span>) {
    && (forall i :: 0 <= i < |ws| ==> EndsWell(l, s, ws[i].0, size, ws[i].1))
    && (forall i :: 0 < i < |ws| ==> Follows(l, s, ws[i - 1], overlap, ws[i].0))
  }

  lemma {:induction false} WindowsWellCut(l: Lang, s: string, a: nat, size: nat, overlap: nat)
    requires a < |s| && size >= 100
    ensures WellCut(l, s, size, overlap, Windows(l, s, a, size, overlap))
    decreases |s| - a
  {
    WindowIsSound(l, s, a, size);
    var e := WindowEnd(l, s, a, size);
    NextIsSound(l, s, a, e, overlap);
    WindowEndsWell(l, s, a, size);
    if e < |s| {
      var b := NextStart(l, s, a, e, overlap);
      NextFollows(l, s, a, e, overlap);
      WindowsWellCut(l, s, b, size, overlap);
      WindowsTile(l, s, b, size, overlap);
      WellCutCons(l, s, size, overlap, (a, e), Windows(l, s, b, size, overlap));
    }
  }

  lemma WellCutCons(l: Lang, s: string, size: nat, overlap: nat, w: Span, rest: seq<Span>)
    requires WellCut(l, s, size, overlap, rest) && rest != []
    requires EndsWell(l, s, w.0, size, w.1) && Follows(l, s, w, overlap, rest[0].0)
    ensures WellCut(l, s, size, overlap, [w] + rest)
  {
    var ws := [w] + rest;
    forall i | 0 <= i < |ws| ensures EndsWell(l, s, ws[i].0, size, ws[i].1) {
      if i > 0 { assert ws[i] == rest[i - 1]; }
    }
    forall i | 0 < i < |ws| ensures Follows(l, s, ws[i - 1], overlap, ws[i].0) {
      if i > 1 { assert ws[i] == rest[i - 1] && ws[i - 1] == rest[i - 2]; }
    }
  }

  /** The chunks of a text that is too long are the trimmed windows of a well-cut tiling. */
  lemma ChunksAreWellCut(l: Lang, value: string, size: nat, overlap: nat) returns (ws: seq<Span>)
    requires ValidLimits(size, overlap) && TextLength(l, Normalize(l, value)) > size
    ensures var s := Normalize(l, value);
            && Tiles(l, s, 0, size, ws) && WellCut(l, s, size, overlap, ws) && SpansIn(s, ws)
            && Chunks(l, value, size, overlap) == Pieces(l, s, ws)
  {
    var s := Normalize(l, value);
    ws := Windows(l, s, 0, size, overlap);
    WindowsTile(l, s, 0, size, overlap);
    WindowsWellCut(l, s, 0, size, overlap);
    TilesSpansIn(l, s, 0, size, ws);
  }
}
