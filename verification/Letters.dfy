/** The letters of a text, its non-space characters in order: what normalising, chunking and splitting keep. */
module Letters {
  import opened Strings
  import opened Chunking
  import opened ChunkAgreement

  function LettersOf(l: Lang, s: string): (r: string) {
    if s == "" then "" else (if IsSpace(l, s[0]) then "" else [s[0]]) + LettersOf(l, s[1..])
  }

  function Concat(ws: seq<string>): (r: string) { if ws == [] then "" else ws[0] + Concat(ws[1..]) }

  lemma {:induction false} LettersAppend(l: Lang, a: string, b: string)
    ensures LettersOf(l, a + b) == LettersOf(l, a) + LettersOf(l, b)
  {
    if a == "" {
      assert a + b == b;
    } else {
      assert (a + b)[1..] == a[1..] + b;
      LettersAppend(l, a[1..], b);
    }
  }

  lemma {:induction false} LettersOfWord(l: Lang, w: string)
    requires NoSpace(l, w)
    ensures LettersOf(l, w) == w
  {
    if w != "" { LettersOfWord(l, w[1..]); }
  }

  // ---- normalising ------------------------------------------------------------------

  lemma {:induction false} WordsHoldLetters(l: Lang, cur: string, s: string)
    ensures Concat(WordsFrom(l, cur, s)) == cur + LettersOf(l, s)
    decreases |s|
  {
    if s == "" {
      assert Concat([cur]) == cur + Concat([]);
    } else if IsSpace(l, s[0]) {
      WordsHoldLetters(l, "", s[1..]);
      var rest := WordsFrom(l, "", s[1..]);
      assert "" + LettersOf(l, s[1..]) == LettersOf(l, s[1..]);
      if cur == "" { assert [] + rest == rest; } else { assert ([cur] + rest)[1..] == rest; }
    } else {
      WordsHoldLetters(l, cur + [s[0]], s[1..]);
    }
  }

  lemma WordsAreAll(l: Lang, s: string)
    ensures AllWords(l, Words(l, s))
  {
    WordsAreWords(l, "", s);
    forall i | 0 <= i < |Words(l, s)| ensures Words(l, s)[i] in Words(l, s) {}
  }

  lemma LettersOfPair(l: Lang, w: string, rest: string)
    requires NoSpace(l, w)
    ensures LettersOf(l, w + " " + rest) == w + LettersOf(l, rest)
  {
    assert w + " " + rest == w + (" " + rest);
    LettersAppend(l, w, " " + rest);
    LettersOfWord(l, w);
    LettersAfterSpace(l, rest);
  }

  lemma LettersAfterSpace(l: Lang, rest: string)
    ensures LettersOf(l, " " + rest) == LettersOf(l, rest)
  {
    var s := " " + rest;
    assert s[1..] == rest && IsSpace(l, s[0]);
  }

  lemma {:induction false} JoinHoldsLetters(l: Lang, ws: seq<string>)
    requires AllWords(l, ws)
    ensures LettersOf(l, JoinSpace(ws)) == Concat(ws)
  {
    if |ws| == 1 {
      LettersOfWord(l, ws[0]);
      assert ws[0] + Concat([]) == ws[0];
    } else if |ws| > 1 {
      JoinHoldsLetters(l, ws[1..]);
      LettersOfPair(l, ws[0], JoinSpace(ws[1..]));
    }
  }

  lemma NormalizeIsJoin(l: Lang, s: string)
    ensures Normalize(l, s) == JoinSpace(Words(l, s))
  {
    CollapseIsJoin(l, s);
  }

  /** Normalising drops nothing but white space. */
  lemma NormalizeKeepsLetters(l: Lang, s: string)
    ensures LettersOf(l, Normalize(l, s)) == LettersOf(l, s)
  {
    NormalizeIsJoin(l, s);
    WordsAreAll(l, s);
    JoinHoldsLetters(l, Words(l, s));
    WordsHoldLetters(l, "", s);
  }

  /** And it keeps the words, so it neither joins nor splits any. */
  lemma NormalizeKeepsWords(l: Lang, s: string)
    ensures Words(l, Normalize(l, s)) == Words(l, s)
  {
    NormalizeIsJoin(l, s);
    WordsAreAll(l, s);
    WordsOfJoin(l, Words(l, s));
  }

  // ---- slices -----------------------------------------------------------------------

  /** How many letters come before position `k`. */
  function Rank(l: Lang, s: string, k: nat): (n: nat)
    requires k <= |s|
  {
    |LettersOf(l, s[..k])|
  }

  /** The letters of a slice are a slice of the letters. */
  lemma LettersOfSlice(l: Lang, s: string, a: nat, b: nat)
    requires a <= b <= |s|
    ensures Rank(l, s, a) <= Rank(l, s, b) <= |LettersOf(l, s)|
    ensures LettersOf(l, s[a..b]) == LettersOf(l, s)[Rank(l, s, a)..Rank(l, s, b)]
  {
    assert s[..b] == s[..a] + s[a..b] && s == s[..b] + s[b..];
    LettersAppend(l, s[..a], s[a..b]);
    LettersAppend(l, s[..b], s[b..]);
  }

  lemma RankAfter(l: Lang, s: string, k: nat)
    requires k < |s|
    ensures Rank(l, s, k + 1) == Rank(l, s, k) + (if IsSpace(l, s[k]) then 0 else 1)
    ensures Rank(l, s, 0) == 0 && Rank(l, s, |s|) == |LettersOf(l, s)|
  {
    assert s[..k + 1] == s[..k] + [s[k]] && s[..|s|] == s && s[..0] == "";
    LettersAppend(l, s[..k], [s[k]]);
  }

  lemma RankGrows(l: Lang, s: string, a: nat, b: nat)
    requires a <= b <= |s|
    ensures Rank(l, s, a) <= Rank(l, s, b)
  {
    LettersOfSlice(l, s, a, b);
  }

  /** The position of the letter before `k`, if there is one. */
  lemma {:induction false} LetterBefore(l: Lang, s: string, k: nat) returns (i: nat)
    requires k <= |s| && Rank(l, s, k) > 0
    ensures i < k && !IsSpace(l, s[i]) && Rank(l, s, i + 1) == Rank(l, s, k)
  {
    RankAfter(l, s, if k > 0 then k - 1 else 0);
    if IsSpace(l, s[k - 1]) { i := LetterBefore(l, s, k - 1); } else { i := k - 1; }
  }

  // ---- parts that make up a whole ---------------------------------------------------

  function Further(a: nat, b: nat): nat { if a < b then b else a }

  /** How far the spans reach, seen from `from`. */
  function Reach(ps: seq<Span>, from: nat): (n: nat) {
    if ps == [] then from else Reach(ps[1..], Further(from, ps[0].1))
  }

  /** In order, each span starts no later than the ones before it reach. */
  predicate NoGap(ps: seq<Span>, from: nat) {
    ps == [] || (ps[0].0 <= from && NoGap(ps[1..], Further(from, ps[0].1)))
  }

  /** Piece `i` is the slice of the letters at span `i`. */
  ghost predicate PartsAt(letters: string, pieces: seq<string>, ps: seq<Span>) {
    && |pieces| == |ps|
    && forall i :: 0 <= i < |ps| ==> ps[i].0 <= ps[i].1 <= |letters| && pieces[i] == letters[ps[i].0..ps[i].1]
  }

  function AllLetters(l: Lang, parts: seq<string>): (ls: seq<string>)
    ensures |ls| == |parts| && forall i :: 0 <= i < |parts| ==> ls[i] == LettersOf(l, parts[i])
  {
    seq(|parts|, i requires 0 <= i < |parts| => LettersOf(l, parts[i]))
  }

  /** The parts follow one another through the text, overlapping perhaps, and leave no letter out. */
  ghost predicate MadeOf(l: Lang, text: string, parts: seq<string>, ps: seq<Span>) {
    && PartsAt(LettersOf(l, text), AllLetters(l, parts), ps)
    && NoGap(ps, 0) && Reach(ps, 0) == |LettersOf(l, text)|
  }

  ghost predicate Whole(l: Lang, text: string, parts: seq<string>) { exists ps :: MadeOf(l, text, parts, ps) }

  lemma {:induction false} ReachedIsCovered(ps: seq<Span>, from: nat, k: nat)
    requires NoGap(ps, from) && from <= k < Reach(ps, from)
    ensures InSome(ps, k)
  {
    if k < ps[0].1 {
      assert ps[0].0 <= k < ps[0].1;
    } else {
      ReachedIsCovered(ps[1..], Further(from, ps[0].1), k);
      var i :| 0 <= i < |ps[1..]| && ps[1..][i].0 <= k < ps[1..][i].1;
      assert ps[i + 1] == ps[1..][i];
    }
  }

  /** So every letter is in some part. */
  lemma WholeHoldsEveryLetter(l: Lang, text: string, parts: seq<string>, k: nat) returns (i: nat, j: nat)
    requires Whole(l, text, parts) && k < |LettersOf(l, text)|
    ensures i < |parts| && j < |LettersOf(l, parts[i])| && LettersOf(l, parts[i])[j] == LettersOf(l, text)[k]
  {
    var ps: seq<Span> :| MadeOf(l, text, parts, ps);
    ReachedIsCovered(ps, 0, k);
    i := SpanOf(ps, k);
    j := k - ps[i].0;
    assert AllLetters(l, parts)[i] == LettersOf(l, text)[ps[i].0..ps[i].1];
  }

  lemma SpanOf(ps: seq<Span>, k: nat) returns (i: nat)
    requires InSome(ps, k)
    ensures i < |ps| && ps[i].0 <= k < ps[i].1
  {
    i :| 0 <= i < |ps| && ps[i].0 <= k < ps[i].1;
  }

  lemma WholeItself(l: Lang, text: string)
    ensures Whole(l, text, [text])
  {
    var n := |LettersOf(l, text)|;
    var ps: seq<Span> := [(0, n)];
    assert LettersOf(l, text)[0..n] == LettersOf(l, text);
    ReachSnoc([], (0, n), 0);
    assert [] + ps == ps;
    assert MadeOf(l, text, [text], ps);
  }

  // ---- the chunks of a text make up the text ----------------------------------------

  function Ranks(l: Lang, s: string, ps: seq<Span>): (qs: seq<Span>)
    requires SpansIn(s, ps)
    ensures |qs| == |ps| && forall i :: 0 <= i < |ps| ==> qs[i] == (Rank(l, s, ps[i].0), Rank(l, s, ps[i].1))
  {
    seq(|ps|, i requires 0 <= i < |ps| => (Rank(l, s, ps[i].0), Rank(l, s, ps[i].1)))
  }

  /** Spans that rise and hold every letter leave no gap between them. */
  lemma {:induction false} RisingLeaveNoGap(l: Lang, s: string, ps: seq<Span>, m: nat)
    requires SpansIn(s, ps) && Rising(ps, 0) && m <= |ps|
    requires forall k :: 0 <= k < |s| && !IsSpace(l, s[k]) ==> InSome(ps, k)
    ensures NoGap(Ranks(l, s, ps)[..m], 0)
    ensures forall i :: 0 <= i < m ==> Rank(l, s, ps[i].1) <= Reach(Ranks(l, s, ps)[..m], 0)
    ensures Reach(Ranks(l, s, ps)[..m], 0) <= |LettersOf(l, s)|
  {
    if m > 0 {
      var qs := Ranks(l, s, ps);
      RisingLeaveNoGap(l, s, ps, m - 1);
      var p := ps[m - 1];
      LettersOfSlice(l, s, p.0, p.1);
      if Rank(l, s, p.0) > 0 { StartIsReached(l, s, ps, m - 1); }
      ReachSnoc(qs[..m - 1], qs[m - 1], 0);
      assert qs[..m] == qs[..m - 1] + [qs[m - 1]];
    }
  }

  lemma StartIsReached(l: Lang, s: string, ps: seq<Span>, m: nat)
    requires SpansIn(s, ps) && Rising(ps, 0) && m < |ps| && Rank(l, s, ps[m].0) > 0
    requires forall k :: 0 <= k < |s| && !IsSpace(l, s[k]) ==> InSome(ps, k)
    ensures exists i :: 0 <= i < m && Rank(l, s, ps[i].1) >= Rank(l, s, ps[m].0)
  {
    var k := LetterBefore(l, s, ps[m].0);
    assert InSome(ps, k);
    var i := SpanOf(ps, k);
    RankGrows(l, s, k + 1, ps[i].1);
  }

  lemma {:induction false} ReachSnoc(qs: seq<Span>, q: Span, from: nat)
    ensures Reach(qs + [q], from) == Further(Reach(qs, from), q.1)
    ensures NoGap(qs + [q], from) <==> NoGap(qs, from) && q.0 <= Reach(qs, from)
  {
    if qs == [] {
      assert (qs + [q])[1..] == [];
    } else {
      assert (qs + [q])[1..] == qs[1..] + [q];
      ReachSnoc(qs[1..], q, Further(from, qs[0].1));
    }
  }

  /** The chunks of either chunker make up the text they were cut from, whatever the limits. */
  lemma ChunksAreWhole(l: Lang, value: string, size: nat, overlap: nat)
    requires ValidLimits(size, overlap)
    ensures Whole(l, value, Chunks(l, value, size, overlap))
  {
    ChunksAreGood(l, value, size, overlap);
    ChunksCover(l, value, size, overlap);
    NormalizeKeepsLetters(l, value);
    SlicesAreWhole(l, value, Normalize(l, value), size, Chunks(l, value, size, overlap),
                   ChunkSpans(l, value, size, overlap));
  }

  lemma SlicesAreWhole(l: Lang, value: string, s: string, size: nat, cs: seq<string>, ps: seq<Span>)
    requires LettersOf(l, s) == LettersOf(l, value) && AllAt(l, s, size, cs, ps) && Rising(ps, 0)
    requires forall k :: 0 <= k < |s| && !IsSpace(l, s[k]) ==> InSome(ps, k)
    ensures Whole(l, value, cs)
  {
    assert SpansIn(s, ps);
    var qs := Ranks(l, s, ps);
    RisingLeaveNoGap(l, s, ps, |ps|);
    assert qs[..|ps|] == qs;
    LastIsReached(l, s, ps);
    forall i | 0 <= i < |qs|
      ensures qs[i].0 <= qs[i].1 <= |LettersOf(l, s)|
      ensures AllLetters(l, cs)[i] == LettersOf(l, s)[qs[i].0..qs[i].1]
    {
      assert At(l, s, size, cs[i], ps[i]);
      LettersOfSlice(l, s, ps[i].0, ps[i].1);
    }
    assert MadeOf(l, value, cs, qs);
  }

  lemma LastIsReached(l: Lang, s: string, ps: seq<Span>)
    requires SpansIn(s, ps) && forall k :: 0 <= k < |s| && !IsSpace(l, s[k]) ==> InSome(ps, k)
    ensures LettersOf(l, s) != "" ==> exists i :: 0 <= i < |ps| && Rank(l, s, ps[i].1) >= |LettersOf(l, s)|
  {
    assert s[..|s|] == s;
    if LettersOf(l, s) != "" {
      var k := LetterBefore(l, s, |s|);
      var i := SpanOf(ps, k);
      RankGrows(l, s, k + 1, ps[i].1);
    }
  }
}
