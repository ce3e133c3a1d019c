/** When the two chunkers agree. */
module ChunkAgreement {
  import opened Strings
  import opened Utf8
  import opened Chunking

  predicate NoSeparators(s: string) { forall i :: 0 <= i < |s| ==> !IsSeparator(s[i]) }

  // ---- normalisation ----------------------------------------------------------------

  lemma {:induction false} DropSpacesLocal(l: Lang, s: string, t: string, j: nat)
    requires j <= |s| && j <= |t| && s[..j] == t[..j]
    ensures DropSpaces(l, s, j) == DropSpaces(l, t, j)
  {
    if j > 0 {
      assert s[j - 1] == s[..j][j - 1] && t[j - 1] == t[..j][j - 1];
      assert s[..j - 1] == s[..j][..j - 1] && t[..j - 1] == t[..j][..j - 1];
      DropSpacesLocal(l, s, t, j - 1);
    }
  }

  lemma {:induction false} DropSpacesAppend(l: Lang, a: string, b: string, j: nat)
    requires j <= |b|
    ensures DropSpaces(l, a + b, |a| + j) ==
            if DropSpaces(l, b, j) > 0 then |a| + DropSpaces(l, b, j) else DropSpaces(l, a, |a|)
  {
    if j > 0 {
      assert (a + b)[|a| + j - 1] == b[j - 1];
      if IsSpace(l, b[j - 1]) { DropSpacesAppend(l, a, b, j - 1); }
    } else {
      assert (a + b)[..|a|] == a[..|a|];
      DropSpacesLocal(l, a + b, a, |a|);
    }
  }

  lemma TrimEndAppend(l: Lang, a: string, b: string)
    ensures TrimEnd(l, a + b) == if TrimEnd(l, b) != "" then a + TrimEnd(l, b) else TrimEnd(l, a)
  {
    DropSpacesAppend(l, a, b, |b|);
  }

  lemma JoinCons(w: string, ws: seq<string>)
    ensures JoinSpace([w] + ws) == if ws == [] then w else w + " " + JoinSpace(ws)
  {
    assert ([w] + ws)[1..] == ws;
  }

  lemma JoinIsEmpty(ws: seq<string>)
    requires forall w :: w in ws ==> w != ""
    ensures JoinSpace(ws) == "" <==> ws == []
  {
    if ws != [] { assert ws[0] in ws; }
  }

  /** In the middle of a word. */
  lemma {:induction false} CollapseWord(l: Lang, cur: string, s: string)
    requires cur != "" && NoSpace(l, cur)
    ensures TrimEnd(l, cur + Collapse(l, false, s)) == JoinSpace(WordsFrom(l, cur, s))
    decreases |s|, 0
  {
    if s == "" {
      assert cur + "" == cur;
    } else if IsSpace(l, s[0]) {
      var rest := Collapse(l, true, s[1..]);
      CollapseGap(l, s[1..]);
      assert cur + (" " + rest) == (cur + " ") + rest;
      TrimEndAppend(l, cur + " ", rest);
      TrimEndAppend(l, cur, " ");
      assert DropSpaces(l, cur, |cur|) == |cur|;
      assert DropSpaces(l, " ", 1) == 0;
      JoinCons(cur, WordsFrom(l, "", s[1..]));
      WordsAreWords(l, "", s[1..]);
      JoinIsEmpty(WordsFrom(l, "", s[1..]));
    } else {
      CollapseWord(l, cur + [s[0]], s[1..]);
      assert cur + ([s[0]] + Collapse(l, false, s[1..])) == cur + [s[0]] + Collapse(l, false, s[1..]);
    }
  }

  /** Between words. */
  lemma {:induction false} CollapseGap(l: Lang, s: string)
    ensures TrimEnd(l, Collapse(l, true, s)) == JoinSpace(WordsFrom(l, "", s))
    ensures Collapse(l, true, s) == "" || !IsSpace(l, Collapse(l, true, s)[0])
    decreases |s|, 1
  {
    if s != "" {
      if IsSpace(l, s[0]) {
        CollapseGap(l, s[1..]);
        assert "" + Collapse(l, true, s[1..]) == Collapse(l, true, s[1..]);
        assert Flush("") + WordsFrom(l, "", s[1..]) == WordsFrom(l, "", s[1..]);
      } else {
        CollapseWord(l, [s[0]], s[1..]);
        assert "" + [s[0]] == [s[0]];
      }
    }
  }

  /** Collapsing and stripping is joining the words. */
  lemma CollapseIsJoin(l: Lang, s: string)
    ensures Trim(l, Collapse(l, false, s)) == JoinSpace(Words(l, s))
  {
    CollapseGap(l, s);
    var c, g := Collapse(l, false, s), Collapse(l, true, s);
    if s != "" && IsSpace(l, s[0]) {
      assert c == " " + g;
      assert SkipSpaces(l, c, 0) == SkipSpaces(l, c, 1) == 1;
      assert TrimStart(l, c) == g;
    } else {
      assert c == g;
      assert SkipSpaces(l, c, 0) == 0 && TrimStart(l, c) == c;
    }
  }

  lemma {:induction false} SameWords(cur: string, s: string)
    requires NoSeparators(s)
    ensures WordsFrom(Rust, cur, s) == WordsFrom(Python, cur, s)
    decreases |s|
  {
    if s != "" {
      assert IsSpace(Rust, s[0]) == IsSpace(Python, s[0]);
      if IsSpace(Rust, s[0]) { SameWords("", s[1..]); } else { SameWords(cur + [s[0]], s[1..]); }
    }
  }

  /** On any text without the four separators, ASCII or not, both sides normalise alike. */
  lemma SameNormalForm(s: string)
    requires NoSeparators(s)
    ensures Normalize(Rust, s) == Normalize(Python, s)
  {
    CollapseIsJoin(Python, s);
    SameWords("", s);
  }

  // ---- what normalised text is made of ----------------------------------------------

  predicate Plain(s: string) { Ascii(s) && NoSeparators(s) }

  lemma {:induction false} JoinIsPlain(ws: seq<string>)
    requires forall w :: w in ws ==> Plain(w)
    ensures Plain(JoinSpace(ws))
  {
    if ws != [] {
      assert ws[0] in ws;
      if |ws| > 1 {
        forall w | w in ws[1..] ensures Plain(w) { assert w in ws; }
        JoinIsPlain(ws[1..]);
      }
    }
  }

  lemma {:induction false} WordsArePlain(cur: string, s: string)
    requires Plain(cur) && Plain(s)
    ensures forall w :: w in WordsFrom(Rust, cur, s) ==> Plain(w)
    decreases |s|
  {
    if s != "" {
      if IsSpace(Rust, s[0]) { WordsArePlain("", s[1..]); } else { WordsArePlain(cur + [s[0]], s[1..]); }
    }
  }

  lemma NormalFormIsPlain(s: string)
    requires Plain(s)
    ensures Plain(Normalize(Rust, s))
  {
    WordsArePlain("", s);
    JoinIsPlain(Words(Rust, s));
  }

  // ---- windows of plain text --------------------------------------------------------

  lemma {:induction false} SameSplit(s: string, a: nat, h: nat, ps: seq<string>)
    requires Plain(s) && a <= h <= |s| && h - a >= 2
    ensures SplitAt(Rust, s, a, h, ps) == SplitAt(Python, s, a, h, ps)
  {
    if ps != [] {
      OffOfAscii(s, a);
      OffOfAscii(s, h);
      match RFind(s[a..h], ps[0])
      case Some(j) =>
        OffOfAscii(s, a + j);
        SameSplit(s, a, h, ps[1..]);
      case None => SameSplit(s, a, h, ps[1..]);
    }
  }

  lemma SameHardEnd(s: string, a: nat, size: nat)
    requires Plain(s) && a <= |s|
    ensures HardEnd(Rust, s, a, size) == HardEnd(Python, s, a, size)
  {
    var h := HardEnd(Python, s, a, size);
    OffOfAscii(s, a);
    OffOfAscii(s, h);
    if h < |s| { OffOfAscii(s, h + 1); }
    FloorIs(s, Off(s, a) + size, h);
  }

  lemma SameWindowEnd(s: string, a: nat, size: nat)
    requires Plain(s) && a < |s| && size >= 100
    ensures WindowEnd(Rust, s, a, size) == WindowEnd(Python, s, a, size)
  {
    SameHardEnd(s, a, size);
    var h := HardEnd(Python, s, a, size);
    if h < |s| { SameSplit(s, a, h, Patterns()); }
  }

  lemma SameNextStart(s: string, a: nat, e: nat, overlap: nat)
    requires Plain(s) && a < e <= |s|
    ensures NextStart(Rust, s, a, e, overlap) == NextStart(Python, s, a, e, overlap)
  {
    var b := NextStart(Python, s, a, e, overlap);
    OffOfAscii(s, a);
    OffOfAscii(s, e);
    OffOfAscii(s, |s|);
    OffOfAscii(s, b);
    FloorOfOff(s, b);
  }

  lemma {:induction false} SameWindows(s: string, a: nat, size: nat, overlap: nat)
    requires Plain(s) && a < |s| && size >= 100
    ensures Windows(Rust, s, a, size, overlap) == Windows(Python, s, a, size, overlap)
    decreases |s| - a
  {
    SameWindowEnd(s, a, size);
    var e := WindowEnd(Python, s, a, size);
    WindowIsSound(Python, s, a, size);
    if e < |s| {
      SameNextStart(s, a, e, overlap);
      NextIsSound(Python, s, a, e, overlap);
      SameWindows(s, NextStart(Python, s, a, e, overlap), size, overlap);
    }
  }

  lemma {:induction false} SameSkip(s: string, i: nat)
    requires NoSeparators(s) && i <= |s|
    ensures SkipSpaces(Rust, s, i) == SkipSpaces(Python, s, i)
    decreases |s| - i
  {
    if i < |s| { SameSkip(s, i + 1); }
  }

  lemma {:induction false} SameDrop(s: string, j: nat)
    requires NoSeparators(s) && j <= |s|
    ensures DropSpaces(Rust, s, j) == DropSpaces(Python, s, j)
  {
    if j > 0 { SameDrop(s, j - 1); }
  }

  lemma SameTrim(s: string)
    requires NoSeparators(s)
    ensures Trim(Rust, s) == Trim(Python, s)
  {
    SameSkip(s, 0);
    var t := TrimStart(Rust, s);
    SameDrop(t, |t|);
  }

  lemma {:induction false} SamePieces(s: string, ws: seq<Span>)
    requires NoSeparators(s) && SpansIn(s, ws)
    ensures Pieces(Rust, s, ws) == Pieces(Python, s, ws)
  {
    if ws != [] {
      SameTrim(s[ws[0].0..ws[0].1]);
      SamePieces(s, ws[1..]);
    }
  }

  /** On every ASCII text without separators the sidecar and the fallback return the same chunks. */
  lemma ChunkersAgree(value: string, size: nat, overlap: nat)
    requires Plain(value) && ValidLimits(size, overlap)
    ensures Chunks(Rust, value, size, overlap) == Chunks(Python, value, size, overlap)
  {
    var s := Normalize(Rust, value);
    SameNormalForm(value);
    NormalFormIsPlain(value);
    OffOfAscii(s, |s|);
    if s != "" && |s| > size {
      WindowsTile(Python, s, 0, size, overlap);
      SameWindows(s, 0, size, overlap);
      SamePieces(s, Windows(Python, s, 0, size, overlap));
    }
  }

  // ---- and exactly when -------------------------------------------------------------

  lemma {:induction false} WordsKeepSeparators(cur: string, s: string) returns (w: string)
    requires !NoSeparators(cur) || !NoSeparators(s)
    ensures w in WordsFrom(Rust, cur, s) && !NoSeparators(w)
    decreases |s|
  {
    if s == "" {
      w := cur;
    } else if IsSpace(Rust, s[0]) {
      if !NoSeparators(cur) {
        w := cur;
      } else {
        TailKeepsSeparator(s);
        w := WordsKeepSeparators("", s[1..]);
      }
    } else {
      SeparatorMoves(cur, s);
      w := WordsKeepSeparators(cur + [s[0]], s[1..]);
    }
  }

  lemma TailKeepsSeparator(s: string)
    requires s != "" && !IsSeparator(s[0]) && !NoSeparators(s)
    ensures !NoSeparators(s[1..])
  {
    var i :| 0 <= i < |s| && IsSeparator(s[i]);
    assert s[1..][i - 1] == s[i];
  }

  lemma SeparatorMoves(cur: string, s: string)
    requires s != "" && (!NoSeparators(cur) || !NoSeparators(s))
    ensures !NoSeparators(cur + [s[0]]) || !NoSeparators(s[1..])
  {
    if !NoSeparators(cur) {
      var i :| 0 <= i < |cur| && IsSeparator(cur[i]);
      assert (cur + [s[0]])[i] == cur[i];
    } else if IsSeparator(s[0]) {
      assert (cur + [s[0]])[|cur|] == s[0];
    } else {
      TailKeepsSeparator(s);
    }
  }

  lemma {:induction false} JoinKeepsSeparator(ws: seq<string>, w: string)
    requires w in ws && !NoSeparators(w)
    ensures !NoSeparators(JoinSpace(ws))
  {
    var i :| 0 <= i < |w| && IsSeparator(w[i]);
    if |ws| > 1 {
      var rest := JoinSpace(ws[1..]);
      var all := ws[0] + " " + rest;
      if ws[0] == w {
        assert all[i] == w[i];
      } else {
        JoinKeepsSeparator(ws[1..], w);
        var j :| 0 <= j < |rest| && IsSeparator(rest[j]);
        assert all[|ws[0]| + 1 + j] == rest[j];
      }
    }
  }

  lemma {:induction false} JoinHasNoSeparator(ws: seq<string>)
    requires forall w :: w in ws ==> NoSpace(Python, w)
    ensures NoSeparators(JoinSpace(ws))
  {
    if ws != [] {
      assert ws[0] in ws && NoSeparators(ws[0]);
      if |ws| > 1 {
        JoinHasNoSeparator(ws[1..]);
        assert NoSeparators(ws[0] + " " + JoinSpace(ws[1..]));
      }
    }
  }

  /** Rust's normal form keeps a separator as a word character, Python's drops it as a space. */
  lemma NormalFormsAndSeparators(s: string)
    ensures NoSeparators(Normalize(Python, s))
    ensures !NoSeparators(s) ==> !NoSeparators(Normalize(Rust, s))
  {
    CollapseIsJoin(Python, s);
    WordsAreWords(Python, "", s);
    JoinHasNoSeparator(Words(Python, s));
    if !NoSeparators(s) {
      var w := WordsKeepSeparators("", s);
      JoinKeepsSeparator(Words(Rust, s), w);
    }
  }

  lemma SomeChunkHasSeparator(value: string, size: nat, overlap: nat) returns (i: nat)
    requires ValidLimits(size, overlap) && !NoSeparators(value)
    ensures i < |Chunks(Rust, value, size, overlap)| && !NoSeparators(Chunks(Rust, value, size, overlap)[i])
  {
    var s, cs, ps := Normalize(Rust, value), Chunks(Rust, value, size, overlap), ChunkSpans(Rust, value, size, overlap);
    NormalFormsAndSeparators(value);
    var k :| 0 <= k < |s| && IsSeparator(s[k]);
    ChunksCover(Rust, value, size, overlap);
    ChunksAreGood(Rust, value, size, overlap);
    assert InSome(ps, k);
    i := ChunkAt(s, size, cs, ps, k);
  }

  lemma ChunkAt(s: string, size: nat, cs: seq<string>, ps: seq<Span>, k: nat) returns (i: nat)
    requires AllAt(Rust, s, size, cs, ps) && InSome(ps, k) && k < |s| && IsSeparator(s[k])
    ensures i < |cs| && !NoSeparators(cs[i])
  {
    i :| 0 <= i < |ps| && ps[i].0 <= k < ps[i].1;
    assert At(Rust, s, size, cs[i], ps[i]);
    assert cs[i][k - ps[i].0] == s[k];
  }

  lemma NoChunkHasSeparator(value: string, size: nat, overlap: nat, i: nat)
    requires ValidLimits(size, overlap) && i < |Chunks(Python, value, size, overlap)|
    ensures NoSeparators(Chunks(Python, value, size, overlap)[i])
  {
    NormalFormsAndSeparators(value);
    ChunksAreGood(Python, value, size, overlap);
    assert At(Python, Normalize(Python, value), size, Chunks(Python, value, size, overlap)[i],
              ChunkSpans(Python, value, size, overlap)[i]);
  }

  /** On every text with one of the four separators, and for all limits, the two chunk lists differ. */
  lemma SeparatorsAlwaysDiffer(value: string, size: nat, overlap: nat)
    requires ValidLimits(size, overlap) && !NoSeparators(value)
    ensures Chunks(Rust, value, size, overlap) != Chunks(Python, value, size, overlap)
  {
    var i := SomeChunkHasSeparator(value, size, overlap);
    if i < |Chunks(Python, value, size, overlap)| { NoChunkHasSeparator(value, size, overlap, i); }
  }

  lemma BytesTooMany(value: string, size: nat, overlap: nat)
    requires ValidLimits(size, overlap) && Size(Normalize(Rust, value)) > size
    ensures Normalize(Rust, value) !in Chunks(Rust, value, size, overlap)
  {
    var s, cs, ps := Normalize(Rust, value), Chunks(Rust, value, size, overlap), ChunkSpans(Rust, value, size, overlap);
    ChunksAreGood(Rust, value, size, overlap);
    forall i | 0 <= i < |cs| ensures cs[i] != s { assert At(Rust, s, size, cs[i], ps[i]); }
  }

  /**
    Where Python returns at most one chunk, ASCII or not, the two agree exactly when the text has
    no separator and its normal form fits the size in bytes too.
   */
  lemma ShortTextsAgree(value: string, size: nat, overlap: nat)
    requires ValidLimits(size, overlap) && |Normalize(Python, value)| <= size
    ensures Chunks(Rust, value, size, overlap) == Chunks(Python, value, size, overlap) <==>
              NoSeparators(value) && Size(Normalize(Rust, value)) <= size
  {
    if !NoSeparators(value) {
      SeparatorsAlwaysDiffer(value, size, overlap);
    } else {
      SameNormalForm(value);
      var s := Normalize(Rust, value);
      if Size(s) > size {
        BytesTooMany(value, size, overlap);
        assert s != "" by { OffGrows(s, 0, |s|); }
        assert Chunks(Python, value, size, overlap) == [s] && s in [s];
      }
    }
  }
}
