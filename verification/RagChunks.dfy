/** Preparing document chunks, through the sidecar or the local fallback. */
module RagChunks {
  import opened Wrappers
  import opened Strings
  import opened Utf8
  import opened Chunking
  import opened ChunkAgreement

  datatype Section = Section(text: string, page: Option<nat>, location: Option<string>)
  datatype Prepared = Prepared(text: string, index: nat, page: Option<nat>, location: Option<string>)

  /** One prepared chunk per text, numbered from n, with the section's page and location. */
  function FromTexts(texts: seq<string>, sec: Section, n: nat): (ps: seq<Prepared>)
    ensures |ps| == |texts|
    ensures forall i :: 0 <= i < |ps| ==> ps[i] == Prepared(texts[i], n + i, sec.page, sec.location)
  {
    seq(|texts|, i requires 0 <= i < |texts| => Prepared(texts[i], n + i, sec.page, sec.location))
  }

  /** The chunk texts of every section. */
  function SectionTexts(chunk: string -> seq<string>, secs: seq<Section>): (ts: seq<seq<string>>)
    ensures |ts| == |secs| && forall i :: 0 <= i < |secs| ==> ts[i] == chunk(secs[i].text)
  {
    seq(|secs|, i requires 0 <= i < |secs| => chunk(secs[i].text))
  }

  /** The chunker behind either path. */
  function Chunker(l: Lang, size: nat, overlap: nat): (f: string -> seq<string>)
    requires ValidLimits(size, overlap)
  {
    t => Chunks(l, t, size, overlap)
  }

  /** The prepared chunks of the sections from the i-th on, numbered from n. */
  function Number(secs: seq<Section>, texts: seq<seq<string>>, i: nat, n: nat): (ps: seq<Prepared>)
    requires |texts| == |secs| && i <= |secs|
    decreases |secs| - i
  {
    if i == |secs| then []
    else FromTexts(texts[i], secs[i], n) + Number(secs, texts, i + 1, n + |texts[i]|)
  }

  /** The prepared chunks of a document. */
  function PreparedBy(l: Lang, secs: seq<Section>, size: nat, overlap: nat): (ps: seq<Prepared>)
    requires ValidLimits(size, overlap)
  {
    Number(secs, SectionTexts(Chunker(l, size, overlap), secs), 0, 0)
  }

  /** Indexes run 0, 1, 2, ... over the whole document. */
  lemma {:induction false} NumberedInOrder(secs: seq<Section>, texts: seq<seq<string>>, i: nat, n: nat)
    requires |texts| == |secs| && i <= |secs|
    ensures forall k :: 0 <= k < |Number(secs, texts, i, n)| ==> Number(secs, texts, i, n)[k].index == n + k
    decreases |secs| - i
  {
    if i < |secs| {
      var head, rest := FromTexts(texts[i], secs[i], n), Number(secs, texts, i + 1, n + |texts[i]|);
      var all: seq<Prepared> := head + rest;
      NumberedInOrder(secs, texts, i + 1, n + |texts[i]|);
      forall k | 0 <= k < |all| ensures all[k].index == n + k {
        if k >= |head| { assert all[k] == rest[k - |head|]; }
      }
    }
  }

  method AppendTexts(chunks: seq<Prepared>, texts: seq<string>, sec: Section) returns (r: seq<Prepared>)
    ensures r == chunks + FromTexts(texts, sec, |chunks|)
  {
    r := chunks;
    for i := 0 to |texts|
      invariant r == chunks + FromTexts(texts[..i], sec, |chunks|)
    {
      r := r + [Prepared(texts[i], |r|, sec.page, sec.location)];
    }
    assert texts[..|texts|] == texts;
  }

  lemma NumberStep(done: seq<Prepared>, secs: seq<Section>, texts: seq<seq<string>>, i: nat)
    requires |texts| == |secs| && i < |secs|
    ensures (done + FromTexts(texts[i], secs[i], |done|)) + Number(secs, texts, i + 1, |done| + |texts[i]|)
            == done + Number(secs, texts, i, |done|)
  {
  }

  /** The loop shared by both paths: chunk each section, number the chunks as they are appended. */
  method PrepareSections(secs: seq<Section>, chunk: string -> seq<string>, reachable: seq<bool>)
    returns (r: Option<seq<Prepared>>)
    requires |reachable| == |secs|
    ensures r.Some? <==> forall i :: 0 <= i < |secs| ==> reachable[i]
    ensures r.Some? ==> r.value == Number(secs, SectionTexts(chunk, secs), 0, 0)
  {
    var chunks: seq<Prepared> := [];
    ghost var all := SectionTexts(chunk, secs);
    for i := 0 to |secs|
      invariant forall j :: 0 <= j < i ==> reachable[j]
      invariant chunks + Number(secs, all, i, |chunks|) == Number(secs, all, 0, 0)
    {
      if !reachable[i] { return None; }
      NumberStep(chunks, secs, all, i);
      var texts := chunk(secs[i].text);
      assert texts == all[i];
      chunks := AppendTexts(chunks, texts, secs[i]);
    }
    assert Number(secs, all, |secs|, |chunks|) == [] && chunks + [] == chunks;
    return Some(chunks);
  }

  /** `build_rag_chunks`; `None` stands for the ValueError. */
  method BuildRagChunks(secs: seq<Section>, size: int, overlap: int) returns (r: Option<seq<Prepared>>)
    ensures r == if ValidLimits(size, overlap) then Some(PreparedBy(Python, secs, size, overlap)) else None
  {
    if !ValidLimits(size, overlap) { return None; }
    r := PrepareSections(secs, Chunker(Python, size, overlap), seq(|secs|, _ => true));
  }

  predicate SidecarAnswers(secs: seq<Section>, size: int, overlap: int, reachable: seq<bool>)
    requires |reachable| == |secs|
  {
    secs == [] || (ValidLimits(size, overlap) && forall i :: 0 <= i < |secs| ==> reachable[i])
  }

  /** `build_rag_chunks_with_optional_text_tools`: any failure falls back to the local chunker. */
  method BuildWithOptionalTextTools(secs: seq<Section>, enabled: bool, size: int, overlap: int, reachable: seq<bool>)
    returns (r: Option<seq<Prepared>>)
    requires |reachable| == |secs|
    ensures enabled && SidecarAnswers(secs, size, overlap, reachable) ==>
      r == Some(if secs == [] then [] else PreparedBy(Rust, secs, size, overlap))
    ensures !(enabled && SidecarAnswers(secs, size, overlap, reachable)) ==>
      r == if ValidLimits(size, overlap) then Some(PreparedBy(Python, secs, size, overlap)) else None
  {
    if enabled {
      r := FromSidecar(secs, size, overlap, reachable);
      if r.Some? { return; }
    }
    r := BuildRagChunks(secs, size, overlap);
  }

  /** The sidecar path alone; `None` when a call fails, also because the sidecar refuses the limits. */
  method FromSidecar(secs: seq<Section>, size: int, overlap: int, reachable: seq<bool>)
    returns (r: Option<seq<Prepared>>)
    requires |reachable| == |secs|
    ensures r.Some? <==> SidecarAnswers(secs, size, overlap, reachable)
    ensures r.Some? ==> r.value == if secs == [] then [] else PreparedBy(Rust, secs, size, overlap)
  {
    if secs == [] { return Some([]); }
    if !ValidLimits(size, overlap) { return None; }
    r := PrepareSections(secs, Chunker(Rust, size, overlap), reachable);
  }

  /** So on plain ASCII documents it makes no difference which of the two prepared the chunks. */
  lemma SamePrepared(secs: seq<Section>, size: nat, overlap: nat)
    requires ValidLimits(size, overlap) && forall i :: 0 <= i < |secs| ==> Plain(secs[i].text)
    ensures PreparedBy(Rust, secs, size, overlap) == PreparedBy(Python, secs, size, overlap)
  {
    var rs := SectionTexts(Chunker(Rust, size, overlap), secs);
    var py := SectionTexts(Chunker(Python, size, overlap), secs);
    forall i | 0 <= i < |secs| ensures rs[i] == py[i] { ChunkersAgree(secs[i].text, size, overlap); }
    assert rs == py;
  }

  // ---- where the agreement ends -----------------------------------------------------

  lemma WordIsNormal(l: Lang, w: string)
    requires NoSpace(l, w) && w != ""
    ensures Normalize(l, w) == w
  {
    CollapseIsJoin(l, w);
    WordsOfWord(l, "", w);
    assert "" + w == w;
  }

  /** Sixty two-byte letters: one Python chunk, but more than a hundred bytes for Rust. */
  lemma NonAsciiDiffers()
    ensures var s := seq(60, _ => '\U{00E9}');
            Chunks(Python, s, 100, 0) == [s] && Chunks(Rust, s, 100, 0) != [s]
  {
    var s := seq(60, _ => '\U{00E9}');
    assert NoSpace(Rust, s) && NoSpace(Python, s);
    WordIsNormal(Rust, s);
    WordIsNormal(Python, s);
    TwoBytesEach(s, 60);
    ChunksAreGood(Rust, s, 100, 0);
    assert s !in Chunks(Rust, s, 100, 0) && s in [s];
  }

  lemma {:induction false} TwoBytesEach(s: string, k: nat)
    requires k <= |s| && forall i :: 0 <= i < |s| ==> s[i] == '\U{00E9}'
    ensures Off(s, k) == 2 * k
  {
    if k > 0 { TwoBytesEach(s, k - 1); }
  }

  /** A separator is a word character for Rust and a space for Python. */
  lemma SeparatorDiffers()
    ensures var s := "a\U{001C}b"; Chunks(Rust, s, 100, 0) == [s] && Chunks(Python, s, 100, 0) == ["a b"]
  {
    SeparatorForms();
    ShortIsOneChunk(Rust, "a\U{001C}b");
    ShortIsOneChunk(Python, "a\U{001C}b");
  }

  lemma ShortIsOneChunk(l: Lang, value: string)
    requires 0 < |Normalize(l, value)| <= 25
    ensures Chunks(l, value, 100, 0) == [Normalize(l, value)]
  {
    OffGrows(Normalize(l, value), 0, |Normalize(l, value)|);
  }

  lemma SeparatorForms()
    ensures var s := "a\U{001C}b"; Normalize(Rust, s) == s && Normalize(Python, s) == "a b"
  {
    var s := "a\U{001C}b";
    assert NoSpace(Rust, s);
    WordIsNormal(Rust, s);
    CollapseIsJoin(Python, s);
    assert s[1..] == "\U{001C}b" && s[1..][1..] == "b";
    assert WordsFrom(Python, "", s) == WordsFrom(Python, "a", s[1..]) by { assert "" + ['a'] == "a"; }
    WordsOfWord(Python, "", "b");
    assert "" + "b" == "b";
    assert Words(Python, s) == ["a"] + ["b"];
    JoinCons("a", ["b"]);
  }

  // ---- chunks may start at the same place -------------------------------------------

  lemma EndsEarly(s: string, a: nat, h: nat, pat: string, j: nat)
    requires a <= h <= |s| && MatchAt(s[a..h], pat, j) && pat != "" && IsSpace(Python, pat[|pat| - 1])
    requires forall x :: a + 2 <= x < h ==> !IsSpace(Python, s[x])
    ensures j + |pat| <= 2
  {
    var w := s[a..h];
    var e := j + |pat| - 1;
    assert w[j..j + |pat|][|pat| - 1] == w[e];
    assert w[e] == s[a + e];
  }

  /** No pattern occurs far enough into the window to end it early. */
  lemma {:induction false} NoPatternFits(s: string, a: nat, h: nat, ps: seq<string>)
    requires a <= h <= |s| && h - a >= 100
    requires forall i :: 0 <= i < |ps| ==> ps[i] != "" && IsSpace(Python, ps[i][|ps[i]| - 1]) && |ps[i]| <= 2
    requires forall x :: a + 2 <= x < h ==> !IsSpace(Python, s[x])
    ensures SplitAt(Python, s, a, h, ps) == h
  {
    if ps != [] {
      var r := RFind(s[a..h], ps[0]);
      if r.Some? { EndsEarly(s, a, h, ps[0], r.value); }
      NoPatternFits(s, a, h, ps[1..]);
    }
  }

  lemma FullWindow(s: string, a: nat)
    requires a + 100 < |s| && forall x :: a + 2 <= x < |s| ==> !IsSpace(Python, s[x])
    ensures WindowEnd(Python, s, a, 100) == a + 100
  {
    NoPatternFits(s, a, a + 100, Patterns());
  }

  lemma FirstWindows(s: string)
    requires |s| == 200 && forall x :: 2 <= x < |s| ==> !IsSpace(Python, s[x])
    ensures var ws := Windows(Python, s, 0, 100, 99); |ws| > 2 && ws[..3] == [(0, 100), (1, 101), (2, 102)]
  {
    FullWindow(s, 0);
    FullWindow(s, 1);
    FullWindow(s, 2);
    var w2 := Windows(Python, s, 2, 100, 99);
    var w1 := Windows(Python, s, 1, 100, 99);
    assert NextStart(Python, s, 0, 100, 99) == 1 && NextStart(Python, s, 1, 101, 99) == 2;
    assert w2[0] == (2, 102);
    assert w1 == [(1, 101)] + w2;
    assert Windows(Python, s, 0, 100, 99) == [(0, 100)] + w1;
  }

  lemma FirstCores(s: string, ws: seq<Span>)
    requires SpansIn(s, ws) && |s| == 200 && |ws| > 2 && ws[..3] == [(0, 100), (1, 101), (2, 102)]
    requires !IsSpace(Python, s[0]) && IsSpace(Python, s[1]) && forall x :: 2 <= x < |s| ==> !IsSpace(Python, s[x])
    ensures var cs := Cores(Python, s, ws); |cs| > 2 && cs[1] == (2, 101) && cs[2] == (2, 102)
  {
    assert ws[0] == ws[..3][0] && ws[1] == ws[..3][1] && ws[2] == ws[..3][2];
    var t1, t2 := ws[1..], ws[2..];
    assert t1[0] == ws[1] && t1[1..] == t2 && t2[0] == ws[2];
    assert SkipSpaces(Python, s, 1) == 2;
    assert Cores(Python, s, t2) == [(2, 102)] + Cores(Python, s, t2[1..]);
    assert Cores(Python, s, t1) == [(2, 101)] + Cores(Python, s, t2);
    assert Cores(Python, s, ws) == [(0, 100)] + Cores(Python, s, t1);
  }

  lemma TwoWordsAreNormal(v: string, w: string)
    requires v != "" && NoSpace(Python, v) && w != "" && NoSpace(Python, w)
    ensures Normalize(Python, v + " " + w) == v + " " + w
  {
    CollapseIsJoin(Python, v + " " + w);
    WordsAppend(Python, "", v, w);
    WordsOfWord(Python, "", v);
    WordsOfWord(Python, "", w);
    assert "" + v == v && "" + w == w;
    JoinCons(v, [w]);
  }

  /**
    A letter, a space and a word of 198: with the largest overlap the windows move on by one, and
    the one that starts with the space and the next give chunks with the same start.
   */
  lemma StartsCanCoincide(w: string)
    requires |w| == 198 && NoSpace(Python, w)
    ensures var ps := ChunkSpans(Python, "a" + " " + w, 100, 99); |ps| > 2 && ps[1] == (2, 101) && ps[2] == (2, 102)
  {
    var s := "a" + " " + w;
    assert !IsSpace(Python, 'a') && NoSpace(Python, "a");
    TwoWordsAreNormal("a", w);
    assert s[0] == 'a' && s[1] == ' ' && forall x :: 2 <= x < |s| ==> s[x] == w[x - 2];
    FirstWindows(s);
    WindowsTile(Python, s, 0, 100, 99);
    TilesSpansIn(Python, s, 0, 100, Windows(Python, s, 0, 100, 99));
    FirstCores(s, Windows(Python, s, 0, 100, 99));
  }
}
