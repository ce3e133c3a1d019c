/** The overlapping artifact chunker, and source links that must point at the text they quote. */
module Provenance {
  import opened Wrappers
  import opened Strings
  import opened ContextModels

  function Min(a: int, b: int): int { if a <= b then a else b }

  // ---- the chunker ------------------------------------------------------------------

  datatype Chunker = Chunker(size: int, overlap: int) {
    /** What the constructor demands. */
    predicate Valid() { 1 <= size && 0 <= overlap < size }

    function Advance(): (d: nat)
      requires Valid()
    {
      size - overlap
    }

    function Start(i: nat): (p: nat)
      requires Valid()
    {
      i * Advance()
    }
  }

  /** How many chunks a text of length `n` has. */
  function Count(c: Chunker, n: nat): (m: nat)
    requires c.Valid()
  {
    if n == 0 then 0
    else if n <= c.size then 1
    else 1 + (n - c.size + c.Advance() - 1) / c.Advance()
  }

  function Span(text: string, p: nat, q: nat): (s: string)
    requires p <= q <= |text|
  {
    text[p..q]
  }

  /** The chunk that starts at `p`, with its source link. */
  function ChunkFrom(c: Chunker, a: Artifact, i: nat, p: nat, id: string): (r: ArtifactChunk)
    requires c.Valid() && p <= |a.text|
  {
    var end := Min(|a.text|, p + c.size);
    var text := Span(a.text, p, end);
    ArtifactChunk(id, a.id, i, text, p, end, SourceLink(a.id, id, p, end, "", text[..Min(|text|, 240)]))
  }

  /** The number of the last chunk is the first `i` whose window reaches the end. */
  lemma CountIs(c: Chunker, n: nat, i: nat)
    requires c.Valid() && n > 0
    requires n <= c.Start(i) + c.size
    requires i > 0 ==> c.Start(i - 1) + c.size < n
    ensures Count(c, n) == i + 1
  {
    var d := c.Advance();
    if i > 0 {
      assert c.Start(i) == c.Start(i - 1) + d;
      assert n > c.size by { assert c.Start(i - 1) >= 0; }
      Quotient(n - c.size + d - 1, d, i);
    } else {
      assert c.Start(0) == 0;
    }
  }

  lemma Quotient(x: int, d: nat, i: nat)
    requires d > 0 && i * d <= x < i * d + d
    ensures x / d == i
  {
    var q := x / d;
    assert x == q * d + x % d;
    MulOrder(q, i + 1, d);
    MulOrder(i, q + 1, d);
  }

  lemma MulOrder(a: int, b: int, d: nat)
    requires a * d < b * d
    ensures a < b
  {
    assert (b - a) * d > 0;
  }

  lemma StartNext(c: Chunker, i: nat)
    requires c.Valid()
    ensures c.Start(0) == 0 && c.Start(i + 1) == c.Start(i) + c.Advance()
  {
  }

  /** What a chunk list of an artifact looks like. */
  ghost predicate ChunksOf(c: Chunker, a: Artifact, ids: nat -> string, cs: seq<ArtifactChunk>)
    requires c.Valid()
  {
    && |cs| == Count(c, |a.text|)
    && forall i :: 0 <= i < |cs| ==> c.Start(i) < |a.text| && cs[i] == ChunkFrom(c, a, i, c.Start(i), ids(i))
  }

  method ChunkArtifact(c: Chunker, a: Artifact, ids: nat -> string) returns (cs: seq<ArtifactChunk>)
    requires c.Valid()
    ensures ChunksOf(c, a, ids, cs)
  {
    cs := [];
    var n := |a.text|;
    if n == 0 { return; }
    var start, i := 0, 0;
    StartNext(c, 0);
    while start < n
      invariant i == |cs| && start == c.Start(i) < n
      invariant i > 0 ==> c.Start(i - 1) + c.size < n
      invariant forall j :: 0 <= j < i ==> c.Start(j) < n && cs[j] == ChunkFrom(c, a, j, c.Start(j), ids(j))
      decreases n - start
    {
      var end := Min(n, start + c.size);
      cs := cs + [ChunkFrom(c, a, i, start, ids(i))];
      if end == n {
        CountIs(c, n, i);
        break;
      }
      StartNext(c, i);
      start := end - c.overlap;
      i := i + 1;
    }
  }

  // ---- the chunks give the text back ------------------------------------------------

  lemma Reaches(c: Chunker, n: nat, i: nat)
    requires c.Valid() && n > 0 && i < Count(c, n)
    ensures i > 0 ==> c.Start(i - 1) + c.size < n
    ensures (i == Count(c, n) - 1) <==> n <= c.Start(i) + c.size
  {
    if n > c.size {
      var d := c.Advance();
      var x := n - c.size + d - 1;
      var q := x / d;
      assert x == q * d + x % d;
      assert i * d <= q * d;
      if i > 0 { assert (i - 1) * d == i * d - d; }
      if i < q { assert (i + 1) * d <= q * d; assert (i + 1) * d == i * d + d; }
    } else {
      assert c.Start(0) == 0;
    }
  }

  /** The first chunk, then of each later chunk what follows its overlap. */
  function Glue(overlap: nat, texts: seq<string>): (s: string) {
    if texts == [] then ""
    else if |texts| == 1 then texts[0]
    else Glue(overlap, texts[..|texts| - 1]) + texts[|texts| - 1][Min(overlap, |texts[|texts| - 1]|)..]
  }

  function Texts(cs: seq<ArtifactChunk>): (ts: seq<string>) { seq(|cs|, i requires 0 <= i < |cs| => cs[i].text) }

  lemma ChunkFacts(c: Chunker, a: Artifact, ids: nat -> string, cs: seq<ArtifactChunk>, i: nat)
    requires c.Valid() && ChunksOf(c, a, ids, cs) && i < |cs|
    ensures cs[i].artifactId == a.id && cs[i].start <= cs[i].end <= |a.text|
            && cs[i].text == a.text[cs[i].start..cs[i].end]
    ensures cs[0].start == 0
  {
    StartNext(c, 0);
  }

  /** A chunk's own link points at the chunk's span and quotes its beginning, at most 240 characters of it. */
  lemma ChunkLinksQuote(c: Chunker, a: Artifact, ids: nat -> string, cs: seq<ArtifactChunk>, i: nat)
    requires c.Valid() && ChunksOf(c, a, ids, cs) && i < |cs|
    ensures var l := cs[i].link;
            && l.artifactId == a.id && l.chunkId == cs[i].id == ids(i) && cs[i].index == i
            && l.start < l.end <= |a.text| && a.text[l.start..l.end] == cs[i].text
            && l.excerpt <= cs[i].text && (|l.excerpt| == 240 || l.excerpt == cs[i].text)
  {
    ChunkFacts(c, a, ids, cs, i);
  }

  /** Each later chunk starts `overlap` before the previous one ends, and goes on beyond it. */
  lemma Adjacent(c: Chunker, a: Artifact, ids: nat -> string, cs: seq<ArtifactChunk>, i: nat)
    requires c.Valid() && ChunksOf(c, a, ids, cs) && 1 <= i < |cs|
    ensures cs[i].start + c.overlap == cs[i - 1].end && c.overlap < |cs[i].text|
  {
    Reaches(c, |a.text|, i);
    StartNext(c, i - 1);
  }

  lemma GlueStep(overlap: nat, ts: seq<string>, m: nat)
    requires 1 < m <= |ts| && overlap <= |ts[m - 1]|
    ensures Glue(overlap, ts[..m]) == Glue(overlap, ts[..m - 1]) + ts[m - 1][overlap..]
  {
    assert ts[..m][..m - 1] == ts[..m - 1];
  }

  lemma Joins(text: string, start: nat, overlap: nat, end: nat)
    requires start + overlap <= end <= |text|
    ensures text[..start + overlap] + text[start..end][overlap..] == text[..end]
  {
    SliceOfSlice(text, start, end, overlap, end - start);
  }

  /** Spans of the text, the first at its start, each later one going back by the overlap. */
  ghost predicate Chain(text: string, overlap: nat, cs: seq<ArtifactChunk>) {
    && (forall i :: 0 <= i < |cs| ==> cs[i].start <= cs[i].end <= |text| && cs[i].text == text[cs[i].start..cs[i].end])
    && (cs != [] ==> cs[0].start == 0)
    && (forall i :: 1 <= i < |cs| ==> cs[i].start + overlap == cs[i - 1].end && overlap < |cs[i].text|)
  }

  lemma ChunksAreAChain(c: Chunker, a: Artifact, ids: nat -> string, cs: seq<ArtifactChunk>)
    requires c.Valid() && ChunksOf(c, a, ids, cs)
    ensures Chain(a.text, c.overlap, cs)
  {
    forall i | 0 <= i < |cs|
      ensures cs[i].start <= cs[i].end <= |a.text| && cs[i].text == a.text[cs[i].start..cs[i].end] && cs[0].start == 0
    {
      ChunkFacts(c, a, ids, cs, i);
    }
    forall i | 1 <= i < |cs| ensures cs[i].start + c.overlap == cs[i - 1].end && c.overlap < |cs[i].text| {
      Adjacent(c, a, ids, cs, i);
    }
  }

  lemma {:induction false} GluedPrefix(text: string, overlap: nat, cs: seq<ArtifactChunk>, m: nat)
    requires Chain(text, overlap, cs) && 1 <= m <= |cs|
    ensures Glue(overlap, Texts(cs)[..m]) == text[..cs[m - 1].end]
    decreases m
  {
    if m > 1 {
      GluedPrefix(text, overlap, cs, m - 1);
      GlueStep(overlap, Texts(cs), m);
      Joins(text, cs[m - 1].start, overlap, cs[m - 1].end);
    } else {
      GlueFirst(overlap, Texts(cs));
    }
  }

  lemma GlueFirst(overlap: nat, ts: seq<string>)
    requires ts != []
    ensures Glue(overlap, ts[..1]) == ts[0]
  {
  }

  /** Dropping the overlap of every later chunk gives the artifact's text back. */
  lemma ChunksRebuildText(c: Chunker, a: Artifact, ids: nat -> string, cs: seq<ArtifactChunk>)
    requires c.Valid() && ChunksOf(c, a, ids, cs)
    ensures Chain(a.text, c.overlap, cs) && Glue(c.overlap, Texts(cs)) == a.text
  {
    ChunksAreAChain(c, a, ids, cs);
    if a.text != "" {
      LastReachesTheEnd(c, a, ids, cs);
      GluedPrefix(a.text, c.overlap, cs, |cs|);
      assert Texts(cs)[..|cs|] == Texts(cs);
    }
  }

  lemma LastReachesTheEnd(c: Chunker, a: Artifact, ids: nat -> string, cs: seq<ArtifactChunk>)
    requires c.Valid() && ChunksOf(c, a, ids, cs) && a.text != ""
    ensures cs != [] && cs[|cs| - 1].end == |a.text|
  {
    Reaches(c, |a.text|, |cs| - 1);
  }

  // ---- what the overlap is for ------------------------------------------------------

  /** Some chunk holds the `w` characters from `p` on. */
  predicate Inside(cs: seq<ArtifactChunk>, p: nat, w: nat) {
    exists i :: 0 <= i < |cs| && cs[i].start <= p && p + w <= cs[i].end
  }

  lemma {:induction false} ShortSpanInside(c: Chunker, a: Artifact, ids: nat -> string, cs: seq<ArtifactChunk>,
                                           p: nat, w: nat, i: nat)
    requires c.Valid() && ChunksOf(c, a, ids, cs) && p + w <= |a.text| && w <= c.overlap + 1
    requires i < |cs| && c.Start(i) <= p
    ensures Inside(cs, p, w)
    decreases |cs| - i
  {
    if p + w > cs[i].end {
      Reaches(c, |a.text|, i);
      StartNext(c, i);
      ShortSpanInside(c, a, ids, cs, p, w, i + 1);
    }
  }

  /**
    Every span of `w` characters lies inside some chunk exactly when `w` is at most one more than
    the overlap, or there is one chunk.
   */
  lemma OverlapKeepsSpans(c: Chunker, a: Artifact, ids: nat -> string, cs: seq<ArtifactChunk>, w: nat)
    requires c.Valid() && ChunksOf(c, a, ids, cs) && 0 < w <= |a.text|
    ensures (forall p: nat :: p + w <= |a.text| ==> Inside(cs, p, w)) <==> (w <= c.overlap + 1 || |a.text| <= c.size)
  {
    var n := |a.text|;
    StartNext(c, 0);
    if w <= c.overlap + 1 {
      forall p: nat | p + w <= n ensures Inside(cs, p, w) { ShortSpanInside(c, a, ids, cs, p, w, 0); }
    } else if n <= c.size {
      assert cs[0].start == 0 && cs[0].end == n;
    } else {
      var p := Min(c.Advance() - 1, n - w);
      forall i | 0 <= i < |cs| ensures !(cs[i].start <= p && p + w <= cs[i].end) {
        if i > 0 { LaterStarts(c, i); }
      }
      assert !Inside(cs, p, w);
    }
  }

  lemma LaterStarts(c: Chunker, i: nat)
    requires c.Valid() && i > 0
    ensures c.Start(i) >= c.Advance()
  {
    assert i * c.Advance() >= 1 * c.Advance();
  }

  // ---- keyword links ----------------------------------------------------------------

  datatype ExtractedValue = ExtractedValue(value: string, link: SourceLink)

  /** A search for a keyword in a text: the span of the first match. */
  type Search = (string, string) -> Option<(nat, nat)>

  ghost predicate SpansAreReal(search: Search) {
    forall keyword, text :: search(keyword, text).Some? ==>
      search(keyword, text).value.0 <= search(keyword, text).value.1 <= |text|
  }

  function LinkTo(ch: ArtifactChunk, span: (nat, nat), heading: string): (l: SourceLink)
    requires span.0 <= span.1 <= |ch.text|
  {
    SourceLink(ch.artifactId, ch.id, ch.start + span.0, ch.start + span.1, heading, ch.text[span.0..span.1])
  }

  /** `v` cites the first chunk that mentions its keyword. */
  ghost predicate Cites(search: Search, cs: seq<ArtifactChunk>, heading: string, v: ExtractedValue)
    requires SpansAreReal(search)
  {
    exists i :: 0 <= i < |cs| && CitesAt(search, cs, heading, v, i)
  }

  ghost predicate CitesAt(search: Search, cs: seq<ArtifactChunk>, heading: string, v: ExtractedValue, i: int)
    requires SpansAreReal(search) && 0 <= i < |cs|
  {
    && search(v.value, cs[i].text).Some?
    && v.link == LinkTo(cs[i], search(v.value, cs[i].text).value, heading)
    && NoneBefore(search, cs, v.value, i)
  }

  ghost predicate NoneBefore(search: Search, cs: seq<ArtifactChunk>, keyword: string, i: nat) {
    forall j :: 0 <= j < i && j < |cs| ==> search(keyword, cs[j].text).None?
  }

  /**
    One value per keyword up to case, for exactly the keywords that some chunk mentions, each
    citing its first mention.
   */
  ghost predicate KeywordsFound(search: Search, fold: string -> string, cs: seq<ArtifactChunk>, keywords: seq<string>,
                                heading: string, vs: seq<ExtractedValue>)
    requires SpansAreReal(search)
  {
    && (forall v :: v in vs ==> v.value in keywords && Cites(search, cs, heading, v))
    && (forall i, j :: 0 <= i < j < |vs| ==> fold(vs[i].value) != fold(vs[j].value))
    && (forall k :: k in keywords && !NoneBefore(search, cs, k, |cs|) ==>
          exists v :: v in vs && fold(v.value) == fold(k))
  }

  method KeywordValues(search: Search, fold: string -> string, cs: seq<ArtifactChunk>, keywords: seq<string>,
                       heading: string)
    returns (vs: seq<ExtractedValue>)
    requires SpansAreReal(search)
    ensures KeywordsFound(search, fold, cs, keywords, heading, vs)
  {
    vs := [];
    var seen: set<string> := {};
    for n := 0 to |keywords|
      invariant KeywordsFound(search, fold, cs, keywords[..n], heading, vs)
      invariant forall f :: f in seen <==> exists v :: v in vs && fold(v.value) == f
    {
      var k := keywords[n];
      assert keywords[..n + 1] == keywords[..n] + [k];
      ghost var before := vs;
      var i := 0;
      while i < |cs|
        invariant 0 <= i <= |cs| && vs == before
        invariant NoneBefore(search, cs, k, i) || fold(k) in seen
      {
        var m := search(k, cs[i].text);
        if m.None? || fold(k) in seen {
          i := i + 1;
          continue;
        }
        seen := seen + {fold(k)};
        var v := ExtractedValue(k, LinkTo(cs[i], m.value, heading));
        assert CitesAt(search, cs, heading, v, i);
        vs := vs + [v];
        break;
      }
      Extended(search, fold, cs, keywords[..n], k, heading, before, vs);
    }
    assert keywords[..|keywords|] == keywords;
  }

  lemma Extended(search: Search, fold: string -> string, cs: seq<ArtifactChunk>, ks: seq<string>, k: string,
                 heading: string, before: seq<ExtractedValue>, vs: seq<ExtractedValue>)
    requires SpansAreReal(search) && KeywordsFound(search, fold, cs, ks, heading, before)
    requires vs == before || (|vs| > 0 && vs[..|vs| - 1] == before && vs[|vs| - 1].value == k
                              && Cites(search, cs, heading, vs[|vs| - 1])
                              && forall v :: v in before ==> fold(v.value) != fold(k))
    requires vs == before ==> NoneBefore(search, cs, k, |cs|) || exists v :: v in before && fold(v.value) == fold(k)
    ensures KeywordsFound(search, fold, cs, ks + [k], heading, vs)
  {
    if vs != before {
      var v := vs[|vs| - 1];
      assert vs == before + [v] && v in vs;
      forall k2 | k2 in ks + [k] && !NoneBefore(search, cs, k2, |cs|)
        ensures exists w :: w in vs && fold(w.value) == fold(k2)
      {
        if k2 in ks {
          var w :| w in before && fold(w.value) == fold(k2);
          assert w in vs;
        }
      }
    }
  }

  /** Every keyword link over an artifact's chunks quotes exactly the span of that artifact it points at. */
  lemma LinksQuoteTheText(c: Chunker, a: Artifact, ids: nat -> string, cs: seq<ArtifactChunk>,
                          search: Search, fold: string -> string, keywords: seq<string>, heading: string,
                          vs: seq<ExtractedValue>, n: nat)
    requires c.Valid() && ChunksOf(c, a, ids, cs) && SpansAreReal(search) && n < |vs|
    requires KeywordsFound(search, fold, cs, keywords, heading, vs)
    ensures var l := vs[n].link;
            l.artifactId == a.id && l.start <= l.end <= |a.text| && a.text[l.start..l.end] == l.excerpt
  {
    var v := vs[n];
    assert v in vs;
    var i :| 0 <= i < |cs| && CitesAt(search, cs, heading, v, i);
    ChunkFacts(c, a, ids, cs, i);
    LinkQuotes(a, cs[i], search(v.value, cs[i].text).value, heading);
  }

  /** A link to a span of a chunk quotes that span of the artifact. */
  lemma LinkQuotes(a: Artifact, ch: ArtifactChunk, m: (nat, nat), heading: string)
    requires ch.artifactId == a.id && ch.start <= ch.end <= |a.text| && ch.text == a.text[ch.start..ch.end]
    requires m.0 <= m.1 <= |ch.text|
    ensures var l := LinkTo(ch, m, heading);
            l.artifactId == a.id && l.start <= l.end <= |a.text| && a.text[l.start..l.end] == l.excerpt
  {
    SliceOfSlice(a.text, ch.start, ch.end, m.0, m.1);
  }

  // ---- links for a matched line -----------------------------------------------------

  /** `source_for_match`; `None` is the error raised when there is no chunk at all. */
  method SourceForMatch(cs: seq<ArtifactChunk>, matched: string, heading: string) returns (l: Option<SourceLink>)
    ensures l.None? <==> cs == []
    ensures l.Some? && Mentions(cs, Trim(Python, matched)) ==> MatchLink(cs, Trim(Python, matched), heading, l.value)
    ensures l.Some? && !Mentions(cs, Trim(Python, matched)) ==>
              l.value == Broad(cs[0].link, Trim(Python, matched), heading)
  {
    var needle := Trim(Python, matched);
    for i := 0 to |cs|
      invariant forall j :: 0 <= j < i ==> Find(Lower(cs[j].text), Lower(needle)).None?
    {
      var found := Find(Lower(cs[i].text), Lower(needle));
      if found.Some? {
        var start := cs[i].start + found.value;
        var link := SourceLink(cs[i].artifactId, cs[i].id, start, start + |needle|, heading,
                               needle[..Min(|needle|, 500)]);
        assert MatchLinkAt(cs, needle, heading, link, i);
        return Some(link);
      }
    }
    if cs == [] { return None; }
    l := Some(Broad(cs[0].link, needle, heading));
  }

  predicate Mentions(cs: seq<ArtifactChunk>, needle: string) {
    exists i :: 0 <= i < |cs| && Find(Lower(cs[i].text), Lower(needle)).Some?
  }

  function Broad(l: SourceLink, needle: string, heading: string): (r: SourceLink) {
    l.(heading := if heading != "" then heading else l.heading,
       excerpt := if needle != "" then needle[..Min(|needle|, 500)] else l.excerpt)
  }

  /** The broad link keeps the span of the chunk, and quotes the line or at least its first 500 characters. */
  lemma BroadKeepsTheSpan(l: SourceLink, needle: string, heading: string)
    ensures var r := Broad(l, needle, heading);
            && r.artifactId == l.artifactId && r.chunkId == l.chunkId && r.start == l.start && r.end == l.end
            && r.heading == (if heading != "" then heading else l.heading)
            && (needle == "" ==> r.excerpt == l.excerpt)
            && (needle != "" ==> r.excerpt <= needle && (r.excerpt == needle || |r.excerpt| == 500))
  {
  }

  ghost predicate MatchOf(ch: ArtifactChunk, needle: string, heading: string, l: SourceLink) {
    var at := Find(Lower(ch.text), Lower(needle));
    && at.Some?
    && l == SourceLink(ch.artifactId, ch.id, ch.start + at.value, ch.start + at.value + |needle|, heading,
                       needle[..Min(|needle|, 500)])
  }

  ghost predicate MatchLinkAt(cs: seq<ArtifactChunk>, needle: string, heading: string, l: SourceLink, i: int)
    requires 0 <= i < |cs|
  {
    MatchOf(cs[i], needle, heading, l)
    && forall j :: 0 <= j < i ==> Find(Lower(cs[j].text), Lower(needle)).None?
  }

  ghost predicate MatchLink(cs: seq<ArtifactChunk>, needle: string, heading: string, l: SourceLink) {
    exists i :: 0 <= i < |cs| && MatchLinkAt(cs, needle, heading, l, i)
  }

  lemma LowerOfSlice(s: string, p: nat, q: nat)
    requires p <= q <= |s|
    ensures Lower(s)[p..q] == Lower(s[p..q])
  {
  }

  lemma FoundUpToCase(text: string, p: nat, q: nat, needle: string)
    requires p <= q <= |text| && Find(Lower(text[p..q]), Lower(needle)).Some?
    ensures var at := Find(Lower(text[p..q]), Lower(needle)).value;
            p + at + |needle| <= q && Lower(text[p + at..p + at + |needle|]) == Lower(needle)
  {
    var at := Find(Lower(text[p..q]), Lower(needle)).value;
    LowerOfSlice(text[p..q], at, at + |needle|);
    SliceOfSlice(text, p, q, at, at + |needle|);
  }

  /** A matched line's link spans text that equals the line up to case. */
  lemma MatchSpansTheLine(c: Chunker, a: Artifact, ids: nat -> string, cs: seq<ArtifactChunk>, needle: string,
                          heading: string, l: SourceLink)
    requires c.Valid() && ChunksOf(c, a, ids, cs) && MatchLink(cs, needle, heading, l)
    ensures l.artifactId == a.id && l.start <= l.end <= |a.text| && Lower(a.text[l.start..l.end]) == Lower(needle)
  {
    var i :| 0 <= i < |cs| && MatchLinkAt(cs, needle, heading, l, i);
    ChunkFacts(c, a, ids, cs, i);
    MatchOfSpans(a, cs[i], needle, heading, l);
  }

  lemma MatchOfSpans(a: Artifact, ch: ArtifactChunk, needle: string, heading: string, l: SourceLink)
    requires ch.start <= ch.end <= |a.text| && ch.text == a.text[ch.start..ch.end] && MatchOf(ch, needle, heading, l)
    ensures l.start <= l.end <= |a.text| && Lower(a.text[l.start..l.end]) == Lower(needle)
  {
    FoundUpToCase(a.text, ch.start, ch.end, needle);
  }
}
