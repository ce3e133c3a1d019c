/** What becomes of the text of the prepared chunks: nothing of it is lost on the way to the items. */
module EmbedCoverage {
  import opened Wrappers
  import opened Strings
  import opened Chunking
  import opened RagChunks
  import opened EmbedRetry
  import opened Letters

  // ---- preparing a document ---------------------------------------------------------

  /** These chunks are what became of one section. */
  ghost predicate Holds(l: Lang, ps: seq<Prepared>, sec: Section) {
    && Whole(l, sec.text, TextsOf(ps))
    && forall i :: 0 <= i < |ps| ==> ps[i].page == sec.page && ps[i].location == sec.location
  }

  /** The chunks are, section by section in order, what became of the sections. */
  ghost predicate Prepares(l: Lang, ps: seq<Prepared>, secs: seq<Section>)
    decreases |secs|
  {
    if secs == [] then ps == []
    else exists n :: 0 <= n <= |ps| && Holds(l, ps[..n], secs[0]) && Prepares(l, ps[n..], secs[1..])
  }

  lemma {:induction false} NumberPrepares(l: Lang, secs: seq<Section>, texts: seq<seq<string>>, i: nat, n: nat)
    requires |texts| == |secs| && i <= |secs|
    requires forall k :: 0 <= k < |secs| ==> Whole(l, secs[k].text, texts[k])
    ensures Prepares(l, Number(secs, texts, i, n), secs[i..])
    decreases |secs| - i
  {
    if i < |secs| {
      var own, others := FromTexts(texts[i], secs[i], n), Number(secs, texts, i + 1, n + |texts[i]|);
      NumberPrepares(l, secs, texts, i + 1, n + |texts[i]|);
      assert TextsOf(own) == texts[i];
      assert (own + others)[..|own|] == own && (own + others)[|own|..] == others;
      assert secs[i..][1..] == secs[i + 1..];
    }
  }

  /** Nothing of the sections is lost on the way to the prepared chunks. */
  lemma DocumentIsPrepared(l: Lang, secs: seq<Section>, size: nat, overlap: nat)
    requires ValidLimits(size, overlap)
    ensures Prepares(l, PreparedBy(l, secs, size, overlap), secs)
  {
    var texts := SectionTexts(Chunker(l, size, overlap), secs);
    forall k | 0 <= k < |secs| ensures Whole(l, secs[k].text, texts[k]) {
      ChunksAreWhole(l, secs[k].text, size, overlap);
    }
    NumberPrepares(l, secs, texts, 0, 0);
    assert secs[0..] == secs;
  }

  // ---- splitting a chunk for a retry ------------------------------------------------

  function TextsOf(ps: seq<Prepared>): (ts: seq<string>)
    ensures |ts| == |ps| && forall i :: 0 <= i < |ps| ==> ts[i] == ps[i].text
  {
    seq(|ps|, i requires 0 <= i < |ps| => ps[i].text)
  }

  /** The pieces make up the chunk, have at most half its length or a hundred characters, and are filed where it was. */
  ghost predicate Divides(p: Prepared, ps: seq<Prepared>) {
    && Whole(Python, p.text, TextsOf(ps))
    && forall i :: 0 <= i < |ps| ==>
         && ps[i].page == p.page && ps[i].location == p.location
         && |ps[i].text| <= if |p.text| < 200 then 100 else |p.text| / 2
  }

  lemma PiecesDivide(cfg: Settings, p: Prepared)
    requires RetryPieces(cfg, p).Some?
    ensures Divides(p, RetryPieces(cfg, p).value)
  {
    var size, overlap := SplitSize(cfg, p.text), SplitOverlap(cfg, p.text);
    ChunksAreWhole(Python, p.text, size, overlap);
    var cs := Chunks(Python, p.text, size, overlap);
    assert TextsOf(RetryPieces(cfg, p).value) == cs;
    ChunksAreGood(Python, p.text, size, overlap);
    forall i | 0 <= i < |cs| ensures |cs[i]| <= size {
      assert At(Python, Normalize(Python, p.text), size, cs[i], ChunkSpans(Python, p.text, size, overlap)[i]);
    }
  }

  /** The size of the pieces and their overlap: half the text, at least 100, and a tenth of that. */
  predicate RetryLimits(cfg: Settings, text: string, size: int, overlap: int) {
    && (if cfg.chunkSize < 100 || |text| < 200 then size == 100
        else if cfg.chunkSize < |text| / 2 then size == cfg.chunkSize
        else size == |text| / 2)
    && (if cfg.chunkOverlap < size / 10 then overlap == cfg.chunkOverlap else overlap == size / 10)
  }

  /** The pieces are cut as the chunker cuts, with these limits; there are none if they are no limits or do not help. */
  lemma PiecesAreCut(cfg: Settings, p: Prepared) returns (size: int, overlap: int)
    ensures RetryLimits(cfg, p.text, size, overlap)
    ensures RetryPieces(cfg, p).Some? <==>
              ValidLimits(size, overlap) && |Chunks(Python, p.text, size, overlap)| > 1
    ensures RetryPieces(cfg, p).Some? ==> TextsOf(RetryPieces(cfg, p).value) == Chunks(Python, p.text, size, overlap)
  {
    size, overlap := SplitSize(cfg, p.text), SplitOverlap(cfg, p.text);
  }

  // ---- and so on down to the items --------------------------------------------------

  function Shift(ps: seq<Span>, d: nat): (qs: seq<Span>)
    ensures |qs| == |ps| && forall i :: 0 <= i < |ps| ==> qs[i] == (ps[i].0 + d, ps[i].1 + d)
  {
    seq(|ps|, i requires 0 <= i < |ps| => (ps[i].0 + d, ps[i].1 + d))
  }

  lemma {:induction false} ShiftReaches(ps: seq<Span>, from: nat, d: nat, start: nat)
    requires NoGap(ps, from) && from + d <= start
    ensures NoGap(Shift(ps, d), start) && Reach(Shift(ps, d), start) == Further(start, Reach(ps, from) + d)
  {
    if ps != [] {
      assert Shift(ps, d)[1..] == Shift(ps[1..], d);
      ShiftReaches(ps[1..], Further(from, ps[0].1), d, Further(start, ps[0].1 + d));
      ReachGrows(ps[1..], Further(from, ps[0].1));
    }
  }

  lemma {:induction false} ReachGrows(ps: seq<Span>, from: nat)
    ensures from <= Reach(ps, from)
  {
    if ps != [] { ReachGrows(ps[1..], Further(from, ps[0].1)); }
  }

  lemma {:induction false} ReachAppend(a: seq<Span>, b: seq<Span>, from: nat)
    ensures Reach(a + b, from) == Reach(b, Reach(a, from))
    ensures NoGap(a + b, from) <==> NoGap(a, from) && NoGap(b, Reach(a, from))
  {
    if a == [] {
      assert a + b == b;
    } else {
      assert (a + b)[1..] == a[1..] + b;
      ReachAppend(a[1..], b, Further(from, a[0].1));
    }
  }

  /** Parts of a part are parts of the whole. */
  lemma PartsOfPart(letters: string, p: Span, pieces: seq<string>, ps: seq<Span>)
    requires p.0 <= p.1 <= |letters| && PartsAt(letters[p.0..p.1], pieces, ps)
    ensures PartsAt(letters, pieces, Shift(ps, p.0))
  {
    var qs := Shift(ps, p.0);
    forall i | 0 <= i < |qs| ensures qs[i].0 <= qs[i].1 <= |letters| && pieces[i] == letters[qs[i].0..qs[i].1] {
      SliceOfSlice(letters, p.0, p.1, ps[i].0, ps[i].1);
    }
  }

  /** The pieces make up the part at `p` and what is reached from `from` on. */
  ghost predicate Fills(letters: string, pieces: seq<string>, qs: seq<Span>, from: nat, to: nat) {
    PartsAt(letters, pieces, qs) && NoGap(qs, from) && Reach(qs, from) == to
  }

  lemma FillAppend(letters: string, a: seq<string>, ps: seq<Span>, b: seq<string>, qs: seq<Span>, from: nat, mid: nat,
                   to: nat)
    requires Fills(letters, a, ps, from, mid) && Fills(letters, b, qs, mid, to)
    ensures Fills(letters, a + b, ps + qs, from, to)
  {
    ReachAppend(ps, qs, from);
    PartsAppend(letters, a, ps, b, qs);
  }

  lemma PartsAppend(letters: string, a: seq<string>, ps: seq<Span>, b: seq<string>, qs: seq<Span>)
    requires PartsAt(letters, a, ps) && PartsAt(letters, b, qs)
    ensures PartsAt(letters, a + b, ps + qs)
  {
    forall i | 0 <= i < |ps + qs|
      ensures (ps + qs)[i].0 <= (ps + qs)[i].1 <= |letters|
      ensures (a + b)[i] == letters[(ps + qs)[i].0..(ps + qs)[i].1]
    {
      if i < |ps| { assert (ps + qs)[i] == ps[i]; } else { assert (ps + qs)[i] == qs[i - |ps|]; }
    }
  }

  /** The letters of prepared chunks. */
  function Pieces(ps: seq<Prepared>): (ls: seq<string>)
    ensures |ls| == |ps| && forall i :: 0 <= i < |ps| ==> ls[i] == LettersOf(Python, ps[i].text)
  {
    AllLetters(Python, TextsOf(ps))
  }

  lemma PiecesAppend(a: seq<Prepared>, b: seq<Prepared>)
    ensures Pieces(a + b) == Pieces(a) + Pieces(b)
  {
  }

  /** The leaves of a tree make up its root. */
  lemma {:induction false} LeavesAreWhole(cfg: Settings, t: Tree)
    requires Grown(SplitterOf(cfg), t)
    ensures Whole(Python, t.p.text, TextsOf(Leaves(t)))
    decreases t, 0
  {
    match t
    case Leaf(p) =>
      WholeItself(Python, p.text);
      assert TextsOf([p]) == [p.text];
    case Node(p, kids) =>
      PiecesDivide(cfg, p);
      var ps: seq<Span> :| MadeOf(Python, p.text, TextsOf(Roots(kids)), ps);
      var qs := KidsFill(cfg, LettersOf(Python, p.text), kids, ps, 0);
      assert MadeOf(Python, p.text, TextsOf(AllLeaves(kids)), qs);
  }

  lemma {:induction false} KidsFill(cfg: Settings, letters: string, ts: seq<Tree>, ps: seq<Span>, from: nat)
    returns (qs: seq<Span>)
    requires GrownAll(SplitterOf(cfg), ts) && PartsAt(letters, Pieces(Roots(ts)), ps) && NoGap(ps, from)
    ensures Fills(letters, Pieces(AllLeaves(ts)), qs, from, Reach(ps, from))
    decreases ts
  {
    if ts == [] {
      qs := [];
    } else {
      RootParts(letters, ts, ps);
      LeavesAreWhole(cfg, ts[0]);
      var own := LeavesAt(letters, ts[0], ps[0], from);
      var others := KidsFill(cfg, letters, ts[1..], ps[1..], Further(from, ps[0].1));
      qs := own + others;
      FillAppend(letters, Pieces(Leaves(ts[0])), own, Pieces(AllLeaves(ts[1..])), others, from,
                 Further(from, ps[0].1), Reach(ps, from));
      PiecesAppend(Leaves(ts[0]), AllLeaves(ts[1..]));
    }
  }

  lemma {:induction false} RootParts(letters: string, ts: seq<Tree>, ps: seq<Span>)
    requires ts != [] && PartsAt(letters, Pieces(Roots(ts)), ps)
    ensures ps != [] && ps[0].0 <= ps[0].1 <= |letters|
    ensures LettersOf(Python, ts[0].p.text) == letters[ps[0].0..ps[0].1]
    ensures PartsAt(letters, Pieces(Roots(ts[1..])), ps[1..])
  {
    PiecesAppend([ts[0].p], Roots(ts[1..]));
    assert Pieces([ts[0].p]) == [LettersOf(Python, ts[0].p.text)];
    PartsTail(letters, LettersOf(Python, ts[0].p.text), Pieces(Roots(ts[1..])), ps);
  }

  lemma PartsTail(letters: string, first: string, rest: seq<string>, ps: seq<Span>)
    requires PartsAt(letters, [first] + rest, ps)
    ensures ps != [] && ps[0].0 <= ps[0].1 <= |letters| && first == letters[ps[0].0..ps[0].1]
    ensures PartsAt(letters, rest, ps[1..])
  {
    assert ([first] + rest)[0] == first;
    forall i | 0 <= i < |rest|
      ensures ps[1..][i].0 <= ps[1..][i].1 <= |letters| && rest[i] == letters[ps[1..][i].0..ps[1..][i].1]
    {
      assert rest[i] == ([first] + rest)[i + 1] && ps[1..][i] == ps[i + 1];
    }
  }

  lemma LeavesAt(letters: string, t: Tree, p: Span, from: nat) returns (qs: seq<Span>)
    requires Whole(Python, t.p.text, TextsOf(Leaves(t)))
    requires p.0 <= p.1 <= |letters| && LettersOf(Python, t.p.text) == letters[p.0..p.1] && p.0 <= from
    ensures Fills(letters, Pieces(Leaves(t)), qs, from, Further(from, p.1))
  {
    var ps: seq<Span> :| MadeOf(Python, t.p.text, TextsOf(Leaves(t)), ps);
    qs := Shift(ps, p.0);
    PartsOfPart(letters, p, Pieces(Leaves(t)), ps);
    ShiftReaches(ps, 0, p.0, from);
  }

  // ---- all chunks -------------------------------------------------------------------

  function ItemTexts<V>(items: seq<Item<V>>): (ts: seq<string>)
    ensures |ts| == |items| && forall i :: 0 <= i < |items| ==> ts[i] == items[i].text
  {
    seq(|items|, i requires 0 <= i < |items| => items[i].text)
  }

  /** These items are what became of one prepared chunk. */
  ghost predicate StandFor<V>(items: seq<Item<V>>, p: Prepared) {
    && Whole(Python, p.text, ItemTexts(items))
    && forall i :: 0 <= i < |items| ==> items[i].page == p.page && items[i].location == p.location
  }

  /** The items are, chunk by chunk in document order, what became of the prepared chunks. */
  ghost predicate Embeds<V>(items: seq<Item<V>>, prepared: seq<Prepared>)
    decreases |prepared|
  {
    if prepared == [] then items == []
    else exists n :: 0 <= n <= |items| && StandFor(items[..n], prepared[0]) && Embeds(items[n..], prepared[1..])
  }

  lemma {:induction false} ForestEmbeds<V>(cfg: Settings, items: seq<Item<V>>, f: seq<Tree>)
    requires GrownAll(SplitterOf(cfg), f) && Carries(items, AllLeaves(f))
    ensures Embeds(items, Roots(f))
    decreases |f|
  {
    if f != [] {
      var n := |Leaves(f[0])|;
      CarriesSplits(items, Leaves(f[0]), AllLeaves(f[1..]));
      LeavesStandFor(cfg, items[..n], f[0]);
      ForestEmbeds(cfg, items[n..], f[1..]);
      assert Roots(f)[1..] == Roots(f[1..]);
    }
  }

  lemma CarriesSplits<V>(items: seq<Item<V>>, a: seq<Prepared>, b: seq<Prepared>)
    requires Carries(items, a + b)
    ensures Carries(items[..|a|], a) && Carries(items[|a|..], b)
  {
    forall i | 0 <= i < |b| ensures items[|a|..][i] == items[|a| + i] && (a + b)[|a| + i] == b[i] {}
    forall i | 0 <= i < |a| ensures items[..|a|][i] == items[i] && (a + b)[i] == a[i] {}
  }

  lemma LeavesStandFor<V>(cfg: Settings, items: seq<Item<V>>, t: Tree)
    requires Grown(SplitterOf(cfg), t) && Carries(items, Leaves(t))
    ensures StandFor(items, t.p)
  {
    LeavesAreWhole(cfg, t);
    LeavesInherit(cfg, t);
    assert ItemTexts(items) == TextsOf(Leaves(t));
    forall i | 0 <= i < |items| ensures items[i].page == t.p.page && items[i].location == t.p.location {
      assert Leaves(t)[i] in Leaves(t);
    }
  }

  /** The vector of an item is what the provider answered for its text. */
  ghost predicate Answered<V>(embed: (nat, string) -> Reply<V>, item: Item<V>) {
    exists n :: embed(n, item.text) == Vectors([item.vector])
  }

  lemma {:induction false} AllAnswered<V>(cfg: Settings, embed: (nat, string) -> Reply<V>, pending: seq<Prepared>,
                                          n: nat)
    requires EmbedAll(cfg, embed, pending, n).Some?
    ensures forall i :: 0 <= i < |EmbedAll(cfg, embed, pending, n).value| ==>
      Answered(embed, EmbedAll(cfg, embed, pending, n).value[i])
    decreases Load(pending)
  {
    if pending != [] {
      var p := pending[0];
      var reply := embed(n, p.text);
      if reply.Vectors? {
        AllAnswered(cfg, embed, pending[1..], n + 1);
        assert reply.vs == [reply.vs[0]];
        assert Answered(embed, Item(p.text, reply.vs[0], p.page, p.location));
      } else {
        SplitIsLighter(cfg, pending);
        AllAnswered(cfg, embed, RetryPieces(cfg, p).value + pending[1..], n + 1);
      }
    }
  }

  /** Only a text of more than a hundred characters that the provider calls too long is tried again in pieces. */
  lemma OtherFailuresAreFinal<V>(cfg: Settings, embed: (nat, string) -> Reply<V>, pending: seq<Prepared>, n: nat)
    requires pending != [] && embed(n, pending[0].text).Failed?
    requires var m := Lower(embed(n, pending[0].text).message);
             |pending[0].text| <= 100
             || !(Contains(m, "context length") || Contains(m, "input length") || Contains(m, "too long"))
    ensures EmbedAll(cfg, embed, pending, n).None?
  {
  }

  /** On success nothing of the prepared chunks is lost: their items make them up, in document order. */
  lemma NothingIsLost<V>(cfg: Settings, embed: (nat, string) -> Reply<V>, prepared: seq<Prepared>)
    requires EmbedAll(cfg, embed, prepared, 0).Some?
    ensures Embeds(EmbedAll(cfg, embed, prepared, 0).value, prepared)
  {
    var f := ResultIsAForest(cfg, embed, prepared, 0);
    ForestEmbeds(cfg, EmbedAll(cfg, embed, prepared, 0).value, f);
  }

  /**
    `_embed_prepared_chunks`.  The loop ends whatever the provider answers, and on success the
    chunks are numbered 0, 1, 2, ...
   */
  method EmbedPreparedChunks<V>(cfg: Settings, embed: (nat, string) -> Reply<V>, prepared: seq<Prepared>)
    returns (r: Option<seq<VectorChunk<V>>>)
    ensures r.Some? <==> EmbedAll(cfg, embed, prepared, 0).Some?
    ensures r.Some? ==> ItemsOf(r.value) == EmbedAll(cfg, embed, prepared, 0).value
    ensures r.Some? ==> forall i :: 0 <= i < |r.value| ==> r.value[i].index == i && Answered(embed, r.value[i].item)
    ensures r.Some? ==> Embeds(ItemsOf(r.value), prepared)
  {
    var chunks: seq<VectorChunk<V>> := [];
    var pending := prepared;
    var calls := 0;
    RemainsAll(EmbedAll(cfg, embed, prepared, 0));
    while pending != []
      invariant forall i :: 0 <= i < |chunks| ==> chunks[i].index == i
      invariant Remains(ItemsOf(chunks), EmbedAll(cfg, embed, pending, calls)) == EmbedAll(cfg, embed, prepared, 0)
      decreases Load(pending)
    {
      var p := pending[0];
      var reply := embed(calls, p.text);
      calls := calls + 1;
      if reply.Failed? {
        if !ShouldSplit(reply.message, p.text) { return None; }
        var pieces := RetryPieces(cfg, p);
        if pieces.None? { return None; }
        SplitIsLighter(cfg, pending);
        pending := pieces.value + pending[1..];
      } else {
        if |reply.vs| != 1 { return None; }
        var item := Item(p.text, reply.vs[0], p.page, p.location);
        RemainsCons(ItemsOf(chunks), item, EmbedAll(cfg, embed, pending[1..], calls));
        assert ItemsOf(chunks + [VectorChunk(item, |chunks|)]) == ItemsOf(chunks) + [item];
        chunks := chunks + [VectorChunk(item, |chunks|)];
        pending := pending[1..];
      }
    }
    RemainsNothing(ItemsOf(chunks));
    NothingIsLost(cfg, embed, prepared);
    AllAnswered(cfg, embed, prepared, 0);
    return Some(chunks);
  }

  lemma RemainsNothing<V>(done: seq<Item<V>>)
    ensures Remains(done, Some([])) == Some(done)
  {
    assert done + [] == done;
  }
}
