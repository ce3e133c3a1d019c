/** Embedding chunks one at a time, splitting those the provider finds too long. */
module EmbedRetry {
  import opened Wrappers
  import opened Strings
  import opened Chunking
  import opened RagChunks

  datatype Reply<V> = Vectors(vs: seq<V>) | Failed(message: string)
  datatype Item<V> = Item(text: string, vector: V, page: Option<nat>, location: Option<string>)
  datatype VectorChunk<V> = VectorChunk(item: Item<V>, index: nat)
  datatype Settings = Settings(chunkSize: int, chunkOverlap: int)

  predicate SaysTooLong(message: string) {
    var m := Lower(message);
    Contains(m, "context length") || Contains(m, "input length") || Contains(m, "too long")
  }

  predicate ShouldSplit(message: string, text: string) { |text| > 100 && SaysTooLong(message) }

  function Min(a: int, b: int): int { if a < b then a else b }
  function Max(a: int, b: int): int { if a < b then b else a }

  function SplitSize(cfg: Settings, text: string): (n: int) { Max(100, Min(cfg.chunkSize, |text| / 2)) }
  function SplitOverlap(cfg: Settings, text: string): (n: int) {
    Min(cfg.chunkOverlap, Max(0, SplitSize(cfg, text) / 10))
  }

  /** `_split_prepared_chunk_for_retry`; `None` when it raises. */
  function RetryPieces(cfg: Settings, p: Prepared): (r: Option<seq<Prepared>>) {
    var size, overlap := SplitSize(cfg, p.text), SplitOverlap(cfg, p.text);
    if !ValidLimits(size, overlap) then None else
      var texts := Chunks(Python, p.text, size, overlap);
      if |texts| <= 1 then None
      else Some(seq(|texts|, i requires 0 <= i < |texts| => p.(text := texts[i])))
  }

  // ---- why it ends ------------------------------------------------------------------

  lemma {:induction false} CollapseShrinks(l: Lang, after: bool, s: string)
    ensures |Collapse(l, after, s)| <= |s|
    decreases |s|
  {
    if s != "" { CollapseShrinks(l, true, s[1..]); CollapseShrinks(l, false, s[1..]); }
  }

  lemma NormalizeShrinks(s: string)
    ensures |Normalize(Python, s)| <= |s|
  {
    CollapseShrinks(Python, false, s);
    var a, b := TrimCuts(Python, Collapse(Python, false, s));
  }

  lemma {:induction false} FewWindows(l: Lang, s: string, a: nat, size: nat, overlap: nat)
    requires a < |s| && size >= 100
    ensures |Windows(l, s, a, size, overlap)| <= |s| - a
    decreases |s| - a
  {
    WindowIsSound(l, s, a, size);
    var e := WindowEnd(l, s, a, size);
    NextIsSound(l, s, a, e, overlap);
    if e < |s| { FewWindows(l, s, NextStart(l, s, a, e, overlap), size, overlap); }
  }

  lemma FewTexts(text: string, size: nat, overlap: nat)
    requires ValidLimits(size, overlap) && text != ""
    ensures |Chunks(Python, text, size, overlap)| <= |text|
  {
    var s := Normalize(Python, text);
    NormalizeShrinks(text);
    if |s| > size {
      WindowsTile(Python, s, 0, size, overlap);
      FewWindows(Python, s, 0, size, overlap);
      TilesSpansIn(Python, s, 0, size, Windows(Python, s, 0, size, overlap));
      PiecesAreAt(Python, s, Windows(Python, s, 0, size, overlap), size);
    }
  }

  lemma TextsAreSmaller(text: string, size: nat, overlap: nat, i: nat)
    requires ValidLimits(size, overlap) && size < |text| && i < |Chunks(Python, text, size, overlap)|
    ensures 0 < |Chunks(Python, text, size, overlap)[i]| < |text|
  {
    ChunksAreGood(Python, text, size, overlap);
    assert At(Python, Normalize(Python, text), size, Chunks(Python, text, size, overlap)[i],
              ChunkSpans(Python, text, size, overlap)[i]);
  }

  /** Each piece is strictly shorter than what was split, and there are no more pieces than characters. */
  lemma PiecesAreSmaller(cfg: Settings, p: Prepared)
    requires |p.text| > 100 && RetryPieces(cfg, p).Some?
    ensures var ps := RetryPieces(cfg, p).value;
            && 1 < |ps| <= |p.text|
            && forall i :: 0 <= i < |ps| ==> 0 < |ps[i].text| < |p.text|
  {
    var size, overlap := SplitSize(cfg, p.text), SplitOverlap(cfg, p.text);
    FewTexts(p.text, size, overlap);
    var ps := RetryPieces(cfg, p).value;
    forall i | 0 <= i < |ps| ensures 0 < |ps[i].text| < |p.text| { TextsAreSmaller(p.text, size, overlap, i); }
  }

  /** Heavy enough to outweigh any split of a text of n characters. */
  ghost function Weight(n: nat): (w: nat)
    ensures w >= 1
  {
    if n == 0 then 1 else 1 + n * Weight(n - 1)
  }

  ghost function Load(ps: seq<Prepared>): (w: nat) {
    if ps == [] then 0 else Weight(|ps[0].text|) + Load(ps[1..])
  }

  lemma {:induction false} WeightGrows(m: nat, n: nat)
    requires m <= n
    ensures Weight(m) <= Weight(n)
  {
    if m < n {
      WeightGrows(m, n - 1);
      assert n * Weight(n - 1) >= Weight(n - 1) by { Times(n, Weight(n - 1)); }
    }
  }

  lemma Times(n: nat, w: nat)
    requires n >= 1
    ensures n * w >= w
  {
  }

  lemma {:induction false} LoadAppend(a: seq<Prepared>, b: seq<Prepared>)
    ensures Load(a + b) == Load(a) + Load(b)
  {
    if a == [] {
      assert a + b == b;
    } else {
      assert (a + b)[1..] == a[1..] + b;
      LoadAppend(a[1..], b);
    }
  }

  lemma {:induction false} LoadBound(ps: seq<Prepared>, n: nat)
    requires forall i :: 0 <= i < |ps| ==> |ps[i].text| <= n
    ensures Load(ps) <= |ps| * Weight(n)
  {
    if ps != [] {
      WeightGrows(|ps[0].text|, n);
      LoadBound(ps[1..], n);
      assert |ps| * Weight(n) == Weight(n) + (|ps| - 1) * Weight(n);
    }
  }

  /** Replacing a text by its pieces makes the worklist lighter. */
  lemma SplitIsLighter(cfg: Settings, pending: seq<Prepared>)
    requires pending != [] && |pending[0].text| > 100 && RetryPieces(cfg, pending[0]).Some?
    ensures Load(RetryPieces(cfg, pending[0]).value + pending[1..]) < Load(pending)
  {
    var p := pending[0];
    var ps := RetryPieces(cfg, p).value;
    var n := |p.text|;
    PiecesAreSmaller(cfg, p);
    LoadBound(ps, n - 1);
    LoadAppend(ps, pending[1..]);
    assert |ps| * Weight(n - 1) <= n * Weight(n - 1) by { MulMono(|ps|, n, Weight(n - 1)); }
  }

  lemma MulMono(a: nat, b: nat, w: nat)
    requires a <= b
    ensures a * w <= b * w
  {
  }

  // ---- the worklist -----------------------------------------------------------------

  /** What the worklist yields from the n-th provider call on; `None` when it raises. */
  ghost function EmbedAll<V>(cfg: Settings, embed: (nat, string) -> Reply<V>, pending: seq<Prepared>, n: nat)
    : (r: Option<seq<Item<V>>>)
    decreases Load(pending)
  {
    if pending == [] then Some([])
    else
      var p := pending[0];
      match embed(n, p.text)
      case Vectors(vs) =>
        if |vs| != 1 then None
        else Remains([Item(p.text, vs[0], p.page, p.location)], EmbedAll(cfg, embed, pending[1..], n + 1))
      case Failed(message) =>
        if !ShouldSplit(message, p.text) || RetryPieces(cfg, p).None? then None
        else
          SplitIsLighter(cfg, pending);
          EmbedAll(cfg, embed, RetryPieces(cfg, p).value + pending[1..], n + 1)
  }

  function ItemsOf<V>(cs: seq<VectorChunk<V>>): (items: seq<Item<V>>)
    ensures |items| == |cs| && forall i :: 0 <= i < |cs| ==> items[i] == cs[i].item
  {
    seq(|cs|, i requires 0 <= i < |cs| => cs[i].item)
  }

  ghost function Remains<V>(done: seq<Item<V>>, rest: Option<seq<Item<V>>>): Option<seq<Item<V>>> {
    match rest case None => None case Some(items) => Some(done + items)
  }

  lemma RemainsAll<V>(rest: Option<seq<Item<V>>>)
    ensures Remains([], rest) == rest
  {
    if rest.Some? { assert [] + rest.value == rest.value; }
  }

  lemma RemainsCons<V>(done: seq<Item<V>>, item: Item<V>, rest: Option<seq<Item<V>>>)
    ensures Remains(done, Remains([item], rest)) == Remains(done + [item], rest)
  {
    if rest.Some? { assert done + ([item] + rest.value) == (done + [item]) + rest.value; }
  }

  // ---- what comes out ---------------------------------------------------------------

  /** How a prepared chunk was taken apart: not at all, or into its retry pieces, each in turn. */
  datatype Tree = Leaf(p: Prepared) | Node(p: Prepared, kids: seq<Tree>)

  type Splitter = Prepared -> Option<seq<Prepared>>

  function SplitterOf(cfg: Settings): (split: Splitter) { p => RetryPieces(cfg, p) }

  ghost predicate Grown(split: Splitter, t: Tree)
    decreases t, 0
  {
    match t
    case Leaf(_) => true
    case Node(p, kids) => |p.text| > 100 && split(p) == Some(Roots(kids)) && GrownAll(split, kids)
  }

  ghost predicate GrownAll(split: Splitter, ts: seq<Tree>)
    decreases ts
  {
    ts == [] || (Grown(split, ts[0]) && GrownAll(split, ts[1..]))
  }

  function Roots(ts: seq<Tree>): (ps: seq<Prepared>) { if ts == [] then [] else [ts[0].p] + Roots(ts[1..]) }

  function Leaves(t: Tree): (ps: seq<Prepared>)
    decreases t, 0
  {
    match t case Leaf(p) => [p] case Node(_, kids) => AllLeaves(kids)
  }

  function AllLeaves(ts: seq<Tree>): (ps: seq<Prepared>)
    decreases ts
  {
    if ts == [] then [] else Leaves(ts[0]) + AllLeaves(ts[1..])
  }

  lemma {:induction false} RootsAppend(a: seq<Tree>, b: seq<Tree>)
    ensures Roots(a + b) == Roots(a) + Roots(b)
    decreases |a|
  {
    if a == [] {
      assert a + b == b;
    } else {
      assert (a + b)[0] == a[0] && (a + b)[1..] == a[1..] + b;
      RootsAppend(a[1..], b);
    }
  }

  lemma {:induction false} LeavesAppend(a: seq<Tree>, b: seq<Tree>)
    ensures AllLeaves(a + b) == AllLeaves(a) + AllLeaves(b)
    decreases |a|
  {
    if a == [] {
      assert a + b == b;
    } else {
      var t, rest := a[0], a[1..];
      assert a + b == [t] + (rest + b);
      LeavesAppend(rest, b);
      AllLeavesCons(t, rest + b);
      AllLeavesCons(t, rest);
      assert a == [t] + rest;
    }
  }

  lemma AllLeavesCons(t: Tree, ts: seq<Tree>)
    ensures AllLeaves([t] + ts) == Leaves(t) + AllLeaves(ts)
  {
    assert ([t] + ts)[1..] == ts;
  }

  lemma {:induction false} GrownAppend(split: Splitter, a: seq<Tree>, b: seq<Tree>)
    ensures GrownAll(split, a + b) <==> GrownAll(split, a) && GrownAll(split, b)
    decreases |a|
  {
    if a == [] {
      assert a + b == b;
    } else {
      var t, rest := a[0], a[1..];
      assert a + b == [t] + (rest + b);
      GrownAppend(split, rest, b);
      GrownCons(split, t, rest + b);
      GrownCons(split, t, rest);
      assert a == [t] + rest;
    }
  }

  lemma GrownCons(split: Splitter, t: Tree, ts: seq<Tree>)
    ensures GrownAll(split, [t] + ts) <==> Grown(split, t) && GrownAll(split, ts)
  {
    assert ([t] + ts)[1..] == ts;
  }

  ghost predicate Carries<V>(items: seq<Item<V>>, leaves: seq<Prepared>) {
    && |items| == |leaves|
    && forall i :: 0 <= i < |items| ==>
         items[i].text == leaves[i].text && items[i].page == leaves[i].page && items[i].location == leaves[i].location
  }

  lemma FoldPieces(split: Splitter, p: Prepared, ps: seq<Prepared>, rest: seq<Prepared>, g: seq<Tree>)
    returns (f: seq<Tree>)
    requires |p.text| > 100 && split(p) == Some(ps)
    requires GrownAll(split, g) && Roots(g) == ps + rest
    ensures GrownAll(split, f) && Roots(f) == [p] + rest && AllLeaves(f) == AllLeaves(g)
  {
    var k := |ps|;
    RootsLength(g);
    var kids, tail := g[..k], g[k..];
    assert g == kids + tail;
    RootsAppend(kids, tail);
    LeavesAppend(kids, tail);
    GrownAppend(split, kids, tail);
    RootsLength(kids);
    assert Roots(g)[..k] == ps && Roots(g)[k..] == rest;
    var top := Node(p, kids);
    f := [top] + tail;
    AllLeavesCons(top, tail);
    GrownCons(split, top, tail);
    assert f[1..] == tail;
  }

  lemma {:induction false} RootsLength(ts: seq<Tree>)
    ensures |Roots(ts)| == |ts|
  {
    if ts != [] { RootsLength(ts[1..]); }
  }

  /**
    On success the result is a forest over the prepared chunks, in document order: each chunk
    contributes its leaves, left to right, with its own page and location.
   */
  lemma {:induction false} ResultIsAForest<V>(cfg: Settings, embed: (nat, string) -> Reply<V>, pending: seq<Prepared>,
                                              n: nat)
    returns (f: seq<Tree>)
    requires EmbedAll(cfg, embed, pending, n).Some?
    ensures GrownAll(SplitterOf(cfg), f) && Roots(f) == pending
    ensures Carries(EmbedAll(cfg, embed, pending, n).value, AllLeaves(f))
    decreases Load(pending)
  {
    if pending == [] {
      f := [];
    } else {
      var p := pending[0];
      if embed(n, p.text).Vectors? {
        var g := ResultIsAForest(cfg, embed, pending[1..], n + 1);
        f := [Leaf(p)] + g;
        assert f[1..] == g;
      } else {
        SplitIsLighter(cfg, pending);
        var ps := RetryPieces(cfg, p).value;
        var g := ResultIsAForest(cfg, embed, ps + pending[1..], n + 1);
        f := FoldPieces(SplitterOf(cfg), p, ps, pending[1..], g);
      }
    }
  }

  /** Every leaf keeps the page and location of the chunk it came from, and its text is no longer. */
  lemma {:induction false} LeavesInherit(cfg: Settings, t: Tree)
    requires Grown(SplitterOf(cfg), t)
    ensures forall q :: q in Leaves(t) ==> q.page == t.p.page && q.location == t.p.location && |q.text| <= |t.p.text|
    decreases t, 0
  {
    if t.Node? {
      PiecesAreSmaller(cfg, t.p);
      KidsInherit(cfg, t.p, t.kids);
    }
  }

  lemma {:induction false} KidsInherit(cfg: Settings, p: Prepared, ts: seq<Tree>)
    requires GrownAll(SplitterOf(cfg), ts)
    requires forall q :: q in Roots(ts) ==> q.page == p.page && q.location == p.location && |q.text| <= |p.text|
    ensures forall q :: q in AllLeaves(ts) ==> q.page == p.page && q.location == p.location && |q.text| <= |p.text|
    decreases ts
  {
    if ts != [] {
      assert ts[0].p in Roots(ts);
      LeavesInherit(cfg, ts[0]);
      KidsInherit(cfg, p, ts[1..]);
    }
  }
}
