/** What an ingestion adds to the context of each owner, and what a whole run adds up to. */
module ContextGrowth {
  import opened Strings
  import opened ContextModels
  import opened ContextEngine

  // ---- what the claims rest on ------------------------------------------------------

  ghost predicate DistinctIds(fs: seq<Fact>) { forall i, j :: 0 <= i < j < |fs| ==> fs[i].id != fs[j].id }

  ghost predicate DistinctChunks(cs: seq<ArtifactChunk>) { forall i, j :: 0 <= i < j < |cs| ==> cs[i].id != cs[j].id }

  /** Ids are fresh UUIDs, also among each other. */
  ghost predicate Distinct(e: Event) {
    e.IngestArtifact? ==>
      && DistinctChunks(e.chunks) && DistinctIds(e.derived.entities) && DistinctIds(e.derived.relationships)
      && DistinctIds(e.derived.signals) && DistinctIds(e.derived.items)
  }

  /** Every stored chunk is a chunk of a stored artifact. */
  ghost predicate ChunksKnown(s: Repo) { forall i :: 0 <= i < |s.chunks| ==> s.chunks[i].artifactId in s.artifacts }

  /** An artifact of a registered type with something in its text. */
  predicate Acceptable(e: Event) {
    e.IngestArtifact? && e.typeKnown && exists i :: 0 <= i < |e.artifact.text| && !IsSpace(Python, e.artifact.text[i])
  }

  lemma AcceptsExactly(e: Event)
    ensures Accepts(e) <==> Acceptable(e)
  {
    if e.IngestArtifact? {
      var text := e.artifact.text;
      var a, b := TrimCuts(Python, text);
      if Trim(Python, text) != "" { assert !IsSpace(Python, text[a]); }
    }
  }

  /** Anything else is refused and changes nothing. */
  lemma OthersAreRefused(reg: Registry, s: Repo, e: Event)
    requires Valid(s) && e.IngestArtifact? && !Acceptable(e)
    ensures Step(reg, s, e) == (s, Failed)
  {
    AcceptsExactly(e);
  }

  // ---- what belongs to whom ---------------------------------------------------------

  /** The first source link of the fact names a stored artifact. */
  predicate Linked(artifacts: map<string, Artifact>, f: Fact) { f.links != [] && f.links[0].artifactId in artifacts }

  /** That artifact is one of the owner's. */
  predicate Cites(artifacts: map<string, Artifact>, f: Fact, k: Key) {
    Linked(artifacts, f) && artifacts[f.links[0].artifactId].key == k
  }

  /** The facts up to the first that is not linked. */
  function Storable(artifacts: map<string, Artifact>, fs: seq<Fact>): (r: seq<Fact>)
    ensures r <= fs && (r == fs <==> forall i :: 0 <= i < |fs| ==> Linked(artifacts, fs[i]))
  {
    if fs == [] || !Linked(artifacts, fs[0]) then [] else [fs[0]] + Storable(artifacts, fs[1..])
  }

  /** The facts of that owner, in order. */
  function OfOwner(artifacts: map<string, Artifact>, fs: seq<Fact>, k: Key): (r: seq<Fact>) {
    if fs == [] then [] else (if Cites(artifacts, fs[0], k) then [fs[0]] else []) + OfOwner(artifacts, fs[1..], k)
  }

  // ---- tables -----------------------------------------------------------------------

  /** What a table shows an owner. */
  ghost function Listed(t: Table, k: Key): (fs: seq<Fact>)
    requires TableValid(t)
  {
    assert Known(t.rows, IdsOf(t.index, k));
    Rows(t.rows, IdsOf(t.index, k))
  }

  lemma PushLists(t: Table, owner: Key, f: Fact, k: Key)
    requires TableValid(t) && f.id !in t.rows
    ensures var r := Table(t.rows[f.id := f], PushId(t.index, owner, f.id));
            TableValid(r) && Listed(r, k) == Listed(t, k) + (if k == owner then [f] else [])
  {
    PushKeepsValid(t, f, owner);
    assert Known(t.rows, IdsOf(t.index, k));
  }

  lemma FreshTail(f: Fact, fs: seq<Fact>, rows: map<string, Fact>)
    requires FreshIds([f] + fs, rows) && DistinctIds([f] + fs)
    ensures f.id !in rows && FreshIds(fs, rows[f.id := f]) && DistinctIds(fs)
  {
    var all := [f] + fs;
    assert all[0] == f;
    forall i | 0 <= i < |fs| ensures fs[i].id !in rows[f.id := f] { assert fs[i] == all[i + 1]; }
    forall i, j | 0 <= i < j < |fs| ensures fs[i].id != fs[j].id { assert fs[i] == all[i + 1] && fs[j] == all[j + 1]; }
  }

  /** Entities and relationships: what could be stored is listed for the owner of the artifact it cites. */
  lemma {:induction false} LinkedLists(t: Table, artifacts: map<string, Artifact>, fs: seq<Fact>, k: Key)
    requires TableValid(t) && FreshIds(fs, t.rows) && DistinctIds(fs)
    ensures var (r, ok) := StoreLinked(t, artifacts, fs);
            && TableValid(r) && (ok <==> Storable(artifacts, fs) == fs)
            && Listed(r, k) == Listed(t, k) + OfOwner(artifacts, Storable(artifacts, fs), k)
    decreases |fs|
  {
    if fs == [] || !Linked(artifacts, fs[0]) {
      assert Listed(t, k) + [] == Listed(t, k);
    } else {
      var f, rest := fs[0], fs[1..];
      assert fs == [f] + rest;
      var owner := artifacts[f.links[0].artifactId].key;
      var t1 := Table(t.rows[f.id := f], PushId(t.index, owner, f.id));
      FreshTail(f, rest, t.rows);
      PushLists(t, owner, f, k);
      LinkedLists(t1, artifacts, rest, k);
      OneMoreListed(artifacts, f, rest, k, Listed(t, k));
    }
  }

  lemma {:induction false} OneMoreListed(artifacts: map<string, Artifact>, f: Fact, rest: seq<Fact>, k: Key,
                                         before: seq<Fact>)
    requires Linked(artifacts, f)
    ensures var fs := [f] + rest;
            && (Storable(artifacts, fs) == fs <==> Storable(artifacts, rest) == rest)
            && before + OfOwner(artifacts, Storable(artifacts, fs), k) ==
               before + (if Cites(artifacts, f, k) then [f] else []) + OfOwner(artifacts, Storable(artifacts, rest), k)
  {
    StorableCons(artifacts, f, rest);
    OfOwnerCons(artifacts, f, Storable(artifacts, rest), k);
    Regroup(before, if Cites(artifacts, f, k) then [f] else [], OfOwner(artifacts, Storable(artifacts, rest), k));
  }

  lemma Regroup<T>(a: seq<T>, b: seq<T>, c: seq<T>)
    ensures a + (b + c) == a + b + c
  {
  }

  lemma {:induction false} StorableCons(artifacts: map<string, Artifact>, f: Fact, rest: seq<Fact>)
    requires Linked(artifacts, f)
    ensures Storable(artifacts, [f] + rest) == [f] + Storable(artifacts, rest)
    ensures Storable(artifacts, [f] + rest) == [f] + rest <==> Storable(artifacts, rest) == rest
  {
    assert ([f] + rest)[1..] == rest;
    assert ([f] + Storable(artifacts, rest))[1..] == Storable(artifacts, rest);
  }

  lemma {:induction false} OfOwnerCons(artifacts: map<string, Artifact>, f: Fact, rest: seq<Fact>, k: Key)
    ensures OfOwner(artifacts, [f] + rest, k) ==
            (if Cites(artifacts, f, k) then [f] else []) + OfOwner(artifacts, rest, k)
  {
    assert ([f] + rest)[1..] == rest;
  }

  lemma {:induction false} RowsAreStored(base: map<string, Fact>, rows: map<string, Fact>,
                                         artifacts: map<string, Artifact>, fs: seq<Fact>)
    requires FreshIds(fs, rows) && DistinctIds(fs) && Extends(base, rows)
    ensures var (r, ok) := StoreRows(rows, artifacts, fs);
            && Extends(rows, r) && Extends(base, r) && (ok <==> Storable(artifacts, fs) == fs)
            && (ok ==> forall i :: 0 <= i < |fs| ==> fs[i].id in r && r[fs[i].id] == fs[i])
    decreases |fs|
  {
    if fs != [] && Linked(artifacts, fs[0]) {
      var f, rest := fs[0], fs[1..];
      assert fs == [f] + rest;
      FreshTail(f, rest, rows);
      RowsAreStored(base, rows[f.id := f], artifacts, rest);
      var (r, ok) := StoreRows(rows, artifacts, fs);
      assert Storable(artifacts, fs)[1..] == Storable(artifacts, rest);
      forall i | ok && 0 <= i < |fs| ensures fs[i].id in r && r[fs[i].id] == fs[i] {
        if i > 0 { assert fs[i] == rest[i - 1]; }
      }
    }
  }

  lemma {:induction false} PushIdsAppends(index: map<Key, seq<string>>, k: Key, fs: seq<Fact>, x: Key)
    ensures var ids := IdsOf(PushIds(index, k, fs), x);
            if x != k then ids == IdsOf(index, x)
            else |ids| == |IdsOf(index, k)| + |fs| && IdsOf(index, k) <= ids
                 && forall i :: 0 <= i < |fs| ==> ids[|IdsOf(index, k)| + i] == fs[i].id
    decreases |fs|
  {
    if fs != [] {
      var next := PushId(index, k, fs[0].id);
      PushIdsAppends(next, k, fs[1..], x);
      if x == k {
        var ids := IdsOf(PushIds(index, k, fs), x);
        assert IdsOf(next, k) == IdsOf(index, k) + [fs[0].id];
        forall i | 0 <= i < |fs| ensures ids[|IdsOf(index, k)| + i] == fs[i].id {
          if i == 0 { assert ids[|IdsOf(index, k)|] == IdsOf(next, k)[|IdsOf(index, k)|]; }
          else { assert fs[i] == fs[1..][i - 1]; }
        }
      }
    }
  }

  /** Signals and items: all or none, for the owner who ingests. */
  lemma IndexedLists(t: Table, artifacts: map<string, Artifact>, fs: seq<Fact>, owner: Key, k: Key)
    requires TableValid(t) && FreshIds(fs, t.rows) && DistinctIds(fs)
    ensures var (rows, ok) := StoreRows(t.rows, artifacts, fs);
            && (ok <==> Storable(artifacts, fs) == fs)
            && TableValid(Table(rows, t.index)) && Listed(Table(rows, t.index), k) == Listed(t, k)
            && (ok ==> TableValid(Indexed(t, rows, owner, fs))
                       && Listed(Indexed(t, rows, owner, fs), k) == Listed(t, k) + (if k == owner then fs else []))
  {
    var (rows, ok) := StoreRows(t.rows, artifacts, fs);
    RowsAreStored(t.rows, t.rows, artifacts, fs);
    IndexedFrame(t, artifacts, fs, owner);
    assert Known(t.rows, IdsOf(t.index, k));
    SameRows(t.rows, rows, IdsOf(t.index, k));
    if ok { OwnLists(t, rows, owner, fs, k); }
  }

  lemma OwnLists(t: Table, rows: map<string, Fact>, owner: Key, fs: seq<Fact>, k: Key)
    requires TableValid(t) && Extends(t.rows, rows) && TableValid(Indexed(t, rows, owner, fs))
    requires forall i :: 0 <= i < |fs| ==> fs[i].id in rows && rows[fs[i].id] == fs[i]
    ensures Listed(Indexed(t, rows, owner, fs), k) == Listed(t, k) + (if k == owner then fs else [])
  {
    PushIdsAppends(t.index, owner, fs, k);
    var before, after := IdsOf(t.index, k), IdsOf(PushIds(t.index, owner, fs), k);
    assert Known(t.rows, before) && Known(rows, after);
    var all := Listed(t, k) + (if k == owner then fs else []);
    forall i | 0 <= i < |after| ensures rows[after[i]] == all[i] {
      if i < |before| {
        assert after[i] == before[i];
      } else {
        assert after[|before| + (i - |before|)] == fs[i - |before|].id;
      }
    }
  }

  // ---- artifacts and chunks ---------------------------------------------------------

  lemma {:induction false} UpsertNew(cs: seq<ArtifactChunk>, c: ArtifactChunk)
    requires forall i :: 0 <= i < |cs| ==> cs[i].id != c.id
    ensures Upsert(cs, c) == cs + [c]
  {
    if cs != [] { UpsertNew(cs[1..], c); }
  }

  lemma {:induction false} UpsertAllNew(cs: seq<ArtifactChunk>, news: seq<ArtifactChunk>)
    requires DistinctChunks(news)
    requires forall i, j :: 0 <= i < |news| && 0 <= j < |cs| ==> news[i].id != cs[j].id
    ensures UpsertAll(cs, news) == cs + news
    decreases |news|
  {
    if news == [] {
      assert cs + news == cs;
    } else {
      UpsertNew(cs, news[0]);
      forall i, j | 0 <= i < |news[1..]| && 0 <= j < |cs + [news[0]]|
        ensures news[1..][i].id != (cs + [news[0]])[j].id
      {
        assert news[1..][i] == news[i + 1];
      }
      UpsertAllNew(cs + [news[0]], news[1..]);
      assert cs + [news[0]] + news[1..] == cs + news;
    }
  }

  lemma {:induction false} ChunksForAppend(a: seq<ArtifactChunk>, b: seq<ArtifactChunk>, ids: seq<string>)
    ensures ChunksFor(a + b, ids) == ChunksFor(a, ids) + ChunksFor(b, ids)
  {
    if a == [] {
      assert a + b == b;
    } else {
      assert (a + b)[0] == a[0] && (a + b)[1..] == a[1..] + b;
      ChunksForAppend(a[1..], b, ids);
      Regroup(if a[0].artifactId in ids then [a[0]] else [], ChunksFor(a[1..], ids), ChunksFor(b, ids));
    }
  }

  lemma {:induction false} ChunksForIs(cs: seq<ArtifactChunk>, id: string, ids: seq<string>)
    requires forall i :: 0 <= i < |cs| ==> cs[i].artifactId == id
    ensures ChunksFor(cs, ids) == if id in ids then cs else []
  {
    if cs != [] { ChunksForIs(cs[1..], id, ids); }
  }

  /** An artifact nothing refers to makes no difference to what is shown. */
  lemma {:induction false} ChunksForOneMore(cs: seq<ArtifactChunk>, id: string, ids: seq<string>)
    requires forall i :: 0 <= i < |cs| ==> cs[i].artifactId != id
    ensures ChunksFor(cs, ids + [id]) == ChunksFor(cs, ids)
  {
    if cs != [] { ChunksForOneMore(cs[1..], id, ids); }
  }

  lemma ChunksGrow(s: Repo, e: Event, k: Key)
    requires ChunksKnown(s) && Fresh(s, e) && Distinct(e) && e.IngestArtifact? && Valid(s)
    ensures var a := e.artifact;
            ChunksFor(UpsertAll(s.chunks, e.chunks), IdsOf(PushId(s.artifactIndex, a.key, a.id), k)) ==
            ChunksFor(s.chunks, IdsOf(s.artifactIndex, k)) + (if k == a.key then e.chunks else [])
  {
    var a, ids := e.artifact, IdsOf(s.artifactIndex, k);
    assert Known(s.artifacts, ids) && a.id !in ids;
    UpsertAllNew(s.chunks, e.chunks);
    var after := IdsOf(PushId(s.artifactIndex, a.key, a.id), k);
    ChunksForAppend(s.chunks, e.chunks, after);
    ChunksForIs(e.chunks, a.id, after);
    ChunksForOneMore(s.chunks, a.id, ids);
  }

  // ---- the context of every owner after an ingestion --------------------------------

  /** `c` with more at the end of each list. */
  function Plus(c: Context, artifacts: seq<Artifact>, chunks: seq<ArtifactChunk>, d: Derived): (r: Context) {
    Context(c.key, c.artifacts + artifacts, c.chunks + chunks, c.entities + d.entities,
            c.relationships + d.relationships, c.signals + d.signals, c.items + d.items)
  }

  /** Every fact can be linked. */
  predicate AllLinked(artifacts: map<string, Artifact>, d: Derived) {
    && Storable(artifacts, d.entities) == d.entities && Storable(artifacts, d.relationships) == d.relationships
    && Storable(artifacts, d.signals) == d.signals && Storable(artifacts, d.items) == d.items
  }

  /** What owner `k` gets of the derived facts. */
  function Share(artifacts: map<string, Artifact>, e: Event, k: Key): (d: Derived)
    requires e.IngestArtifact?
  {
    var d := e.derived;
    var es := Storable(artifacts, d.entities);
    var rs := if es == d.entities then Storable(artifacts, d.relationships) else [];
    var mine := k == e.artifact.key && AllLinked(artifacts, d);
    Derived(OfOwner(artifacts, es, k), OfOwner(artifacts, rs, k), if mine then d.signals else [],
            if mine then d.items else [])
  }

  lemma IngestLists(s: Repo, e: Event, k: Key)
    requires Valid(s) && Fresh(s, e) && Distinct(e) && e.IngestArtifact?
    ensures var artifacts := s.artifacts[e.artifact.id := e.artifact];
            var (r, ok) := Ingest(s, e.artifact, e.chunks, e.derived);
            var d := Share(artifacts, e, k);
            && Valid(r) && (ok <==> AllLinked(artifacts, e.derived))
            && Listed(r.entities, k) == Listed(s.entities, k) + d.entities
            && Listed(r.relationships, k) == Listed(s.relationships, k) + d.relationships
            && Listed(r.signals, k) == Listed(s.signals, k) + d.signals
            && Listed(r.items, k) == Listed(s.items, k) + d.items
  {
    var a, d := e.artifact, e.derived;
    var artifacts := s.artifacts[a.id := a];
    IngestValid(s, e);
    LinkedLists(s.entities, artifacts, d.entities, k);
    LinkedLists(s.relationships, artifacts, d.relationships, k);
    IndexedLists(s.signals, artifacts, d.signals, a.key, k);
    IndexedLists(s.items, artifacts, d.items, a.key, k);
  }

  /**
    An accepted ingestion with fresh ids appends the artifact and its chunks to the context of its own
    owner, every entity and relationship that could be stored to the context of the owner it cites, and,
    if all links are good, the signals and items to the context of its own owner; each in order.
   */
  lemma IngestAppends(reg: Registry, s: Repo, e: Event, k: Key)
    requires Valid(s) && ChunksKnown(s) && Fresh(s, e) && Distinct(e) && Acceptable(e)
    ensures var artifacts := s.artifacts[e.artifact.id := e.artifact];
            var (r, served) := Step(reg, s, e);
            && Valid(r) && ChunksKnown(r) && r.views == s.views
            && (served == Nothing <==> AllLinked(artifacts, e.derived))
            && ContextOf(r, k) == Plus(ContextOf(s, k), if k == e.artifact.key then [e.artifact] else [],
                                       if k == e.artifact.key then e.chunks else [], Share(artifacts, e, k))
  {
    AcceptsExactly(e);
    IngestLists(s, e, k);
    IngestKnows(s, e, k);
  }

  lemma IngestKnows(s: Repo, e: Event, k: Key)
    requires Valid(s) && ChunksKnown(s) && Fresh(s, e) && Distinct(e) && e.IngestArtifact?
    ensures var r := Ingest(s, e.artifact, e.chunks, e.derived).0;
            && Valid(r) && ChunksKnown(r) && r.views == s.views
            && ContextOf(r, k).artifacts ==
               ContextOf(s, k).artifacts + (if k == e.artifact.key then [e.artifact] else [])
            && ContextOf(r, k).chunks == ContextOf(s, k).chunks + (if k == e.artifact.key then e.chunks else [])
  {
    IngestTables(s, e);
    IngestValid(s, e);
    ChunksGrow(s, e, k);
    ArtifactsGrow(s.artifacts, s.artifactIndex, e.artifact, k);
    ChunksStayKnown(s, e);
  }

  lemma ArtifactsGrow(artifacts: map<string, Artifact>, index: map<Key, seq<string>>, a: Artifact, k: Key)
    requires AllKnown(artifacts, index) && a.id !in artifacts
    ensures var after := IdsOf(PushId(index, a.key, a.id), k);
            && Known(artifacts, IdsOf(index, k)) && Known(artifacts[a.id := a], after)
            && Rows(artifacts[a.id := a], after) ==
               Rows(artifacts, IdsOf(index, k)) + (if k == a.key then [a] else [])
  {
    assert Known(artifacts, IdsOf(index, k));
  }

  lemma ChunksStayKnown(s: Repo, e: Event)
    requires ChunksKnown(s) && Fresh(s, e) && Distinct(e) && e.IngestArtifact?
    ensures var cs := UpsertAll(s.chunks, e.chunks);
            forall i :: 0 <= i < |cs| ==> cs[i].artifactId in s.artifacts[e.artifact.id := e.artifact]
  {
    UpsertAllNew(s.chunks, e.chunks);
  }

  // ---- a whole run ------------------------------------------------------------------

  /** No ingestion of the run meets a fact that cannot be linked. */
  ghost predicate Succeeds(reg: Registry, s: Repo, es: seq<Event>)
    requires Valid(s)
    decreases |es|
  {
    es == [] || (&& (Accepts(es[0]) ==> Step(reg, s, es[0]).1 == Nothing) && Valid(Step(reg, s, es[0]).0)
                 && Succeeds(reg, Step(reg, s, es[0]).0, es[1..]))
  }

  /** What the accepted artifacts of an owner and their facts add up to. */
  function Sum(c: Context, es: seq<Event>, k: Key): (r: Context)
    decreases |es|
  {
    if es == [] then c
    else if IngestsFor(es[0], k) then Sum(Plus(c, [es[0].artifact], es[0].chunks, es[0].derived), es[1..], k)
    else Sum(c, es[1..], k)
  }

  lemma {:induction false} OwnersAre(artifacts: map<string, Artifact>, fs: seq<Fact>, own: Key, k: Key)
    requires Storable(artifacts, fs) == fs && forall x :: x in OwnersOf(artifacts, fs) ==> x == own
    ensures OfOwner(artifacts, fs, k) == if k == own then fs else []
    decreases |fs|
  {
    if fs != [] {
      var f, rest := fs[0], fs[1..];
      assert Linked(artifacts, f);
      assert OwnersOf(artifacts, fs) == [artifacts[f.links[0].artifactId].key] + OwnersOf(artifacts, rest);
      assert OwnersOf(artifacts, fs)[0] in OwnersOf(artifacts, fs);
      assert Storable(artifacts, fs)[1..] == rest;
      forall x | x in OwnersOf(artifacts, rest) ensures x == own { assert x in OwnersOf(artifacts, fs); }
      OwnersAre(artifacts, rest, own, k);
    }
  }

  lemma {:induction false} StorableHasOwners(artifacts: map<string, Artifact>, fs: seq<Fact>)
    requires Storable(artifacts, fs) == fs
    ensures |OwnersOf(artifacts, fs)| == |fs|
    decreases |fs|
  {
    if fs != [] {
      assert Storable(artifacts, fs) == [fs[0]] + Storable(artifacts, fs[1..]);
      StorableHasOwners(artifacts, fs[1..]);
    }
  }

  lemma OwnShare(s: Repo, e: Event, k: Key)
    requires e.IngestArtifact? && OnlyOwn(s, e)
    requires AllLinked(s.artifacts[e.artifact.id := e.artifact], e.derived)
    ensures Share(s.artifacts[e.artifact.id := e.artifact], e, k) ==
            if k == e.artifact.key then e.derived else Derived([], [], [], [])
  {
    var artifacts := s.artifacts[e.artifact.id := e.artifact];
    var d := e.derived;
    StorableHasOwners(artifacts, d.entities);
    forall x | x in OwnersOf(artifacts, d.entities) ensures x == e.artifact.key { assert x in FiledUnder(s, e); }
    forall x | x in OwnersOf(artifacts, d.relationships) ensures x == e.artifact.key { assert x in FiledUnder(s, e); }
    OwnersAre(artifacts, d.entities, e.artifact.key, k);
    OwnersAre(artifacts, d.relationships, e.artifact.key, k);
  }

  lemma StepAdds(reg: Registry, s: Repo, e: Event, k: Key)
    requires Valid(s) && ChunksKnown(s) && Honest(s, e) && Distinct(e) && (Accepts(e) ==> Step(reg, s, e).1 == Nothing)
    ensures var r := Step(reg, s, e).0;
            && Valid(r) && ChunksKnown(r)
            && ContextOf(r, k) == if IngestsFor(e, k) then Plus(ContextOf(s, k), [e.artifact], e.chunks, e.derived)
                                  else ContextOf(s, k)
  {
    AcceptsExactly(e);
    if Accepts(e) {
      IngestAppends(reg, s, e, k);
      OwnShare(s, e, k);
      PlusNothing(ContextOf(s, k));
    }
  }

  lemma PlusNothing(c: Context)
    ensures Plus(c, [], [], Derived([], [], [], [])) == c
  {
  }

  lemma {:induction false} RunAdds(reg: Registry, s: Repo, es: seq<Event>, r: Repo, k: Key)
    requires Valid(s) && ChunksKnown(s) && IsRun(reg, s, es, r) && Succeeds(reg, s, es)
    requires forall i :: 0 <= i < |es| ==> Distinct(es[i])
    ensures Valid(r) && ContextOf(r, k) == Sum(ContextOf(s, k), es, k)
    decreases |es|
  {
    if es != [] {
      StepAdds(reg, s, es[0], k);
      RunAdds(reg, Step(reg, s, es[0]).0, es[1..], r, k);
    }
  }

  /**
    After every run of view requests and good ingestions, the context of an owner is exactly what was
    ingested for it: its artifacts, their chunks and all their facts, in the order they came.
   */
  lemma ContextIsWhatWasIngested(reg: Registry, es: seq<Event>, s: Repo, k: Key)
    requires IsRun(reg, Empty(), es, s) && Succeeds(reg, Empty(), es)
    requires forall i :: 0 <= i < |es| ==> Distinct(es[i])
    ensures Valid(s) && ContextOf(s, k) == Sum(Context(k, [], [], [], [], [], []), es, k)
  {
    RunAdds(reg, Empty(), es, s, k);
    assert ContextOf(Empty(), k) == Context(k, [], [], [], [], [], []);
  }
}
