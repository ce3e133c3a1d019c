/** The in-memory context repository and the service that ingests artifacts and serves cached views. */
module ContextEngine {
  import opened Wrappers
  import opened Strings
  import opened ContextModels

  /** An entity, relationship, signal or actionable item. */
  datatype Fact = Fact(id: string, links: seq<SourceLink>, body: string)

  datatype Table = Table(rows: map<string, Fact>, index: map<Key, seq<string>>)

  /** A stored view and the artifacts it was built from. */
  datatype CachedView = CachedView(view: PerspectiveView, sourceIds: seq<string>)

  datatype Repo = Repo(
    artifacts: map<string, Artifact>,
    artifactIndex: map<Key, seq<string>>,
    chunks: seq<ArtifactChunk>,
    entities: Table,
    relationships: Table,
    signals: Table,
    items: Table,
    views: map<(Key, string), CachedView>)

  function Empty(): Repo {
    var t := Table(map[], map[]);
    Repo(map[], map[], [], t, t, t, t, map[])
  }

  /** What the domain's extractors and task generators derive from one artifact. */
  datatype Derived = Derived(entities: seq<Fact>, relationships: seq<Fact>, signals: seq<Fact>, items: seq<Fact>)

  // ---- storing ----------------------------------------------------------------------

  function IdsOf(index: map<Key, seq<string>>, k: Key): (ids: seq<string>) { if k in index then index[k] else [] }

  function PushId(index: map<Key, seq<string>>, k: Key, id: string): (r: map<Key, seq<string>>) {
    index[k := IdsOf(index, k) + [id]]
  }

  /** A dictionary keeps the position of a key it already has. */
  function Upsert(cs: seq<ArtifactChunk>, c: ArtifactChunk): (r: seq<ArtifactChunk>) {
    if cs == [] then [c]
    else if cs[0].id == c.id then [c] + cs[1..]
    else [cs[0]] + Upsert(cs[1..], c)
  }

  function UpsertAll(cs: seq<ArtifactChunk>, news: seq<ArtifactChunk>): (r: seq<ArtifactChunk>)
    decreases |news|
  {
    if news == [] then cs else UpsertAll(Upsert(cs, news[0]), news[1..])
  }

  /** The artifact of the required first source link, if it is known. */
  function LinkedArtifact(artifacts: map<string, Artifact>, f: Fact): (r: Option<Artifact>) {
    if f.links == [] || f.links[0].artifactId !in artifacts then None else Some(artifacts[f.links[0].artifactId])
  }

  /** `store_entities` and `store_relationships`: stops, with what was stored so far, at a bad link. */
  function StoreLinked(t: Table, artifacts: map<string, Artifact>, fs: seq<Fact>): (r: (Table, bool))
    decreases |fs|
  {
    if fs == [] then (t, true)
    else match LinkedArtifact(artifacts, fs[0])
      case None => (t, false)
      case Some(a) =>
        StoreLinked(Table(t.rows[fs[0].id := fs[0]], PushId(t.index, a.key, fs[0].id)), artifacts, fs[1..])
  }

  /** `store_signals` and `store_actionable_items`: rows only. */
  function StoreRows(rows: map<string, Fact>, artifacts: map<string, Artifact>,
                     fs: seq<Fact>): (r: (map<string, Fact>, bool))
    decreases |fs|
  {
    if fs == [] then (rows, true)
    else if LinkedArtifact(artifacts, fs[0]).None? then (rows, false)
    else StoreRows(rows[fs[0].id := fs[0]], artifacts, fs[1..])
  }

  function PushIds(index: map<Key, seq<string>>, k: Key, fs: seq<Fact>): (r: map<Key, seq<string>>)
    decreases |fs|
  {
    if fs == [] then index else PushIds(PushId(index, k, fs[0].id), k, fs[1..])
  }

  function Indexed(t: Table, rows: map<string, Fact>, k: Key, fs: seq<Fact>): (r: Table) {
    Table(rows, PushIds(t.index, k, fs))
  }

  /** `ingest_artifact` after validation; `false` when a derived fact has a bad link. */
  function Ingest(s: Repo, a: Artifact, chunks: seq<ArtifactChunk>, d: Derived): (r: (Repo, bool)) {
    var s1 := s.(artifacts := s.artifacts[a.id := a], artifactIndex := PushId(s.artifactIndex, a.key, a.id),
                 chunks := UpsertAll(s.chunks, chunks));
    var (entities, ok1) := StoreLinked(s1.entities, s1.artifacts, d.entities);
    var s2 := s1.(entities := entities);
    if !ok1 then (s2, false) else
    var (relationships, ok2) := StoreLinked(s2.relationships, s2.artifacts, d.relationships);
    var s3 := s2.(relationships := relationships);
    if !ok2 then (s3, false) else
    var (signals, ok3) := StoreRows(s3.signals.rows, s3.artifacts, d.signals);
    var s4 := s3.(signals := Table(signals, s3.signals.index));
    if !ok3 then (s4, false) else
    var (items, ok4) := StoreRows(s4.items.rows, s4.artifacts, d.items);
    var s5 := s4.(items := Table(items, s4.items.index));
    if !ok4 then (s5, false) else
    (s5.(signals := Indexed(s5.signals, signals, a.key, d.signals),
         items := Indexed(s5.items, items, a.key, d.items)), true)
  }

  // ---- listing ----------------------------------------------------------------------

  /** What a perspective builder sees of one owner. */
  datatype Context = Context(
    key: Key, artifacts: seq<Artifact>, chunks: seq<ArtifactChunk>,
    entities: seq<Fact>, relationships: seq<Fact>, signals: seq<Fact>, items: seq<Fact>)

  ghost predicate Known<V>(rows: map<string, V>, ids: seq<string>) { forall i :: 0 <= i < |ids| ==> ids[i] in rows }

  function Rows<V>(rows: map<string, V>, ids: seq<string>): (vs: seq<V>)
    requires Known(rows, ids)
  {
    seq(|ids|, i requires 0 <= i < |ids| => rows[ids[i]])
  }

  function ChunksFor(cs: seq<ArtifactChunk>, ids: seq<string>): (r: seq<ArtifactChunk>) {
    if cs == [] then []
    else (if cs[0].artifactId in ids then [cs[0]] else []) + ChunksFor(cs[1..], ids)
  }

  ghost predicate AllKnown<V>(rows: map<string, V>, index: map<Key, seq<string>>) {
    forall k :: Known(rows, IdsOf(index, k))
  }

  ghost predicate TableValid(t: Table) { AllKnown(t.rows, t.index) }

  ghost predicate Valid(s: Repo) {
    && AllKnown(s.artifacts, s.artifactIndex)
    && (forall id :: id in s.artifacts ==> s.artifacts[id].id == id)
    && TableValid(s.entities) && TableValid(s.relationships) && TableValid(s.signals) && TableValid(s.items)
  }

  function ContextOf(s: Repo, k: Key): (c: Context)
    requires Valid(s)
  {
    var ids := IdsOf(s.artifactIndex, k);
    Context(k, Rows(s.artifacts, ids), ChunksFor(s.chunks, ids),
            Rows(s.entities.rows, IdsOf(s.entities.index, k)),
            Rows(s.relationships.rows, IdsOf(s.relationships.index, k)),
            Rows(s.signals.rows, IdsOf(s.signals.index, k)),
            Rows(s.items.rows, IdsOf(s.items.index, k)))
  }

  // ---- the service ------------------------------------------------------------------

  /** Registered perspectives, and what their builders make of a context. */
  datatype Registry = Registry(known: set<(string, string)>, build: (string, Context) -> PerspectiveView)

  datatype Event =
    | IngestArtifact(artifact: Artifact, chunks: seq<ArtifactChunk>, derived: Derived, typeKnown: bool)
    | GetPerspective(key: Key, viewId: string, regenerate: bool)

  datatype Served = Nothing | Failed | ServedView(view: PerspectiveView, stale: bool)

  predicate Accepts(e: Event) { e.IngestArtifact? && e.typeKnown && Trim(Python, e.artifact.text) != "" }

  function IsStale(s: Repo, k: Key, v: CachedView): bool { IdsOf(s.artifactIndex, k) != v.sourceIds }

  function StoreView(s: Repo, k: Key, v: PerspectiveView): (r: Repo) {
    s.(views := s.views[(k, v.definitionId) := CachedView(v, IdsOf(s.artifactIndex, k))])
  }

  /** `get_perspective`: the cached view with its staleness, or a new one when asked or when there is none. */
  function GetView(reg: Registry, s: Repo, k: Key, viewId: string, regenerate: bool): (r: (Repo, Served))
    requires Valid(s)
  {
    if !regenerate && (k, viewId) in s.views then
      var v := s.views[(k, viewId)];
      (s, ServedView(v.view, IsStale(s, k, v)))
    else if (k.domain, viewId) !in reg.known then (s, Failed)
    else
      var v := reg.build(viewId, ContextOf(s, k));
      (StoreView(s, k, v), ServedView(v, false))
  }

  function Step(reg: Registry, s: Repo, e: Event): (r: (Repo, Served))
    requires Valid(s)
  {
    match e
    case IngestArtifact(a, chunks, d, _) =>
      if !Accepts(e) then (s, Failed)
      else
        var (r, ok) := Ingest(s, a, chunks, d);
        (r, if ok then Nothing else Failed)
    case GetPerspective(k, viewId, regenerate) => GetView(reg, s, k, viewId, regenerate)
  }

  // ---- what the coherence of the cache rests on -------------------------------------

  ghost predicate FreshIds(fs: seq<Fact>, rows: map<string, Fact>) {
    forall i :: 0 <= i < |fs| ==> fs[i].id !in rows
  }

  ghost predicate FreshChunks(cs: seq<ArtifactChunk>, stored: seq<ArtifactChunk>, id: string) {
    && (forall i :: 0 <= i < |cs| ==> cs[i].artifactId == id)
    && (forall i, j :: 0 <= i < |cs| && 0 <= j < |stored| ==> cs[i].id != stored[j].id)
  }

  /** Ids are new, and the chunks are the artifact's own. */
  ghost predicate Fresh(s: Repo, e: Event) {
    e.IngestArtifact? ==>
      var a, d := e.artifact, e.derived;
      && a.id !in s.artifacts
      && FreshChunks(e.chunks, s.chunks, a.id)
      && FreshIds(d.entities, s.entities.rows) && FreshIds(d.relationships, s.relationships.rows)
      && FreshIds(d.signals, s.signals.rows) && FreshIds(d.items, s.items.rows)
  }

  /** The owners under which facts are filed, in order, up to the first unknown source artifact. */
  function OwnersOf(artifacts: map<string, Artifact>, fs: seq<Fact>): (ks: seq<Key>)
    ensures |ks| <= |fs|
    decreases |fs|
  {
    if fs == [] || LinkedArtifact(artifacts, fs[0]).None? then []
    else [LinkedArtifact(artifacts, fs[0]).value.key] + OwnersOf(artifacts, fs[1..])
  }

  /** The owners of the entities, and of the relationships if every entity could be filed. */
  function FiledUnder(s: Repo, e: Event): (ks: seq<Key>)
    requires e.IngestArtifact?
  {
    var artifacts := s.artifacts[e.artifact.id := e.artifact];
    var owners := OwnersOf(artifacts, e.derived.entities);
    if |owners| < |e.derived.entities| then owners else owners + OwnersOf(artifacts, e.derived.relationships)
  }

  /** Every entity and relationship that is filed cites an artifact of the owner it was extracted for. */
  predicate OnlyOwn(s: Repo, e: Event)
    requires e.IngestArtifact?
  {
    forall k :: k in FiledUnder(s, e) ==> k == e.artifact.key
  }

  /** Fresh ids, and no entity or relationship for another owner; signals and items may cite anything. */
  ghost predicate Honest(s: Repo, e: Event) { Fresh(s, e) && (e.IngestArtifact? ==> OnlyOwn(s, e)) }

  /** Builders return views under their own id. */
  ghost predicate OwnIds(reg: Registry) { forall viewId, c :: reg.build(viewId, c).definitionId == viewId }

  /** A cached view was built from a prefix of the owner's artifacts; if that is all of them, it is current. */
  ghost predicate Coherent(reg: Registry, s: Repo) {
    && Valid(s)
    && forall k, viewId :: (k, viewId) in s.views ==>
         var v := s.views[(k, viewId)];
         && v.view.definitionId == viewId
         && v.sourceIds <= IdsOf(s.artifactIndex, k)
         && (!IsStale(s, k, v) ==> v.view == reg.build(viewId, ContextOf(s, k)))
  }

  // ---- ingesting for one owner changes nothing for another --------------------------

  ghost predicate Extends<V>(before: map<string, V>, after: map<string, V>) {
    forall id :: id in before ==> id in after && after[id] == before[id]
  }

  lemma SameRows<V>(before: map<string, V>, after: map<string, V>, ids: seq<string>)
    requires Known(before, ids) && Extends(before, after)
    ensures Known(after, ids) && Rows(after, ids) == Rows(before, ids)
  {
  }

  ghost predicate TableFrame(t: Table, r: Table, k: Key) {
    && Extends(t.rows, r.rows)
    && TableValid(r)
    && forall other :: other != k ==> IdsOf(r.index, other) == IdsOf(t.index, other)
  }

  lemma PushKeepsValid(t: Table, f: Fact, k: Key)
    requires TableValid(t)
    ensures TableValid(Table(t.rows[f.id := f], PushId(t.index, k, f.id)))
  {
    var r := Table(t.rows[f.id := f], PushId(t.index, k, f.id));
    forall x ensures Known(r.rows, IdsOf(r.index, x)) { assert Known(t.rows, IdsOf(t.index, x)); }
  }

  /** Rows are only added, and an owner's list grows exactly when something is filed under it. */
  ghost predicate TableGrows(t: Table, r: Table, owners: seq<Key>) {
    && Extends(t.rows, r.rows)
    && TableValid(r)
    && forall k :: if k in owners then |IdsOf(r.index, k)| > |IdsOf(t.index, k)|
       else IdsOf(r.index, k) == IdsOf(t.index, k)
  }

  lemma {:induction false} StoreLinkedGrows(base: map<string, Fact>, t: Table, artifacts: map<string, Artifact>,
                                            fs: seq<Fact>)
    requires TableValid(t) && FreshIds(fs, base) && Extends(base, t.rows)
    ensures var (r, ok) := StoreLinked(t, artifacts, fs);
            var owners := OwnersOf(artifacts, fs);
            && (ok <==> |owners| == |fs|) && Extends(base, r.rows) && TableValid(r)
            && forall k :: if k in owners then |IdsOf(r.index, k)| > |IdsOf(t.index, k)|
               else IdsOf(r.index, k) == IdsOf(t.index, k)
    decreases |fs|
  {
    if fs != [] && LinkedArtifact(artifacts, fs[0]).Some? {
      var k := LinkedArtifact(artifacts, fs[0]).value.key;
      PushKeepsValid(t, fs[0], k);
      var t1 := Table(t.rows[fs[0].id := fs[0]], PushId(t.index, k, fs[0].id));
      StoreLinkedGrows(base, t1, artifacts, fs[1..]);
      PushGrows(t.index, k, fs[0].id);
    }
  }

  lemma PushGrows(index: map<Key, seq<string>>, k: Key, id: string)
    ensures forall x :: IdsOf(PushId(index, k, id), x) == if x == k then IdsOf(index, k) + [id] else IdsOf(index, x)
  {
  }

  lemma {:induction false} StoreRowsFrame(base: map<string, Fact>, rows: map<string, Fact>,
                                          artifacts: map<string, Artifact>, fs: seq<Fact>)
    requires FreshIds(fs, base) && Extends(base, rows)
    ensures var (r, ok) := StoreRows(rows, artifacts, fs);
            && Extends(base, r) && rows.Keys <= r.Keys
            && (ok ==> forall i :: 0 <= i < |fs| ==> fs[i].id in r)
    decreases |fs|
  {
    if fs != [] && LinkedArtifact(artifacts, fs[0]).Some? {
      StoreRowsFrame(base, rows[fs[0].id := fs[0]], artifacts, fs[1..]);
      var (r, ok) := StoreRows(rows, artifacts, fs);
      forall i | 0 <= i < |fs| && ok ensures fs[i].id in r {
        if i > 0 { assert fs[i] == fs[1..][i - 1]; }
      }
    }
  }

  lemma {:induction false} PushIdsFrame(rows: map<string, Fact>, index: map<Key, seq<string>>, k: Key, fs: seq<Fact>)
    requires forall i :: 0 <= i < |fs| ==> fs[i].id in rows
    requires AllKnown(rows, index)
    ensures var r := PushIds(index, k, fs);
            && AllKnown(rows, r)
            && (forall other :: other != k ==> IdsOf(r, other) == IdsOf(index, other))
    decreases |fs|
  {
    if fs != [] {
      var next := PushId(index, k, fs[0].id);
      forall x ensures Known(rows, IdsOf(next, x)) { assert Known(rows, IdsOf(index, x)); }
      forall i | 0 <= i < |fs[1..]| ensures fs[1..][i].id in rows { assert fs[1..][i] == fs[i + 1]; }
      PushIdsFrame(rows, next, k, fs[1..]);
      assert forall other :: other != k ==> IdsOf(next, other) == IdsOf(index, other);
    }
  }

  /** Signals and items: rows alone when a link is bad, rows and the ingesting owner's list otherwise. */
  lemma IndexedFrame(t: Table, artifacts: map<string, Artifact>, fs: seq<Fact>, k: Key)
    requires TableValid(t) && FreshIds(fs, t.rows)
    ensures var (rows, ok) := StoreRows(t.rows, artifacts, fs);
            TableFrame(t, Table(rows, t.index), k) && (ok ==> TableFrame(t, Indexed(t, rows, k, fs), k))
  {
    StoreRowsFrame(t.rows, t.rows, artifacts, fs);
    var (rows, ok) := StoreRows(t.rows, artifacts, fs);
    forall x ensures Known(rows, IdsOf(t.index, x)) { assert Known(t.rows, IdsOf(t.index, x)); }
    if ok { PushIdsFrame(rows, t.index, k, fs); }
  }

  lemma {:induction false} UpsertFresh(cs: seq<ArtifactChunk>, c: ArtifactChunk, ids: seq<string>)
    requires c.artifactId !in ids && forall j :: 0 <= j < |cs| ==> cs[j].id != c.id || cs[j].artifactId == c.artifactId
    ensures ChunksFor(Upsert(cs, c), ids) == ChunksFor(cs, ids)
    ensures forall x :: x in Upsert(cs, c) ==> x == c || x in cs
  {
    if cs != [] {
      if cs[0].id == c.id {
        assert ([c] + cs[1..])[1..] == cs[1..];
      } else {
        UpsertFresh(cs[1..], c, ids);
        assert ([cs[0]] + Upsert(cs[1..], c))[1..] == Upsert(cs[1..], c);
      }
    }
  }

  /** Chunks under new ids of one artifact leave every other artifact's chunks as they were, in order. */
  lemma {:induction false} UpsertAllFrame(cs: seq<ArtifactChunk>, news: seq<ArtifactChunk>, id: string,
                                          ids: seq<string>)
    requires id !in ids && forall i :: 0 <= i < |news| ==> news[i].artifactId == id
    requires forall i, j :: 0 <= i < |news| && 0 <= j < |cs| ==> news[i].id != cs[j].id || cs[j].artifactId == id
    ensures ChunksFor(UpsertAll(cs, news), ids) == ChunksFor(cs, ids)
    decreases |news|
  {
    if news != [] {
      UpsertFresh(cs, news[0], ids);
      var next := Upsert(cs, news[0]);
      forall i, j | 0 <= i < |news[1..]| && 0 <= j < |next|
        ensures news[1..][i].id != next[j].id || next[j].artifactId == id
      {
        assert next[j] in next;
        if next[j] != news[0] {
          var q :| 0 <= q < |cs| && cs[q] == next[j];
          assert news[1..][i] == news[i + 1];
        }
      }
      UpsertAllFrame(next, news[1..], id, ids);
    }
  }

  lemma LinkedGrows(t: Table, artifacts: map<string, Artifact>, fs: seq<Fact>)
    requires TableValid(t) && FreshIds(fs, t.rows)
    ensures var (r, ok) := StoreLinked(t, artifacts, fs);
            TableGrows(t, r, OwnersOf(artifacts, fs)) && (ok <==> |OwnersOf(artifacts, fs)| == |fs|)
  {
    StoreLinkedGrows(t.rows, t, artifacts, fs);
  }

  /** What an ingestion with fresh ids does to each table, whether or not it meets a bad link. */
  lemma IngestTables(s: Repo, e: Event)
    requires Valid(s) && Fresh(s, e) && e.IngestArtifact?
    ensures var a, d := e.artifact, e.derived;
            var artifacts := s.artifacts[a.id := a];
            var r := Ingest(s, a, e.chunks, d).0;
            && r.views == s.views
            && r.artifacts == artifacts
            && r.artifactIndex == PushId(s.artifactIndex, a.key, a.id)
            && r.chunks == UpsertAll(s.chunks, e.chunks)
            && TableGrows(s.entities, r.entities, OwnersOf(artifacts, d.entities))
            && TableGrows(s.relationships, r.relationships,
                          if |OwnersOf(artifacts, d.entities)| < |d.entities| then []
                          else OwnersOf(artifacts, d.relationships))
            && TableFrame(s.signals, r.signals, a.key) && TableFrame(s.items, r.items, a.key)
  {
    var a, d := e.artifact, e.derived;
    var artifacts := s.artifacts[a.id := a];
    LinkedGrows(s.entities, artifacts, d.entities);
    LinkedGrows(s.relationships, artifacts, d.relationships);
    IndexedFrame(s.signals, artifacts, d.signals, a.key);
    IndexedFrame(s.items, artifacts, d.items, a.key);
  }

  lemma IngestValid(s: Repo, e: Event)
    requires Valid(s) && Fresh(s, e) && e.IngestArtifact?
    ensures Valid(Ingest(s, e.artifact, e.chunks, e.derived).0)
  {
    IngestTables(s, e);
    var a := e.artifact;
    var r := Ingest(s, a, e.chunks, e.derived).0;
    forall k ensures Known(r.artifacts, IdsOf(r.artifactIndex, k)) {
      assert Known(s.artifacts, IdsOf(s.artifactIndex, k));
    }
  }

  lemma SameList(t: Table, r: Table, k: Key)
    requires TableValid(t) && TableValid(r) && Extends(t.rows, r.rows) && IdsOf(r.index, k) == IdsOf(t.index, k)
    ensures Known(t.rows, IdsOf(t.index, k)) && Known(r.rows, IdsOf(r.index, k))
    ensures Rows(r.rows, IdsOf(r.index, k)) == Rows(t.rows, IdsOf(t.index, k))
  {
    assert Known(t.rows, IdsOf(t.index, k));
    SameRows(t.rows, r.rows, IdsOf(t.index, k));
  }

  /** An entity or relationship table shows another owner something new exactly when a fact was filed under it. */
  lemma GrownList(t: Table, r: Table, owners: seq<Key>, k: Key)
    requires TableValid(t) && TableGrows(t, r, owners)
    ensures Known(t.rows, IdsOf(t.index, k)) && Known(r.rows, IdsOf(r.index, k))
    ensures Rows(r.rows, IdsOf(r.index, k)) == Rows(t.rows, IdsOf(t.index, k)) <==> k !in owners
  {
    assert Known(t.rows, IdsOf(t.index, k)) && Known(r.rows, IdsOf(r.index, k));
    if k !in owners {
      SameList(t, r, k);
    } else {
      assert |Rows(r.rows, IdsOf(r.index, k))| > |Rows(t.rows, IdsOf(t.index, k))|;
    }
  }

  /** Artifacts, chunks, signals and items of another owner never change. */
  lemma IngestKeepsRest(s: Repo, e: Event, other: Key)
    requires Valid(s) && Fresh(s, e) && e.IngestArtifact? && other != e.artifact.key
    ensures var r := Ingest(s, e.artifact, e.chunks, e.derived).0;
            && Valid(r) && IdsOf(r.artifactIndex, other) == IdsOf(s.artifactIndex, other)
            && ContextOf(r, other).artifacts == ContextOf(s, other).artifacts
            && ContextOf(r, other).chunks == ContextOf(s, other).chunks
            && ContextOf(r, other).signals == ContextOf(s, other).signals
            && ContextOf(r, other).items == ContextOf(s, other).items
  {
    IngestTables(s, e);
    IngestValid(s, e);
    var a := e.artifact;
    var r := Ingest(s, a, e.chunks, e.derived).0;
    var ids := IdsOf(s.artifactIndex, other);
    assert Known(s.artifacts, ids) && a.id !in ids;
    SameRows(s.artifacts, r.artifacts, ids);
    UpsertAllFrame(s.chunks, e.chunks, a.id, ids);
    SameList(s.signals, r.signals, other);
    SameList(s.items, r.items, other);
  }

  /** Another owner's context is untouched exactly when no entity or relationship is filed under it. */
  lemma IngestFrame(s: Repo, e: Event, other: Key)
    requires Valid(s) && Fresh(s, e) && e.IngestArtifact? && other != e.artifact.key
    ensures var r := Ingest(s, e.artifact, e.chunks, e.derived).0;
            && Valid(r) && IdsOf(r.artifactIndex, other) == IdsOf(s.artifactIndex, other)
            && (ContextOf(r, other) == ContextOf(s, other) <==> other !in FiledUnder(s, e))
  {
    IngestTables(s, e);
    IngestKeepsRest(s, e, other);
    var a, d := e.artifact, e.derived;
    var artifacts := s.artifacts[a.id := a];
    var r := Ingest(s, a, e.chunks, d).0;
    var es, rs := OwnersOf(artifacts, d.entities), OwnersOf(artifacts, d.relationships);
    GrownList(s.entities, r.entities, es, other);
    GrownList(s.relationships, r.relationships, if |es| < |d.entities| then [] else rs, other);
  }

  /** With fresh ids, an ingestion leaves every other owner's context alone if and only if it is honest. */
  lemma OthersUntouchedIff(s: Repo, e: Event)
    requires Valid(s) && Fresh(s, e) && e.IngestArtifact?
    ensures var r := Ingest(s, e.artifact, e.chunks, e.derived).0;
            Valid(r) && ((forall k :: k != e.artifact.key ==> ContextOf(r, k) == ContextOf(s, k)) <==> OnlyOwn(s, e))
  {
    IngestValid(s, e);
    forall k | k != e.artifact.key
      ensures ContextOf(Ingest(s, e.artifact, e.chunks, e.derived).0, k) == ContextOf(s, k) <==> k !in FiledUnder(s, e)
    {
      IngestFrame(s, e, k);
    }
  }

  // ---- the cache stays coherent -----------------------------------------------------

  lemma IngestCoherent(reg: Registry, s: Repo, e: Event)
    requires Coherent(reg, s) && Honest(s, e) && e.IngestArtifact?
    ensures Coherent(reg, Ingest(s, e.artifact, e.chunks, e.derived).0)
  {
    IngestTables(s, e);
    IngestValid(s, e);
    var a := e.artifact;
    var r := Ingest(s, a, e.chunks, e.derived).0;
    forall k, viewId | (k, viewId) in r.views
      ensures var v := r.views[(k, viewId)];
              && v.view.definitionId == viewId && v.sourceIds <= IdsOf(r.artifactIndex, k)
              && (!IsStale(r, k, v) ==> v.view == reg.build(viewId, ContextOf(r, k)))
    {
      var v := s.views[(k, viewId)];
      if k != a.key {
        IngestFrame(s, e, k);
        assert IsStale(r, k, v) == IsStale(s, k, v);
      } else {
        assert IdsOf(r.artifactIndex, k) == IdsOf(s.artifactIndex, k) + [a.id];
        assert |v.sourceIds| < |IdsOf(r.artifactIndex, k)|;
      }
    }
  }

  lemma StoreCoherent(reg: Registry, s: Repo, k: Key, viewId: string)
    requires Coherent(reg, s) && OwnIds(reg)
    ensures Coherent(reg, StoreView(s, k, reg.build(viewId, ContextOf(s, k))))
  {
    var v := reg.build(viewId, ContextOf(s, k));
    var r := StoreView(s, k, v);
    assert forall x :: ContextOf(r, x) == ContextOf(s, x);
  }

  lemma StepCoherent(reg: Registry, s: Repo, e: Event)
    requires Coherent(reg, s) && OwnIds(reg) && Honest(s, e)
    ensures Coherent(reg, Step(reg, s, e).0)
  {
    match e
    case IngestArtifact(_, _, _, _) => if Accepts(e) { IngestCoherent(reg, s, e); }
    case GetPerspective(k, viewId, _) => StoreCoherent(reg, s, k, viewId);
  }

  ghost predicate IsRun(reg: Registry, s: Repo, es: seq<Event>, r: Repo)
    requires Valid(s)
    decreases |es|
  {
    if es == [] then r == s
    else Honest(s, es[0]) && Valid(Step(reg, s, es[0]).0) && IsRun(reg, Step(reg, s, es[0]).0, es[1..], r)
  }

  lemma {:induction false} RunCoherent(reg: Registry, s: Repo, es: seq<Event>, r: Repo)
    requires Coherent(reg, s) && OwnIds(reg) && IsRun(reg, s, es, r)
    ensures Coherent(reg, r)
    decreases |es|
  {
    if es != [] {
      StepCoherent(reg, s, es[0]);
      RunCoherent(reg, Step(reg, s, es[0]).0, es[1..], r);
    }
  }

  /**
    After every sequence of ingestions and view requests, a view reported as not stale has the
    content that building it now would give, cached or not.
   */
  lemma FreshViewsAreCurrent(reg: Registry, es: seq<Event>, s: Repo, k: Key, viewId: string, regenerate: bool)
    requires OwnIds(reg) && IsRun(reg, Empty(), es, s)
    ensures Valid(s)
    ensures var served := GetView(reg, s, k, viewId, regenerate).1;
            served.ServedView? && !served.stale ==>
              served.view.definitionId == viewId && served.view == reg.build(viewId, ContextOf(s, k))
  {
    RunCoherent(reg, Empty(), es, s);
  }

  /** A view that is built is kept: until something is ingested, asking again serves the very same view as current. */
  lemma BuiltViewIsKept(reg: Registry, s: Repo, k: Key, viewId: string, regenerate: bool)
    requires Valid(s) && OwnIds(reg) && (k.domain, viewId) in reg.known
    requires regenerate || (k, viewId) !in s.views
    ensures var (r, served) := GetView(reg, s, k, viewId, regenerate);
            && Valid(r) && served == ServedView(reg.build(viewId, ContextOf(s, k)), false)
            && GetView(reg, r, k, viewId, false) == (r, served)
            && (forall x :: ContextOf(r, x) == ContextOf(s, x))
            && (forall x :: x in s.views && x != (k, viewId) ==> x in r.views && r.views[x] == s.views[x])
  {
    var (r, served) := GetView(reg, s, k, viewId, regenerate);
    forall x ensures ContextOf(r, x) == ContextOf(s, x) {}
  }

  /** A view that is neither stored nor registered is an error, and asking for it changes nothing. */
  lemma UnknownViewFails(reg: Registry, s: Repo, k: Key, viewId: string, regenerate: bool)
    requires Valid(s) && (k.domain, viewId) !in reg.known && (regenerate || (k, viewId) !in s.views)
    ensures GetView(reg, s, k, viewId, regenerate) == (s, Failed)
  {
  }

  // ---- and stale means ingested since -----------------------------------------------

  predicate IngestsFor(e: Event, k: Key) { Accepts(e) && e.artifact.key == k }

  /** A request that builds the view anew. */
  predicate Rebuilds(e: Event, k: Key, viewId: string) {
    e.GetPerspective? && e.key == k && e.viewId == viewId && e.regenerate
  }

  function CountFor(es: seq<Event>, k: Key): (n: nat) {
    if es == [] then 0 else (if IngestsFor(es[0], k) then 1 else 0) + CountFor(es[1..], k)
  }

  lemma GetKeeps(reg: Registry, s: Repo, e: Event, k: Key, viewId: string)
    requires Valid(s) && OwnIds(reg) && e.GetPerspective? && !Rebuilds(e, k, viewId) && (k, viewId) in s.views
    ensures var m := Step(reg, s, e).0;
            && m.artifactIndex == s.artifactIndex
            && (k, viewId) in m.views && m.views[(k, viewId)] == s.views[(k, viewId)]
  {
    if e.regenerate || (e.key, e.viewId) !in s.views {
      assert reg.build(e.viewId, ContextOf(s, e.key)).definitionId == e.viewId;
    }
  }

  /** Until it is rebuilt, the stored view keeps its sources while the owner's list grows by one per ingestion. */
  lemma StepGrows(reg: Registry, s: Repo, e: Event, k: Key, viewId: string)
    requires Valid(s) && OwnIds(reg) && Honest(s, e) && !Rebuilds(e, k, viewId) && (k, viewId) in s.views
    ensures var m := Step(reg, s, e).0;
            && (k, viewId) in m.views && m.views[(k, viewId)] == s.views[(k, viewId)]
            && |IdsOf(m.artifactIndex, k)| == |IdsOf(s.artifactIndex, k)| + (if IngestsFor(e, k) then 1 else 0)
            && IdsOf(s.artifactIndex, k) <= IdsOf(m.artifactIndex, k)
  {
    if e.GetPerspective? {
      GetKeeps(reg, s, e, k, viewId);
    } else if Accepts(e) {
      IngestTables(s, e);
    }
  }

  lemma {:induction false} ListGrows(reg: Registry, s: Repo, es: seq<Event>, r: Repo, k: Key, viewId: string)
    requires Valid(s) && OwnIds(reg) && IsRun(reg, s, es, r) && (k, viewId) in s.views
    requires forall i :: 0 <= i < |es| ==> !Rebuilds(es[i], k, viewId)
    ensures (k, viewId) in r.views && r.views[(k, viewId)] == s.views[(k, viewId)]
    ensures |IdsOf(r.artifactIndex, k)| == |IdsOf(s.artifactIndex, k)| + CountFor(es, k)
    ensures IdsOf(s.artifactIndex, k) <= IdsOf(r.artifactIndex, k)
    decreases |es|
  {
    if es != [] {
      StepGrows(reg, s, es[0], k, viewId);
      ListGrows(reg, Step(reg, s, es[0]).0, es[1..], r, k, viewId);
    }
  }

  /**
    A view that was current when it was stored is reported stale later exactly when its own owner
    has ingested something in between.
   */
  lemma StaleMeansIngestedSince(reg: Registry, before: seq<Event>, s: Repo, since: seq<Event>, r: Repo, k: Key,
                                viewId: string)
    requires OwnIds(reg) && IsRun(reg, Empty(), before, s) && Valid(s) && IsRun(reg, s, since, r)
    requires (k, viewId) in s.views && !IsStale(s, k, s.views[(k, viewId)])
    requires forall i :: 0 <= i < |since| ==> !Rebuilds(since[i], k, viewId)
    ensures Valid(r) && (k, viewId) in r.views
    ensures GetView(reg, r, k, viewId, false).1 == ServedView(s.views[(k, viewId)].view, CountFor(since, k) > 0)
  {
    RunCoherent(reg, Empty(), before, s);
    RunCoherent(reg, s, since, r);
    ListGrows(reg, s, since, r, k, viewId);
  }

  // ---- why extractors must cite the artifact they read ------------------------------

  function EntityCounter(): (reg: Registry) {
    Registry({("d", "v")},
             (viewId, c: Context) => PerspectiveView(viewId, if c.entities == [] then "none" else "some", []))
  }

  /**
    An extractor that cites another owner's artifact changes that owner's context without making
    its view stale: the view served as current is not what a rebuild gives.
   */
  lemma ForeignLinkGoesUnnoticed(mine: Key, theirs: Key, a: Artifact, b: Artifact, f: Fact)
    requires mine != theirs && mine.domain == "d" && a.key == mine && b.key == theirs && a.id != b.id
             && f.links != [] && f.links[0].artifactId == a.id
    ensures var reg, none := EntityCounter(), Derived([], [], [], []);
            var s1 := Ingest(Empty(), a, [], none).0;
            && Valid(s1)
            && var s2 := GetView(reg, s1, mine, "v", false).0;
            var (s3, ok) := Ingest(s2, b, [], none.(entities := [f]));
            && ok && Valid(s3)
            && var served := GetView(reg, s3, mine, "v", false).1;
            served.ServedView? && !served.stale && served.view != reg.build("v", ContextOf(s3, mine))
  {
    var reg, none := EntityCounter(), Derived([], [], [], []);
    var s1 := Ingest(Empty(), a, [], none).0;
    assert [] + [a.id] == [a.id] && [] + [b.id] == [b.id] && [] + [f.id] == [f.id] && [f][1..] == [];
    assert s1.artifactIndex == map[mine := [a.id]] && s1.entities == Table(map[], map[]);
    var s2 := GetView(reg, s1, mine, "v", false).0;
    var s3 := Ingest(s2, b, [], none.(entities := [f])).0;
    assert StoreLinked(s2.entities, s3.artifacts, [f]) == (Table(map[f.id := f], map[mine := [f.id]]), true);
    assert s3.artifactIndex == map[mine := [a.id], theirs := [b.id]];
    assert IdsOf(s3.artifactIndex, mine) == [a.id];
    assert ContextOf(s3, mine).entities == [f];
  }
}
