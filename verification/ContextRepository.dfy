/** The repository object and the service methods over it, proved against the functions of ContextEngine. */
module ContextRepository {
  import opened Strings
  import opened ContextModels
  import opened ContextEngine

  method UpsertChunks(stored: seq<ArtifactChunk>, news: seq<ArtifactChunk>) returns (r: seq<ArtifactChunk>)
    ensures r == UpsertAll(stored, news)
  {
    r := stored;
    for i := 0 to |news|
      invariant UpsertAll(r, news[i..]) == UpsertAll(stored, news)
    {
      assert news[i..][0] == news[i] && news[i..][1..] == news[i + 1..];
      r := Upsert(r, news[i]);
    }
  }

  method StoreLinkedFacts(t: Table, artifacts: map<string, Artifact>, fs: seq<Fact>) returns (r: Table, ok: bool)
    ensures (r, ok) == StoreLinked(t, artifacts, fs)
  {
    r, ok := t, true;
    for i := 0 to |fs|
      invariant ok && StoreLinked(r, artifacts, fs[i..]) == StoreLinked(t, artifacts, fs)
    {
      assert fs[i..][0] == fs[i] && fs[i..][1..] == fs[i + 1..];
      var owner := LinkedArtifact(artifacts, fs[i]);
      if owner.None? { return r, false; }
      r := Table(r.rows[fs[i].id := fs[i]], PushId(r.index, owner.value.key, fs[i].id));
    }
  }

  method StoreFactRows(rows: map<string, Fact>, artifacts: map<string, Artifact>, fs: seq<Fact>)
    returns (r: map<string, Fact>, ok: bool)
    ensures (r, ok) == StoreRows(rows, artifacts, fs)
  {
    r, ok := rows, true;
    for i := 0 to |fs|
      invariant ok && StoreRows(r, artifacts, fs[i..]) == StoreRows(rows, artifacts, fs)
    {
      assert fs[i..][0] == fs[i] && fs[i..][1..] == fs[i + 1..];
      if LinkedArtifact(artifacts, fs[i]).None? { return r, false; }
      r := r[fs[i].id := fs[i]];
    }
  }

  method ExtendIndex(index: map<Key, seq<string>>, k: Key, fs: seq<Fact>) returns (r: map<Key, seq<string>>)
    ensures r == PushIds(index, k, fs)
  {
    r := index;
    for i := 0 to |fs|
      invariant PushIds(r, k, fs[i..]) == PushIds(index, k, fs)
    {
      assert fs[i..][0] == fs[i] && fs[i..][1..] == fs[i + 1..];
      r := PushId(r, k, fs[i].id);
    }
  }

  class Repository {
    var artifacts: map<string, Artifact>
    var artifactIndex: map<Key, seq<string>>
    var chunks: seq<ArtifactChunk>
    var entities: Table
    var relationships: Table
    var signals: Table
    var items: Table
    var views: map<(Key, string), CachedView>

    ghost function Value(): (s: Repo)
      reads this
    {
      Repo(artifacts, artifactIndex, chunks, entities, relationships, signals, items, views)
    }

    constructor ()
      ensures Value() == Empty()
    {
      artifacts, artifactIndex, chunks, views := map[], map[], [], map[];
      entities, relationships := Table(map[], map[]), Table(map[], map[]);
      signals, items := Table(map[], map[]), Table(map[], map[]);
    }

    method StoreArtifact(a: Artifact)
      modifies this
      ensures Value() == old(Value()).(artifacts := old(artifacts)[a.id := a],
                                       artifactIndex := PushId(old(artifactIndex), a.key, a.id))
    {
      artifacts := artifacts[a.id := a];
      artifactIndex := PushId(artifactIndex, a.key, a.id);
    }

    /** `ingest_artifact`; the exceptions it raises are `false`, with whatever was stored before them. */
    method IngestArtifact(a: Artifact, newChunks: seq<ArtifactChunk>, d: Derived, typeKnown: bool) returns (ok: bool)
      modifies this
      ensures var e := Event.IngestArtifact(a, newChunks, d, typeKnown);
              if Accepts(e) then (Value(), ok) == Ingest(old(Value()), a, newChunks, d)
              else !ok && Value() == old(Value())
    {
      if !typeKnown || Trim(Python, a.text) == "" { return false; }
      StoreArtifact(a);
      chunks := UpsertChunks(chunks, newChunks);
      entities, ok := StoreLinkedFacts(entities, artifacts, d.entities);
      if !ok { return; }
      relationships, ok := StoreLinkedFacts(relationships, artifacts, d.relationships);
      if !ok { return; }
      var rows;
      rows, ok := StoreFactRows(signals.rows, artifacts, d.signals);
      signals := Table(rows, signals.index);
      if !ok { return; }
      rows, ok := StoreFactRows(items.rows, artifacts, d.items);
      items := Table(rows, items.index);
      if !ok { return; }
      var index := ExtendIndex(signals.index, a.key, d.signals);
      signals := Table(signals.rows, index);
      index := ExtendIndex(items.index, a.key, d.items);
      items := Table(items.rows, index);
    }

    method ListArtifacts(k: Key) returns (found: seq<Artifact>)
      requires Valid(Value())
      ensures found == Rows(artifacts, IdsOf(artifactIndex, k))
      ensures seq(|found|, i requires 0 <= i < |found| => found[i].id) == IdsOf(artifactIndex, k)
    {
      var ids := IdsOf(artifactIndex, k);
      assert Known(artifacts, ids);
      found := [];
      for i := 0 to |ids|
        invariant |found| == i && forall j :: 0 <= j < i ==> found[j] == artifacts[ids[j]]
      {
        found := found + [artifacts[ids[i]]];
      }
    }

    method ListChunks(ids: seq<string>) returns (found: seq<ArtifactChunk>)
      ensures found == ChunksFor(chunks, ids)
    {
      found := [];
      for i := 0 to |chunks|
        invariant found + ChunksFor(chunks[i..], ids) == ChunksFor(chunks, ids)
      {
        assert chunks[i..][0] == chunks[i] && chunks[i..][1..] == chunks[i + 1..];
        if chunks[i].artifactId in ids { found := found + [chunks[i]]; }
      }
    }

    /** `get_perspective`, building the context from the owner's lists when there is no usable view. */
    method GetPerspective(reg: Registry, k: Key, viewId: string, regenerate: bool) returns (served: Served)
      requires Valid(Value())
      modifies this
      ensures (Value(), served) == GetView(reg, old(Value()), k, viewId, regenerate)
    {
      var found := ListArtifacts(k);
      var ids := seq(|found|, i requires 0 <= i < |found| => found[i].id);
      if !regenerate && (k, viewId) in views {
        var v := views[(k, viewId)];
        return ServedView(v.view, ids != v.sourceIds);
      }
      if (k.domain, viewId) !in reg.known { return Failed; }
      var cs := ListChunks(ids);
      var context := Context(k, found, cs,
                             Rows(entities.rows, IdsOf(entities.index, k)),
                             Rows(relationships.rows, IdsOf(relationships.index, k)),
                             Rows(signals.rows, IdsOf(signals.index, k)),
                             Rows(items.rows, IdsOf(items.index, k)));
      assert context == ContextOf(Value(), k);
      var view := reg.build(viewId, context);
      views := views[(k, view.definitionId) := CachedView(view, ids)];
      served := ServedView(view, false);
    }
  }
}
