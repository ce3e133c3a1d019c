/** Compact ids in prompts, and the model's citations mapped back to chunks of the context. */
module PromptIds {
  import opened Wrappers
  import opened Strings
  import opened ContextModels

  // ---- the compact-id map -----------------------------------------------------------

  /** A dictionary in insertion order. */
  type Dict = seq<(string, string)>

  datatype Kind = ArtifactId | ChunkId | SignalId | ItemId

  function Prefix(k: Kind): char {
    match k case ArtifactId => 'a' case ChunkId => 'c' case SignalId => 's' case ItemId => 'i'
  }

  function Lookup(d: Dict, key: string): (r: Option<string>)
    ensures r.None? <==> forall i :: 0 <= i < |d| ==> d[i].0 != key
    ensures r.Some? ==> (key, r.value) in d
  {
    if d == [] then None else if d[0].0 == key then Some(d[0].1) else Lookup(d[1..], key)
  }

  function Compact(d: Dict, original: string, k: Kind): (r: (Dict, string)) {
    match Lookup(d, original)
    case Some(compact) => (d, compact)
    case None => var compact := [Prefix(k)] + Decimal(|d| + 1); (d + [(original, compact)], compact)
  }

  /** `original_chunk_id`: the first entry with that compact id; otherwise the id itself. */
  function Original(d: Dict, id: string): (r: string) {
    if d == [] then id else if d[0].1 == id then d[0].0 else Original(d[1..], id)
  }

  /** Entry `i` maps a distinct original to the prefix and `i + 1`. */
  ghost predicate Numbered(d: Dict, k: Kind) {
    && (forall i :: 0 <= i < |d| ==> d[i].1 == [Prefix(k)] + Decimal(i + 1))
    && (forall i, j :: 0 <= i < j < |d| ==> d[i].0 != d[j].0)
  }

  lemma CompactKeepsNumbered(d: Dict, original: string, k: Kind)
    requires Numbered(d, k)
    ensures var (r, id) := Compact(d, original, k); Numbered(r, k) && d <= r && (original, id) in r
  {
    var (r, id) := Compact(d, original, k);
    if Lookup(d, original).None? { assert r[|d|] == (original, id); }
  }

  lemma NumbersDiffer(k: Kind, i: nat, j: nat)
    requires [Prefix(k)] + Decimal(i) == [Prefix(k)] + Decimal(j)
    ensures i == j
  {
    assert ([Prefix(k)] + Decimal(i))[1..] == Decimal(i);
    assert ([Prefix(k)] + Decimal(j))[1..] == Decimal(j);
    DecimalInjective(i, j);
  }

  /** Entries of one map agree on the original exactly when they agree on the compact id. */
  lemma OneToOne(d: Dict, k: Kind, a: (string, string), b: (string, string))
    requires Numbered(d, k) && a in d && b in d
    ensures a.0 == b.0 <==> a.1 == b.1
  {
    var i :| 0 <= i < |d| && d[i] == a;
    var j :| 0 <= j < |d| && d[j] == b;
    if a.1 == b.1 { NumbersDiffer(k, i + 1, j + 1); }
  }

  lemma {:induction false} OriginalIs(d: Dict, e: (string, string))
    requires e in d && forall x :: x in d && x.1 == e.1 ==> x == e
    ensures Original(d, e.1) == e.0
  {
    if d[0].1 != e.1 {
      OriginalIs(d[1..], e);
    } else {
      assert d[0] in d;
    }
  }

  lemma {:induction false} OriginalOfOther(d: Dict, id: string)
    requires forall x :: x in d ==> x.1 != id
    ensures Original(d, id) == id
  {
    if d != [] {
      assert d[0] in d;
      OriginalOfOther(d[1..], id);
    }
  }

  /** Reading back a compact id of the map gives its original. */
  lemma Inverts(d: Dict, k: Kind, e: (string, string))
    requires Numbered(d, k) && e in d
    ensures Original(d, e.1) == e.0
  {
    forall x | x in d && x.1 == e.1 ensures x == e { OneToOne(d, k, x, e); }
    OriginalIs(d, e);
  }

  /** An original reads back as itself exactly when it is not the compact id of another original. */
  lemma OriginalReadsBack(d: Dict, k: Kind, id: string)
    requires Numbered(d, k)
    ensures Original(d, id) == id <==> forall x :: x in d && x.1 == id ==> x.0 == id
  {
    if e :| e in d && e.1 == id {
      Inverts(d, k, e);
      forall x | x in d && x.1 == id ensures x == e { OneToOne(d, k, x, e); }
    } else {
      OriginalOfOther(d, id);
    }
  }

  // ---- every sequence of compaction calls -------------------------------------------

  datatype Call = Call(kind: Kind, original: string)

  datatype IdMaps = IdMaps(artifacts: Dict, chunks: Dict, signals: Dict, items: Dict) {
    function Of(k: Kind): (d: Dict) {
      match k case ArtifactId => artifacts case ChunkId => chunks case SignalId => signals case ItemId => items
    }

    function With(k: Kind, d: Dict): (r: IdMaps)
      ensures r.Of(k) == d && forall j :: j != k ==> r.Of(j) == Of(j)
    {
      match k
      case ArtifactId => this.(artifacts := d)
      case ChunkId => this.(chunks := d)
      case SignalId => this.(signals := d)
      case ItemId => this.(items := d)
    }
  }

  function NoIds(): IdMaps { IdMaps([], [], [], []) }

  function Apply(m: IdMaps, c: Call): (r: (IdMaps, string)) {
    var (d, id) := Compact(m.Of(c.kind), c.original, c.kind);
    (m.With(c.kind, d), id)
  }

  function Run(m: IdMaps, calls: seq<Call>): (r: (IdMaps, seq<string>))
    ensures |r.1| == |calls|
    decreases |calls|
  {
    if calls == [] then (m, [])
    else
      var (next, id) := Apply(m, calls[0]);
      var (last, ids) := Run(next, calls[1..]);
      (last, [id] + ids)
  }

  ghost predicate AllNumbered(m: IdMaps) { forall k :: Numbered(m.Of(k), k) }

  ghost predicate Grown(m: IdMaps, r: IdMaps) { forall k :: m.Of(k) <= r.Of(k) }

  lemma ApplyKeeps(m: IdMaps, c: Call)
    requires AllNumbered(m)
    ensures var (r, id) := Apply(m, c); AllNumbered(r) && Grown(m, r) && (c.original, id) in r.Of(c.kind)
  {
    CompactKeepsNumbered(m.Of(c.kind), c.original, c.kind);
  }

  lemma {:induction false} RunRecords(m: IdMaps, calls: seq<Call>)
    requires AllNumbered(m)
    ensures var (r, ids) := Run(m, calls);
            && AllNumbered(r) && Grown(m, r)
            && forall i :: 0 <= i < |calls| ==> (calls[i].original, ids[i]) in r.Of(calls[i].kind)
    decreases |calls|
  {
    if calls != [] {
      ApplyKeeps(m, calls[0]);
      var (next, id) := Apply(m, calls[0]);
      RunRecords(next, calls[1..]);
      var (r, ids) := Run(m, calls);
      var (_, rest) := Run(next, calls[1..]);
      forall i | 0 <= i < |calls| ensures (calls[i].original, ids[i]) in r.Of(calls[i].kind) {
        if i > 0 { assert calls[i] == calls[1..][i - 1] && ids[i] == rest[i - 1]; }
        else { assert next.Of(calls[0].kind) <= r.Of(calls[0].kind); }
      }
    }
  }

  /**
    Over any sequence of calls, two calls get the same compact id exactly when they ask for the same
    original of the same kind, and the final map reads every chunk's compact id back.
   */
  lemma {:induction false} AnswersIdentify(calls: seq<Call>, i: nat, j: nat)
    requires i < |calls| && j < |calls|
    ensures var (m, ids) := Run(NoIds(), calls);
            && (ids[i] == ids[j] <==> calls[i] == calls[j])
            && (calls[i].kind == ChunkId ==> Original(m.chunks, ids[i]) == calls[i].original)
  {
    RunRecords(NoIds(), calls);
    var r := Run(NoIds(), calls);
    Identify(r.0, calls[i], r.1[i], calls[j], r.1[j]);
  }

  lemma Identify(m: IdMaps, c1: Call, id1: string, c2: Call, id2: string)
    requires AllNumbered(m) && (c1.original, id1) in m.Of(c1.kind) && (c2.original, id2) in m.Of(c2.kind)
    ensures id1 == id2 <==> c1 == c2
    ensures c1.kind == ChunkId ==> Original(m.chunks, id1) == c1.original
  {
    RecordsIdentify(m, c1.kind, (c1.original, id1), c2.kind, (c2.original, id2));
    if c1.kind == ChunkId { Inverts(m.Of(ChunkId), ChunkId, (c1.original, id1)); }
  }

  lemma RecordsIdentify(m: IdMaps, ka: Kind, a: (string, string), kb: Kind, b: (string, string))
    requires AllNumbered(m) && a in m.Of(ka) && b in m.Of(kb)
    ensures a.1 == b.1 <==> ka == kb && a.0 == b.0
  {
    StartsWithPrefix(m, ka, a);
    StartsWithPrefix(m, kb, b);
    if ka == kb { OneToOne(m.Of(ka), ka, a, b); }
  }

  lemma StartsWithPrefix(m: IdMaps, k: Kind, e: (string, string))
    requires AllNumbered(m) && e in m.Of(k)
    ensures e.1 != "" && e.1[0] == Prefix(k)
  {
    assert Numbered(m.Of(k), k);
  }

  class PromptIdMap {
    var artifactIds: Dict
    var chunkIds: Dict
    var signalIds: Dict
    var itemIds: Dict

    ghost function Value(): (m: IdMaps)
      reads this
    {
      IdMaps(artifactIds, chunkIds, signalIds, itemIds)
    }

    constructor ()
      ensures Value() == NoIds()
    {
      artifactIds, chunkIds, signalIds, itemIds := [], [], [], [];
    }

    method CompactId(k: Kind, original: string) returns (id: string)
      modifies this
      ensures (Value(), id) == Apply(old(Value()), Call(k, original))
    {
      var r;
      match k {
        case ArtifactId => r := Compact(artifactIds, original, k); artifactIds := r.0;
        case ChunkId => r := Compact(chunkIds, original, k); chunkIds := r.0;
        case SignalId => r := Compact(signalIds, original, k); signalIds := r.0;
        case ItemId => r := Compact(itemIds, original, k); itemIds := r.0;
      }
      id := r.1;
    }

    method OriginalChunkId(id: string) returns (original: string)
      ensures original == Original(chunkIds, id)
    {
      for i := 0 to |chunkIds|
        invariant Original(chunkIds, id) == Original(chunkIds[i..], id)
      {
        assert chunkIds[i..][1..] == chunkIds[i + 1..];
        if chunkIds[i].1 == id { return chunkIds[i].0; }
      }
      return id;
    }
  }

  // ---- mapping the model's output back ----------------------------------------------

  datatype Reference = Reference(chunkId: string, excerpt: string, heading: string)

  datatype Section = Section(id: string, title: string, conclusion: string, why: string, implications: seq<string>,
                             references: seq<Reference>)

  datatype Output = Output(title: string, sections: seq<Section>)

  /** `{key(x): x for x in xs}` looked up: the last element with that key. */
  function ChunkFor(d: Dict, cs: seq<ArtifactChunk>, key: string): (r: Option<ArtifactChunk>) {
    if cs == [] then None
    else if Original(d, cs[|cs| - 1].id) == key then Some(cs[|cs| - 1])
    else ChunkFor(d, cs[..|cs| - 1], key)
  }

  function ArtifactFor(artifacts: seq<Artifact>, id: string): (r: Option<Artifact>)
    ensures r.Some? ==> r.value in artifacts && r.value.id == id
    ensures r.None? ==> forall a :: a in artifacts ==> a.id != id
  {
    if artifacts == [] then None
    else if artifacts[|artifacts| - 1].id == id then Some(artifacts[|artifacts| - 1])
    else ArtifactFor(artifacts[..|artifacts| - 1], id)
  }

  /**
    The evidence for one reference; `None` is the error raised for an unknown chunk, an unknown
    artifact or a blank excerpt.
   */
  function Evidence(d: Dict, artifacts: seq<Artifact>, cs: seq<ArtifactChunk>,
                    ref: Reference): (r: Option<SourceLink>) {
    match ChunkFor(d, cs, Original(d, ref.chunkId))
    case None => None
    case Some(ch) => EvidenceIn(artifacts, ch, ref)
  }

  function EvidenceIn(artifacts: seq<Artifact>, ch: ArtifactChunk, ref: Reference): (r: Option<SourceLink>) {
    var excerpt := Trim(Python, ref.excerpt);
    match ArtifactFor(artifacts, ch.artifactId)
    case None => None
    case Some(a) =>
      if excerpt == "" then None
      else Some(SourceLink(a.id, ch.id, ch.start, ch.end, if ref.heading != "" then ref.heading else a.typeId,
                           if |excerpt| <= 1000 then excerpt else excerpt[..1000]))
  }

  function Implications(xs: seq<string>): (s: string) {
    if xs == [] then "" else "\nImplication: " + xs[0] + Implications(xs[1..])
  }

  function Content(s: Section): string { s.conclusion + "\nWhy it matters: " + s.why + Implications(s.implications) }

  lemma {:induction false} OneMoreImplication(xs: seq<string>, x: string)
    ensures Implications(xs + [x]) == Implications(xs) + "\nImplication: " + x
  {
    if xs == [] {
      assert ([x])[1..] == [] && xs + [x] == [x];
    } else {
      assert (xs + [x])[0] == xs[0] && (xs + [x])[1..] == xs[1..] + [x];
      OneMoreImplication(xs[1..], x);
    }
  }

  /** A section's content is its conclusion, why it matters, and every implication on a line of its own, in order. */
  lemma ContentIs(s: Section, xs: seq<string>, x: string)
    ensures s.implications == [] ==> Content(s) == s.conclusion + "\nWhy it matters: " + s.why
    ensures s.implications == xs + [x] ==> Content(s) == Content(s.(implications := xs)) + "\nImplication: " + x
  {
    OneMoreImplication(xs, x);
  }

  /** The link names a chunk of the context and the artifact of the context that owns it. */
  ghost predicate Grounded(artifacts: seq<Artifact>, cs: seq<ArtifactChunk>, l: SourceLink) {
    exists ch, a :: ch in cs && a in artifacts && ch.artifactId == a.id
                    && l.chunkId == ch.id && l.artifactId == a.id && l.start == ch.start && l.end == ch.end
                       && l.excerpt != ""
  }

  /** Without a heading of its own a link is headed by the type of its artifact. */
  ghost predicate HeadedByType(artifacts: seq<Artifact>, l: SourceLink) {
    exists a :: a in artifacts && a.id == l.artifactId && l.heading == a.typeId
  }

  lemma {:induction false} ChunkForIs(d: Dict, cs: seq<ArtifactChunk>, key: string)
    ensures var r := ChunkFor(d, cs, key);
            if r.Some? then
              exists i :: 0 <= i < |cs| && cs[i] == r.value && Original(d, cs[i].id) == key
                          && forall j :: i < j < |cs| ==> Original(d, cs[j].id) != key
            else forall j :: 0 <= j < |cs| ==> Original(d, cs[j].id) != key
  {
    if cs != [] && Original(d, cs[|cs| - 1].id) != key { ChunkForIs(d, cs[..|cs| - 1], key); }
  }

  lemma EvidenceIsGrounded(d: Dict, artifacts: seq<Artifact>, cs: seq<ArtifactChunk>, ref: Reference)
    ensures var r := Evidence(d, artifacts, cs, ref);
            r.Some? ==>
              && Grounded(artifacts, cs, r.value)
              && r.value.excerpt <= Trim(Python, ref.excerpt) && |r.value.excerpt| <= 1000
              && (r.value.excerpt == Trim(Python, ref.excerpt) || |r.value.excerpt| == 1000)
              && (if ref.heading != "" then r.value.heading == ref.heading else HeadedByType(artifacts, r.value))
    ensures Trim(Python, ref.excerpt) == "" ==> Evidence(d, artifacts, cs, ref).None?
  {
    var key := Original(d, ref.chunkId);
    ChunkForIs(d, cs, key);
    var found := ChunkFor(d, cs, key);
    if found.Some? { assert found.value in cs; }
  }

  /** Section `s` became `v`, each reference with its evidence, in order. */
  ghost predicate Mapped(d: Dict, artifacts: seq<Artifact>, cs: seq<ArtifactChunk>, s: Section, v: ViewSection) {
    && v.id == s.id && v.title == s.title && v.content == Content(s)
    && |v.evidence| == |s.references|
    && forall i :: 0 <= i < |s.references| ==> Evidence(d, artifacts, cs, s.references[i]) == Some(v.evidence[i])
  }

  ghost predicate Citable(d: Dict, artifacts: seq<Artifact>, cs: seq<ArtifactChunk>, s: Section) {
    forall i :: 0 <= i < |s.references| ==> Evidence(d, artifacts, cs, s.references[i]).Some?
  }

  /** `_map_perspective_output`; `None` is the error it raises. */
  method MapPerspectiveOutput(output: Output, artifacts: seq<Artifact>, cs: seq<ArtifactChunk>, viewId: string, d: Dict)
    returns (view: Option<PerspectiveView>)
    ensures view.Some? <==> forall i :: 0 <= i < |output.sections| ==> Citable(d, artifacts, cs, output.sections[i])
    ensures view.Some? ==> && view.value.definitionId == viewId && view.value.title == output.title
                           && |view.value.sections| == |output.sections|
                           && forall i :: 0 <= i < |output.sections| ==>
                                Mapped(d, artifacts, cs, output.sections[i], view.value.sections[i])
  {
    var sections := [];
    for i := 0 to |output.sections|
      invariant |sections| == i
      invariant forall j :: 0 <= j < i ==> Citable(d, artifacts, cs, output.sections[j])
      invariant forall j :: 0 <= j < i ==> Mapped(d, artifacts, cs, output.sections[j], sections[j])
    {
      var s := output.sections[i];
      var evidence := [];
      for n := 0 to |s.references|
        invariant |evidence| == n
        invariant forall m :: 0 <= m < n ==> Evidence(d, artifacts, cs, s.references[m]) == Some(evidence[m])
      {
        var link := Evidence(d, artifacts, cs, s.references[n]);
        if link.None? {
          assert !Citable(d, artifacts, cs, s);
          return None;
        }
        evidence := evidence + [link.value];
      }
      sections := sections + [ViewSection(s.id, s.title, Content(s), evidence)];
    }
    view := Some(PerspectiveView(viewId, output.title, sections));
  }

  datatype Mode = Deterministic | Llm | Hybrid

  /** What the execution context does: is absent, fails before or during the model call, or answers. */
  datatype Execution = NotConfigured | Fails | Resolved(mode: Mode, answer: Option<Output>)

  ghost predicate ViewGrounded(artifacts: seq<Artifact>, cs: seq<ArtifactChunk>, v: PerspectiveView) {
    forall i, n :: 0 <= i < |v.sections| && 0 <= n < |v.sections[i].evidence| ==>
      Grounded(artifacts, cs, v.sections[i].evidence[n])
  }

  /**
    `build_with_execution`, for any sequence of compaction calls made for the prompt and any answer:
    the deterministic view, or one that cites nothing outside the context.
   */
  method BuildWithExecution(deterministic: PerspectiveView, execution: Execution, artifacts: seq<Artifact>,
                            cs: seq<ArtifactChunk>,
                            viewId: string, calls: seq<Call>)
    returns (view: PerspectiveView)
    ensures view == deterministic || (view.definitionId == viewId && ViewGrounded(artifacts, cs, view))
    ensures !execution.Resolved? || execution.mode == Deterministic || execution.answer.None? ==> view == deterministic
    ensures execution.Resolved? && execution.mode != Deterministic && execution.answer.Some? ==>
      var d, output := Run(NoIds(), calls).0.chunks, execution.answer.value;
      if forall i :: 0 <= i < |output.sections| ==> Citable(d, artifacts, cs, output.sections[i]) then
        && |view.sections| == |output.sections|
        && forall i :: 0 <= i < |output.sections| ==> Mapped(d, artifacts, cs, output.sections[i], view.sections[i])
      else view == deterministic
  {
    view := deterministic;
    if execution.NotConfigured? || execution.Fails? || execution.mode == Deterministic { return; }
    var ids := new PromptIdMap();
    for i := 0 to |calls|
      invariant Run(ids.Value(), calls[i..]).0 == Run(NoIds(), calls).0
    {
      assert calls[i..][0] == calls[i] && calls[i..][1..] == calls[i + 1..];
      var _ := ids.CompactId(calls[i].kind, calls[i].original);
    }
    if execution.answer.None? { return; }
    var mapped := MapPerspectiveOutput(execution.answer.value, artifacts, cs, viewId, ids.chunkIds);
    if mapped.None? { return; }
    view := mapped.value;
    forall i, n | 0 <= i < |view.sections| && 0 <= n < |view.sections[i].evidence|
      ensures Grounded(artifacts, cs, view.sections[i].evidence[n])
    {
      var s := execution.answer.value.sections[i];
      assert Mapped(ids.chunkIds, artifacts, cs, s, view.sections[i]);
      EvidenceIsGrounded(ids.chunkIds, artifacts, cs, s.references[n]);
    }
  }

  // ---- the cited chunk is the one that was shown ------------------------------------

  ghost predicate DistinctIds(cs: seq<ArtifactChunk>) { forall i, j :: 0 <= i < j < |cs| ==> cs[i].id != cs[j].id }

  /**
    Citing the compact id under which chunk `i` was shown resolves to chunk `i` exactly when its
    own id is not the compact id of another shown chunk and no later chunk's id is its compact id.
   */
  lemma {:induction false} CitationResolves(calls: seq<Call>, cs: seq<ArtifactChunk>, i: nat, compact: string)
    requires DistinctIds(cs) && i < |cs| && (cs[i].id, compact) in Run(NoIds(), calls).0.chunks
    ensures var d := Run(NoIds(), calls).0.chunks;
            ChunkFor(d, cs, Original(d, compact)) == Some(cs[i]) <==>
              && (forall e :: e in d && e.1 == cs[i].id ==> e.0 == cs[i].id)
              && (forall j :: i < j < |cs| ==> cs[j].id != compact)
  {
    RunRecords(NoIds(), calls);
    assert Numbered(Run(NoIds(), calls).0.Of(ChunkId), ChunkId);
    CitationIn(Run(NoIds(), calls).0.chunks, cs, i, compact);
  }

  lemma CitationIn(d: Dict, cs: seq<ArtifactChunk>, i: nat, compact: string)
    requires Numbered(d, ChunkId) && DistinctIds(cs) && i < |cs| && (cs[i].id, compact) in d
    ensures ChunkFor(d, cs, Original(d, compact)) == Some(cs[i]) <==>
              && (forall e :: e in d && e.1 == cs[i].id ==> e.0 == cs[i].id)
              && (forall j :: i < j < |cs| ==> cs[j].id != compact)
  {
    var x := cs[i].id;
    Inverts(d, ChunkId, (x, compact));
    ChunkForIs(d, cs, x);
    OriginalReadsBack(d, ChunkId, x);
    forall j | i < j < |cs| ensures Original(d, cs[j].id) == x <==> cs[j].id == compact {
      OnlyCompactReadsAs(d, x, compact, cs[j].id);
    }
  }

  predicate LooksCompact(id: string) { |id| > 1 && id[0] == 'c' && AllDigits(id[1..]) }

  /**
    If no chunk id looks like "c" and digits, every citation of a shown chunk resolves to it, and
    originals read as themselves.
   */
  lemma {:induction false} PlainIdsResolve(calls: seq<Call>, cs: seq<ArtifactChunk>, i: nat, compact: string)
    requires DistinctIds(cs) && i < |cs| && (cs[i].id, compact) in Run(NoIds(), calls).0.chunks
    requires forall j :: 0 <= j < |cs| ==> !LooksCompact(cs[j].id)
    ensures var d := Run(NoIds(), calls).0.chunks;
            && ChunkFor(d, cs, Original(d, compact)) == Some(cs[i])
            && Original(d, cs[i].id) == cs[i].id
  {
    RunRecords(NoIds(), calls);
    var d := Run(NoIds(), calls).0.chunks;
    assert Numbered(Run(NoIds(), calls).0.Of(ChunkId), ChunkId);
    forall e | e in d ensures LooksCompact(e.1) { CompactLooks(d, e); }
    CitationResolves(calls, cs, i, compact);
    OriginalOfOther(d, cs[i].id);
  }

  lemma CompactLooks(d: Dict, e: (string, string))
    requires Numbered(d, ChunkId) && e in d
    ensures LooksCompact(e.1)
  {
    var i :| 0 <= i < |d| && d[i] == e;
    assert ([Prefix(ChunkId)] + Decimal(i + 1))[1..] == Decimal(i + 1);
  }

  /** Apart from itself, only its compact id reads back as `x`. */
  lemma OnlyCompactReadsAs(d: Dict, x: string, compact: string, id: string)
    requires Numbered(d, ChunkId) && (x, compact) in d && id != x
    ensures Original(d, id) == x <==> id == compact
  {
    Inverts(d, ChunkId, (x, compact));
    if e :| e in d && e.1 == id {
      Inverts(d, ChunkId, e);
      OneToOne(d, ChunkId, e, (x, compact));
    } else {
      OriginalOfOther(d, id);
    }
  }

  /** With two chunks "x" and "c1", the citation of the first resolves to the second. */
  lemma LookAlikeMisleads(first: ArtifactChunk, second: ArtifactChunk)
    requires first.id == "x" && second.id == "c1"
    ensures var calls := [Call(ChunkId, "x"), Call(ChunkId, "c1")];
            var (m, ids) := Run(NoIds(), calls);
            ids == ["c1", "c2"] && ChunkFor(m.chunks, [first, second], Original(m.chunks, ids[0])) == Some(second)
  {
    var calls := [Call(ChunkId, "x"), Call(ChunkId, "c1")];
    var m1 := NoIds().(chunks := [("x", "c1")]);
    var m2 := NoIds().(chunks := [("x", "c1"), ("c1", "c2")]);
    assert [] + [("x", "c1")] == [("x", "c1")];
    assert Decimal(1) == "1" && Decimal(2) == "2" && ['c'] + "1" == "c1" && ['c'] + "2" == "c2";
    assert calls[1..] == [calls[1]] && calls[1..][1..] == [];
    assert Apply(NoIds(), calls[0]) == (m1, "c1");
    assert Lookup(m1.chunks, "c1") == None;
    assert m1.chunks + [("c1", "c2")] == m2.chunks;
    assert Apply(m1, calls[1]) == (m2, "c2");
    assert Run(m2, []) == (m2, []) && ["c2"] + [] == ["c2"];
    assert Run(m1, calls[1..]) == (m2, ["c2"]);
    assert Original(m2.chunks, "c1") == "x";
  }
}
