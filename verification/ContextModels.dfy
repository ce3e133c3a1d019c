/** The records that the context engine stores, chunks, cites and shows. */
module ContextModels {
  /** An owner's namespace: domain, owner type, owner id. */
  datatype Key = Key(domain: string, ownerType: string, ownerId: string)

  datatype Artifact = Artifact(id: string, key: Key, typeId: string, text: string)

  /** A pointer back to a span of an artifact's text; `heading` is the label, empty when there is none. */
  datatype SourceLink = SourceLink(artifactId: string, chunkId: string, start: nat, end: nat, heading: string,
                                   excerpt: string)

  datatype ArtifactChunk = ArtifactChunk(
    id: string, artifactId: string, index: nat, text: string, start: nat, end: nat, link: SourceLink)

  datatype ViewSection = ViewSection(id: string, title: string, content: string, evidence: seq<SourceLink>)
  datatype PerspectiveView = PerspectiveView(definitionId: string, title: string, sections: seq<ViewSection>)
}
