/**
 * The records the pipeline passes between its stages: chunks of documents, their
 * embeddings, the 2-D cluster points, and the graph with its metrics.
 * Only the fields that the modelled services read or write are kept.
 */
module Types {
  import opened Js

  /** A piece of a source document. */
  datatype DocumentChunk = DocumentChunk(
    id: string,
    source: string,
    pageNumber: Option<int>,
    content: string,
    tokens: Num,
    entityType: Option<string>,
    entityLabel: Option<string>,
    keywords: Option<seq<string>>,
    contentOriginal: Option<string>,
    aiProvider: Option<string>,
    uploadTime: Option<string>)

  /** The embedding of one chunk. */
  datatype EmbeddingVector = EmbeddingVector(
    id: string,
    vector: seq<Num>,
    fullContent: string,
    dueDate: Option<string>,
    entityType: Option<string>,
    entityLabel: Option<string>,
    keywords: Option<seq<string>>,
    modelUsed: Option<string>)

  /** One embedding placed on the 2-D map, with the cluster it fell into. */
  datatype ClusterPoint = ClusterPoint(
    id: string,
    x: Num,
    y: Num,
    clusterId: int,
    labelText: string,
    fullContent: string,
    dueDate: Option<string>,
    entityType: Option<string>,
    entityLabel: Option<string>,
    keywords: Option<seq<string>>)

  datatype GraphNode = GraphNode(
    id: string,
    labelText: string,
    group: int,
    fullContent: string,
    centrality: Num,
    dueDate: Option<string>,
    entityType: Option<string>,
    keywords: Option<seq<string>>)

  /** The three kinds of edge, in increasing precedence when two observations of a pair disagree. */
  datatype LinkType = CoOcorrencia | Semantico | Hierarquico

  datatype GraphLink = GraphLink(source: string, target: string, value: Num, confidence: real, linkType: LinkType)

  datatype GraphMetrics = GraphMetrics(
    density: real,
    avgDegree: real,
    modularity: real,
    silhouetteScore: Num,
    totalNodes: nat,
    totalEdges: nat,
    connectedComponents: nat)

  datatype GraphData = GraphData(nodes: seq<GraphNode>, links: seq<GraphLink>, metrics: Option<GraphMetrics>)
}
