/**
 * The `Validator` checks of services/validator.ts. Each single-item check runs its guards
 * in a fixed order and stops at the first that fails; a thrown `ValidationError` is modelled
 * as an `Invalid` verdict carrying its message and field. The batch checks and the pipeline
 * integrity check collect messages in a loop.
 *
 * The records are typed here, so the source's `typeof` tests always pass; a missing required
 * string is an empty one, which JavaScript treats as falsy just like a missing value.
 */
module Validator {
  import opened Js
  import opened Types

  datatype Verdict = Valid | Invalid(message: string, field: string)

  // ---------------------------------------------------------------------------
  // Chunks
  // ---------------------------------------------------------------------------

  const MaxChunkLength := 10000

  /** A string field that JavaScript reads as truthy: present and not empty. */
  predicate Present(s: Option<string>)
  {
    s.Some? && s.value != ""
  }

  /** `tokens < 0` on a JavaScript number: false for NaN. */
  predicate NegativeNum(n: Num)
  {
    (n.Fin? && n.v < 0.0) || (n.Infinity? && n.negative)
  }

  /** Everything `validateChunk` demands of a chunk, taken together. */
  predicate ChunkOk(c: DocumentChunk)
  {
    c.id != "" && !IsBlank(c.content) && Utf16Length(c.content) <= MaxChunkLength && c.source != ""
    && !NegativeNum(c.tokens) && Present(c.entityType)
  }

  /** `validateChunk`: the first guard that fails gives the error. */
  function ValidateChunk(c: DocumentChunk): (r: Verdict)
    ensures r.Valid? <==> ChunkOk(c)
    ensures c.id == "" ==> r.Invalid? && r.field == "id"
    ensures c.id != "" && IsBlank(c.content) ==> r.Invalid? && r.field == "content"
    ensures r.Invalid? ==> r.field in {"id", "content", "source", "tokens", "entityType"}
  {
    if c.id == "" then Invalid("Chunk ID inválido ou ausente", "id")
    else if IsBlank(c.content) then Invalid("Conteúdo do chunk vazio ou inválido", "content")
    else if Utf16Length(c.content) > MaxChunkLength then Invalid("Chunk muito grande (> 10.000 caracteres)", "content")
    else if c.source == "" then Invalid("Source do chunk inválido", "source")
    else if NegativeNum(c.tokens) then Invalid("Contagem de tokens inválida", "tokens")
    else if !Present(c.entityType) then Invalid("Entity type inválido", "entityType")
    else Valid
  }

  // ---------------------------------------------------------------------------
  // Embeddings
  // ---------------------------------------------------------------------------

  /** The embedding sizes `validateEmbedding` expects; any other size only draws a warning. */
  const CommonDimensions: seq<nat> := [384, 512, 768, 1024, 1536, 3072]

  predicate AllFinite(v: seq<Num>)
  {
    forall k :: 0 <= k < |v| ==> v[k].Fin?
  }

  predicate AllZero(v: seq<Num>)
    requires AllFinite(v)
  {
    forall k :: 0 <= k < |v| ==> v[k].v == 0.0
  }

  /** Everything `validateEmbedding` demands; the vector's size is not among it. */
  predicate EmbeddingOk(e: EmbeddingVector)
  {
    e.id != "" && |e.vector| > 0 && AllFinite(e.vector) && !AllZero(e.vector) && Present(e.modelUsed)
  }

  /** A verdict and whether the unusual-size warning was written. */
  datatype EmbeddingCheck = EmbeddingCheck(verdict: Verdict, unusualDimension: bool)

  /**
   * `validateEmbedding`. Over the reals the norm `sqrt(sum of squares)` is zero exactly when
   * every entry is zero, so the norm test is the all-zero test.
   */
  function ValidateEmbedding(e: EmbeddingVector): (r: EmbeddingCheck)
    ensures r.verdict.Valid? <==> EmbeddingOk(e)
    ensures r.unusualDimension <==> e.id != "" && |e.vector| > 0 && |e.vector| !in CommonDimensions
    ensures r.verdict.Invalid? && e.id != "" ==> r.verdict.field in {"vector", "modelUsed"}
  {
    if e.id == "" then EmbeddingCheck(Invalid("Embedding ID inválido", "id"), false)
    else if |e.vector| == 0 then EmbeddingCheck(Invalid("Vetor de embedding vazio ou inválido", "vector"), false)
    else
      var warn := |e.vector| !in CommonDimensions;
      if !AllFinite(e.vector) then EmbeddingCheck(Invalid("Vetor contém valores inválidos (NaN, Infinity)", "vector"), warn)
      else if AllZero(e.vector) then EmbeddingCheck(Invalid("Vetor zero (norma = 0)", "vector"), warn)
      else if !Present(e.modelUsed) then EmbeddingCheck(Invalid("Modelo usado não especificado", "modelUsed"), warn)
      else EmbeddingCheck(Valid, warn)
  }

  // ---------------------------------------------------------------------------
  // Cluster points
  // ---------------------------------------------------------------------------

  predicate ClusterOk(p: ClusterPoint)
  {
    p.id != "" && p.clusterId >= 0 && p.labelText != "" && p.x.Fin? && p.y.Fin?
  }

  /** `validateCluster`. */
  function ValidateCluster(p: ClusterPoint): (r: Verdict)
    ensures r.Valid? <==> ClusterOk(p)
    ensures p.id != "" && p.clusterId < 0 ==> r == Invalid("Cluster ID numérico inválido", "clusterId")
  {
    if p.id == "" then Invalid("Cluster ID inválido", "id")
    else if p.clusterId < 0 then Invalid("Cluster ID numérico inválido", "clusterId")
    else if p.labelText == "" then Invalid("Label do cluster inválido", "label")
    else if !p.x.Fin? then Invalid("Coordenada X inválida", "x")
    else if !p.y.Fin? then Invalid("Coordenada Y inválida", "y")
    else Valid
  }

  // ---------------------------------------------------------------------------
  // Graphs
  // ---------------------------------------------------------------------------

  predicate NodeOk(n: GraphNode)
  {
    n.id != "" && n.labelText != "" && n.centrality.Fin?
  }

  /** The error for one node, checked in the order of the `forEach`. */
  function NodeVerdict(n: GraphNode, idx: nat): (r: Verdict)
    ensures r.Valid? <==> NodeOk(n)
  {
    if n.id == "" then Invalid("Nó " + NatToString(idx) + " com ID inválido", "nodes[].id")
    else if n.labelText == "" then Invalid("Nó " + n.id + " sem label", "nodes[].label")
    else if !n.centrality.Fin? then Invalid("Centralidade inválida no nó " + n.id, "nodes[].centrality")
    else Valid
  }

  /** The `forEach` over the nodes from index `from` on: the first node that fails gives the error. */
  function NodesVerdict(nodes: seq<GraphNode>, from: nat): (r: Verdict)
    requires from <= |nodes|
    ensures r.Valid? <==> forall k :: from <= k < |nodes| ==> NodeOk(nodes[k])
    decreases |nodes| - from
  {
    if from == |nodes| then Valid
    else
      var v := NodeVerdict(nodes[from], from);
      if v.Invalid? then v else NodesVerdict(nodes, from + 1)
  }

  predicate HasNode(nodes: seq<GraphNode>, id: string)
  {
    exists k :: 0 <= k < |nodes| && nodes[k].id == id
  }

  predicate LinkOk(nodes: seq<GraphNode>, l: GraphLink)
  {
    HasNode(nodes, l.source) && HasNode(nodes, l.target) && l.value.Fin? && 0.0 <= l.value.v <= 1.0
  }

  function LinkVerdict(nodes: seq<GraphNode>, l: GraphLink, idx: nat): (r: Verdict)
    ensures r.Valid? <==> LinkOk(nodes, l)
  {
    if !HasNode(nodes, l.source) then Invalid("Link " + NatToString(idx) + " referencia source inexistente: " + l.source, "links[].source")
    else if !HasNode(nodes, l.target) then Invalid("Link " + NatToString(idx) + " referencia target inexistente: " + l.target, "links[].target")
    else if !(l.value.Fin? && 0.0 <= l.value.v <= 1.0) then
      Invalid("Peso do link " + NatToString(idx) + " inválido (deve estar entre 0 e 1)", "links[].value")
    else Valid
  }

  function LinksVerdict(nodes: seq<GraphNode>, links: seq<GraphLink>, from: nat): (r: Verdict)
    requires from <= |links|
    ensures r.Valid? <==> forall k :: from <= k < |links| ==> LinkOk(nodes, links[k])
    decreases |links| - from
  {
    if from == |links| then Valid
    else
      var v := LinkVerdict(nodes, links[from], from);
      if v.Invalid? then v else LinksVerdict(nodes, links, from + 1)
  }

  /** The checks of `validateGraph` that come before the average degree, in their order. */
  function GraphPrefixVerdict(g: GraphData): (r: Verdict)
  {
    if |g.nodes| == 0 then Invalid("Grafo sem nós ou inválido", "nodes")
    else
      var nv := NodesVerdict(g.nodes, 0);
      if nv.Invalid? then nv
      else
        var lv := LinksVerdict(g.nodes, g.links, 0);
        if lv.Invalid? then lv
        else if g.metrics.None? then Invalid("Métricas do grafo ausentes", "metrics")
        else if g.metrics.value.density < 0.0 || g.metrics.value.density > 1.0 then
          Invalid("Densidade do grafo inválida", "metrics.density")
        else Valid
  }

  const AverageDegreeError := Invalid("Grau médio inválido", "metrics.averageDegree")

  /**
   * `validateGraph` as written: it reads `metrics.averageDegree`, a field the metrics do not
   * have, so `typeof` gives `'undefined'` and the last guard always throws.
   */
  function ValidateGraphAsWritten(g: GraphData): (r: Verdict)
  {
    var p := GraphPrefixVerdict(g);
    if p.Invalid? then p else AverageDegreeError
  }

  /** No graph at all passes the check as written. */
  lemma ValidateGraphAsWrittenRejectsAll(g: GraphData)
    ensures ValidateGraphAsWritten(g).Invalid?
    ensures GraphPrefixVerdict(g).Valid? ==> ValidateGraphAsWritten(g) == AverageDegreeError
  {
  }

  /** Everything the corrected `validateGraph` demands. */
  predicate GraphOk(g: GraphData)
  {
    && |g.nodes| > 0
    && (forall k :: 0 <= k < |g.nodes| ==> NodeOk(g.nodes[k]))
    && (forall k :: 0 <= k < |g.links| ==> LinkOk(g.nodes, g.links[k]))
    && g.metrics.Some?
    && 0.0 <= g.metrics.value.density <= 1.0
    && g.metrics.value.avgDegree >= 0.0
  }

  /** `validateGraph` reading the field the graph builder writes, `avgDegree`. */
  function ValidateGraph(g: GraphData): (r: Verdict)
    ensures r.Valid? <==> GraphOk(g)
    ensures |g.nodes| == 0 ==> r == Invalid("Grafo sem nós ou inválido", "nodes")
  {
    var p := GraphPrefixVerdict(g);
    if p.Invalid? then p
    else if g.metrics.value.avgDegree < 0.0 then Invalid("Grau médio inválido", "metrics.avgDegree")
    else Valid
  }

  /** The two versions agree on every graph the corrected one rejects. */
  lemma ValidateGraphAgrees(g: GraphData)
    ensures !GraphOk(g) && GraphPrefixVerdict(g).Invalid? ==> ValidateGraphAsWritten(g) == ValidateGraph(g)
    ensures GraphOk(g) ==> ValidateGraphAsWritten(g) == AverageDegreeError
  {
  }

  // ---------------------------------------------------------------------------
  // Batches
  // ---------------------------------------------------------------------------

  /** The message a batch records for the item at `idx` that failed with `message`. */
  function BatchMessage(kind: string, idx: nat, id: string, message: string): string
  {
    kind + " " + NatToString(idx) + " (" + id + "): " + message
  }

  /** How many items pass. */
  function ValidCount<T>(items: seq<T>, check: T -> Verdict): (n: nat)
    ensures n <= |items|
  {
    if |items| == 0 then 0
    else ValidCount(items[..|items| - 1], check) + (if check(items[|items| - 1]).Valid? then 1 else 0)
  }

  /** The messages of the failing items, in item order. */
  function BatchErrors<T>(items: seq<T>, check: T -> Verdict, idOf: T -> string, kind: string): seq<string>
  {
    if |items| == 0 then []
    else
      var i := |items| - 1;
      var rest := BatchErrors(items[..i], check, idOf, kind);
      var v := check(items[i]);
      if v.Valid? then rest else rest + [BatchMessage(kind, i, idOf(items[i]), v.message)]
  }

  /** Every item is counted once: the passing ones and one message per failing one add up to the batch. */
  lemma {:induction false} BatchCounts<T>(items: seq<T>, check: T -> Verdict, idOf: T -> string, kind: string)
    ensures ValidCount(items, check) + |BatchErrors(items, check, idOf, kind)| == |items|
    ensures ValidCount(items, check) == |items| <==> forall k :: 0 <= k < |items| ==> check(items[k]).Valid?
  {
    if |items| > 0 {
      var init := items[..|items| - 1];
      BatchCounts(init, check, idOf, kind);
      assert forall k :: 0 <= k < |init| ==> init[k] == items[k];
    }
  }

  datatype BatchResult = BatchResult(valid: nat, invalid: nat, errors: seq<string>)

  /** The loop shared by `validateChunks` and `validateEmbeddings`. */
  method ValidateBatch<T>(items: seq<T>, check: T -> Verdict, idOf: T -> string, kind: string) returns (r: BatchResult)
    ensures r.valid == ValidCount(items, check)
    ensures r.errors == BatchErrors(items, check, idOf, kind)
    ensures r.valid + r.invalid == |items| && |r.errors| == r.invalid
  {
    var errors: seq<string> := [];
    var valid, invalid := 0, 0;
    for idx := 0 to |items|
      invariant valid == ValidCount(items[..idx], check)
      invariant errors == BatchErrors(items[..idx], check, idOf, kind)
      invariant valid + invalid == idx && |errors| == invalid
    {
      assert items[..idx + 1][..idx] == items[..idx];
      var v := check(items[idx]);
      if v.Valid? {
        valid := valid + 1;
      } else {
        invalid := invalid + 1;
        errors := errors + [BatchMessage(kind, idx, idOf(items[idx]), v.message)];
      }
    }
    assert items[..|items|] == items;
    r := BatchResult(valid, invalid, errors);
  }

  function ChunkId(c: DocumentChunk): string { c.id }

  /** `validateChunks`: a chunk counts as valid exactly when `validateChunk` accepts it. */
  method ValidateChunks(chunks: seq<DocumentChunk>) returns (r: BatchResult)
    ensures r.valid == ValidCount(chunks, ValidateChunk)
    ensures r.errors == BatchErrors(chunks, ValidateChunk, ChunkId, "Chunk")
    ensures r.valid + r.invalid == |chunks| && |r.errors| == r.invalid
  {
    r := ValidateBatch(chunks, ValidateChunk, ChunkId, "Chunk");
  }

  function EmbeddingVerdict(e: EmbeddingVector): Verdict { ValidateEmbedding(e).verdict }

  function EmbeddingId(e: EmbeddingVector): string { e.id }

  /** `validateEmbeddings`: an embedding counts as valid exactly when `validateEmbedding` accepts it. */
  method ValidateEmbeddings(embeddings: seq<EmbeddingVector>) returns (r: BatchResult)
    ensures r.valid == ValidCount(embeddings, EmbeddingVerdict)
    ensures r.errors == BatchErrors(embeddings, EmbeddingVerdict, EmbeddingId, "Embedding")
    ensures r.valid + r.invalid == |embeddings| && |r.errors| == r.invalid
  {
    r := ValidateBatch(embeddings, EmbeddingVerdict, EmbeddingId, "Embedding");
  }

  // ---------------------------------------------------------------------------
  // Pipeline integrity
  // ---------------------------------------------------------------------------

  predicate HasChunk(chunks: seq<DocumentChunk>, id: string)
  {
    exists k :: 0 <= k < |chunks| && chunks[k].id == id
  }

  /** One message per id, in order, for the ids that no chunk has. */
  function OrphanErrors(chunks: seq<DocumentChunk>, ids: seq<string>, kind: string): (r: seq<string>)
    ensures |r| == 0 <==> forall k :: 0 <= k < |ids| ==> HasChunk(chunks, ids[k])
  {
    if |ids| == 0 then []
    else
      var rest := OrphanErrors(chunks, ids[..|ids| - 1], kind);
      var id := ids[|ids| - 1];
      assert forall k :: 0 <= k < |ids| - 1 ==> ids[..|ids| - 1][k] == ids[k];
      if HasChunk(chunks, id) then rest else rest + [kind + " " + id + " não tem chunk correspondente"]
  }

  /** The ids of a list of records, in order. */
  function Ids<T>(xs: seq<T>, id: T -> string): (r: seq<string>)
    ensures |r| == |xs| && forall k :: 0 <= k < |xs| ==> r[k] == id(xs[k])
  {
    seq(|xs|, k requires 0 <= k < |xs| => id(xs[k]))
  }

  function ClusterId(p: ClusterPoint): string { p.id }

  datatype IntegrityResult = IntegrityResult(valid: bool, errors: seq<string>)

  /** All the messages of `validatePipelineIntegrity`, in the order it writes them. */
  function IntegrityErrors(chunks: seq<DocumentChunk>, embeddings: seq<EmbeddingVector>, clusters: Option<seq<ClusterPoint>>)
    : seq<string>
  {
    (if |chunks| != |embeddings| then
      ["Descompasso: " + NatToString(|chunks|) + " chunks vs " + NatToString(|embeddings|) + " embeddings"]
     else [])
    + OrphanErrors(chunks, Ids(embeddings, EmbeddingId), "Embedding")
    + (if clusters.Some? then OrphanErrors(chunks, Ids(clusters.value, ClusterId), "Cluster") else [])
  }

  /** The ids' loop: one message per id without a chunk. */
  method ReportOrphans(chunks: seq<DocumentChunk>, ids: seq<string>, kind: string, errors: seq<string>)
    returns (errors': seq<string>)
    ensures errors' == errors + OrphanErrors(chunks, ids, kind)
  {
    errors' := errors;
    for k := 0 to |ids|
      invariant errors' == errors + OrphanErrors(chunks, ids[..k], kind)
    {
      assert ids[..k + 1][..k] == ids[..k];
      if !HasChunk(chunks, ids[k]) {
        errors' := errors' + [kind + " " + ids[k] + " não tem chunk correspondente"];
      }
    }
    assert ids[..|ids|] == ids;
  }

  /** `validatePipelineIntegrity`; `clusters` is the optional third argument. */
  method ValidatePipelineIntegrity(chunks: seq<DocumentChunk>, embeddings: seq<EmbeddingVector>, clusters: Option<seq<ClusterPoint>>)
    returns (r: IntegrityResult)
    ensures r.errors == IntegrityErrors(chunks, embeddings, clusters)
    ensures r.valid <==> |r.errors| == 0
  {
    var errors: seq<string> := [];
    if |chunks| != |embeddings| {
      errors := errors + ["Descompasso: " + NatToString(|chunks|) + " chunks vs " + NatToString(|embeddings|) + " embeddings"];
    }
    errors := ReportOrphans(chunks, Ids(embeddings, EmbeddingId), "Embedding", errors);
    ghost var embeddingErrors := errors;
    if clusters.Some? {
      errors := ReportOrphans(chunks, Ids(clusters.value, ClusterId), "Cluster", errors);
    } else {
      assert errors == embeddingErrors + [];
    }
    r := IntegrityResult(|errors| == 0, errors);
  }

  /**
   * The pipeline is intact exactly when there are as many embeddings as chunks and every
   * embedding id and every given cluster id is a chunk id. A chunk without an embedding is
   * not looked for.
   */
  lemma IntegrityValid(chunks: seq<DocumentChunk>, embeddings: seq<EmbeddingVector>, clusters: Option<seq<ClusterPoint>>)
    ensures |IntegrityErrors(chunks, embeddings, clusters)| == 0 <==>
      && |chunks| == |embeddings|
      && (forall k :: 0 <= k < |embeddings| ==> HasChunk(chunks, embeddings[k].id))
      && (clusters.Some? ==> forall k :: 0 <= k < |clusters.value| ==> HasChunk(chunks, clusters.value[k].id))
  {
    var e := Ids(embeddings, EmbeddingId);
    assert (forall k :: 0 <= k < |e| ==> HasChunk(chunks, e[k])) <==> (forall k :: 0 <= k < |embeddings| ==> HasChunk(chunks, embeddings[k].id));
    if clusters.Some? {
      var c := Ids(clusters.value, ClusterId);
      assert (forall k :: 0 <= k < |c| ==> HasChunk(chunks, c[k])) <==> (forall k :: 0 <= k < |clusters.value| ==> HasChunk(chunks, clusters.value[k].id));
    }
  }
}
