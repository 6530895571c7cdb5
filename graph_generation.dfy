/**
 * The end of `generateGraphFromClusters` (services/mockDataService.ts): the confidence filter,
 * the node centralities and the graph metrics, and the whole function as one method over the
 * phases of `GraphBuilder`.
 */
module GraphGeneration {
  import opened Js
  import opened Types
  import opened GraphLinks
  import opened GraphBuilder
  import Validator

  // ------------------------------------------------------------------ the link map after both phases

  /** Every `addLink` call of one run: phase A over the keyword buckets, then phase B over the groups. */
  function Observations(nodes: seq<GraphNode>): seq<Obs>
  {
    var sets := KeywordSets(nodes);
    var groups := Groups(nodes);
    SemanticObs(sets, ObjectKeyOrder(Dedup(Flatten(sets))))
      + StructuralObs(EntityTypes(nodes), groups, NumberKeyOrder(Dedup(groups)))
  }

  lemma ObservationsOk(nodes: seq<GraphNode>)
    ensures forall k :: 0 <= k < |Observations(nodes)| ==> ObsOk(Observations(nodes)[k], |nodes|)
  {
    var sets := KeywordSets(nodes);
    var groups := Groups(nodes);
    SemanticObsOk(sets, ObjectKeyOrder(Dedup(Flatten(sets))));
    StructuralObsOk(EntityTypes(nodes), groups, NumberKeyOrder(Dedup(groups)));
  }

  /** `linksMap` once both phases are over. */
  function LinkState(nodes: seq<GraphNode>): Links<Key>
  {
    AddAll(Empty(), Observations(nodes))
  }

  /**
   * After both phases the map holds at most one link per pair of different nodes, running from the
   * lower position to the higher one, with value and confidence in (0, 1].
   */
  lemma LinkStateInvariants(nodes: seq<GraphNode>)
    ensures WellFormed(LinkState(nodes), |nodes|) && Bounded(LinkState(nodes)) && Forward(LinkState(nodes))
  {
    ObservationsOk(nodes);
    AddAllInvariants(Empty(), Observations(nodes), |nodes|);
  }

  // ------------------------------------------------------------------ the filtered links

  /** The filter `l.confidence > 0.3`. */
  predicate Strong(e: Edge)
  {
    e.confidence > 0.3
  }

  /** The links that pass the filter, in insertion order. */
  function Kept(s: Links<Key>): (r: seq<Edge>)
    requires forall k :: k in s.order ==> k in s.byKey
    ensures forall e :: e in r <==> e in Values(s) && Strong(e)
    ensures |r| <= |s.order|
  {
    Filter(Values(s), Strong)
  }

  predicate EdgesIn(edges: seq<Edge>, n: nat)
  {
    forall i :: 0 <= i < |edges| ==> edges[i].source < n && edges[i].target < n
  }

  /**
   * Every kept link joins two different nodes below `n`, lower position first, has value in (0, 1]
   * and confidence in (0.3, 1]; no two kept links join the same two nodes.
   */
  lemma KeptLinks(s: Links<Key>, n: nat)
    requires WellFormed(s, n) && Bounded(s) && Forward(s)
    ensures EdgesIn(Kept(s), n)
    ensures forall e :: e in Kept(s) ==> e.source < e.target && 0.0 < e.value <= 1.0 && 0.3 < e.confidence <= 1.0
    ensures forall i, j :: 0 <= i < j < |Kept(s)| ==> Ends(Kept(s)[i]) != Ends(Kept(s)[j])
  {
    var vs := Values(s);
    forall e | e in Kept(s)
      ensures e.source < e.target < n && 0.0 < e.value <= 1.0 && 0.3 < e.confidence <= 1.0
    {
      var i :| 0 <= i < |vs| && vs[i] == e;
      assert s.order[i] in s.byKey;
    }
    assert forall i :: 0 <= i < |Kept(s)| ==> Kept(s)[i] in Kept(s);
    forall i, j | 0 <= i < j < |vs|
      ensures Ends(vs[i]) != Ends(vs[j])
    {
      assert s.order[i] in s.byKey && s.order[j] in s.byKey;
    }
    FilterKeepsDistinct(vs, Strong);
  }

  /** The pair of node positions a link joins. */
  function Ends(e: Edge): (nat, nat)
  {
    (e.source, e.target)
  }

  lemma {:induction false} FilterKeepsDistinct(xs: seq<Edge>, p: Edge -> bool)
    requires forall i, j :: 0 <= i < j < |xs| ==> Ends(xs[i]) != Ends(xs[j])
    ensures forall i, j :: 0 <= i < j < |Filter(xs, p)| ==> Ends(Filter(xs, p)[i]) != Ends(Filter(xs, p)[j])
  {
    if |xs| > 0 {
      var xs' := xs[..|xs| - 1];
      var last := xs[|xs| - 1];
      FilterKeepsDistinct(xs', p);
      var f := Filter(xs', p);
      forall i | 0 <= i < |f|
        ensures Ends(f[i]) != Ends(last)
      {
        assert f[i] in f;
        var k :| 0 <= k < |xs'| && xs'[k] == f[i];
      }
    }
  }

  /** The record the source stores for a link, with node ids for endpoints. */
  function ToGraphLink(nodes: seq<GraphNode>, e: Edge): GraphLink
    requires e.source < |nodes| && e.target < |nodes|
  {
    GraphLink(nodes[e.source].id, nodes[e.target].id, Fin(e.value), e.confidence, e.linkType)
  }

  function ToGraphLinks(nodes: seq<GraphNode>, edges: seq<Edge>): (r: seq<GraphLink>)
    requires EdgesIn(edges, |nodes|)
    ensures |r| == |edges| && forall i :: 0 <= i < |r| ==> r[i] == ToGraphLink(nodes, edges[i])
  {
    seq(|edges|, i requires 0 <= i < |edges| => ToGraphLink(nodes, edges[i]))
  }

  // ------------------------------------------------------------------ metrics

  /** `degreeMap[id] || 0`: how many link ends name `id`. */
  function Degree(links: seq<GraphLink>, id: string): nat
  {
    if |links| == 0 then 0
    else
      var l := links[|links| - 1];
      Degree(links[..|links| - 1], id) + (if l.source == id then 1 else 0) + (if l.target == id then 1 else 0)
  }

  /** `n - 1 || 1`. */
  function Divisor(n: nat): int
  {
    if n - 1 == 0 then 1 else n - 1
  }

  /** `node.centrality = deg / (n - 1 || 1)` for every node. */
  function WithCentrality(nodes: seq<GraphNode>, links: seq<GraphLink>): seq<GraphNode>
  {
    seq(|nodes|, i requires 0 <= i < |nodes| =>
      nodes[i].(centrality := Fin(Degree(links, nodes[i].id) as real / Divisor(|nodes|) as real)))
  }

  function Ids(nodes: seq<GraphNode>): (r: seq<string>)
    ensures |r| == |nodes| && forall i :: 0 <= i < |r| ==> r[i] == nodes[i].id
  {
    seq(|nodes|, i requires 0 <= i < |nodes| => nodes[i].id)
  }

  /** Setting centralities leaves every other field alone, and every centrality is a number of at least 0. */
  lemma CentralityKeepsIds(nodes: seq<GraphNode>, links: seq<GraphLink>)
    ensures |WithCentrality(nodes, links)| == |nodes|
    ensures Ids(WithCentrality(nodes, links)) == Ids(nodes)
    ensures forall i :: 0 <= i < |nodes| ==>
      WithCentrality(nodes, links)[i].(centrality := nodes[i].centrality) == nodes[i]
    ensures forall i :: 0 <= i < |nodes| ==>
      WithCentrality(nodes, links)[i].centrality.Fin? && 0.0 <= WithCentrality(nodes, links)[i].centrality.v
  {
    forall i | 0 <= i < |nodes|
      ensures 0.0 <= Degree(links, nodes[i].id) as real / Divisor(|nodes|) as real
    {
      QuotientNonNegative(Degree(links, nodes[i].id) as real, Divisor(|nodes|) as real);
    }
  }

  /** `totalDegree`: the degrees of the nodes with ids `ids`, added up. */
  function TotalDegree(links: seq<GraphLink>, ids: seq<string>): nat
  {
    if |ids| == 0 then 0 else TotalDegree(links, ids[..|ids| - 1]) + Degree(links, ids[|ids| - 1])
  }

  /** `nodes.find(n => n.id === id)?.group`. */
  function FindGroup(nodes: seq<GraphNode>, id: string): (r: Option<int>)
    ensures r.None? <==> forall i :: 0 <= i < |nodes| ==> nodes[i].id != id
    ensures r.Some? ==>
      (exists i :: 0 <= i < |nodes| && nodes[i].id == id && nodes[i].group == r.value
        && (forall j :: 0 <= j < i ==> nodes[j].id != id))
  {
    if |nodes| == 0 then None
    else if nodes[0].id == id then Some(nodes[0].group)
    else
      var r := FindGroup(nodes[1..], id);
      assert forall i :: 1 <= i < |nodes| ==> nodes[i] == nodes[1..][i - 1];
      r
  }

  /** `edgesWithinClusters`: the links whose two ends are found in the same group. */
  function Within(links: seq<GraphLink>, nodes: seq<GraphNode>): (r: nat)
    ensures r <= |links|
  {
    if |links| == 0 then 0
    else
      var l := links[|links| - 1];
      var sourceGroup := FindGroup(nodes, l.source);
      Within(links[..|links| - 1], nodes) + if sourceGroup.Some? && sourceGroup == FindGroup(nodes, l.target) then 1 else 0
  }

  function Density(edgeCount: nat, n: nat): real
  {
    if n > 1 then (2 * edgeCount) as real / (n * (n - 1)) as real else 0.0
  }

  function AvgDegree(totalDegree: nat, n: nat): real
  {
    if n > 0 then totalDegree as real / n as real else 0.0
  }

  /** `within / E - Math.pow(1 / (n || 1), 2)` when there are links, else 0. */
  function Modularity(within: nat, edgeCount: nat, n: nat): real
  {
    if edgeCount > 0 then
      var share := 1.0 / (if n == 0 then 1 else n) as real;
      within as real / edgeCount as real - share * share
    else 0.0
  }

  function Metrics(nodes: seq<GraphNode>, links: seq<GraphLink>, currentSilhouetteScore: Num): GraphMetrics
  {
    var n := |nodes|;
    GraphMetrics(
      Density(|links|, n),
      AvgDegree(TotalDegree(links, Ids(nodes)), n),
      Modularity(Within(links, nodes), |links|, n),
      currentSilhouetteScore,
      n,
      |links|,
      1)
  }

  /** With no more links than pairs of nodes, the density lies in [0, 1]. */
  lemma DensityBounds(edgeCount: nat, n: nat)
    requires 2 * edgeCount <= n * (n - 1)
    ensures 0.0 <= Density(edgeCount, n) <= 1.0
  {
    if n > 1 {
      assert n * (n - 1) > 0;
      QuotientInUnit((2 * edgeCount) as real, (n * (n - 1)) as real);
      QuotientNonNegative((2 * edgeCount) as real, (n * (n - 1)) as real);
    }
  }

  /** With at most as many links inside groups as links, modularity lies in [-1, 1]. */
  lemma ModularityBounds(within: nat, edgeCount: nat, n: nat)
    requires within <= edgeCount
    ensures -1.0 <= Modularity(within, edgeCount, n) <= 1.0
  {
    if edgeCount > 0 {
      QuotientInUnit(within as real, edgeCount as real);
      QuotientNonNegative(within as real, edgeCount as real);
      var share := 1.0 / (if n == 0 then 1 else n) as real;
      ShareBounds(1.0, (if n == 0 then 1 else n) as real);
      ProductInUnit(share, share);
    }
  }

  lemma AvgDegreeNonNegative(totalDegree: nat, n: nat)
    ensures 0.0 <= AvgDegree(totalDegree, n)
  {
    if n > 0 {
      QuotientNonNegative(totalDegree as real, n as real);
    }
  }

  // ------------------------------------------------------------------ the whole function

  /** The links of a run that pass the filter. */
  function KeptEdges(nodes: seq<GraphNode>): (r: seq<Edge>)
    ensures EdgesIn(r, |nodes|)
  {
    LinkStateInvariants(nodes);
    KeptLinks(LinkState(nodes), |nodes|);
    Kept(LinkState(nodes))
  }

  /** The graph `generateGraphFromClusters` returns. */
  function BuildGraph(clusters: seq<ClusterPoint>, currentSilhouetteScore: Num): GraphData
  {
    var nodes := MakeNodes(clusters);
    var links := ToGraphLinks(nodes, KeptEdges(nodes));
    var finalNodes := WithCentrality(nodes, links);
    GraphData(finalNodes, links, Some(Metrics(finalNodes, links, currentSilhouetteScore)))
  }

  method GenerateGraphFromClusters(clusters: seq<ClusterPoint>, currentSilhouetteScore: Num) returns (g: GraphData)
    ensures g == BuildGraph(clusters, currentSilhouetteScore)
  {
    var nodes := MakeNodes(clusters);
    var nodeKeywordSets := KeywordSets(nodes);
    var keys, keywordToNodeIndices := BuildIndex(nodeKeywordSets);
    var linksMap := new LinkMap();
    var keywordOrder := ObjectKeyOrder(keys);
    SemanticPhase(linksMap, nodeKeywordSets, keywordOrder, keywordToNodeIndices);
    var groups := Groups(nodes);
    var groupKeys, nodesByCluster := BuildGroups(groups);
    var groupOrder := NumberKeyOrder(groupKeys);
    assert forall i :: 0 <= i < |groupOrder| ==> groupOrder[i] in groupOrder;
    StructuralPhase(linksMap, EntityTypes(nodes), groups, groupOrder, nodesByCluster);
    AddAllAppend(Empty(), SemanticObs(nodeKeywordSets, keywordOrder), StructuralObs(EntityTypes(nodes), groups, groupOrder));
    assert linksMap.State() == LinkState(nodes);
    LinkStateInvariants(nodes);
    KeptLinks(LinkState(nodes), |nodes|);
    var values := linksMap.LinkValues();
    assert Filter(values, Strong) == KeptEdges(nodes);
    var links := ToGraphLinks(nodes, Filter(values, Strong));
    var finalNodes, metrics := ComputeMetrics(nodes, links, currentSilhouetteScore);
    g := GraphData(finalNodes, links, Some(metrics));
  }

  /** `degreeMap`: one pass over the links, counting both ends of each. */
  method DegreeMap(links: seq<GraphLink>) returns (degreeMap: map<string, nat>)
    ensures forall id :: id in degreeMap ==> degreeMap[id] == Degree(links, id)
    ensures forall id :: id !in degreeMap ==> Degree(links, id) == 0
  {
    degreeMap := map[];
    for i := 0 to |links|
      invariant forall id :: id in degreeMap ==> degreeMap[id] == Degree(links[..i], id)
      invariant forall id :: id !in degreeMap ==> Degree(links[..i], id) == 0
    {
      var l := links[i];
      assert links[..i + 1][..i] == links[..i];
      degreeMap := degreeMap[l.source := (if l.source in degreeMap then degreeMap[l.source] else 0) + 1];
      degreeMap := degreeMap[l.target := (if l.target in degreeMap then degreeMap[l.target] else 0) + 1];
    }
    assert links[..|links|] == links;
  }

  /** The node loop of the metrics block: centralities and `totalDegree`. */
  method Centralities(nodes: seq<GraphNode>, links: seq<GraphLink>) returns (finalNodes: seq<GraphNode>, totalDegree: nat)
    ensures finalNodes == WithCentrality(nodes, links)
    ensures totalDegree == TotalDegree(links, Ids(nodes))
  {
    var n := |nodes|;
    var degreeMap := DegreeMap(links);
    totalDegree := 0;
    finalNodes := nodes;
    for j := 0 to n
      invariant |finalNodes| == n
      invariant forall k :: j <= k < n ==> finalNodes[k] == nodes[k]
      invariant forall k :: 0 <= k < j ==> finalNodes[k] == WithCentrality(nodes, links)[k]
      invariant totalDegree == TotalDegree(links, Ids(nodes)[..j])
    {
      var deg := if nodes[j].id in degreeMap then degreeMap[nodes[j].id] else 0;
      finalNodes := finalNodes[j := finalNodes[j].(centrality := Fin(deg as real / Divisor(n) as real))];
      totalDegree := totalDegree + deg;
      assert Ids(nodes)[..j + 1][..j] == Ids(nodes)[..j];
    }
    assert Ids(nodes)[..n] == Ids(nodes);
  }

  /** The link loop of the metrics block: `edgesWithinClusters`. */
  method WithinClusters(links: seq<GraphLink>, nodes: seq<GraphNode>) returns (edgesWithinClusters: nat)
    ensures edgesWithinClusters == Within(links, nodes)
  {
    edgesWithinClusters := 0;
    for i := 0 to |links|
      invariant edgesWithinClusters == Within(links[..i], nodes)
    {
      assert links[..i + 1][..i] == links[..i];
      var sourceGroup := FindGroup(nodes, links[i].source);
      var targetGroup := FindGroup(nodes, links[i].target);
      if sourceGroup.Some? && sourceGroup == targetGroup {
        edgesWithinClusters := edgesWithinClusters + 1;
      }
    }
    assert links[..|links|] == links;
  }

  /** The metrics block: degrees, centralities, density, average degree and modularity. */
  method ComputeMetrics(nodes: seq<GraphNode>, links: seq<GraphLink>, currentSilhouetteScore: Num)
    returns (finalNodes: seq<GraphNode>, metrics: GraphMetrics)
    ensures finalNodes == WithCentrality(nodes, links)
    ensures metrics == Metrics(finalNodes, links, currentSilhouetteScore)
  {
    var edgeCount := |links|;
    var n := |nodes|;
    var density := Density(edgeCount, n);
    var totalDegree;
    finalNodes, totalDegree := Centralities(nodes, links);
    CentralityKeepsIds(nodes, links);
    var avgDegree := AvgDegree(totalDegree, n);
    var edgesWithinClusters := WithinClusters(links, finalNodes);
    var modularity := Modularity(edgesWithinClusters, edgeCount, n);
    metrics := GraphMetrics(density, avgDegree, modularity, currentSilhouetteScore, n, edgeCount, 1);
  }

  // ------------------------------------------------------------------ what the built graph satisfies

  /** What the filtered links of a run satisfy, stated by position. */
  lemma KeptEdgesFacts(nodes: seq<GraphNode>)
    ensures var es := KeptEdges(nodes);
      (forall k :: 0 <= k < |es| ==>
        es[k].source < es[k].target < |nodes| && 0.0 < es[k].value <= 1.0 && 0.3 < es[k].confidence <= 1.0) &&
      (forall i, j :: 0 <= i < j < |es| ==> Ends(es[i]) != Ends(es[j])) &&
      2 * |es| <= |nodes| * (|nodes| - 1)
  {
    LinkStateInvariants(nodes);
    KeptLinks(LinkState(nodes), |nodes|);
    LinkCountBound(LinkState(nodes), |nodes|);
    var es := KeptEdges(nodes);
    assert forall k :: 0 <= k < |es| ==> es[k] in es;
  }

  /** The points of the map carry pairwise different ids. */
  predicate DistinctIds(clusters: seq<ClusterPoint>)
  {
    forall i, j :: 0 <= i < j < |clusters| ==> clusters[i].id != clusters[j].id
  }

  /** One node per point, in order, with the point's id, label and group, and a centrality of at least 0. */
  lemma BuiltNodes(clusters: seq<ClusterPoint>, currentSilhouetteScore: Num)
    ensures var g := BuildGraph(clusters, currentSilhouetteScore);
      |g.nodes| == |clusters| &&
      forall i :: 0 <= i < |clusters| ==>
        g.nodes[i].id == clusters[i].id && g.nodes[i].labelText == NodeLabel(clusters[i]) &&
        g.nodes[i].group == Group(clusters[i]) && g.nodes[i].centrality.Fin? && 0.0 <= g.nodes[i].centrality.v
  {
    var nodes := MakeNodes(clusters);
    var links := ToGraphLinks(nodes, KeptEdges(nodes));
    CentralityKeepsIds(nodes, links);
    assert BuildGraph(clusters, currentSilhouetteScore).nodes == WithCentrality(nodes, links);
  }

  /** `l` runs from the id of one point to the id of a point at a higher position. */
  ghost predicate LinksPoints(clusters: seq<ClusterPoint>, l: GraphLink)
  {
    exists u, v :: 0 <= u < v < |clusters| && l.source == clusters[u].id && l.target == clusters[v].id
  }

  /**
   * Every link joins the ids of two different points, the one at the lower position as source,
   * with a value in (0, 1] and a confidence in (0.3, 1].
   */
  lemma BuiltLinks(clusters: seq<ClusterPoint>, currentSilhouetteScore: Num)
    ensures var g := BuildGraph(clusters, currentSilhouetteScore);
      forall k :: 0 <= k < |g.links| ==>
        LinksPoints(clusters, g.links[k]) &&
        g.links[k].value.Fin? && 0.0 < g.links[k].value.v <= 1.0 && 0.3 < g.links[k].confidence <= 1.0
  {
    var nodes := MakeNodes(clusters);
    KeptEdgesFacts(nodes);
    var es := KeptEdges(nodes);
    var links := ToGraphLinks(nodes, es);
    assert BuildGraph(clusters, currentSilhouetteScore).links == links;
    forall k | 0 <= k < |links|
      ensures LinksPoints(clusters, links[k])
    {
      var e := es[k];
      assert links[k].source == clusters[e.source].id && links[k].target == clusters[e.target].id;
    }
  }



  /** Two different positions carry two different ids, so a pair of ids names a pair of positions. */
  lemma SameIdPair(clusters: seq<ClusterPoint>, a: nat, b: nat, c: nat, d: nat)
    requires DistinctIds(clusters) && a < |clusters| && b < |clusters| && c < |clusters| && d < |clusters|
    requires {clusters[a].id, clusters[b].id} == {clusters[c].id, clusters[d].id}
    ensures {a, b} == {c, d}
  {
    assert clusters[a].id in {clusters[c].id, clusters[d].id};
    assert clusters[b].id in {clusters[c].id, clusters[d].id};
    assert clusters[c].id in {clusters[a].id, clusters[b].id};
    assert clusters[d].id in {clusters[a].id, clusters[b].id};
  }

  /** With distinct ids, no link is a loop and no two links join the same two nodes, in either direction. */
  lemma OneLinkPerPair(clusters: seq<ClusterPoint>, currentSilhouetteScore: Num)
    requires DistinctIds(clusters)
    ensures var g := BuildGraph(clusters, currentSilhouetteScore);
      (forall k :: 0 <= k < |g.links| ==> g.links[k].source != g.links[k].target) &&
      forall i, j :: 0 <= i < j < |g.links| ==>
        {g.links[i].source, g.links[i].target} != {g.links[j].source, g.links[j].target}
  {
    var nodes := MakeNodes(clusters);
    KeptEdgesFacts(nodes);
    var es := KeptEdges(nodes);
    var links := ToGraphLinks(nodes, es);
    forall i, j | 0 <= i < j < |links|
      ensures {links[i].source, links[i].target} != {links[j].source, links[j].target}
    {
      var a, b, c, d := es[i].source, es[i].target, es[j].source, es[j].target;
      KeyOfInjective(a, b, c, d);
      assert KeyOf(a, b) == Ends(es[i]) && KeyOf(c, d) == Ends(es[j]);
      if {links[i].source, links[i].target} == {links[j].source, links[j].target} {
        SameIdPair(clusters, a, b, c, d);
      }
    }
  }


  /** The metrics: counts as built, density in [0, 1], modularity in [-1, 1], average degree at least 0. */
  lemma BuiltMetrics(clusters: seq<ClusterPoint>, currentSilhouetteScore: Num)
    ensures var g := BuildGraph(clusters, currentSilhouetteScore);
      g.metrics.Some? &&
      var m := g.metrics.value;
      m.totalNodes == |clusters| && m.totalEdges == |g.links| && m.connectedComponents == 1 &&
      m.silhouetteScore == currentSilhouetteScore &&
      0.0 <= m.density <= 1.0 && -1.0 <= m.modularity <= 1.0 && 0.0 <= m.avgDegree
  {
    var nodes := MakeNodes(clusters);
    KeptEdgesFacts(nodes);
    var links := ToGraphLinks(nodes, KeptEdges(nodes));
    var finalNodes := WithCentrality(nodes, links);
    DensityBounds(|links|, |nodes|);
    ModularityBounds(Within(links, finalNodes), |links|, |finalNodes|);
    AvgDegreeNonNegative(TotalDegree(links, Ids(finalNodes)), |finalNodes|);
  }


  // ------------------------------------------------------------------ degrees

  /** How often `x` occurs in `ids`. */
  function Occurrences(ids: seq<string>, x: string): nat
  {
    if |ids| == 0 then 0 else Occurrences(ids[..|ids| - 1], x) + if ids[|ids| - 1] == x then 1 else 0
  }

  lemma {:induction false} OccurrencesDistinct(ids: seq<string>, x: string)
    requires Distinct(ids) && x in ids
    ensures Occurrences(ids, x) == 1
  {
    var ids' := ids[..|ids| - 1];
    if ids[|ids| - 1] == x {
      OccurrencesAbsent(ids', x);
    } else {
      OccurrencesDistinct(ids', x);
    }
  }

  lemma {:induction false} OccurrencesAbsent(ids: seq<string>, x: string)
    requires x !in ids
    ensures Occurrences(ids, x) == 0
  {
    if |ids| > 0 {
      OccurrencesAbsent(ids[..|ids| - 1], x);
    }
  }

  /** One more link adds its two ends to the total, counted by the ids they match. */
  lemma {:induction false} TotalDegreeSnoc(links: seq<GraphLink>, l: GraphLink, ids: seq<string>)
    ensures TotalDegree(links + [l], ids) == TotalDegree(links, ids) + Occurrences(ids, l.source) + Occurrences(ids, l.target)
  {
    assert (links + [l])[..|links|] == links;
    if |ids| > 0 {
      TotalDegreeSnoc(links, l, ids[..|ids| - 1]);
    }
  }

  lemma {:induction false} TotalDegreeNoLinks(ids: seq<string>)
    ensures TotalDegree([], ids) == 0
  {
    if |ids| > 0 {
      TotalDegreeNoLinks(ids[..|ids| - 1]);
    }
  }

  /** With distinct ids and every link end among them, the degrees add up to twice the number of links. */
  lemma {:induction false} HandshakeSum(links: seq<GraphLink>, ids: seq<string>)
    requires Distinct(ids)
    requires forall k :: 0 <= k < |links| ==> links[k].source in ids && links[k].target in ids
    ensures TotalDegree(links, ids) == 2 * |links|
  {
    if |links| == 0 {
      TotalDegreeNoLinks(ids);
    } else {
      var links', l := links[..|links| - 1], links[|links| - 1];
      HandshakeSum(links', ids);
      assert links == links' + [l];
      TotalDegreeSnoc(links', l, ids);
      OccurrencesDistinct(ids, l.source);
      OccurrencesDistinct(ids, l.target);
    }
  }

  /** With distinct ids and at least one point, the average degree is 2E / n. */
  lemma BuiltAverageDegree(clusters: seq<ClusterPoint>, currentSilhouetteScore: Num)
    requires DistinctIds(clusters) && |clusters| > 0
    ensures var g := BuildGraph(clusters, currentSilhouetteScore);
      g.metrics.Some? && g.metrics.value.avgDegree == (2 * |g.links|) as real / |clusters| as real
  {
    var nodes := MakeNodes(clusters);
    var links := ToGraphLinks(nodes, KeptEdges(nodes));
    var ids := Ids(WithCentrality(nodes, links));
    CentralityKeepsIds(nodes, links);
    forall k | 0 <= k < |links|
      ensures links[k].source in ids && links[k].target in ids
    {
      var e := KeptEdges(nodes)[k];
      assert ids[e.source] == links[k].source && ids[e.target] == links[k].target;
    }
    HandshakeSum(links, ids);
  }

  /** Link ends at node position `u`. */
  function EdgeDegree(edges: seq<Edge>, u: nat): nat
  {
    if |edges| == 0 then 0
    else
      var e := edges[|edges| - 1];
      EdgeDegree(edges[..|edges| - 1], u) + (if e.source == u then 1 else 0) + (if e.target == u then 1 else 0)
  }

  /** With distinct ids, the degree of a node is the number of link ends at its position. */
  lemma {:induction false} DegreeByPosition(clusters: seq<ClusterPoint>, edges: seq<Edge>, u: nat)
    requires DistinctIds(clusters) && EdgesIn(edges, |clusters|) && u < |clusters|
    ensures Degree(ToGraphLinks(MakeNodes(clusters), edges), clusters[u].id) == EdgeDegree(edges, u)
  {
    if |edges| > 0 {
      var nodes := MakeNodes(clusters);
      var edges' := edges[..|edges| - 1];
      DegreeByPosition(clusters, edges', u);
      var links := ToGraphLinks(nodes, edges);
      assert links[..|links| - 1] == ToGraphLinks(nodes, edges');
      var e := edges[|edges| - 1];
      assert clusters[e.source].id == clusters[u].id <==> e.source == u;
      assert clusters[e.target].id == clusters[u].id <==> e.target == u;
    }
  }

  predicate Touches(e: Edge, u: nat)
  {
    e.source == u || e.target == u
  }

  function OtherEnd(e: Edge, u: nat): nat
  {
    if e.source == u then e.target else e.source
  }

  /** Position `p` renumbered as if position `u` were taken out. */
  function Skip(p: nat, u: nat): nat
    requires p != u
  {
    if p < u then p else p - 1
  }

  /** The other ends of the links at `u`, renumbered to skip `u`. */
  function Neighbours(edges: seq<Edge>, u: nat): (r: seq<nat>)
    requires forall i :: 0 <= i < |edges| ==> edges[i].source < edges[i].target
    ensures |r| == EdgeDegree(edges, u)
  {
    if |edges| == 0 then []
    else
      var e := edges[|edges| - 1];
      var r := Neighbours(edges[..|edges| - 1], u);
      if Touches(e, u) then r + [Skip(OtherEnd(e, u), u)] else r
  }

  /**
   * On links that run forward, stay below `n` and join different pairs, the renumbered
   * neighbours of `u` are distinct and below `n - 1`, each coming from a link at `u`.
   */
  lemma {:induction false} NeighboursDistinct(edges: seq<Edge>, u: nat, n: nat)
    requires forall i :: 0 <= i < |edges| ==> edges[i].source < edges[i].target < n
    requires forall i, j :: 0 <= i < j < |edges| ==> Ends(edges[i]) != Ends(edges[j])
    ensures Distinct(Neighbours(edges, u))
    ensures forall k :: 0 <= k < |Neighbours(edges, u)| ==> Neighbours(edges, u)[k] < n - 1
    ensures forall x :: x in Neighbours(edges, u) ==>
      exists i :: 0 <= i < |edges| && Touches(edges[i], u) && x == Skip(OtherEnd(edges[i], u), u)
  {
    NeighboursFrom(edges, u, n);
    if |edges| > 0 {
      var edges' := edges[..|edges| - 1];
      var e := edges[|edges| - 1];
      NeighboursDistinct(edges', u, n);
      if Touches(e, u) {
        NewNeighbour(edges, u, n);
        var r := Neighbours(edges', u);
        assert forall k :: 0 <= k < |r| ==> r[k] in r;
      }
    }
  }

  /** Each renumbered neighbour comes from a link at `u` and lies below `n - 1`. */
  lemma {:induction false} NeighboursFrom(edges: seq<Edge>, u: nat, n: nat)
    requires forall i :: 0 <= i < |edges| ==> edges[i].source < edges[i].target < n
    ensures forall k :: 0 <= k < |Neighbours(edges, u)| ==> Neighbours(edges, u)[k] < n - 1
    ensures forall x :: x in Neighbours(edges, u) ==>
      exists i :: 0 <= i < |edges| && Touches(edges[i], u) && x == Skip(OtherEnd(edges[i], u), u)
  {
    if |edges| > 0 {
      var edges' := edges[..|edges| - 1];
      NeighboursFrom(edges', u, n);
      var r := Neighbours(edges', u);
      forall x | x in r
        ensures exists i :: 0 <= i < |edges| && Touches(edges[i], u) && x == Skip(OtherEnd(edges[i], u), u)
      {
        var i :| 0 <= i < |edges'| && Touches(edges'[i], u) && x == Skip(OtherEnd(edges'[i], u), u);
        assert edges[i] == edges'[i];
      }
    }
  }

  /** The neighbour the last link adds differs from those the earlier links gave. */
  lemma NewNeighbour(edges: seq<Edge>, u: nat, n: nat)
    requires |edges| > 0 && Touches(edges[|edges| - 1], u)
    requires forall i :: 0 <= i < |edges| ==> edges[i].source < edges[i].target < n
    requires forall i, j :: 0 <= i < j < |edges| ==> Ends(edges[i]) != Ends(edges[j])
    ensures Skip(OtherEnd(edges[|edges| - 1], u), u) !in Neighbours(edges[..|edges| - 1], u)
  {
    var edges', e := edges[..|edges| - 1], edges[|edges| - 1];
    NeighboursFrom(edges', u, n);
    forall x | x in Neighbours(edges', u)
      ensures x != Skip(OtherEnd(e, u), u)
    {
      var i :| 0 <= i < |edges'| && Touches(edges'[i], u) && x == Skip(OtherEnd(edges'[i], u), u);
      assert edges[i] == edges'[i];
      assert Ends(edges[i]) != Ends(e);
    }
  }

  /** A node among `n` has at most `n - 1` link ends, one per other node. */
  lemma EdgeDegreeBound(edges: seq<Edge>, u: nat, n: nat)
    requires u < n
    requires forall i :: 0 <= i < |edges| ==> edges[i].source < edges[i].target < n
    requires forall i, j :: 0 <= i < j < |edges| ==> Ends(edges[i]) != Ends(edges[j])
    ensures EdgeDegree(edges, u) <= Divisor(n)
  {
    NeighboursDistinct(edges, u, n);
    DistinctBelow(Neighbours(edges, u), n - 1);
  }

  /** With distinct ids, every centrality lies in [0, 1]. */
  lemma BuiltCentrality(clusters: seq<ClusterPoint>, currentSilhouetteScore: Num)
    requires DistinctIds(clusters)
    ensures var g := BuildGraph(clusters, currentSilhouetteScore);
      forall i :: 0 <= i < |g.nodes| ==> g.nodes[i].centrality.Fin? && 0.0 <= g.nodes[i].centrality.v <= 1.0
  {
    var nodes := MakeNodes(clusters);
    var links := ToGraphLinks(nodes, KeptEdges(nodes));
    DegreesInUnit(clusters);
    assert BuildGraph(clusters, currentSilhouetteScore).nodes == WithCentrality(nodes, links);
  }

  /** No id has more link ends than there are other points. */
  lemma DegreesInUnit(clusters: seq<ClusterPoint>)
    requires DistinctIds(clusters)
    ensures var nodes := MakeNodes(clusters); var links := ToGraphLinks(nodes, KeptEdges(nodes));
      forall i :: 0 <= i < |nodes| ==> 0.0 <= Degree(links, nodes[i].id) as real / Divisor(|nodes|) as real <= 1.0
  {
    var nodes := MakeNodes(clusters);
    KeptEdgesFacts(nodes);
    var es := KeptEdges(nodes);
    var links := ToGraphLinks(nodes, es);
    forall i | 0 <= i < |nodes|
      ensures 0.0 <= Degree(links, nodes[i].id) as real / Divisor(|nodes|) as real <= 1.0
    {
      DegreeByPosition(clusters, es, i);
      EdgeDegreeBound(es, i, |nodes|);
      QuotientInUnit(Degree(links, nodes[i].id) as real, Divisor(|nodes|) as real);
      QuotientNonNegative(Degree(links, nodes[i].id) as real, Divisor(|nodes|) as real);
    }
  }


  // ------------------------------------------------------------------ the filter and the validator

  /**
   * A pair whose only observation in the run is a different-type co-occurrence (weight 0.2,
   * confidence 0.3) has a link in the map that the filter drops.
   */
  lemma LoneWeakLinkDropped(nodes: seq<GraphNode>, i: nat)
    requires i < |Observations(nodes)|
    requires Observations(nodes)[i].u != Observations(nodes)[i].v && Observations(nodes)[i].confidence == 0.3
    requires forall j :: 0 <= j < |Observations(nodes)| && j != i ==>
      KeyOf(Observations(nodes)[j].u, Observations(nodes)[j].v) != KeyOf(Observations(nodes)[i].u, Observations(nodes)[i].v)
    ensures KeyOf(Observations(nodes)[i].u, Observations(nodes)[i].v) in LinkState(nodes).byKey
    ensures forall e :: e in KeptEdges(nodes) ==>
      KeyOf(e.source, e.target) != KeyOf(Observations(nodes)[i].u, Observations(nodes)[i].v)
  {
    var obs := Observations(nodes);
    LoneObservation(obs, i);
    LinkStateInvariants(nodes);
    WeakKeyNotKept(LinkState(nodes), |nodes|, KeyOf(obs[i].u, obs[i].v));
  }

  /** A key whose link fails the filter is the key of no kept link. */
  lemma WeakKeyNotKept(s: Links<Key>, n: nat, k: Key)
    requires WellFormed(s, n) && k in s.byKey && !Strong(s.byKey[k])
    ensures forall e :: e in Kept(s) ==> KeyOf(e.source, e.target) != k
  {
    forall e | e in Kept(s)
      ensures KeyOf(e.source, e.target) != k
    {
      var j :| 0 <= j < |Values(s)| && Values(s)[j] == e;
      assert s.order[j] in s.byKey && e == s.byKey[s.order[j]];
    }
  }

  /** Points with non-empty ids and labels give a graph with everything the corrected `validateGraph` demands. */
  lemma BuiltGraphOk(clusters: seq<ClusterPoint>, currentSilhouetteScore: Num)
    requires |clusters| > 0
    requires forall i :: 0 <= i < |clusters| ==> clusters[i].id != "" && clusters[i].labelText != ""
    ensures Validator.GraphOk(BuildGraph(clusters, currentSilhouetteScore))
  {
    BuiltNodes(clusters, currentSilhouetteScore);
    BuiltLinks(clusters, currentSilhouetteScore);
    BuiltMetrics(clusters, currentSilhouetteScore);
    GraphOkFromParts(clusters, BuildGraph(clusters, currentSilhouetteScore));
  }

  /** What `BuiltNodes`, `BuiltLinks` and `BuiltMetrics` say about a graph is enough for the validator. */
  lemma GraphOkFromParts(clusters: seq<ClusterPoint>, g: GraphData)
    requires |clusters| > 0
    requires forall i :: 0 <= i < |clusters| ==> clusters[i].id != "" && clusters[i].labelText != ""
    requires |g.nodes| == |clusters|
    requires forall i :: 0 <= i < |clusters| ==>
      g.nodes[i].id == clusters[i].id && g.nodes[i].labelText == NodeLabel(clusters[i]) && g.nodes[i].centrality.Fin?
    requires forall k :: 0 <= k < |g.links| ==>
      LinksPoints(clusters, g.links[k]) && g.links[k].value.Fin? && 0.0 < g.links[k].value.v <= 1.0
    requires g.metrics.Some? && 0.0 <= g.metrics.value.density <= 1.0 && 0.0 <= g.metrics.value.avgDegree
    ensures Validator.GraphOk(g)
  {
    forall k | 0 <= k < |g.nodes|
      ensures Validator.NodeOk(g.nodes[k])
    {
      assert g.nodes[k].labelText == NodeLabel(clusters[k]);
    }
    forall k | 0 <= k < |g.links|
      ensures Validator.LinkOk(g.nodes, g.links[k])
    {
      assert LinksPoints(clusters, g.links[k]);
      var u, v :| 0 <= u < v < |clusters| && g.links[k].source == clusters[u].id && g.links[k].target == clusters[v].id;
      assert g.nodes[u].id == g.links[k].source && g.nodes[v].id == g.links[k].target;
    }
  }

  /**
   * Such a graph passes the corrected `validateGraph`, and the check as written rejects it
   * for its average degree.
   */
  lemma BuiltGraphValid(clusters: seq<ClusterPoint>, currentSilhouetteScore: Num)
    requires |clusters| > 0
    requires forall i :: 0 <= i < |clusters| ==> clusters[i].id != "" && clusters[i].labelText != ""
    ensures Validator.ValidateGraph(BuildGraph(clusters, currentSilhouetteScore)).Valid?
    ensures Validator.ValidateGraphAsWritten(BuildGraph(clusters, currentSilhouetteScore)) == Validator.AverageDegreeError
  {
    var g := BuildGraph(clusters, currentSilhouetteScore);
    BuiltGraphOk(clusters, currentSilhouetteScore);
    Validator.ValidateGraphAgrees(g);
  }
}
