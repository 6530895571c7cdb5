/**
 * The degree map of `generateGraphFromClusters` (services/mockDataService.ts) as written.
 * `degreeMap` is a plain object literal, which inherits the members of `Object.prototype`.
 * Node ids are not normalised, so an id such as "toString" reads an inherited function where
 * the code expects a count or undefined. Such a value divides to NaN, and adding it to
 * `totalDegree` turns the total into a string, so the node's centrality and the average degree
 * are both NaN. `GraphGeneration.Degree` and `GraphGeneration.WithCentrality` model the
 * dictionary the code evidently intends, with no inherited entries.
 */
module ObjectDegree {
  import opened Js
  import opened Types
  import opened GraphGeneration
  import opened GraphBuilder
  import Validator

  /** The names `Object.prototype` defines, which every plain object inherits. */
  predicate PrototypeName(id: string)
  {
    id in {"constructor", "__proto__", "__defineGetter__", "__defineSetter__", "__lookupGetter__",
      "__lookupSetter__", "hasOwnProperty", "isPrototypeOf", "propertyIsEnumerable",
      "toLocaleString", "toString", "valueOf"}
  }

  predicate HasPrototypeName(ids: seq<string>)
  {
    exists k :: 0 <= k < |ids| && PrototypeName(ids[k])
  }

  /**
   * A value `degreeMap[id]` can hold: a count, or a value that is not a number (the inherited
   * member, or the string that adding 1 to it concatenates).
   */
  datatype Slot = Count(n: nat) | NotNumber

  /** `degreeMap[id]`: the own entry, else the inherited member, else undefined (`None`). */
  function SlotOf(degreeMap: map<string, Slot>, id: string): (r: Option<Slot>)
    ensures r.None? <==> id !in degreeMap && !PrototypeName(id)
    ensures id !in degreeMap && PrototypeName(id) ==> r == Some(NotNumber)
  {
    if id in degreeMap then Some(degreeMap[id]) else if PrototypeName(id) then Some(NotNumber) else None
  }

  /**
   * `degreeMap[id] = (degreeMap[id] || 0) + 1`. A value that is not a number plus 1 is a string;
   * assigning a string to `__proto__` is ignored, so that name keeps the inherited member.
   */
  function Bump(degreeMap: map<string, Slot>, id: string): (r: map<string, Slot>)
    ensures forall other :: other != id ==> SlotOf(r, other) == SlotOf(degreeMap, other)
  {
    var next := match SlotOf(degreeMap, id)
      case None => Count(1)
      case Some(Count(k)) => Count(k + 1)
      case Some(NotNumber) => NotNumber;
    if id == "__proto__" && next.NotNumber? then degreeMap else degreeMap[id := next]
  }

  /** The `links.forEach` that fills `degreeMap`, as written. */
  function DegreeMapAsWritten(links: seq<GraphLink>): map<string, Slot>
  {
    if |links| == 0 then map[]
    else
      var l := links[|links| - 1];
      Bump(Bump(DegreeMapAsWritten(links[..|links| - 1]), l.source), l.target)
  }

  /** What the intended dictionary holds for `id`: its link count, or undefined for none. */
  function IntendedSlot(links: seq<GraphLink>, id: string): Option<Slot>
  {
    if Degree(links, id) == 0 then None else Some(Count(Degree(links, id)))
  }

  /**
   * The map as written agrees with the intended one on every ordinary id, and holds a
   * non-number for every prototype name, with or without links at it.
   */
  lemma {:induction false} DegreeMapAsWrittenAgrees(links: seq<GraphLink>, id: string)
    ensures SlotOf(DegreeMapAsWritten(links), id) == if PrototypeName(id) then Some(NotNumber) else IntendedSlot(links, id)
  {
    if |links| > 0 {
      var l := links[|links| - 1];
      var init := links[..|links| - 1];
      DegreeMapAsWrittenAgrees(init, id);
      var m := DegreeMapAsWritten(init);
      var d := Degree(init, id);
      var ds := if l.source == id then 1 else 0;
      var dt := if l.target == id then 1 else 0;
      assert Degree(links, id) == d + ds + dt;
      BumpStep(m, l.source, id, d);
      BumpStep(Bump(m, l.source), l.target, id, d + ds);
    }
  }

  /** One bump in terms of a running count `d` of the id. */
  lemma BumpStep(degreeMap: map<string, Slot>, x: string, id: string, d: nat)
    requires SlotOf(degreeMap, id) == if PrototypeName(id) then Some(NotNumber) else if d == 0 then None else Some(Count(d))
    ensures var e := d + (if x == id then 1 else 0);
      SlotOf(Bump(degreeMap, x), id) == if PrototypeName(id) then Some(NotNumber) else if e == 0 then None else Some(Count(e))
  {
  }

  /** `deg / (n - 1 || 1)` with `deg = degreeMap[id] || 0`: a non-number divides to NaN. */
  function CentralityAsWritten(degreeMap: map<string, Slot>, id: string, n: nat): Num
  {
    match SlotOf(degreeMap, id)
    case None => Fin(0.0 / Divisor(n) as real)
    case Some(Count(k)) => Fin(k as real / Divisor(n) as real)
    case Some(NotNumber) => NaN
  }

  /** The node loop of the metrics block as written, for the centralities. */
  function WithCentralityAsWritten(nodes: seq<GraphNode>, links: seq<GraphLink>): seq<GraphNode>
  {
    var degreeMap := DegreeMapAsWritten(links);
    seq(|nodes|, i requires 0 <= i < |nodes| =>
      nodes[i].(centrality := CentralityAsWritten(degreeMap, nodes[i].id, |nodes|)))
  }

  /**
   * As written, a node whose id is a prototype name gets a NaN centrality, and every other node
   * gets exactly the centrality of the intended dictionary.
   */
  lemma CentralityAsWrittenAgrees(nodes: seq<GraphNode>, links: seq<GraphLink>)
    ensures |WithCentralityAsWritten(nodes, links)| == |nodes|
    ensures forall i :: 0 <= i < |nodes| ==>
      WithCentralityAsWritten(nodes, links)[i] ==
        if PrototypeName(nodes[i].id) then nodes[i].(centrality := NaN) else WithCentrality(nodes, links)[i]
  {
    forall i | 0 <= i < |nodes|
      ensures WithCentralityAsWritten(nodes, links)[i] ==
        if PrototypeName(nodes[i].id) then nodes[i].(centrality := NaN) else WithCentrality(nodes, links)[i]
    {
      DegreeMapAsWrittenAgrees(links, nodes[i].id);
    }
  }

  /** `totalDegree += deg` over the ids as written; `None` once the total has become a string. */
  function TotalAsWritten(degreeMap: map<string, Slot>, ids: seq<string>): Option<nat>
  {
    if |ids| == 0 then Some(0)
    else
      var t := TotalAsWritten(degreeMap, ids[..|ids| - 1]);
      match SlotOf(degreeMap, ids[|ids| - 1])
      case None => t
      case Some(Count(k)) => if t.Some? then Some(t.value + k) else None
      case Some(NotNumber) => None
  }

  /** `n > 0 ? totalDegree / n : 0` as written: a string total divides to NaN. */
  function AvgDegreeAsWritten(links: seq<GraphLink>, ids: seq<string>): Num
  {
    if |ids| == 0 then Fin(0.0)
    else
      match TotalAsWritten(DegreeMapAsWritten(links), ids)
      case None => NaN
      case Some(t) => Fin(t as real / |ids| as real)
  }

  /** The total as written is the intended total, unless some id is a prototype name. */
  lemma {:induction false} TotalAsWrittenAgrees(links: seq<GraphLink>, ids: seq<string>)
    ensures TotalAsWritten(DegreeMapAsWritten(links), ids) ==
      if HasPrototypeName(ids) then None else Some(TotalDegree(links, ids))
  {
    if |ids| > 0 {
      var init := ids[..|ids| - 1];
      TotalAsWrittenAgrees(links, init);
      DegreeMapAsWrittenAgrees(links, ids[|ids| - 1]);
      assert HasPrototypeName(ids) <==> HasPrototypeName(init) || PrototypeName(ids[|ids| - 1]) by {
        assert forall k :: 0 <= k < |init| ==> init[k] == ids[k];
      }
    }
  }

  /**
   * As written, the average degree of a non-empty graph is NaN exactly when some node id is a
   * prototype name, and is the intended average otherwise.
   */
  lemma AvgDegreeAsWrittenAgrees(nodes: seq<GraphNode>, links: seq<GraphLink>)
    ensures |nodes| > 0 ==> (AvgDegreeAsWritten(links, Ids(nodes)).NaN? <==> HasPrototypeName(Ids(nodes)))
    ensures !HasPrototypeName(Ids(nodes)) ==>
      AvgDegreeAsWritten(links, Ids(nodes)) == Fin(AvgDegree(TotalDegree(links, Ids(nodes)), |nodes|))
  {
    TotalAsWrittenAgrees(links, Ids(nodes));
  }

  /** As written, a node with a prototype name as its id fails the validator's node check. */
  lemma PrototypeIdNodeRejected(nodes: seq<GraphNode>, links: seq<GraphLink>)
    requires HasPrototypeName(Ids(nodes))
    ensures Validator.NodesVerdict(WithCentralityAsWritten(nodes, links), 0).Invalid?
  {
    var k :| 0 <= k < |nodes| && PrototypeName(Ids(nodes)[k]);
    CentralityAsWrittenAgrees(nodes, links);
    assert !Validator.NodeOk(WithCentralityAsWritten(nodes, links)[k]);
  }

  /**
   * A graph whose nodes include one with a prototype name as its id is rejected whatever its
   * links and metrics: by the corrected check, and by the check as written at the nodes, before
   * its average-degree guard.
   */
  lemma PrototypeIdRejected(nodes: seq<GraphNode>, links: seq<GraphLink>, metrics: Option<GraphMetrics>)
    requires HasPrototypeName(Ids(nodes))
    ensures var g := GraphData(WithCentralityAsWritten(nodes, links), links, metrics);
      && Validator.ValidateGraph(g).Invalid?
      && Validator.NodesVerdict(g.nodes, 0).Invalid?
      && Validator.ValidateGraphAsWritten(g) == Validator.NodesVerdict(g.nodes, 0)
  {
    PrototypeIdNodeRejected(nodes, links);
    var g := GraphData(WithCentralityAsWritten(nodes, links), links, metrics);
    assert |g.nodes| > 0;
    assert Validator.GraphPrefixVerdict(g) == Validator.NodesVerdict(g.nodes, 0);
  }

  /** A single point gives no links. */
  lemma OnePointNoLinks(c: ClusterPoint)
    ensures ToGraphLinks(MakeNodes([c]), KeptEdges(MakeNodes([c]))) == []
  {
    KeptEdgesFacts(MakeNodes([c]));
  }

  /**
   * One labelled point with the id "toString": the intended graph passes the corrected
   * validator, while as written the node's centrality and the average degree are NaN and the
   * validator stops at the node check.
   */
  lemma ToStringIdCounterexample(s: Num)
    ensures var c := ClusterPoint("toString", Fin(0.0), Fin(0.0), 0, "a", "", None, None, None, None);
      var nodes := MakeNodes([c]);
      var g := BuildGraph([c], s);
      && g.links == []
      && Validator.ValidateGraph(g).Valid?
      && WithCentralityAsWritten(nodes, [])[0].centrality == NaN
      && AvgDegreeAsWritten([], Ids(nodes)) == NaN
      && Validator.ValidateGraph(GraphData(WithCentralityAsWritten(nodes, []), [], g.metrics)).Invalid?
  {
    var c := ClusterPoint("toString", Fin(0.0), Fin(0.0), 0, "a", "", None, None, None, None);
    var nodes := MakeNodes([c]);
    OnePointNoLinks(c);
    BuiltGraphValid([c], s);
    assert PrototypeName(Ids(nodes)[0]);
    CentralityAsWrittenAgrees(nodes, []);
    AvgDegreeAsWrittenAgrees(nodes, []);
    PrototypeIdRejected(nodes, [], BuildGraph([c], s).metrics);
  }
}
