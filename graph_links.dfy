/**
 * The link map of `generateGraphFromClusters` (services/mockDataService.ts) and its `addLink`
 * helper: at most one link per unordered pair of nodes, reinforced with a cap at 1 when the
 * pair is observed again, its type only ever moving up the order
 * co-ocorrencia < semantico < hierarquico.
 *
 * The map is keyed by the pair of node positions, smaller first. The source keys it by the
 * string `${id}-${id}` of the two node ids, which can make two different pairs share a key;
 * `SourceLinkKey` and `SourceKeysCollide` model that key as written.
 */
module GraphLinks {
  import opened Js
  import opened Types

  /** One call `addLink(u, v, weight, confidence, type)`. */
  datatype Obs = Obs(u: nat, v: nat, weight: real, confidence: real, linkType: LinkType)

  /** A link of the map; `source` and `target` are node positions. */
  datatype Edge = Edge(source: nat, target: nat, value: real, confidence: real, linkType: LinkType)

  /** The canonical key of an unordered pair of node positions. */
  type Key = (nat, nat)

  /** Links by key, and the keys in insertion order (the iteration order of a JS `Map`). */
  datatype Links<K> = Links(byKey: map<K, Edge>, order: seq<K>)

  function Empty<K>(): Links<K>
  {
    Links(map[], [])
  }

  // ------------------------------------------------------------------ link types

  /** Position in the precedence co-ocorrencia < semantico < hierarquico. */
  function Rank(t: LinkType): nat
  {
    match t
    case CoOcorrencia => 0
    case Semantico => 1
    case Hierarquico => 2
  }

  /** The type upgrade of a repeated observation: hierarquico wins, semantico replaces co-ocorrencia. */
  function Upgrade(current: LinkType, incoming: LinkType): (r: LinkType)
    ensures Rank(r) == if Rank(current) < Rank(incoming) then Rank(incoming) else Rank(current)
    ensures r == current || r == incoming
  {
    if incoming == Hierarquico then Hierarquico
    else if incoming == Semantico && current == CoOcorrencia then Semantico
    else current
  }

  /** `Math.min(1, x)`. */
  function Cap(x: real): (r: real)
    ensures r <= 1.0 && r <= x && (r == 1.0 || r == x)
  {
    if x < 1.0 then x else 1.0
  }

  /** An existing link observed once more. */
  function Reinforce(e: Edge, o: Obs): (r: Edge)
    ensures r.source == e.source && r.target == e.target
    ensures r.value <= 1.0 && r.confidence <= 1.0
    ensures Rank(r.linkType) >= Rank(e.linkType) && Rank(r.linkType) >= Rank(o.linkType)
  {
    Edge(e.source, e.target,
      Cap(e.value + o.weight * 0.5),
      Cap(e.confidence + o.confidence * 0.2),
      Upgrade(e.linkType, o.linkType))
  }

  // ------------------------------------------------------------------ the map as a value

  /** `addLink` under an arbitrary key function's key `k`. */
  function Insert<K>(s: Links<K>, k: K, o: Obs): Links<K>
  {
    if o.u == o.v then s
    else if k in s.byKey then Links(s.byKey[k := Reinforce(s.byKey[k], o)], s.order)
    else Links(s.byKey[k := Edge(o.u, o.v, o.weight, o.confidence, o.linkType)], s.order + [k])
  }

  /** The key of the pair `{a, b}`: smaller position first. */
  function KeyOf(a: nat, b: nat): (k: Key)
    ensures k.0 <= k.1 && {k.0, k.1} == {a, b}
  {
    if a < b then (a, b) else (b, a)
  }

  /** Two pairs share a key exactly when they are the same unordered pair. */
  lemma KeyOfInjective(a: nat, b: nat, c: nat, d: nat)
    ensures KeyOf(a, b) == KeyOf(c, d) <==> {a, b} == {c, d}
  {
    if {a, b} == {c, d} {
      assert a in {c, d} && b in {c, d} && c in {a, b};
    }
  }

  function Add(s: Links<Key>, o: Obs): Links<Key>
  {
    Insert(s, KeyOf(o.u, o.v), o)
  }

  /** A sequence of `addLink` calls, in order. */
  function AddAll(s: Links<Key>, obs: seq<Obs>): Links<Key>
  {
    if |obs| == 0 then s else Add(AddAll(s, obs[..|obs| - 1]), obs[|obs| - 1])
  }

  lemma AddAllSnoc(s: Links<Key>, obs: seq<Obs>, o: Obs)
    ensures AddAll(s, obs + [o]) == Add(AddAll(s, obs), o)
  {
    assert (obs + [o])[..|obs|] == obs;
  }

  lemma {:induction false} AddAllAppend(s: Links<Key>, a: seq<Obs>, b: seq<Obs>)
    ensures AddAll(s, a + b) == AddAll(AddAll(s, a), b)
  {
    if |b| == 0 {
      assert a + b == a;
    } else {
      var b' := b[..|b| - 1];
      assert a + b == (a + b') + [b[|b| - 1]];
      assert b == b' + [b[|b| - 1]];
      AddAllAppend(s, a, b');
      AddAllSnoc(s, a + b', b[|b| - 1]);
      AddAllSnoc(AddAll(s, a), b', b[|b| - 1]);
    }
  }

  // ------------------------------------------------------------------ invariants of the map

  /**
   * Over `n` nodes: the order lists every key exactly once, each key is a pair of two different
   * positions below `n`, smaller first, and its link joins exactly those two nodes.
   */
  ghost predicate WellFormed(s: Links<Key>, n: nat)
  {
    Distinct(s.order) &&
    (forall k :: k in s.byKey <==> k in s.order) &&
    forall k :: k in s.byKey ==>
      k.0 < k.1 < n && KeyOf(s.byKey[k].source, s.byKey[k].target) == k
  }

  /** Every value and confidence lies in (0, 1]. */
  ghost predicate Bounded(s: Links<Key>)
  {
    forall k :: k in s.byKey ==> 0.0 < s.byKey[k].value <= 1.0 && 0.0 < s.byKey[k].confidence <= 1.0
  }

  /** Every link runs from its lower node position to its higher one. */
  ghost predicate Forward(s: Links<Key>)
  {
    forall k :: k in s.byKey ==> s.byKey[k].source < s.byKey[k].target
  }

  predicate ObsIn(o: Obs, n: nat)
  {
    o.u < n && o.v < n
  }

  predicate ObsBounded(o: Obs)
  {
    0.0 < o.weight <= 1.0 && 0.0 < o.confidence <= 1.0
  }

  lemma AddWellFormed(s: Links<Key>, o: Obs, n: nat)
    requires WellFormed(s, n) && ObsIn(o, n)
    ensures WellFormed(Add(s, o), n)
  {
    var k := KeyOf(o.u, o.v);
    if o.u != o.v && k !in s.byKey {
      forall i, j | 0 <= i < j < |s.order + [k]|
        ensures (s.order + [k])[i] != (s.order + [k])[j]
      {
        if j == |s.order| {
          assert s.order[i] in s.byKey;
        }
      }
    }
  }

  lemma AddBounded(s: Links<Key>, o: Obs)
    requires Bounded(s) && ObsBounded(o)
    ensures Bounded(Add(s, o))
  {
  }

  /** Both phases pass pairs in increasing position order, so every link is forward. */
  lemma AddForward(s: Links<Key>, o: Obs)
    requires Forward(s) && o.u <= o.v
    ensures Forward(Add(s, o))
  {
  }

  /**
   * A self-pair changes nothing. A new pair gets one more link, appended last. A repeated pair keeps
   * its place and endpoints, gets its value raised by half the weight and its confidence by a fifth
   * of the confidence, each capped at 1, and its type upgraded. No other link changes.
   */
  lemma AddEffect(s: Links<Key>, o: Obs)
    ensures o.u == o.v ==> Add(s, o) == s
    ensures forall k :: k in s.byKey && k != KeyOf(o.u, o.v) ==> k in Add(s, o).byKey && Add(s, o).byKey[k] == s.byKey[k]
    ensures o.u != o.v && KeyOf(o.u, o.v) in s.byKey ==>
      var e := s.byKey[KeyOf(o.u, o.v)];
      var e' := Add(s, o).byKey[KeyOf(o.u, o.v)];
      Add(s, o).order == s.order && Add(s, o).byKey.Keys == s.byKey.Keys &&
      e'.source == e.source && e'.target == e.target &&
      e'.value == Cap(e.value + 0.5 * o.weight) && e'.confidence == Cap(e.confidence + 0.2 * o.confidence) &&
      Rank(e'.linkType) == if Rank(e.linkType) < Rank(o.linkType) then Rank(o.linkType) else Rank(e.linkType)
    ensures o.u != o.v && KeyOf(o.u, o.v) !in s.byKey ==>
      Add(s, o).order == s.order + [KeyOf(o.u, o.v)] &&
      Add(s, o).byKey.Keys == s.byKey.Keys + {KeyOf(o.u, o.v)} &&
      Add(s, o).byKey[KeyOf(o.u, o.v)] == Edge(o.u, o.v, o.weight, o.confidence, o.linkType)
  {
  }

  /** Links are never removed and, for weights and confidences that are not negative, never weakened. */
  lemma AddMonotone(s: Links<Key>, o: Obs, k: Key)
    requires k in s.byKey && s.byKey[k].value <= 1.0 && s.byKey[k].confidence <= 1.0
    requires 0.0 <= o.weight && 0.0 <= o.confidence
    ensures k in Add(s, o).byKey
    ensures Add(s, o).byKey[k].value >= s.byKey[k].value
    ensures Add(s, o).byKey[k].confidence >= s.byKey[k].confidence
    ensures Rank(Add(s, o).byKey[k].linkType) >= Rank(s.byKey[k].linkType)
  {
  }

  lemma {:induction false} AddAllInvariants(s: Links<Key>, obs: seq<Obs>, n: nat)
    requires WellFormed(s, n) && Bounded(s) && Forward(s)
    requires forall i :: 0 <= i < |obs| ==> ObsIn(obs[i], n) && ObsBounded(obs[i]) && obs[i].u <= obs[i].v
    ensures WellFormed(AddAll(s, obs), n) && Bounded(AddAll(s, obs)) && Forward(AddAll(s, obs))
  {
    if |obs| > 0 {
      var last := obs[|obs| - 1];
      AddAllInvariants(s, obs[..|obs| - 1], n);
      AddWellFormed(AddAll(s, obs[..|obs| - 1]), last, n);
      AddBounded(AddAll(s, obs[..|obs| - 1]), last);
      AddForward(AddAll(s, obs[..|obs| - 1]), last);
    }
  }

  /** Every key in the map comes from some observation of that pair. */
  lemma {:induction false} KeysObserved(obs: seq<Obs>)
    ensures forall k :: k in AddAll(Empty(), obs).byKey ==>
      exists j :: 0 <= j < |obs| && KeyOf(obs[j].u, obs[j].v) == k
  {
    if |obs| > 0 {
      var obs' := obs[..|obs| - 1];
      KeysObserved(obs');
      AddEffect(AddAll(Empty(), obs'), obs[|obs| - 1]);
      forall k | k in AddAll(Empty(), obs).byKey
        ensures exists j :: 0 <= j < |obs| && KeyOf(obs[j].u, obs[j].v) == k
      {
        if k != KeyOf(obs[|obs| - 1].u, obs[|obs| - 1].v) {
          var j :| 0 <= j < |obs'| && KeyOf(obs'[j].u, obs'[j].v) == k;
          assert obs[j] == obs'[j];
        }
      }
    }
  }

  /** A pair observed exactly once keeps that observation's weight, confidence and type unchanged. */
  lemma {:induction false} LoneObservation(obs: seq<Obs>, i: nat)
    requires i < |obs| && obs[i].u != obs[i].v
    requires forall j :: 0 <= j < |obs| && j != i ==> KeyOf(obs[j].u, obs[j].v) != KeyOf(obs[i].u, obs[i].v)
    ensures KeyOf(obs[i].u, obs[i].v) in AddAll(Empty(), obs).byKey
    ensures AddAll(Empty(), obs).byKey[KeyOf(obs[i].u, obs[i].v)] ==
      Edge(obs[i].u, obs[i].v, obs[i].weight, obs[i].confidence, obs[i].linkType)
  {
    var obs' := obs[..|obs| - 1];
    var last := obs[|obs| - 1];
    AddEffect(AddAll(Empty(), obs'), last);
    if i == |obs| - 1 {
      KeysObserved(obs');
      forall j | 0 <= j < |obs'|
        ensures KeyOf(obs'[j].u, obs'[j].v) != KeyOf(last.u, last.v)
      {
        assert obs'[j] == obs[j];
      }
    } else {
      forall j | 0 <= j < |obs'| && j != i
        ensures KeyOf(obs'[j].u, obs'[j].v) != KeyOf(obs'[i].u, obs'[i].v)
      {
        assert obs'[j] == obs[j];
      }
      LoneObservation(obs', i);
    }
  }

  // ------------------------------------------------------------------ counting the pairs

  /** The number of unordered pairs of `b` nodes, `b (b - 1) / 2`. */
  function PairCount(b: nat): nat
  {
    if b == 0 then 0 else PairCount(b - 1) + (b - 1)
  }

  lemma {:induction false} PairCountFormula(b: nat)
    ensures 2 * PairCount(b) == b * (b - 1)
  {
    if b > 0 {
      PairCountFormula(b - 1);
    }
  }

  lemma {:induction false} PairCountMonotone(a: nat, b: nat)
    requires a <= b
    ensures PairCount(a) <= PairCount(b)
  {
    if a < b {
      PairCountMonotone(a, b - 1);
    }
  }

  /** The position of key `k` in the listing (0,1), (0,2), (1,2), (0,3), ... of all pairs. */
  function Code(k: Key): nat
  {
    PairCount(k.1) + k.0
  }

  lemma CodeBelow(k: Key, n: nat)
    requires k.0 < k.1 < n
    ensures Code(k) < PairCount(n)
  {
    PairCountMonotone(k.1 + 1, n);
  }

  lemma CodeInjective(k: Key, k': Key)
    requires k.0 < k.1 && k'.0 < k'.1 && Code(k) == Code(k')
    ensures k == k'
  {
    if k.1 < k'.1 {
      PairCountMonotone(k.1 + 1, k'.1);
    } else if k'.1 < k.1 {
      PairCountMonotone(k'.1 + 1, k.1);
    }
  }

  /** A well-formed map over `n` nodes holds at most `n (n - 1) / 2` links. */
  lemma LinkCountBound(s: Links<Key>, n: nat)
    requires WellFormed(s, n)
    ensures 2 * |s.order| <= n * (n - 1)
  {
    var codes := seq(|s.order|, i requires 0 <= i < |s.order| => Code(s.order[i]));
    forall i | 0 <= i < |codes|
      ensures codes[i] < PairCount(n)
    {
      assert s.order[i] in s.byKey;
      CodeBelow(s.order[i], n);
    }
    forall i, j | 0 <= i < j < |codes|
      ensures codes[i] != codes[j]
    {
      assert s.order[i] in s.byKey && s.order[j] in s.byKey;
      if codes[i] == codes[j] {
        CodeInjective(s.order[i], s.order[j]);
      }
    }
    DistinctBelow(codes, PairCount(n));
    PairCountFormula(n);
  }

  /** `Array.from(linksMap.values())`: the links in insertion order. */
  function Values(s: Links<Key>): (r: seq<Edge>)
    requires forall k :: k in s.order ==> k in s.byKey
    ensures |r| == |s.order| && forall i :: 0 <= i < |r| ==> r[i] == s.byKey[s.order[i]]
  {
    seq(|s.order|, i requires 0 <= i < |s.order| => s.byKey[s.order[i]])
  }

  // ------------------------------------------------------------------ the map in place

  /** `linksMap` with `addLink`, updating a link in place when its pair is seen again. */
  class LinkMap {
    var byKey: map<Key, Edge>
    var order: seq<Key>

    constructor ()
      ensures byKey == map[] && order == []
    {
      byKey := map[];
      order := [];
    }

    function State(): Links<Key>
      reads this
    {
      Links(byKey, order)
    }

    method AddLink(idxA: nat, idxB: nat, weightBase: real, confidenceBase: real, linkType: LinkType)
      modifies this
      ensures State() == Add(old(State()), Obs(idxA, idxB, weightBase, confidenceBase, linkType))
    {
      if idxA == idxB {
        return;
      }
      var key := KeyOf(idxA, idxB);
      if key in byKey {
        var existing := byKey[key];
        var value := Cap(existing.value + weightBase * 0.5);
        var confidence := Cap(existing.confidence + confidenceBase * 0.2);
        var t := existing.linkType;
        if linkType == Hierarquico {
          t := Hierarquico;
        } else if linkType == Semantico && t == CoOcorrencia {
          t := Semantico;
        }
        byKey := byKey[key := Edge(existing.source, existing.target, value, confidence, t)];
      } else {
        byKey := byKey[key := Edge(idxA, idxB, weightBase, confidenceBase, linkType)];
        order := order + [key];
      }
    }

    /** `Array.from(linksMap.values())`. */
    method LinkValues() returns (edges: seq<Edge>)
      requires forall k :: k in order ==> k in byKey
      ensures edges == Values(State())
    {
      edges := [];
      for i := 0 to |order|
        invariant edges == Values(State())[..i]
      {
        edges := edges + [byKey[order[i]]];
      }
    }
  }

  // ------------------------------------------------------------------ the key as written

  /** The source's key: the ids of the lower and the higher position joined by "-". */
  function SourceLinkKey(ids: seq<string>, a: nat, b: nat): string
    requires a < |ids| && b < |ids|
  {
    if a < b then ids[a] + "-" + ids[b] else ids[b] + "-" + ids[a]
  }

  /** `addLink` as written, keyed by `SourceLinkKey`. */
  function AddAsWritten(ids: seq<string>, s: Links<string>, o: Obs): Links<string>
    requires o.u < |ids| && o.v < |ids|
  {
    Insert(s, SourceLinkKey(ids, o.u, o.v), o)
  }

  /**
   * Four distinct ids, two disjoint pairs, one string key: the source merges the second pair into
   * the first pair's link and the second link is lost, where the pair-keyed map keeps both.
   */
  lemma SourceKeysCollide()
    ensures var ids := ["a-b", "c", "a", "b-c"];
      var o1 := Obs(0, 1, 0.4, 0.6, CoOcorrencia);
      var o2 := Obs(2, 3, 0.4, 0.6, CoOcorrencia);
      Distinct(ids) &&
      SourceLinkKey(ids, 0, 1) == SourceLinkKey(ids, 2, 3) &&
      |AddAsWritten(ids, AddAsWritten(ids, Empty(), o1), o2).order| == 1 &&
      |Add(Add(Empty(), o1), o2).order| == 2
  {
    var ids := ["a-b", "c", "a", "b-c"];
    assert SourceLinkKey(ids, 0, 1) == "a-b-c";
    assert SourceLinkKey(ids, 2, 3) == "a-b-c";
  }
}
