/**
 * `generateGraphFromClusters` of services/mockDataService.ts: one node per cluster point,
 * semantic links between points that share keywords, structural links inside each cluster,
 * a final confidence filter, and the graph metrics. Links live in a map keyed by the pair of
 * node positions, smaller first; the source keys it by the two node ids joined with "-".
 */
module GraphBuilder {
  import opened Js
  import opened Types
  import opened GraphLinks

  // ------------------------------------------------------------------ nodes

  /** `c.entityLabel || c.label`. */
  function NodeLabel(c: ClusterPoint): string
  {
    if c.entityLabel.Some? && c.entityLabel.value != "" then c.entityLabel.value else c.labelText
  }

  /** Noise points (cluster -1) go to group 99. */
  function Group(c: ClusterPoint): int
  {
    if c.clusterId == -1 then 99 else c.clusterId
  }

  function MakeNode(c: ClusterPoint): (n: GraphNode)
    ensures n.id == c.id && n.group == Group(c) && n.centrality == Fin(0.0)
  {
    GraphNode(c.id, NodeLabel(c), Group(c), c.fullContent, Fin(0.0), c.dueDate, c.entityType, c.keywords)
  }

  function MakeNodes(clusters: seq<ClusterPoint>): (r: seq<GraphNode>)
    ensures |r| == |clusters| && forall i :: 0 <= i < |r| ==> r[i] == MakeNode(clusters[i])
  {
    seq(|clusters|, i requires 0 <= i < |clusters| => MakeNode(clusters[i]))
  }

  // ------------------------------------------------------------------ keyword sets

  /** `k.toLowerCase().trim()` for every keyword; no keywords gives none. */
  function Normalized(keywords: Option<seq<string>>): (r: seq<string>)
    ensures keywords.None? ==> r == []
    ensures keywords.Some? ==> |r| == |keywords.value| && forall i :: 0 <= i < |r| ==> r[i] == Trim(LowerStr(keywords.value[i]))
  {
    if keywords.None? then []
    else seq(|keywords.value|, i requires 0 <= i < |keywords.value| => Trim(LowerStr(keywords.value[i])))
  }

  /** `new Set(...)` of the normalised keywords of a node, in insertion order. */
  function KeywordSet(n: GraphNode): (r: seq<string>)
    ensures Distinct(r)
  {
    Dedup(Normalized(n.keywords))
  }

  function KeywordSets(nodes: seq<GraphNode>): (r: seq<seq<string>>)
    ensures |r| == |nodes| && forall i :: 0 <= i < |r| ==> r[i] == KeywordSet(nodes[i]) && Distinct(r[i])
  {
    seq(|nodes|, i requires 0 <= i < |nodes| => KeywordSet(nodes[i]))
  }

  // ------------------------------------------------------------------ inverted index

  function Flatten(sets: seq<seq<string>>): seq<string>
  {
    if |sets| == 0 then [] else Flatten(sets[..|sets| - 1]) + sets[|sets| - 1]
  }

  /** The positions among the first `n` whose keyword set holds `kw`, in increasing order. */
  function Holders(sets: seq<seq<string>>, kw: string, n: nat): seq<nat>
    requires n <= |sets|
  {
    if n == 0 then [] else Holders(sets, kw, n - 1) + if kw in sets[n - 1] then [n - 1] else []
  }

  /** An index bucket lists exactly the nodes holding the keyword, each once, in increasing order. */
  lemma {:induction false} HoldersSpec(sets: seq<seq<string>>, kw: string, n: nat)
    requires n <= |sets|
    ensures forall i :: i in Holders(sets, kw, n) <==> 0 <= i < n && kw in sets[i]
    ensures forall a, b :: 0 <= a < b < |Holders(sets, kw, n)| ==> Holders(sets, kw, n)[a] < Holders(sets, kw, n)[b]
    ensures forall a :: 0 <= a < |Holders(sets, kw, n)| ==> Holders(sets, kw, n)[a] < n
  {
    if n > 0 {
      HoldersSpec(sets, kw, n - 1);
    }
  }

  /**
   * The inverted index `keywordToNodeIndices`: each keyword, in the order it was first met,
   * mapped to the positions of the nodes that have it.
   */
  method BuildIndex(sets: seq<seq<string>>) returns (keys: seq<string>, index: map<string, seq<nat>>)
    requires forall i :: 0 <= i < |sets| ==> Distinct(sets[i])
    ensures keys == Dedup(Flatten(sets))
    ensures forall kw :: kw in index <==> kw in keys
    ensures forall kw :: kw in index ==> index[kw] == Holders(sets, kw, |sets|)
  {
    keys := [];
    index := map[];
    for nodeIdx := 0 to |sets|
      invariant keys == Dedup(Flatten(sets[..nodeIdx]))
      invariant Indexed(sets, nodeIdx, [], keys, index)
    {
      keys, index := IndexNode(sets, nodeIdx, keys, index);
    }
    assert sets[..|sets|] == sets;
  }

  /**
   * `index` has exactly the keys `keys`, holds every keyword of `seen`, and maps each keyword
   * to its holders among the first `n` nodes followed by node `n` when `seen` has it.
   */
  ghost predicate Indexed(sets: seq<seq<string>>, n: nat, seen: seq<string>, keys: seq<string>, index: map<string, seq<nat>>)
    requires n <= |sets|
  {
    (forall kw :: kw in index <==> kw in keys) &&
    (forall kw :: kw in seen ==> kw in index) &&
    (forall kw :: kw !in index ==> Holders(sets, kw, n) == []) &&
    forall kw :: kw in index ==> index[kw] == Holders(sets, kw, n) + if kw in seen then [n] else []
  }

  /** `keywordToNodeIndices[kw].push(nodeIdx)`, creating the bucket first when it is missing. */
  function Push(index: map<string, seq<nat>>, kw: string, nodeIdx: nat): (r: map<string, seq<nat>>)
    ensures r.Keys == index.Keys + {kw}
    ensures r[kw] == (if kw in index then index[kw] else []) + [nodeIdx]
    ensures forall k :: k in index && k != kw ==> r[k] == index[k]
  {
    index[kw := (if kw in index then index[kw] else []) + [nodeIdx]]
  }

  /** Pushing node `n` under a keyword of its set not yet handled keeps the index exact. */
  lemma IndexedStep(sets: seq<seq<string>>, n: nat, seen: seq<string>, kw: string, keys: seq<string>, index: map<string, seq<nat>>)
    requires n < |sets| && kw !in seen
    requires Indexed(sets, n, seen, keys, index)
    ensures Indexed(sets, n, seen + [kw], if kw in index then keys else keys + [kw], Push(index, kw, n))
  {
    var index' := Push(index, kw, n);
    forall k | k in index'
      ensures index'[k] == Holders(sets, k, n) + if k in seen + [kw] then [n] else []
    {
      if k != kw {
        assert (k in seen + [kw]) == (k in seen);
      }
    }
  }

  /** Once every keyword of node `n` is pushed, the index covers the first `n + 1` nodes. */
  lemma IndexedNext(sets: seq<seq<string>>, n: nat, keys: seq<string>, index: map<string, seq<nat>>)
    requires n < |sets|
    requires Indexed(sets, n, sets[n], keys, index)
    ensures Indexed(sets, n + 1, [], keys, index)
  {
    forall kw | kw !in index
      ensures Holders(sets, kw, n + 1) == []
    {
      assert kw !in sets[n];
    }
    forall kw | kw in index
      ensures index[kw] == Holders(sets, kw, n + 1)
    {
    }
  }

  lemma SliceSnoc(before: seq<string>, s: seq<string>, t: nat)
    requires t < |s| && Distinct(s)
    ensures s[..t + 1] == s[..t] + [s[t]]
    ensures before + s[..t + 1] == (before + s[..t]) + [s[t]]
    ensures s[t] !in s[..t]
  {
    assert s[..t + 1] == s[..t] + [s[t]];
  }

  lemma IndexLoopStep(sets: seq<seq<string>>, n: nat, before: seq<string>, t: nat, keys: seq<string>, index: map<string, seq<nat>>)
    requires n < |sets| && t < |sets[n]| && Distinct(sets[n])
    requires keys == Dedup(before + sets[n][..t])
    requires Indexed(sets, n, sets[n][..t], keys, index)
    ensures var kw := sets[n][t];
      var keys' := if kw in index then keys else keys + [kw];
      keys' == Dedup(before + sets[n][..t + 1]) &&
      Indexed(sets, n, sets[n][..t + 1], keys', Push(index, kw, n))
  {
    SliceSnoc(before, sets[n], t);
    DedupSnoc(before + sets[n][..t], sets[n][t]);
    IndexedStep(sets, n, sets[n][..t], sets[n][t], keys, index);
  }

  lemma IndexNodeDone(sets: seq<seq<string>>, n: nat, keys: seq<string>, index: map<string, seq<nat>>)
    requires n < |sets|
    requires keys == Dedup(Flatten(sets[..n]) + sets[n][..|sets[n]|])
    requires Indexed(sets, n, sets[n][..|sets[n]|], keys, index)
    ensures keys == Dedup(Flatten(sets[..n + 1]))
    ensures Indexed(sets, n + 1, [], keys, index)
  {
    assert sets[n][..|sets[n]|] == sets[n];
    IndexedNext(sets, n, keys, index);
    assert sets[..n + 1][..n] == sets[..n];
  }

  /** One step of the `forEach` over the keyword sets: node `nodeIdx` pushed under each of its keywords. */
  method IndexNode(sets: seq<seq<string>>, nodeIdx: nat, keys0: seq<string>, index0: map<string, seq<nat>>)
    returns (keys: seq<string>, index: map<string, seq<nat>>)
    requires nodeIdx < |sets| && Distinct(sets[nodeIdx])
    requires keys0 == Dedup(Flatten(sets[..nodeIdx]))
    requires Indexed(sets, nodeIdx, [], keys0, index0)
    ensures keys == Dedup(Flatten(sets[..nodeIdx + 1]))
    ensures Indexed(sets, nodeIdx + 1, [], keys, index)
  {
    keys, index := keys0, index0;
    var set_ := sets[nodeIdx];
    ghost var before := Flatten(sets[..nodeIdx]);
    assert before + set_[..0] == before;
    for t := 0 to |set_|
      invariant keys == Dedup(before + set_[..t])
      invariant Indexed(sets, nodeIdx, set_[..t], keys, index)
    {
      var kw := set_[t];
      IndexLoopStep(sets, nodeIdx, before, t, keys, index);
      if kw !in index {
        keys := keys + [kw];
      }
      index := Push(index, kw, nodeIdx);
    }
    IndexNodeDone(sets, nodeIdx, keys, index);
  }

  // ------------------------------------------------------------------ keyword overlap

  /** The loop `for (const k of smallerSet) if (largerSet.has(k)) intersection++`, run over `xs`. */
  function CountIn(xs: seq<string>, ys: seq<string>): nat
  {
    if |xs| == 0 then 0 else CountIn(xs[..|xs| - 1], ys) + if xs[|xs| - 1] in ys then 1 else 0
  }

  lemma {:induction false} CountInIsIntersection(xs: seq<string>, ys: seq<string>)
    requires Distinct(xs)
    ensures CountIn(xs, ys) == |Elems(xs) * Elems(ys)|
  {
    if |xs| > 0 {
      var xs' := xs[..|xs| - 1];
      var x := xs[|xs| - 1];
      DistinctSnoc(xs);
      CountInIsIntersection(xs', ys);
      ElemsSnoc(xs);
      if x in ys {
        assert Elems(xs) * Elems(ys) == (Elems(xs') * Elems(ys)) + {x};
        assert x !in Elems(xs') * Elems(ys);
      } else {
        assert Elems(xs) * Elems(ys) == Elems(xs') * Elems(ys);
      }
    }
  }

  /** The intersection count, run over whichever set is smaller (the second one on a tie). */
  function Intersection(a: seq<string>, b: seq<string>): nat
  {
    if |a| < |b| then CountIn(a, b) else CountIn(b, a)
  }

  /** Whichever set the loop runs over, it counts the common keywords, at most the size of either set. */
  lemma IntersectionIsCommon(a: seq<string>, b: seq<string>)
    requires Distinct(a) && Distinct(b)
    ensures Intersection(a, b) == |Elems(a) * Elems(b)|
    ensures Intersection(a, b) <= |a| && Intersection(a, b) <= |b|
  {
    CountInIsIntersection(a, b);
    CountInIsIntersection(b, a);
    assert Elems(a) * Elems(b) == Elems(b) * Elems(a);
    DistinctCard(a);
    DistinctCard(b);
    SubsetCard(Elems(a) * Elems(b), Elems(a));
    SubsetCard(Elems(a) * Elems(b), Elems(b));
  }


  /**
   * The hybrid similarity of two keyword sets, or nothing when either is empty or they share
   * no keyword: 0.6 times the overlap coefficient plus 0.4 times the Jaccard index.
   */
  function PairConfidence(a: seq<string>, b: seq<string>): Option<real>
    requires Distinct(a) && Distinct(b)
  {
    if |a| == 0 || |b| == 0 then None
    else
      var intersection := Intersection(a, b);
      if intersection == 0 then None
      else
        IntersectionIsCommon(a, b);
        var union := |a| + |b| - intersection;
        var minSize := if |a| < |b| then |a| else |b|;
        var jaccard := intersection as real / union as real;
        var overlapCoeff := intersection as real / minSize as real;
        Some(overlapCoeff * 0.6 + jaccard * 0.4)
  }

  /** A confidence, when there is one, lies in (0, 1]. */
  lemma ConfidenceBounds(a: seq<string>, b: seq<string>)
    requires Distinct(a) && Distinct(b)
    ensures PairConfidence(a, b).Some? <==> |Elems(a) * Elems(b)| > 0
    ensures PairConfidence(a, b).Some? ==> 0.0 < PairConfidence(a, b).value <= 1.0
  {
    IntersectionIsCommon(a, b);
    if PairConfidence(a, b).Some? {
      var intersection := Intersection(a, b);
      var minSize := if |a| < |b| then |a| else |b|;
      ShareBounds(intersection as real, minSize as real);
      ShareBounds(intersection as real, (|a| + |b| - intersection) as real);
    } else if |a| == 0 || |b| == 0 {
      assert Elems(a) * Elems(b) == {};
    }
  }

  /**
   * A keyword set inside another one has overlap coefficient 1, so the pair scores at least 0.6 and is
   * always linked; two equal sets score exactly 1.
   */
  lemma SubsetConfidence(a: seq<string>, b: seq<string>)
    requires Distinct(a) && Distinct(b) && |a| > 0 && Elems(a) <= Elems(b)
    ensures PairConfidence(a, b).Some? && PairConfidence(a, b).value >= 0.6
    ensures Elems(a) == Elems(b) ==> PairConfidence(a, b) == Some(1.0)
  {
    SubsetShares(a, b);
    SubsetScore(|a|, |b|);
  }

  /** Every keyword of a subset is shared, and the subset is the smaller set. */
  lemma SubsetShares(a: seq<string>, b: seq<string>)
    requires Distinct(a) && Distinct(b) && Elems(a) <= Elems(b)
    ensures Intersection(a, b) == |a| <= |b|
    ensures Elems(a) == Elems(b) ==> |a| == |b|
  {
    IntersectionIsCommon(a, b);
    DistinctCard(a);
    DistinctCard(b);
    assert Elems(a) * Elems(b) == Elems(a);
    SubsetCard(Elems(a), Elems(b));
  }

  /** The score of `n` shared keywords out of `n` and `m`: overlap 1 and Jaccard `n / m`. */
  lemma SubsetScore(n: nat, m: nat)
    requires 0 < n <= m
    ensures var j := n as real / (n + m - n) as real; var o := n as real / n as real;
      o * 0.6 + j * 0.4 >= 0.6 && (n == m ==> o * 0.6 + j * 0.4 == 1.0)
  {
    assert n + m - n == m;
    assert n as real / n as real == 1.0;
    QuotientNonNegative(n as real, m as real);
  }

  // ------------------------------------------------------------------ pairs of a bucket

  /** `(indices[i], indices[j])` for `j` from `i + 1` on: one pass of the inner loop of either phase. */
  function Row(idx: seq<nat>, i: nat): (r: seq<(nat, nat)>)
    requires i < |idx|
    ensures |r| == |idx| - i - 1 && forall k :: 0 <= k < |r| ==> r[k] == (idx[i], idx[i + 1 + k])
  {
    seq(|idx| - i - 1, k requires 0 <= k < |idx| - i - 1 => (idx[i], idx[i + 1 + k]))
  }

  /** The pairs the two nested loops visit while `i < m`, in visiting order. */
  function PairsUpTo(idx: seq<nat>, m: nat): seq<(nat, nat)>
    requires m <= |idx|
  {
    if m == 0 then [] else PairsUpTo(idx, m - 1) + Row(idx, m - 1)
  }

  function Pairs(idx: seq<nat>): seq<(nat, nat)>
  {
    PairsUpTo(idx, |idx|)
  }

  /** The loops visit exactly the pairs `(indices[i], indices[j])` with `i < j`. */
  lemma {:induction false} PairsUpToSpec(idx: seq<nat>, m: nat)
    requires m <= |idx|
    ensures forall p :: p in PairsUpTo(idx, m) <==> exists i, j :: 0 <= i < m && i < j < |idx| && p == (idx[i], idx[j])
  {
    if m > 0 {
      PairsUpToSpec(idx, m - 1);
      var row := Row(idx, m - 1);
      forall p | p in PairsUpTo(idx, m)
        ensures exists i, j :: 0 <= i < m && i < j < |idx| && p == (idx[i], idx[j])
      {
        if p in row {
          var k :| 0 <= k < |row| && row[k] == p;
          assert p == (idx[m - 1], idx[m + k]);
        }
      }
      forall i, j | 0 <= i < m && i < j < |idx|
        ensures (idx[i], idx[j]) in PairsUpTo(idx, m)
      {
        if i == m - 1 {
          assert row[j - m] == (idx[i], idx[j]);
        }
      }
    }
  }

  predicate Increasing(idx: seq<nat>)
  {
    forall i, j :: 0 <= i < j < |idx| ==> idx[i] < idx[j]
  }

  predicate Below(idx: seq<nat>, n: nat)
  {
    forall i :: 0 <= i < |idx| ==> idx[i] < n
  }

  /** Over an increasing bucket below `n`, every visited pair is increasing and below `n`. */
  lemma PairsOrdered(idx: seq<nat>, n: nat)
    requires Increasing(idx) && Below(idx, n)
    ensures forall p :: p in Pairs(idx) ==> p.0 < p.1 < n
  {
    PairsUpToSpec(idx, |idx|);
  }

  lemma PairsUpToNext(idx: seq<nat>, i: nat, j: nat)
    requires i < j < |idx|
    ensures PairsUpTo(idx, i) + Row(idx, i)[..j - i] == (PairsUpTo(idx, i) + Row(idx, i)[..j - i - 1]) + [(idx[i], idx[j])]
  {
    assert Row(idx, i)[..j - i] == Row(idx, i)[..j - i - 1] + [(idx[i], idx[j])];
  }

  lemma PairsUpToRow(idx: seq<nat>, i: nat)
    requires i < |idx|
    ensures PairsUpTo(idx, i + 1) == PairsUpTo(idx, i) + Row(idx, i)[..|idx| - i - 1]
  {
    assert Row(idx, i)[..|idx| - i - 1] == Row(idx, i);
  }

  /** Over a bucket below `n`, every pair the loops visit is below `n`. */
  lemma {:induction false} PairsUpToIn(idx: seq<nat>, m: nat, n: nat)
    requires m <= |idx| && Below(idx, n)
    ensures PairsIn(PairsUpTo(idx, m), n)
  {
    if m > 0 {
      PairsUpToIn(idx, m - 1, n);
    }
  }

  predicate PairsIn(ps: seq<(nat, nat)>, n: nat)
  {
    forall k :: 0 <= k < |ps| ==> ps[k].0 < n && ps[k].1 < n
  }

  // ------------------------------------------------------------------ observations

  /** What either phase makes of a pair: the keyword sets of the semantic phase, the entity types of the structural one. */
  datatype Scorer = Semantic(sets: seq<seq<string>>) | Structural(types: seq<Option<string>>)

  function Size(sc: Scorer): nat
  {
    match sc
    case Semantic(sets) => |sets|
    case Structural(types) => |types|
  }

  predicate ScorerOk(sc: Scorer)
  {
    sc.Semantic? ==> forall i :: 0 <= i < |sc.sets| ==> Distinct(sc.sets[i])
  }

  /**
   * The `addLink` calls the pair `p` gives rise to. Semantic: one `semantico` call with weight 0.8
   * times the confidence when the confidence exceeds 0.35, none otherwise. Structural: one
   * `co-ocorrencia` call, with weight 0.4 and confidence 0.6 when the two entity types are equal and
   * 0.2 and 0.3 when they differ.
   */
  function PairObs(sc: Scorer, p: (nat, nat)): seq<Obs>
    requires ScorerOk(sc) && p.0 < Size(sc) && p.1 < Size(sc)
  {
    match sc
    case Semantic(sets) =>
      var c := PairConfidence(sets[p.0], sets[p.1]);
      if c.Some? && c.value > 0.35 then [Obs(p.0, p.1, c.value * 0.8, c.value, Semantico)] else []
    case Structural(types) =>
      var sameType := types[p.0] == types[p.1];
      [Obs(p.0, p.1, if sameType then 0.4 else 0.2, if sameType then 0.6 else 0.3, CoOcorrencia)]
  }

  function ObsOf(sc: Scorer, ps: seq<(nat, nat)>): seq<Obs>
    requires ScorerOk(sc) && PairsIn(ps, Size(sc))
  {
    if |ps| == 0 then [] else ObsOf(sc, ps[..|ps| - 1]) + PairObs(sc, ps[|ps| - 1])
  }

  lemma ObsOfSnoc(sc: Scorer, ps: seq<(nat, nat)>, p: (nat, nat))
    requires ScorerOk(sc) && PairsIn(ps, Size(sc)) && p.0 < Size(sc) && p.1 < Size(sc)
    ensures PairsIn(ps + [p], Size(sc))
    ensures ObsOf(sc, ps + [p]) == ObsOf(sc, ps) + PairObs(sc, p)
  {
    assert (ps + [p])[..|ps|] == ps;
  }

  /** An observation either phase can make over `n` nodes: an increasing pair below `n`, weight and confidence in (0, 1]. */
  predicate ObsOk(o: Obs, n: nat)
  {
    ObsIn(o, n) && ObsBounded(o) && o.u < o.v
  }

  /** Increasing pairs give observations that keep the link map well formed, bounded and forward. */
  lemma {:induction false} ObsOfOk(sc: Scorer, ps: seq<(nat, nat)>)
    requires ScorerOk(sc) && PairsIn(ps, Size(sc))
    requires forall k :: 0 <= k < |ps| ==> ps[k].0 < ps[k].1
    ensures forall k :: 0 <= k < |ObsOf(sc, ps)| ==> ObsOk(ObsOf(sc, ps)[k], Size(sc))
  {
    if |ps| > 0 {
      var p := ps[|ps| - 1];
      ObsOfOk(sc, ps[..|ps| - 1]);
      if sc.Semantic? {
        ConfidenceBounds(sc.sets[p.0], sc.sets[p.1]);
      }
    }
  }

  /** The observations of one bucket: none for fewer than two nodes, or for a semantic bucket holding more than 0.6 N nodes (a stopword). */
  function BucketObs(sc: Scorer, idx: seq<nat>): seq<Obs>
    requires ScorerOk(sc) && Below(idx, Size(sc))
  {
    PairsUpToIn(idx, |idx|, Size(sc));
    if |idx| < 2 then []
    else if sc.Semantic? && |idx| as real > Size(sc) as real * 0.6 then []
    else ObsOf(sc, Pairs(idx))
  }

  lemma BucketObsOk(sc: Scorer, idx: seq<nat>)
    requires ScorerOk(sc) && Below(idx, Size(sc)) && Increasing(idx)
    ensures forall k :: 0 <= k < |BucketObs(sc, idx)| ==> ObsOk(BucketObs(sc, idx)[k], Size(sc))
  {
    PairsUpToIn(idx, |idx|, Size(sc));
    PairsOrdered(idx, Size(sc));
    var ps := Pairs(idx);
    assert forall k :: 0 <= k < |ps| ==> ps[k] in ps;
    ObsOfOk(sc, ps);
  }

  // ------------------------------------------------------------------ the two passes over a bucket

  /** The fast intersection: the keywords of the smaller set found in the larger one. */
  method IntersectionSize(setA: seq<string>, setB: seq<string>) returns (intersection: nat)
    requires Distinct(setA) && Distinct(setB)
    ensures intersection == |Elems(setA) * Elems(setB)|
    ensures intersection == Intersection(setA, setB)
  {
    var smallerSet := if |setA| < |setB| then setA else setB;
    var largerSet := if |setA| < |setB| then setB else setA;
    intersection := 0;
    for t := 0 to |smallerSet|
      invariant intersection == CountIn(smallerSet[..t], largerSet)
    {
      assert smallerSet[..t + 1][..t] == smallerSet[..t];
      if smallerSet[t] in largerSet {
        intersection := intersection + 1;
      }
    }
    assert smallerSet[..|smallerSet|] == smallerSet;
    IntersectionIsCommon(setA, setB);
  }

  /** The body of the inner semantic loop: score the pair `(u, v)` and link it when the score exceeds 0.35. */
  method SemanticPair(links: LinkMap, sets: seq<seq<string>>, u: nat, v: nat)
    requires ScorerOk(Semantic(sets)) && u < |sets| && v < |sets|
    modifies links
    ensures links.State() == AddAll(old(links.State()), PairObs(Semantic(sets), (u, v)))
  {
    var setA := sets[u];
    var setB := sets[v];
    if |setA| == 0 || |setB| == 0 {
      return;
    }
    var intersection := IntersectionSize(setA, setB);
    if intersection == 0 {
      return;
    }
    IntersectionIsCommon(setA, setB);
    var union := |setA| + |setB| - intersection;
    var minSize := if |setA| < |setB| then |setA| else |setB|;
    var jaccard := intersection as real / union as real;
    var overlapCoeff := intersection as real / minSize as real;
    var confidence := overlapCoeff * 0.6 + jaccard * 0.4;
    if confidence > 0.35 {
      ghost var before := links.State();
      links.AddLink(u, v, confidence * 0.8, confidence, Semantico);
      assert [Obs(u, v, confidence * 0.8, confidence, Semantico)][..0] == [];
    }
  }

  lemma {:induction false} ObsOfAppend(sc: Scorer, a: seq<(nat, nat)>, b: seq<(nat, nat)>)
    requires ScorerOk(sc) && PairsIn(a, Size(sc)) && PairsIn(b, Size(sc))
    ensures PairsIn(a + b, Size(sc))
    ensures ObsOf(sc, a + b) == ObsOf(sc, a) + ObsOf(sc, b)
  {
    if |b| > 0 {
      var b' := b[..|b| - 1];
      var p := b[|b| - 1];
      assert a + b == (a + b') + [p];
      assert b == b' + [p];
      ObsOfAppend(sc, a, b');
      ObsOfSnoc(sc, a + b', p);
      ObsOfSnoc(sc, b', p);
    } else {
      assert a + b == a;
    }
  }

  /** The observations of the rows before `i` and of row `i` make those of the rows up to `i`. */
  lemma ObsOfNextRow(sc: Scorer, idx: seq<nat>, i: nat)
    requires ScorerOk(sc) && i < |idx| && Below(idx, Size(sc))
    ensures PairsIn(PairsUpTo(idx, i), Size(sc)) && PairsIn(Row(idx, i), Size(sc))
    ensures ObsOf(sc, PairsUpTo(idx, i + 1)) == ObsOf(sc, PairsUpTo(idx, i)) + ObsOf(sc, Row(idx, i))
  {
    PairsUpToIn(idx, i, Size(sc));
    ObsOfAppend(sc, PairsUpTo(idx, i), Row(idx, i));
  }

  /** The semantic phase over one keyword bucket: the outer loop. */
  method SemanticBucket(links: LinkMap, sets: seq<seq<string>>, indices: seq<nat>)
    requires ScorerOk(Semantic(sets)) && Below(indices, |sets|)
    modifies links
    ensures PairsIn(Pairs(indices), |sets|)
    ensures links.State() == AddAll(old(links.State()), ObsOf(Semantic(sets), Pairs(indices)))
  {
    var sc := Semantic(sets);
    ghost var start := links.State();
    PairsUpToIn(indices, |indices|, |sets|);
    for i := 0 to |indices|
      invariant PairsIn(PairsUpTo(indices, i), |sets|)
      invariant links.State() == AddAll(start, ObsOf(sc, PairsUpTo(indices, i)))
    {
      ObsOfNextRow(sc, indices, i);
      SemanticRow(links, sets, indices, i);
      AddAllAppend(start, ObsOf(sc, PairsUpTo(indices, i)), ObsOf(sc, Row(indices, i)));
      PairsUpToIn(indices, i + 1, |sets|);
    }
  }

  /** The inner semantic loop: `indices[i]` against every later node of the bucket. */
  method SemanticRow(links: LinkMap, sets: seq<seq<string>>, indices: seq<nat>, i: nat)
    requires ScorerOk(Semantic(sets)) && Below(indices, |sets|) && i < |indices|
    modifies links
    ensures PairsIn(Row(indices, i), |sets|)
    ensures links.State() == AddAll(old(links.State()), ObsOf(Semantic(sets), Row(indices, i)))
  {
    var sc := Semantic(sets);
    ghost var start := links.State();
    ghost var row := Row(indices, i);
    ghost var done: seq<(nat, nat)> := [];
    for j := i + 1 to |indices|
      invariant |done| == j - i - 1 && PairsIn(done, |sets|)
      invariant forall k :: i < k < j ==> done[k - i - 1] == (indices[i], indices[k])
      invariant links.State() == AddAll(start, ObsOf(sc, done))
    {
      var u := indices[i];
      var v := indices[j];
      ObsOfSnoc(sc, done, (u, v));
      SemanticPair(links, sets, u, v);
      AddAllAppend(start, ObsOf(sc, done), PairObs(sc, (u, v)));
      done := done + [(u, v)];
    }
    assert done == row;
  }

  /** The structural phase over one group: the outer loop. */
  method StructuralBucket(links: LinkMap, types: seq<Option<string>>, indices: seq<nat>)
    requires Below(indices, |types|)
    modifies links
    ensures PairsIn(Pairs(indices), |types|)
    ensures links.State() == AddAll(old(links.State()), ObsOf(Structural(types), Pairs(indices)))
  {
    var sc := Structural(types);
    ghost var start := links.State();
    PairsUpToIn(indices, |indices|, |types|);
    for i := 0 to |indices|
      invariant PairsIn(PairsUpTo(indices, i), |types|)
      invariant links.State() == AddAll(start, ObsOf(sc, PairsUpTo(indices, i)))
    {
      ObsOfNextRow(sc, indices, i);
      StructuralRow(links, types, indices, i);
      AddAllAppend(start, ObsOf(sc, PairsUpTo(indices, i)), ObsOf(sc, Row(indices, i)));
      PairsUpToIn(indices, i + 1, |types|);
    }
  }

  /** The body of the inner structural loop: link `(u, v)`, more strongly when both have the same entity type. */
  method StructuralPair(links: LinkMap, types: seq<Option<string>>, u: nat, v: nat)
    requires u < |types| && v < |types|
    modifies links
    ensures links.State() == AddAll(old(links.State()), PairObs(Structural(types), (u, v)))
  {
    var sameType := types[u] == types[v];
    var confidence := if sameType then 0.6 else 0.3;
    var weight := if sameType then 0.4 else 0.2;
    links.AddLink(u, v, weight, confidence, CoOcorrencia);
    assert [Obs(u, v, weight, confidence, CoOcorrencia)][..0] == [];
  }

  /** The inner structural loop: `indices[i]` linked to every later node of the group. */
  method StructuralRow(links: LinkMap, types: seq<Option<string>>, indices: seq<nat>, i: nat)
    requires Below(indices, |types|) && i < |indices|
    modifies links
    ensures PairsIn(Row(indices, i), |types|)
    ensures links.State() == AddAll(old(links.State()), ObsOf(Structural(types), Row(indices, i)))
  {
    var sc := Structural(types);
    ghost var start := links.State();
    ghost var row := Row(indices, i);
    ghost var done: seq<(nat, nat)> := [];
    for j := i + 1 to |indices|
      invariant |done| == j - i - 1 && PairsIn(done, |types|)
      invariant forall k :: i < k < j ==> done[k - i - 1] == (indices[i], indices[k])
      invariant links.State() == AddAll(start, ObsOf(sc, done))
    {
      var u := indices[i];
      var v := indices[j];
      ObsOfSnoc(sc, done, (u, v));
      StructuralPair(links, types, u, v);
      AddAllAppend(start, ObsOf(sc, done), PairObs(sc, (u, v)));
      done := done + [(u, v)];
    }
    assert done == row;
  }

  // ------------------------------------------------------------------ groups

  function Groups(nodes: seq<GraphNode>): (r: seq<int>)
    ensures |r| == |nodes| && forall i :: 0 <= i < |r| ==> r[i] == nodes[i].group
  {
    seq(|nodes|, i requires 0 <= i < |nodes| => nodes[i].group)
  }

  function EntityTypes(nodes: seq<GraphNode>): (r: seq<Option<string>>)
    ensures |r| == |nodes| && forall i :: 0 <= i < |r| ==> r[i] == nodes[i].entityType
  {
    seq(|nodes|, i requires 0 <= i < |nodes| => nodes[i].entityType)
  }

  /** The positions among the first `n` whose group is `g`, in increasing order. */
  function Members(groups: seq<int>, g: int, n: nat): seq<nat>
    requires n <= |groups|
  {
    if n == 0 then [] else Members(groups, g, n - 1) + if groups[n - 1] == g then [n - 1] else []
  }

  /** A group bucket lists exactly the nodes of that group, each once, in increasing order. */
  lemma {:induction false} MembersSpec(groups: seq<int>, g: int, n: nat)
    requires n <= |groups|
    ensures forall i :: i in Members(groups, g, n) <==> 0 <= i < n && groups[i] == g
    ensures Increasing(Members(groups, g, n)) && Below(Members(groups, g, n), n)
  {
    if n > 0 {
      MembersSpec(groups, g, n - 1);
    }
  }

  /** `nodesByCluster`: each group, in the order it was first met, mapped to the positions of its nodes. */
  method BuildGroups(groups: seq<int>) returns (keys: seq<int>, byGroup: map<int, seq<nat>>)
    ensures keys == Dedup(groups)
    ensures forall g :: g in byGroup <==> g in keys
    ensures forall g :: g in byGroup ==> byGroup[g] == Members(groups, g, |groups|)
  {
    keys := [];
    byGroup := map[];
    for idx := 0 to |groups|
      invariant keys == Dedup(groups[..idx])
      invariant Grouped(groups, idx, keys, byGroup)
    {
      var g := groups[idx];
      GroupedStep(groups, idx, keys, byGroup);
      if g !in byGroup {
        byGroup := byGroup[g := []];
        keys := keys + [g];
      }
      byGroup := byGroup[g := byGroup[g] + [idx]];
    }
    assert groups[..|groups|] == groups;
  }

  /** `byGroup` has exactly the keys `keys` and maps each group to its members among the first `n` nodes. */
  ghost predicate Grouped(groups: seq<int>, n: nat, keys: seq<int>, byGroup: map<int, seq<nat>>)
    requires n <= |groups|
  {
    (forall g :: g in byGroup <==> g in keys) &&
    (forall g :: g in byGroup ==> byGroup[g] == Members(groups, g, n)) &&
    forall g :: g !in byGroup ==> Members(groups, g, n) == []
  }

  lemma GroupedStep(groups: seq<int>, n: nat, keys: seq<int>, byGroup: map<int, seq<nat>>)
    requires n < |groups| && keys == Dedup(groups[..n]) && Grouped(groups, n, keys, byGroup)
    ensures var g := groups[n];
      var keys' := if g in byGroup then keys else keys + [g];
      var byGroup' := byGroup[g := (if g in byGroup then byGroup[g] else []) + [n]];
      keys' == Dedup(groups[..n + 1]) && Grouped(groups, n + 1, keys', byGroup')
  {
    var g := groups[n];
    assert groups[..n + 1] == groups[..n] + [g];
    DedupSnoc(groups[..n], g);
    var byGroup' := byGroup[g := (if g in byGroup then byGroup[g] else []) + [n]];
    forall h | h in byGroup'
      ensures byGroup'[h] == Members(groups, h, n + 1)
    {
      if h != g {
        assert byGroup'[h] == byGroup[h];
      }
    }
    forall h | h !in byGroup'
      ensures Members(groups, h, n + 1) == []
    {
      assert h != g;
    }
  }

  // ------------------------------------------------------------------ the two phases

  /** The calls of the semantic phase: the keyword buckets in the order `order`. */
  function SemanticObs(sets: seq<seq<string>>, order: seq<string>): seq<Obs>
    requires ScorerOk(Semantic(sets))
  {
    if |order| == 0 then []
    else
      var kw := order[|order| - 1];
      HoldersSpec(sets, kw, |sets|);
      SemanticObs(sets, order[..|order| - 1]) + BucketObs(Semantic(sets), Holders(sets, kw, |sets|))
  }

  /** The calls of the structural phase: the groups in the order `order`. */
  function StructuralObs(types: seq<Option<string>>, groups: seq<int>, order: seq<int>): seq<Obs>
    requires |types| == |groups|
  {
    if |order| == 0 then []
    else
      var g := order[|order| - 1];
      MembersSpec(groups, g, |groups|);
      StructuralObs(types, groups, order[..|order| - 1]) + BucketObs(Structural(types), Members(groups, g, |groups|))
  }

  /** Phase A: `Object.values(keywordToNodeIndices).forEach(...)`. */
  method SemanticPhase(links: LinkMap, sets: seq<seq<string>>, order: seq<string>, index: map<string, seq<nat>>)
    requires ScorerOk(Semantic(sets))
    requires forall kw :: kw in order ==> kw in index && index[kw] == Holders(sets, kw, |sets|)
    modifies links
    ensures links.State() == AddAll(old(links.State()), SemanticObs(sets, order))
  {
    ghost var start := links.State();
    for b := 0 to |order|
      invariant links.State() == AddAll(start, SemanticObs(sets, order[..b]))
    {
      assert order[..b + 1][..b] == order[..b];
      assert order[b] in order;
      var indices := index[order[b]];
      HoldersSpec(sets, order[b], |sets|);
      if |indices| < 2 {
      } else if |indices| as real > |sets| as real * 0.6 {
      } else {
        SemanticBucket(links, sets, indices);
      }
      AddAllAppend(start, SemanticObs(sets, order[..b]), BucketObs(Semantic(sets), indices));
    }
    assert order[..|order|] == order;
  }

  /** Phase B: `Object.values(nodesByCluster).forEach(...)`. */
  method StructuralPhase(links: LinkMap, types: seq<Option<string>>, groups: seq<int>, order: seq<int>, byGroup: map<int, seq<nat>>)
    requires |types| == |groups|
    requires forall i :: 0 <= i < |order| ==> order[i] in byGroup
    requires forall g :: g in byGroup ==> byGroup[g] == Members(groups, g, |groups|)
    modifies links
    ensures links.State() == AddAll(old(links.State()), StructuralObs(types, groups, order))
  {
    ghost var start := links.State();
    for b := 0 to |order|
      invariant links.State() == AddAll(start, StructuralObs(types, groups, order[..b]))
    {
      assert order[..b + 1][..b] == order[..b];
      var indices := byGroup[order[b]];
      MembersSpec(groups, order[b], |groups|);
      if |indices| >= 2 {
        StructuralBucket(links, types, indices);
      }
      AddAllAppend(start, StructuralObs(types, groups, order[..b]), BucketObs(Structural(types), indices));
    }
    assert order[..|order|] == order;
  }

  lemma {:induction false} SemanticObsOk(sets: seq<seq<string>>, order: seq<string>)
    requires ScorerOk(Semantic(sets))
    ensures forall k :: 0 <= k < |SemanticObs(sets, order)| ==> ObsOk(SemanticObs(sets, order)[k], |sets|)
  {
    if |order| > 0 {
      var kw := order[|order| - 1];
      SemanticObsOk(sets, order[..|order| - 1]);
      HoldersSpec(sets, kw, |sets|);
      BucketObsOk(Semantic(sets), Holders(sets, kw, |sets|));
    }
  }

  lemma {:induction false} StructuralObsOk(types: seq<Option<string>>, groups: seq<int>, order: seq<int>)
    requires |types| == |groups|
    ensures forall k :: 0 <= k < |StructuralObs(types, groups, order)| ==> ObsOk(StructuralObs(types, groups, order)[k], |types|)
  {
    if |order| > 0 {
      var g := order[|order| - 1];
      StructuralObsOk(types, groups, order[..|order| - 1]);
      MembersSpec(groups, g, |groups|);
      BucketObsOk(Structural(types), Members(groups, g, |groups|));
    }
  }
}
