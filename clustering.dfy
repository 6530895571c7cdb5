/**
 * The clustering stage of services/mockDataService.ts: K-Means over the first five
 * dimensions of each embedding, the silhouette score of the assignment, the choice of k,
 * and the 2-D layout of the points. Numbers are `real`; `Math.sqrt` and `Math.sin` are
 * passed in as functions.
 */
module Clustering {
  import opened Js
  import opened Types

  type Vector = seq<real>

  /** Every vector has exactly `d` dimensions. */
  predicate Dims(vs: seq<Vector>, d: nat)
  {
    forall i :: 0 <= i < |vs| ==> |vs[i]| == d
  }

  /** All vectors have the dimension of the first: what a batch of embeddings from one model has. */
  predicate Uniform(vs: seq<Vector>)
  {
    |vs| == 0 || Dims(vs, |vs[0]|)
  }

  // ------------------------------------------------------------------ distances

  /** How many dimensions `euclideanDistance` compares: at most the first 50. */
  function DistLen(a: Vector): nat
  {
    if |a| > 50 then 50 else |a|
  }

  /** The sum of the squared differences over the first `len` dimensions. */
  function SqDist(a: Vector, b: Vector, len: nat): real
    requires len <= |a| && len <= |b|
  {
    if len == 0 then 0.0
    else SqDist(a, b, len - 1) + (a[len - 1] - b[len - 1]) * (a[len - 1] - b[len - 1])
  }

  /** What `euclideanDistance(a, b)` takes the square root of. */
  function Dist2(a: Vector, b: Vector): real
    requires DistLen(a) <= |b|
  {
    SqDist(a, b, DistLen(a))
  }

  lemma {:induction false} SqDistNonNegative(a: Vector, b: Vector, len: nat)
    requires len <= |a| && len <= |b|
    ensures SqDist(a, b, len) >= 0.0
  {
    if len > 0 {
      SqDistNonNegative(a, b, len - 1);
      SquareNonNegative(a[len - 1] - b[len - 1]);
    }
  }

  lemma SquareNonNegative(x: real)
    ensures x * x >= 0.0
  {
  }

  /** A vector is at squared distance zero from itself. */
  lemma {:induction false} SqDistSelf(a: Vector, len: nat)
    requires len <= |a|
    ensures SqDist(a, a, len) == 0.0
  {
    if len > 0 {
      SqDistSelf(a, len - 1);
    }
  }

  /** The squared distance does not depend on the order of its arguments. */
  lemma {:induction false} SqDistSymmetric(a: Vector, b: Vector, len: nat)
    requires len <= |a| && len <= |b|
    ensures SqDist(a, b, len) == SqDist(b, a, len)
  {
    if len > 0 {
      SqDistSymmetric(a, b, len - 1);
      assert (a[len - 1] - b[len - 1]) * (a[len - 1] - b[len - 1]) == (b[len - 1] - a[len - 1]) * (b[len - 1] - a[len - 1]);
    }
  }

  /** The loop of `euclideanDistance` before its square root. */
  method SquaredDistance(a: Vector, b: Vector) returns (sum: real)
    requires DistLen(a) <= |b|
    ensures sum == Dist2(a, b) && sum >= 0.0
  {
    sum := 0.0;
    var len := if |a| > 50 then 50 else |a|;
    for i := 0 to len
      invariant sum == SqDist(a, b, i)
    {
      var diff := a[i] - b[i];
      sum := sum + diff * diff;
    }
    SqDistNonNegative(a, b, len);
  }

  /** `euclideanDistance(a, b)`: the root of the squared differences over the first 50 dimensions. */
  method EuclideanDistance(a: Vector, b: Vector, sqrt: real -> real) returns (d: real)
    requires DistLen(a) <= |b|
    ensures d == sqrt(Dist2(a, b))
  {
    var sum := SquaredDistance(a, b);
    d := sqrt(sum);
  }

  // ------------------------------------------------------------------ vector arithmetic

  /** The sum of two vectors, dimension by dimension, over the dimensions of `a`. */
  function Plus(a: Vector, b: Vector): (r: Vector)
    requires |a| <= |b|
    ensures |r| == |a| && forall i :: 0 <= i < |a| ==> r[i] == a[i] + b[i]
  {
    seq(|a|, i requires 0 <= i < |a| => a[i] + b[i])
  }

  /** Every dimension of `a` divided by `s`. */
  function Over(a: Vector, s: real): (r: Vector)
    requires s != 0.0
    ensures |r| == |a| && forall i :: 0 <= i < |a| ==> r[i] * s == a[i]
  {
    seq(|a|, i requires 0 <= i < |a| => a[i] / s)
  }

  function Zeros(d: nat): (r: Vector)
    ensures |r| == d && forall i :: 0 <= i < d ==> r[i] == 0.0
  {
    seq(d, _ => 0.0)
  }

  /** `addVectors(a, b)`. */
  method AddVectors(a: Vector, b: Vector) returns (r: Vector)
    requires |a| <= |b|
    ensures r == Plus(a, b)
  {
    var res := new real[|a|];
    for i := 0 to |a|
      invariant forall j :: 0 <= j < i ==> res[j] == a[j] + b[j]
    {
      res[i] := a[i] + b[i];
    }
    r := res[..];
  }

  /** `divideVector(a, scalar)`; it is only called with a positive count. */
  method DivideVector(a: Vector, scalar: real) returns (r: Vector)
    requires scalar != 0.0
    ensures r == Over(a, scalar)
  {
    var res := new real[|a|];
    for i := 0 to |a|
      invariant forall j :: 0 <= j < i ==> res[j] == a[j] / scalar
    {
      res[i] := a[i] / scalar;
    }
    r := res[..];
  }

  // ------------------------------------------------------------------ K-Means

  /** `v.slice(0, n)`. */
  function Take(v: Vector, n: nat): (r: Vector)
    ensures |r| == if |v| < n then |v| else n
    ensures r == v[..|r|]
  {
    if |v| < n then v else v[..n]
  }

  /** `vectors.map(v => v.slice(0, 5))`: the dimensions K-Means looks at. */
  function Reduced(vs: seq<Vector>): (r: seq<Vector>)
    ensures |r| == |vs| && forall i :: 0 <= i < |vs| ==> r[i] == Take(vs[i], 5)
  {
    seq(|vs|, i requires 0 <= i < |vs| => Take(vs[i], 5))
  }

  lemma ReducedDims(vs: seq<Vector>)
    requires Uniform(vs) && |vs| > 0
    ensures Dims(Reduced(vs), |Reduced(vs)[0]|)
  {
  }

  /**
   * The centroid `runKMeans` assigns `v` to: scanning the centroids in order and moving only
   * on a strictly smaller distance, it settles on the first centroid at the least distance.
   * With no centroid the index stays 0. The distances compared are squared: `Math.sqrt` is
   * increasing, so it does not change which one is smaller.
   */
  function Nearest(v: Vector, cs: seq<Vector>): (r: nat)
    requires forall j :: 0 <= j < |cs| ==> DistLen(v) <= |cs[j]|
    ensures |cs| == 0 ==> r == 0
    ensures |cs| > 0 ==> r < |cs|
    ensures |cs| > 0 ==> forall j :: 0 <= j < |cs| ==> Dist2(v, cs[r]) <= Dist2(v, cs[j])
    ensures forall j :: 0 <= j < r ==> Dist2(v, cs[r]) < Dist2(v, cs[j])
  {
    if |cs| <= 1 then 0
    else
      var r := Nearest(v, cs[..|cs| - 1]);
      if Dist2(v, cs[|cs| - 1]) < Dist2(v, cs[r]) then |cs| - 1 else r
  }

  /** One assignment pass: each vector goes to its nearest centroid. */
  function Assign(rv: seq<Vector>, cs: seq<Vector>, d: nat): (r: seq<int>)
    requires Dims(rv, d) && Dims(cs, d)
    ensures |r| == |rv|
    ensures forall i :: 0 <= i < |rv| ==> r[i] == Nearest(rv[i], cs)
    ensures |cs| > 0 ==> forall i :: 0 <= i < |rv| ==> 0 <= r[i] < |cs|
  {
    seq(|rv|, i requires 0 <= i < |rv| => Nearest(rv[i], cs))
  }

  /** The sum of the vectors among the first `n` that are assigned to cluster `c`. */
  function ClusterSum(rv: seq<Vector>, asg: seq<int>, c: int, n: nat, d: nat): (r: Vector)
    requires n <= |rv| && n <= |asg| && Dims(rv, d)
    ensures |r| == d
  {
    if n == 0 then Zeros(d)
    else
      var s := ClusterSum(rv, asg, c, n - 1, d);
      if asg[n - 1] == c then Plus(s, rv[n - 1]) else s
  }

  /** How many of the first `n` vectors are assigned to cluster `c`. */
  function ClusterCount(asg: seq<int>, c: int, n: nat): (r: nat)
    requires n <= |asg|
    ensures r <= n
  {
    if n == 0 then 0
    else ClusterCount(asg, c, n - 1) + if asg[n - 1] == c then 1 else 0
  }

  /** The centroid update: the mean of a cluster's vectors, or the old centroid for an empty cluster. */
  function Update(rv: seq<Vector>, asg: seq<int>, cs: seq<Vector>, d: nat): (r: seq<Vector>)
    requires |asg| == |rv| && Dims(rv, d) && Dims(cs, d)
    ensures |r| == |cs| && Dims(r, d)
  {
    seq(|cs|, c requires 0 <= c < |cs| =>
      var n := ClusterCount(asg, c, |asg|);
      if n == 0 then cs[c] else Over(ClusterSum(rv, asg, c, |asg|, d), n as real))
  }

  /** Every vector lies in exactly one cluster, so the cluster sizes add up to the number of vectors. */
  lemma {:induction false} ClusterCountsTotal(asg: seq<int>, k: nat, n: nat)
    requires n <= |asg| && forall i :: 0 <= i < n ==> 0 <= asg[i] < k
    ensures CountsUpTo(asg, k, n) == n
  {
    if n > 0 {
      ClusterCountsTotal(asg, k, n - 1);
      CountsStep(asg, k, n);
      assert 0 <= asg[n - 1] < k;
    } else {
      CountsNone(asg, k);
    }
  }

  lemma {:induction false} CountsNone(asg: seq<int>, k: nat)
    ensures CountsUpTo(asg, k, 0) == 0
  {
    if k > 0 {
      CountsNone(asg, k - 1);
    }
  }

  /** The sizes of clusters 0 .. k-1 among the first `n` vectors, added up. */
  function CountsUpTo(asg: seq<int>, k: nat, n: nat): nat
    requires n <= |asg|
  {
    if k == 0 then 0 else CountsUpTo(asg, k - 1, n) + ClusterCount(asg, k - 1, n)
  }

  lemma {:induction false} CountsStep(asg: seq<int>, k: nat, n: nat)
    requires 0 < n <= |asg|
    ensures CountsUpTo(asg, k, n) == CountsUpTo(asg, k, n - 1) + if 0 <= asg[n - 1] < k then 1 else 0
  {
    if k > 0 {
      CountsStep(asg, k - 1, n);
    }
  }

  /**
   * After the update, a cluster with members sits at their mean (its coordinates times the
   * cluster size give the coordinate sums), and an empty cluster keeps its centroid.
   */
  lemma UpdateMeans(rv: seq<Vector>, asg: seq<int>, cs: seq<Vector>, d: nat, c: nat)
    requires |asg| == |rv| && Dims(rv, d) && Dims(cs, d) && c < |cs|
    ensures var n := ClusterCount(asg, c, |asg|);
      && (n == 0 ==> Update(rv, asg, cs, d)[c] == cs[c])
      && (n > 0 ==> forall t :: 0 <= t < d ==>
            Update(rv, asg, cs, d)[c][t] * n as real == ClusterSum(rv, asg, c, |asg|, d)[t])
  {
  }

  /**
   * The iterations of `runKMeans` with `left` rounds to go: assign; stop when no assignment
   * changed; otherwise move the centroids and go on. Without rounds left, the current
   * centroids and assignments are the result.
   */
  function Rounds(rv: seq<Vector>, d: nat, cs: seq<Vector>, prev: seq<int>, asg: seq<int>, left: nat): (r: (seq<Vector>, seq<int>))
    requires Dims(rv, d) && Dims(cs, d) && |asg| == |rv|
    requires |cs| > 0 && forall i :: 0 <= i < |asg| ==> 0 <= asg[i] < |cs|
    ensures |r.0| == |cs| && Dims(r.0, d) && |r.1| == |rv|
    ensures forall i :: 0 <= i < |r.1| ==> 0 <= r.1[i] < |cs|
    decreases left
  {
    if left == 0 then (cs, asg)
    else
      var a := Assign(rv, cs, d);
      if a == prev then (cs, a)
      else Rounds(rv, d, Update(rv, a, cs, d), a, a, left - 1)
  }

  function Fill(n: nat, x: int): (r: seq<int>)
    ensures |r| == n && forall i :: 0 <= i < n ==> r[i] == x
  {
    seq(n, _ => x)
  }

  function MinInt(a: int, b: int): int
  {
    if a < b then a else b
  }

  /**
   * `runKMeans(vectors, k, maxIterations)`: k is cut down to the number of vectors, the
   * centroids start as the first k reduced vectors, and every assignment starts at 0 with
   * the previous ones at -1, so the first round always counts as a change.
   */
  function KMeans(vectors: seq<Vector>, k: int, maxIterations: nat): (r: (seq<Vector>, seq<int>))
    requires Uniform(vectors) && k >= 1
  {
    if |vectors| == 0 then ([], [])
    else
      var kk := MinInt(k, |vectors|);
      var rv := Reduced(vectors);
      Rounds(rv, |rv[0]|, rv[..kk], Fill(|rv|, -1), Fill(|rv|, 0), maxIterations)
  }

  /**
   * The shape of the result: no vector gives no centroid and no assignment; otherwise there are
   * min(k, N) centroids and one assignment per vector, each in [0, min(k, N) - 1].
   */
  lemma KMeansShape(vectors: seq<Vector>, k: int, maxIterations: nat)
    requires Uniform(vectors) && k >= 1
    ensures var (cs, asg) := KMeans(vectors, k, maxIterations);
      && (|vectors| == 0 ==> cs == [] && asg == [])
      && |asg| == |vectors|
      && (|vectors| > 0 ==> |cs| == MinInt(k, |vectors|))
      && forall i :: 0 <= i < |asg| ==> 0 <= asg[i] < MinInt(k, |vectors|)
  {
  }

  /** A round that reassigns nothing ends the iteration, with the centroids as they were. */
  lemma RoundsStable(rv: seq<Vector>, d: nat, cs: seq<Vector>, asg: seq<int>, left: nat)
    requires Dims(rv, d) && Dims(cs, d) && |cs| > 0 && left > 0
    requires asg == Assign(rv, cs, d)
    ensures Rounds(rv, d, cs, asg, asg, left) == (cs, asg)
  {
  }

  /** The scan over the centroids inside `runKMeans`. */
  method NearestCentroid(v: Vector, cs: seq<Vector>) returns (clusterIdx: nat)
    requires forall j :: 0 <= j < |cs| ==> DistLen(v) <= |cs[j]|
    ensures clusterIdx == Nearest(v, cs)
  {
    clusterIdx := 0;
    var minDist := 0.0;  // stands for Infinity until the first centroid is seen
    for c := 0 to |cs|
      invariant c > 0 ==> clusterIdx == Nearest(v, cs[..c]) && minDist == Dist2(v, cs[clusterIdx])
      invariant c == 0 ==> clusterIdx == 0
    {
      assert cs[..c + 1][..c] == cs[..c];
      var dist := SquaredDistance(v, cs[c]);
      if c == 0 || dist < minDist {
        minDist := dist;
        clusterIdx := c;
      }
    }
    assert cs[..|cs|] == cs;
  }

  /** The assignment pass of one round, and whether any assignment differs from the previous round's. */
  method AssignAll(rv: seq<Vector>, cs: seq<Vector>, prev: seq<int>, d: nat) returns (assignments: seq<int>, changed: bool)
    requires Dims(rv, d) && Dims(cs, d) && |prev| == |rv|
    ensures assignments == Assign(rv, cs, d)
    ensures changed <==> assignments != prev
  {
    assignments := [];
    changed := false;
    for idx := 0 to |rv|
      invariant assignments == Assign(rv, cs, d)[..idx]
      invariant changed <==> exists j :: 0 <= j < idx && assignments[j] != prev[j]
    {
      var clusterIdx := NearestCentroid(rv[idx], cs);
      if clusterIdx != prev[idx] {
        changed := true;
      }
      assignments := assignments + [clusterIdx];
    }
    if !changed {
      assert forall j :: 0 <= j < |rv| ==> assignments[j] == prev[j];
    }
  }

  /** The centroid update of one round: per-cluster sums and counts, then the means. */
  method UpdateCentroids(rv: seq<Vector>, assignments: seq<int>, cs: seq<Vector>, d: nat) returns (centroids: seq<Vector>)
    requires |assignments| == |rv| && Dims(rv, d) && Dims(cs, d)
    requires forall i :: 0 <= i < |assignments| ==> 0 <= assignments[i] < |cs|
    ensures centroids == Update(rv, assignments, cs, d)
  {
    var k := |cs|;
    var sums := new Vector[k](_ => Zeros(d));
    var counts := new nat[k](_ => 0);
    for idx := 0 to |rv|
      invariant forall c :: 0 <= c < k ==> sums[c] == ClusterSum(rv, assignments, c, idx, d)
      invariant forall c :: 0 <= c < k ==> counts[c] == ClusterCount(assignments, c, idx)
    {
      var clusterIdx := assignments[idx];
      var s := AddVectors(sums[clusterIdx], rv[idx]);
      sums[clusterIdx] := s;
      counts[clusterIdx] := counts[clusterIdx] + 1;
    }
    centroids := [];
    for c := 0 to k
      invariant centroids == Update(rv, assignments, cs, d)[..c]
      invariant forall c :: 0 <= c < k ==> sums[c] == ClusterSum(rv, assignments, c, |rv|, d)
      invariant forall c :: 0 <= c < k ==> counts[c] == ClusterCount(assignments, c, |rv|)
    {
      ghost var target := Update(rv, assignments, cs, d);
      assert target[..c + 1] == target[..c] + [target[c]];
      if counts[c] == 0 {
        centroids := centroids + [cs[c]];
      } else {
        var mean := DivideVector(sums[c], counts[c] as real);
        centroids := centroids + [mean];
      }
    }
    assert Update(rv, assignments, cs, d)[..k] == Update(rv, assignments, cs, d);
  }

  /** One round of `Rounds`: when the assignments change, the centroids move and the next round starts. */
  lemma RoundsStep(rv: seq<Vector>, d: nat, cs: seq<Vector>, prev: seq<int>, asg: seq<int>, left: nat, a: seq<int>)
    requires Dims(rv, d) && Dims(cs, d) && |asg| == |rv|
    requires |cs| > 0 && forall i :: 0 <= i < |asg| ==> 0 <= asg[i] < |cs|
    requires left > 0 && a == Assign(rv, cs, d)
    ensures a == prev ==> Rounds(rv, d, cs, prev, asg, left) == (cs, a)
    ensures a != prev ==> Rounds(rv, d, cs, prev, asg, left) == Rounds(rv, d, Update(rv, a, cs, d), a, a, left - 1)
  {
  }

  /** The same rounds from the same state, with the round budget named by two equal counters. */
  lemma RoundsAt(rv: seq<Vector>, d: nat, cs: seq<Vector>, prev: seq<int>, asg: seq<int>, left: nat, left': nat)
    requires Dims(rv, d) && Dims(cs, d) && |asg| == |rv|
    requires |cs| > 0 && forall i :: 0 <= i < |asg| ==> 0 <= asg[i] < |cs|
    requires left == left'
    ensures Rounds(rv, d, cs, prev, asg, left) == Rounds(rv, d, cs, prev, asg, left')
  {
  }

  /** `runKMeans(vectors, k, maxIterations)`; `inertia` is always 0 and is left out. */
  method RunKMeans(vectors: seq<Vector>, k: int, maxIterations: nat) returns (centroids: seq<Vector>, assignments: seq<int>)
    requires Uniform(vectors) && k >= 1
    ensures (centroids, assignments) == KMeans(vectors, k, maxIterations)
  {
    if |vectors| == 0 {
      return [], [];
    }
    var kk := if k > |vectors| then |vectors| else k;
    var rv := Reduced(vectors);
    var d := |rv[0]|;
    ReducedDims(vectors);
    centroids := rv[..kk];
    assignments := Fill(|rv|, 0);
    var prevAssignments := Fill(|rv|, -1);
    ghost var left: nat := maxIterations;
    ghost var result := Rounds(rv, d, centroids, prevAssignments, assignments, left);
    assert result == KMeans(vectors, k, maxIterations);
    var iter := 0;
    while iter < maxIterations
      invariant iter <= maxIterations && left == maxIterations - iter
      invariant |centroids| == kk && Dims(centroids, d) && |assignments| == |rv| && |prevAssignments| == |rv|
      invariant forall i :: 0 <= i < |assignments| ==> 0 <= assignments[i] < kk
      invariant Rounds(rv, d, centroids, prevAssignments, assignments, left) == result
    {
      var changed;
      centroids, prevAssignments, assignments, changed, left :=
        Round(rv, d, centroids, prevAssignments, assignments, left, result);
      if !changed {
        break;
      }
      iter := iter + 1;
    }
  }

  /**
   * One pass of the `for` loop of `runKMeans`: assign; when nothing changed, stop with the
   * centroids as they were; otherwise remember the assignments and move the centroids.
   */
  method Round(rv: seq<Vector>, d: nat, centroids: seq<Vector>, prev: seq<int>, asg: seq<int>,
               ghost left: nat, ghost result: (seq<Vector>, seq<int>))
    returns (centroids': seq<Vector>, prev': seq<int>, asg': seq<int>, changed: bool, ghost left': nat)
    requires Dims(rv, d) && Dims(centroids, d) && |asg| == |rv| && |prev| == |rv| && left > 0
    requires |centroids| > 0 && forall i :: 0 <= i < |asg| ==> 0 <= asg[i] < |centroids|
    requires Rounds(rv, d, centroids, prev, asg, left) == result
    ensures |centroids'| == |centroids| && Dims(centroids', d) && |asg'| == |rv| && |prev'| == |rv|
    ensures forall i :: 0 <= i < |asg'| ==> 0 <= asg'[i] < |centroids|
    ensures !changed ==> (centroids', asg') == result
    ensures changed ==> left' == left - 1 && Rounds(rv, d, centroids', prev', asg', left') == result
  {
    asg', changed := AssignAll(rv, centroids, prev, d);
    RoundsStep(rv, d, centroids, prev, asg, left, asg');
    prev' := prev;
    centroids' := centroids;
    left' := left - 1;
    if changed {
      prev' := asg';
      centroids' := UpdateCentroids(rv, asg', centroids, d);
      RoundsAt(rv, d, centroids', prev', asg', left - 1, left');
    }
  }

  // ------------------------------------------------------------------ silhouette

  /** How many points the silhouette looks at: the first 200 at most. */
  function SampleSize(n: nat): nat
  {
    if n < 200 then n else 200
  }

  /** `vectors.slice(0, n).map(v => v.slice(0, 10))`. */
  function Sample(vs: seq<Vector>): (r: seq<Vector>)
    requires Uniform(vs)
    ensures |r| == SampleSize(|vs|) && Uniform(r)
    ensures forall i :: 0 <= i < |r| ==> r[i] == Take(vs[i], 10)
  {
    seq(SampleSize(|vs|), i requires 0 <= i < SampleSize(|vs|) => Take(vs[i], 10))
  }

  /** The distance between sampled points i and j. */
  function Dist(sv: seq<Vector>, i: nat, j: nat, sqrt: real -> real): real
    requires Uniform(sv) && i < |sv| && j < |sv|
  {
    sqrt(Dist2(sv[i], sv[j]))
  }

  /** The inputs of the silhouette of point i: uniform sampled points, each with an assignment. */
  predicate Sampled(sv: seq<Vector>, asg: seq<int>, i: nat)
  {
    Uniform(sv) && |sv| <= |asg| && i < |sv|
  }

  /** The distances from point i to the other points of its own cluster among the first j, added up. */
  function SameSum(sv: seq<Vector>, asg: seq<int>, i: nat, j: nat, sqrt: real -> real): real
    requires Sampled(sv, asg, i) && j <= |sv|
  {
    if j == 0 then 0.0
    else SameSum(sv, asg, i, j - 1, sqrt) + if j - 1 != i && asg[j - 1] == asg[i] then Dist(sv, i, j - 1, sqrt) else 0.0
  }

  /** How many other points of the cluster of point i are among the first j. */
  function SameCount(asg: seq<int>, i: nat, j: nat): (r: nat)
    requires i < |asg| && j <= |asg|
    ensures r <= j
  {
    if j == 0 then 0
    else SameCount(asg, i, j - 1) + if j - 1 != i && asg[j - 1] == asg[i] then 1 else 0
  }

  /**
   * The `clusterDistances` record of point i after the first j points: for every other
   * cluster met so far, the sum of the distances to its points and how many there are.
   */
  function OtherStats(sv: seq<Vector>, asg: seq<int>, i: nat, j: nat, sqrt: real -> real): (m: map<int, (real, nat)>)
    requires Sampled(sv, asg, i) && j <= |sv|
    ensures forall c :: c in m ==> m[c].1 > 0 && c != asg[i]
    ensures forall c :: c in m <==> exists jj :: 0 <= jj < j && jj != i && asg[jj] != asg[i] && asg[jj] == c
  {
    if j == 0 then map[]
    else
      var m := OtherStats(sv, asg, i, j - 1, sqrt);
      var jj := j - 1;
      if jj == i || asg[jj] == asg[i] then m
      else
        var c := asg[jj];
        var acc := if c in m then m[c] else (0.0, 0);
        m[c := (acc.0 + Dist(sv, i, jj, sqrt), acc.1 + 1)]
  }

  /** With non-negative distances, every sum in `OtherStats` is non-negative. */
  lemma {:induction false} OtherStatsNonNegative(sv: seq<Vector>, asg: seq<int>, i: nat, j: nat, sqrt: real -> real)
    requires Sampled(sv, asg, i) && j <= |sv|
    requires forall x :: 0.0 <= sqrt(x)
    ensures forall c :: c in OtherStats(sv, asg, i, j, sqrt) ==> OtherStats(sv, asg, i, j, sqrt)[c].0 >= 0.0
  {
    if j > 0 {
      OtherStatsNonNegative(sv, asg, i, j - 1, sqrt);
    }
  }

  lemma {:induction false} SameSumNonNegative(sv: seq<Vector>, asg: seq<int>, i: nat, j: nat, sqrt: real -> real)
    requires Sampled(sv, asg, i) && j <= |sv|
    requires forall x :: 0.0 <= sqrt(x)
    ensures SameSum(sv, asg, i, j, sqrt) >= 0.0
  {
    if j > 0 {
      SameSumNonNegative(sv, asg, i, j - 1, sqrt);
    }
  }

  function MeanOf(acc: (real, nat)): real
    requires acc.1 > 0
  {
    acc.0 / acc.1 as real
  }

  /** The least mean distance to another cluster: the value the `for...in` loop leaves in `b_i`. */
  ghost function MinMean(m: map<int, (real, nat)>): (r: real)
    requires m != map[] && forall c :: c in m ==> m[c].1 > 0
    ensures exists c :: c in m && r == MeanOf(m[c])
    ensures forall c :: c in m ==> r <= MeanOf(m[c])
    decreases |m|
  {
    var keys := m.Keys;
    HasElement(keys);
    var c :| c in keys;
    var rest := m - {c};
    if rest == map[] then
      assert forall c' :: c' in m ==> c' == c || c' in rest;
      MeanOf(m[c])
    else
      var r := MinMean(rest);
      assert forall c' :: c' in m && c' != c ==> c' in rest && rest[c'] == m[c'];
      if MeanOf(m[c]) < r then MeanOf(m[c]) else r
  }

  lemma HasElement(s: set<int>)
    requires s != {}
    ensures exists x :: x in s
  {
    var x := ElementOf(s);
  }

  lemma ElementOf<T>(s: set<T>) returns (x: T)
    requires s != {}
    ensures x in s
  {
    x :| x in s;
  }

  /** `a_i` as `calculateSilhouetteScore` leaves it: the mean distance within the own cluster, or 0. */
  function OwnMean(sv: seq<Vector>, asg: seq<int>, i: nat, sqrt: real -> real): real
    requires Sampled(sv, asg, i)
  {
    var n := SameCount(asg, i, |sv|);
    if n > 0 then SameSum(sv, asg, i, |sv|, sqrt) / n as real else SameSum(sv, asg, i, |sv|, sqrt)
  }

  /** `b_i`: the least mean distance to another cluster, or 0 when no other cluster was sampled. */
  ghost function OtherMean(sv: seq<Vector>, asg: seq<int>, i: nat, sqrt: real -> real): real
    requires Sampled(sv, asg, i)
  {
    var m := OtherStats(sv, asg, i, |sv|, sqrt);
    if m == map[] then 0.0 else MinMean(m)
  }

  /** `s_i = max(a, b) === 0 ? 0 : (b - a) / max(a, b)`. */
  function Silhouette(a: real, b: real): real
  {
    var hi := if a > b then a else b;
    if hi == 0.0 then 0.0 else (b - a) / hi
  }

  ghost function PointScore(sv: seq<Vector>, asg: seq<int>, i: nat, sqrt: real -> real): real
    requires Sampled(sv, asg, i)
  {
    Silhouette(OwnMean(sv, asg, i, sqrt), OtherMean(sv, asg, i, sqrt))
  }

  /** The scores of the sampled points, in order. */
  ghost function PointScores(sv: seq<Vector>, asg: seq<int>, sqrt: real -> real): (r: seq<real>)
    requires Uniform(sv) && |sv| <= |asg|
    ensures |r| == |sv|
  {
    seq(|sv|, i requires 0 <= i < |sv| => PointScore(sv, asg, i, sqrt))
  }

  /** `calculateSilhouetteScore(vectors, assignments, k)`: 0 for k < 2, else the mean point score. */
  ghost function SilhouetteScore(vectors: seq<Vector>, assignments: seq<int>, k: int, sqrt: real -> real): Num
    requires Uniform(vectors) && SampleSize(|vectors|) <= |assignments|
  {
    if k < 2 then Fin(0.0)
    else
      var sv := Sample(vectors);
      Div(Sum(PointScores(sv, assignments, sqrt)), |sv| as real)
  }

  /** With non-negative `a` and `b`, a silhouette lies in [-1, 1]. */
  lemma SilhouetteInUnit(a: real, b: real)
    requires 0.0 <= a && 0.0 <= b
    ensures -1.0 <= Silhouette(a, b) <= 1.0
  {
    var hi := if a > b then a else b;
    if hi != 0.0 {
      QuotientInUnit(b - a, hi);
    }
  }

  /** Every point's score lies in [-1, 1], given that `Math.sqrt` is never negative. */
  lemma PointScoreBounds(sv: seq<Vector>, asg: seq<int>, i: nat, sqrt: real -> real)
    requires Sampled(sv, asg, i)
    requires forall x :: 0.0 <= sqrt(x)
    ensures -1.0 <= PointScore(sv, asg, i, sqrt) <= 1.0
  {
    SameSumNonNegative(sv, asg, i, |sv|, sqrt);
    var n := SameCount(asg, i, |sv|);
    if n > 0 {
      QuotientNonNegative(SameSum(sv, asg, i, |sv|, sqrt), n as real);
    }
    var m := OtherStats(sv, asg, i, |sv|, sqrt);
    if m != map[] {
      OtherStatsNonNegative(sv, asg, i, |sv|, sqrt);
      var c :| c in m && MinMean(m) == MeanOf(m[c]);
      QuotientNonNegative(m[c].0, m[c].1 as real);
    }
    SilhouetteInUnit(OwnMean(sv, asg, i, sqrt), OtherMean(sv, asg, i, sqrt));
  }

  /** Every sampled point's score lies in [-1, 1]. */
  lemma PointScoresBounds(sv: seq<Vector>, asg: seq<int>, sqrt: real -> real)
    requires Uniform(sv) && |sv| <= |asg|
    requires forall x :: 0.0 <= sqrt(x)
    ensures forall k :: 0 <= k < |sv| ==> -1.0 <= PointScores(sv, asg, sqrt)[k] <= 1.0
  {
    forall k | 0 <= k < |sv|
      ensures -1.0 <= PointScores(sv, asg, sqrt)[k] <= 1.0
    {
      PointScoreBounds(sv, asg, k, sqrt);
    }
  }

  /**
   * The silhouette score is 0 when k < 2, NaN (0 / 0) when there is no point to sample, and
   * otherwise a finite number in [-1, 1].
   */
  lemma SilhouetteBounds(vectors: seq<Vector>, assignments: seq<int>, k: int, sqrt: real -> real)
    requires Uniform(vectors) && SampleSize(|vectors|) <= |assignments|
    requires forall x :: 0.0 <= sqrt(x)
    ensures var r := SilhouetteScore(vectors, assignments, k, sqrt);
      && (k < 2 ==> r == Fin(0.0))
      && (k >= 2 && |vectors| == 0 ==> r.NaN?)
      && (k >= 2 && |vectors| > 0 ==> r.Fin? && -1.0 <= r.v <= 1.0)
  {
    if k >= 2 && |vectors| > 0 {
      var sv := Sample(vectors);
      PointScoresBounds(sv, assignments, sqrt);
      MeanInUnit(PointScores(sv, assignments, sqrt));
    }
  }

  /** The inner loop over j and the `for...in` over `clusterDistances` for one point i. */
  method PointSilhouette(sv: seq<Vector>, asg: seq<int>, i: nat, sqrt: real -> real) returns (s: real)
    requires Sampled(sv, asg, i)
    ensures s == PointScore(sv, asg, i, sqrt)
  {
    var n := |sv|;
    var a := 0.0;
    var ownCount := 0;
    var clusterDistances: map<int, (real, nat)> := map[];
    for j := 0 to n
      invariant a == SameSum(sv, asg, i, j, sqrt) && ownCount == SameCount(asg, i, j)
      invariant clusterDistances == OtherStats(sv, asg, i, j, sqrt)
    {
      a, ownCount, clusterDistances := VisitPoint(sv, asg, i, j, sqrt, a, ownCount, clusterDistances);
    }
    if ownCount > 0 {
      a := a / ownCount as real;
    }
    var b := NearestOtherCluster(clusterDistances);
    s := Silhouette(a, b);
  }

  /** One pass of the inner loop over j: point j counts for its own cluster or for another one. */
  method VisitPoint(sv: seq<Vector>, asg: seq<int>, i: nat, j: nat, sqrt: real -> real,
                    a: real, ownCount: nat, clusterDistances: map<int, (real, nat)>)
    returns (a': real, ownCount': nat, clusterDistances': map<int, (real, nat)>)
    requires Sampled(sv, asg, i) && j < |sv|
    requires a == SameSum(sv, asg, i, j, sqrt) && ownCount == SameCount(asg, i, j)
    requires clusterDistances == OtherStats(sv, asg, i, j, sqrt)
    ensures a' == SameSum(sv, asg, i, j + 1, sqrt) && ownCount' == SameCount(asg, i, j + 1)
    ensures clusterDistances' == OtherStats(sv, asg, i, j + 1, sqrt)
  {
    a', ownCount', clusterDistances' := a, ownCount, clusterDistances;
    if i == j {
      return;
    }
    var dist := EuclideanDistance(sv[i], sv[j], sqrt);
    var otherCluster := asg[j];
    if otherCluster == asg[i] {
      a' := a + dist;
      ownCount' := ownCount + 1;
    } else {
      var acc := if otherCluster in clusterDistances then clusterDistances[otherCluster] else (0.0, 0);
      clusterDistances' := clusterDistances[otherCluster := (acc.0 + dist, acc.1 + 1)];
    }
  }

  /** `b_i` from `clusterDistances`: starts at Infinity, takes every smaller mean, and ends as 0 if still Infinity. */
  method NearestOtherCluster(clusterDistances: map<int, (real, nat)>) returns (b: real)
    requires forall c :: c in clusterDistances ==> clusterDistances[c].1 > 0
    ensures clusterDistances == map[] ==> b == 0.0
    ensures clusterDistances != map[] ==> b == MinMean(clusterDistances)
  {
    var best: Option<real> := None;  // None stands for Infinity
    var keys := clusterDistances.Keys;
    while keys != {}
      invariant keys <= clusterDistances.Keys
      invariant best.None? <==> keys == clusterDistances.Keys
      invariant best.Some? ==> exists c :: c in clusterDistances.Keys - keys && best.value == MeanOf(clusterDistances[c])
      invariant best.Some? ==> forall c :: c in clusterDistances.Keys - keys ==> best.value <= MeanOf(clusterDistances[c])
      decreases |keys|
    {
      ghost var some := ElementOf(keys);
      var cKey :| cKey in keys;
      var meanDist := clusterDistances[cKey].0 / clusterDistances[cKey].1 as real;
      if best.None? || meanDist < best.value {
        best := Some(meanDist);
      }
      keys := keys - {cKey};
    }
    if best.None? {
      b := 0.0;
      assert clusterDistances.Keys == {};
    } else {
      b := best.value;
      ghost var c1 :| c1 in clusterDistances && b == MeanOf(clusterDistances[c1]);
      ghost var c2 :| c2 in clusterDistances && MinMean(clusterDistances) == MeanOf(clusterDistances[c2]);
      assert b <= MeanOf(clusterDistances[c2]);
    }
  }

  /** `calculateSilhouetteScore(vectors, assignments, k)`. */
  method CalculateSilhouetteScore(vectors: seq<Vector>, assignments: seq<int>, k: int, sqrt: real -> real) returns (score: Num)
    requires Uniform(vectors) && SampleSize(|vectors|) <= |assignments|
    ensures score == SilhouetteScore(vectors, assignments, k, sqrt)
  {
    if k < 2 {
      return Fin(0.0);
    }
    var n := if |vectors| < 200 then |vectors| else 200;
    var sampledVectors := Sample(vectors);
    var totalScore := TotalScore(sampledVectors, assignments, sqrt);
    score := Div(totalScore, n as real);
  }

  /** The loop of `calculateSilhouetteScore` over the sampled points, adding up their scores. */
  method TotalScore(sv: seq<Vector>, asg: seq<int>, sqrt: real -> real) returns (totalScore: real)
    requires Uniform(sv) && |sv| <= |asg|
    ensures totalScore == Sum(PointScores(sv, asg, sqrt))
  {
    totalScore := 0.0;
    ghost var scores := PointScores(sv, asg, sqrt);
    for i := 0 to |sv|
      invariant totalScore == Sum(scores[..i])
    {
      var s := PointSilhouette(sv, asg, i, sqrt);
      assert scores[..i + 1][..i] == scores[..i];
      totalScore := totalScore + s;
    }
    assert scores[..|sv|] == scores;
  }

  // ------------------------------------------------------------------ choice of k

  /** The least `m` from `m` upwards with 2 * m * m >= n. */
  function LeastRoot(n: nat, m: nat): (r: nat)
    requires m == 0 || 2 * (m - 1) * (m - 1) < n
    ensures 2 * r * r >= n && (r == 0 || 2 * (r - 1) * (r - 1) < n)
    decreases n - m
  {
    if 2 * m * m >= n then m
    else
      assert m <= m * m;
      LeastRoot(n, m + 1)
  }

  /** `Math.ceil(Math.sqrt(n / 2))`: the least m with m * m >= n / 2. */
  function CeilSqrtHalf(n: nat): (m: nat)
    ensures 2 * m * m >= n && (m == 0 || 2 * (m - 1) * (m - 1) < n)
  {
    LeastRoot(n, 0)
  }

  /** `Math.min(Math.max(2, Math.ceil(Math.sqrt(n / 2))), 10)`. */
  function ChooseK(n: nat): int
  {
    var m := CeilSqrtHalf(n);
    if m < 2 then 2 else if m > 10 then 10 else m
  }

  /** From three points on, k lies between 2 and 10 and never exceeds the number of points. */
  lemma ChooseKBounds(n: nat)
    requires n >= 3
    ensures 2 <= ChooseK(n) <= 10 && ChooseK(n) <= n
    ensures 2 < ChooseK(n) < 10 ==> 2 * (ChooseK(n) - 1) * (ChooseK(n) - 1) < n <= 2 * ChooseK(n) * ChooseK(n)
  {
    var m := CeilSqrtHalf(n);
    if m > 2 {
      assert (m - 1) * (m - 1) >= m - 1 by {
        MulAtLeast(m - 1, m - 1);
      }
    }
  }

  lemma MulAtLeast(a: nat, b: nat)
    requires b >= 1
    ensures a * b >= a
  {
  }

  // ------------------------------------------------------------------ 2-D layout

  /** The first `n` entries of dimension `t`, added up. */
  function ColumnSum(vs: seq<Vector>, t: nat, n: nat): real
    requires n <= |vs| && forall j :: 0 <= j < n ==> t < |vs[j]|
  {
    if n == 0 then 0.0 else ColumnSum(vs, t, n - 1) + vs[n - 1][t]
  }

  /** How many dimensions the projection uses: at most the first 50 of the first vector. */
  function ProjDim(vs: seq<Vector>): nat
    requires |vs| > 0
  {
    if |vs[0]| < 50 then |vs[0]| else 50
  }

  /** The mean of every used dimension. */
  function MeanVector(vs: seq<Vector>): (r: Vector)
    requires |vs| > 0 && Uniform(vs)
    ensures |r| == ProjDim(vs)
  {
    seq(ProjDim(vs), t requires 0 <= t < ProjDim(vs) => ColumnSum(vs, t, |vs|) / |vs| as real)
  }

  /** `v.slice(0, dim).map((val, i) => val - mean[i])`. */
  function Centered(v: Vector, mean: Vector): (r: Vector)
    requires |mean| <= |v|
    ensures |r| == |mean| && forall t :: 0 <= t < |mean| ==> r[t] == v[t] - mean[t]
  {
    seq(|mean|, t requires 0 <= t < |mean| => v[t] - mean[t])
  }

  /** `v.reduce((sum, val, i) => sum + val * w(i), 0)` over the first `n` entries. */
  function Weighted(v: Vector, w: nat -> real, n: nat): real
    requires n <= |v|
  {
    if n == 0 then 0.0 else Weighted(v, w, n - 1) + v[n - 1] * w(n - 1)
  }

  function Harmonic(i: nat): real
  {
    1.0 / (i + 1) as real
  }

  /** The layout position of one vector: `[50 + x * 30, 50 + y * 30]`. */
  function Place(v: Vector, mean: Vector, sin: nat -> real): (real, real)
    requires |mean| <= |v|
  {
    var c := Centered(v, mean);
    (50.0 + Weighted(c, Harmonic, |c|) * 30.0, 50.0 + Weighted(c, sin, |c|) * 30.0)
  }

  /** `projectVectorsToPCA(vectors, centroids)`; the centroids are not used. */
  function Projection(vs: seq<Vector>, sin: nat -> real): (r: seq<(real, real)>)
    requires Uniform(vs)
    ensures |r| == |vs|
  {
    if |vs| == 0 then []
    else
      var mean := MeanVector(vs);
      seq(|vs|, i requires 0 <= i < |vs| => Place(vs[i], mean, sin))
  }

  /** The centred vectors sum to zero in every used dimension: the layout is centred on the mean. */
  lemma CenteredSumsToZero(vs: seq<Vector>, t: nat)
    requires |vs| > 0 && Uniform(vs) && t < ProjDim(vs)
    ensures var mean := MeanVector(vs);
      ColumnSum(seq(|vs|, i requires 0 <= i < |vs| => Centered(vs[i], mean)), t, |vs|) == 0.0
  {
    var mean := MeanVector(vs);
    var cs := seq(|vs|, i requires 0 <= i < |vs| => Centered(vs[i], mean));
    ColumnShift(vs, cs, t, mean[t], |vs|);
    QuotientTimes(ColumnSum(vs, t, |vs|), |vs| as real);
  }

  /** Subtracting `m` from every entry of a column subtracts `n * m` from its sum. */
  lemma {:induction false} ColumnShift(vs: seq<Vector>, cs: seq<Vector>, t: nat, m: real, n: nat)
    requires n <= |vs| && n <= |cs|
    requires forall j :: 0 <= j < n ==> t < |vs[j]| && t < |cs[j]| && cs[j][t] == vs[j][t] - m
    ensures ColumnSum(cs, t, n) == ColumnSum(vs, t, n) - n as real * m
  {
    if n > 0 {
      ColumnShift(vs, cs, t, m, n - 1);
    }
  }

  /** The mean loop of `projectVectorsToPCA`: column sums, then each divided by the number of vectors. */
  method ComputeMean(vs: seq<Vector>) returns (mean: Vector)
    requires |vs| > 0 && Uniform(vs)
    ensures mean == MeanVector(vs)
  {
    var dim := if |vs[0]| < 50 then |vs[0]| else 50;
    var acc := new real[dim](_ => 0.0);
    for j := 0 to |vs|
      invariant forall t :: 0 <= t < dim ==> acc[t] == ColumnSum(vs, t, j)
    {
      for t := 0 to dim
        invariant forall u :: 0 <= u < t ==> acc[u] == ColumnSum(vs, u, j + 1)
        invariant forall u :: t <= u < dim ==> acc[u] == ColumnSum(vs, u, j)
      {
        acc[t] := acc[t] + vs[j][t];
      }
    }
    for t := 0 to dim
      invariant forall u :: 0 <= u < t ==> acc[u] == ColumnSum(vs, u, |vs|) / |vs| as real
      invariant forall u :: t <= u < dim ==> acc[u] == ColumnSum(vs, u, |vs|)
    {
      acc[t] := acc[t] / |vs| as real;
    }
    mean := acc[..];
  }

  /** The centring and the two `reduce` calls for one vector. */
  method PlacePoint(v: Vector, mean: Vector, sin: nat -> real) returns (p: (real, real))
    requires |mean| <= |v|
    ensures p == Place(v, mean, sin)
  {
    var c := Centered(v, mean);
    var x := 0.0;
    var y := 0.0;
    for i := 0 to |c|
      invariant x == Weighted(c, Harmonic, i) && y == Weighted(c, sin, i)
    {
      x := x + c[i] * (1.0 / (i + 1) as real);
      y := y + c[i] * sin(i);
    }
    p := (50.0 + x * 30.0, 50.0 + y * 30.0);
  }

  /** `projectVectorsToPCA(vectors, centroids)`. */
  method ProjectVectorsToPCA(vs: seq<Vector>, sin: nat -> real) returns (points: seq<(real, real)>)
    requires Uniform(vs)
    ensures points == Projection(vs, sin)
  {
    if |vs| == 0 {
      return [];
    }
    var mean := ComputeMean(vs);
    points := [];
    for i := 0 to |vs|
      invariant points == Projection(vs, sin)[..i]
    {
      var p := PlacePoint(vs[i], mean, sin);
      points := points + [p];
    }
  }

  // ------------------------------------------------------------------ cluster points

  /** `emb.entityLabel || \`Chunk ${i}\``: an absent or empty label falls back to the position. */
  function PointLabel(e: EmbeddingVector, i: nat): string
  {
    if e.entityLabel.Some? && e.entityLabel.value != "" then e.entityLabel.value else "Chunk " + NatToString(i)
  }

  /** The layout for fewer than three embeddings: one cluster, points 20 apart, alternating up and down. */
  function FallbackPoint(e: EmbeddingVector, i: nat): ClusterPoint
  {
    ClusterPoint(e.id, Fin(50.0 + (i as real * 20.0 - 20.0)), Fin(50.0 + ((i % 2) as real * 20.0 - 10.0)), 0,
      PointLabel(e, i), e.fullContent, e.dueDate, e.entityType, e.entityLabel, e.keywords)
  }

  function ClusteredPoint(e: EmbeddingVector, i: nat, clusterId: int, p: (real, real)): ClusterPoint
  {
    ClusterPoint(e.id, Fin(p.0), Fin(p.1), clusterId, PointLabel(e, i), e.fullContent, e.dueDate, e.entityType, e.entityLabel, e.keywords)
  }

  /** Every coordinate of every embedding is a finite number. */
  predicate FiniteVectors(es: seq<EmbeddingVector>)
  {
    forall i, t :: 0 <= i < |es| && 0 <= t < |es[i].vector| ==> es[i].vector[t].Fin?
  }

  /** `embeddings.map(e => e.vector)`, read as reals. */
  function Vectors(es: seq<EmbeddingVector>): (r: seq<Vector>)
    requires FiniteVectors(es)
    ensures |r| == |es| && forall i :: 0 <= i < |es| ==> |r[i]| == |es[i].vector|
  {
    seq(|es|, i requires 0 <= i < |es| =>
      seq(|es[i].vector|, t requires 0 <= t < |es[i].vector| => es[i].vector[t].v))
  }

  /**
   * `generateClustersFromEmbeddings(embeddings)`. The silhouette score it stores in the
   * module-level `currentSilhouetteScore` is returned instead; with fewer than three
   * embeddings that variable is not touched, so the previous score is passed through.
   */
  method GenerateClustersFromEmbeddings(embeddings: seq<EmbeddingVector>, previousScore: Num, sqrt: real -> real, sin: nat -> real)
    returns (points: seq<ClusterPoint>, silhouette: Num)
    requires |embeddings| >= 3 ==> FiniteVectors(embeddings) && Uniform(Vectors(embeddings))
    ensures |points| == |embeddings|
    ensures forall i :: 0 <= i < |points| ==>
      && points[i].id == embeddings[i].id
      && points[i].labelText == PointLabel(embeddings[i], i)
      && points[i].keywords == embeddings[i].keywords
      && points[i].entityType == embeddings[i].entityType
    ensures |embeddings| < 3 ==>
      && silhouette == previousScore
      && forall i :: 0 <= i < |points| ==> points[i] == FallbackPoint(embeddings[i], i)
    ensures |embeddings| >= 3 ==>
      var vs := Vectors(embeddings);
      var k := ChooseK(|vs|);
      var (centroids, assignments) := KMeans(vs, k, 20);
      && 2 <= k <= 10 && k <= |embeddings|
      && silhouette == SilhouetteScore(vs, assignments, k, sqrt)
      && forall i :: 0 <= i < |points| ==>
           && points[i] == ClusteredPoint(embeddings[i], i, assignments[i], Projection(vs, sin)[i])
           && 0 <= points[i].clusterId < k
  {
    if |embeddings| < 3 {
      points := seq(|embeddings|, i requires 0 <= i < |embeddings| => FallbackPoint(embeddings[i], i));
      silhouette := previousScore;
      return;
    }
    var vectors := Vectors(embeddings);
    var k := ChooseK(|vectors|);
    ChooseKBounds(|vectors|);
    var centroids, assignments := RunKMeans(vectors, k, 20);
    KMeansShape(vectors, k, 20);
    silhouette := CalculateSilhouetteScore(vectors, assignments, k, sqrt);
    var projected := ProjectVectorsToPCA(vectors, sin);
    points := seq(|embeddings|, i requires 0 <= i < |embeddings| => ClusteredPoint(embeddings[i], i, assignments[i], projected[i]));
  }
}
