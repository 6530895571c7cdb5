/**
 * The inverted index of `generateGraphFromClusters` (services/mockDataService.ts) as written.
 * The source keeps `keywordToNodeIndices` in a plain object literal, which inherits the
 * members of `Object.prototype`. The two of them whose names are lower case, and so can be
 * normalised keywords, are "constructor" and "__proto__". Both read as truthy objects without
 * a `push` method, so the first such keyword makes the indexing throw a TypeError.
 * `GraphBuilder.BuildIndex` models the index the code evidently intends, a dictionary with no
 * inherited entries.
 */
module ObjectIndex {
  import opened Js
  import opened Types
  import opened GraphBuilder

  /** A lower-case name a plain object inherits from `Object.prototype`. */
  predicate InheritedKey(kw: string)
  {
    kw == "constructor" || kw == "__proto__"
  }

  predicate HasInheritedKey(s: seq<string>)
  {
    exists t :: 0 <= t < |s| && InheritedKey(s[t])
  }

  /** What `keywordToNodeIndices[kw]` reads on the plain object. */
  datatype Lookup = Own(bucket: seq<nat>) | InheritedMember | Undefined

  function ObjectLookup(index: map<string, seq<nat>>, kw: string): (r: Lookup)
    ensures r.Own? <==> kw in index
    ensures r.InheritedMember? <==> kw !in index && InheritedKey(kw)
  {
    if kw in index then Own(index[kw]) else if InheritedKey(kw) then InheritedMember else Undefined
  }

  /**
   * `if (!o[kw]) o[kw] = []; o[kw].push(nodeIdx)` on the plain object; `None` is the
   * TypeError thrown when the inherited member has no `push`.
   */
  function PushAsWritten(index: map<string, seq<nat>>, kw: string, nodeIdx: nat): (r: Option<map<string, seq<nat>>>)
    ensures r.None? <==> kw !in index && InheritedKey(kw)
    ensures r.Some? ==> r.value == Push(index, kw, nodeIdx)
  {
    match ObjectLookup(index, kw)
    case Own(bucket) => Some(index[kw := bucket + [nodeIdx]])
    case Undefined =>
      var created := index[kw := []];
      Some(created[kw := created[kw] + [nodeIdx]])
    case InheritedMember => None
  }

  /** The inner `forEach` as written: node `nodeIdx` pushed under `kws` in order, stopping at a throw. */
  function PushAllAsWritten(index: map<string, seq<nat>>, kws: seq<string>, nodeIdx: nat): Option<map<string, seq<nat>>>
    decreases |kws|
  {
    if |kws| == 0 then Some(index)
    else
      var r := PushAsWritten(index, kws[0], nodeIdx);
      if r.None? then None else PushAllAsWritten(r.value, kws[1..], nodeIdx)
  }

  /** The outer `forEach` as written, over the first `n` keyword sets. */
  function IndexAsWritten(sets: seq<seq<string>>, n: nat): Option<map<string, seq<nat>>>
    requires n <= |sets|
  {
    if n == 0 then Some(map[])
    else
      var r := IndexAsWritten(sets, n - 1);
      if r.None? then None else PushAllAsWritten(r.value, sets[n - 1], n - 1)
  }

  /** The inner loop throws exactly when it meets an inherited name, and never stores one. */
  lemma {:induction false} PushAllAsWrittenThrows(index: map<string, seq<nat>>, kws: seq<string>, nodeIdx: nat)
    requires forall kw :: kw in index ==> !InheritedKey(kw)
    ensures PushAllAsWritten(index, kws, nodeIdx).None? <==> HasInheritedKey(kws)
    ensures PushAllAsWritten(index, kws, nodeIdx).Some? ==>
      forall kw :: kw in PushAllAsWritten(index, kws, nodeIdx).value ==> !InheritedKey(kw)
    decreases |kws|
  {
    if |kws| > 0 {
      var r := PushAsWritten(index, kws[0], nodeIdx);
      if r.Some? {
        PushAllAsWrittenThrows(r.value, kws[1..], nodeIdx);
        assert HasInheritedKey(kws) <==> HasInheritedKey(kws[1..]) by {
          if HasInheritedKey(kws) {
            var t :| 0 <= t < |kws| && InheritedKey(kws[t]);
            assert t > 0 && kws[1..][t - 1] == kws[t];
          }
          if HasInheritedKey(kws[1..]) {
            var t :| 0 <= t < |kws[1..]| && InheritedKey(kws[1..][t]);
            assert kws[t + 1] == kws[1..][t];
          }
        }
      } else {
        assert InheritedKey(kws[0]);
      }
    }
  }

  /**
   * The index as written throws exactly when some node among the first `n` has the keyword
   * "constructor" or "__proto__"; otherwise it never stores either name.
   */
  lemma {:induction false} IndexAsWrittenThrows(sets: seq<seq<string>>, n: nat)
    requires n <= |sets|
    ensures IndexAsWritten(sets, n).None? <==> exists i :: 0 <= i < n && HasInheritedKey(sets[i])
    ensures IndexAsWritten(sets, n).Some? ==> forall kw :: kw in IndexAsWritten(sets, n).value ==> !InheritedKey(kw)
  {
    if n > 0 {
      IndexAsWrittenThrows(sets, n - 1);
      var r := IndexAsWritten(sets, n - 1);
      if r.Some? {
        PushAllAsWrittenThrows(r.value, sets[n - 1], n - 1);
      }
    }
  }

  /**
   * A single point with the keyword "Constructor": the plain object throws, while the
   * intended index files node 0 under "constructor".
   */
  lemma ConstructorKeywordThrows(node: GraphNode)
    requires node.keywords == Some(["Constructor"])
    ensures KeywordSets([node]) == [["constructor"]]
    ensures IndexAsWritten(KeywordSets([node]), 1).None?
    ensures Holders(KeywordSets([node]), "constructor", 1) == [0]
  {
    var kw := "constructor";
    assert LowerStr("Constructor") == kw;
    assert !IsSpace(kw[0]) && TrimStart(kw) == kw;
    assert !IsSpace(kw[|kw| - 1]) && TrimEnd(kw) == kw;
    assert Normalized(node.keywords) == ["constructor"];
    assert Dedup(["constructor"]) == ["constructor"];
    assert HasInheritedKey(["constructor"]);
  }
}
