/**
 * The retrieval part of `RAGService` (services/ragService.ts): the keyword extractor,
 * the merge of keyword and full-text hits into a ranked, de-duplicated context, and the
 * confidence and source list of an answer. The database searches and the language model
 * are not modelled: what they returned is passed in.
 */
module Rag {
  import opened Js

  /** The stored documents the searches return (`StoredKnowledge`), reduced to the fields used here. */
  datatype StoredKnowledge = StoredKnowledge(
    id: string, chunkId: string, content: string, processedContent: string,
    source: string, stage: string, keywords: seq<string>)

  datatype RagContext = RagContext(
    query: string, documents: seq<StoredKnowledge>, relevanceScores: seq<real>, totalRelevance: real)

  datatype RagResponse = RagResponse(
    answer: string, context: RagContext, confidence: real, sources: seq<string>, keywords: seq<string>)

  // ---------------------------------------------------------------------------
  // Keyword extraction
  // ---------------------------------------------------------------------------

  /** The Portuguese stop words; `"por que"` is one of them although it holds a space. */
  const StopWords: set<string> := {
    "o", "a", "de", "do", "da", "e", "é", "ou", "um", "uma",
    "em", "para", "com", "sem", "por", "como", "mas", "se",
    "na", "no", "nas", "nos", "que", "qual", "quais", "onde",
    "quando", "por que", "porquê", "muito", "pouco",
    "mais", "menos", "esse", "aquele", "isto"
  }

  /** The number of keywords kept. */
  const MaxKeywords := 5

  predicate IsKeyword(w: string)
  {
    w !in StopWords && Utf16Length(w) > 2
  }

  /** `words.filter(word => !stopWords.has(word) && word.length > 2)`. */
  function KeepKeywords(ws: seq<string>): seq<string>
  {
    if |ws| == 0 then [] else (if IsKeyword(ws[0]) then [ws[0]] else []) + KeepKeywords(ws[1..])
  }

  /** The filter keeps exactly the keywords among the words. */
  lemma {:induction false} KeepKeywordsMembers(ws: seq<string>)
    ensures forall w :: w in KeepKeywords(ws) <==> w in ws && IsKeyword(w)
  {
    if |ws| > 0 {
      KeepKeywordsMembers(ws[1..]);
      assert ws == [ws[0]] + ws[1..];
    }
  }

  /** The filter works word by word, so it keeps the words in their order. */
  lemma {:induction false} KeepKeywordsAppend(a: seq<string>, b: seq<string>)
    ensures KeepKeywords(a + b) == KeepKeywords(a) + KeepKeywords(b)
  {
    if |a| > 0 {
      KeepKeywordsAppend(a[1..], b);
      assert (a + b)[1..] == a[1..] + b;
      assert (a + b)[0] == a[0];
      var head := if IsKeyword(a[0]) then [a[0]] else [];
      AppendAssoc(head, KeepKeywords(a[1..]), KeepKeywords(b));
    } else {
      assert a + b == b;
    }
  }

  /** The words of a query: lower-cased, then cut at every whitespace run. */
  function QueryWords(query: string): seq<string>
  {
    SplitWs(LowerStr(query))
  }

  /** `extractKeywords`: the first five words that are neither stop words nor shorter than three characters. */
  function ExtractKeywords(query: string): (r: seq<string>)
    ensures |r| <= MaxKeywords
    ensures forall k :: 0 <= k < |r| ==> IsKeyword(r[k]) && NoSpace(r[k])
  {
    var kept := KeepKeywords(QueryWords(query));
    KeepKeywordsMembers(QueryWords(query));
    assert forall k :: 0 <= k < |kept| ==> kept[k] in QueryWords(query);
    if |kept| <= MaxKeywords then kept else kept[..MaxKeywords]
  }

  function LowerAll(ws: seq<string>): (r: seq<string>)
    ensures |r| == |ws| && forall k :: 0 <= k < |ws| ==> r[k] == LowerStr(ws[k])
  {
    seq(|ws|, k requires 0 <= k < |ws| => LowerStr(ws[k]))
  }

  /** Lower-casing commutes with the whitespace split, since `toLowerCase` keeps whitespace whitespace. */
  lemma {:induction false} SplitWsLower(s: string)
    ensures SplitWs(LowerStr(s)) == LowerAll(SplitWs(s))
  {
    if |s| > 0 {
      var s', c := s[..|s| - 1], s[|s| - 1];
      SplitWsLower(s');
      InitLast(s);
      LowerStrSnoc(s', c);
      LowerKeepsSpace(c);
      var r, low := SplitWs(s'), LowerStr(s');
      if |s'| > 0 {
        LowerStrKeepsSpace(s', |s'| - 1);
      }
      if !IsSpace(c) {
        SplitWsLetter(s', c);
        SplitWsLetter(low, Lower(c));
        LowerAllWord(r, c);
      } else if |s'| > 0 && IsSpace(s'[|s'| - 1]) {
        SplitWsSpaceRun(s', c);
        SplitWsSpaceRun(low, Lower(c));
      } else {
        SplitWsSpace(s', c);
        SplitWsSpace(low, Lower(c));
        LowerAllEmpty(r);
      }
    }
  }

  /** Lower-casing the pieces after a letter extended the last one. */
  lemma LowerAllWord(r: seq<string>, c: char)
    requires |r| > 0
    ensures var l := LowerAll(r);
      LowerAll(r[..|r| - 1] + [r[|r| - 1] + [c]]) == l[..|l| - 1] + [l[|l| - 1] + [Lower(c)]]
  {
    LowerStrSnoc(r[|r| - 1], c);
  }

  /** Lower-casing the pieces after an empty one was opened. */
  lemma LowerAllEmpty(r: seq<string>)
    ensures LowerAll(r + [""]) == LowerAll(r) + [""]
  {
    assert LowerStr("") == "";
  }

  /**
   * The keywords are at most five words of the query, in the query's order, each already
   * lower case, without whitespace, longer than two characters and not a stop word; fewer
   * than five only when the query has no more.
   */
  lemma ExtractKeywordsSpec(query: string)
    ensures var r := ExtractKeywords(query); var kept := KeepKeywords(QueryWords(query));
      && r == kept[..|r|]
      && (|r| == MaxKeywords || r == kept)
      && forall k :: 0 <= k < |r| ==> r[k] in QueryWords(query) && LowerStr(r[k]) == r[k]
  {
    var ws := QueryWords(query);
    KeepKeywordsMembers(ws);
    SplitWsLower(query);
    var r := ExtractKeywords(query);
    forall k | 0 <= k < |r|
      ensures r[k] in ws && LowerStr(r[k]) == r[k]
    {
      assert r[k] in KeepKeywords(ws);
      var j :| 0 <= j < |ws| && ws[j] == r[k];
      LowerStrIdempotent(SplitWs(query)[j]);
    }
  }

  /**
   * No word of a query contains a space, so the stop word `"por que"` never matches one:
   * the filter behaves as if it were not in the set.
   */
  lemma PorQueNeverFilters(query: string)
    ensures "por que" in StopWords
    ensures "por que" !in QueryWords(query)
  {
    var ws := QueryWords(query);
    if "por que" in ws {
      var j :| 0 <= j < |ws| && ws[j] == "por que";
      assert IsSpace(ws[j][3]);
      assert false;
    }
  }

  // ---------------------------------------------------------------------------
  // Search
  // ---------------------------------------------------------------------------

  /** `options.method || 'combined'`. */
  function MethodOf(searchMethod: Option<string>): (r: string)
    ensures searchMethod.Some? && searchMethod.value != "" ==> r == searchMethod.value
    ensures searchMethod.None? || searchMethod.value == "" ==> r == "combined"
  {
    if searchMethod.Some? && searchMethod.value != "" then searchMethod.value else "combined"
  }

  /** `options.limit || 5`: an absent or zero limit means five. */
  function LimitOf(limit: Option<int>): (r: int)
    ensures r != 0
    ensures limit.Some? && limit.value != 0 ==> r == limit.value
    ensures limit.None? || limit.value == 0 ==> r == 5
  {
    if limit.Some? && limit.value != 0 then limit.value else 5
  }

  /** JavaScript `xs.slice(0, end)`: a negative end counts back from the end of the array. */
  function SliceTo<T>(xs: seq<T>, end: int): (r: seq<T>)
    ensures end >= 0 ==> |r| == if end < |xs| then end else |xs|
    ensures end < 0 ==> |r| == if |xs| + end > 0 then |xs| + end else 0
    ensures r == xs[..|r|]
  {
    if end >= 0 then (if end < |xs| then xs[..end] else xs)
    else if |xs| + end > 0 then xs[..|xs| + end] else []
  }

  /** `doc.content.toLowerCase().includes(kw) || doc.keywords.some(k => k.toLowerCase().includes(kw))`. */
  predicate Mentions(doc: StoredKnowledge, kw: string)
  {
    Contains(LowerStr(doc.content), kw)
    || exists k :: 0 <= k < |doc.keywords| && Contains(LowerStr(doc.keywords[k]), kw)
  }

  /** How many of the query keywords (repeats included) a document mentions. */
  function Matches(doc: StoredKnowledge, kws: seq<string>): (n: nat)
    ensures n <= |kws|
  {
    if |kws| == 0 then 0 else (if Mentions(doc, kws[0]) then 1 else 0) + Matches(doc, kws[1..])
  }

  /** The keyword score: found keywords over all keywords, NaN (`0 / 0`) when the query has none. */
  function KeywordScore(doc: StoredKnowledge, kws: seq<string>): (r: Num)
    ensures |kws| == 0 <==> r.NaN?
    ensures |kws| > 0 ==> r.Fin? && 0.0 <= r.v <= 1.0 && r.v * |kws| as real == Matches(doc, kws) as real
  {
    Div(Matches(doc, kws) as real, |kws| as real)
  }

  predicate HasId(docs: seq<StoredKnowledge>, id: string)
  {
    exists j :: 0 <= j < |docs| && docs[j].id == id
  }

  /** The full-text hits whose id the documents found so far do not have. */
  function NewFullText(found: seq<StoredKnowledge>, hits: seq<StoredKnowledge>): seq<StoredKnowledge>
  {
    if |hits| == 0 then []
    else (if HasId(found, hits[0].id) then [] else [hits[0]]) + NewFullText(found, hits[1..])
  }

  /** A full-text hit is added exactly when no keyword hit has its id. */
  lemma {:induction false} NewFullTextMembers(found: seq<StoredKnowledge>, hits: seq<StoredKnowledge>)
    ensures forall d :: d in NewFullText(found, hits) <==> d in hits && !HasId(found, d.id)
  {
    if |hits| > 0 {
      NewFullTextMembers(found, hits[1..]);
      assert hits == [hits[0]] + hits[1..];
    }
  }

  /** A number is never an infinity here; `OrHalf` is `score || 0.5`. */
  function OrHalf(n: Num): (r: real)
    requires ScoreShape(n)
    ensures 0.0 < r <= 1.0
    ensures n.Truthy() ==> r == n.v
    ensures !n.Truthy() ==> r == 0.5
  {
    if n.Truthy() then n.v else 0.5
  }

  /** `relevanceScores[j]`, with `undefined` (an index out of range) read as NaN, which is falsy too. */
  function ScoreAt(scores: seq<Num>, j: int): (r: Num)
    ensures 0 <= j < |scores| ==> r == scores[j]
    ensures !(0 <= j < |scores|) ==> r.NaN?
  {
    if 0 <= j < |scores| then scores[j] else NaN
  }

  /** `documents.findIndex(d => d.id === id)`: the first index with that id, or -1. */
  function FindIndex(docs: seq<StoredKnowledge>, id: string): (r: int)
    ensures -1 <= r < |docs|
    ensures r == -1 <==> !HasId(docs, id)
    ensures r >= 0 ==> docs[r].id == id && forall j :: 0 <= j < r ==> docs[j].id != id
  {
    if |docs| == 0 then -1
    else if docs[0].id == id then 0
    else
      var r := FindIndex(docs[1..], id);
      assert forall j :: 1 <= j < |docs| ==> docs[j] == docs[1..][j - 1];
      if r == -1 then -1 else r + 1
  }

  function Ids(docs: seq<StoredKnowledge>): (r: seq<string>)
    ensures |r| == |docs| && forall j :: 0 <= j < |docs| ==> r[j] == docs[j].id
  {
    seq(|docs|, j requires 0 <= j < |docs| => docs[j].id)
  }

  /** `new Map(documents.map(doc => [doc.id, doc]))`: each id mapped to its last document. */
  function LastById(docs: seq<StoredKnowledge>): (r: map<string, StoredKnowledge>)
    ensures forall id :: id in r <==> HasId(docs, id)
    ensures forall id :: id in r ==> r[id].id == id && r[id] in docs
  {
    if |docs| == 0 then map[]
    else
      var init := docs[..|docs| - 1];
      var d := docs[|docs| - 1];
      assert forall id :: HasId(docs, id) <==> HasId(init, id) || d.id == id by {
        forall id | HasId(docs, id)
          ensures HasId(init, id) || d.id == id
        {
          var j :| 0 <= j < |docs| && docs[j].id == id;
          if j < |init| {
            assert init[j] == docs[j];
          }
        }
        forall id | HasId(init, id)
          ensures HasId(docs, id)
        {
          var j :| 0 <= j < |init| && init[j].id == id;
          assert docs[j] == init[j];
        }
      }
      LastById(init)[d.id := d]
  }

  /** Every id in the key order has an entry in the map. */
  lemma KeysInMap(docs: seq<StoredKnowledge>)
    ensures forall j :: 0 <= j < |Dedup(Ids(docs))| ==> Dedup(Ids(docs))[j] in LastById(docs)
  {
    var keys := Dedup(Ids(docs));
    forall j | 0 <= j < |keys|
      ensures keys[j] in LastById(docs)
    {
      assert keys[j] in Ids(docs);
      var t :| 0 <= t < |docs| && Ids(docs)[t] == keys[j];
      assert docs[t].id == keys[j];
    }
  }

  /** The values of that map, in the order their ids were first inserted. */
  function UniqueDocs(docs: seq<StoredKnowledge>): (r: seq<StoredKnowledge>)
    ensures |r| == |Dedup(Ids(docs))|
  {
    var keys := Dedup(Ids(docs));
    var byId := LastById(docs);
    KeysInMap(docs);
    seq(|keys|, j requires 0 <= j < |keys| => byId[keys[j]])
  }

  /** The documents and scores collected before de-duplication. */
  function Collected(searchMethod: string, kws: seq<string>, kwHits: seq<StoredKnowledge>, ftHits: seq<StoredKnowledge>)
    : (r: (seq<StoredKnowledge>, seq<Num>))
    ensures |r.0| == |r.1|
  {
    var kd := if searchMethod == "keywords" || searchMethod == "combined" then kwHits else [];
    var ks := seq(|kd|, i requires 0 <= i < |kd| => KeywordScore(kd[i], kws));
    var fd := if searchMethod == "fulltext" || searchMethod == "combined" then NewFullText(kd, ftHits) else [];
    (kd + fd, ks + seq(|fd|, _ => Fin(0.8)))
  }

  /** A collected score is a keyword score in [0, 1], NaN, or the full-text score 0.8. */
  predicate ScoreShape(n: Num)
  {
    n.NaN? || (n.Fin? && 0.0 <= n.v <= 1.0)
  }

  /** The score of each output document: the score of the first document with its id, or 0.5 if that is falsy. */
  function ScoresOf(out: seq<StoredKnowledge>, docs: seq<StoredKnowledge>, scores: seq<Num>): (r: seq<real>)
    requires forall k :: 0 <= k < |scores| ==> ScoreShape(scores[k])
    ensures |r| == |out|
    ensures forall j :: 0 <= j < |r| ==> 0.0 < r[j] <= 1.0
  {
    seq(|out|, j requires 0 <= j < |out| => OrHalf(ScoreAt(scores, FindIndex(docs, out[j].id))))
  }


  /** `scores.reduce((a, b) => a + b, 0) / Math.max(scores.length, 1)`. */
  function Mean(xs: seq<real>): (r: real)
    ensures |xs| == 0 ==> r == 0.0
    ensures |xs| > 0 ==> r * |xs| as real == Sum(xs)
  {
    Sum(xs) / (if |xs| > 1 then |xs| as real else 1.0)
  }

  lemma {:induction false} SumBounds(xs: seq<real>)
    requires forall j :: 0 <= j < |xs| ==> 0.0 < xs[j] <= 1.0
    ensures 0.0 <= Sum(xs) <= |xs| as real
    ensures |xs| > 0 ==> Sum(xs) > 0.0
  {
    if |xs| > 0 {
      SumBounds(xs[..|xs| - 1]);
    }
  }

  /** The mean of scores in (0, 1] lies in [0, 1], and is 0 only for no scores at all. */
  lemma MeanBounds(xs: seq<real>)
    requires forall j :: 0 <= j < |xs| ==> 0.0 < xs[j] <= 1.0
    ensures 0.0 <= Mean(xs) <= 1.0
    ensures Mean(xs) == 0.0 <==> |xs| == 0
  {
    SumBounds(xs);
  }

  lemma CollectedShape(searchMethod: string, kws: seq<string>, kwHits: seq<StoredKnowledge>, ftHits: seq<StoredKnowledge>)
    ensures var (docs, scores) := Collected(searchMethod, kws, kwHits, ftHits);
      forall k :: 0 <= k < |scores| ==> ScoreShape(scores[k])
  {
    var kd := if searchMethod == "keywords" || searchMethod == "combined" then kwHits else [];
    var scores := Collected(searchMethod, kws, kwHits, ftHits).1;
    forall k | 0 <= k < |scores|
      ensures ScoreShape(scores[k])
    {
      if k < |kd| {
        assert scores[k] == KeywordScore(kd[k], kws);
      } else {
        assert scores[k] == Fin(0.8);
      }
    }
  }

  /** The two searches of `search`: keyword hits with their scores, then the full-text hits not found yet, at 0.8. */
  method CollectHits(m: string, keywords: seq<string>, kwHits: seq<StoredKnowledge>, ftHits: seq<StoredKnowledge>)
    returns (documents: seq<StoredKnowledge>, scores: seq<Num>)
    ensures (documents, scores) == Collected(m, keywords, kwHits, ftHits)
  {
    documents := [];
    scores := [];
    if m == "keywords" || m == "combined" {
      documents := documents + kwHits;
      scores := scores + seq(|kwHits|, i requires 0 <= i < |kwHits| => KeywordScore(kwHits[i], keywords));
      assert [] + kwHits == kwHits;
    }
    if m == "fulltext" || m == "combined" {
      var newDocs := NewFullText(documents, ftHits);
      documents := documents + newDocs;
      scores := scores + seq(|newDocs|, _ => Fin(0.8));
    }
    assert documents == Collected(m, keywords, kwHits, ftHits).0;
    assert scores == Collected(m, keywords, kwHits, ftHits).1;
  }

  /** One insertion into the id map: the key order grows only for a new id, the entry is overwritten. */
  lemma IndexStep(documents: seq<StoredKnowledge>, i: nat)
    requires i < |documents|
    ensures var d := documents[i];
      && Dedup(Ids(documents[..i + 1])) == (if d.id in LastById(documents[..i]) then Dedup(Ids(documents[..i])) else Dedup(Ids(documents[..i])) + [d.id])
      && LastById(documents[..i + 1]) == LastById(documents[..i])[d.id := d]
  {
    var d := documents[i];
    assert documents[..i + 1][..i] == documents[..i];
    assert Ids(documents[..i + 1]) == Ids(documents[..i]) + [d.id];
    assert Ids(documents[..i + 1])[..i] == Ids(documents[..i]);
    assert d.id in Dedup(Ids(documents[..i])) <==> HasId(documents[..i], d.id) by {
      if HasId(documents[..i], d.id) {
        var t :| 0 <= t < i && documents[..i][t].id == d.id;
        assert Ids(documents[..i])[t] == d.id;
      }
    }
  }

  /** `new Map(documents.map(doc => [doc.id, doc]))`, inserted one document at a time. */
  method IndexById(documents: seq<StoredKnowledge>) returns (keys: seq<string>, byId: map<string, StoredKnowledge>)
    ensures keys == Dedup(Ids(documents)) && byId == LastById(documents)
  {
    keys := [];
    byId := map[];
    for i := 0 to |documents|
      invariant keys == Dedup(Ids(documents[..i]))
      invariant byId == LastById(documents[..i])
    {
      var d := documents[i];
      IndexStep(documents, i);
      if d.id !in byId {
        keys := keys + [d.id];
      }
      byId := byId[d.id := d];
    }
    assert documents[..|documents|] == documents;
  }

  /** `search`: merge the hits, keep the first `limit` distinct ids, score them and average the scores. */
  method Search(query: string, searchMethod: Option<string>, limit: Option<int>,
                kwHits: seq<StoredKnowledge>, ftHits: seq<StoredKnowledge>) returns (ctx: RagContext)
    ensures var (docs, scores) := Collected(MethodOf(searchMethod), ExtractKeywords(query), kwHits, ftHits);
      && (forall k :: 0 <= k < |scores| ==> ScoreShape(scores[k]))
      && ctx.query == query
      && ctx.documents == SliceTo(UniqueDocs(docs), LimitOf(limit))
      && ctx.relevanceScores == ScoresOf(ctx.documents, docs, scores)
      && ctx.totalRelevance == Mean(ctx.relevanceScores)
  {
    var m := MethodOf(searchMethod);
    var lim := LimitOf(limit);
    var keywords := ExtractKeywords(query);
    var documents, scores := CollectHits(m, keywords, kwHits, ftHits);
    CollectedShape(m, keywords, kwHits, ftHits);
    var keys, byId := IndexById(documents);
    KeysInMap(documents);
    var all := seq(|keys|, j requires 0 <= j < |keys| => byId[keys[j]]);
    var uniqueDocs := SliceTo(all, lim);
    var uniqueScores := seq(|uniqueDocs|, j requires 0 <= j < |uniqueDocs| =>
      OrHalf(ScoreAt(scores, FindIndex(documents, uniqueDocs[j].id))));
    ctx := RagContext(query, uniqueDocs, uniqueScores, Mean(uniqueScores));
  }

  /** The last index with that id, or -1. */
  function LastIndex(docs: seq<StoredKnowledge>, id: string): (r: int)
    ensures -1 <= r < |docs|
    ensures r == -1 <==> !HasId(docs, id)
    ensures r >= 0 ==> docs[r].id == id && forall t :: r < t < |docs| ==> docs[t].id != id
  {
    if |docs| == 0 then -1
    else if docs[|docs| - 1].id == id then |docs| - 1
    else
      var init := docs[..|docs| - 1];
      assert forall t :: 0 <= t < |init| ==> init[t] == docs[t];
      assert HasId(docs, id) ==> HasId(init, id) by {
        if HasId(docs, id) {
          var j :| 0 <= j < |docs| && docs[j].id == id;
          assert j < |init|;
        }
      }
      LastIndex(init, id)
  }

  /** For each id the map holds the last document with that id. */
  lemma {:induction false} LastByIdIsLast(docs: seq<StoredKnowledge>, id: string)
    requires HasId(docs, id)
    ensures LastById(docs)[id] == docs[LastIndex(docs, id)]
  {
    var init, d := docs[..|docs| - 1], docs[|docs| - 1];
    if d.id != id {
      assert HasId(init, id) by {
        var j :| 0 <= j < |docs| && docs[j].id == id;
        assert init[j] == docs[j];
      }
      LastByIdIsLast(init, id);
    }
  }

  /**
   * What `search` returns: at most `limit` documents when the limit is positive, with
   * pairwise distinct ids, each the last collected document with its id, and none when
   * nothing was collected; every score lies in (0, 1] and their mean in [0, 1], the mean
   * being 0 exactly when no document is returned.
   */
  lemma SearchSpec(docs: seq<StoredKnowledge>, scores: seq<Num>, lim: int)
    requires forall k :: 0 <= k < |scores| ==> ScoreShape(scores[k])
    ensures var out := SliceTo(UniqueDocs(docs), lim);
      && (lim > 0 ==> |out| <= lim)
      && (lim > 0 && |docs| > 0 ==> |out| > 0)
      && (forall i, j :: 0 <= i < j < |out| ==> out[i].id != out[j].id)
      && (forall j :: 0 <= j < |out| ==> HasId(docs, out[j].id) && out[j] == docs[LastIndex(docs, out[j].id)])
      && var rs := ScoresOf(out, docs, scores);
      && (forall j :: 0 <= j < |rs| ==> 0.0 < rs[j] <= 1.0)
      && 0.0 <= Mean(rs) <= 1.0
      && (Mean(rs) == 0.0 <==> |out| == 0)
  {
    var all := UniqueDocs(docs);
    UniqueDocsSpec(docs);
    var out := SliceTo(all, lim);
    assert forall j :: 0 <= j < |out| ==> out[j] == all[j];
    MeanBounds(ScoresOf(out, docs, scores));
  }

  /** One document per id, ids pairwise distinct, each the last collected document with its id. */
  lemma UniqueDocsSpec(docs: seq<StoredKnowledge>)
    ensures var all := UniqueDocs(docs);
      && (|docs| > 0 ==> |all| > 0)
      && (forall i, j :: 0 <= i < j < |all| ==> all[i].id != all[j].id)
      && (forall j :: 0 <= j < |all| ==> HasId(docs, all[j].id) && all[j] == docs[LastIndex(docs, all[j].id)])
  {
    var keys := Dedup(Ids(docs));
    var all := UniqueDocs(docs);
    KeysInMap(docs);
    assert forall j :: 0 <= j < |all| ==> all[j] == LastById(docs)[keys[j]];
    assert forall j :: 0 <= j < |all| ==> all[j].id == keys[j];
    if |docs| > 0 {
      assert docs[0].id in Ids(docs);
      assert |keys| > 0;
    }
    forall j | 0 <= j < |all|
      ensures HasId(docs, all[j].id) && all[j] == docs[LastIndex(docs, all[j].id)]
    {
      LastByIdIsLast(docs, keys[j]);
    }
  }

  /** The full-text part of a combined search: only hits with a new id, each scored 0.8, after the keyword hits. */
  lemma CombinedCollected(kws: seq<string>, kwHits: seq<StoredKnowledge>, ftHits: seq<StoredKnowledge>)
    ensures var (docs, scores) := Collected("combined", kws, kwHits, ftHits);
      && docs[..|kwHits|] == kwHits
      && (forall k :: 0 <= k < |kwHits| ==> scores[k] == KeywordScore(kwHits[k], kws))
      && (forall k :: |kwHits| <= k < |docs| ==> scores[k] == Fin(0.8) && docs[k] in ftHits && !HasId(kwHits, docs[k].id))
      && (forall d :: d in ftHits && !HasId(kwHits, d.id) ==> d in docs)
  {
    var (docs, scores) := Collected("combined", kws, kwHits, ftHits);
    NewFullTextMembers(kwHits, ftHits);
    var fd := NewFullText(kwHits, ftHits);
    assert docs == kwHits + fd;
    forall k | |kwHits| <= k < |docs|
      ensures docs[k] in fd
    {
      assert docs[k] == fd[k - |kwHits|];
    }
  }

  // ---------------------------------------------------------------------------
  // Answer
  // ---------------------------------------------------------------------------

  /** `Math.min(totalRelevance * 100, 95)`. */
  function Confidence(totalRelevance: real): (r: real)
    ensures r <= 95.0
    ensures r == 95.0 || r == totalRelevance * 100.0
    ensures totalRelevance * 100.0 <= 95.0 ==> r == totalRelevance * 100.0
  {
    if totalRelevance * 100.0 < 95.0 then totalRelevance * 100.0 else 95.0
  }

  /** `[...new Set(documents.map(d => d.source))]`. */
  function Sources(docs: seq<StoredKnowledge>): (r: seq<string>)
    ensures forall i, j :: 0 <= i < j < |r| ==> r[i] != r[j]
    ensures forall src :: src in r <==> exists j :: 0 <= j < |docs| && docs[j].source == src
  {
    var all := seq(|docs|, j requires 0 <= j < |docs| => docs[j].source);
    assert forall src :: src in all <==> exists j :: 0 <= j < |docs| && docs[j].source == src by {
      forall src | src in all
        ensures exists j :: 0 <= j < |docs| && docs[j].source == src
      {
        var j :| 0 <= j < |all| && all[j] == src;
        assert docs[j].source == src;
      }
      forall src | exists j :: 0 <= j < |docs| && docs[j].source == src
        ensures src in all
      {
        var j :| 0 <= j < |docs| && docs[j].source == src;
        assert all[j] == src;
      }
    }
    Dedup(all)
  }

  /**
   * `generateAnswer`: a combined search limited to five documents; the language model's
   * answer is a parameter. The confidence is between 0 and 95, and the sources are the
   * distinct sources of the context's documents.
   */
  method GenerateAnswer(query: string, kwHits: seq<StoredKnowledge>, ftHits: seq<StoredKnowledge>, answer: string)
    returns (response: RagResponse)
    ensures var (docs, scores) := Collected("combined", ExtractKeywords(query), kwHits, ftHits);
      && (forall k :: 0 <= k < |scores| ==> ScoreShape(scores[k]))
      && response.context.query == query
      && response.context.documents == SliceTo(UniqueDocs(docs), 5)
      && response.context.relevanceScores == ScoresOf(response.context.documents, docs, scores)
      && response.context.totalRelevance == Mean(response.context.relevanceScores)
    ensures |response.context.documents| <= 5
    ensures response.answer == answer && response.keywords == ExtractKeywords(answer)
    ensures 0.0 <= response.confidence <= 95.0
    ensures response.confidence == Confidence(response.context.totalRelevance)
    ensures response.sources == Sources(response.context.documents)
  {
    var context := Search(query, Some("combined"), Some(5), kwHits, ftHits);
    var (docs, scores) := Collected("combined", ExtractKeywords(query), kwHits, ftHits);
    SearchSpec(docs, scores, 5);
    var answerKeywords := ExtractKeywords(answer);
    response := RagResponse(answer, context, Confidence(context.totalRelevance), Sources(context.documents), answerKeywords);
  }
}
