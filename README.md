# Legal-document pipeline: clustering, knowledge graph and CSV enrichment

This Dafny project models the deterministic core of a browser application that turns legal
documents into a knowledge graph. The application splits documents into chunks and embeds
them. It then clusters the embeddings with K-Means and lays them out in two dimensions. It
builds a graph of the chunks, in which chunks that share keywords or a cluster are linked.
Around this core sit smaller services:

- a validator for chunks, embeddings, cluster points and graphs;
- a CSV enrichment service, which classifies source files, builds hierarchy paths and
  dedupe groups, deduplicates rows and reports on their quality;
- the CSV export;
- the retrieval step of the question-answering service (RAG): keyword extraction, and the
  merge of keyword and full-text hits;
- an audit logger;
- a syllable counter and a connective inserter for paragraphs.

Each module follows one source file:

| module | file | source |
|---|---|---|
| `Js` | js.dfy | the JavaScript semantics the services rely on: NaN-aware division, `toLowerCase`, `trim`, `length` in UTF-16 code units, `\|\|` on optional strings, `split`, `join`, `String(n)`, and `Object.values` key order |
| `Types` | types.dfy | the records of types.ts |
| `Clustering` | clustering.dfy | `euclideanDistance`, `addVectors`, `divideVector`, `runKMeans`, `calculateSilhouetteScore`, `generateClustersFromEmbeddings` and `projectVectorsToPCA` of services/mockDataService.ts |
| `GraphLinks` | graph_links.dfy | the link map and `addLink` of `generateGraphFromClusters`, as a class `LinkMap` |
| `GraphBuilder` | graph.dfy | the keyword index, the semantic and structural phases of `generateGraphFromClusters` |
| `ObjectIndex` | object_index.dfy | the keyword index of `generateGraphFromClusters` as written, on a plain object that inherits from `Object.prototype` |
| `ObjectDegree` | object_degree.dfy | the degree map and centralities of `generateGraphFromClusters` as written, on a plain object that inherits from `Object.prototype` |
| `GraphGeneration` | graph_generation.dfy | the confidence filter, centralities, metrics, and the whole `generateGraphFromClusters` |
| `Validator` | validator.dfy | services/validator.ts |
| `CsvEnhancer` | csv_enhancer.dfy | services/csvEnhancerService.ts |
| `CsvOrchestrator` | csv_orchestrator.dfy | services/csvEnrichmentOrchestratorService.ts |
| `Rag` | rag.dfy | `extractKeywords`, `search` and `generateAnswer` of services/ragService.ts |
| `AuditLog` | audit_log.dfy | the `AuditLogger` class of services/auditLogger.ts |
| `Coherence` | coherence.dfy | `countSyllables` and `addCoesion` of services/coherenceService.ts |

## How the model is built

Code that loops or mutates is modelled as Dafny methods with loops. Each method is proved
against a specification function, and the properties the source promises are lemmas about
that function. Examples: the K-Means iteration, the silhouette loops, the keyword index,
the batch validators, the deduplication and the CSV export.

`AuditLogger` and the link map of `generateGraphFromClusters` update their state in place.
Both are classes: `AuditLog.AuditLogger` and `GraphLinks.LinkMap`.

Numbers are modelled as `real`. Where the source can produce `NaN` (`0 / 0`), the result has
type `Js.Num`, which has a `NaN` case. Clocks, `Math.random`, the database searches and the
language model are parameters. So are `Math.sqrt` and `Math.sin`; the bounds lemmas only
assume that `sqrt` is never negative.

Two details follow the code rather than the text around it:

- The CLT marker in `mapDocToFamily` is written with a Cyrillic "т". The model keeps that
  letter (`CsvEnhancer.CltMarker`).
- The stopword "por que" contains a space, so it can never match a token.

## Model

| member | source | states |
|---|---|---|
| Js.Div | services/mockDataService.ts:389 | JavaScript division on the modelled numbers: finite exactly when the divisor is non-zero, NaN exactly for 0 / 0, and a finite quotient times the divisor gives the dividend |
| Js.Utf16Length | services/validator.ts:28 | `s.length` counts UTF-16 code units: between the number of characters and twice that, and equal to it exactly when no character lies outside the Basic Multilingual Plane |
| Js.OrElse | services/csvEnhancerService.ts:278 | `s \|\| fallback` on an optional string keeps a present, non-empty string and otherwise gives the fallback |
| Js.LowerStr | services/csvEnhancerService.ts:74 | `toLowerCase` maps each character separately and keeps the length |
| Js.LowerStrIdempotent | services/csvEnhancerService.ts:74 | lowercasing twice is lowercasing once |
| Js.LowerStrAppend | services/ragService.ts:48 | lowercasing distributes over concatenation |
| Js.TrimStart | services/coherenceService.ts:146 | `trimStart` drops exactly the leading whitespace: what remains is a suffix that is empty or starts with a non-space |
| Js.TrimEnd | services/coherenceService.ts:146 | `trimEnd` drops exactly the trailing whitespace |
| Js.BlankIffAllSpace | services/coherenceService.ts:135 | `s.trim()` is empty if and only if every character of `s` is whitespace |
| Js.TrimKeepsPrefix | services/coherenceService.ts:146 | trimming a string that starts with a non-space keeps every character up to any later non-space |
| Js.SplitWs | services/csvEnhancerService.ts:230 | `split(/\s+/)` yields at least one piece, and no piece contains whitespace |
| Js.SplitWsJoin | services/csvEnhancerService.ts:230 | splitting at whitespace runs recovers any non-empty list of non-empty, space-free words joined by single spaces |
| Js.Split | services/coherenceService.ts:135 | `split(sep)` yields at least one piece |
| Js.SplitJoinMarked | services/csvEnhancerService.ts:164 | splitting a join recovers the parts when some character occurs in the separator only once and in no part |
| Js.ReplaceWsRuns | services/csvEnhancerService.ts:184 | `replace(/\s+/g, rep)` leaves no whitespace when `rep` has none |
| Js.ReplaceIsSplitJoin | services/csvEnhancerService.ts:184 | replacing every whitespace run by `rep` equals splitting at whitespace runs and joining with `rep` |
| Js.ReplaceWsRunsNoSpace | services/csvEnhancerService.ts:184 | a string without whitespace is left unchanged |
| Js.ReplaceWsRunsSnoc | services/csvEnhancerService.ts:184 | appending a character appends it, appends `rep` once for the start of a new whitespace run, or appends nothing inside a run |
| Js.ReplaceWsRunsAppend | services/csvEnhancerService.ts:184 | the replacement distributes over a concatenation that does not join two whitespace runs |
| Js.NatToString | services/csvEnhancerService.ts:184 | `String(n)` of a natural number is a non-empty string of decimal digits |
| Js.NatToStringRoundTrip | services/csvEnhancerService.ts:184 | reading the digits of `String(n)` back gives `n` |
| Js.IntToString | services/csvEnhancerService.ts:184 | `String(n)` of an integer is non-empty |
| Js.Dedup | services/ragService.ts:164 | `[...new Set(xs)]` holds exactly the elements of `xs`, each once |
| Js.DedupSnoc | services/ragService.ts:164 | appending an element already seen keeps the set; a new one goes to the end |
| Js.DistinctCard | services/mockDataService.ts:489 | a list without repeats has as many elements as its set |
| Js.Filter | services/csvEnrichmentOrchestratorService.ts:293-294 | `filter` keeps exactly the elements that satisfy the predicate, never more than the input |
| Js.FilterExact | services/auditLogger.ts:128 | `filter` keeps the input order and keeps each accepted element as often as the input holds it, and no rejected element |
| Js.FilterSplit | services/csvEnrichmentOrchestratorService.ts:293-294 | a predicate and its negation split the input's length between them |
| Js.InsertBy | services/mockDataService.ts:532 | inserting into a key-sorted list adds exactly that one element (the multiset grows by it) and keeps the list sorted by key |
| Js.SortBy | services/mockDataService.ts:532 | the key sort behind `Object.values` returns a permutation of its input (the same elements, each as often), sorted by key |
| Js.ObjectKeyOrder | services/mockDataService.ts:532 | `Object.values` visits the same keys as inserted: the array-index keys first, in ascending numeric order, then the other keys in insertion order |
| Js.NumberKeyOrder | services/mockDataService.ts:582 | the same order for the numeric group keys of `nodesByCluster`: non-negative integer keys first, ascending, then the others in insertion order |
| Js.SumBetween | services/auditLogger.ts:146-149 | a sum of values between `lo` and `hi` lies between `n * lo` and `n * hi` |
| Js.MeanInUnit | services/mockDataService.ts:389 | the mean of a non-empty list of values in [-1, 1] is finite and in [-1, 1] |
| AuditLog.KeepRecent | services/auditLogger.ts:80-83 | the trim keeps at most 1000 entries, and they are the most recent ones; a buffer of at most 1000 is unchanged |
| AuditLog.SliceFrom | services/auditLogger.ts:157-158 | `slice(start)` with a negative start returns the last `-start` entries (all when fewer) |
| AuditLog.OperationLogs | services/auditLogger.ts:128 | the filter keeps exactly the entries of the named operation, each as often as the log holds it, in log order |
| AuditLog.Durations | services/auditLogger.ts:129-142 | the durations are those of exactly the success entries with a truthy duration, in log order |
| AuditLog.Min | services/auditLogger.ts:147 | `Math.min(...xs)` is an element of `xs` and no element is smaller |
| AuditLog.Max | services/auditLogger.ts:148 | `Math.max(...xs)` is an element of `xs` and no element is larger |
| AuditLog.Summarize | services/auditLogger.ts:131-151 | the count is the number of durations and the total is their sum; min and max are durations bounding all the others; no durations give all zeros |
| AuditLog.Stats | services/auditLogger.ts:120-151 | `getPerformanceStats` counts the success entries of the operation with a truthy duration, and is all zeros when there is none |
| AuditLog.SummarizeTotal | services/auditLogger.ts:145-149 | the total lies between count times the minimum and count times the maximum, and min <= max |
| AuditLog.SummarizeAverage | services/auditLogger.ts:146 | the average times the count is the total |
| AuditLog.SummarizeRate | services/auditLogger.ts:150 | the success rate is in (0, 1] and times the operation's entries gives the count |
| AuditLog.StatsConsistent | services/auditLogger.ts:120-151 | every operation with a timed success gets consistent statistics: average, total, min, max and rate agree |
| AuditLog.AuditLogger.constructor | services/auditLogger.ts:25-28 | a new logger has no entries and no operations |
| AuditLog.AuditLogger.StartOperation | services/auditLogger.ts:33-50 | the id is `operation_<now>_<random>`; exactly one `start` entry is appended, nothing is trimmed, and the operation is recorded under its id |
| AuditLog.AuditLogger.EndOperation | services/auditLogger.ts:55-84 | an unknown id changes nothing; otherwise the metric gets end time, duration and (for a truthy item count) throughput, one `success` entry with duration = end - start is appended, the buffer is cut to the last 1000, and the metric stays |
| AuditLog.AuditLogger.LogError | services/auditLogger.ts:89-101 | exactly one `error` entry is appended, nothing trimmed, metrics unchanged |
| AuditLog.AuditLogger.LogWarning | services/auditLogger.ts:106-115 | exactly one `warning` entry is appended, nothing trimmed, metrics unchanged |
| AuditLog.AuditLogger.GetPerformanceStats | services/auditLogger.ts:120-152 | the statistics of the current buffer for the operation |
| AuditLog.AuditLogger.GetRecentLogs | services/auditLogger.ts:157-159 | the last `limit` entries (default 50), all when there are fewer; `limit` 0 returns the whole buffer, as `slice(-0)` does |
| AuditLog.AuditLogger.ClearLogs | services/auditLogger.ts:164-168 | both the buffer and the operations map are emptied |
| Clustering.SqDistNonNegative | services/mockDataService.ts:284-291 | the sum of squared differences is never negative |
| Clustering.SqDistSelf | services/mockDataService.ts:284-291 | a vector is at squared distance 0 from itself |
| Clustering.SqDistSymmetric | services/mockDataService.ts:284-291 | the squared distance does not depend on argument order |
| Clustering.SquaredDistance | services/mockDataService.ts:284-291 | the loop sums the squared differences over the first min(50, length) dimensions, and the sum is non-negative |
| Clustering.EuclideanDistance | services/mockDataService.ts:283-293 | `euclideanDistance` is the square root of that sum |
| Clustering.Plus | services/mockDataService.ts:295-300 | the sum vector has the first vector's length and adds dimension by dimension |
| Clustering.Over | services/mockDataService.ts:302-307 | every entry of the quotient times the scalar gives the original entry |
| Clustering.AddVectors | services/mockDataService.ts:295-300 | the loop computes `Plus` |
| Clustering.DivideVector | services/mockDataService.ts:302-307 | the loop computes `Over` |
| Clustering.Reduced | services/mockDataService.ts:316 | one reduced vector per input, each the first five dimensions |
| Clustering.Nearest | services/mockDataService.ts:325-330 | the chosen centroid is at the least distance, and every centroid before it is strictly farther: ties go to the lowest index; no centroid gives 0 |
| Clustering.Assign | services/mockDataService.ts:324-333 | one assignment per vector, each the nearest centroid and in [0, k-1] |
| Clustering.UpdateMeans | services/mockDataService.ts:338-350 | after the update a cluster with members sits at their mean (coordinate times size equals coordinate sum), and an empty cluster keeps its previous centroid |
| Clustering.ClusterCountsTotal | services/mockDataService.ts:339-345 | the cluster sizes add up to the number of vectors |
| Clustering.Rounds | services/mockDataService.ts:322-351 | the iteration keeps k centroids of the reduced dimension and one assignment in [0, k-1] per vector |
| Clustering.RoundsStep | services/mockDataService.ts:322-351 | one round: an unchanged assignment stops with the centroids as they were; a changed one moves the centroids and spends one round |
| Clustering.RoundsStable | services/mockDataService.ts:335 | a round that reproduces the previous assignments ends the iteration |
| Clustering.KMeansShape | services/mockDataService.ts:312-333 | empty input gives no centroids and no assignments; otherwise there are min(k, N) centroids and one assignment in [0, min(k, N)-1] per vector |
| Clustering.NearestCentroid | services/mockDataService.ts:325-330 | the scan over the centroids computes `Nearest` |
| Clustering.AssignAll | services/mockDataService.ts:323-333 | the assignment pass computes `Assign`, and `changed` is true exactly when some assignment differs from the previous round's |
| Clustering.UpdateCentroids | services/mockDataService.ts:338-350 | the sums-and-counts pass computes the centroid update |
| Clustering.Round | services/mockDataService.ts:322-351 | one pass of the loop keeps the remaining rounds equal to the final result and spends one round when it changed something |
| Clustering.RunKMeans | services/mockDataService.ts:312-353 | `runKMeans` returns what `KMeans` specifies: at most `maxIterations` rounds, stopping when no assignment changes |
| Clustering.Sample | services/mockDataService.ts:357-358 | the sample is the first min(N, 200) vectors, each cut to 10 dimensions |
| Clustering.OtherStats | services/mockDataService.ts:365-378 | `clusterDistances` holds exactly the other clusters met among the first j points, each with a positive count |
| Clustering.MinMean | services/mockDataService.ts:380-384 | `b_i` is the mean distance of one of the other clusters and no other cluster's mean is smaller |
| Clustering.SilhouetteInUnit | services/mockDataService.ts:386 | `s_i` lies in [-1, 1] for non-negative `a_i` and `b_i` |
| Clustering.PointScoreBounds | services/mockDataService.ts:362-386 | every point's silhouette lies in [-1, 1] |
| Clustering.PointScoresBounds | services/mockDataService.ts:361-388 | every sampled point's score lies in [-1, 1] |
| Clustering.SilhouetteBounds | services/mockDataService.ts:355-390 | the score is 0 for k < 2, NaN for an empty input (0 / 0), and otherwise a finite number in [-1, 1] |
| Clustering.VisitPoint | services/mockDataService.ts:367-378 | one pass of the inner loop extends the own-cluster sum and count and `clusterDistances` from j to j + 1 points |
| Clustering.PointSilhouette | services/mockDataService.ts:362-386 | the loops for point i compute its silhouette `s_i` |
| Clustering.NearestOtherCluster | services/mockDataService.ts:380-385 | `b_i` is 0 when no other cluster was sampled, otherwise the least mean distance to another cluster |
| Clustering.TotalScore | services/mockDataService.ts:360-388 | the outer loop adds up the point scores |
| Clustering.CalculateSilhouetteScore | services/mockDataService.ts:355-390 | `calculateSilhouetteScore` returns what `SilhouetteScore` specifies |
| Clustering.CeilSqrtHalf | services/mockDataService.ts:409 | `Math.ceil(Math.sqrt(n / 2))` is the least m with 2m² >= n |
| Clustering.ChooseKBounds | services/mockDataService.ts:409 | from three points on, 2 <= k <= 10 and k <= N; strictly between the clamps, k is the ceiling of sqrt(N/2) |
| Clustering.Centered | services/mockDataService.ts:454-456 | each centred entry is the entry minus the mean of its dimension |
| Clustering.Projection | services/mockDataService.ts:437-472 | the projection returns one point per vector |
| Clustering.CenteredSumsToZero | services/mockDataService.ts:441-456 | the centred vectors sum to zero in every dimension used: the layout is centred on the mean |
| Clustering.ComputeMean | services/mockDataService.ts:442-451 | the mean loop computes the mean of each of the first min(50, d) dimensions |
| Clustering.PlacePoint | services/mockDataService.ts:461-471 | centring and the two `reduce` calls give `[50 + 30x, 50 + 30y]` |
| Clustering.ProjectVectorsToPCA | services/mockDataService.ts:437-472 | `projectVectorsToPCA` computes `Projection`; empty input gives no points |
| Clustering.Vectors | services/mockDataService.ts:396 | one vector per embedding, of the same length |
| Clustering.GenerateClustersFromEmbeddings | services/mockDataService.ts:395-434 | one point per embedding with its id, label, keywords and type; fewer than 3 give cluster 0 at x = 50 + 20i - 20, y = 50 + (i mod 2)·20 - 10; otherwise 2 <= k <= min(10, N), clusters come from `KMeans`, and the silhouette score from `SilhouetteScore` |
| GraphLinks.Upgrade | services/mockDataService.ts:515-517 | the type only moves up co-ocorrencia < semantico < hierarquico: the result is one of the two and has the higher rank |
| GraphLinks.Cap | services/mockDataService.ts:512-513 | `Math.min(1, x)` is at most 1 and at most x, and equals one of them |
| GraphLinks.Reinforce | services/mockDataService.ts:510-517 | a repeat keeps source and target, caps value and confidence at 1, and never lowers the type |
| GraphLinks.KeyOf | services/mockDataService.ts:507 | the key is the unordered pair, smaller position first |
| GraphLinks.KeyOfInjective | services/mockDataService.ts:507 | two pairs share a key exactly when they are the same unordered pair |
| GraphLinks.AddEffect | services/mockDataService.ts:504-527 | `addLink` ignores idxA = idxB; a repeat sets value := min(1, value + 0.5w) and confidence := min(1, confidence + 0.2c) and moves the type up; a new pair is appended with source idxA and target idxB; other keys are untouched |
| GraphLinks.AddMonotone | services/mockDataService.ts:510-517 | reinforcing never lowers value, confidence or type rank |
| GraphLinks.AddWellFormed | services/mockDataService.ts:504-527 | the map keeps one link per key, its insertion order lists each key once, and every link joins two distinct in-range nodes |
| GraphLinks.AddBounded | services/mockDataService.ts:512-525 | value and confidence stay in (0, 1] |
| GraphLinks.AddForward | services/mockDataService.ts:520-521 | when pairs arrive in index order, the source is always the lower position |
| GraphLinks.AddAllAppend | services/mockDataService.ts:504-527 | observing `a` then `b` is observing `a + b` |
| GraphLinks.AddAllInvariants | services/mockDataService.ts:504-527 | any sequence of in-range observations keeps the map well formed, bounded and forward |
| GraphLinks.KeysObserved | services/mockDataService.ts:519 | every key in the map came from some observation |
| GraphLinks.LoneObservation | services/mockDataService.ts:518-525 | a pair observed once holds exactly the weight, confidence and type of that observation |
| GraphLinks.LinkCountBound | services/mockDataService.ts:501-527 | the map never holds more than n(n-1)/2 links |
| GraphLinks.Values | services/mockDataService.ts:602 | `Array.from(linksMap.values())` lists the links in key insertion order |
| GraphLinks.LinkMap.constructor | services/mockDataService.ts:501 | the map starts empty |
| GraphLinks.LinkMap.AddLink | services/mockDataService.ts:504-527 | the in-place update leaves the map in the state `Add` specifies |
| GraphLinks.LinkMap.LinkValues | services/mockDataService.ts:602 | the loop lists the links in insertion order |
| GraphLinks.SourceKeysCollide | services/mockDataService.ts:507 | with ids "a-b", "c", "a", "b-c" the string key merges two different pairs, losing one link |
| GraphBuilder.MakeNode | services/mockDataService.ts:476-485 | the node keeps the id, takes group 99 for cluster -1, and starts with centrality 0 |
| GraphBuilder.MakeNodes | services/mockDataService.ts:476-485 | one node per cluster point, in order |
| GraphBuilder.Normalized | services/mockDataService.ts:489 | each keyword is lowercased and trimmed; no keywords give an empty list |
| GraphBuilder.KeywordSets | services/mockDataService.ts:488-490 | one keyword set per node, without repeats |
| GraphBuilder.HoldersSpec | services/mockDataService.ts:493-499 | a keyword's bucket lists exactly the nodes holding it, in increasing order |
| GraphBuilder.BuildIndex | services/mockDataService.ts:493-499 | the index has one bucket per keyword, in first-seen order, and each bucket lists exactly the nodes holding that keyword |
| GraphBuilder.IndexNode | services/mockDataService.ts:494-498 | the inner loop files the node under each of its keywords, so that the index covers one more node exactly |
| ObjectIndex.ObjectLookup | services/mockDataService.ts:496 | reading a keyword on the plain object gives its own bucket, the inherited member for "constructor" and "__proto__", or `undefined` |
| ObjectIndex.PushAsWritten | services/mockDataService.ts:496-497 | as written, one push throws exactly for an inherited name without its own bucket, and otherwise is the intended push |
| ObjectIndex.PushAllAsWrittenThrows | services/mockDataService.ts:494-498 | the inner loop as written throws exactly when the node has the keyword "constructor" or "__proto__", and never stores either name |
| ObjectIndex.IndexAsWrittenThrows | services/mockDataService.ts:492-498 | the index as written throws exactly when some node has the keyword "constructor" or "__proto__" |
| ObjectIndex.ConstructorKeywordThrows | services/mockDataService.ts:487-498 | a point with the keyword "Constructor" makes the index as written throw, while the intended index files it under "constructor" |
| GraphBuilder.CountInIsIntersection | services/mockDataService.ts:547-553 | counting the smaller set's members found in the larger set gives the size of the intersection |
| GraphBuilder.IntersectionIsCommon | services/mockDataService.ts:547-553 | the intersection size is the number of common keywords and bounded by both sizes |
| GraphBuilder.IntersectionSize | services/mockDataService.ts:547-553 | the loop computes the intersection size |
| GraphBuilder.ConfidenceBounds | services/mockDataService.ts:555-566 | a pair gets a confidence exactly when it shares a keyword, and then it lies in (0, 1] |
| GraphBuilder.SubsetConfidence | services/mockDataService.ts:557-564 | a non-empty keyword set inside another scores at least 0.6, and equal sets score 1 |
| GraphBuilder.Row | services/mockDataService.ts:537-539 | row i pairs `indices[i]` with every later index, in order |
| GraphBuilder.PairsUpToSpec | services/mockDataService.ts:536-539 | the nested loops visit exactly the pairs (indices[i], indices[j]) with i < j |
| GraphBuilder.PairsOrdered | services/mockDataService.ts:536-539 | in an increasing bucket every pair is in index order, so `addLink` always gets the lower index first |
| GraphBuilder.SemanticPair | services/mockDataService.ts:538-569 | the link map gains the pair's semantic observation: none for an empty set, no common keyword or a confidence of at most 0.35, otherwise weight 0.8·confidence and type semantico |
| GraphBuilder.SemanticRow | services/mockDataService.ts:537-570 | the inner loop observes row i |
| GraphBuilder.SemanticBucket | services/mockDataService.ts:532-571 | the nested loops over one bucket add the observation of every pair (indices[i], indices[j]) with i < j, in loop order |
| GraphBuilder.SemanticPhase | services/mockDataService.ts:532-572 | the link map gains the observations of every bucket in `Object.values` order; a bucket with fewer than 2 nodes or more than 0.6·N nodes adds none |
| GraphBuilder.SemanticObsOk | services/mockDataService.ts:532-572 | every semantic observation joins two in-range nodes in index order, with bounded weight and confidence |
| GraphBuilder.MembersSpec | services/mockDataService.ts:577-580 | a group lists exactly its nodes, in increasing order |
| GraphBuilder.BuildGroups | services/mockDataService.ts:576-580 | the grouping loop gives one bucket per group, in first-seen order, with exactly its members |
| GraphBuilder.StructuralPair | services/mockDataService.ts:587-597 | a same-type pair is observed with weight 0.4 and confidence 0.6, any other pair with 0.2 and 0.3 |
| GraphBuilder.StructuralRow | services/mockDataService.ts:586-598 | the inner loop observes row i |
| GraphBuilder.StructuralBucket | services/mockDataService.ts:582-599 | the nested loops over one group add the structural observation of every pair with i < j, in loop order |
| GraphBuilder.StructuralPhase | services/mockDataService.ts:582-600 | the link map gains the observations of every group in `Object.values` order; a group with fewer than 2 nodes adds none |
| GraphBuilder.StructuralObsOk | services/mockDataService.ts:582-600 | every structural observation joins two in-range nodes in index order |
| GraphGeneration.ObservationsOk | services/mockDataService.ts:532-600 | every observation of both phases is in range, ordered and bounded |
| GraphGeneration.LinkStateInvariants | services/mockDataService.ts:501-600 | the link map after both phases is well formed, bounded and forward |
| GraphGeneration.Kept | services/mockDataService.ts:602 | the filter keeps exactly the links with confidence > 0.3 |
| GraphGeneration.KeptLinks | services/mockDataService.ts:602 | the kept links join distinct nodes (source lower), have value in (0, 1] and confidence in (0.3, 1], and no two join the same pair |
| GraphGeneration.WeakKeyNotKept | services/mockDataService.ts:602 | a link with confidence at most 0.3 is not in the output |
| GraphGeneration.LoneWeakLinkDropped | services/mockDataService.ts:594-602 | a lone structural observation of two different-type nodes (confidence 0.3) makes a link that the filter drops |
| GraphGeneration.ToGraphLinks | services/mockDataService.ts:519-525 | each link is written with the ids of its two nodes |
| GraphGeneration.CentralityKeepsIds | services/mockDataService.ts:616-620 | setting centralities changes only the centrality, and every centrality is finite and non-negative |
| GraphGeneration.FindGroup | services/mockDataService.ts:627-628 | `nodes.find(...)?.group` is undefined exactly when no node has the id, otherwise the group of the first such node |
| GraphGeneration.Within | services/mockDataService.ts:625-633 | the within-cluster count never exceeds the number of links |
| GraphGeneration.DensityBounds | services/mockDataService.ts:607 | density = 2E/(n(n-1)) (0 for n <= 1) lies in [0, 1] |
| GraphGeneration.ModularityBounds | services/mockDataService.ts:635 | modularity lies in [-1, 1] |
| GraphGeneration.AvgDegreeNonNegative | services/mockDataService.ts:622 | the average degree is never negative |
| GraphGeneration.KeptEdges | services/mockDataService.ts:602 | the kept links only join existing nodes |
| GraphGeneration.KeptEdgesFacts | services/mockDataService.ts:602-607 | the kept links are ordered, bounded and distinct pairs, so 2E <= n(n-1) |
| GraphGeneration.DegreeMap | services/mockDataService.ts:609-613 | the intended degree map, with no inherited entries, counts for every id the links that end at it |
| GraphGeneration.Centralities | services/mockDataService.ts:615-620 | the loop sets every node's centrality and sums the degrees |
| GraphGeneration.WithinClusters | services/mockDataService.ts:625-633 | the loop counts the links whose two ends lie in the same group |
| GraphGeneration.ComputeMetrics | services/mockDataService.ts:605-645 | the metrics block computes the nodes with centralities and the metrics record |
| GraphGeneration.GenerateGraphFromClusters | services/mockDataService.ts:475-648 | `generateGraphFromClusters` returns what `BuildGraph` specifies |
| GraphGeneration.BuiltNodes | services/mockDataService.ts:476-485 | one node per point with its id, label and group, and a finite non-negative centrality |
| GraphGeneration.BuiltLinks | services/mockDataService.ts:602 | every output link joins two of the input points and has value in (0, 1] and confidence in (0.3, 1] |
| GraphGeneration.OneLinkPerPair | services/mockDataService.ts:505-507 | with distinct ids, no link is a loop and no two links join the same unordered pair |
| GraphGeneration.BuiltMetrics | services/mockDataService.ts:605-645 | totalNodes = n, totalEdges = E, connectedComponents = 1, the silhouette score is passed through, density in [0, 1], modularity in [-1, 1], avgDegree >= 0 |
| GraphGeneration.HandshakeSum | services/mockDataService.ts:609-620 | the degrees of distinct nodes add up to twice the number of links |
| GraphGeneration.BuiltAverageDegree | services/mockDataService.ts:615-622 | with distinct ids, avgDegree = 2E/n |
| GraphGeneration.DegreeByPosition | services/mockDataService.ts:609-617 | with distinct ids, a node's degree by id equals the number of kept links at its position |
| GraphGeneration.Neighbours | services/mockDataService.ts:609-617 | the neighbours of a node, one per link at it |
| GraphGeneration.NeighboursDistinct | services/mockDataService.ts:602-617 | a node's neighbours are distinct, so its degree is at most n-1 |
| GraphGeneration.EdgeDegreeBound | services/mockDataService.ts:618 | a node's degree never exceeds the divisor `n - 1 \|\| 1` |
| GraphGeneration.DegreesInUnit | services/mockDataService.ts:618 | every degree divided by `n - 1 \|\| 1` lies in [0, 1] |
| GraphGeneration.BuiltCentrality | services/mockDataService.ts:618 | with distinct ids, every centrality lies in [0, 1] |
| GraphGeneration.GraphOkFromParts | services/validator.ts:111-167 | nodes with ids and labels, links between existing nodes with values in [0, 1], and bounded metrics make a graph valid |
| GraphGeneration.BuiltGraphOk | services/validator.ts:111-167 | every graph the builder makes from a non-empty list of labelled points passes the corrected validator |
| GraphGeneration.BuiltGraphValid | services/validator.ts:164 | the corrected `validateGraph` accepts every built graph, and the one as written rejects it at the average degree |
| ObjectDegree.SlotOf | services/mockDataService.ts:617 | reading an id on the plain object gives its own entry, a non-number for a name `Object.prototype` defines, or `undefined` otherwise |
| ObjectDegree.Bump | services/mockDataService.ts:611-612 | one increment of `degreeMap[id]` changes what no other id reads |
| ObjectDegree.BumpStep | services/mockDataService.ts:611-612 | one increment adds 1 to the count of an ordinary id and leaves a prototype name a non-number |
| ObjectDegree.DegreeMapAsWrittenAgrees | services/mockDataService.ts:609-613 | the degree map as written holds the link count of every ordinary id (`undefined` for none) and a non-number for every prototype name |
| ObjectDegree.CentralityAsWrittenAgrees | services/mockDataService.ts:615-620 | as written, a node whose id is a prototype name gets centrality NaN, and every other node the intended centrality |
| ObjectDegree.TotalAsWrittenAgrees | services/mockDataService.ts:615-620 | `totalDegree` as written is the intended total, or a string once some id is a prototype name |
| ObjectDegree.AvgDegreeAsWrittenAgrees | services/mockDataService.ts:622 | the average degree as written is NaN exactly when some node id is a prototype name, and the intended average otherwise |
| ObjectDegree.PrototypeIdNodeRejected | services/validator.ts:130-132 | as written, a node with a prototype name as id fails the centrality check |
| ObjectDegree.PrototypeIdRejected | services/validator.ts:111-167 | such a graph is rejected by the corrected validator, and the one as written stops at the node check |
| ObjectDegree.OnePointNoLinks | services/mockDataService.ts:602 | a single point gives no links |
| ObjectDegree.ToStringIdCounterexample | services/mockDataService.ts:609-622 | one labelled point with id "toString": the intended graph is valid, while as written its centrality and average degree are NaN and the validator rejects it |
| Validator.ValidateChunk | services/validator.ts:19-43 | valid exactly when id, source and entity type are present, content is non-blank and at most 10000 UTF-16 code units long, and tokens are a non-negative number; a missing id is reported first, then blank content |
| Validator.ValidateEmbedding | services/validator.ts:48-81 | valid exactly when the id is present, the vector is non-empty, finite and not all zero, and the model is named; an unusual dimension only raises the warning flag |
| Validator.ValidateCluster | services/validator.ts:86-106 | valid exactly when id and label are present, clusterId >= 0 and x, y are finite; a negative clusterId gives its own message |
| Validator.NodesVerdict | services/validator.ts:121-133 | the node loop passes exactly when every node has an id, a label and a finite centrality |
| Validator.LinksVerdict | services/validator.ts:136-152 | the link loop passes exactly when every link joins two node ids and has a finite value in [0, 1] |
| Validator.ValidateGraphAsWrittenRejectsAll | services/validator.ts:164-166 | as written, `validateGraph` rejects every graph, at the latest at the average-degree check |
| Validator.ValidateGraph | services/validator.ts:111-167 | reading `avgDegree`, valid exactly when there is a node, every node and link passes, metrics exist, density is in [0, 1] and the average degree is non-negative |
| Validator.ValidateGraphAgrees | services/validator.ts:111-167 | the corrected and as-written checks agree on every invalid graph rejected before the average degree, and on every valid graph the one as written fails at the average degree |
| Validator.BatchCounts | services/validator.ts:172-209 | valid + number of errors = input length, and all are valid exactly when every item passes |
| Validator.ValidateBatch | services/validator.ts:172-209 | the batch loop counts the valid items and records one message per invalid item; valid + invalid = length |
| Validator.ValidateChunks | services/validator.ts:172-188 | `validateChunks` counts by `validateChunk`, with valid + invalid = length and one error per invalid chunk |
| Validator.ValidateEmbeddings | services/validator.ts:193-209 | `validateEmbeddings` counts by `validateEmbedding` in the same way |
| Validator.OrphanErrors | services/validator.ts:229-241 | no orphan message is produced exactly when every id has a chunk |
| Validator.ReportOrphans | services/validator.ts:229-241 | the loop appends one message per id without a chunk |
| Validator.ValidatePipelineIntegrity | services/validator.ts:214-248 | the errors are the count mismatch and the orphan embeddings and clusters, and valid holds exactly when there is none |
| Validator.IntegrityValid | services/validator.ts:214-248 | valid exactly when the counts match and every embedding and cluster id has a chunk; chunks without embeddings are not reported |
| CsvEnhancer.MapDocToFamily | services/csvEnhancerService.ts:73-93 | the result is one of the six families |
| CsvEnhancer.MapDocToFamilyIgnoresCase | services/csvEnhancerService.ts:74 | the classification ignores letter case |
| CsvEnhancer.LatinNameReachesCltOnlyByPhrase | services/csvEnhancerService.ts:85 | a file name without Cyrillic letters never contains the CLT marker, so it is classified CLT only through "consolidacao laboral" |
| CsvEnhancer.HierarchyPathSplits | services/csvEnhancerService.ts:144-165 | the path splits back at " > " into its parts: the family first, "Título X" when a title matched, one part for a matched chapter, and the unit reference last unless it is "Sem Referência" |
| CsvEnhancer.DedupeGroup | services/csvEnhancerService.ts:183-185 | the dedupe group contains no whitespace |
| CsvEnhancer.DedupeGroupFields | services/csvEnhancerService.ts:183-185 | the dedupe group is the source and the reference with whitespace runs replaced by "_", around `\|p<page>\|` |
| CsvEnhancer.CountTokens | services/csvEnhancerService.ts:229-231 | the token count is at least 1 |
| CsvEnhancer.CountTokensBlank | services/csvEnhancerService.ts:229-231 | blank or empty text counts as 1 token |
| CsvEnhancer.CountTokensOfWords | services/csvEnhancerService.ts:229-231 | words joined by single spaces count as exactly their number |
| CsvEnhancer.PageOrOne | services/csvEnhancerService.ts:256-257 | `pageNumber \|\| 1`: an absent or zero page gives 1, any other page is kept |
| CsvEnhancer.EnrichChunkForCSV | services/csvEnhancerService.ts:236-283 | the row carries the chunk id, file and index, page_start = page_end = page or 1, language "pt", the raw content, the cleaned text and its length in UTF-16 code units, the file's family, a token count >= 1, a space-free dedupe group and a path that starts with the family; the nine columns of the previous version repeat id, file and page, fall back from the chunk's entity type and label to the unit type and reference, from its provider to "unknown", from its upload time to the row's timestamp and from its original content to the content, and repeat the cleaned text |
| CsvEnhancer.FirstOccurrencesKeys | services/csvEnhancerService.ts:288-306 | the kept rows have pairwise distinct keys, and every input key is kept |
| CsvEnhancer.FirstOccurrencesInOrder | services/csvEnhancerService.ts:288-306 | the kept rows are a subsequence of the input: input order is preserved |
| CsvEnhancer.FirstOccurrencesFirst | services/csvEnhancerService.ts:293-299 | the first row with a key is kept |
| CsvEnhancer.DeduplicateRows | services/csvEnhancerService.ts:288-306 | the loop keeps the first row per (hash, group) key, and kept + removed = input length |
| CsvEnhancer.BreakdownTotal | services/csvEnhancerService.ts:326-334 | the breakdown counts the noise rows per reason, lists exactly the reasons that occur, and its values add up to the noise count |
| CsvEnhancer.GenerateQualityReport | services/csvEnhancerService.ts:311-351 | total, noise and clean counts with clean = total - noise; percentages and averages are 0 for no rows and the stated quotients otherwise; families and laws are the sets of the rows' values |
| CsvOrchestrator.EnrichChunksRapido | services/csvEnrichmentOrchestratorService.ts:44-76 | one result per chunk in input order, source "regex", the row of `enrichChunkForCSV` with chunk_index = position; nothing is deduplicated |
| CsvOrchestrator.SelectMode | services/csvEnrichmentOrchestratorService.ts:253-274 | "rapido" always runs; "preciso" and "hibrido" run only with an LLM configuration and fail otherwise; any other mode fails with "Unknown enrichment mode: …" |
| CsvOrchestrator.UnescapeEscape | services/csvEnrichmentOrchestratorService.ts:326 | undoubling the quotes recovers the string |
| CsvOrchestrator.QuoteRoundTrip | services/csvEnrichmentOrchestratorService.ts:324-327 | a null field is empty; any other field, unquoted and undoubled, gives back `String(value)` |
| CsvOrchestrator.RowFields | services/csvEnrichmentOrchestratorService.ts:323-328 | one field per header |
| CsvOrchestrator.ExportedAllRows | services/csvEnrichmentOrchestratorService.ts:293-295 | with `includeNoise` every row is exported |
| CsvOrchestrator.ExportedCleanRows | services/csvEnrichmentOrchestratorService.ts:293-295 | without it, exactly the noise rows are dropped |
| CsvOrchestrator.ExportedSubsequence | services/csvEnrichmentOrchestratorService.ts:293-295 | the exported rows keep their input order |
| CsvOrchestrator.ExportedRowsSpec | services/csvEnrichmentOrchestratorService.ts:293-295 | the three facts above together |
| CsvOrchestrator.FilterExported | services/csvEnrichmentOrchestratorService.ts:293-295 | the filter loop computes the exported rows |
| CsvOrchestrator.CsvLines | services/csvEnrichmentOrchestratorService.ts:319-330 | the lines are the header followed by one line per row |
| CsvOrchestrator.ExportEnrichedResultsToCSV | services/csvEnrichmentOrchestratorService.ts:289-333 | the CSV is the header line and one line per exported row, joined with "\n" |
| CsvOrchestrator.HeaderLineOneLine | services/csvEnrichmentOrchestratorService.ts:298-319 | the header line holds no line feed |
| CsvOrchestrator.RowLineHasNoLineFeed | services/csvEnrichmentOrchestratorService.ts:322-329 | a row whose values hold no line feed gives one line |
| CsvOrchestrator.ExportLines | services/csvEnrichmentOrchestratorService.ts:319-332 | the first line of the output is the 17-column header; with single-line values the output splits back into the header and exactly one line per exported row |
| CsvOrchestrator.CompareProcessingTimes | services/csvEnrichmentOrchestratorService.ts:338-352 | chunksProcessed = length, totalTimeMs = sum of the times, mode = first result's source or "unknown", and the average is NaN exactly for no results |
| CsvOrchestrator.TotalTimeAppend | services/csvEnrichmentOrchestratorService.ts:344 | the total time adds over concatenation |
| Rag.KeepKeywordsMembers | services/ragService.ts:50 | the filter keeps exactly the words longer than 2 UTF-16 code units that are not stopwords |
| Rag.KeepKeywordsAppend | services/ragService.ts:50 | the filter distributes over concatenation |
| Rag.ExtractKeywords | services/ragService.ts:37-52 | at most 5 keywords, each a non-stopword longer than 2 UTF-16 code units without whitespace |
| Rag.SplitWsLower | services/ragService.ts:47-49 | lowercasing then splitting equals splitting then lowercasing each word |
| Rag.ExtractKeywordsSpec | services/ragService.ts:37-52 | the keywords are the first five kept words of the lowercased query, in query order, each lowercase |
| Rag.PorQueNeverFilters | services/ragService.ts:43 | "por que" is a stopword, but no token of a query can equal it |
| Rag.MethodOf | services/ragService.ts:63 | the method defaults to "combined" |
| Rag.LimitOf | services/ragService.ts:64 | `limit \|\| 5`: a missing or zero limit gives 5, any other limit is kept |
| Rag.SliceTo | services/ragService.ts:94 | `slice(0, end)` keeps the first `end` items, or counts back from the end for a negative `end` |
| Rag.KeywordScore | services/ragService.ts:73-79 | a keyword hit scores matches / keywords in [0, 1], and NaN when there is no keyword |
| Rag.NewFullTextMembers | services/ragService.ts:84-86 | full-text hits are added exactly when their id was not already found |
| Rag.OrHalf | services/ragService.ts:98 | `score \|\| 0.5` keeps a truthy score and turns 0 or NaN into 0.5; the result is in (0, 1] |
| Rag.FindIndex | services/ragService.ts:97 | `findIndex` gives the first position with the id, or -1 |
| Rag.LastById | services/ragService.ts:92-93 | the map from id to document holds exactly the ids found, each mapped to a document with that id |
| Rag.LastByIdIsLast | services/ragService.ts:92-93 | the `Map` keeps the last document with each id |
| Rag.UniqueDocs | services/ragService.ts:92-94 | one document per distinct id |
| Rag.UniqueDocsSpec | services/ragService.ts:92-94 | the unique documents have distinct ids, each the last one found with that id, and there is one when anything was found |
| Rag.IndexById | services/ragService.ts:92-93 | the `new Map(...)` loop computes the keys in first-seen order and the last document per id |
| Rag.Collected | services/ragService.ts:67-89 | one score per collected document |
| Rag.CombinedCollected | services/ragService.ts:70-89 | "combined" keeps the keyword hits first with their keyword scores, then the new full-text hits with score 0.8 |
| Rag.CollectHits | services/ragService.ts:67-89 | the collection loop computes `Collected` |
| Rag.ScoresOf | services/ragService.ts:96-99 | one score per output document, each in (0, 1] |
| Rag.Mean | services/ragService.ts:101 | the mean of no scores is 0, otherwise mean times count is the sum |
| Rag.MeanBounds | services/ragService.ts:101 | the total relevance lies in [0, 1], and is 0 exactly when there is no document |
| Rag.SearchSpec | services/ragService.ts:92-101 | at most `limit` documents with distinct ids, at least one when anything was found, each the last found with its id, scores in (0, 1] and a mean in [0, 1] |
| Rag.Search | services/ragService.ts:57-109 | `search` collects, deduplicates, truncates, scores and averages as specified |
| Rag.Confidence | services/ragService.ts:163 | confidence = min(100·relevance, 95) |
| Rag.Sources | services/ragService.ts:164 | the sources are the distinct sources of the documents |
| Rag.GenerateAnswer | services/ragService.ts:145-167 | the context is the whole combined search limited to 5 documents (query, documents, their scores and the mean relevance), the confidence is min(100 x mean, 95) in [0, 95], the sources are the distinct sources, and the keywords are those of the answer |
| Coherence.Strip | services/coherenceService.ts:253 | stripping leaves only accepted letters |
| Coherence.CountVowelRuns | services/coherenceService.ts:256-267 | the inner loop counts the maximal vowel runs of a word |
| Coherence.CountSyllables | services/coherenceService.ts:245-271 | the loop computes the syllable count: 0 for empty text, otherwise the words' vowel runs added up, and at least 1 |
| Coherence.VowelRunsAppend | services/coherenceService.ts:257-266 | the runs of a concatenation add up, minus one when a run crosses the seam |
| Coherence.VowelRunsUniform | services/coherenceService.ts:257-266 | a word without vowels has no run; a non-empty all-vowel word has one |
| Coherence.StripAppend | services/coherenceService.ts:253 | stripping distributes over concatenation |
| Coherence.DiaeresisNeverCounts | services/coherenceService.ts:253-259 | "ü" is removed before the vowel test, so it never changes the count |
| Coherence.NonBlank | services/coherenceService.ts:135 | `filter(p => p.trim())` keeps only non-blank paragraphs, all from the input |
| Coherence.EnhanceAll | services/coherenceService.ts:140-159 | one paragraph out per paragraph in |
| Coherence.SplitIsWellSplit | services/coherenceService.ts:135 | splitting at "\n\n" gives pieces with no break inside, and the text starts with the first piece |
| Coherence.SplitJoin | services/coherenceService.ts:135 | splitting a join of well-split paragraphs at "\n\n" gives them back |
| Coherence.CoesivesClean | services/coherenceService.ts:42-63 | every connective is non-empty, starts with a non-space and holds no line feed |
| Coherence.PrefixedStartsWith | services/coherenceService.ts:145-158 | a prefixed paragraph, trimmed and lowercased, starts with the lowercased connective |
| Coherence.PrefixedStartsWithCoesive | services/coherenceService.ts:145-158 | a paragraph prefixed with any connective counts as starting with one |
| Coherence.PrefixedShape | services/coherenceService.ts:152-158 | prefixing keeps a paragraph non-blank and free of breaks |
| Coherence.EnhancedShape | services/coherenceService.ts:140-159 | after enhancement every later paragraph starts with a connective, and all stay non-blank and well split |
| Coherence.ParagraphsOfJoin | services/coherenceService.ts:135 | the paragraphs of a join of non-blank paragraphs are those paragraphs |
| Coherence.AddCoesionShape | services/coherenceService.ts:131-162 | empty text and text with at most one paragraph are returned unchanged; otherwise the paragraph count is kept, the first is unchanged, and each later one is unchanged if it starts with a connective, else prefixed with COESIVES[index mod 20] and a space |
| Coherence.EnhanceAllFixed | services/coherenceService.ts:145-149 | paragraphs that already start with connectives are left alone |
| Coherence.AddCoesionIdempotent | services/coherenceService.ts:131-162 | applying `addCoesion` twice is applying it once |

## Left out

- Floating point: numbers are unbounded reals, so rounding, overflow and `-0` are not modelled. `NaN` is modelled only where the source can produce `0 / 0`.
- `Math.sqrt` and `Math.sin` are function parameters. The silhouette bounds assume only that `sqrt` is never negative.
- Clustering.Nearest: compares squared distances instead of their square roots. It agrees with the source only because `Math.sqrt` is increasing, and that fact is not modelled.
- Clustering.RunKMeans: the `inertia` field is always 0 in the source and is not returned.
- Clustering.GenerateClustersFromEmbeddings: returns the silhouette score instead of writing the module-level `currentSilhouetteScore`. The centroids argument of `projectVectorsToPCA` is unused in the source and is dropped.
- The vector-valued inputs of the clustering are assumed to have uniform dimensions (`Uniform`). With ragged vectors the source reads `undefined` and computes `NaN`, which is not modelled.
- GraphGeneration.OneLinkPerPair, GraphGeneration.BuiltAverageDegree and GraphGeneration.BuiltCentrality: these assume distinct node ids. With repeated ids the source's degree map merges nodes.
- `typeof` checks in the validator always pass on typed records. A missing string is modelled as the empty string, which JavaScript also treats as falsy.
- `toLowerCase` lowers the letters A-Z, U+00C0-U+00DE except U+00D7, and the Cyrillic capitals U+0400-U+042F. Every other character is kept as it is: capitals of other scripts (Greek, Armenian, Latin Extended and so on) are not lowered, and lowerings that change the length, such as U+0130 to "i" followed by U+0307, are not modelled. `trim` and `\s` are modelled with a fixed set of whitespace characters.
- The regular-expression helpers of the CSV enhancer (`cleanText`, `detectNoise`, `extractJuridicalRef`, the title and chapter matches) and the SHA-256 dedupe hash are inputs (`TextHelpers`, and the captured title and chapter). Their own logic is not modelled.
- `enrichChunksPreciso` and `enrichChunksHibrido` call a language model. `CsvOrchestrator.SelectMode` only decides which enrichment runs, and the LLM enrichment itself is left out.
- `onProgress` callbacks, `console` output, `Date.now()`, `new Date()` and `performance.now()` are left out or passed in as values.
- `RAGService`: the database searches (`searchByKeywords`, `fullTextSearch`), `buildPrompt` and the language model are not modelled. Their results are parameters.
- AuditLog.AuditLogger: log `details` are reduced to the operation id and the message. `generateReport` is not part of this model.
- Coherence: only `countSyllables` and `addCoesion` are modelled. The other text transformations of the coherence service are regular-expression rewrites and are not part of this model.
- The `hierarquico` link type is never produced by the source. It is kept in the type order only.
- GraphBuilder.BuildIndex: models the index the code evidently intends, a dictionary without inherited entries. As written, the source throws a TypeError on the keywords "constructor" and "__proto__"; `ObjectIndex` models that behaviour (see Findings).
- GraphBuilder.IndexNode: the same intended dictionary; the throw of the inner loop as written is `ObjectIndex.PushAllAsWrittenThrows`.
- GraphGeneration.GenerateGraphFromClusters: built on the intended index, so it returns a graph where the source throws, exactly when a point has the keyword "constructor" or "__proto__" after lowercasing and trimming (`ObjectIndex.IndexAsWrittenThrows`). It is also built on the intended degree map: see the next line.
- GraphGeneration.DegreeMap, GraphGeneration.Centralities, GraphGeneration.ComputeMetrics, GraphGeneration.CentralityKeepsIds, GraphGeneration.BuiltNodes, GraphGeneration.BuiltMetrics, GraphGeneration.BuiltAverageDegree, GraphGeneration.BuiltCentrality, GraphGeneration.BuiltGraphOk and GraphGeneration.BuiltGraphValid: these describe the degree map the code evidently intends, with no inherited entries. As written, a node id that names a member of `Object.prototype` ("toString", "valueOf", "constructor" and so on) reads an inherited member. That node's centrality and the average degree are then NaN, and the validator rejects the graph at the node check. `ObjectDegree` models that behaviour (see Findings).
- CsvEnhancer.EnrichChunkForCSV: `created_at` and the fallback of `Timestamp_Upload` come from two `new Date()` calls in the source; the model gives both the same `now`.

## Findings

| source | as written | input that shows it | evidently intended | confidence | as-written member | corrected member |
|---|---|---|---|---|---|---|
| services/validator.ts:164 | `validateGraph` tests `metrics.averageDegree`, but the builder writes `avgDegree` (services/mockDataService.ts:639). `typeof undefined !== 'number'`, so the last guard always throws. | any graph that passes the earlier checks, e.g. every graph `generateGraphFromClusters` builds from labelled points whose ids do not name members of `Object.prototype` | check `metrics.avgDegree >= 0` | not executed | Validator.ValidateGraphAsWrittenRejectsAll | Validator.ValidateGraph |
| services/mockDataService.ts:492-498 | `keywordToNodeIndices` is a plain object, so the keywords "constructor" and "__proto__" read an inherited, truthy member of `Object.prototype`; no bucket is created and `.push` is not a function | a point with keywords ["Constructor"] (or ["__proto__"]): `generateGraphFromClusters` throws a TypeError | a bucket for every keyword, as with `Object.create(null)` or a `Map` | not executed | ObjectIndex.ConstructorKeywordThrows | GraphBuilder.BuildIndex |
| services/mockDataService.ts:507 | the link key is the two node ids joined with "-", so different pairs can share a key | ids "a-b", "c", "a", "b-c": pairs (0, 1) and (2, 3) both give "a-b-c", and the second link is merged into the first | key links by the unordered pair of nodes | not executed | GraphLinks.SourceKeysCollide | GraphLinks.KeyOfInjective |
| services/mockDataService.ts:609-622 | `degreeMap` is a plain object and node ids are not normalised, so an id that names a member of `Object.prototype` reads an inherited function; `deg / (n - 1 \|\| 1)` is NaN and `totalDegree += deg` becomes a string | one labelled point with id "toString": its centrality and `avgDegree` are NaN, and `validateGraph` rejects the graph at the centrality check | count degrees in a dictionary without inherited entries, as with `Object.create(null)` or a `Map` | not executed | ObjectDegree.ToStringIdCounterexample | GraphGeneration.CentralityKeepsIds |
