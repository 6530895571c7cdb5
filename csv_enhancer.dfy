/**
 * The row-level helpers of the CSV enhancer: the file-name classifier, the
 * hierarchy-path and dedupe-group builders, the token counter, the layout of one
 * enriched row, first-occurrence deduplication and the quality report.
 * The regular-expression cleaners and detectors and the SHA-256 hash are taken
 * as given functions (`TextHelpers`).
 */
module CsvEnhancer {
  import opened Js
  import opened Types

  // ---------------------------------------------------------------------------
  // Law family of a source file
  // ---------------------------------------------------------------------------

  datatype Family = Family(docFamily: string, lawName: string)

  const CF88 := Family("CF88", "Constituição Federal de 1988")
  const CPC2015 := Family("CPC2015", "Código de Processo Civil")
  const Vade := Family("VADE", "Vade Mecum")
  const Clt := Family("CLT", "Consolidação das Leis do Trabalho")
  const CC2002 := Family("CC2002", "Código Civil")
  const Unknown := Family("UNKNOWN", "Não identificada")

  /** The CLT marker as the classifier spells it: a Latin "cl" followed by the Cyrillic letter te. */
  const CltMarker: string := "cl" + ['\U{442}']

  /** `mapDocToFamily`: the first family whose marker occurs in the lowercased file name. */
  function MapDocToFamily(sourceFile: string): (r: Family)
    ensures r in {CF88, CPC2015, Vade, Clt, CC2002, Unknown}
  {
    var lower := LowerStr(sourceFile);
    if Contains(lower, "constituicao") || Contains(lower, "cf88") || Contains(lower, "cf/88") then CF88
    else if Contains(lower, "cpc") || Contains(lower, "processo civil") || Contains(lower, "modelos") then CPC2015
    else if Contains(lower, "vade") || Contains(lower, "mecum") then Vade
    else if Contains(lower, CltMarker) || Contains(lower, "consolidacao laboral") then Clt
    else if Contains(lower, "cc") || Contains(lower, "civil") then CC2002
    else Unknown
  }

  /** The classification ignores letter case. */
  lemma MapDocToFamilyIgnoresCase(sourceFile: string)
    ensures MapDocToFamily(LowerStr(sourceFile)) == MapDocToFamily(sourceFile)
  {
    LowerStrIdempotent(sourceFile);
  }

  /** Lowercasing a character below the Cyrillic block keeps it below the block. */
  lemma LowerBelowCyrillic(c: char)
    requires c < '\U{400}'
    ensures Lower(c) < '\U{400}'
  {
  }

  /**
   * A file name written without Cyrillic letters never contains the CLT marker, so it is
   * classified CLT only through "consolidacao laboral", and only when no earlier family matched.
   */
  lemma {:induction false} LatinNameReachesCltOnlyByPhrase(sourceFile: string)
    requires forall i :: 0 <= i < |sourceFile| ==> sourceFile[i] < '\U{400}'
    ensures !Contains(LowerStr(sourceFile), CltMarker)
    ensures MapDocToFamily(sourceFile) == Clt ==> Contains(LowerStr(sourceFile), "consolidacao laboral")
  {
    var lower := LowerStr(sourceFile);
    if Contains(lower, CltMarker) {
      var i := ContainsWitness(lower, CltMarker);
      assert lower[i + 2] == CltMarker[2] == '\U{442}';
      LowerBelowCyrillic(sourceFile[i + 2]);
      assert false;
    }
  }

  // ---------------------------------------------------------------------------
  // Hierarchy path, dedupe group, token count
  // ---------------------------------------------------------------------------

  const NoReference: string := "Sem Referência"
  const PathSeparator: string := " > "

  /**
   * The parts `buildHierarchyPath` collects: the family, the title and chapter numbers
   * the text mentions (the captured groups of the title and chapter patterns, when they
   * match), and the unit reference unless it is the no-reference marker.
   */
  function HierarchyParts(docFamily: string, unitRef: string, title: Option<string>, chapter: Option<string>): seq<string>
  {
    [docFamily]
    + (if title.Some? then ["Título " + title.value] else [])
    + (if chapter.Some? then ["Capítulo " + chapter.value] else [])
    + (if unitRef != NoReference then [unitRef] else [])
  }

  /** `buildHierarchyPath`; its unit-type argument is never read. */
  function BuildHierarchyPath(docFamily: string, unitType: string, unitRef: string, title: Option<string>, chapter: Option<string>): string
  {
    Join(HierarchyParts(docFamily, unitRef, title, chapter), PathSeparator)
  }

  /**
   * The path starts with the family, holds one part per matched title, chapter and
   * reference, in that order, and splits back into its parts at " > " when none of them
   * contains a '>'.
   */
  lemma {:induction false} HierarchyPathSplits(docFamily: string, unitType: string, unitRef: string, title: Option<string>, chapter: Option<string>)
    requires '>' !in docFamily && '>' !in unitRef
    requires title.Some? ==> '>' !in title.value
    requires chapter.Some? ==> '>' !in chapter.value
    ensures var parts := HierarchyParts(docFamily, unitRef, title, chapter);
      && Split(BuildHierarchyPath(docFamily, unitType, unitRef, title, chapter), PathSeparator) == parts
      && parts[0] == docFamily
      && |parts| == 1 + (if title.Some? then 1 else 0) + (if chapter.Some? then 1 else 0) + (if unitRef != NoReference then 1 else 0)
      && (title.Some? ==> parts[1] == "Título " + title.value)
      && (unitRef != NoReference ==> parts[|parts| - 1] == unitRef)
  {
    var parts := HierarchyParts(docFamily, unitRef, title, chapter);
    assert PathSeparator[1] == '>' && PathSeparator[0] == ' ' && PathSeparator[2] == ' ';
    forall k | 0 <= k < |parts|
      ensures '>' !in parts[k]
    {
      assert '>' !in "Título " && '>' !in "Capítulo ";
    }
    SplitJoinMarked(parts, PathSeparator, 1);
  }

  /** `calculateDedupeGroup`: `source|p<page>|ref` with each whitespace run replaced by "_". */
  function DedupeGroup(sourceFile: string, pageStart: int, unitRef: string): (r: string)
    ensures NoSpace(r)
  {
    ReplaceWsRuns(sourceFile + "|p" + IntToString(pageStart) + "|" + unitRef, "_")
  }

  /** The group is the whitespace-normalised file name, the page, and the whitespace-normalised reference. */
  lemma DedupeGroupFields(sourceFile: string, pageStart: int, unitRef: string)
    ensures DedupeGroup(sourceFile, pageStart, unitRef)
      == ReplaceWsRuns(sourceFile, "_") + "|p" + IntToString(pageStart) + "|" + ReplaceWsRuns(unitRef, "_")
  {
    var mid := "|p" + IntToString(pageStart) + "|";
    MiddleNoSpace(pageStart);
    ReplaceWsRunsNoSpace(mid, "_");
    ConcatRegroup(sourceFile, "|p", IntToString(pageStart), "|", unitRef);
    ReplaceWsRunsAppend(sourceFile, mid, "_");
    ReplaceWsRunsAppend(sourceFile + mid, unitRef, "_");
    ConcatRegroup(ReplaceWsRuns(sourceFile, "_"), "|p", IntToString(pageStart), "|", ReplaceWsRuns(unitRef, "_"));
  }

  /** The page part of the group holds no whitespace and ends in '|'. */
  lemma MiddleNoSpace(pageStart: int)
    ensures NoSpace("|p" + IntToString(pageStart) + "|")
  {
  }

  lemma ConcatRegroup(a: string, b: string, c: string, d: string, e: string)
    ensures a + b + c + d + e == (a + (b + c + d)) + e
  {
  }

  /** `countTokens`: the number of whitespace-separated pieces of the trimmed text. */
  function CountTokens(text: string): (r: nat)
    ensures r >= 1
  {
    |SplitWs(Trim(text))|
  }

  /** Empty or blank text still counts one token. */
  lemma CountTokensBlank(text: string)
    requires IsBlank(text)
    ensures CountTokens(text) == 1
  {
  }

  /** Words joined by single spaces count one token each. */
  lemma CountTokensOfWords(words: seq<string>)
    requires |words| >= 1 && forall k :: 0 <= k < |words| ==> |words[k]| > 0 && NoSpace(words[k])
    ensures CountTokens(Join(words, " ")) == |words|
  {
    var s := Join(words, " ");
    JoinedWordsEnd(words, " ");
    assert TrimStart(s) == s;
    assert Trim(s) == s;
    SplitWsJoin(words);
  }

  // ---------------------------------------------------------------------------
  // One enriched row
  // ---------------------------------------------------------------------------

  datatype NoiseVerdict = NoiseVerdict(isNoise: bool, reason: string)

  datatype UnitReference = UnitReference(unitType: string, unitRef: string)

  /**
   * The regular-expression helpers of the enhancer and its SHA-256 hash, which this model
   * takes as given: `cleanText`, `detectNoise`, `extractJuridicalRef(text, family)`,
   * `calculateDedupeHash`, and the captured group of the title and chapter patterns.
   */
  datatype TextHelpers = TextHelpers(
    clean: string -> string,
    noise: string -> NoiseVerdict,
    juridical: (string, string) -> UnitReference,
    dedupeHash: string -> string,
    titleMatch: string -> Option<string>,
    chapterMatch: string -> Option<string>)

  /**
   * `CSVRow`. The last nine fields are the columns kept for the previous version of the
   * export: `Chunk_ID`, `Arquivo`, `Pagina`, `Tipo_Entidade_IA`, `Rotulo_Entidade`,
   * `Provedor_IA`, `Timestamp_Upload`, `Conteudo_Original` and `Conteudo_Processado`.
   */
  datatype CsvRow = CsvRow(
    chunkId: string,
    sourceFile: string,
    docFamily: string,
    lawName: string,
    pageStart: int,
    pageEnd: int,
    chunkIndex: nat,
    unitType: string,
    unitRef: string,
    hierarchyPath: string,
    isNoise: bool,
    noiseReason: string,
    dedupeHash: string,
    dedupeGroup: string,
    tokenCount: nat,
    charLen: nat,
    language: string,
    textRaw: string,
    textClean: string,
    createdAt: string,
    legacyChunkId: string,
    legacyFile: string,
    legacyPage: int,
    legacyEntityType: string,
    legacyEntityLabel: string,
    legacyProvider: string,
    legacyUploadTime: string,
    legacyOriginal: string,
    legacyProcessed: string)

  /** `chunk.pageNumber || 1`: an absent or zero page number becomes 1. */
  function PageOrOne(pageNumber: Option<int>): (r: int)
    ensures r != 0
    ensures pageNumber.Some? && pageNumber.value != 0 ==> r == pageNumber.value
    ensures pageNumber.None? || pageNumber.value == 0 ==> r == 1
  {
    if pageNumber.Some? && pageNumber.value != 0 then pageNumber.value else 1
  }

  /** `enrichChunkForCSV`, with the timestamp `now` given. */
  function EnrichChunkForCSV(chunk: DocumentChunk, chunkIndex: nat, sourceFile: string, h: TextHelpers, now: string): (row: CsvRow)
    ensures row.chunkId == chunk.id && row.sourceFile == sourceFile && row.chunkIndex == chunkIndex
    ensures row.pageStart == row.pageEnd == PageOrOne(chunk.pageNumber)
    ensures row.language == "pt" && row.textRaw == chunk.content && row.createdAt == now
    ensures row.textClean == h.clean(chunk.content) && row.charLen == Utf16Length(row.textClean)
    ensures row.docFamily == MapDocToFamily(sourceFile).docFamily && row.lawName == MapDocToFamily(sourceFile).lawName
    ensures row.tokenCount >= 1 && NoSpace(row.dedupeGroup)
    ensures StartsWith(row.hierarchyPath, row.docFamily)
    ensures row.legacyChunkId == chunk.id && row.legacyFile == sourceFile && row.legacyPage == row.pageStart
    ensures row.legacyEntityType == OrElse(chunk.entityType, row.unitType)
    ensures row.legacyEntityLabel == OrElse(chunk.entityLabel, row.unitRef)
    ensures row.legacyProvider == OrElse(chunk.aiProvider, "unknown") && row.legacyUploadTime == OrElse(chunk.uploadTime, now)
    ensures row.legacyOriginal == OrElse(chunk.contentOriginal, chunk.content) && row.legacyProcessed == row.textClean
  {
    var family := MapDocToFamily(sourceFile);
    var textClean := h.clean(chunk.content);
    var verdict := h.noise(textClean);
    var unit := h.juridical(textClean, family.docFamily);
    var page := PageOrOne(chunk.pageNumber);
    var parts := HierarchyParts(family.docFamily, unit.unitRef, h.titleMatch(textClean), h.chapterMatch(textClean));
    var path := Join(parts, PathSeparator);
    assert StartsWith(path, family.docFamily) by {
      assert |parts| == 1 || path == parts[0] + PathSeparator + Join(parts[1..], PathSeparator);
    }
    CsvRow(
      chunk.id, sourceFile, family.docFamily, family.lawName, page, page, chunkIndex,
      unit.unitType, unit.unitRef, path, verdict.isNoise, verdict.reason,
      h.dedupeHash(textClean), DedupeGroup(sourceFile, page, unit.unitRef),
      CountTokens(textClean), Utf16Length(textClean), "pt", chunk.content, textClean, now,
      chunk.id, sourceFile, page, OrElse(chunk.entityType, unit.unitType), OrElse(chunk.entityLabel, unit.unitRef),
      OrElse(chunk.aiProvider, "unknown"), OrElse(chunk.uploadTime, now), OrElse(chunk.contentOriginal, chunk.content),
      textClean)
  }

  // ---------------------------------------------------------------------------
  // Deduplication
  // ---------------------------------------------------------------------------

  function DedupeKey(row: CsvRow): string
  {
    row.dedupeHash + "|" + row.dedupeGroup
  }

  function Keys(rows: seq<CsvRow>): set<string>
  {
    set i | 0 <= i < |rows| :: DedupeKey(rows[i])
  }

  /** The rows deduplication keeps: each row whose key no earlier row had, in input order. */
  function FirstOccurrences(rows: seq<CsvRow>): seq<CsvRow>
  {
    if |rows| == 0 then []
    else
      var kept := FirstOccurrences(rows[..|rows| - 1]);
      var row := rows[|rows| - 1];
      if DedupeKey(row) in Keys(kept) then kept else kept + [row]
  }

  lemma KeysSnoc(rows: seq<CsvRow>, row: CsvRow)
    ensures Keys(rows + [row]) == Keys(rows) + {DedupeKey(row)}
  {
    assert forall i :: 0 <= i < |rows| ==> (rows + [row])[i] == rows[i];
    assert (rows + [row])[|rows|] == row;
  }

  /** The kept rows have pairwise distinct keys, and every key of the input is kept. */
  lemma {:induction false} FirstOccurrencesKeys(rows: seq<CsvRow>)
    ensures var r := FirstOccurrences(rows);
      && (forall i, j :: 0 <= i < j < |r| ==> DedupeKey(r[i]) != DedupeKey(r[j]))
      && Keys(r) == Keys(rows)
  {
    if |rows| > 0 {
      var init, row := rows[..|rows| - 1], rows[|rows| - 1];
      FirstOccurrencesKeys(init);
      assert rows == init + [row];
      KeysSnoc(init, row);
      var kept := FirstOccurrences(init);
      if DedupeKey(row) !in Keys(kept) {
        KeysSnoc(kept, row);
        var r := kept + [row];
        forall i, j | 0 <= i < j < |r|
          ensures DedupeKey(r[i]) != DedupeKey(r[j])
        {
          if j == |kept| {
            assert DedupeKey(r[i]) in Keys(kept) by { assert r[i] == kept[i]; }
          }
        }
      }
    }
  }

  /** The kept rows appear in the input, in the same order. */
  lemma {:induction false} FirstOccurrencesInOrder(rows: seq<CsvRow>)
    ensures SubsequenceOf(FirstOccurrences(rows), rows)
  {
    if |rows| > 0 {
      var init, row := rows[..|rows| - 1], rows[|rows| - 1];
      FirstOccurrencesInOrder(init);
      var kept := FirstOccurrences(init);
      if DedupeKey(row) in Keys(kept) {
        SubsequenceLonger(kept, init, row);
      } else {
        assert (kept + [row])[..|kept|] == kept;
      }
    }
  }

  /** The row kept for a key is the first row with that key. */
  lemma {:induction false} FirstOccurrencesFirst(rows: seq<CsvRow>, i: nat)
    requires i < |rows| && forall j :: 0 <= j < i ==> DedupeKey(rows[j]) != DedupeKey(rows[i])
    ensures rows[i] in FirstOccurrences(rows)
  {
    var init, row := rows[..|rows| - 1], rows[|rows| - 1];
    var kept := FirstOccurrences(init);
    if i < |rows| - 1 {
      FirstOccurrencesFirst(init, i);
    } else {
      assert DedupeKey(row) !in Keys(kept) by {
        FirstOccurrencesKeys(init);
        forall m | 0 <= m < |init|
          ensures DedupeKey(init[m]) != DedupeKey(row)
        {
          assert rows[m] == init[m];
        }
      }
    }
  }

  /** `deduplicateRows`: keeps the first row of each (hash, group) key and counts the rest. */
  method DeduplicateRows(rows: seq<CsvRow>) returns (deduped: seq<CsvRow>, duplicatesRemoved: nat)
    ensures deduped == FirstOccurrences(rows)
    ensures |deduped| + duplicatesRemoved == |rows|
  {
    var seen: set<string> := {};
    deduped, duplicatesRemoved := [], 0;
    for i := 0 to |rows|
      invariant deduped == FirstOccurrences(rows[..i])
      invariant seen == Keys(deduped)
      invariant |deduped| + duplicatesRemoved == i
    {
      var row := rows[i];
      var key := DedupeKey(row);
      assert rows[..i + 1] == rows[..i] + [row];
      if key !in seen {
        KeysSnoc(deduped, row);
        seen := seen + {key};
        deduped := deduped + [row];
      } else {
        duplicatesRemoved := duplicatesRemoved + 1;
      }
    }
    assert rows[..|rows|] == rows;
  }

  // ---------------------------------------------------------------------------
  // Quality report
  // ---------------------------------------------------------------------------

  datatype QualityReport = QualityReport(
    totalRows: nat,
    noiseRows: nat,
    cleanRows: int,
    noisePercentage: real,
    avgTokenCount: real,
    avgCharLen: real,
    noiseBreakdown: map<string, nat>,
    families: set<string>,
    laws: set<string>)

  function NoiseCount(rows: seq<CsvRow>): nat
  {
    if |rows| == 0 then 0 else NoiseCount(rows[..|rows| - 1]) + (if rows[|rows| - 1].isNoise then 1 else 0)
  }

  /** The number of noise rows with the given reason. */
  function ReasonCount(rows: seq<CsvRow>, reason: string): nat
  {
    if |rows| == 0 then 0
    else ReasonCount(rows[..|rows| - 1], reason) + (if rows[|rows| - 1].isNoise && rows[|rows| - 1].noiseReason == reason then 1 else 0)
  }

  function TotalTokens(rows: seq<CsvRow>): nat
  {
    if |rows| == 0 then 0 else TotalTokens(rows[..|rows| - 1]) + rows[|rows| - 1].tokenCount
  }

  function TotalChars(rows: seq<CsvRow>): nat
  {
    if |rows| == 0 then 0 else TotalChars(rows[..|rows| - 1]) + rows[|rows| - 1].charLen
  }

  /** The noise breakdown: for every reason some noise row gives, how many noise rows give it. */
  function Breakdown(rows: seq<CsvRow>): (m: map<string, nat>)
  {
    if |rows| == 0 then map[]
    else
      var m := Breakdown(rows[..|rows| - 1]);
      var row := rows[|rows| - 1];
      if row.isNoise then m[row.noiseReason := (if row.noiseReason in m then m[row.noiseReason] else 0) + 1] else m
  }

  /** The sum of the values of `m` at the keys `ks`, in no particular key order. */
  ghost function SumOver(m: map<string, nat>, ks: set<string>): nat
    requires ks <= m.Keys
    decreases ks
  {
    if ks == {} then 0
    else
      var k :| k in ks;
      m[k] + SumOver(m, ks - {k})
  }

  /** `Object.values(m).reduce((a, b) => a + b, 0)`. */
  ghost function MapSum(m: map<string, nat>): nat
  {
    SumOver(m, m.Keys)
  }

  /** The sum does not depend on which key is taken first. */
  lemma {:induction false} SumOverRemove(m: map<string, nat>, ks: set<string>, k: string)
    requires ks <= m.Keys && k in ks
    ensures SumOver(m, ks) == m[k] + SumOver(m, ks - {k})
    decreases ks
  {
    var k0 :| k0 in ks && SumOver(m, ks) == m[k0] + SumOver(m, ks - {k0});
    if k0 != k {
      SumOverRemove(m, ks - {k0}, k);
      SumOverRemove(m, ks - {k}, k0);
      assert ks - {k0} - {k} == ks - {k} - {k0};
    }
  }

  lemma {:induction false} SumOverSame(m: map<string, nat>, m': map<string, nat>, ks: set<string>)
    requires ks <= m.Keys && ks <= m'.Keys
    requires forall k :: k in ks ==> m[k] == m'[k]
    ensures SumOver(m, ks) == SumOver(m', ks)
    decreases ks
  {
    if ks != {} {
      var k :| k in ks && SumOver(m, ks) == m[k] + SumOver(m, ks - {k});
      SumOverRemove(m', ks, k);
      SumOverSame(m, m', ks - {k});
    }
  }

  lemma MapSumUpdate(m: map<string, nat>, k: string, v: nat)
    ensures MapSum(m[k := v]) == MapSum(m) - (if k in m then m[k] else 0) + v
  {
    var m' := m[k := v];
    SumOverRemove(m', m'.Keys, k);
    assert m'.Keys - {k} == m.Keys - {k};
    SumOverSame(m', m, m.Keys - {k});
    if k in m {
      SumOverRemove(m, m.Keys, k);
    } else {
      assert m.Keys - {k} == m.Keys;
    }
  }

  /** The breakdown counts every noise row once: its values add up to the number of noise rows, one entry per reason. */
  lemma {:induction false} BreakdownTotal(rows: seq<CsvRow>)
    ensures MapSum(Breakdown(rows)) == NoiseCount(rows)
    ensures forall r :: r in Breakdown(rows) <==> ReasonCount(rows, r) > 0
    ensures forall r :: r in Breakdown(rows) ==> Breakdown(rows)[r] == ReasonCount(rows, r)
  {
    if |rows| > 0 {
      var init, row := rows[..|rows| - 1], rows[|rows| - 1];
      BreakdownTotal(init);
      var m := Breakdown(init);
      if row.isNoise {
        MapSumUpdate(m, row.noiseReason, (if row.noiseReason in m then m[row.noiseReason] else 0) + 1);
      }
    }
  }

  /** `generateQualityReport`. */
  method GenerateQualityReport(rows: seq<CsvRow>) returns (report: QualityReport)
    ensures report.totalRows == |rows|
    ensures report.noiseRows == NoiseCount(rows) && report.cleanRows == |rows| - NoiseCount(rows)
    ensures forall r :: r in report.noiseBreakdown <==> ReasonCount(rows, r) > 0
    ensures forall r :: r in report.noiseBreakdown ==> report.noiseBreakdown[r] == ReasonCount(rows, r)
    ensures |rows| == 0 ==> report.noisePercentage == 0.0 && report.avgTokenCount == 0.0 && report.avgCharLen == 0.0
    ensures |rows| > 0 ==> report.noisePercentage == NoiseCount(rows) as real / |rows| as real * 100.0
    ensures |rows| > 0 ==> report.avgTokenCount == TotalTokens(rows) as real / |rows| as real
    ensures |rows| > 0 ==> report.avgCharLen == TotalChars(rows) as real / |rows| as real
    ensures report.families == set i | 0 <= i < |rows| :: rows[i].docFamily
    ensures report.laws == set i | 0 <= i < |rows| :: rows[i].lawName
  {
    var breakdown: map<string, nat> := map[];
    var totalTokens, totalChars := 0, 0;
    for i := 0 to |rows|
      invariant breakdown == Breakdown(rows[..i])
      invariant totalTokens == TotalTokens(rows[..i]) && totalChars == TotalChars(rows[..i])
    {
      var row := rows[i];
      assert rows[..i + 1][..i] == rows[..i];
      if row.isNoise {
        breakdown := breakdown[row.noiseReason := (if row.noiseReason in breakdown then breakdown[row.noiseReason] else 0) + 1];
      }
      totalTokens := totalTokens + row.tokenCount;
      totalChars := totalChars + row.charLen;
    }
    assert rows[..|rows|] == rows;
    BreakdownTotal(rows);

    var noiseCount := 0;
    var left := breakdown.Keys;
    while left != {}
      invariant left <= breakdown.Keys
      invariant noiseCount + SumOver(breakdown, left) == MapSum(breakdown)
      decreases left
    {
      var k :| k in left;
      SumOverRemove(breakdown, left, k);
      noiseCount := noiseCount + breakdown[k];
      left := left - {k};
    }

    var n := |rows|;
    report := QualityReport(
      n, noiseCount, n - noiseCount,
      if n > 0 then noiseCount as real / n as real * 100.0 else 0.0,
      if n > 0 then totalTokens as real / n as real else 0.0,
      if n > 0 then totalChars as real / n as real else 0.0,
      breakdown,
      set i | 0 <= i < |rows| :: rows[i].docFamily,
      set i | 0 <= i < |rows| :: rows[i].lawName);
  }
}
