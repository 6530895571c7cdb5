/**
 * The orchestration of CSV enrichment: the fast ("rapido") enrichment loop, the choice
 * between the three enrichment modes, the CSV export with its fixed header and quoting,
 * and the processing-time summary.
 */
module CsvOrchestrator {
  import opened Js
  import opened Types
  import opened CsvEnhancer

  /** Which enrichment produced a result. */
  datatype ResultSource = Regex | Llm | Hybrid

  function SourceName(s: ResultSource): (r: string)
    ensures |r| > 0
  {
    match s
    case Regex => "regex"
    case Llm => "llm"
    case Hybrid => "hybrid"
  }

  datatype EnrichedChunkResult = EnrichedChunkResult(
    chunk: DocumentChunk,
    csvRow: CsvRow,
    source: ResultSource,
    processingTimeMs: int)

  // ---------------------------------------------------------------------------
  // Fast enrichment and mode dispatch
  // ---------------------------------------------------------------------------

  /**
   * `enrichChunksRapido`: one result per chunk, in input order. The clock readings and
   * the timestamps are given: `elapsed(i)` is the time spent on chunk `i`, and
   * `createdAt(i)` the timestamp written into its row.
   */
  method EnrichChunksRapido(chunks: seq<DocumentChunk>, sourceFile: string, h: TextHelpers,
                            elapsed: nat -> int, createdAt: nat -> string)
    returns (results: seq<EnrichedChunkResult>)
    ensures |results| == |chunks|
    ensures forall i :: 0 <= i < |chunks| ==>
      && results[i].chunk == chunks[i]
      && results[i].source == Regex
      && results[i].processingTimeMs == elapsed(i)
      && results[i].csvRow == EnrichChunkForCSV(chunks[i], i, sourceFile, h, createdAt(i))
  {
    ghost var want := seq(|chunks|, j requires 0 <= j < |chunks| => RapidoResult(chunks[j], j, sourceFile, h, elapsed, createdAt));
    results := [];
    for i := 0 to |chunks|
      invariant results == want[..i]
    {
      results := results + [RapidoResult(chunks[i], i, sourceFile, h, elapsed, createdAt)];
      TakeSnoc(want, i);
    }
    assert want[..|chunks|] == want;
  }

  /** The result the loop of `enrichChunksRapido` records for chunk `i`. */
  function RapidoResult(chunk: DocumentChunk, i: nat, sourceFile: string, h: TextHelpers,
                        elapsed: nat -> int, createdAt: nat -> string): EnrichedChunkResult
  {
    EnrichedChunkResult(chunk, EnrichChunkForCSV(chunk, i, sourceFile, h, createdAt(i)), Regex, elapsed(i))
  }

  /** What `enrichChunksWithMode` goes on to do for a mode and an optional LLM configuration. */
  datatype Dispatch = RunRapido | RunPreciso | RunHibrido | Fail(message: string)

  /** The `switch` of `enrichChunksWithMode`. */
  function SelectMode(mode: string, hasLlmConfig: bool): (r: Dispatch)
    ensures r == RunRapido <==> mode == "rapido"
    ensures r == RunPreciso <==> mode == "preciso" && hasLlmConfig
    ensures r == RunHibrido <==> mode == "hibrido" && hasLlmConfig
    ensures r.Fail? <==> (mode != "rapido" && mode != "preciso" && mode != "hibrido") || (!hasLlmConfig && (mode == "preciso" || mode == "hibrido"))
    ensures r.Fail? && mode != "preciso" && mode != "hibrido" ==> r.message == "Unknown enrichment mode: " + mode
  {
    if mode == "rapido" then RunRapido
    else if mode == "preciso" then
      (if hasLlmConfig then RunPreciso else Fail("LLM config required for preciso mode"))
    else if mode == "hibrido" then
      (if hasLlmConfig then RunHibrido else Fail("LLM config required for hibrido mode"))
    else Fail("Unknown enrichment mode: " + mode)
  }

  // ---------------------------------------------------------------------------
  // CSV export
  // ---------------------------------------------------------------------------

  const Headers: seq<string> := [
    "chunk_id", "source_file", "doc_family", "law_name", "unit_type", "unit_ref",
    "hierarchy_path", "page_start", "page_end", "is_noise", "noise_reason",
    "token_count", "char_len", "language", "created_at", "confidence", "text_clean"
  ]

  const HeaderLine: string := Join(Headers, ",")

  /** `String(row[header])`, or `None` when the row has no such field. */
  function FieldValue(row: CsvRow, header: string): Option<string>
  {
    match header
    case "chunk_id" => Some(row.chunkId)
    case "source_file" => Some(row.sourceFile)
    case "doc_family" => Some(row.docFamily)
    case "law_name" => Some(row.lawName)
    case "unit_type" => Some(row.unitType)
    case "unit_ref" => Some(row.unitRef)
    case "hierarchy_path" => Some(row.hierarchyPath)
    case "page_start" => Some(IntToString(row.pageStart))
    case "page_end" => Some(IntToString(row.pageEnd))
    case "is_noise" => Some(if row.isNoise then "1" else "0")
    case "noise_reason" => Some(row.noiseReason)
    case "token_count" => Some(NatToString(row.tokenCount))
    case "char_len" => Some(NatToString(row.charLen))
    case "language" => Some(row.language)
    case "created_at" => Some(row.createdAt)
    case "text_clean" => Some(row.textClean)
    case _ => None
  }

  /** Every `"` doubled. */
  function Escape(s: string): string
  {
    if |s| == 0 then "" else (if s[0] == '"' then "\"\"" else [s[0]]) + Escape(s[1..])
  }

  /** One exported field: empty for a missing value, otherwise the value quoted with its quotes doubled. */
  function Quote(v: Option<string>): string
  {
    if v.None? then "" else "\"" + Escape(v.value) + "\""
  }

  /** Every doubled `"` read back as one. */
  function Unescape(t: string): string
  {
    if |t| == 0 then ""
    else if |t| >= 2 && t[0] == '"' && t[1] == '"' then "\"" + Unescape(t[2..])
    else [t[0]] + Unescape(t[1..])
  }

  /** How a CSV reader reads a field back: outer quotes stripped, doubled quotes undoubled. */
  function Unquote(f: string): string
  {
    if |f| >= 2 then Unescape(f[1..|f| - 1]) else f
  }

  lemma {:induction false} UnescapeEscape(s: string)
    ensures Unescape(Escape(s)) == s
  {
    if |s| > 0 {
      UnescapeEscape(s[1..]);
      var e := Escape(s[1..]);
      if s[0] == '"' {
        assert Escape(s) == "\"\"" + e;
        assert (("\"\"" + e)[2..]) == e;
      } else {
        assert Escape(s) == [s[0]] + e;
        assert ([s[0]] + e)[1..] == e;
      }
    }
  }

  /** Reading an exported field back gives `String(value)`, and a missing value gives the empty field. */
  lemma QuoteRoundTrip(v: Option<string>)
    ensures v.Some? ==> Unquote(Quote(v)) == v.value
    ensures v.None? ==> Quote(v) == ""
  {
    if v.Some? {
      var q := Quote(v);
      assert q[1..|q| - 1] == Escape(v.value);
      UnescapeEscape(v.value);
    }
  }

  function RowFields(row: CsvRow): (r: seq<string>)
    ensures |r| == |Headers|
  {
    seq(|Headers|, i requires 0 <= i < |Headers| => Quote(FieldValue(row, Headers[i])))
  }

  function RowLine(row: CsvRow): string
  {
    Join(RowFields(row), ",")
  }

  /** The rows `exportEnrichedResultsToCSV` writes: every row when noise is included, otherwise only the clean ones. */
  function ExportedRows(results: seq<EnrichedChunkResult>, includeNoise: bool): seq<CsvRow>
  {
    if |results| == 0 then []
    else
      var rest := ExportedRows(results[..|results| - 1], includeNoise);
      var row := results[|results| - 1].csvRow;
      if includeNoise || !row.isNoise then rest + [row] else rest
  }

  function Rows(results: seq<EnrichedChunkResult>): (r: seq<CsvRow>)
    ensures |r| == |results|
  {
    seq(|results|, i requires 0 <= i < |results| => results[i].csvRow)
  }

  /**
   * With noise included every row is written; otherwise exactly the clean rows are
   * written, as many as the quality report counts clean, and none of them is noise.
   */
  lemma ExportedRowsSpec(results: seq<EnrichedChunkResult>)
    ensures ExportedRows(results, true) == Rows(results)
    ensures |ExportedRows(results, false)| == |results| - NoiseCount(Rows(results))
    ensures forall k :: 0 <= k < |ExportedRows(results, false)| ==> !ExportedRows(results, false)[k].isNoise
    ensures SubsequenceOf(ExportedRows(results, false), Rows(results))
  {
    ExportedAllRows(results);
    ExportedCleanRows(results);
    ExportedSubsequence(results);
  }

  lemma {:induction false} ExportedAllRows(results: seq<EnrichedChunkResult>)
    ensures ExportedRows(results, true) == Rows(results)
  {
    if |results| > 0 {
      ExportedAllRows(results[..|results| - 1]);
      RowsSnoc(results);
    }
  }

  lemma {:induction false} ExportedCleanRows(results: seq<EnrichedChunkResult>)
    ensures |ExportedRows(results, false)| == |results| - NoiseCount(Rows(results))
    ensures forall k :: 0 <= k < |ExportedRows(results, false)| ==> !ExportedRows(results, false)[k].isNoise
  {
    if |results| > 0 {
      var init := results[..|results| - 1];
      var row := results[|results| - 1].csvRow;
      ExportedCleanRows(init);
      RowsSnoc(results);
      SnocParts(Rows(init), row);
    }
  }

  lemma {:induction false} ExportedSubsequence(results: seq<EnrichedChunkResult>)
    ensures SubsequenceOf(ExportedRows(results, false), Rows(results))
  {
    if |results| > 0 {
      var init := results[..|results| - 1];
      var row := results[|results| - 1].csvRow;
      ExportedSubsequence(init);
      RowsSnoc(results);
      if row.isNoise {
        SubsequenceLonger(ExportedRows(init, false), Rows(init), row);
      } else {
        SubsequenceBoth(ExportedRows(init, false), Rows(init), row);
      }
    }
  }

  /** The rows of the results but the last, then the last one's. */
  lemma RowsSnoc(results: seq<EnrichedChunkResult>)
    requires |results| > 0
    ensures Rows(results) == Rows(results[..|results| - 1]) + [results[|results| - 1].csvRow]
  {
  }

  function RowLines(rows: seq<CsvRow>): (r: seq<string>)
    ensures |r| == |rows|
  {
    seq(|rows|, i requires 0 <= i < |rows| => RowLine(rows[i]))
  }

  lemma RowLinesSnoc(rows: seq<CsvRow>, row: CsvRow)
    ensures RowLines(rows + [row]) == RowLines(rows) + [RowLine(row)]
  {
    assert forall i :: 0 <= i < |rows| ==> (rows + [row])[i] == rows[i];
  }

  /** The rows the export writes, gathered in one pass over the results. */
  method FilterExported(results: seq<EnrichedChunkResult>, includeNoise: bool) returns (rows: seq<CsvRow>)
    ensures rows == ExportedRows(results, includeNoise)
  {
    rows := [];
    for i := 0 to |results|
      invariant rows == ExportedRows(results[..i], includeNoise)
    {
      assert results[..i + 1][..i] == results[..i];
      if includeNoise || !results[i].csvRow.isNoise {
        rows := rows + [results[i].csvRow];
      }
    }
    assert results[..|results|] == results;
  }

  /** The lines of the export: the given header line, then one line per row. */
  method CsvLines(header: string, rows: seq<CsvRow>) returns (lines: seq<string>)
    ensures lines == [header] + RowLines(rows)
  {
    lines := [header];
    for i := 0 to |rows|
      invariant lines == [header] + RowLines(rows[..i])
    {
      var line := RowLine(rows[i]);
      RowLinesSnoc(rows[..i], rows[i]);
      assert rows[..i + 1] == rows[..i] + [rows[i]];
      lines := lines + [line];
    }
    assert rows[..|rows|] == rows;
  }

  /** `exportEnrichedResultsToCSV`: the header line, then one line per written row, joined by line feeds. */
  method ExportEnrichedResultsToCSV(results: seq<EnrichedChunkResult>, includeNoise: bool) returns (csv: string)
    ensures csv == Join([HeaderLine] + RowLines(ExportedRows(results, includeNoise)), "\n")
  {
    var rows := FilterExported(results, includeNoise);
    var lines := CsvLines(HeaderLine, rows);
    csv := Join(lines, "\n");
  }

  lemma {:induction false} NoLineFeedInJoin(ps: seq<string>, sep: string)
    requires '\n' !in sep && forall k :: 0 <= k < |ps| ==> '\n' !in ps[k]
    ensures '\n' !in Join(ps, sep)
  {
    if |ps| > 1 {
      NoLineFeedInJoin(ps[1..], sep);
    }
  }

  lemma {:induction false} NoLineFeedInEscape(s: string)
    requires '\n' !in s
    ensures '\n' !in Escape(s)
  {
    if |s| > 0 {
      NoLineFeedInEscape(s[1..]);
    }
  }

  /** A row none of whose written values holds a line feed is written on one line. */
  predicate OneLineRow(row: CsvRow)
  {
    forall k :: 0 <= k < |Headers| && FieldValue(row, Headers[k]).Some? ==> '\n' !in FieldValue(row, Headers[k]).value
  }

  lemma RowLineHasNoLineFeed(row: CsvRow)
    requires OneLineRow(row)
    ensures '\n' !in RowLine(row)
  {
    var fs := RowFields(row);
    forall k | 0 <= k < |fs|
      ensures '\n' !in fs[k]
    {
      var v := FieldValue(row, Headers[k]);
      if v.Some? {
        NoLineFeedInEscape(v.value);
      }
    }
    NoLineFeedInJoin(fs, ",");
  }

  /** The header line is one line. */
  lemma HeaderLineOneLine()
    ensures '\n' !in HeaderLine
  {
    NoLineFeedInJoin(Headers, ",");
  }

  lemma SplitLinesFirst(header: string, rows: seq<CsvRow>)
    requires '\n' !in header
    ensures Split(Join([header] + RowLines(rows), "\n"), "\n")[0] == header
  {
    if |rows| == 0 {
      assert [header] + RowLines(rows) == [header];
      SplitMarkedWhole(header, "\n", 0);
    } else {
      assert ([header] + RowLines(rows))[1..] == RowLines(rows);
      SplitMarkedFirst(header, Join(RowLines(rows), "\n"), "\n", 0);
    }
  }

  lemma SplitLinesAll(header: string, rows: seq<CsvRow>)
    requires '\n' !in header
    requires forall k :: 0 <= k < |rows| ==> OneLineRow(rows[k])
    ensures Split(Join([header] + RowLines(rows), "\n"), "\n") == [header] + RowLines(rows)
  {
    var lines := [header] + RowLines(rows);
    forall k | 0 <= k < |lines|
      ensures '\n' !in lines[k]
    {
      if k > 0 {
        RowLineHasNoLineFeed(rows[k - 1]);
      }
    }
    SplitJoinMarked(lines, "\n", 0);
  }

  /**
   * The first line of the export is the header, and when no written value holds a line
   * feed the export has exactly one more line than it writes rows, line `k + 1` being row `k`.
   */
  lemma ExportLines(rows: seq<CsvRow>)
    ensures Split(Join([HeaderLine] + RowLines(rows), "\n"), "\n")[0] == HeaderLine
    ensures (forall k :: 0 <= k < |rows| ==> OneLineRow(rows[k])) ==>
      Split(Join([HeaderLine] + RowLines(rows), "\n"), "\n") == [HeaderLine] + RowLines(rows)
  {
    HeaderLineOneLine();
    SplitLinesFirst(HeaderLine, rows);
    if forall k :: 0 <= k < |rows| ==> OneLineRow(rows[k]) {
      SplitLinesAll(HeaderLine, rows);
    }
  }

  // ---------------------------------------------------------------------------
  // Processing-time summary
  // ---------------------------------------------------------------------------

  datatype TimeSummary = TimeSummary(mode: string, totalTimeMs: int, avgPerChunkMs: Num, chunksProcessed: nat)

  function TotalTime(results: seq<EnrichedChunkResult>): int
  {
    if |results| == 0 then 0 else TotalTime(results[..|results| - 1]) + results[|results| - 1].processingTimeMs
  }

  /** `compareProcessingTimes`; the average of no results is NaN (0 / 0). */
  function CompareProcessingTimes(results: seq<EnrichedChunkResult>): (r: TimeSummary)
    ensures r.chunksProcessed == |results| && r.totalTimeMs == TotalTime(results)
    ensures r.mode == if |results| == 0 then "unknown" else SourceName(results[0].source)
    ensures |results| == 0 <==> r.avgPerChunkMs.NaN?
    ensures |results| > 0 ==> r.avgPerChunkMs.Fin? && r.avgPerChunkMs.v * |results| as real == TotalTime(results) as real
  {
    var total := TotalTime(results);
    TimeSummary(
      if |results| > 0 then SourceName(results[0].source) else "unknown",
      total,
      Div(total as real, |results| as real),
      |results|)
  }

  /** The total time of two batches is the sum of their totals. */
  lemma {:induction false} TotalTimeAppend(a: seq<EnrichedChunkResult>, b: seq<EnrichedChunkResult>)
    ensures TotalTime(a + b) == TotalTime(a) + TotalTime(b)
  {
    if |b| == 0 {
      assert a + b == a;
    } else {
      TotalTimeAppend(a, b[..|b| - 1]);
      assert (a + b)[..|a + b| - 1] == a + b[..|b| - 1];
    }
  }
}
