/**
 * The `AuditLogger` of services/auditLogger.ts: a buffer of log entries and a map of the
 * operations started, keyed by operation id. The clocks (`Date.now()`, `new Date()`,
 * `performance.now()`) and the random part of an operation id are passed in by the caller.
 */
module AuditLog {
  import opened Js

  datatype Status = Start | Success | Error | Warning

  /** One `AuditLog`; `details` is reduced to the operation id and the message it may carry. */
  datatype LogEntry = LogEntry(
    timestamp: int,
    operation: string,
    status: Status,
    duration: Option<real>,
    operationId: Option<string>,
    message: Option<string>,
    error: Option<string>)

  /** One `PerformanceMetrics`: filled in by `endOperation`. */
  datatype Metric = Metric(
    operation: string,
    startTime: real,
    endTime: Option<real>,
    duration: Option<real>,
    itemsProcessed: Option<real>,
    throughput: Option<Num>)

  /** How many entries `endOperation` keeps. */
  const MaxLogs := 1000

  /** `logs.slice(-maxLogs)` when there are more than `maxLogs` entries, otherwise the entries as they are. */
  function KeepRecent(ls: seq<LogEntry>): (r: seq<LogEntry>)
    ensures |r| <= MaxLogs && |r| <= |ls|
    ensures r == ls[|ls| - |r|..]
    ensures |ls| <= MaxLogs ==> r == ls
    ensures |ls| > MaxLogs ==> |r| == MaxLogs
  {
    if |ls| > MaxLogs then ls[|ls| - MaxLogs..] else ls
  }

  /** JavaScript `xs.slice(start)`: a negative start counts back from the end. */
  function SliceFrom<T>(xs: seq<T>, start: int): (r: seq<T>)
    ensures |r| <= |xs| && r == xs[|xs| - |r|..]
    ensures start >= 0 ==> |r| == if start < |xs| then |xs| - start else 0
    ensures start < 0 ==> |r| == if -start < |xs| then -start else |xs|
  {
    if start >= 0 then (if start < |xs| then xs[start..] else [])
    else if -start < |xs| then xs[|xs| + start..] else xs
  }

  /** The statistics `getPerformanceStats` returns. */
  datatype PerformanceStats = PerformanceStats(
    count: nat, avgDuration: real, minDuration: real, maxDuration: real, totalDuration: real, successRate: real)

  /**
   * `logs.filter(log => log.operation === operation)`: every entry of the operation, as often
   * as the log holds it and in log order, and no other entry.
   */
  function OperationLogs(ls: seq<LogEntry>, operation: string): (r: seq<LogEntry>)
    ensures forall e :: e in r <==> e in ls && e.operation == operation
    ensures forall e :: multiset(r)[e] == if e.operation == operation then multiset(ls)[e] else 0
    ensures SubsequenceOf(r, ls)
  {
    FilterExact(ls, (e: LogEntry) => e.operation == operation);
    Filter(ls, (e: LogEntry) => e.operation == operation)
  }

  /** A success entry with a truthy (present, non-zero) duration. */
  predicate Timed(e: LogEntry)
  {
    e.status == Success && e.duration.Some? && e.duration.value != 0.0
  }

  /**
   * `opLogs.filter(l => l.status === 'success' && l.duration).map(l => l.duration!)`: the
   * durations of exactly the timed entries, in log order.
   */
  function Durations(ls: seq<LogEntry>): (r: seq<real>)
    ensures |r| == |Filter(ls, Timed)| <= |ls|
    ensures forall k :: 0 <= k < |r| ==> Timed(Filter(ls, Timed)[k]) && r[k] == Filter(ls, Timed)[k].duration.value
  {
    if |ls| == 0 then []
    else
      var rest := Durations(ls[..|ls| - 1]);
      var e := ls[|ls| - 1];
      if Timed(e) then rest + [e.duration.value] else rest
  }

  /** `Math.min(...xs)` of a non-empty list. */
  function Min(xs: seq<real>): (r: real)
    requires |xs| > 0
    ensures r in xs && forall k :: 0 <= k < |xs| ==> r <= xs[k]
  {
    if |xs| == 1 then xs[0]
    else
      var m := Min(xs[..|xs| - 1]);
      assert forall k :: 0 <= k < |xs| - 1 ==> xs[..|xs| - 1][k] == xs[k];
      if xs[|xs| - 1] < m then xs[|xs| - 1] else m
  }

  /** `Math.max(...xs)` of a non-empty list. */
  function Max(xs: seq<real>): (r: real)
    requires |xs| > 0
    ensures r in xs && forall k :: 0 <= k < |xs| ==> xs[k] <= r
  {
    if |xs| == 1 then xs[0]
    else
      var m := Max(xs[..|xs| - 1]);
      assert forall k :: 0 <= k < |xs| - 1 ==> xs[..|xs| - 1][k] == xs[k];
      if xs[|xs| - 1] > m then xs[|xs| - 1] else m
  }

  /**
   * The statistics of `ds`, the durations of the timed successes among `entries` entries of
   * one operation: all zero when there is none.
   */
  function Summarize(ds: seq<real>, entries: nat): (r: PerformanceStats)
    requires |ds| <= entries
    ensures r.count == |ds| && r.totalDuration == Sum(ds)
    ensures |ds| > 0 ==> r.minDuration in ds && r.maxDuration in ds
    ensures forall k :: 0 <= k < |ds| ==> r.minDuration <= ds[k] <= r.maxDuration
    ensures |ds| == 0 ==> r == PerformanceStats(0, 0.0, 0.0, 0.0, 0.0, 0.0)
  {
    if |ds| == 0 then PerformanceStats(0, 0.0, 0.0, 0.0, 0.0, 0.0)
    else PerformanceStats(|ds|, Sum(ds) / |ds| as real, Min(ds), Max(ds), Sum(ds), |ds| as real / entries as real)
  }

  /** `getPerformanceStats(operation)` over the given entries. */
  function Stats(ls: seq<LogEntry>, operation: string): (r: PerformanceStats)
    ensures |Durations(OperationLogs(ls, operation))| == 0 ==> r == PerformanceStats(0, 0.0, 0.0, 0.0, 0.0, 0.0)
    ensures r.count == |Durations(OperationLogs(ls, operation))|
  {
    var opLogs := OperationLogs(ls, operation);
    Summarize(Durations(opLogs), |opLogs|)
  }

  /**
   * What `getPerformanceStats` promises of an operation with timed successes: the average
   * times the count is the total, the total lies between count times the least and count times
   * the greatest duration, and the success rate is the share of the operation's `entries` that
   * are timed successes, in (0, 1].
   */
  predicate Consistent(r: PerformanceStats, entries: nat)
  {
    && r.minDuration * r.count as real <= r.totalDuration <= r.maxDuration * r.count as real
    && r.avgDuration * r.count as real == r.totalDuration
    && r.minDuration <= r.maxDuration
    && 0.0 < r.successRate <= 1.0
    && r.successRate * entries as real == r.count as real
  }

  lemma SummarizeTotal(ds: seq<real>, entries: nat)
    requires 0 < |ds| <= entries
    ensures var r := Summarize(ds, entries);
      && r.minDuration * r.count as real <= r.totalDuration <= r.maxDuration * r.count as real
      && r.minDuration <= r.maxDuration
  {
    SumBetween(ds, Min(ds), Max(ds));
  }

  lemma SummarizeAverage(ds: seq<real>, entries: nat)
    requires 0 < |ds| <= entries
    ensures var r := Summarize(ds, entries); r.avgDuration * r.count as real == r.totalDuration
  {
    QuotientTimes(Sum(ds), |ds| as real);
  }

  lemma SummarizeRate(ds: seq<real>, entries: nat)
    requires 0 < |ds| <= entries
    ensures var r := Summarize(ds, entries);
      0.0 < r.successRate <= 1.0 && r.successRate * entries as real == r.count as real
  {
    QuotientTimes(|ds| as real, entries as real);
    ShareBounds(|ds| as real, entries as real);
  }

  lemma SummarizeConsistent(ds: seq<real>, entries: nat)
    requires |ds| <= entries
    ensures Summarize(ds, entries).count > 0 ==> Consistent(Summarize(ds, entries), entries)
  {
    if |ds| > 0 {
      SummarizeTotal(ds, entries);
      SummarizeAverage(ds, entries);
      SummarizeRate(ds, entries);
    }
  }

  /** `getPerformanceStats` keeps `Consistent` for every operation with a timed success. */
  lemma StatsConsistent(ls: seq<LogEntry>, operation: string)
    ensures Stats(ls, operation).count > 0 ==> Consistent(Stats(ls, operation), |OperationLogs(ls, operation)|)
  {
    var opLogs := OperationLogs(ls, operation);
    SummarizeConsistent(Durations(opLogs), |opLogs|);
  }

  class AuditLogger {
    var logs: seq<LogEntry>
    var metrics: map<string, Metric>

    constructor()
      ensures logs == [] && metrics == map[]
    {
      logs := [];
      metrics := map[];
    }

    /**
     * `startOperation`: the id is `${operation}_${Date.now()}_${random}`; one `start` entry
     * is appended, never trimmed, and the operation is recorded under its id.
     */
    method StartOperation(operation: string, timestamp: int, nowMs: int, randomPart: string, clock: real)
      returns (operationId: string)
      modifies this
      ensures operationId == operation + "_" + IntToString(nowMs) + "_" + randomPart
      ensures logs == old(logs) + [LogEntry(timestamp, operation, Start, None, Some(operationId), None, None)]
      ensures metrics == old(metrics)[operationId := Metric(operation, clock, None, None, None, None)]
    {
      operationId := operation + "_" + IntToString(nowMs) + "_" + randomPart;
      logs := logs + [LogEntry(timestamp, operation, Start, None, Some(operationId), None, None)];
      metrics := metrics[operationId := Metric(operation, clock, None, None, None, None)];
    }

    /**
     * `endOperation`: an unknown id changes nothing. Otherwise the metric gets its end time and
     * duration (and, for a truthy item count, the throughput), a `success` entry is appended,
     * and the entries are cut to the last `MaxLogs`. The metric stays, so the id can be ended again.
     */
    method EndOperation(operationId: string, itemsProcessed: real, timestamp: int, clock: real)
      modifies this
      ensures operationId !in old(metrics) ==> logs == old(logs) && metrics == old(metrics)
      ensures operationId in old(metrics) ==>
        var m := old(metrics)[operationId];
        var duration := clock - m.startTime;
        && metrics == old(metrics)[operationId := m.(
             endTime := Some(clock), duration := Some(duration),
             itemsProcessed := if itemsProcessed != 0.0 then Some(itemsProcessed) else m.itemsProcessed,
             throughput := if itemsProcessed != 0.0 then Some(Div(itemsProcessed, duration / 1000.0)) else m.throughput)]
        && logs == KeepRecent(old(logs) + [LogEntry(timestamp, m.operation, Success, Some(duration), Some(operationId), None, None)])
      ensures operationId in old(metrics) ==> |logs| <= MaxLogs && operationId in metrics
    {
      if operationId !in metrics {
        return;
      }
      var metric := metrics[operationId];
      var duration := clock - metric.startTime;
      metric := metric.(endTime := Some(clock), duration := Some(duration));
      if itemsProcessed != 0.0 {
        metric := metric.(itemsProcessed := Some(itemsProcessed), throughput := Some(Div(itemsProcessed, duration / 1000.0)));
      }
      metrics := metrics[operationId := metric];
      logs := logs + [LogEntry(timestamp, metric.operation, Success, Some(duration), Some(operationId), None, None)];
      if |logs| > MaxLogs {
        logs := logs[|logs| - MaxLogs..];
      }
    }

    /** `logError`: one `error` entry is appended, never trimmed. */
    method LogError(operation: string, errorMessage: string, timestamp: int)
      modifies this
      ensures logs == old(logs) + [LogEntry(timestamp, operation, Error, None, None, None, Some(errorMessage))]
      ensures metrics == old(metrics)
    {
      logs := logs + [LogEntry(timestamp, operation, Error, None, None, None, Some(errorMessage))];
    }

    /** `logWarning`: one `warning` entry is appended, never trimmed. */
    method LogWarning(operation: string, message: string, timestamp: int)
      modifies this
      ensures logs == old(logs) + [LogEntry(timestamp, operation, Warning, None, None, Some(message), None)]
      ensures metrics == old(metrics)
    {
      logs := logs + [LogEntry(timestamp, operation, Warning, None, None, Some(message), None)];
    }

    /** `getPerformanceStats`. */
    function GetPerformanceStats(operation: string): (r: PerformanceStats)
      reads this
      ensures r == Stats(logs, operation)
    {
      Stats(logs, operation)
    }

    /** `getRecentLogs(limit)`: `logs.slice(-limit)`; a missing limit is 50. */
    function GetRecentLogs(limit: Option<int>): (r: seq<LogEntry>)
      reads this
      ensures var n := if limit.Some? then limit.value else 50;
        && |r| <= |logs| && r == logs[|logs| - |r|..]
        && (n > 0 ==> |r| == if n < |logs| then n else |logs|)
        && (n == 0 ==> r == logs)
    {
      var n := if limit.Some? then limit.value else 50;
      SliceFrom(logs, -n)
    }

    /** `clearLogs`. */
    method ClearLogs()
      modifies this
      ensures logs == [] && metrics == map[]
    {
      logs := [];
      metrics := map[];
    }
  }
}
