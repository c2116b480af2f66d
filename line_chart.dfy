/**
 * `src/components/scatterPlot/LineChart.tsx`: the signal chart of one
 * selected cycle. The change-log entry in force at the cycle's start gives
 * the ideal curve; the time-series payload gives the actual samples.
 */
module LineChart {
  import opened Wrappers
  import opened ScatterPlotTypes

  // ---------------------------------------------------------------- window lookup

  /** Entry `i` covers time `t`: it starts at or before `t` and is the last entry or the next starts after `t`. */
  predicate Covers(logs: seq<LogEntry>, i: nat, t: int)
    requires i < |logs|
  {
    logs[i].startTime <= t && (i + 1 == |logs| || t < logs[i + 1].startTime)
  }

  /** `currentLog`: `find` returns the first entry, in array order, that covers `t`. */
  function FindLog(logs: seq<LogEntry>, t: int): (r: Option<nat>)
    ensures r.Some? ==> r.value < |logs| && Covers(logs, r.value, t)
    ensures r.Some? ==> forall j :: 0 <= j < r.value ==> !Covers(logs, j, t)
    ensures r.None? ==> forall j :: 0 <= j < |logs| ==> !Covers(logs, j, t)
  {
    FindFrom(logs, t, 0)
  }

  function FindFrom(logs: seq<LogEntry>, t: int, i: nat): (r: Option<nat>)
    requires i <= |logs|
    ensures r.Some? ==> i <= r.value < |logs| && Covers(logs, r.value, t)
    ensures r.Some? ==> forall j :: i <= j < r.value ==> !Covers(logs, j, t)
    ensures r.None? ==> forall j :: i <= j < |logs| ==> !Covers(logs, j, t)
    decreases |logs| - i
  {
    if i == |logs| then None
    else if Covers(logs, i, t) then Some(i)
    else FindFrom(logs, t, i + 1)
  }

  predicate SortedByStart(logs: seq<LogEntry>) {
    forall i, j :: 0 <= i < j < |logs| ==> logs[i].startTime <= logs[j].startTime
  }

  /**
   * On entries sorted by start time the lookup finds the last entry starting
   * at or before `t`, and nothing when `t` is before the first entry.
   */
  lemma FindLogOnSortedLogs(logs: seq<LogEntry>, t: int)
    requires SortedByStart(logs)
    ensures FindLog(logs, t).None? <==> |logs| == 0 || t < logs[0].startTime
    ensures FindLog(logs, t).Some? ==>
      var k := FindLog(logs, t).value;
      logs[k].startTime <= t && forall j :: k < j < |logs| ==> t < logs[j].startTime
  {
    var r := FindLog(logs, t);
    if |logs| > 0 && logs[0].startTime <= t {
      // The last entry starting at or before `t` covers it, so the search succeeds.
      var k := LastStartingBy(logs, t);
      assert Covers(logs, k, t);
    }
    if r.Some? {
      var k := r.value;
      forall j | k < j < |logs| ensures t < logs[j].startTime {
        assert t < logs[k + 1].startTime;
      }
    }
  }

  /** The last index whose entry starts at or before `t`. */
  lemma {:induction false} LastStartingBy(logs: seq<LogEntry>, t: int) returns (k: nat)
    requires |logs| > 0 && logs[0].startTime <= t
    requires SortedByStart(logs)
    ensures k < |logs| && logs[k].startTime <= t
    ensures k + 1 == |logs| || t < logs[k + 1].startTime
  {
    k := 0;
    while k + 1 < |logs| && logs[k + 1].startTime <= t
      invariant k < |logs| && logs[k].startTime <= t
      decreases |logs| - k
    {
      k := k + 1;
    }
  }

  // ---------------------------------------------------------------- alignment

  /**
   * `idealData[i] || idealData[idealData.length - 1]`: the stored value when
   * it is truthy (present and not 0), else the last ideal value, and
   * `undefined` (`None`) when the list is empty.
   */
  function IdealAt(ideal: seq<real>, i: nat): (r: Option<real>)
    ensures i < |ideal| && ideal[i] != 0.0 ==> r == Some(ideal[i])
    ensures (i >= |ideal| || ideal[i] == 0.0) && |ideal| > 0 ==> r == Some(ideal[|ideal| - 1])
    ensures |ideal| == 0 <==> r.None?
  {
    if i < |ideal| && ideal[i] != 0.0 then Some(ideal[i])
    else if |ideal| > 0 then Some(ideal[|ideal| - 1])
    else None
  }

  /** A line-chart point: x and y, the y `None` where the source plots `undefined`. */
  datatype LinePoint = LinePoint(x: real, y: Option<real>)

  /** The `forEach` over the actual samples that fills both series. */
  method Align(actual: seq<Sample>, ideal: seq<real>)
    returns (actualSignals: seq<LinePoint>, idealSignals: seq<LinePoint>)
    ensures |actualSignals| == |actual| && |idealSignals| == |actual|
    ensures forall i :: 0 <= i < |actual| ==>
      actualSignals[i] == LinePoint(actual[i].time, Some(actual[i].value))
    ensures forall i :: 0 <= i < |actual| ==>
      idealSignals[i] == LinePoint(actual[i].time, IdealAt(ideal, i))
  {
    actualSignals, idealSignals := [], [];
    for i := 0 to |actual|
      invariant |actualSignals| == i && |idealSignals| == i
      invariant forall j :: 0 <= j < i ==>
        actualSignals[j] == LinePoint(actual[j].time, Some(actual[j].value))
      invariant forall j :: 0 <= j < i ==>
        idealSignals[j] == LinePoint(actual[j].time, IdealAt(ideal, j))
    {
      var sample := actual[i];
      actualSignals := actualSignals + [LinePoint(sample.time, Some(sample.value))];
      var y: Option<real>;
      if i < |ideal| && ideal[i] != 0.0 {
        y := Some(ideal[i]);
      } else if |ideal| > 0 {
        y := Some(ideal[|ideal| - 1]);
      } else {
        y := None;
      }
      idealSignals := idealSignals + [LinePoint(sample.time, y)];
    }
  }

  // ---------------------------------------------------------------- the chart

  /** `idealData`: the average list of the entry in force at the cycle's start, for the tool. */
  function IdealData(changeLog: Option<ChangeLogData>, tool: string, cycle: Cycle): (r: Option<seq<real>>)
    ensures r.Some? ==> changeLog.Some? && FindLog(changeLog.value.logs, cycle.startTime).Some?
    ensures r.Some? ==> var k := FindLog(changeLog.value.logs, cycle.startTime).value;
      tool in changeLog.value.logs[k].learned && r.value == changeLog.value.logs[k].learned[tool].averageList
    ensures (changeLog.Some? && FindLog(changeLog.value.logs, cycle.startTime).Some?
             && tool in changeLog.value.logs[FindLog(changeLog.value.logs, cycle.startTime).value].learned)
            ==> r.Some?
  {
    if changeLog.None? then None
    else match FindLog(changeLog.value.logs, cycle.startTime)
      case None => None
      case Some(k) =>
        var log := changeLog.value.logs[k];
        if tool in log.learned then Some(log.learned[tool].averageList) else None
  }

  /** `actualData`: the cycle's spindle-load samples in the time-series payload. */
  function ActualData(timeSeries: Option<TimeSeriesData>, cycle: Cycle): (r: Option<seq<Sample>>)
    ensures r.Some? <==> timeSeries.Some? && cycle.cycleLogId in timeSeries.value.data
                         && SpindleLoad in timeSeries.value.data[cycle.cycleLogId]
    ensures r.Some? ==> r.value == timeSeries.value.data[cycle.cycleLogId][SpindleLoad]
  {
    if timeSeries.None? || cycle.cycleLogId !in timeSeries.value.data then None
    else
      var signals := timeSeries.value.data[cycle.cycleLogId];
      if SpindleLoad in signals then Some(signals[SpindleLoad]) else None
  }

  /**
   * The `useMemo` body: no chart when the ideal list or the actual samples
   * are missing (an empty ideal list still draws one), else the aligned series.
   */
  method BuildSeries(changeLog: Option<ChangeLogData>, timeSeries: Option<TimeSeriesData>, tool: string, cycle: Cycle)
    returns (chart: Option<(seq<LinePoint>, seq<LinePoint>)>)
    ensures chart.None? <==> IdealData(changeLog, tool, cycle).None? || ActualData(timeSeries, cycle).None?
    ensures chart.Some? ==>
      var actual := ActualData(timeSeries, cycle).value;
      var ideal := IdealData(changeLog, tool, cycle).value;
      && |chart.value.0| == |actual| && |chart.value.1| == |actual|
      && (forall i :: 0 <= i < |actual| ==> chart.value.0[i] == LinePoint(actual[i].time, Some(actual[i].value)))
      && (forall i :: 0 <= i < |actual| ==> chart.value.1[i] == LinePoint(actual[i].time, IdealAt(ideal, i)))
  {
    var idealData := IdealData(changeLog, tool, cycle);
    var actualData := ActualData(timeSeries, cycle);
    if idealData.None? || actualData.None? {
      return None;
    }
    var actualSignals, idealSignals := Align(actualData.value, idealData.value);
    chart := Some((actualSignals, idealSignals));
  }
}
