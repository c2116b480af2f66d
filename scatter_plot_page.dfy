/**
 * `src/pages/ScatterPlot.tsx`: what the scatter-plot page shows. The
 * unprocessed-reason panel compares the selected cycle's sample count with
 * the tool's configured limits.
 */
module ScatterPlotPage {
  import opened Wrappers
  import opened ScatterPlotTypes
  import ScatterPlotSlice
  import LineChart

  /**
   * `counts.unprocessed`: the number of spindle-load samples the time series
   * holds for the selected cycle; 0 without a cycle, a time series, or
   * samples for the cycle.
   */
  function UnprocessedCount(selected: Option<Cycle>, timeSeries: Option<TimeSeriesData>): (n: nat)
    ensures (selected.None? || timeSeries.None?) ==> n == 0
    ensures selected.Some? && timeSeries.Some? && selected.value.cycleLogId in timeSeries.value.data
            && SpindleLoad in timeSeries.value.data[selected.value.cycleLogId]
            ==> n == |timeSeries.value.data[selected.value.cycleLogId][SpindleLoad]|
    ensures n > 0 ==> selected.Some? && timeSeries.Some? && selected.value.cycleLogId in timeSeries.value.data
    // the count is the number of points the signal chart plots for the same cycle, or 0 when it plots none
    ensures selected.Some? && LineChart.ActualData(timeSeries, selected.value).Some? ==>
      n == |LineChart.ActualData(timeSeries, selected.value).value|
    ensures selected.Some? && LineChart.ActualData(timeSeries, selected.value).None? ==> n == 0
  {
    if selected.None? || timeSeries.None? then 0
    else if selected.value.cycleLogId !in timeSeries.value.data then 0
    else
      var signals := timeSeries.value.data[selected.value.cycleLogId];
      if SpindleLoad in signals then |signals[SpindleLoad]| else 0
  }

  /**
   * `configuration`: the first change-log entry's limits for the tool. A
   * stored change log always has a first entry (`ScatterPlotState.Valid`).
   */
  function Configuration(changeLog: Option<ChangeLogData>, tool: string): (r: Option<SequenceConfig>)
    requires changeLog.Some? ==> |changeLog.value.logs| > 0
    ensures r.Some? <==> changeLog.Some? && tool in changeLog.value.logs[0].config.sequence
    ensures r.Some? ==> r.value == changeLog.value.logs[0].config.sequence[tool]
  {
    if changeLog.None? then None
    else
      var sequence := changeLog.value.logs[0].config.sequence;
      if tool in sequence then Some(sequence[tool]) else None
  }

  const NoConfiguration: string := "Configuration not found for this sequence"
  const TooManyPoints: string := "More data points from the machine"
  const TooFewPoints: string := "Less data points from the machine"

  /**
   * The unprocessed reason, checked in order: no configuration, more points
   * than the maximum, fewer than the minimum; empty exactly when the count
   * lies within the configured limits.
   */
  function UnprocessedReason(config: Option<SequenceConfig>, count: nat): (r: string)
    ensures config.None? ==> r == NoConfiguration
    ensures config.Some? && count > config.value.maxPoints ==> r == TooManyPoints
    ensures config.Some? && count <= config.value.maxPoints && count < config.value.minPoints ==> r == TooFewPoints
    ensures r == "" <==> config.Some? && config.value.minPoints <= count <= config.value.maxPoints
    // with limits in order, "More" and "Less" are each given exactly for counts beyond their limit
    ensures config.Some? && config.value.minPoints <= config.value.maxPoints ==>
      && (r == TooManyPoints <==> count > config.value.maxPoints)
      && (r == TooFewPoints <==> count < config.value.minPoints)
  {
    if config.None? then NoConfiguration
    else if count > config.value.maxPoints then TooManyPoints
    else if count < config.value.minPoints then TooFewPoints
    else ""
  }

  /**
   * Whether the reason panel shows: both the time series and the change log
   * are stored and the selected cycle's anomaly for the tool is `null`.
   * `None` where reading that anomaly throws, a selected cycle having no
   * data for the tool.
   */
  function ShowReasonPanel(timeSeries: Option<TimeSeriesData>, changeLog: Option<ChangeLogData>,
                           selected: Option<Cycle>, tool: string): (r: Option<bool>)
    ensures r.None? <==> timeSeries.Some? && changeLog.Some? && selected.Some? && tool !in selected.value.data
    ensures r == Some(true) <==>
      timeSeries.Some? && changeLog.Some? && selected.Some? && tool in selected.value.data
      && selected.value.data[tool].anomaly.None?
  {
    if timeSeries.None? || changeLog.None? || selected.None? then Some(false)
    else if tool !in selected.value.data then None
    else Some(selected.value.data[tool].anomaly.None?)
  }

  /** What the page renders: only the spinner, nothing, or its content. */
  datatype View = Spinner | Blank | Content

  /** The spinner while the prediction or the change log loads; content once both payloads are stored. */
  function PageView(loadings: ScatterPlotSlice.PerRequest<bool>, prediction: Option<PredictionData>,
                    changeLog: Option<ChangeLogData>): (v: View)
    ensures v == Spinner <==> loadings.prediction || loadings.changeLog
    ensures v == Content <==> !loadings.prediction && !loadings.changeLog && prediction.Some? && changeLog.Some?
  {
    if loadings.prediction || loadings.changeLog then Spinner
    else if prediction.Some? && changeLog.Some? then Content
    else Blank
  }
}
