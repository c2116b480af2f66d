/**
 * The values of the scatter-plot page (`src/types/scatterPlotTypes.ts`),
 * with start times already parsed to epoch milliseconds and JSON objects
 * whose enumeration order matters given as sequences in that order.
 */
module ScatterPlotTypes {
  import opened Wrappers

  /** One tool's result in a cycle; a `null` anomaly is `None`. */
  datatype SignalData = SignalData(anomaly: Option<bool>, distance: real)

  /** A machining cycle; `data` maps a tool (sequence) key to its result. */
  datatype Cycle = Cycle(
    id: string,
    anamolyProcessed: bool,
    startTime: int,
    data: map<string, SignalData>,
    cycleLogId: int)

  /** An entry of the prediction payload's `cycles` record: the epoch-seconds key and its cycle. */
  datatype CycleEntry = CycleEntry(epoch: nat, cycle: Cycle)

  datatype PredictionData = PredictionData(machineId: string, cycles: seq<CycleEntry>)

  datatype SequenceConfig = SequenceConfig(window: int, maxPoints: int, minPoints: int)

  /** `config_parameters`: the keys of `tool_sequence_map` in enumeration order, and the per-tool limits. */
  datatype ConfigParameters = ConfigParameters(toolSequenceKeys: seq<string>, sequence: map<string, SequenceConfig>)

  datatype LearnedParameter = LearnedParameter(threshold: real, averageList: seq<real>)

  /** A change-log entry: the learned parameters in force from `startTime` on. */
  datatype LogEntry = LogEntry(
    id: string,
    startTime: int,
    config: ConfigParameters,
    learned: map<string, LearnedParameter>)

  datatype ChangeLogData = ChangeLogData(logs: seq<LogEntry>)

  /** One sample of a signal: the timestamp key and its value, in the object's order. */
  datatype Sample = Sample(time: real, value: real)

  /** `Result.data`: per cycle log id, per signal name, the samples. */
  datatype TimeSeriesData = TimeSeriesData(data: map<int, map<string, seq<Sample>>>)

  /** The signal the dashboard charts and counts. */
  const SpindleLoad: string := "spindle_1_load"

  datatype Filters = Filters(
    machine: string,
    tool: string,
    startDate: string,
    endDate: string,
    startTime: string,
    endTime: string)

  /** The query of the prediction and change-log fetches. */
  datatype FetchParams = FetchParams(fromTime: string, toTime: string, machineId: string)
}
