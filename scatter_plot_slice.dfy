/**
 * `src/redux/slices/scatterPlotSlice.ts`: the scatter-plot page's store.
 * Every reducer overwrites fields of the state in place; each request has
 * its own loading flag, error slot and data slot.
 */
module ScatterPlotSlice {
  import opened Wrappers
  import opened ScatterPlotTypes

  // ---------------------------------------------------------------- the time-series file

  /** The file of the time-series request: "red" for anomalies, "green" for normals, "black" for unknown. */
  function TimeSeriesSuffix(anomaly: Option<bool>): (r: string)
    ensures r == "red" <==> anomaly == Some(true)
    ensures r == "green" <==> anomaly == Some(false)
    ensures r == "black" <==> anomaly.None?
  {
    match anomaly
    case Some(true) => "red"
    case Some(false) => "green"
    case None => "black"
  }

  function TimeSeriesPath(machineId: string, anomaly: Option<bool>): string
  {
    "/data/" + machineId + "/timeseries_cycledata_" + TimeSeriesSuffix(anomaly) + ".json"
  }

  lemma {:induction false} MiddleDetermined(p: string, x: string, y: string, q: string)
    requires p + x + q == p + y + q
    ensures x == y
  {
    assert |x| == |y|;
    assert x == (p + x + q)[|p|..|p| + |x|];
    assert y == (p + y + q)[|p|..|p| + |y|];
  }

  /** The three anomaly states are fetched from three different files of a machine. */
  lemma TimeSeriesPathsDistinct(machineId: string, a: Option<bool>, b: Option<bool>)
    requires a != b
    ensures TimeSeriesPath(machineId, a) != TimeSeriesPath(machineId, b)
  {
    if TimeSeriesPath(machineId, a) == TimeSeriesPath(machineId, b) {
      MiddleDetermined("/data/" + machineId + "/timeseries_cycledata_", TimeSeriesSuffix(a), TimeSeriesSuffix(b), ".json");
    }
  }

  /** The payload the time-series request resolves with: the data when it holds the cycle log, else null. */
  function TimeSeriesResult(data: TimeSeriesData, cycleLogId: int): (r: Option<TimeSeriesData>)
    ensures r.Some? <==> cycleLogId in data.data
    ensures r.Some? ==> r.value == data
  {
    if cycleLogId in data.data then Some(data) else None
  }

  // ---------------------------------------------------------------- state

  /** The three requests, each with its own loading flag and error slot. */
  datatype Request = Prediction | ChangeLog | TimeSeries

  /** One value per request, as `loadings` and `errors` hold them. */
  datatype PerRequest<T> = PerRequest(prediction: T, changeLog: T, timeSeries: T)
  {
    function Get(r: Request): T
    {
      match r
      case Prediction => prediction
      case ChangeLog => changeLog
      case TimeSeries => timeSeries
    }

    /** The slot of `r` replaced by `v`, the other two kept. */
    function Set(r: Request, v: T): (p: PerRequest<T>)
      ensures p.Get(r) == v
      ensures forall o :: o != r ==> p.Get(o) == Get(o)
    {
      match r
      case Prediction => this.(prediction := v)
      case ChangeLog => this.(changeLog := v)
      case TimeSeries => this.(timeSeries := v)
    }
  }

  datatype FilterField = Machine | Tool | StartDate | EndDate | StartTime | EndTime

  function FieldOf(f: Filters, field: FilterField): string
  {
    match field
    case Machine => f.machine
    case Tool => f.tool
    case StartDate => f.startDate
    case EndDate => f.endDate
    case StartTime => f.startTime
    case EndTime => f.endTime
  }

  /** `state.filters[field] = value`: the named field replaced, the others kept. */
  function WithField(f: Filters, field: FilterField, v: string): (r: Filters)
    ensures FieldOf(r, field) == v
    ensures forall o :: o != field ==> FieldOf(r, o) == FieldOf(f, o)
  {
    match field
    case Machine => f.(machine := v)
    case Tool => f.(tool := v)
    case StartDate => f.(startDate := v)
    case EndDate => f.(endDate := v)
    case StartTime => f.(startTime := v)
    case EndTime => f.(endTime := v)
  }

  /** What `setFilters` receives: typed text, a picked date (by its ISO string), or a cleared picker (`null`). */
  datatype FilterValue = Text(text: string) | Picked(iso: string) | Cleared

  /**
   * The value `setFilters` computes, with "" standing for both the empty
   * string and the `undefined` that `null?.toISOString()` gives; both are
   * falsy, and a falsy value is not stored.
   */
  function StoredValue(v: FilterValue): (r: string)
    ensures v.Text? ==> r == v.text
    ensures v.Picked? ==> r == v.iso
    ensures v.Cleared? ==> r == ""
  {
    match v
    case Text(s) => s
    case Picked(iso) => iso
    case Cleared => ""
  }

  /** `sequences[0]`, with "" for the `undefined` of an empty key list. */
  function FirstKey(keys: seq<string>): (r: string)
    ensures |keys| > 0 ==> r == keys[0]
    ensures |keys| == 0 ==> r == ""
  {
    if |keys| > 0 then keys[0] else ""
  }

  const DefaultMachine: string := "Machine1-SSP0173"
  const DefaultTool: string := "101"

  class ScatterPlotState {
    var selectedTool: string
    var showComparison: bool
    var filters: Filters
    var predictionData: Option<PredictionData>
    var changeLogData: Option<ChangeLogData>
    var timeSeriesData: Option<TimeSeriesData>
    var loadings: PerRequest<bool>
    var errors: PerRequest<Option<string>>

    /** Stored change-log data always has a first entry, because the fulfilled reducer throws before committing one without. */
    predicate Valid()
      reads this
    {
      changeLogData.Some? ==> |changeLogData.value.logs| > 0
    }

    /** `initialState`, with `now` the ISO string of the current date and time. */
    constructor (now: string)
      ensures Valid()
      ensures selectedTool == DefaultTool && !showComparison
      ensures filters == Filters(DefaultMachine, DefaultTool, now, now, now, now)
      ensures predictionData.None? && changeLogData.None? && timeSeriesData.None?
      ensures loadings == PerRequest(false, false, false) && errors == PerRequest(None, None, None)
    {
      selectedTool := DefaultTool;
      showComparison := false;
      filters := Filters(DefaultMachine, DefaultTool, now, now, now, now);
      predictionData := None;
      changeLogData := None;
      timeSeriesData := None;
      loadings := PerRequest(false, false, false);
      errors := PerRequest(None, None, None);
    }

    /** `setFilters`: a non-empty value is stored in the named field only; an empty or cleared one changes nothing. */
    method SetFilters(field: FilterField, value: FilterValue)
      modifies this`filters
      ensures StoredValue(value) == "" ==> filters == old(filters)
      ensures StoredValue(value) != "" ==> filters == WithField(old(filters), field, StoredValue(value))
    {
      var v := StoredValue(value);
      if v != "" {
        filters := WithField(filters, field, v);
      }
    }

    method SetSelectedTool(tool: string)
      modifies this`selectedTool
      ensures selectedTool == tool
    {
      selectedTool := tool;
    }

    /** `toggleComparision`: negates the flag, so two toggles restore it. */
    method ToggleComparison()
      modifies this`showComparison
      ensures showComparison == !old(showComparison)
    {
      showComparison := !showComparison;
    }

    /** A request starts: its loading flag set, its error cleared, every data slot kept. */
    method Pending(r: Request)
      modifies this`loadings, this`errors
      ensures loadings == old(loadings).Set(r, true)
      ensures errors == old(errors).Set(r, None)
    {
      loadings := loadings.Set(r, true);
      errors := errors.Set(r, None);
    }

    /** A request fails: its loading flag cleared, its error recorded, the previous data kept. */
    method Rejected(r: Request, message: Option<string>)
      modifies this`loadings, this`errors
      ensures loadings == old(loadings).Set(r, false)
      ensures errors == old(errors).Set(r, message)
    {
      loadings := loadings.Set(r, false);
      errors := errors.Set(r, message);
    }

    method PredictionFulfilled(payload: PredictionData)
      modifies this`loadings, this`predictionData
      ensures loadings == old(loadings).Set(Prediction, false)
      ensures predictionData == Some(payload)
    {
      loadings := loadings.Set(Prediction, false);
      predictionData := Some(payload);
    }

    /** The payload is `None` when the request resolved with null. */
    method TimeSeriesFulfilled(payload: Option<TimeSeriesData>)
      modifies this`loadings, this`timeSeriesData
      ensures loadings == old(loadings).Set(TimeSeries, false)
      ensures timeSeriesData == payload
    {
      loadings := loadings.Set(TimeSeries, false);
      timeSeriesData := payload;
    }

    /**
     * The change log arrives. Without a first entry the reducer throws and
     * nothing is committed (`thrown`). Otherwise the data is stored, and when
     * the selected tool is not a key of the first entry's tool map, both the
     * selected tool and the tool filter become its first key.
     */
    method ChangeLogFulfilled(payload: ChangeLogData) returns (thrown: bool)
      requires Valid()
      modifies this`loadings, this`changeLogData, this`selectedTool, this`filters
      ensures Valid()
      ensures thrown <==> |payload.logs| == 0
      ensures thrown ==> loadings == old(loadings) && changeLogData == old(changeLogData)
                         && selectedTool == old(selectedTool) && filters == old(filters)
      ensures !thrown ==> loadings == old(loadings).Set(ChangeLog, false) && changeLogData == Some(payload)
      ensures !thrown && old(selectedTool) in payload.logs[0].config.toolSequenceKeys ==>
        selectedTool == old(selectedTool) && filters == old(filters)
      ensures !thrown && old(selectedTool) !in payload.logs[0].config.toolSequenceKeys ==>
        var first := FirstKey(payload.logs[0].config.toolSequenceKeys);
        selectedTool == first && filters == old(filters).(tool := first)
      ensures !thrown && |payload.logs[0].config.toolSequenceKeys| > 0 ==>
        selectedTool in payload.logs[0].config.toolSequenceKeys
    {
      if |payload.logs| == 0 {
        return true;
      }
      thrown := false;
      loadings := loadings.Set(ChangeLog, false);
      changeLogData := Some(payload);
      var sequences := payload.logs[0].config.toolSequenceKeys;
      if selectedTool !in sequences {
        selectedTool := FirstKey(sequences);
        filters := filters.(tool := FirstKey(sequences));
      }
    }
  }
}
