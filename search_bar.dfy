/**
 * `src/components/scatterPlot/SearchBar.tsx`: the search form. A search
 * re-fetches the prediction and the change log only when a core filter
 * (machine or time range) changed since the last fetch; otherwise it only
 * applies the chosen tool.
 */
module SearchBar {
  import opened ScatterPlotTypes
  import opened Utils

  /** The filter fields a change of which calls for a fetch. */
  datatype CoreField = Machine | StartDate | EndDate | StartTime | EndTime

  /** `coreFields`, in the source's order. */
  const CoreFields: seq<CoreField> := [Machine, StartDate, EndDate, StartTime, EndTime]

  /** `prevFilters.current`: the core fields as they were at the last fetch. */
  datatype Snapshot = Snapshot(machine: string, startDate: string, endDate: string, startTime: string, endTime: string)

  function FilterValue(f: Filters, k: CoreField): string
  {
    match k
    case Machine => f.machine
    case StartDate => f.startDate
    case EndDate => f.endDate
    case StartTime => f.startTime
    case EndTime => f.endTime
  }

  function SnapshotValue(s: Snapshot, k: CoreField): string
  {
    match k
    case Machine => s.machine
    case StartDate => s.startDate
    case EndDate => s.endDate
    case StartTime => s.startTime
    case EndTime => s.endTime
  }

  /** `currFilters[key] = value`: the one field replaced. */
  function WithValue(s: Snapshot, k: CoreField, v: string): (r: Snapshot)
    ensures forall j :: SnapshotValue(r, j) == if j == k then v else SnapshotValue(s, j)
  {
    match k
    case Machine => s.(machine := v)
    case StartDate => s.(startDate := v)
    case EndDate => s.(endDate := v)
    case StartTime => s.(startTime := v)
    case EndTime => s.(endTime := v)
  }

  /** The core fields of the filters, as the snapshot records them. */
  function CoreOf(f: Filters): Snapshot
  {
    Snapshot(f.machine, f.startDate, f.endDate, f.startTime, f.endTime)
  }

  /** `keys.some(key => filters[key] !== prev[key])`. */
  function SomeDiffers(keys: seq<CoreField>, f: Filters, prev: Snapshot): (r: bool)
    ensures r <==> exists i :: 0 <= i < |keys| && FilterValue(f, keys[i]) != SnapshotValue(prev, keys[i])
  {
    if |keys| == 0 then false
    else FilterValue(f, keys[0]) != SnapshotValue(prev, keys[0]) || SomeDiffers(keys[1..], f, prev)
  }

  /** `shouldFetch`: true exactly when the filters' core fields differ from the snapshot. */
  function ShouldFetch(f: Filters, prev: Snapshot): (r: bool)
    ensures r <==> CoreOf(f) != prev
  {
    SomeCoreFieldDiffers(f, prev);
    SomeDiffers(CoreFields, f, prev)
  }

  /** The five core fields are all a snapshot holds, so some differs exactly when the snapshots differ. */
  lemma SomeCoreFieldDiffers(f: Filters, prev: Snapshot)
    ensures SomeDiffers(CoreFields, f, prev) <==> CoreOf(f) != prev
  {
    if CoreOf(f) != prev {
      var k: CoreField :| FilterValue(f, k) != SnapshotValue(prev, k);
      assert CoreFields[CoreFieldIndex(k)] == k;
    }
  }

  function CoreFieldIndex(k: CoreField): (i: nat)
    ensures i < |CoreFields| && CoreFields[i] == k
  {
    match k
    case Machine => 0
    case StartDate => 1
    case EndDate => 2
    case StartTime => 3
    case EndTime => 4
  }

  /** The actions a search dispatches. */
  datatype Action =
    | FetchPrediction(params: FetchParams)
    | FetchChangeLog(params: FetchParams)
    | SetSelectedTool(tool: string)

  /** The query of both fetches: the machine and the range from `formatTime`. */
  function QueryOf(f: Filters): FetchParams
  {
    FetchParams(FormatTime(f.startDate, f.startTime), FormatTime(f.endDate, f.endTime), f.machine)
  }

  /**
   * The `reduce` over the core fields that builds the new snapshot: each
   * step copies one field from the filters, so the fold yields the filters'
   * core fields whatever it starts from.
   */
  method SnapshotOf(filters: Filters) returns (next: Snapshot)
    ensures next == CoreOf(filters)
  {
    next := Snapshot("", "", "", "", "");
    for i := 0 to |CoreFields|
      invariant forall j :: 0 <= j < i ==> SnapshotValue(next, CoreFields[j]) == FilterValue(filters, CoreFields[j])
    {
      next := WithValue(next, CoreFields[i], FilterValue(filters, CoreFields[i]));
    }
    assert SnapshotValue(next, CoreFields[0]) == filters.machine;
    assert SnapshotValue(next, CoreFields[1]) == filters.startDate;
    assert SnapshotValue(next, CoreFields[2]) == filters.endDate;
    assert SnapshotValue(next, CoreFields[3]) == filters.startTime;
    assert SnapshotValue(next, CoreFields[4]) == filters.endTime;
  }

  class SearchForm {
    var prev: Snapshot

    /** The snapshot starts as the filters at mount. */
    constructor (filters: Filters)
      ensures prev == CoreOf(filters)
    {
      prev := CoreOf(filters);
    }

    /**
     * `handleSearch`: with a changed core field, both fetches with one query
     * and the snapshot refreshed (by a fold over the core fields); otherwise
     * only the tool is applied and the snapshot kept.
     */
    method HandleSearch(filters: Filters) returns (actions: seq<Action>)
      modifies this
      ensures ShouldFetch(filters, old(prev)) ==>
        actions == [FetchPrediction(QueryOf(filters)), FetchChangeLog(QueryOf(filters))] && prev == CoreOf(filters)
      ensures !ShouldFetch(filters, old(prev)) ==>
        actions == [SetSelectedTool(filters.tool)] && prev == old(prev)
      ensures !ShouldFetch(filters, prev)
    {
      SomeCoreFieldDiffers(filters, prev);
      if SomeDiffers(CoreFields, filters, prev) {
        var query := QueryOf(filters);
        actions := [FetchPrediction(query), FetchChangeLog(query)];
        prev := SnapshotOf(filters);
      } else {
        actions := [SetSelectedTool(filters.tool)];
      }
    }
  }
}
