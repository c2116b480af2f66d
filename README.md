# noviga-visualizations, modelled in Dafny

This project models the sequential logic inside two pages of the dashboard.

- **Tree view.** The machine topology is drawn as a graph. Machines become
  nodes and input stations become edges. The connected part gets a layered
  layout, and the disconnected machines are packed into a grid below it. A
  hovered or clicked node moves to the end of the paint order. Each node has
  an edit popup with a name, a station number and two mutually exclusive flags
  ("bypass" and "not allowed"). Save and Cancel rewrite the shared node list.
- **Scatter plot.** The cycles of a machine are plotted per tool in four
  series: unprocessed, anomalies, normals and unknown. A step series of
  learned thresholds comes from the change log. Picking a cycle shows its
  spindle-load signal against the ideal curve of the change-log entry in force
  at its start. A panel explains why an unknown cycle was not processed.

Both Redux stores are modelled as classes whose methods are the reducers.

Conventions:

- Every source file of the core has one module, and two modules hold the
  shared types.
- Wherever the model depends on JavaScript semantics, it writes them out:
  - `split` and `replace` with a one-character pattern (`replace` removes only
    the first occurrence);
  - `Number(...)` and `String(...)` on digit strings;
  - the default `Array.prototype.sort`, which compares numbers by their decimal
    strings;
  - truthiness (`x || y`);
  - `NaN` from `undefined * 1000`.
- The layered layout of the connected nodes is an input: a function from node
  id to centre point.
- Ids and station numbers are strings. Machine ids are numbers in the payload
  and are compared as numbers, but `String` is injective on integers, so
  nothing depends on the difference.
- Start times are integers (epoch milliseconds). Positions, distances,
  thresholds and signal values are reals.
- The JSON objects that are enumerated are sequences in enumeration order. These are the
  cycles of the prediction payload, the keys of `tool_sequence_map` and the
  samples of a signal.

| file | models |
|---|---|
| `js_string.dfy` | the JavaScript built-ins the core relies on |
| `utils.dfy` | `src/utils.ts` |
| `tree_view_types.dfy`, `scatter_plot_types.dfy` | the payload and widget types |
| `tree_graph.dfy` | `src/components/treeView/TreeGraph.tsx` |
| `custom_node.dfy` | `src/components/treeView/CustomNode.tsx` |
| `scatter_chart.dfy` | `src/components/scatterPlot/ScatterChart.tsx` |
| `line_chart.dfy` | `src/components/scatterPlot/LineChart.tsx` |
| `scatter_plot_slice.dfy` | `src/redux/slices/scatterPlotSlice.ts` |
| `tree_view_slice.dfy` | `src/redux/slices/treeViewSlice.ts` |
| `search_bar.dfy` | `src/components/scatterPlot/SearchBar.tsx` |
| `scatter_plot_page.dfy` | `src/pages/ScatterPlot.tsx` |

## Model

| member | source | states |
|---|---|---|
| JsString.Split | src/utils.ts:2 | `split` on one character: at least one piece, and no piece contains the separator |
| JsString.JoinSplit | src/utils.ts:2 | joining the pieces of `split` with the separator gives back the string |
| JsString.SplitJoin | src/utils.ts:2 | splitting a join of separator-free pieces gives back the pieces |
| JsString.SplitCount | src/utils.ts:2 | `split` gives one more piece than there are separators |
| JsString.RemoveFirst | src/utils.ts:2 | `replace(c, "")` removes the first occurrence of `c` and only that one, and leaves a string without `c` unchanged |
| JsString.RemoveFirstCount | src/components/treeView/CustomNode.tsx:167 | `replace` drops exactly one `c` when there is one: the length falls by 1 and the multiset loses one `c` |
| JsString.NatToString | src/components/treeView/CustomNode.tsx:166-168 | `String(n)` is a non-empty digit string; it has one digit exactly when n < 10 |
| JsString.DigitsValueOfNatToString | src/components/treeView/CustomNode.tsx:166-168 | reading the decimal form of n gives n back |
| JsString.NatToStringInjective | src/components/treeView/CustomNode.tsx:166-168 | different numbers have different decimal forms |
| JsString.DigitsValueLeadingZero | src/components/treeView/CustomNode.tsx:166-168 | a leading zero does not change a digit string's value |
| JsString.ToNumber | src/components/treeView/CustomNode.tsx:167 | `+s`: the empty string is 0, a digit string is its value, and text holding a character no numeric literal contains (none of digits, a–f, A–F, x, o, b, signs, `.`, the letters of `Infinity`, white space) is NaN |
| JsString.ToNumberOfNumberToString | src/components/treeView/CustomNode.tsx:166-168 | `Number(String(n)) == n` |
| JsString.NumberToStringCanonical | src/components/treeView/CustomNode.tsx:166-168 | `String(Number(s))` leaves a decimal form produced by `String` unchanged |
| JsString.LexLeTotal | src/components/scatterPlot/ScatterChart.tsx:96 | the string order used by the default sort is total |
| JsString.LexLeTransitive | src/components/scatterPlot/ScatterChart.tsx:96 | the string order is transitive |
| JsString.LexLeAntisymmetric | src/components/scatterPlot/ScatterChart.tsx:96 | the string order is antisymmetric |
| JsString.LexLeAppend | src/components/scatterPlot/ScatterChart.tsx:96 | for equally long strings, the prefix decides the order first and the last character decides it last |
| JsString.SameLengthOrder | src/components/scatterPlot/ScatterChart.tsx:96 | decimal forms of equal length sort as their numbers do |
| JsString.SortFirst | src/components/scatterPlot/ScatterChart.tsx:96-97 | the first element of `sort()` is an element of the list |
| JsString.SortLast | src/components/scatterPlot/ScatterChart.tsx:96-98 | the last element of `sort()` is an element of the list |
| JsString.SortFirstIsLeast | src/components/scatterPlot/ScatterChart.tsx:96-97 | the first element of `sort()` has the least decimal string of all elements |
| JsString.SortLastIsGreatest | src/components/scatterPlot/ScatterChart.tsx:96-98 | the last element of `sort()` has the greatest decimal string of all elements |
| JsString.SortEndsAreNumericWhenSameWidth | src/components/scatterPlot/ScatterChart.tsx:96-98 | when all numbers have the same width, the ends of the sort are the numeric minimum and maximum |
| JsString.SortIsNotNumeric | src/components/scatterPlot/ScatterChart.tsx:96 | `[9, 10].sort()` starts with 10 and ends with 9 |
| Utils.FormatTime | src/utils.ts:1-3 | the result is the date part plus "T" plus the time part, at most one character shorter (the one "Z" removed) |
| Utils.SplitIsoString | src/utils.ts:2 | an ISO string splits at "T" into its date and its time-with-"Z" |
| Utils.FormatTimeOfIsoStrings | src/utils.ts:1-3 | for two `toISOString` values the result is `YYYY-MM-DD` + "T" + `HH:MM:SS.sss`: 23 characters, no "Z" |
| Utils.FormatTimeWithoutTimeSeparator | src/utils.ts:2 | for every date, a time without "T" has "undefined" as its time half; with no "Z" in the date the result is the date half, "T" and "undefined", and a date without "T" is kept whole |
| Utils.FormatTimeRemovesOneZ | src/utils.ts:2 | without a "Z" the concatenation comes back unchanged; otherwise it loses exactly one "Z" |
| TreeGraph.RawNodes | src/components/treeView/TreeGraph.tsx:110-129 | one node per machine, in order; its id is the machine id; its flags say whether that id is on the bypass and not-allowed lists; name, station number and input stations are copied from the machine; position (0, 0); no ports set; not selected |
| TreeGraph.KnownInputsKept | src/components/treeView/TreeGraph.tsx:133-136 | the filter keeps each known input id as often as it is listed, drops the others, and keeps the list order |
| TreeGraph.EdgesInto | src/components/treeView/TreeGraph.tsx:132-144 | one edge per known input, the k-th edge from the k-th known input; so the edges into a machine are exactly its input ids that are some machine's id, duplicates kept |
| TreeGraph.EdgesOfLayout | src/components/treeView/TreeGraph.tsx:131-145 | the `flatMap` yields as many edges as known inputs over all machines, the first machine's edges first |
| TreeGraph.EdgesOfMembership | src/components/treeView/TreeGraph.tsx:131-145 | an edge exists exactly for each (machine, input id) pair whose input is a known id |
| TreeGraph.RawEdgesCharacterized | src/components/treeView/TreeGraph.tsx:131-145 | every edge runs from a known input to its machine; its id is "input-machine"; it is self-connecting exactly when input = machine, and otherwise has the chosen edge type |
| TreeGraph.KeepIfMembers | src/components/treeView/TreeGraph.tsx:150-153 | the filter keeps exactly the nodes whose connectedness matches |
| TreeGraph.KeepIfIsSubsequence | src/components/treeView/TreeGraph.tsx:150-153 | each filtered list keeps the input order |
| TreeGraph.KeepIfPartition | src/components/treeView/TreeGraph.tsx:150-153 | connected and disconnected nodes together are the raw nodes as a multiset |
| TreeGraph.PartitionOfNodes | src/components/treeView/TreeGraph.tsx:147-153 | a node is connected iff its id is an edge endpoint; the two lists partition the nodes and keep their order |
| TreeGraph.Placed | src/components/treeView/TreeGraph.tsx:49-56 | position = centre − (width/2, height/2); ports Bottom/Top for TB and Right/Left for LR; nothing else changes |
| TreeGraph.ExtentsAreMaxima | src/components/treeView/TreeGraph.tsx:45-54 | `maxX`/`maxY` are at least 0 and at least every node's centre plus a full width/height, and equal to 0 or to one of those |
| TreeGraph.LayoutConnectedNodes | src/components/treeView/TreeGraph.tsx:23-60 | the array is updated in place, each node placed at its layout centre; it returns the two extents |
| TreeGraph.Pack | src/components/treeView/TreeGraph.tsx:70-88 | packing keeps the length and order of the nodes and changes only `position` |
| TreeGraph.LayoutDisconnectedNodes | src/components/treeView/TreeGraph.tsx:62-89 | the cursor loop yields each node at its slot |
| TreeGraph.SlotBounds | src/components/treeView/TreeGraph.tsx:67-83 | every packed node has y ≥ maxY + 100, and either x = 0 or x + width ≤ maxX |
| TreeGraph.SlotStep | src/components/treeView/TreeGraph.tsx:72-85 | the next node is either width + 10 to the right in the same row, or at x = 0 one row (height + 10) lower |
| TreeGraph.SlotsDoNotOverlap | src/components/treeView/TreeGraph.tsx:72-85 | y never decreases, later boxes are clear of earlier ones, and no two packed nodes share a position |
| TreeGraph.NarrowPackingIsOneColumn | src/components/treeView/TreeGraph.tsx:67-75 | if maxX < width, node k is at (0, maxY + 170 + 70k) |
| TreeGraph.FirstSlot | src/components/treeView/TreeGraph.tsx:67-75 | the first node is at (0, maxY + 100) unless it wraps at once to (0, maxY + 170) |
| TreeGraph.FormatRawDataAndSetLayout | src/components/treeView/TreeGraph.tsx:106-167 | no machines means no update; otherwise the result is the packed disconnected nodes followed by the placed connected nodes, plus the raw edges; node ids are a permutation of the machine ids |
| TreeGraph.IdsPreservedByLayout | src/components/treeView/TreeGraph.tsx:159-165 | packed and placed lists that keep the partition's ids together hold the raw ids |
| TreeGraph.KeepIfPartitionIds | src/components/treeView/TreeGraph.tsx:150-153 | the ids of the two filtered lists together are the raw ids, as a multiset |
| TreeGraph.Find | src/components/treeView/TreeGraph.tsx:100 | `find`: the first index with that id, or none when no node has it |
| TreeGraph.WithoutIdMembers | src/components/treeView/TreeGraph.tsx:102 | `filter(n => n.id !== id)` keeps exactly the nodes with another id |
| TreeGraph.WithoutUniqueId | src/components/treeView/TreeGraph.tsx:102 | when only position k has the id, the filter removes exactly position k and keeps the order of the rest |
| TreeGraph.WithoutAbsentId | src/components/treeView/TreeGraph.tsx:101-102 | the filter leaves a list without that id unchanged |
| TreeGraph.BringToFrontMovesToEnd | src/components/treeView/TreeGraph.tsx:98-104 | the target moves to the end and the others keep their order, which is a permutation; an unknown id changes nothing |
| TreeGraph.ClickNodeSelectsOnlyTheMovedNode | src/components/treeView/TreeGraph.tsx:169-178 | the `onNodeClick` updater moves the clicked node to the end with `selected` set; every other node, selected or not, stays as the updater found it; an unknown id changes nothing |
| CustomNode.InitialDetails | src/components/treeView/CustomNode.tsx:24-29 | the buffer starts from the committed flags, name and station number |
| CustomNode.Changed | src/components/treeView/CustomNode.tsx:54-66 | turning one flag on while the other is on is rejected; any other change sets exactly the named field; if the flags were not both true, they never become both true |
| CustomNode.NewIdOfStation | src/components/treeView/CustomNode.tsx:166-168 | "M" + digits derives the decimal form of the digits' value |
| CustomNode.NewIdIgnoresLeadingZero | src/components/treeView/CustomNode.tsx:166-168 | "M0" + digits and "M" + digits derive the same id ("M034" and "M34" both give "34") |
| CustomNode.NewIdDegenerate | src/components/treeView/CustomNode.tsx:166-168 | "" derives "0", and "M" followed by text holding a character no numeric literal contains (e.g. "M?") derives "NaN" |
| CustomNode.Renamed | src/components/treeView/CustomNode.tsx:175-193 | nodes with the current id get the new id, the buffer flags, the buffer name and station (or the committed ones when those are empty), and `selected = false`; input stations, position and both ports are kept; all other nodes are unchanged |
| CustomNode.SavedNodes | src/components/treeView/CustomNode.tsx:164-193 | rejected exactly when some node already has the derived id and it is not the current id; otherwise the rename to the derived id |
| CustomNode.RenameKeepsIdsUnique | src/components/treeView/CustomNode.tsx:169-193 | renaming to the same id or to an id no node has keeps node ids unique, so every Save that is not rejected keeps them unique |
| CustomNode.Deselected | src/components/treeView/CustomNode.tsx:195-199 | Cancel: every node is deselected, nothing else changes, and the ids stay the same |
| CustomNode.NodeEditor.constructor | src/components/treeView/CustomNode.tsx:21-31 | the buffer is seeded from the committed data |
| CustomNode.NodeEditor.HandleChange | src/components/treeView/CustomNode.tsx:54-66 | a rejected change leaves the buffer unchanged; otherwise the buffer becomes `Changed` |
| CustomNode.NodeEditor.SetSelected | src/components/treeView/CustomNode.tsx:68-70 | on deselection the buffer resets to the committed values; otherwise it is kept |
| CustomNode.NodeEditor.HandleClick | src/components/treeView/CustomNode.tsx:161-204 | Save commits `SavedNodes` or is rejected with the list unchanged; Cancel deselects all nodes; each toggle calls `HandleChange` with the negation of its buffer flag |
| ScatterChart.ClassOf | src/components/scatterPlot/ScatterChart.tsx:72-82 | a cycle without tool data is skipped; not processed means unprocessed whatever the anomaly; otherwise true, false and null give anomalies, normals and unknown |
| ScatterChart.SeriesPoints | src/components/scatterPlot/ScatterChart.tsx:70-94 | each series holds only points of its own class |
| ScatterChart.SeriesPartition | src/components/scatterPlot/ScatterChart.tsx:70-94 | every kept cycle's point `(epoch*1000, distance, cycle)` lies in exactly one of the four series |
| ScatterChart.Classify | src/components/scatterPlot/ScatterChart.tsx:70-94 | the loop fills the four series with their points in iteration order |
| ScatterChart.Epochs | src/components/scatterPlot/ScatterChart.tsx:96 | the epoch keys of the cycles, in order |
| ScatterChart.MinX | src/components/scatterPlot/ScatterChart.tsx:96-97 | NaN exactly when there are no cycles; otherwise some cycle's epoch × 1000, taken over all cycles including skipped ones |
| ScatterChart.MaxX | src/components/scatterPlot/ScatterChart.tsx:96-98 | NaN exactly when there are no cycles; otherwise some cycle's epoch × 1000 |
| ScatterChart.RangeIsNumericForSameWidthEpochs | src/components/scatterPlot/ScatterChart.tsx:96-98 | when all epochs have the same number of digits, minX ≤ every epoch × 1000 ≤ maxX |
| ScatterChart.RangeOfMixedWidthEpochs | src/components/scatterPlot/ScatterChart.tsx:96-98 | with epochs 9 and 10, minX is 10000 and maxX is 9000 |
| ScatterChart.RawThresholds | src/components/scatterPlot/ScatterChart.tsx:100-105 | one threshold per entry (start time, threshold, id), or none when some entry lacks the tool |
| ScatterChart.Insert | src/components/scatterPlot/ScatterChart.tsx:107-109 | inserting adds exactly one element |
| ScatterChart.SortByX | src/components/scatterPlot/ScatterChart.tsx:107-109 | the sort is a permutation |
| ScatterChart.InsertSorted | src/components/scatterPlot/ScatterChart.tsx:107-109 | inserting into a sorted list keeps it sorted |
| ScatterChart.SortByXSorted | src/components/scatterPlot/ScatterChart.tsx:107-109 | the result is sorted ascending by x |
| ScatterChart.InsertWithX | src/components/scatterPlot/ScatterChart.tsx:107-109 | an insert lands before every entry with the same x |
| ScatterChart.SortByXStable | src/components/scatterPlot/ScatterChart.tsx:107-109 | entries with equal x keep their input order, so the sort is stable |
| ScatterChart.ThresholdSeries | src/components/scatterPlot/ScatterChart.tsx:111-123 | 0 entries give no points; the first point is (minX, first threshold); interior entries are unchanged; a last entry before maxX is kept and closed at maxX; otherwise it is replaced by (maxX, second-to-last threshold); so the series has n points, or n + 1 exactly when the last entry lies before maxX |
| ScatterChart.ThresholdSeriesCanRunBackwards | src/components/scatterPlot/ScatterChart.tsx:111-123 | the series need not run left to right: entries starting at 0, 5 and 100 against cycles spanning [10, 50] give points at x = 10, 5, 50 |
| ScatterChart.ThresholdSeriesNonDecreasing | src/components/scatterPlot/ScatterChart.tsx:111-123 | for sorted entries (at least two) whose entries after the first start no earlier than the first cycle and whose entries before the last start no later than the last cycle, every point has a numeric x and no point lies left of an earlier one |
| ScatterChart.BuildSeries | src/components/scatterPlot/ScatterChart.tsx:45-123 | no chart without both payloads or when an entry lacks the tool; otherwise the four series and the threshold series over the stably sorted thresholds |
| LineChart.FindLog | src/components/scatterPlot/LineChart.tsx:22-30 | the first entry in array order that starts at or before the cycle and is the last entry or is followed by a later start; none when no entry does |
| LineChart.FindFrom | src/components/scatterPlot/LineChart.tsx:22-30 | the search from index i finds the first covering entry at or after i |
| LineChart.FindLogOnSortedLogs | src/components/scatterPlot/LineChart.tsx:22-30 | on sorted entries, the result is the last entry starting at or before the cycle; there is none exactly when the cycle is earlier than every entry |
| LineChart.LastStartingBy | src/components/scatterPlot/LineChart.tsx:22-30 | on sorted entries, some entry starts at or before t and the next one starts after t |
| LineChart.IdealAt | src/components/scatterPlot/LineChart.tsx:48 | the stored ideal value when it is present and non-zero, else the last ideal value (both past-the-end and a stored 0 fall back); undefined exactly when the list is empty |
| LineChart.Align | src/components/scatterPlot/LineChart.tsx:44-50 | both series have one point per sample, with the same x values in order; actual y is the sample value and ideal y is `IdealAt` |
| LineChart.IdealData | src/components/scatterPlot/LineChart.tsx:22-32 | the ideal list is the average list of the entry found for the cycle's start, and is missing exactly when no entry is found or the entry lacks the tool |
| LineChart.ActualData | src/components/scatterPlot/LineChart.tsx:33-36 | the samples are the cycle log's spindle-load signal, missing when any lookup step fails |
| LineChart.BuildSeries | src/components/scatterPlot/LineChart.tsx:38-50 | no chart exactly when the ideal list or the samples are missing; otherwise the aligned series |
| ScatterPlotSlice.TimeSeriesSuffix | src/redux/slices/scatterPlotSlice.ts:48-50 | "red", "green" and "black" exactly for anomaly true, false and null |
| ScatterPlotSlice.MiddleDetermined | src/redux/slices/scatterPlotSlice.ts:47-51 | equal strings with equal prefix and suffix have equal middles |
| ScatterPlotSlice.TimeSeriesPathsDistinct | src/redux/slices/scatterPlotSlice.ts:47-51 | the three anomaly states fetch three different files |
| ScatterPlotSlice.TimeSeriesResult | src/redux/slices/scatterPlotSlice.ts:54-60 | the payload is returned exactly when it holds data for the cycle log id; otherwise the result is null |
| ScatterPlotSlice.WithField | src/redux/slices/scatterPlotSlice.ts:104 | only the named filter field changes |
| ScatterPlotSlice.StoredValue | src/redux/slices/scatterPlotSlice.ts:100-103 | a date is stored as its ISO string and text as is; null becomes the falsy `undefined` |
| ScatterPlotSlice.FirstKey | src/redux/slices/scatterPlotSlice.ts:139-140 | `sequences[0]`, or undefined for no keys |
| ScatterPlotSlice.ScatterPlotState.constructor | src/redux/slices/scatterPlotSlice.ts:64-88 | the initial state: tool "101", machine "Machine1-SSP0173", all dates now, no data, not loading, no errors |
| ScatterPlotSlice.ScatterPlotState.SetFilters | src/redux/slices/scatterPlotSlice.ts:94-105 | a non-empty value is stored in the named field only; an empty or null value changes nothing |
| ScatterPlotSlice.ScatterPlotState.SetSelectedTool | src/redux/slices/scatterPlotSlice.ts:106-108 | only `selectedTool` changes |
| ScatterPlotSlice.ScatterPlotState.ToggleComparison | src/redux/slices/scatterPlotSlice.ts:109-111 | `showComparison` is negated, so toggling twice restores it |
| ScatterPlotSlice.ScatterPlotState.Pending | src/redux/slices/scatterPlotSlice.ts:115-150 | its own loading flag is set and its own error cleared; no data slot changes |
| ScatterPlotSlice.ScatterPlotState.Rejected | src/redux/slices/scatterPlotSlice.ts:123-158 | its own loading flag is cleared and its own error set; previous data is kept |
| ScatterPlotSlice.ScatterPlotState.PredictionFulfilled | src/redux/slices/scatterPlotSlice.ts:119-122 | loading is cleared and the prediction slot becomes the payload |
| ScatterPlotSlice.ScatterPlotState.TimeSeriesFulfilled | src/redux/slices/scatterPlotSlice.ts:151-154 | loading is cleared and the time-series slot becomes the payload (possibly null) |
| ScatterPlotSlice.ScatterPlotState.ChangeLogFulfilled | src/redux/slices/scatterPlotSlice.ts:131-142 | with no first entry the reducer throws and nothing changes; otherwise the log is stored, and a tool missing from the first entry's map is replaced (in both `selectedTool` and `filters.tool`) by its first key; it keeps the invariant that a stored log has an entry |
| TreeViewSlice.TreeState.constructor | src/redux/slices/treeViewSlice.ts:19-27 | no data, not loading, no error |
| TreeViewSlice.TreeState.Pending | src/redux/slices/treeViewSlice.ts:35-38 | loading is set, the error cleared, and the data kept |
| TreeViewSlice.TreeState.Fulfilled | src/redux/slices/treeViewSlice.ts:39-42 | loading is cleared and the data becomes the payload |
| TreeViewSlice.TreeState.Rejected | src/redux/slices/treeViewSlice.ts:43-46 | loading is cleared, the error set, and the previous data kept |
| SearchBar.SomeDiffers | src/components/scatterPlot/SearchBar.tsx:107-109 | `some` is true exactly when some listed field differs from the snapshot |
| SearchBar.SomeCoreFieldDiffers | src/components/scatterPlot/SearchBar.tsx:99-109 | a core field differs exactly when the filters' core fields differ from the snapshot |
| SearchBar.ShouldFetch | src/components/scatterPlot/SearchBar.tsx:99-109 | a fetch is due exactly when a core field changed |
| SearchBar.WithValue | src/components/scatterPlot/SearchBar.tsx:120 | one reduce step sets one field and keeps the rest |
| SearchBar.SnapshotOf | src/components/scatterPlot/SearchBar.tsx:119-122 | the reduce yields the filters' core fields |
| SearchBar.SearchForm.constructor | src/components/scatterPlot/SearchBar.tsx:85-91 | the snapshot starts as the filters at mount |
| SearchBar.SearchForm.HandleSearch | src/components/scatterPlot/SearchBar.tsx:97-126 | a changed core field dispatches prediction and change-log fetches with the same query (`formatTime` of each date/time pair) and refreshes the snapshot; otherwise only `setSelectedTool(filters.tool)` is dispatched; afterwards an identical search does not fetch |
| ScatterPlotPage.UnprocessedCount | src/pages/ScatterPlot.tsx:34-41 | the number of spindle-load samples of the selected cycle, or 0 when there is no cycle, time series or signal; for a selected cycle it equals the number of points the signal chart plots for it, and is 0 when that chart plots none |
| ScatterPlotPage.Configuration | src/pages/ScatterPlot.tsx:32-33 | the first change-log entry's limits for the tool, when it has any |
| ScatterPlotPage.UnprocessedReason | src/pages/ScatterPlot.tsx:137-143 | the checks run in order: no configuration, more than max, less than min; the reason is empty exactly when min ≤ count ≤ max; with min ≤ max, "More" is given exactly above max and "Less" exactly below min |
| ScatterPlotPage.ShowReasonPanel | src/pages/ScatterPlot.tsx:119-123 | the panel shows exactly when the time series and change log exist and the selected cycle's anomaly for the tool is null; it throws when that cycle lacks the tool |
| ScatterPlotPage.PageView | src/pages/ScatterPlot.tsx:54-64 | a spinner exactly while prediction or change log loads; content exactly when neither loads and both payloads are present |

## Left out

- The dagre layered layout (`TreeGraph.tsx:28-42`) is a foreign library. Its node centres are the input `centreOf`, so the model does not say where nodes land within the connected layout.
- Network and async plumbing are left out: `axios.get`, the 1.5 s delays, thunk dispatch, toasts (including the page's error toast), `console.log`, and requests that resolve out of order. The thunks appear only as the reducers' pending, fulfilled and rejected transitions and the time-series file and result choice.
- Date parsing is not modelled. Start times are already-parsed integers, so `new Date(...).getTime()` and `moment` comparisons are integer comparisons. A `Date` picked in `setFilters` is given by its ISO string, and the exception `toISOString` raises on an invalid date is not modelled.
- The clock is a parameter: `new Date()` in the initial filters is the constructor argument `now`.
- `SelfConnectingEdge.tsx`, all rendering (Highcharts options, JSX/MUI, node colours, markers), `fitView`, zoom and the resize listener are left out.
- The sample-data highlighting of the scatter chart is left out. The source marks it as not part of the requirements.
- JsString.ToNumber: exact only for the empty string, digit strings up to 2^53 and text holding a character no numeric literal contains. Every other string is NaN in the model, although JavaScript reads a number from it: signs ("-5"), decimal points ("1.5"), exponents, `0x`/`0o`/`0b` literals ("0x1F" is 31), "Infinity" and surrounding white space. Digit strings beyond 2^53 lose precision in `Number`, and the model does not capture that. So `NewId` of "M0x1F" is "NaN" here but "31" in the dashboard.
- Truthiness of reals: NaN is not modelled. `th.y || 0` is the threshold itself, and `IdealAt` treats only 0 as falsy.
- ScatterChart.SortByX: the in-place `Array.prototype.sort` with a comparator is modelled on values, as a stable insertion sort. Update in place is not captured.
- TreeGraph.LayoutDisconnectedNodes: `map` builds a new array, so packing is modelled on sequences. Only `LayoutConnectedNodes` updates an array in place.
- CustomNode.NodeEditor: the component's props (`id`, `data`) are fixed for one render. The re-render after Save, under a new id and with new data, is not modelled. Neither is the deselection effect firing as a consequence of Save or Cancel. `SetSelected` models that effect on its own.
- Save renames a node, but the edges still refer to its old id. Edges are not part of the editor's model.
- `Machine.id`, `ideal_cycle_time`, `unprocessed_sequences`, `processed_time`, `end_time` and `custom_attributes` carry no logic in the core and are not modelled.
- Object enumeration order is an input. JavaScript enumerates integer-like keys (epoch seconds, tool keys such as "101") in ascending numeric order. The model takes the sequences in whatever order they are given and does not impose that order.
- ScatterPlotPage.Configuration requires a stored change log to have a first entry. The source would throw on `Result[0]` otherwise. `ScatterPlotState.Valid` shows that a stored log always has one, because the fulfilled reducer throws before committing an empty one.
- `errors` hold messages as `Option<string>`: `None` stands for both `undefined` and a rejection without a message.
- ScatterPlotSlice.FirstKey: an empty `tool_sequence_map` yields `undefined`, and then `selectedTool` and `filters.tool` hold `undefined`. The model writes `""` for it, so it does not tell that state apart from an empty tool name.
- React Flow's own selection handling is not modelled. `onNodesChange` (`TreeGraph.tsx:204`) applies the library's click and drag selection changes to the node list, and with selection enabled these deselect the other nodes. The model covers only the `onNodeClick` updater (`TreeGraph.tsx:169-178`), so it says nothing about which nodes end up selected after a click.
