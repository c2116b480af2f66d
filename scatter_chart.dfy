/**
 * `src/components/scatterPlot/ScatterChart.tsx`: the series behind the
 * scatter chart. Each cycle with data for the selected tool becomes a point
 * in one of four series; the change-log thresholds become a step series
 * stretched over the cycles' time range.
 */
module ScatterChart {
  import opened Wrappers
  import JsString
  import opened ScatterPlotTypes

  // ---------------------------------------------------------------- classification

  datatype Series = Unprocessed | Anomalies | Normals | Unknown

  /**
   * The series a cycle's point joins for `tool`, or `None` when the cycle has
   * no data for the tool and is skipped. An unprocessed cycle is unprocessed
   * whatever its anomaly flag says.
   */
  function ClassOf(c: Cycle, tool: string): (r: Option<Series>)
    ensures r.None? <==> tool !in c.data
    ensures r == Some(Unprocessed) <==> tool in c.data && !c.anamolyProcessed
    ensures r == Some(Anomalies) <==> tool in c.data && c.anamolyProcessed && c.data[tool].anomaly == Some(true)
    ensures r == Some(Normals) <==> tool in c.data && c.anamolyProcessed && c.data[tool].anomaly == Some(false)
    ensures r == Some(Unknown) <==> tool in c.data && c.anamolyProcessed && c.data[tool].anomaly.None?
  {
    if tool !in c.data then None
    else if !c.anamolyProcessed then Some(Unprocessed)
    else match c.data[tool].anomaly
      case Some(true) => Some(Anomalies)
      case Some(false) => Some(Normals)
      case None => Some(Unknown)
  }

  /** A scatter point: epoch in milliseconds, the tool's distance, and the cycle it stands for. */
  datatype ScatterPoint = ScatterPoint(x: int, y: real, cycle: Cycle)

  function PointOf(e: CycleEntry, tool: string): ScatterPoint
    requires tool in e.cycle.data
  {
    ScatterPoint(e.epoch * 1000, e.cycle.data[tool].distance, e.cycle)
  }

  /** The points series `s` receives from `cycles`, in iteration order. */
  function SeriesPoints(cycles: seq<CycleEntry>, tool: string, s: Series): (r: seq<ScatterPoint>)
    ensures |r| <= |cycles|
    ensures forall p :: p in r ==> ClassOf(p.cycle, tool) == Some(s)
  {
    if |cycles| == 0 then []
    else
      var e := cycles[|cycles| - 1];
      var rest := SeriesPoints(cycles[..|cycles| - 1], tool, s);
      if ClassOf(e.cycle, tool) == Some(s) then rest + [PointOf(e, tool)] else rest
  }

  /** The points of every cycle that has data for `tool`, skipped ones left out. */
  function KeptPoints(cycles: seq<CycleEntry>, tool: string): (r: seq<ScatterPoint>)
    ensures |r| <= |cycles|
  {
    if |cycles| == 0 then []
    else
      var e := cycles[|cycles| - 1];
      var rest := KeptPoints(cycles[..|cycles| - 1], tool);
      if tool in e.cycle.data then rest + [PointOf(e, tool)] else rest
  }

  /** Every kept cycle's point is in exactly one of the four series. */
  lemma {:induction false} SeriesPartition(cycles: seq<CycleEntry>, tool: string)
    ensures multiset(SeriesPoints(cycles, tool, Unprocessed)) + multiset(SeriesPoints(cycles, tool, Anomalies))
          + multiset(SeriesPoints(cycles, tool, Normals)) + multiset(SeriesPoints(cycles, tool, Unknown))
         == multiset(KeptPoints(cycles, tool))
  {
    if |cycles| > 0 {
      var init, e := cycles[..|cycles| - 1], cycles[|cycles| - 1];
      SeriesPartition(init, tool);
      if tool in e.cycle.data {
        var one := multiset{PointOf(e, tool)};
        assert multiset(KeptPoints(cycles, tool)) == multiset(KeptPoints(init, tool)) + one;
        AddToOnePart(multiset(SeriesPoints(init, tool, Unprocessed)), multiset(SeriesPoints(init, tool, Anomalies)),
                     multiset(SeriesPoints(init, tool, Normals)), multiset(SeriesPoints(init, tool, Unknown)),
                     multiset(KeptPoints(init, tool)), one);
      }
    }
  }

  /** Adding `x` to any one of four parts that make up `whole` adds it to the whole. */
  lemma AddToOnePart<T>(a: multiset<T>, b: multiset<T>, c: multiset<T>, d: multiset<T>, whole: multiset<T>, x: multiset<T>)
    requires a + b + c + d == whole
    ensures (a + x) + b + c + d == whole + x
    ensures a + (b + x) + c + d == whole + x
    ensures a + b + (c + x) + d == whole + x
    ensures a + b + c + (d + x) == whole + x
  {
  }

  /** The classification loop: four arrays filled by one pass over the cycles. */
  method Classify(cycles: seq<CycleEntry>, tool: string)
    returns (unprocessed: seq<ScatterPoint>, anomalies: seq<ScatterPoint>,
             normals: seq<ScatterPoint>, unknown: seq<ScatterPoint>)
    ensures unprocessed == SeriesPoints(cycles, tool, Unprocessed)
    ensures anomalies == SeriesPoints(cycles, tool, Anomalies)
    ensures normals == SeriesPoints(cycles, tool, Normals)
    ensures unknown == SeriesPoints(cycles, tool, Unknown)
  {
    unprocessed, anomalies, normals, unknown := [], [], [], [];
    for i := 0 to |cycles|
      invariant unprocessed == SeriesPoints(cycles[..i], tool, Unprocessed)
      invariant anomalies == SeriesPoints(cycles[..i], tool, Anomalies)
      invariant normals == SeriesPoints(cycles[..i], tool, Normals)
      invariant unknown == SeriesPoints(cycles[..i], tool, Unknown)
    {
      assert cycles[..i + 1][..i] == cycles[..i];
      var cycle := cycles[i].cycle;
      if tool in cycle.data {
        var point := ScatterPoint(cycles[i].epoch * 1000, cycle.data[tool].distance, cycle);
        if !cycle.anamolyProcessed {
          unprocessed := unprocessed + [point];
        } else if cycle.data[tool].anomaly == Some(true) {
          anomalies := anomalies + [point];
        } else if cycle.data[tool].anomaly == Some(false) {
          normals := normals + [point];
        } else {
          unknown := unknown + [point];
        }
      }
    }
    assert cycles[..|cycles|] == cycles;
  }

  // ---------------------------------------------------------------- x range

  /** A chart x value: `NaN` where the source multiplies `undefined` by 1000. */
  datatype XValue = NaN | X(x: int)

  /** `x < bound`, false against NaN as every comparison with NaN is. */
  predicate Below(x: int, bound: XValue) {
    bound.X? && x < bound.x
  }

  function Epochs(cycles: seq<CycleEntry>): (r: seq<nat>)
    ensures |r| == |cycles| && forall k :: 0 <= k < |cycles| ==> r[k] == cycles[k].epoch
  {
    if |cycles| == 0 then [] else [cycles[0].epoch] + Epochs(cycles[1..])
  }

  /** `minX`: the first epoch of the default (string-order) sort, in milliseconds; NaN without cycles. */
  function MinX(cycles: seq<CycleEntry>): (r: XValue)
    ensures r.NaN? <==> |cycles| == 0
    ensures r.X? ==> exists k :: 0 <= k < |cycles| && r.x == cycles[k].epoch * 1000
  {
    if |cycles| == 0 then NaN
    else
      var m := JsString.SortFirst(Epochs(cycles));
      assert exists k :: 0 <= k < |cycles| && Epochs(cycles)[k] == m;
      X(m * 1000)
  }

  /** `maxX`: the last epoch of the default sort, in milliseconds; NaN without cycles. */
  function MaxX(cycles: seq<CycleEntry>): (r: XValue)
    ensures r.NaN? <==> |cycles| == 0
    ensures r.X? ==> exists k :: 0 <= k < |cycles| && r.x == cycles[k].epoch * 1000
  {
    if |cycles| == 0 then NaN
    else
      var m := JsString.SortLast(Epochs(cycles));
      assert exists k :: 0 <= k < |cycles| && Epochs(cycles)[k] == m;
      X(m * 1000)
  }

  /**
   * When all epochs have the same number of digits (every epoch-seconds value
   * from September 2001 to November 2286 has ten) the range is the true
   * minimum and maximum, taken over all cycles, skipped ones included.
   */
  lemma RangeIsNumericForSameWidthEpochs(cycles: seq<CycleEntry>)
    requires |cycles| > 0
    requires forall i, j :: 0 <= i < |cycles| && 0 <= j < |cycles| ==>
      |JsString.NatToString(cycles[i].epoch)| == |JsString.NatToString(cycles[j].epoch)|
    ensures MinX(cycles).X? && MaxX(cycles).X?
    ensures forall k :: 0 <= k < |cycles| ==> MinX(cycles).x <= cycles[k].epoch * 1000 <= MaxX(cycles).x
  {
    var es := Epochs(cycles);
    forall x, y | x in es && y in es ensures |JsString.NatToString(x)| == |JsString.NatToString(y)| {
      var i :| 0 <= i < |es| && es[i] == x;
      var j :| 0 <= j < |es| && es[j] == y;
    }
    JsString.SortEndsAreNumericWhenSameWidth(es);
    forall k | 0 <= k < |cycles| ensures MinX(cycles).x <= cycles[k].epoch * 1000 <= MaxX(cycles).x {
      assert es[k] in es;
    }
  }

  /** With epochs of different widths the range is not the numeric one. */
  lemma RangeOfMixedWidthEpochs(c: Cycle)
    ensures MinX([CycleEntry(9, c), CycleEntry(10, c)]) == X(10000)
    ensures MaxX([CycleEntry(9, c), CycleEntry(10, c)]) == X(9000)
  {
    var cycles := [CycleEntry(9, c), CycleEntry(10, c)];
    assert Epochs(cycles) == [9, 10];
    JsString.SortIsNotNumeric();
  }

  // ---------------------------------------------------------------- thresholds

  /** A change-log threshold: the entry's start time, its threshold for the tool, its id. */
  datatype RawThreshold = RawThreshold(x: int, y: real, id: string)

  /** A point of the threshold series. */
  datatype ThresholdPoint = ThresholdPoint(x: XValue, y: real, id: string)

  function AsPoint(t: RawThreshold): ThresholdPoint {
    ThresholdPoint(X(t.x), t.y, t.id)
  }

  /**
   * `logs.map(...)` reading each entry's threshold for the tool; `None` when
   * an entry has no learned parameters for it, where the source throws and
   * the chart is abandoned.
   */
  function RawThresholds(logs: seq<LogEntry>, tool: string): (r: Option<seq<RawThreshold>>)
    ensures r.Some? <==> forall k :: 0 <= k < |logs| ==> tool in logs[k].learned
    ensures r.Some? ==> |r.value| == |logs| && forall k :: 0 <= k < |logs| ==>
      r.value[k] == RawThreshold(logs[k].startTime, logs[k].learned[tool].threshold, logs[k].id)
  {
    if |logs| == 0 then Some([])
    else if tool !in logs[0].learned then None
    else match RawThresholds(logs[1..], tool)
      case None => None
      case Some(rest) =>
        Some([RawThreshold(logs[0].startTime, logs[0].learned[tool].threshold, logs[0].id)] + rest)
  }

  predicate SortedByX(s: seq<RawThreshold>) {
    forall i, j :: 0 <= i < j < |s| ==> s[i].x <= s[j].x
  }

  /** Insert `t` before the first element whose x is not less than its own. */
  function Insert(t: RawThreshold, s: seq<RawThreshold>): (r: seq<RawThreshold>)
    ensures multiset(r) == multiset(s) + multiset{t}
    ensures |r| == |s| + 1
  {
    if |s| == 0 || t.x <= s[0].x then [t] + s
    else
      assert s == [s[0]] + s[1..];
      [s[0]] + Insert(t, s[1..])
  }

  /** The comparator sort `(a, b) => a.x - b.x`, stable as `Array.prototype.sort` is. */
  function SortByX(s: seq<RawThreshold>): (r: seq<RawThreshold>)
    ensures multiset(r) == multiset(s)
    ensures |r| == |s|
  {
    if |s| == 0 then []
    else
      assert s == [s[0]] + s[1..];
      Insert(s[0], SortByX(s[1..]))
  }

  lemma {:induction false} InsertSorted(t: RawThreshold, s: seq<RawThreshold>)
    requires SortedByX(s)
    ensures SortedByX(Insert(t, s))
  {
    if |s| > 0 && t.x > s[0].x {
      InsertSorted(t, s[1..]);
      var r := Insert(t, s[1..]);
      forall v | v in r ensures s[0].x <= v.x {
        assert v in multiset(r);
        assert v == t || v in multiset(s[1..]);
      }
    }
  }

  lemma {:induction false} SortByXSorted(s: seq<RawThreshold>)
    ensures SortedByX(SortByX(s))
  {
    if |s| > 0 {
      SortByXSorted(s[1..]);
      InsertSorted(s[0], SortByX(s[1..]));
    }
  }

  /** The entries whose x is `v`, in order. */
  function WithX(s: seq<RawThreshold>, v: int): seq<RawThreshold>
  {
    if |s| == 0 then [] else (if s[0].x == v then [s[0]] else []) + WithX(s[1..], v)
  }

  lemma {:induction false} InsertWithX(t: RawThreshold, s: seq<RawThreshold>, v: int)
    requires SortedByX(s)
    ensures WithX(Insert(t, s), v) == (if t.x == v then [t] else []) + WithX(s, v)
  {
    if |s| > 0 && t.x > s[0].x {
      InsertWithX(t, s[1..], v);
      assert Insert(t, s) == [s[0]] + Insert(t, s[1..]);
      assert (Insert(t, s))[1..] == Insert(t, s[1..]);
      if t.x == v {
        assert WithX(s, v) == WithX(s[1..], v) by {
          assert s[0].x < v;
        }
      }
    } else {
      assert (([t] + s))[1..] == s;
    }
  }

  /** Stability: entries with equal x keep their input order. */
  lemma {:induction false} SortByXStable(s: seq<RawThreshold>, v: int)
    ensures WithX(SortByX(s), v) == WithX(s, v)
  {
    if |s| > 0 {
      SortByXStable(s[1..], v);
      SortByXSorted(s[1..]);
      InsertWithX(s[0], SortByX(s[1..]), v);
    }
  }

  /**
   * What the threshold loop produces from the sorted entries: the first
   * point is moved to `minX`; the interior points are kept; the last entry is
   * kept and closed with a point at `maxX` when it lies before `maxX`, and is
   * otherwise replaced by a point at `maxX` carrying the second-to-last
   * entry's threshold.
   */
  predicate IsThresholdSeries(r: seq<ThresholdPoint>, sorted: seq<RawThreshold>, minX: XValue, maxX: XValue)
  {
    var n := |sorted|;
    && (n == 0 ==> r == [])
    && (n == 1 ==> r == [ThresholdPoint(minX, sorted[0].y, sorted[0].id)])
    && (n >= 2 ==>
      && |r| >= n
      && r[0] == ThresholdPoint(minX, sorted[0].y, sorted[0].id)
      && (forall i :: 0 < i < n - 1 ==> r[i] == AsPoint(sorted[i]))
      && (Below(sorted[n - 1].x, maxX) ==>
            |r| == n + 1 && r[n - 1] == AsPoint(sorted[n - 1])
            && r[n] == ThresholdPoint(maxX, sorted[n - 1].y, sorted[n - 1].id))
      && (!Below(sorted[n - 1].x, maxX) ==>
            |r| == n && r[n - 1] == ThresholdPoint(maxX, sorted[n - 2].y, sorted[n - 1].id)))
  }

  /** The `forEach` over the sorted thresholds that fills the threshold series. */
  method ThresholdSeries(sorted: seq<RawThreshold>, minX: XValue, maxX: XValue) returns (threshold: seq<ThresholdPoint>)
    ensures IsThresholdSeries(threshold, sorted, minX, maxX)
    ensures |threshold| == |sorted| || (|sorted| >= 2 && |threshold| == |sorted| + 1 && Below(sorted[|sorted| - 1].x, maxX))
  {
    var n := |sorted|;
    threshold := [];
    for i := 0 to n
      invariant i == 0 ==> threshold == []
      invariant 0 < i < n ==> |threshold| == i
      invariant 0 < i ==> |threshold| >= 1 && threshold[0] == ThresholdPoint(minX, sorted[0].y, sorted[0].id)
      invariant forall j :: 0 < j < i && j < n - 1 ==> j < |threshold| && threshold[j] == AsPoint(sorted[j])
      invariant i == n ==> IsThresholdSeries(threshold, sorted, minX, maxX)
    {
      var th := sorted[i];
      if i == 0 {
        threshold := threshold + [ThresholdPoint(minX, th.y, th.id)];
      } else if i + 1 == n {
        var beforeLast := sorted[n - 2];
        if Below(th.x, maxX) {
          threshold := threshold + [AsPoint(th)];
          threshold := threshold + [ThresholdPoint(maxX, th.y, th.id)];
        } else {
          threshold := threshold + [ThresholdPoint(maxX, beforeLast.y, th.id)];
        }
      } else {
        threshold := threshold + [AsPoint(th)];
      }
    }
  }

  /** Every point has a numeric x and no point lies to the left of an earlier one. */
  predicate NonDecreasing(r: seq<ThresholdPoint>) {
    && (forall k :: 0 <= k < |r| ==> r[k].x.X?)
    && (forall i, j :: 0 <= i < j < |r| ==> r[i].x.X? && r[j].x.X? && r[i].x.x <= r[j].x.x)
  }

  /**
   * The first point is moved to `minX` whatever the second entry's start:
   * entries starting at 0, 5 and 100 against cycles spanning [10, 50] give
   * points at 10, 5 and 50, so the threshold line runs backwards.
   */
  lemma ThresholdSeriesCanRunBackwards(r: seq<ThresholdPoint>)
    requires IsThresholdSeries(r, [RawThreshold(0, 1.0, "a"), RawThreshold(5, 2.0, "b"), RawThreshold(100, 3.0, "c")], X(10), X(50))
    ensures !NonDecreasing(r)
  {
    assert r[0].x == X(10) && r[1].x == X(5);
  }

  /**
   * The series runs left to right when the entries after the first start no
   * earlier than the first cycle and the entries before the last start no
   * later than the last cycle.
   */
  lemma {:induction false} ThresholdSeriesNonDecreasing(r: seq<ThresholdPoint>, s: seq<RawThreshold>, minX: int, maxX: int)
    requires |s| >= 2 && SortedByX(s) && minX <= maxX
    requires minX <= s[1].x && s[|s| - 2].x <= maxX
    requires IsThresholdSeries(r, s, X(minX), X(maxX))
    ensures NonDecreasing(r)
  {
    var n := |s|;
    forall k | 0 <= k < |r|
      ensures r[k].x.X?
      ensures k == 0 ==> r[k].x.x == minX
      ensures 0 < k < |r| - 1 ==> r[k].x.x == s[k].x
      ensures k == |r| - 1 ==> r[k].x.x == maxX
    {
    }
    forall i, j | 0 <= i < j < |r| ensures r[i].x.X? && r[j].x.X? && r[i].x.x <= r[j].x.x {
      if i == 0 && j < |r| - 1 {
        assert s[1].x <= s[j].x;
      } else if 0 < i && j == |r| - 1 {
        assert s[i].x <= s[n - 2].x || i == n - 1;
      }
    }
  }

  // ---------------------------------------------------------------- the chart

  /** The five series the chart plots. */
  datatype ChartSeries = ChartSeries(
    unprocessed: seq<ScatterPoint>,
    anomalies: seq<ScatterPoint>,
    normals: seq<ScatterPoint>,
    unknown: seq<ScatterPoint>,
    threshold: seq<ThresholdPoint>)

  /**
   * The `useMemo` body: no chart without both payloads or when a change-log
   * entry lacks the tool's learned parameters; otherwise the four scatter
   * series and the threshold series over the stably sorted entries.
   */
  method BuildSeries(prediction: Option<PredictionData>, changeLog: Option<ChangeLogData>, tool: string)
    returns (chart: Option<ChartSeries>)
    ensures chart.None? <==>
      prediction.None? || changeLog.None? || RawThresholds(changeLog.value.logs, tool).None?
    ensures chart.Some? ==>
      var cycles := prediction.value.cycles;
      && chart.value.unprocessed == SeriesPoints(cycles, tool, Unprocessed)
      && chart.value.anomalies == SeriesPoints(cycles, tool, Anomalies)
      && chart.value.normals == SeriesPoints(cycles, tool, Normals)
      && chart.value.unknown == SeriesPoints(cycles, tool, Unknown)
      && IsThresholdSeries(chart.value.threshold,
           SortByX(RawThresholds(changeLog.value.logs, tool).value), MinX(cycles), MaxX(cycles))
  {
    if prediction.None? || changeLog.None? {
      return None;
    }
    var cycles := prediction.value.cycles;
    var unprocessed, anomalies, normals, unknown := Classify(cycles, tool);
    var raw := RawThresholds(changeLog.value.logs, tool);
    if raw.None? {
      return None;
    }
    var sorted := SortByX(raw.value);
    var threshold := ThresholdSeries(sorted, MinX(cycles), MaxX(cycles));
    chart := Some(ChartSeries(unprocessed, anomalies, normals, unknown, threshold));
  }
}
