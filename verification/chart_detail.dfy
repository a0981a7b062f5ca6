/**
 * The metric detail screen: the samples of the selected range, thinned to
 * a bounded number of points, and the figures shown beside the chart.
 */
module ChartDetail {
  import opened Wrappers
  import opened DayClock
  import opened Numbers
  import opened DayBuckets
  import opened TimeRangeModel
  import opened Measurement

  /** Which chart model the samples are: only distance samples, or no samples at all, have a running total. */
  datatype MetricKind = DistanceMetric | HeartRateMetric | Vo2MaxMetric

  /** The unit a detail screen shows its values in. */
  datatype MetricUnit = KmUnit | BpmUnit | Vo2MaxUnit

  const AllRangeLimit: int := 150
  const LongRangeLimit: int := 150
  const ShortRangeLimit: int := 60

  function Values(s: seq<Sample>): (vs: seq<real>)
    ensures |vs| == |s|
    ensures forall i :: 0 <= i < |s| ==> vs[i] == s[i].value
  {
    if s == [] then [] else Values(s[..|s| - 1]) + [s[|s| - 1].value]
  }

  // ---------------------------------------------------------------------
  // Downsampling

  /**
   * The element the stride lands on: with `step = n / limit` exactly, the
   * `i`-th stride point is `i * step` and `Int` of it is `(i * n) / limit`.
   */
  function StrideIndex(i: int, n: int, limit: int): (k: int)
    requires limit > 0
    ensures k * limit <= i * n < k * limit + limit
  {
    (i * n) / limit
  }

  /** The largest `k` with `k * limit <= x` is `x / limit`. */
  lemma DivLowerBound(x: int, k: int, limit: int)
    requires limit > 0 && x >= 0
    requires k * limit <= x
    ensures k <= x / limit
  {
    var q := x / limit;
    assert k * limit < (q + 1) * limit;
    MulCancel(k, q + 1, limit);
  }

  lemma MulCancel(a: int, b: int, c: int)
    requires c > 0 && a * c < b * c
    ensures a < b
  {
  }

  lemma StrideInBounds(i: int, n: int, limit: int)
    requires 0 < limit && 0 <= i < limit && n > 0
    ensures 0 <= StrideIndex(i, n, limit) < n
  {
    var x := i * n;
    assert 0 <= x;
    var q := x / limit;
    assert q * limit <= x;
    assert x < limit * n;
  }

  /** When there are more elements than points, consecutive stride points land on distinct, increasing elements. */
  lemma StrideIncreases(i: int, n: int, limit: int)
    requires 0 < limit < n && 0 <= i
    ensures StrideIndex(i, n, limit) < StrideIndex(i + 1, n, limit)
  {
    var q := (i * n) / limit;
    assert q * limit <= i * n;
    assert (q + 1) * limit <= (i + 1) * n;
    DivLowerBound((i + 1) * n, q + 1, limit);
  }

  lemma {:induction false} StrideMonotone(i: int, j: int, n: int, limit: int)
    requires 0 < limit < n && 0 <= i < j
    ensures StrideIndex(i, n, limit) < StrideIndex(j, n, limit)
    decreases j - i
  {
    StrideIncreases(j - 1, n, limit);
    if i < j - 1 {
      StrideMonotone(i, j - 1, n, limit);
    }
  }

  /**
   * `downsampled(_:limit:)`: the input itself when it has at most `limit`
   * elements, otherwise exactly `limit` of its elements, the first one
   * included, taken in their original order.
   */
  function Downsampled(data: seq<Sample>, limit: int): (r: seq<Sample>)
    requires limit > 0
    ensures |data| <= limit ==> r == data
    ensures |data| > limit ==> |r| == limit && r[0] == data[0]
    ensures |r| <= limit
    ensures forall x :: x in r ==> x in data
    ensures AscendingDates(data) ==> AscendingDates(r)
  {
    if |data| <= limit then data
    else
      var r := Strided(data, limit);
      DownsampledFacts(data, limit, r);
      r
  }

  /** `stride(from: 0, to: count, by: step)`: the sample at each stride index, in order. */
  function Strided(data: seq<Sample>, limit: int): (r: seq<Sample>)
    requires 0 < limit < |data|
    ensures |r| == limit
    ensures forall i :: 0 <= i < limit ==>
              0 <= StrideIndex(i, |data|, limit) < |data| && r[i] == data[StrideIndex(i, |data|, limit)]
  {
    var n := |data|;
    AllStridesInBounds(n, limit);
    seq(limit, i requires 0 <= i < limit => data[StrideIndex(i, n, limit)])
  }

  lemma AllStridesInBounds(n: int, limit: int)
    requires 0 < limit < n
    ensures forall i :: 0 <= i < limit ==> 0 <= StrideIndex(i, n, limit) < n
  {
    forall i | 0 <= i < limit
      ensures 0 <= StrideIndex(i, n, limit) < n
    {
      StrideInBounds(i, n, limit);
    }
  }

  lemma DownsampledFacts(data: seq<Sample>, limit: int, r: seq<Sample>)
    requires 0 < limit < |data|
    requires |r| == limit
    requires forall i :: 0 <= i < limit ==>
               0 <= StrideIndex(i, |data|, limit) < |data| && r[i] == data[StrideIndex(i, |data|, limit)]
    ensures r[0] == data[0]
    ensures forall x :: x in r ==> x in data
    ensures AscendingDates(data) ==> AscendingDates(r)
  {
    var n := |data|;
    assert StrideIndex(0, n, limit) == 0;
    if AscendingDates(data) {
      forall i, j | 0 <= i < j < |r|
        ensures r[i].date < r[j].date
      {
        StrideMonotone(i, j, n, limit);
      }
    }
  }

  // ---------------------------------------------------------------------
  // The selected range

  /** The samples dated at or after `days` days before `now`. */
  function SamplesSince(samples: seq<Sample>, now: int, days: int): (r: seq<Sample>)
    ensures forall x :: x in r <==> x in samples && x.date >= AddDays(now, -days)
  {
    Filter(samples, (x: Sample) => x.date >= AddDays(now, -days))
  }

  /** The point budget of a range: 150 beyond 200 days, otherwise 60. */
  function LimitFor(daysBack: int): (l: int)
    ensures l > 0
    ensures daysBack > 200 <==> l == LongRangeLimit
  {
    if daysBack > 200 then LongRangeLimit else ShortRangeLimit
  }

  /**
   * `filteredSamples`: the whole history thinned to 150 points for the
   * "all" range; otherwise the range's samples thinned to its budget.
   */
  function FilteredSamples(samples: seq<Sample>, range: TimeRange, now: int): (r: seq<Sample>)
    ensures |r| <= 150
    ensures DaysBack(range).Some? ==> |r| <= LimitFor(DaysBack(range).value)
    ensures DaysBack(range).Some? && |SamplesSince(samples, now, DaysBack(range).value)| > LimitFor(DaysBack(range).value) ==>
              |r| == LimitFor(DaysBack(range).value)
    ensures range == All && |samples| > AllRangeLimit ==> |r| == AllRangeLimit
    ensures forall x :: x in r ==> x in samples
    ensures forall x :: x in r && DaysBack(range).Some? ==> x.date >= AddDays(now, -DaysBack(range).value)
    ensures AscendingDates(samples) ==> AscendingDates(r)
    ensures range == All && |samples| <= AllRangeLimit ==> r == samples
    ensures DaysBack(range).Some? && |SamplesSince(samples, now, DaysBack(range).value)| <= LimitFor(DaysBack(range).value) ==>
              r == SamplesSince(samples, now, DaysBack(range).value)
  {
    match DaysBack(range)
    case None => Downsampled(samples, AllRangeLimit)
    case Some(days) =>
      var filtered := SamplesSince(samples, now, days);
      FilterKeepsAscending(samples, (x: Sample) => x.date >= AddDays(now, -days));
      Downsampled(filtered, LimitFor(days))
  }

  /** Filtering keeps ascending dates ascending. */
  lemma {:induction false} FilterKeepsAscending(s: seq<Sample>, p: Sample -> bool)
    ensures AscendingDates(s) ==> AscendingDates(Filter(s, p))
  {
    if s != [] && AscendingDates(s) {
      var init := s[..|s| - 1];
      var last := s[|s| - 1];
      FilterKeepsAscending(init, p);
      var f := Filter(init, p);
      forall k | 0 <= k < |f|
        ensures f[k].date < last.date
      {
        assert f[k] in init;
      }
    }
  }

  // ---------------------------------------------------------------------
  // Figures beside the chart

  /**
   * `averageValue`: 0 with no samples; otherwise the mean value, which lies
   * between the smallest and the largest value.
   */
  function AverageValue(fs: seq<Sample>): (r: real)
    ensures fs == [] ==> r == 0.0
    ensures fs != [] ==> r == Mean(Values(fs))
    ensures fs != [] ==> exists i :: 0 <= i < |fs| && fs[i].value <= r
    ensures fs != [] ==> exists j :: 0 <= j < |fs| && r <= fs[j].value
  {
    if fs == [] then 0.0
    else
      AverageBetweenExtremes(fs);
      Sum(Values(fs)) / (|fs| as real)
  }

  lemma AverageBetweenExtremes(fs: seq<Sample>)
    requires fs != []
    ensures exists i :: 0 <= i < |fs| && fs[i].value <= Mean(Values(fs))
    ensures exists j :: 0 <= j < |fs| && Mean(Values(fs)) <= fs[j].value
  {
    var vs := Values(fs);
    var hi, lo := BestIndex(fs), LeastIndex(fs);
    forall i | 0 <= i < |vs|
      ensures fs[lo].value <= vs[i] <= fs[hi].value
    {
      assert vs[i] == fs[i].value;
    }
    MeanBetween(vs, fs[lo].value, fs[hi].value);
  }

  /** The position of the first sample whose value no other sample undercuts. */
  function LeastIndex(fs: seq<Sample>): (k: int)
    requires fs != []
    ensures 0 <= k < |fs|
    ensures forall j :: 0 <= j < |fs| ==> fs[k].value <= fs[j].value
    ensures forall j :: 0 <= j < k ==> fs[k].value < fs[j].value
  {
    if |fs| == 1 then 0
    else
      var init := fs[..|fs| - 1];
      var k := LeastIndex(init);
      assert forall j :: 0 <= j < |init| ==> init[j] == fs[j];
      if fs[|fs| - 1].value < fs[k].value then |fs| - 1 else k
  }

  /**
   * `max(by:)` on value: none for no samples, otherwise the first sample
   * whose value no other exceeds.
   */
  function BestSample(fs: seq<Sample>): (b: Option<Sample>)
    ensures b.None? <==> fs == []
    ensures b.Some? ==> b.value in fs
    ensures b.Some? ==> forall x :: x in fs ==> x.value <= b.value.value
    ensures b.Some? ==> exists k :: 0 <= k < |fs| && fs[k] == b.value && forall j :: 0 <= j < k ==> fs[j].value < b.value.value
  {
    if fs == [] then None
    else
      var k := BestIndex(fs);
      assert forall x :: x in fs ==> exists j :: 0 <= j < |fs| && fs[j] == x;
      Some(fs[k])
  }

  /** The position of the first sample whose value no other sample exceeds. */
  function BestIndex(fs: seq<Sample>): (k: int)
    requires fs != []
    ensures 0 <= k < |fs|
    ensures forall j :: 0 <= j < |fs| ==> fs[j].value <= fs[k].value
    ensures forall j :: 0 <= j < k ==> fs[j].value < fs[k].value
  {
    if |fs| == 1 then 0
    else
      var k := BestIndex(fs[..|fs| - 1]);
      if fs[k].value < fs[|fs| - 1].value then |fs| - 1 else k
  }

  /**
   * `totalRunningDistance`: the summed values when the samples cast to
   * distance samples. The array cast checks element by element, so it
   * succeeds for distance samples and for an empty list of any kind, which
   * totals 0. The total is the average shown beside it taken once per
   * sample, and with no negative value it is at least every single sample.
   */
  function TotalRunningDistance(kind: MetricKind, fs: seq<Sample>): (r: Option<real>)
    ensures r.Some? <==> kind == DistanceMetric || fs == []
    ensures r.Some? ==> r.value == Sum(Values(fs))
    ensures fs == [] ==> r == Some(0.0)
    ensures r.Some? && fs != [] ==> r.value == AverageValue(fs) * (|fs| as real)
    ensures r.Some? && (forall i :: 0 <= i < |fs| ==> fs[i].value >= 0.0) ==>
              forall i :: 0 <= i < |fs| ==> fs[i].value <= r.value
  {
    if kind == DistanceMetric || fs == [] then
      TotalAtLeastEachSample(fs);
      if fs != [] then
        TotalIsAverageTimesCount(fs);
        Some(Sum(Values(fs)))
      else
        Some(Sum(Values(fs)))
    else None
  }

  /** The summed values are the average taken once per sample. */
  lemma TotalIsAverageTimesCount(fs: seq<Sample>)
    requires fs != []
    ensures Sum(Values(fs)) == AverageValue(fs) * (|fs| as real)
  {
    MeanTimesCount(Values(fs), AverageValue(fs), |fs| as real);
  }

  lemma TotalAtLeastEachSample(fs: seq<Sample>)
    ensures (forall i :: 0 <= i < |fs| ==> fs[i].value >= 0.0) ==>
              forall i :: 0 <= i < |fs| ==> fs[i].value <= Sum(Values(fs))
  {
    var vs := Values(fs);
    if forall i :: 0 <= i < |fs| ==> fs[i].value >= 0.0 {
      forall i | 0 <= i < |fs|
        ensures fs[i].value <= Sum(vs)
      {
        TermAtMostSum(vs, i);
      }
    }
  }

  /** The average shown never exceeds the best sample's value. */
  lemma AverageAtMostBest(fs: seq<Sample>)
    requires fs != []
    ensures AverageValue(fs) <= BestSample(fs).value.value
  {
    var k := BestIndex(fs);
    assert BestSample(fs) == Some(fs[k]);
    MeanAtMost(Values(fs), fs[k].value);
  }

  // ---------------------------------------------------------------------
  // The chart view

  function Distance(a: int, b: int): int {
    if a >= b then a - b else b - a
  }

  /**
   * `selectedValue`: none without a selected date or without samples;
   * otherwise the first sample nearest the selected date (`min(by:)`).
   */
  function SelectedValue(fs: seq<Sample>, selected: Option<int>): (r: Option<Sample>)
    ensures r.None? <==> selected.None? || fs == []
    ensures r.Some? ==> r.value in fs
    ensures r.Some? ==> forall x :: x in fs ==> Distance(r.value.date, selected.value) <= Distance(x.date, selected.value)
    ensures r.Some? ==>
              exists k :: 0 <= k < |fs| && fs[k] == r.value &&
                forall j :: 0 <= j < k ==> Distance(r.value.date, selected.value) < Distance(fs[j].date, selected.value)
  {
    match selected
    case None => None
    case Some(t) => Nearest(fs, t)
  }

  /** `min(by:)` on the distance to `t`: the first of the samples nearest `t`. */
  function Nearest(fs: seq<Sample>, t: int): (r: Option<Sample>)
    ensures r.None? <==> fs == []
    ensures r.Some? ==> r.value in fs
    ensures r.Some? ==> forall x :: x in fs ==> Distance(r.value.date, t) <= Distance(x.date, t)
    ensures r.Some? ==>
              exists k :: 0 <= k < |fs| && fs[k] == r.value &&
                forall j :: 0 <= j < k ==> Distance(r.value.date, t) < Distance(fs[j].date, t)
  {
    if fs == [] then None
    else
      var k := NearestIndex(fs, t);
      assert forall x :: x in fs ==> exists j :: 0 <= j < |fs| && fs[j] == x;
      Some(fs[k])
  }

  /** The position of the first sample that no other sample is nearer `t` than. */
  function NearestIndex(fs: seq<Sample>, t: int): (k: int)
    requires fs != []
    ensures 0 <= k < |fs|
    ensures forall j :: 0 <= j < |fs| ==> Distance(fs[k].date, t) <= Distance(fs[j].date, t)
    ensures forall j :: 0 <= j < k ==> Distance(fs[k].date, t) < Distance(fs[j].date, t)
  {
    if |fs| == 1 then 0
    else
      var k := NearestIndex(fs[..|fs| - 1], t);
      if Distance(fs[|fs| - 1].date, t) < Distance(fs[k].date, t) then |fs| - 1 else k
  }

  /** The top of the y axis: the largest value shown, or 1 with nothing to show. */
  function YDomainUpper(fs: seq<Sample>): (u: real)
    ensures fs == [] ==> u == 1.0
    ensures forall x :: x in fs ==> x.value <= u
    ensures fs != [] ==> exists x :: x in fs && x.value == u
  {
    match BestSample(fs)
    case None => 1.0
    case Some(b) => b.value
  }

  /** `MetricUnit.convertDistance`: only kilometres depend on the measurement system. */
  function UnitConvert(unit: MetricUnit, system: MeasurementSystem, value: real): (r: real)
    ensures unit != KmUnit ==> r == value
  {
    match unit
    case KmUnit => if system == Metric then value else value / KmPerMile
    case BpmUnit => value
    case Vo2MaxUnit => value
  }

  /** `MetricUnit.unitSymbol`: only the kilometre unit's symbol follows the measurement system. */
  function UnitSymbol(unit: MetricUnit, system: MeasurementSystem): (s: string)
    ensures unit == KmUnit ==> s == DistanceUnitSymbol(system)
    ensures unit != KmUnit ==> s != "km" && s != "mi"
  {
    match unit
    case KmUnit => if system == Metric then "km" else "mi"
    case BpmUnit => "bpm"
    case Vo2MaxUnit => "ml/kg/min"
  }

  /** The screen's kilometre unit converts and labels exactly as the measurement-system extension does. */
  lemma KmUnitAgreesWithMeasurement(system: MeasurementSystem, value: real)
    ensures UnitConvert(KmUnit, system, value) == ConvertDistance(system, value)
    ensures UnitSymbol(KmUnit, system) == DistanceUnitSymbol(system)
  {
  }

  /** The three units have three different symbols in every system. */
  lemma UnitSymbolsDistinct(a: MetricUnit, b: MetricUnit, system: MeasurementSystem)
    ensures UnitSymbol(a, system) == UnitSymbol(b, system) <==> a == b
  {
  }
}
