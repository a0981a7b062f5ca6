/**
 * Grouping runs by calendar day (`Dictionary(grouping:by:)` keyed by the
 * start of day), reducing each day's runs to one value, and emitting the
 * days in ascending order — the shape of every chart series in the app.
 */
module DayBuckets {
  import opened Wrappers
  import opened DayClock
  import opened Numbers
  import opened RunDayModel
  import opened Streak

  /** A chart point: a day start and a value (the shape of `ChartMetric`). */
  datatype Sample = Sample(date: int, value: real)

  predicate AscendingDates(r: seq<Sample>) {
    forall i, j :: 0 <= i < j < |r| ==> r[i].date < r[j].date
  }

  /** The runs of day `d`, in input order: one value list of the grouping dictionary. */
  function RunsOn(runs: seq<RunDay>, d: int): (g: seq<RunDay>)
    ensures forall x :: x in g <==> x in runs && DayOf(x) == d
  {
    Filter(runs, (x: RunDay) => DayOf(x) == d)
  }

  /** The sample of day `d`, or none when its reduction is absent. */
  function Reduced(d: int, runs: seq<RunDay>, reduce: seq<RunDay> -> Option<real>): seq<Sample> {
    match reduce(RunsOn(runs, d))
    case Some(v) => [Sample(d, v)]
    case None => []
  }

  /**
   * Walks the days newest first and appends each reduced day after the
   * older ones, so the output comes out oldest first.
   */
  function Emit(ds: seq<int>, runs: seq<RunDay>, reduce: seq<RunDay> -> Option<real>): seq<Sample>
    decreases |ds|
  {
    if ds == [] then [] else Emit(ds[1..], runs, reduce) + Reduced(ds[0], runs, reduce)
  }

  lemma {:induction false} EmitSound(ds: seq<int>, runs: seq<RunDay>, reduce: seq<RunDay> -> Option<real>)
    ensures forall i :: 0 <= i < |Emit(ds, runs, reduce)| ==>
              var s := Emit(ds, runs, reduce)[i];
              s.date in ds && reduce(RunsOn(runs, s.date)) == Some(s.value)
    decreases |ds|
  {
    if ds != [] {
      EmitSound(ds[1..], runs, reduce);
      assert forall d :: d in ds[1..] ==> d in ds;
    }
  }

  lemma {:induction false} EmitComplete(ds: seq<int>, runs: seq<RunDay>, reduce: seq<RunDay> -> Option<real>, d: int)
    requires d in ds && reduce(RunsOn(runs, d)).Some?
    ensures exists i :: 0 <= i < |Emit(ds, runs, reduce)| && Emit(ds, runs, reduce)[i].date == d
    decreases |ds|
  {
    var rest := Emit(ds[1..], runs, reduce);
    var r := Emit(ds, runs, reduce);
    assert r == rest + Reduced(ds[0], runs, reduce);
    if d == ds[0] {
      assert Reduced(d, runs, reduce) == [Sample(d, reduce(RunsOn(runs, d)).value)];
      assert r[|rest|].date == d;
    } else {
      assert d in ds[1..];
      EmitComplete(ds[1..], runs, reduce, d);
      var i :| 0 <= i < |rest| && rest[i].date == d;
      assert r[i] == rest[i];
    }
  }

  lemma {:induction false} EmitAscending(ds: seq<int>, runs: seq<RunDay>, reduce: seq<RunDay> -> Option<real>)
    requires StrictlyDecreasing(ds)
    ensures AscendingDates(Emit(ds, runs, reduce))
    decreases |ds|
  {
    if ds != [] {
      var rest := Emit(ds[1..], runs, reduce);
      EmitAscending(ds[1..], runs, reduce);
      EmitSound(ds[1..], runs, reduce);
      assert forall i :: 0 <= i < |rest| ==> rest[i].date < ds[0];
    }
  }

  /**
   * Groups runs by day and reduces each day's runs; a day whose reduction is
   * absent is dropped. One sample per kept day, in ascending date order.
   */
  function GroupByDay(runs: seq<RunDay>, reduce: seq<RunDay> -> Option<real>): (r: seq<Sample>)
    ensures AscendingDates(r)
    ensures forall i :: 0 <= i < |r| ==>
              r[i].date in DaySet(runs) && reduce(RunsOn(runs, r[i].date)) == Some(r[i].value)
    ensures forall d :: d in DaySet(runs) && reduce(RunsOn(runs, d)).Some? ==>
              exists i :: 0 <= i < |r| && r[i].date == d
  {
    var ds := DaysDescending(runs);
    EmitSound(ds, runs, reduce);
    forall d | d in DaySet(runs) && reduce(RunsOn(runs, d)).Some?
      ensures exists i :: 0 <= i < |Emit(ds, runs, reduce)| && Emit(ds, runs, reduce)[i].date == d
    {
      EmitComplete(ds, runs, reduce, d);
    }
    EmitAscending(ds, runs, reduce);
    Emit(ds, runs, reduce)
  }

  // ---------------------------------------------------------------------
  // Metric selectors

  function DistanceMeters(r: RunDay): Option<real> {
    Some(r.distanceInMeters)
  }

  function HeartRateOf(r: RunDay): Option<real> {
    r.avgHeartRate
  }

  function Vo2MaxOf(r: RunDay): Option<real> {
    r.vo2Max
  }

  /** The selected values of a day's runs that are present and greater than zero. */
  function ValidValues(group: seq<RunDay>, key: RunDay -> Option<real>): seq<real> {
    Positives(CompactMap(group, key))
  }

  /** The reduction of `groupRunsByDay`: mean of the valid values, absent when there are none. */
  function MeanOfValid(group: seq<RunDay>, key: RunDay -> Option<real>): Option<real> {
    var valid := ValidValues(group, key);
    if |valid| == 0 then None else Some(Mean(valid))
  }

  /** `MeanOfValid` as the reduction passed to `GroupByDay`. */
  function MeanOfValidBy(key: RunDay -> Option<real>): seq<RunDay> -> Option<real> {
    g => MeanOfValid(g, key)
  }

  /**
   * `groupRunsByDay`: one sample per day that has a valid value, ascending,
   * each the mean of that day's valid values; days without one are omitted,
   * so no emitted average is zero or negative.
   */
  function GroupRunsByDay(runs: seq<RunDay>, key: RunDay -> Option<real>): (r: seq<Sample>)
    ensures AscendingDates(r)
    ensures forall i :: 0 <= i < |r| ==>
              && r[i].date in DaySet(runs)
              && |ValidValues(RunsOn(runs, r[i].date), key)| > 0
              && r[i].value == Mean(ValidValues(RunsOn(runs, r[i].date), key))
              && r[i].value > 0.0
    ensures forall d :: d in DaySet(runs) && |ValidValues(RunsOn(runs, d), key)| > 0 ==>
              exists i :: 0 <= i < |r| && r[i].date == d
  {
    var r := GroupByDay(runs, MeanOfValidBy(key));
    MeansArePositive(runs, key, r);
    r
  }

  lemma MeansArePositive(runs: seq<RunDay>, key: RunDay -> Option<real>, r: seq<Sample>)
    requires r == GroupByDay(runs, MeanOfValidBy(key))
    ensures forall i :: 0 <= i < |r| ==> r[i].value > 0.0
  {
    forall i | 0 <= i < |r|
      ensures r[i].value > 0.0
    {
      SumPositive(ValidValues(RunsOn(runs, r[i].date), key));
    }
  }

  /** Divides every value by 1000 (metres to kilometres), keeping the dates. */
  function ToKm(s: seq<Sample>): (r: seq<Sample>)
    ensures |r| == |s|
    ensures forall i :: 0 <= i < |s| ==> r[i] == Sample(s[i].date, s[i].value / 1000.0)
  {
    if s == [] then [] else ToKm(s[..|s| - 1]) + [Sample(s[|s| - 1].date, s[|s| - 1].value / 1000.0)]
  }

  /** `groupedDistance`: the per-day mean distance of runs with positive distance, in kilometres. */
  function GroupedDistance(runs: seq<RunDay>): (r: seq<Sample>)
    ensures AscendingDates(r)
    ensures forall i :: 0 <= i < |r| ==>
              && r[i].date in DaySet(runs)
              && |ValidValues(RunsOn(runs, r[i].date), DistanceMeters)| > 0
              && r[i].value == Mean(ValidValues(RunsOn(runs, r[i].date), DistanceMeters)) / 1000.0
    ensures forall d :: d in DaySet(runs) && |ValidValues(RunsOn(runs, d), DistanceMeters)| > 0 ==>
              exists i :: 0 <= i < |r| && r[i].date == d
  {
    var means := GroupRunsByDay(runs, DistanceMeters);
    GroupedDistanceFacts(runs, means);
    ToKm(means)
  }

  lemma GroupedDistanceFacts(runs: seq<RunDay>, means: seq<Sample>)
    requires means == GroupRunsByDay(runs, DistanceMeters)
    ensures AscendingDates(ToKm(means))
    ensures forall i :: 0 <= i < |means| ==>
              && means[i].date in DaySet(runs)
              && |ValidValues(RunsOn(runs, means[i].date), DistanceMeters)| > 0
              && ToKm(means)[i].date == means[i].date
              && ToKm(means)[i].value == Mean(ValidValues(RunsOn(runs, means[i].date), DistanceMeters)) / 1000.0
    ensures forall d :: d in DaySet(runs) && |ValidValues(RunsOn(runs, d), DistanceMeters)| > 0 ==>
              exists i :: 0 <= i < |ToKm(means)| && ToKm(means)[i].date == d
  {
    var r := ToKm(means);
    forall d | d in DaySet(runs) && |ValidValues(RunsOn(runs, d), DistanceMeters)| > 0
      ensures exists i :: 0 <= i < |r| && r[i].date == d
    {
      ToKmKeepsDay(means, d);
    }
    ToKmAscending(means);
  }

  /** Converting to kilometres keeps the days in ascending order. */
  lemma ToKmAscending(means: seq<Sample>)
    requires AscendingDates(means)
    ensures AscendingDates(ToKm(means))
  {
    var r := ToKm(means);
    forall i, j | 0 <= i < j < |r|
      ensures r[i].date < r[j].date
    {
      assert r[i].date == means[i].date && r[j].date == means[j].date;
    }
  }

  /** Converting to kilometres keeps the day of every point. */
  lemma ToKmKeepsDay(means: seq<Sample>, d: int)
    requires exists i :: 0 <= i < |means| && means[i].date == d
    ensures exists i :: 0 <= i < |ToKm(means)| && ToKm(means)[i].date == d
  {
    var i :| 0 <= i < |means| && means[i].date == d;
    assert ToKm(means)[i].date == d;
  }

  /**
   * `groupedHeartRate`: one point per day with a positive heart rate, valued at the mean of
   * that day's positive readings, in ascending order of day.
   */
  function GroupedHeartRate(runs: seq<RunDay>): (r: seq<Sample>)
    ensures AscendingDates(r)
    ensures forall i :: 0 <= i < |r| ==>
              && r[i].date in DaySet(runs)
              && |ValidValues(RunsOn(runs, r[i].date), HeartRateOf)| > 0
              && r[i].value == Mean(ValidValues(RunsOn(runs, r[i].date), HeartRateOf))
              && r[i].value > 0.0
    ensures forall d :: d in DaySet(runs) && |ValidValues(RunsOn(runs, d), HeartRateOf)| > 0 ==>
              exists i :: 0 <= i < |r| && r[i].date == d
  {
    GroupRunsByDay(runs, HeartRateOf)
  }

  /**
   * `groupedVo2Max`: one point per day with a positive VO2max, valued at the mean of
   * that day's positive readings, in ascending order of day.
   */
  function GroupedVo2Max(runs: seq<RunDay>): (r: seq<Sample>)
    ensures AscendingDates(r)
    ensures forall i :: 0 <= i < |r| ==>
              && r[i].date in DaySet(runs)
              && |ValidValues(RunsOn(runs, r[i].date), Vo2MaxOf)| > 0
              && r[i].value == Mean(ValidValues(RunsOn(runs, r[i].date), Vo2MaxOf))
              && r[i].value > 0.0
    ensures forall d :: d in DaySet(runs) && |ValidValues(RunsOn(runs, d), Vo2MaxOf)| > 0 ==>
              exists i :: 0 <= i < |r| && r[i].date == d
  {
    GroupRunsByDay(runs, Vo2MaxOf)
  }

  lemma FirstTwoDecrease(ds: seq<int>)
    requires StrictlyDecreasing(ds)
    ensures |ds| >= 2 ==> ds[0] > ds[1]
  {
  }

  /** When all runs fall on one day, grouping yields at most that one day's reduction. */
  lemma SingleDay(runs: seq<RunDay>, d: int, reduce: seq<RunDay> -> Option<real>)
    requires runs != []
    requires forall i :: 0 <= i < |runs| ==> DayOf(runs[i]) == d
    ensures GroupByDay(runs, reduce) ==
              match reduce(runs) case Some(v) => [Sample(d, v)] case None => []
  {
    var ds := DaysDescending(runs);
    assert DayOf(runs[0]) in DaySet(runs);
    assert forall y :: y in DaySet(runs) ==> y == d;
    assert ds[0] == d;
    assert forall i :: 0 <= i < |ds| ==> ds[i] == d;
    FirstTwoDecrease(ds);
    assert ds == [d];
    FilterAll(runs, (x: RunDay) => DayOf(x) == d);
    assert RunsOn(runs, d) == runs;
    assert Emit(ds, runs, reduce) == Emit([], runs, reduce) + Reduced(d, runs, reduce);
  }

  lemma TwoValid(a: RunDay, b: RunDay)
    requires a.distanceInMeters > 0.0 && b.distanceInMeters > 0.0
    ensures ValidValues([a, b], DistanceMeters) == [a.distanceInMeters, b.distanceInMeters]
  {
    var runs := [a, b];
    var valid := [a.distanceInMeters, b.distanceInMeters];
    assert runs[..1] == [a];
    assert CompactMap(runs[..1], DistanceMeters) == [a.distanceInMeters] by {
      assert runs[..1][..0] == [];
    }
    assert CompactMap(runs, DistanceMeters) == valid;
    FilterAll(valid, (x: real) => x > 0.0);
  }

  /** All runs on one day: the grouping is that day's mean of valid values, or nothing. */
  lemma SingleDayMean(runs: seq<RunDay>, key: RunDay -> Option<real>, d: int)
    requires runs != []
    requires forall i :: 0 <= i < |runs| ==> DayOf(runs[i]) == d
    ensures |ValidValues(runs, key)| > 0 ==>
              GroupRunsByDay(runs, key) == [Sample(d, Mean(ValidValues(runs, key)))]
    ensures |ValidValues(runs, key)| == 0 ==> GroupRunsByDay(runs, key) == []
  {
    SingleDay(runs, d, MeanOfValidBy(key));
  }

  /**
   * Two runs on the same day with positive distances give a single sample,
   * the mean of the two in kilometres (5 km and 3 km give 4 km).
   */
  lemma SameDayDistancesAverage(a: RunDay, b: RunDay)
    requires DayOf(a) == DayOf(b)
    requires a.distanceInMeters > 0.0 && b.distanceInMeters > 0.0
    ensures var g := GroupedDistance([a, b]);
              && |g| == 1 && g[0].date == DayOf(a)
              && g[0].value == (a.distanceInMeters + b.distanceInMeters) / 2.0 / 1000.0
  {
    TwoValid(a, b);
    SumOfTwo(a.distanceInMeters, b.distanceInMeters);
    assert forall i :: 0 <= i < |[a, b]| ==> DayOf([a, b][i]) == DayOf(a);
    SingleDayMean([a, b], DistanceMeters, DayOf(a));
    var v := ValidValues([a, b], DistanceMeters);
    assert Mean(v) == (a.distanceInMeters + b.distanceInMeters) / 2.0;
    KmOfSingleMean([a, b], DayOf(a), Mean(v));
  }

  lemma KmOfSingleMean(runs: seq<RunDay>, d: int, m: real)
    requires GroupRunsByDay(runs, DistanceMeters) == [Sample(d, m)]
    ensures GroupedDistance(runs) == [Sample(d, m / 1000.0)]
  {
    ToKmSingle(d, m);
    GroupedDistanceUnfold(runs);
  }

  lemma ToKmSingle(d: int, v: real)
    ensures ToKm([Sample(d, v)]) == [Sample(d, v / 1000.0)]
  {
  }

  lemma GroupedDistanceUnfold(runs: seq<RunDay>)
    ensures GroupedDistance(runs) == ToKm(GroupRunsByDay(runs, DistanceMeters))
  {
  }

  // ---------------------------------------------------------------------
  // 30-day trend charts

  /** The earliest instant of the trailing window of `days` days. */
  function WindowStart(now: int, days: int): int {
    AddDays(now, -days)
  }

  /** The reduction of the heart-rate and VO2max trend charts: sum of the present values over the number of runs. */
  function MeanOverRuns(group: seq<RunDay>, key: RunDay -> Option<real>): Option<real> {
    if |group| == 0 then None else Some(Sum(CompactMap(group, key)) / (|group| as real))
  }

  /** `MeanOverRuns` as the reduction passed to `GroupByDay`. */
  function MeanOverRunsBy(key: RunDay -> Option<real>): seq<RunDay> -> Option<real> {
    g => MeanOverRuns(g, key)
  }

  /**
   * The trend series of one optional metric: runs of the last 30 days with
   * the metric present, one point per day, ascending, each the mean of that
   * day's values (zero readings included).
   */
  function PresentMeanTrend(runs: seq<RunDay>, now: int, key: RunDay -> Option<real>): (r: seq<Sample>)
    ensures AscendingDates(r)
    ensures forall i :: 0 <= i < |r| ==>
              var g := RunsOn(RecentWith(runs, now, key), r[i].date);
              |CompactMap(g, key)| > 0 && r[i].value == Mean(CompactMap(g, key))
    ensures forall x :: x in runs && x.date >= WindowStart(now, 30) && key(x).Some? ==>
              exists i :: 0 <= i < |r| && r[i].date == DayOf(x)
    ensures r == [] <==> forall x :: x in runs ==> x.date < WindowStart(now, 30) || key(x).None?
  {
    var recent := RecentWith(runs, now, key);
    var r := GroupByDay(recent, MeanOverRunsBy(key));
    PresentMeanTrendFacts(runs, now, key, r);
    r
  }

  lemma PresentMeanTrendFacts(runs: seq<RunDay>, now: int, key: RunDay -> Option<real>, r: seq<Sample>)
    requires r == GroupByDay(RecentWith(runs, now, key), MeanOverRunsBy(key))
    ensures forall i :: 0 <= i < |r| ==>
              var g := RunsOn(RecentWith(runs, now, key), r[i].date);
              |CompactMap(g, key)| > 0 && r[i].value == Mean(CompactMap(g, key))
    ensures forall x :: x in runs && x.date >= WindowStart(now, 30) && key(x).Some? ==>
              exists i :: 0 <= i < |r| && r[i].date == DayOf(x)
    ensures r == [] <==> forall x :: x in runs ==> x.date < WindowStart(now, 30) || key(x).None?
  {
    PresentMeanValues(runs, now, key, r);
    PresentMeanCovers(runs, now, key, r);
    if r != [] {
      var recent := RecentWith(runs, now, key);
      assert r[0].date in DaySet(recent);
      var x :| x in recent && DayOf(x) == r[0].date;
      assert x in runs && x.date >= WindowStart(now, 30) && key(x).Some?;
    }
  }

  lemma PresentMeanValues(runs: seq<RunDay>, now: int, key: RunDay -> Option<real>, r: seq<Sample>)
    requires r == GroupByDay(RecentWith(runs, now, key), MeanOverRunsBy(key))
    ensures forall i :: 0 <= i < |r| ==>
              var g := RunsOn(RecentWith(runs, now, key), r[i].date);
              |CompactMap(g, key)| > 0 && r[i].value == Mean(CompactMap(g, key))
  {
    var recent := RecentWith(runs, now, key);
    forall i | 0 <= i < |r|
      ensures var g := RunsOn(recent, r[i].date);
              |CompactMap(g, key)| > 0 && r[i].value == Mean(CompactMap(g, key))
    {
      PresentMeanPoint(recent, key, r[i].date, r[i].value);
    }
  }

  /** In a group whose runs all carry the reading, the mean over runs is the mean of the readings. */
  lemma PresentMeanPoint(recent: seq<RunDay>, key: RunDay -> Option<real>, d: int, v: real)
    requires forall x :: x in recent ==> key(x).Some?
    requires MeanOverRuns(RunsOn(recent, d), key) == Some(v)
    ensures |CompactMap(RunsOn(recent, d), key)| > 0
    ensures v == Mean(CompactMap(RunsOn(recent, d), key))
  {
    var g := RunsOn(recent, d);
    assert forall k :: 0 <= k < |g| ==> g[k] in g;
    assert |CompactMap(g, key)| == |g|;
  }

  lemma PresentMeanCovers(runs: seq<RunDay>, now: int, key: RunDay -> Option<real>, r: seq<Sample>)
    requires r == GroupByDay(RecentWith(runs, now, key), MeanOverRunsBy(key))
    ensures forall x :: x in runs && x.date >= WindowStart(now, 30) && key(x).Some? ==>
              exists i :: 0 <= i < |r| && r[i].date == DayOf(x)
  {
    var recent := RecentWith(runs, now, key);
    forall x | x in runs && x.date >= WindowStart(now, 30) && key(x).Some?
      ensures exists i :: 0 <= i < |r| && r[i].date == DayOf(x)
    {
      assert x in recent;
      assert DayOf(x) in DaySet(recent);
      assert x in RunsOn(recent, DayOf(x));
    }
  }

  /** `recentRuns`: the runs of the last 30 days whose metric is present. */
  function RecentWith(runs: seq<RunDay>, now: int, key: RunDay -> Option<real>): (r: seq<RunDay>)
    ensures forall x :: x in r <==> x in runs && x.date >= WindowStart(now, 30) && key(x).Some?
  {
    Filter(runs, (x: RunDay) => x.date >= WindowStart(now, 30) && key(x).Some?)
  }

  /** `HeartRateTrendChart.groupedSamples`; an empty series shows the placeholder. */
  function HeartRateTrend(runs: seq<RunDay>, now: int): (r: seq<Sample>)
    ensures AscendingDates(r)
    ensures r == [] <==>
              forall x :: x in runs ==> x.date < WindowStart(now, 30) || x.avgHeartRate.None?
  {
    PresentMeanTrend(runs, now, HeartRateOf)
  }

  /** `Vo2MaxTrendChart.groupedSamples`; an empty series shows the placeholder. */
  function Vo2MaxTrend(runs: seq<RunDay>, now: int): (r: seq<Sample>)
    ensures AscendingDates(r)
    ensures r == [] <==>
              forall x :: x in runs ==> x.date < WindowStart(now, 30) || x.vo2Max.None?
  {
    PresentMeanTrend(runs, now, Vo2MaxOf)
  }

  /** A day whose only reading is 0 still gets a point, with value 0. */
  lemma ZeroHeartRateIsKept(d: int)
    requires IsDayStart(d)
    ensures HeartRateTrend([MakeRunDay(0, d, 0.0, 0.0, None, None, Some(0.0), None)], d)
            == [Sample(d, 0.0)]
  {
    var x := MakeRunDay(0, d, 0.0, 0.0, None, None, Some(0.0), None);
    var recent := RecentWith([x], d, HeartRateOf);
    FilterAll([x], (y: RunDay) => y.date >= WindowStart(d, 30) && HeartRateOf(y).Some?);
    assert recent == [x];
    SingleDay(recent, d, MeanOverRunsBy(HeartRateOf));
    assert CompactMap([x], HeartRateOf) == [0.0];
    assert Sum([0.0]) == 0.0 by {
      assert [0.0][..0] == [];
    }
  }

  /** The reduction of the distance trend chart: the day's total kilometres. */
  function SumKm(group: seq<RunDay>): Option<real> {
    Some(Sum(MapReal(group, Km)))
  }

  /** The runs of the last 30 days, unfiltered by metric. */
  function RecentRuns(runs: seq<RunDay>, now: int): (r: seq<RunDay>)
    ensures forall x :: x in r <==> x in runs && x.date >= WindowStart(now, 30)
  {
    Filter(runs, (x: RunDay) => x.date >= WindowStart(now, 30))
  }

  /**
   * `DistanceTrendChart.groupedRuns`: every day of the last 30 days that has
   * a run gets one point, ascending, valued at the sum (not the mean) of its
   * kilometres — a day of zero-distance runs appears with value 0.
   */
  function DistanceTrend(runs: seq<RunDay>, now: int): (r: seq<Sample>)
    ensures AscendingDates(r)
    ensures forall i :: 0 <= i < |r| ==>
              r[i].value == Sum(MapReal(RunsOn(RecentRuns(runs, now), r[i].date), Km))
    ensures forall x :: x in runs && x.date >= WindowStart(now, 30) ==>
              exists i :: 0 <= i < |r| && r[i].date == DayOf(x)
    ensures forall i :: 0 <= i < |r| ==>
              exists x :: x in runs && x.date >= WindowStart(now, 30) && DayOf(x) == r[i].date
  {
    var recent := RecentRuns(runs, now);
    var r := GroupByDay(recent, SumKm);
    DistanceTrendCovers(runs, now, r);
    r
  }

  lemma DistanceTrendCovers(runs: seq<RunDay>, now: int, r: seq<Sample>)
    requires r == GroupByDay(RecentRuns(runs, now), SumKm)
    ensures forall x :: x in runs && x.date >= WindowStart(now, 30) ==>
              exists i :: 0 <= i < |r| && r[i].date == DayOf(x)
    ensures forall i :: 0 <= i < |r| ==>
              exists x :: x in runs && x.date >= WindowStart(now, 30) && DayOf(x) == r[i].date
  {
    var recent := RecentRuns(runs, now);
    forall x | x in runs && x.date >= WindowStart(now, 30)
      ensures exists i :: 0 <= i < |r| && r[i].date == DayOf(x)
    {
      assert x in recent;
      assert DayOf(x) in DaySet(recent);
    }
    forall i | 0 <= i < |r|
      ensures exists x :: x in runs && x.date >= WindowStart(now, 30) && DayOf(x) == r[i].date
    {
      assert r[i].date in DaySet(recent);
      var x :| x in recent && DayOf(x) == r[i].date;
    }
  }
}
