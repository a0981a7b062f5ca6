/**
 * The home screen's seven-day figures and today's-run check. The view model
 * and the two home views compute them differently: the view model averages
 * the positive values of a metric, the views sum distance and average every
 * present reading, zeros included.
 */
module RollingWindow {
  import opened Wrappers
  import opened DayClock
  import opened Numbers
  import opened RunDayModel
  import opened DayBuckets

  /** The runs dated at or after `days` days before `now`, in input order. */
  function InWindow(runs: seq<RunDay>, now: int, days: int): (w: seq<RunDay>)
    ensures forall x :: x in w <==> x in runs && x.date >= WindowStart(now, days)
  {
    Filter(runs, (x: RunDay) => x.date >= WindowStart(now, days))
  }

  function Meters(r: RunDay): real {
    r.distanceInMeters
  }

  /** The view model's distance selector, `distanceInMeters / 1000`. */
  function KmOf(r: RunDay): Option<real> {
    Some(Km(r))
  }

  // ---------------------------------------------------------------------
  // View model: mean of the positive values

  /**
   * `metricAverage(days:key:)`: the mean of the window's present, positive
   * values, or 0 when there is none. It is positive exactly when some run
   * of the window has a positive value.
   */
  function MetricAverage(runs: seq<RunDay>, now: int, days: int, key: RunDay -> Option<real>): (r: real)
    ensures r >= 0.0
    ensures r > 0.0 <==>
              exists x :: x in runs && x.date >= WindowStart(now, days) && key(x).Some? && key(x).value > 0.0
    ensures var valid := Positives(CompactMap(InWindow(runs, now, days), key));
            |valid| > 0 ==> r == Mean(valid)
  {
    var valid := Positives(CompactMap(InWindow(runs, now, days), key));
    PositivesWitness(runs, now, days, key);
    if |valid| == 0 then 0.0 else SumPositive(valid); Mean(valid)
  }

  lemma PositivesWitness(runs: seq<RunDay>, now: int, days: int, key: RunDay -> Option<real>)
    ensures var valid := Positives(CompactMap(InWindow(runs, now, days), key));
            |valid| > 0 <==>
              exists x :: x in runs && x.date >= WindowStart(now, days) && key(x).Some? && key(x).value > 0.0
  {
    var w := InWindow(runs, now, days);
    var valid := Positives(CompactMap(w, key));
    if |valid| > 0 {
      assert valid[0] in valid;
      var x :| x in w && key(x) == Some(valid[0]);
      assert x in runs && x.date >= WindowStart(now, days) && key(x).Some? && key(x).value > 0.0;
    }
    if exists x :: x in runs && x.date >= WindowStart(now, days) && key(x).Some? && key(x).value > 0.0 {
      var x :| x in runs && x.date >= WindowStart(now, days) && key(x).Some? && key(x).value > 0.0;
      assert x in w;
      assert key(x).value in CompactMap(w, key);
      assert key(x).value in valid;
    }
  }

  /** The average never exceeds a bound that every windowed reading respects. */
  lemma MetricAverageAtMost(runs: seq<RunDay>, now: int, days: int, key: RunDay -> Option<real>, c: real)
    requires c >= 0.0
    requires forall x :: x in runs && x.date >= WindowStart(now, days) && key(x).Some? ==> key(x).value <= c
    ensures MetricAverage(runs, now, days, key) <= c
  {
    var valid := Positives(CompactMap(InWindow(runs, now, days), key));
    if |valid| > 0 {
      forall i | 0 <= i < |valid|
        ensures valid[i] <= c
      {
        assert valid[i] in valid;
      }
      MeanAtMost(valid, c);
    }
  }

  /** The view model's seven-day "total distance": the mean (not the sum) of the positive per-run kilometres. */
  function VmTotalDistanceLast7Days(runs: seq<RunDay>, now: int): (r: real)
    ensures r > 0.0 <==> exists x :: x in runs && x.date >= WindowStart(now, 7) && x.distanceInMeters > 0.0
  {
    MetricAverage(runs, now, 7, KmOf)
  }

  function VmAvgHeartRateLast7Days(runs: seq<RunDay>, now: int): (r: real)
    ensures r > 0.0 <==>
              exists x :: x in runs && x.date >= WindowStart(now, 7) && x.avgHeartRate.Some? && x.avgHeartRate.value > 0.0
  {
    MetricAverage(runs, now, 7, HeartRateOf)
  }

  function VmAvgVo2MaxLast7Days(runs: seq<RunDay>, now: int): (r: real)
    ensures r > 0.0 <==>
              exists x :: x in runs && x.date >= WindowStart(now, 7) && x.vo2Max.Some? && x.vo2Max.value > 0.0
  {
    MetricAverage(runs, now, 7, Vo2MaxOf)
  }

  // ---------------------------------------------------------------------
  // Today

  /** The runs dated today, in input order. */
  function TodayRuns(runs: seq<RunDay>, now: int): (t: seq<RunDay>)
    ensures forall x :: x in t <==> x in runs && IsToday(x.date, now)
  {
    Filter(runs, (x: RunDay) => IsToday(x.date, now))
  }

  /** The metres run today. */
  function TodayMeters(runs: seq<RunDay>, now: int): real {
    Sum(MapReal(TodayRuns(runs, now), Meters))
  }

  /**
   * `hasCompletedTodayRun`: today's summed distance is positive. When no
   * distance is negative, that is exactly when some run dated today has a
   * positive distance.
   */
  function HasCompletedTodayRun(runs: seq<RunDay>, now: int): (b: bool)
    ensures (forall x :: x in runs ==> x.distanceInMeters >= 0.0) ==>
              (b <==> exists x :: x in runs && IsToday(x.date, now) && x.distanceInMeters > 0.0)
  {
    TodayMetersPositiveIffPositiveRun(runs, now);
    TodayMeters(runs, now) > 0.0
  }

  /**
   * Today's distance in kilometres (the badge and the summary's
   * `todayDistanceKm`): the kilometres of today's runs added up, never
   * negative when no distance is.
   */
  function TodayDistanceKm(runs: seq<RunDay>, now: int): (r: real)
    ensures r == Sum(MapReal(TodayRuns(runs, now), Km))
    ensures (forall x :: x in runs ==> x.distanceInMeters >= 0.0) ==> r >= 0.0
  {
    var t := TodayRuns(runs, now);
    SumScale(MapReal(t, Meters), MapReal(t, Km), 1.0 / 1000.0);
    assert forall i :: 0 <= i < |t| ==> t[i] in t;
    if forall x :: x in runs ==> x.distanceInMeters >= 0.0 then
      SumNonNegative(MapReal(t, Meters));
      TodayMeters(runs, now) / 1000.0
    else
      TodayMeters(runs, now) / 1000.0
  }

  /**
   * The home views show the "today's run complete" badge when today's
   * kilometres are positive: on every input, exactly when the view model
   * counts today as done.
   */
  function TodayBadgeShown(runs: seq<RunDay>, now: int): (b: bool)
    ensures b <==> HasCompletedTodayRun(runs, now)
  {
    TodayMeters(runs, now) / 1000.0 > 0.0
  }

  /**
   * When no distance is negative, today's metres are positive exactly when
   * some run dated today has a positive distance.
   */
  lemma TodayMetersPositiveIffPositiveRun(runs: seq<RunDay>, now: int)
    ensures (forall x :: x in runs ==> x.distanceInMeters >= 0.0) ==>
              (TodayMeters(runs, now) > 0.0 <==>
                 exists x :: x in runs && IsToday(x.date, now) && x.distanceInMeters > 0.0)
  {
    if forall x :: x in runs ==> x.distanceInMeters >= 0.0 {
      var t := TodayRuns(runs, now);
      var ms := MapReal(t, Meters);
      assert forall i :: 0 <= i < |ms| ==> t[i] in t && ms[i] >= 0.0;
      if TodayMeters(runs, now) > 0.0 {
        SumPositiveHasPositiveTerm(ms);
        var i :| 0 <= i < |ms| && ms[i] > 0.0;
        assert t[i] in t;
      }
      if exists x :: x in runs && IsToday(x.date, now) && x.distanceInMeters > 0.0 {
        var x :| x in runs && IsToday(x.date, now) && x.distanceInMeters > 0.0;
        assert x in t;
        var k :| 0 <= k < |t| && t[k] == x;
        SumWithPositiveTerm(ms, k);
      }
    }
  }

  // ---------------------------------------------------------------------
  // Home views: sum of distance, mean of every present reading

  /** `totalDistanceLast7Days` of the home views: windowed metres summed, then divided by 1000. */
  function TotalDistanceLast7Days(runs: seq<RunDay>, now: int): (r: real)
    ensures r == Sum(MapReal(InWindow(runs, now, 7), Km))
    ensures (forall x :: x in runs ==> x.distanceInMeters >= 0.0) ==> r >= 0.0
  {
    var w := InWindow(runs, now, 7);
    SumScale(MapReal(w, Meters), MapReal(w, Km), 1.0 / 1000.0);
    assert forall i :: 0 <= i < |w| ==> w[i] in w;
    if forall x :: x in runs ==> x.distanceInMeters >= 0.0 then
      SumNonNegative(MapReal(w, Meters));
      Sum(MapReal(w, Meters)) / 1000.0
    else
      Sum(MapReal(w, Meters)) / 1000.0
  }

  /** `x != nil` for a selected reading. */
  function Present(key: RunDay -> Option<real>): RunDay -> bool {
    x => key(x).Some?
  }

  /** The reading with `?? 0`. */
  function ValueOrZero(key: RunDay -> Option<real>): RunDay -> real {
    x => key(x).GetOr(0.0)
  }

  /**
   * `avgHeartRateLast7Days` / `avgVo2MaxLast7Days` of the home views: the
   * windowed runs with a present reading, their readings summed (absent as
   * 0) over their count, or 0 when there is none. Equivalently, the mean of
   * every present reading of the window, zeros included.
   */
  function PresentMean(runs: seq<RunDay>, now: int, days: int, key: RunDay -> Option<real>): (r: real)
    ensures CompactMap(InWindow(runs, now, days), key) == [] ==> r == 0.0
    ensures CompactMap(InWindow(runs, now, days), key) != [] ==>
              r == Mean(CompactMap(InWindow(runs, now, days), key))
  {
    var w := InWindow(runs, now, days);
    var recent := Filter(w, Present(key));
    PresentReadings(w, key);
    if |recent| == 0 then 0.0
    else Sum(MapReal(recent, ValueOrZero(key))) / (|recent| as real)
  }

  /** Keeping the runs with a reading and reading them `?? 0` gives exactly the present readings. */
  lemma {:induction false} PresentReadings(s: seq<RunDay>, key: RunDay -> Option<real>)
    ensures MapReal(Filter(s, Present(key)), ValueOrZero(key)) == CompactMap(s, key)
  {
    if s != [] {
      var init := s[..|s| - 1];
      var last := s[|s| - 1];
      PresentReadings(init, key);
      var kept := Filter(init, Present(key));
      if key(last).Some? {
        assert Filter(s, Present(key)) == kept + [last];
        assert MapReal(kept + [last], ValueOrZero(key)) == MapReal(kept, ValueOrZero(key)) + [key(last).value] by {
          assert (kept + [last])[..|kept|] == kept;
        }
      } else {
        assert Filter(s, Present(key)) == kept;
      }
    }
  }

  function AvgHeartRateLast7Days(runs: seq<RunDay>, now: int): (r: real)
    ensures CompactMap(InWindow(runs, now, 7), HeartRateOf) == [] ==> r == 0.0
    ensures CompactMap(InWindow(runs, now, 7), HeartRateOf) != [] ==>
              r == Mean(CompactMap(InWindow(runs, now, 7), HeartRateOf))
  {
    PresentMean(runs, now, 7, HeartRateOf)
  }

  function AvgVo2MaxLast7Days(runs: seq<RunDay>, now: int): (r: real)
    ensures CompactMap(InWindow(runs, now, 7), Vo2MaxOf) == [] ==> r == 0.0
    ensures CompactMap(InWindow(runs, now, 7), Vo2MaxOf) != [] ==>
              r == Mean(CompactMap(InWindow(runs, now, 7), Vo2MaxOf))
  {
    PresentMean(runs, now, 7, Vo2MaxOf)
  }

  // ---------------------------------------------------------------------
  // Relations between the variants

  /** With no run in the last seven days every seven-day figure of every screen is 0. */
  lemma OldRunsOnlyGiveZero(runs: seq<RunDay>, now: int)
    requires forall x :: x in runs ==> x.date < WindowStart(now, 7)
    ensures VmTotalDistanceLast7Days(runs, now) == 0.0
    ensures VmAvgHeartRateLast7Days(runs, now) == 0.0
    ensures VmAvgVo2MaxLast7Days(runs, now) == 0.0
    ensures TotalDistanceLast7Days(runs, now) == 0.0
    ensures AvgHeartRateLast7Days(runs, now) == 0.0
    ensures AvgVo2MaxLast7Days(runs, now) == 0.0
  {
    var w := InWindow(runs, now, 7);
    assert w == [];
  }

  /**
   * Two runs in the window with positive distances: the view model reports
   * their mean in kilometres, the home views their sum (5 km and 3 km give
   * 4 on one screen and 8 on the other).
   */
  lemma TotalDistanceDrift(a: RunDay, b: RunDay, now: int)
    requires a.date >= WindowStart(now, 7) && b.date >= WindowStart(now, 7)
    requires a.distanceInMeters > 0.0 && b.distanceInMeters > 0.0
    ensures VmTotalDistanceLast7Days([a, b], now) == (Km(a) + Km(b)) / 2.0
    ensures TotalDistanceLast7Days([a, b], now) == Km(a) + Km(b)
  {
    VmTotalOfTwo(a, b, now);
    HomeTotalOfTwo(a, b, now);
  }

  lemma BothInWindow(a: RunDay, b: RunDay, now: int)
    requires a.date >= WindowStart(now, 7) && b.date >= WindowStart(now, 7)
    ensures InWindow([a, b], now, 7) == [a, b]
  {
    FilterAll([a, b], (x: RunDay) => x.date >= WindowStart(now, 7));
  }

  lemma VmTotalOfTwo(a: RunDay, b: RunDay, now: int)
    requires a.date >= WindowStart(now, 7) && b.date >= WindowStart(now, 7)
    requires a.distanceInMeters > 0.0 && b.distanceInMeters > 0.0
    ensures VmTotalDistanceLast7Days([a, b], now) == (Km(a) + Km(b)) / 2.0
  {
    var runs := [a, b];
    BothInWindow(a, b, now);
    var kms := [Km(a), Km(b)];
    assert CompactMap(runs, KmOf) == kms by {
      assert runs[..1] == [a];
      assert runs[..1][..0] == [];
    }
    FilterAll(kms, (x: real) => x > 0.0);
    SumOfTwo(Km(a), Km(b));
  }

  lemma HomeTotalOfTwo(a: RunDay, b: RunDay, now: int)
    requires a.date >= WindowStart(now, 7) && b.date >= WindowStart(now, 7)
    ensures TotalDistanceLast7Days([a, b], now) == Km(a) + Km(b)
  {
    var runs := [a, b];
    BothInWindow(a, b, now);
    SumOfTwo(Km(a), Km(b));
    assert MapReal(runs, Km) == [Km(a), Km(b)] by {
      assert runs[..1] == [a];
      assert runs[..1][..0] == [];
    }
  }
}
