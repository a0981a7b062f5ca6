/**
 * `computeSummary`: the totals, averages, pace, today-anchored streak and
 * today's distance of a list of runs. The two text fields are modelled by
 * the numbers they print; `None` stands for the "--" placeholder.
 */
module RunSummary {
  import opened Wrappers
  import opened DayClock
  import opened Numbers
  import opened PaceFormat
  import opened RunDayModel
  import opened Streak
  import opened RollingWindow

  datatype Summary = Summary(
    totalDistanceKm: real,
    avgPace: Option<MinSec>,
    avgDistanceKm: real,
    avgDurationMin: Option<real>,
    streakDays: nat,
    todayDistanceKm: real)

  /** The summary of no runs: zeros and two placeholders. */
  const EmptySummary := Summary(0.0, None, 0.0, None, 0, 0.0)

  function Seconds(r: RunDay): real {
    r.durationInSeconds
  }

  /** Seconds per kilometre over all runs; the divisor becomes 1 when no distance was run. */
  function PaceSecondsPerKm(totalSeconds: real, totalKm: real): (p: real)
    ensures totalKm > 0.0 ==> p * totalKm == totalSeconds
    ensures totalKm <= 0.0 ==> p == totalSeconds
  {
    totalSeconds / (if totalKm > 0.0 then totalKm else 1.0)
  }

  /** `computeSummary()`, with the clock reading passed in. */
  function ComputeSummary(runs: seq<RunDay>, now: int): (s: Summary)
    ensures runs == [] ==> s == EmptySummary
    ensures runs != [] ==> s.avgPace.Some? && s.avgDurationMin.Some?
    ensures s.todayDistanceKm > 0.0 <==> HasCompletedTodayRun(runs, now)
    ensures runs != [] ==> s.totalDistanceKm == Sum(MapReal(runs, Km))
    ensures runs != [] ==> s.avgDistanceKm == AverageKm(runs) && s.avgDurationMin == Some(AverageMinutes(runs))
    ensures s.todayDistanceKm == Sum(MapReal(TodayRuns(runs, now), Km))
  {
    if runs == [] then EmptySummary
    else
      Summary(TotalKm(runs), Some(AveragePace(runs)), AverageKm(runs), Some(AverageMinutes(runs)),
        TodayStreak(runs, now), TodayDistanceKm(runs, now))
  }

  /** `totalDistance`: the metres of all runs, divided by 1000. */
  function TotalKm(runs: seq<RunDay>): (r: real)
    ensures r == Sum(MapReal(runs, Km))
  {
    KmTotal(runs);
    Sum(MapReal(runs, Meters)) / 1000.0
  }

  /** `avgDistance`: the total kilometres over the number of runs. */
  function AverageKm(runs: seq<RunDay>): (r: real)
    requires runs != []
    ensures r == Mean(MapReal(runs, Km))
  {
    assert |MapReal(runs, Km)| == |runs|;
    TotalKm(runs) / (|runs| as real)
  }

  /**
   * `avgDuration / 60`: the mean duration in minutes, that is, the minutes
   * that, taken once per run, add up to the total duration.
   */
  function AverageMinutes(runs: seq<RunDay>): (r: real)
    requires runs != []
    ensures r == Mean(MapReal(runs, Seconds)) / 60.0
    ensures r * 60.0 * (|runs| as real) == Sum(MapReal(runs, Seconds))
  {
    assert |MapReal(runs, Seconds)| == |runs|;
    Sum(MapReal(runs, Seconds)) / (|runs| as real) / 60.0
  }

  /** The summary's pace: total seconds over total kilometres, split into minutes and seconds. */
  function AveragePace(runs: seq<RunDay>): (m: MinSec)
    ensures (forall x :: x in runs ==> x.durationInSeconds >= 0.0) ==>
              && 0 <= m.seconds <= 59
              && m.minutes * 60 + m.seconds
                 == PaceSecondsPerKm(Sum(MapReal(runs, Seconds)), Sum(MapReal(runs, Km))).Floor
  {
    var totalDistance := Sum(MapReal(runs, Meters)) / 1000.0;
    var totalDuration := Sum(MapReal(runs, Seconds));
    KmTotal(runs);
    NonNegativeDurations(runs, totalDuration, totalDistance);
    SplitSeconds(PaceSecondsPerKm(totalDuration, totalDistance))
  }

  /** Summing kilometres is summing metres and dividing by 1000. */
  lemma KmTotal(runs: seq<RunDay>)
    ensures Sum(MapReal(runs, Meters)) / 1000.0 == Sum(MapReal(runs, Km))
  {
    SumScale(MapReal(runs, Meters), MapReal(runs, Km), 1.0 / 1000.0);
  }

  /** Non-negative durations give a non-negative pace, whatever the distance. */
  lemma NonNegativeDurations(runs: seq<RunDay>, totalSeconds: real, totalKm: real)
    requires totalSeconds == Sum(MapReal(runs, Seconds))
    ensures (forall x :: x in runs ==> x.durationInSeconds >= 0.0) ==>
              PaceSecondsPerKm(totalSeconds, totalKm) >= 0.0
  {
    if forall x :: x in runs ==> x.durationInSeconds >= 0.0 {
      var ds := MapReal(runs, Seconds);
      assert forall i :: 0 <= i < |ds| ==> runs[i] in runs && ds[i] >= 0.0;
      SumNonNegative(ds);
    }
  }

  /**
   * With no negative duration, the summary's pace is whole minutes and
   * seconds in [0, 59] of the total seconds over the total kilometres (over
   * 1 when no distance was run).
   */
  lemma SummaryPace(runs: seq<RunDay>, now: int)
    requires runs != []
    requires forall x :: x in runs ==> x.durationInSeconds >= 0.0
    ensures var p := ComputeSummary(runs, now).avgPace;
            && p.Some?
            && 0 <= p.value.seconds <= 59
            && p.value.minutes * 60 + p.value.seconds
               == PaceSecondsPerKm(Sum(MapReal(runs, Seconds)), Sum(MapReal(runs, Km))).Floor
  {
    var p := AveragePace(runs);
  }

  /**
   * The summary's streak is anchored at today: 0 when a run day lies after
   * today, otherwise the number of consecutive run days ending today (0
   * when today has no run). It never exceeds the number of distinct run days.
   */
  lemma SummaryStreak(runs: seq<RunDay>, now: int)
    ensures var s := ComputeSummary(runs, now);
            && ((exists d :: d in DaySet(runs) && d > StartOfDay(now)) ==> s.streakDays == 0)
            && ((forall d :: d in DaySet(runs) ==> d <= StartOfDay(now)) ==>
                  s.streakDays == Chain(DaySet(runs), StartOfDay(now)))
            && s.streakDays <= |DaySet(runs)|
  {
    TodayStreakBounded(runs, now);
  }

  /**
   * The summary's streak is the streak of the home screen when the most
   * recent run is today, and 0 otherwise.
   */
  lemma SummaryStreakVersusHomeStreak(runs: seq<RunDay>, now: int)
    ensures ComputeSummary(runs, now).streakDays ==
              if runs != [] && MostRecentDay(runs) == StartOfDay(now) then StreakCount(runs) else 0
  {
    TodayStreakVersusRecentStreak(runs, now);
  }

  /** 10 km in 50 minutes averages 5:00 per kilometre. */
  lemma TenKmInFiftyMinutes(d: int, now: int)
    ensures ComputeSummary([MakeRunDay(0, d, 10000.0, 3000.0, None, None, None, None)], now).avgPace
            == Some(MinSec(5, 0))
  {
    var r := MakeRunDay(0, d, 10000.0, 3000.0, None, None, None, None);
    assert [r][..0] == [];
    assert Sum(MapReal([r], Meters)) == 10000.0;
    assert Sum(MapReal([r], Seconds)) == 3000.0;
    assert PaceSecondsPerKm(3000.0, 10.0) == 300.0;
  }
}
