/**
 * The two statistics panels: the overview (total kilometres and a mean
 * pace) and the stats block (average distance, average duration, and the
 * pace text).
 */
module Stats {
  import opened Wrappers
  import opened Numbers
  import opened PaceFormat
  import opened RunDayModel
  import opened RunSummary

  /**
   * The overview's `avgPace`: the "-" placeholder (`None`) unless some
   * distance was run, otherwise the mean of the runs' own paces, split into
   * minutes and seconds. A run without distance contributes a pace of 0 and
   * still counts in the divisor.
   */
  function OverviewPace(runs: seq<RunDay>): (p: Option<MinSec>)
    ensures p.None? <==> TotalKm(runs) <= 0.0
    ensures p.Some? ==> runs != [] && p.value == SplitMinutes(Mean(MapReal(runs, PaceMinPerKm)))
    ensures p.Some? && (forall x :: x in runs ==> x.durationInSeconds >= 0.0) ==> 0 <= p.value.seconds <= 59
  {
    if TotalKm(runs) <= 0.0 then None
    else
      assert runs != [];
      MeanPaceNonNegative(runs);
      Some(SplitMinutes(Mean(MapReal(runs, PaceMinPerKm))))
  }

  lemma MeanPaceNonNegative(runs: seq<RunDay>)
    requires runs != []
    ensures (forall x :: x in runs ==> x.durationInSeconds >= 0.0) ==> Mean(MapReal(runs, PaceMinPerKm)) >= 0.0
  {
    var paces := MapReal(runs, PaceMinPerKm);
    if forall x :: x in runs ==> x.durationInSeconds >= 0.0 {
      assert forall i :: 0 <= i < |paces| ==> runs[i] in runs && paces[i] >= 0.0;
      MeanNonNegative(paces);
    }
  }

  /** Runs that all went the same pace show that pace. */
  lemma OverviewPaceOfEvenRuns(runs: seq<RunDay>, pace: real)
    requires runs != []
    requires forall x :: x in runs ==> x.distanceInMeters > 0.0 && PaceMinPerKm(x) == pace
    ensures OverviewPace(runs) == Some(SplitMinutes(pace))
  {
    var kms := MapReal(runs, Km);
    assert forall i :: 0 <= i < |kms| ==> runs[i] in runs && kms[i] > 0.0;
    SumPositive(kms);
    var paces := MapReal(runs, PaceMinPerKm);
    assert forall i :: 0 <= i < |paces| ==> runs[i] in runs && paces[i] == pace;
    MeanOfConstant(paces, pace);
  }

  /** A run without distance halves the overview pace of the run beside it. */
  lemma ZeroDistanceRunHalvesPace(a: RunDay, b: RunDay)
    requires a.distanceInMeters > 0.0 && b.distanceInMeters == 0.0
    ensures OverviewPace([a, b]) == Some(SplitMinutes(PaceMinPerKm(a) / 2.0))
  {
    var kms := MapReal([a, b], Km);
    assert kms == [Km(a), Km(b)];
    SumOfTwo(Km(a), Km(b));
    var paces := MapReal([a, b], PaceMinPerKm);
    assert paces == [PaceMinPerKm(a), 0.0];
    SumOfTwo(PaceMinPerKm(a), 0.0);
  }

  /** The stats block's `averageDistance()`: 0 for no runs, else the mean kilometres per run. */
  function BlockAverageDistance(runs: seq<RunDay>): (r: real)
    ensures runs == [] ==> r == 0.0
    ensures runs != [] ==> r * (|runs| as real) == TotalKm(runs)
    ensures (forall x :: x in runs ==> x.distanceInMeters >= 0.0) ==> r >= 0.0
  {
    if runs == [] then 0.0
    else
      MeanKmNonNegative(runs);
      AverageKm(runs)
  }

  lemma MeanKmNonNegative(runs: seq<RunDay>)
    requires runs != []
    ensures (forall x :: x in runs ==> x.distanceInMeters >= 0.0) ==> Mean(MapReal(runs, Km)) >= 0.0
  {
    var kms := MapReal(runs, Km);
    if forall x :: x in runs ==> x.distanceInMeters >= 0.0 {
      assert forall i :: 0 <= i < |kms| ==> runs[i] in runs && kms[i] >= 0.0;
      MeanNonNegative(kms);
    }
  }

  /** The stats block's `averageDuration()`: 0 for no runs, else the mean minutes per run. */
  function BlockAverageMinutes(runs: seq<RunDay>): (r: real)
    ensures runs == [] ==> r == 0.0
    ensures runs != [] ==> r * 60.0 * (|runs| as real) == Sum(MapReal(runs, Seconds))
  {
    if runs == [] then 0.0 else AverageMinutes(runs)
  }

  /**
   * The stats block's averages are the summary's: the same average distance,
   * and the summary's average duration with its placeholder read as 0.
   */
  lemma BlockAgreesWithSummary(runs: seq<RunDay>, now: int)
    ensures BlockAverageDistance(runs) == ComputeSummary(runs, now).avgDistanceKm
    ensures BlockAverageMinutes(runs) == ComputeSummary(runs, now).avgDurationMin.GetOr(0.0)
  {
  }
}
