/**
 * The pure part of reading workouts from the health store: the VO2max
 * readings indexed by day, the running filter, and the field defaults of a
 * built run. The store queries themselves (and the per-workout heart-rate
 * query) are inputs here.
 */
module HealthMapping {
  import opened Wrappers
  import opened DayClock
  import opened Numbers
  import opened RunDayModel

  /** A VO2max reading: when it was taken and its value in ml/kg/min. */
  datatype Vo2Sample = Vo2Sample(startDate: int, value: real)

  datatype Activity = Running | Walking | Cycling | OtherActivity

  /** A workout as the store returns it; `totalDistance` is absent when the store has none. */
  datatype Workout = Workout(
    uuid: nat,
    activity: Activity,
    startDate: int,
    duration: real,
    totalDistance: Option<real>,
    sourceName: string)

  function DayOfSample(s: Vo2Sample): int {
    StartOfDay(s.startDate)
  }

  /** No later reading shares the day of reading `i`: it is the one that stays in the map. */
  predicate LastOfItsDay(samples: seq<Vo2Sample>, i: int)
    requires 0 <= i < |samples|
  {
    forall j :: i < j < |samples| ==> DayOfSample(samples[j]) != DayOfSample(samples[i])
  }

  /**
   * `vo2ByDate`: every reading is stored under the start of its day, in
   * order, so a later reading of the same day replaces an earlier one. The
   * keys are exactly the days with a reading, and each holds the value of
   * that day's last reading.
   */
  function Vo2ByDate(samples: seq<Vo2Sample>): (m: map<int, real>)
    ensures forall d :: d in m <==> exists i :: 0 <= i < |samples| && DayOfSample(samples[i]) == d
    ensures forall i :: 0 <= i < |samples| && LastOfItsDay(samples, i) ==>
              DayOfSample(samples[i]) in m && m[DayOfSample(samples[i])] == samples[i].value
  {
    if samples == [] then map[]
    else
      var init := samples[..|samples| - 1];
      var last := samples[|samples| - 1];
      assert samples == init + [last];
      Vo2Step(init, last, Vo2ByDate(init));
      Vo2ByDate(init)[DayOfSample(last) := last.value]
  }

  /** Storing one more reading keeps the two facts about the map. */
  lemma Vo2Step(init: seq<Vo2Sample>, last: Vo2Sample, m0: map<int, real>)
    requires forall d :: d in m0 <==> exists i :: 0 <= i < |init| && DayOfSample(init[i]) == d
    requires forall i :: 0 <= i < |init| && LastOfItsDay(init, i) ==>
               DayOfSample(init[i]) in m0 && m0[DayOfSample(init[i])] == init[i].value
    ensures var s := init + [last];
            var m := m0[DayOfSample(last) := last.value];
            && (forall d :: d in m <==> exists i :: 0 <= i < |s| && DayOfSample(s[i]) == d)
            && (forall i :: 0 <= i < |s| && LastOfItsDay(s, i) ==>
                  DayOfSample(s[i]) in m && m[DayOfSample(s[i])] == s[i].value)
  {
    var s := init + [last];
    var m := m0[DayOfSample(last) := last.value];
    forall d
      ensures d in m <==> exists i :: 0 <= i < |s| && DayOfSample(s[i]) == d
    {
      if d in m && d != DayOfSample(last) {
        var i :| 0 <= i < |init| && DayOfSample(init[i]) == d;
        assert s[i] == init[i];
      }
      if d == DayOfSample(last) {
        assert s[|s| - 1] == last;
      }
      if exists i :: 0 <= i < |s| && DayOfSample(s[i]) == d {
        var i :| 0 <= i < |s| && DayOfSample(s[i]) == d;
        if i < |init| {
          assert s[i] == init[i];
        }
      }
    }
    forall i | 0 <= i < |s| && LastOfItsDay(s, i)
      ensures DayOfSample(s[i]) in m && m[DayOfSample(s[i])] == s[i].value
    {
      if i < |init| {
        assert s[i] == init[i];
        assert DayOfSample(s[|s| - 1]) != DayOfSample(s[i]);
        assert LastOfItsDay(init, i) by {
          forall j | i < j < |init|
            ensures DayOfSample(init[j]) != DayOfSample(init[i])
          {
            assert s[j] == init[j];
          }
        }
      }
    }
  }

  /** The store's value for a day, if it has one. */
  function Vo2ForDay(m: map<int, real>, d: int): (v: Option<real>)
    ensures v.Some? <==> d in m
    ensures v.Some? ==> v.value == m[d]
  {
    if d in m then Some(m[d]) else None
  }

  /** `workoutActivityType == .running`. */
  function RunningWorkouts(ws: seq<Workout>): (r: seq<Workout>)
    ensures forall w :: w in r <==> w in ws && w.activity == Running
  {
    Filter(ws, (w: Workout) => w.activity == Running)
  }

  /**
   * One workout to a run: a missing distance becomes 0, calories are the
   * fixed 100, the source is the app's name, the heart rate is what the
   * heart-rate query gave, and VO2max is the reading of the workout's day.
   */
  function BuildRunDay(w: Workout, heartRate: Option<real>, vo2: map<int, real>): (r: RunDay)
    ensures r.uuid == w.uuid && r.date == StartOfDay(w.startDate)
    ensures r.distanceInMeters == (match w.totalDistance case Some(d) => d case None => 0.0)
    ensures r.durationInSeconds == w.duration
    ensures r.calories == Some(100.0) && r.source == Some(w.sourceName)
    ensures r.avgHeartRate == heartRate
    ensures r.vo2Max.Some? <==> StartOfDay(w.startDate) in vo2
  {
    MakeRunDay(w.uuid, w.startDate, w.totalDistance.GetOr(0.0), w.duration,
      Some(100.0), Some(w.sourceName), heartRate, Vo2ForDay(vo2, StartOfDay(w.startDate)))
  }

  /**
   * A built run has a VO2max exactly when some reading falls on its day, and
   * then it is the value of that day's last reading.
   */
  lemma BuiltVo2IsLastReadingOfDay(w: Workout, heartRate: Option<real>, samples: seq<Vo2Sample>)
    ensures var r := BuildRunDay(w, heartRate, Vo2ByDate(samples));
            r.vo2Max.Some? <==>
              exists i :: 0 <= i < |samples| && DayOfSample(samples[i]) == StartOfDay(w.startDate)
    ensures forall i ::
              0 <= i < |samples| && LastOfItsDay(samples, i) && DayOfSample(samples[i]) == StartOfDay(w.startDate) ==>
              BuildRunDay(w, heartRate, Vo2ByDate(samples)).vo2Max == Some(samples[i].value)
  {
  }

  /**
   * `fetchRunningWorkouts` after the queries: the running workouts, each
   * built in order with the heart rate `heartRate` reports for it.
   */
  method FetchRunDays(ws: seq<Workout>, heartRate: Workout -> Option<real>, samples: seq<Vo2Sample>)
    returns (runDays: seq<RunDay>)
    ensures |runDays| == |RunningWorkouts(ws)|
    ensures forall i :: 0 <= i < |runDays| ==>
              && runDays[i].uuid == RunningWorkouts(ws)[i].uuid
              && runDays[i].date == StartOfDay(RunningWorkouts(ws)[i].startDate)
              && runDays[i].avgHeartRate == heartRate(RunningWorkouts(ws)[i])
              && runDays[i].calories == Some(100.0)
    ensures forall i :: 0 <= i < |runDays| ==>
              runDays[i] == BuildRunDay(RunningWorkouts(ws)[i], heartRate(RunningWorkouts(ws)[i]), Vo2ByDate(samples))
    ensures forall x :: x in runDays ==> IsDayStart(x.date)
  {
    var workouts := RunningWorkouts(ws);
    var vo2MaxByDate := Vo2ByDate(samples);
    runDays := [];
    var k := 0;
    while k < |workouts|
      invariant 0 <= k <= |workouts|
      invariant |runDays| == k
      invariant forall i :: 0 <= i < k ==> runDays[i] == BuildRunDay(workouts[i], heartRate(workouts[i]), vo2MaxByDate)
    {
      runDays := runDays + [BuildRunDay(workouts[k], heartRate(workouts[k]), vo2MaxByDate)];
      k := k + 1;
    }
    assert forall i :: 0 <= i < |workouts| ==> workouts[i] in workouts;
  }
}
