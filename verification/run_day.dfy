/** One recorded run, as the health store hands it to the app. */
module RunDayModel {
  import opened Wrappers
  import opened DayClock
  import opened PaceFormat

  /**
   * A run. `uuid` is an opaque identity; `date` is in seconds. The optional
   * fields are absent when the health store had no reading.
   */
  datatype RunDay = RunDay(
    uuid: nat,
    date: int,
    distanceInMeters: real,
    durationInSeconds: real,
    calories: Option<real>,
    source: Option<string>,
    avgHeartRate: Option<real>,
    vo2Max: Option<real>)

  /**
   * The memberwise initialiser: every field is stored as given except the
   * date, which is moved to the start of its day.
   */
  function MakeRunDay(
    uuid: nat, date: int, distanceInMeters: real, durationInSeconds: real,
    calories: Option<real>, source: Option<string>,
    avgHeartRate: Option<real>, vo2Max: Option<real>): (r: RunDay)
    ensures IsDayStart(r.date) && SameDay(r.date, date)
    ensures r.uuid == uuid && r.distanceInMeters == distanceInMeters
    ensures r.durationInSeconds == durationInSeconds
    ensures r.calories == calories && r.source == source
    ensures r.avgHeartRate == avgHeartRate && r.vo2Max == vo2Max
  {
    RunDay(uuid, StartOfDay(date), distanceInMeters, durationInSeconds,
      calories, source, avgHeartRate, vo2Max)
  }

  /** The initialiser called with only an identity: every other argument takes its default. */
  function DefaultRunDay(uuid: nat, now: int): (r: RunDay)
    ensures r.date <= now < r.date + SecondsPerDay
    ensures r.distanceInMeters == 0.0 && r.durationInSeconds == 0.0
    ensures r.calories.None? && r.source.None?
    ensures r.avgHeartRate.None? && r.vo2Max.None?
  {
    MakeRunDay(uuid, now, 0.0, 0.0, None, None, None, None)
  }

  /**
   * Rebuilding a run from its own fields gives the run back when its date is
   * already a day start, as it is for every run the initialiser made.
   */
  lemma RebuildIsIdentity(r: RunDay)
    requires IsDayStart(r.date)
    ensures MakeRunDay(r.uuid, r.date, r.distanceInMeters, r.durationInSeconds,
                       r.calories, r.source, r.avgHeartRate, r.vo2Max) == r
  {
  }

  /** Distance in kilometres. */
  function Km(r: RunDay): real {
    r.distanceInMeters / 1000.0
  }

  /**
   * `paceMinPerKm`: minutes per kilometre, or 0 for a run without distance.
   */
  function PaceMinPerKm(r: RunDay): (p: real)
    ensures r.distanceInMeters <= 0.0 ==> p == 0.0
    ensures r.distanceInMeters > 0.0 ==> p * Km(r) * 60.0 == r.durationInSeconds
    ensures r.durationInSeconds >= 0.0 ==> p >= 0.0
  {
    var distanceKm := Km(r);
    if distanceKm <= 0.0 then 0.0 else r.durationInSeconds / 60.0 / distanceKm
  }

  /** `formattedPace`: the pace's whole minutes and the truncated seconds of its fraction. */
  function FormattedPace(r: RunDay): (m: MinSec)
    ensures r.durationInSeconds >= 0.0 ==> 0 <= m.seconds <= 59
    ensures r.durationInSeconds >= 0.0 ==>
              m.minutes * 60 + m.seconds == (PaceMinPerKm(r) * 60.0).Floor
  {
    SplitMinutes(PaceMinPerKm(r))
  }

  /** The 25-minute 5 km run prints as 5:00. */
  lemma FiveMinutePace()
    ensures FormattedPace(MakeRunDay(0, 0, 5000.0, 1500.0, None, None, None, None)) == MinSec(5, 0)
  {
    var r := MakeRunDay(0, 0, 5000.0, 1500.0, None, None, None, None);
    assert PaceMinPerKm(r) == 5.0;
  }
}
