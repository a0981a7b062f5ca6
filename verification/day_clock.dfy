/**
 * Calendar arithmetic on instants. An instant is a whole number of seconds
 * since an epoch; every day is 86400 seconds long (no time zones, no DST).
 */
module DayClock {

  const SecondsPerDay: int := 86400

  /** `Calendar.startOfDay(for:)`: the first second of the day holding `t`. */
  function StartOfDay(t: int): (r: int)
    ensures r <= t < r + SecondsPerDay
    ensures IsDayStart(r)
  {
    t - t % SecondsPerDay
  }

  /** True of instants that are the first second of their day. */
  predicate IsDayStart(t: int) {
    t % SecondsPerDay == 0
  }

  /** `Calendar.date(byAdding: .day, value: n, to: t)`. */
  function AddDays(t: int, n: int): int {
    t + n * SecondsPerDay
  }

  /** `Calendar.isDate(_:inSameDayAs:)`. */
  predicate SameDay(a: int, b: int) {
    StartOfDay(a) == StartOfDay(b)
  }

  /** `Calendar.isDateInToday(_:)`, with the clock reading passed in. */
  predicate IsToday(t: int, now: int) {
    SameDay(t, now)
  }

  /**
   * `dateComponents([.day], from: a, to: b).day`: the number of whole days
   * from `a` to `b`, truncated toward zero as Foundation does.
   */
  function DaysBetween(a: int, b: int): (n: int)
    ensures b >= a ==> 0 <= n && n * SecondsPerDay <= b - a < (n + 1) * SecondsPerDay
    ensures b < a ==> n <= 0 && -n * SecondsPerDay <= a - b < (-n + 1) * SecondsPerDay
    ensures IsDayStart(a) && IsDayStart(b) ==> n * SecondsPerDay == b - a
  {
    if b >= a then (b - a) / SecondsPerDay else -((a - b) / SecondsPerDay)
  }

  /** Normalising an instant that is already a day start changes nothing. */
  lemma StartOfDayIdempotent(t: int)
    ensures StartOfDay(StartOfDay(t)) == StartOfDay(t)
  {
  }

  /** Two day starts are exactly one calendar day apart iff they differ by 86400 seconds. */
  lemma OneDayApart(a: int, b: int)
    requires IsDayStart(a) && IsDayStart(b)
    ensures DaysBetween(a, b) == 1 <==> b == a + SecondsPerDay
  {
    if b >= a {
      var k := (b - a) / SecondsPerDay;
      assert b - a == k * SecondsPerDay;
    }
  }

  /** Instants sharing a day start share a calendar day, and `SameDay` is exactly that. */
  lemma SameDayIffSameStart(a: int, b: int)
    ensures SameDay(a, b) <==> (StartOfDay(a) <= b < StartOfDay(a) + SecondsPerDay)
  {
  }
}
