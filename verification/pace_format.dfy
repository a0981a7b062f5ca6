/**
 * The integer minute:second decompositions used to print paces and
 * durations. Swift's `Int(x)` truncates toward zero, and
 * `truncatingRemainder(dividingBy:)` keeps the sign of the dividend; both
 * are written out here because Dafny's own `Floor` rounds down.
 */
module PaceFormat {

  /** Swift's `Int(x)` for a finite double: truncation toward zero. */
  function Trunc(x: real): (r: int)
    ensures 0.0 <= x ==> r as real <= x < r as real + 1.0
    ensures x < 0.0 ==> r as real - 1.0 < x <= r as real
  {
    if x >= 0.0 then x.Floor else -((-x).Floor)
  }

  /** `x.truncatingRemainder(dividingBy: d)`: `x - Int(x / d) * d`. */
  function TruncatingRemainder(x: real, d: real): real
    requires d != 0.0
  {
    x - (Trunc(x / d) as real) * d
  }

  datatype MinSec = MinSec(minutes: int, seconds: int)

  /**
   * A number of seconds split as `Int(s / 60)` minutes and
   * `Int(s.truncatingRemainder(dividingBy: 60))` seconds.
   */
  function SplitSeconds(s: real): (r: MinSec)
    ensures 0.0 <= s ==> 0 <= r.seconds <= 59
    ensures 0.0 <= s ==> r.minutes * 60 + r.seconds == s.Floor
  {
    var minutes := Trunc(s / 60.0);
    var seconds := Trunc(TruncatingRemainder(s, 60.0));
    if 0.0 <= s then
      FloorShift(s, minutes * 60);
      MinSec(minutes, seconds)
    else
      MinSec(minutes, seconds)
  }

  /**
   * A number of minutes split as `Int(p)` minutes and
   * `Int((p - Double(min)) * 60)` seconds.
   */
  function SplitMinutes(p: real): (r: MinSec)
    ensures 0.0 <= p ==> 0 <= r.seconds <= 59
    ensures 0.0 <= p ==> r.minutes * 60 + r.seconds == (p * 60.0).Floor
  {
    var minutes := Trunc(p);
    var seconds := Trunc((p - minutes as real) * 60.0);
    if 0.0 <= p then
      assert (p - minutes as real) * 60.0 == p * 60.0 - (minutes * 60) as real;
      FloorShift(p * 60.0, minutes * 60);
      MinSec(minutes, seconds)
    else
      MinSec(minutes, seconds)
  }

  /** Taking a whole number off moves the floor by that number. */
  lemma FloorShift(x: real, n: int)
    ensures (x - n as real).Floor == x.Floor - n
  {
  }

  /**
   * Splitting a total number of seconds and splitting the same time given in
   * minutes agree whenever the seconds are whole: the two source idioms
   * name the same clock reading.
   */
  lemma {:induction false} SplitsAgree(s: real)
    requires 0.0 <= s
    requires s.Floor as real == s
    ensures SplitSeconds(s) == SplitMinutes(s / 60.0)
  {
    var a := SplitSeconds(s);
    var b := SplitMinutes(s / 60.0);
    assert s / 60.0 * 60.0 == s;
    assert a.minutes * 60 + a.seconds == b.minutes * 60 + b.seconds;
  }
}
