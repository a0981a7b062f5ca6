/**
 * The streak card: the day count with its label, a motivation line chosen
 * by how long the streak is, and a "NEW RECORD" badge measured against a
 * persisted high score that the card raises whenever it appears.
 */
module StreakCard {

  /** The persisted `highestStreak` before the card ever appeared. */
  const InitialHighestStreak: int := 0

  /**
   * `isNewRecord`: the badge shows when the count reaches the high score, a
   * tie included, that is, exactly when appearing with the count would leave
   * the count itself as the high score.
   */
  function IsNewRecord(streakCount: int, highestStreak: int): (b: bool)
    ensures b <==> OnAppear(highestStreak, streakCount) == streakCount
  {
    streakCount >= highestStreak
  }

  /** `onAppear`: the high score after the card appeared with `streakCount`. */
  function OnAppear(highestStreak: int, streakCount: int): (h: int)
    ensures h >= highestStreak && h >= streakCount
    ensures h == highestStreak || h == streakCount
  {
    if streakCount > highestStreak then streakCount else highestStreak
  }

  /** The high score after the card appeared with each of `counts` in turn. */
  function HighestAfter(counts: seq<int>): (h: int)
    ensures h >= InitialHighestStreak
    ensures forall i :: 0 <= i < |counts| ==> counts[i] <= h
    ensures h == InitialHighestStreak || h in counts
  {
    if counts == [] then InitialHighestStreak
    else
      var init := counts[..|counts| - 1];
      assert forall y :: y in init ==> y in counts;
      OnAppear(HighestAfter(init), counts[|counts| - 1])
  }

  /** Later appearances never lower the high score. */
  lemma {:induction false} HighScoreNeverDecreases(counts: seq<int>, later: seq<int>)
    ensures HighestAfter(counts) <= HighestAfter(counts + later)
  {
    if later == [] {
      assert counts + later == counts;
    } else {
      var init := later[..|later| - 1];
      HighScoreNeverDecreases(counts, init);
      assert (counts + later)[..|counts + later| - 1] == counts + init;
    }
  }

  /**
   * After the card appeared, the badge shows exactly when the count reached
   * the high score it found.
   */
  lemma BadgeAfterAppear(highestStreak: int, streakCount: int)
    ensures IsNewRecord(streakCount, OnAppear(highestStreak, streakCount)) <==> streakCount >= highestStreak
  {
  }

  /**
   * Against the stored high score, a count is a new record exactly when it is
   * at least 0 and at least every count the card appeared with before.
   */
  lemma NewRecordIffBestSoFar(counts: seq<int>, streakCount: int)
    ensures IsNewRecord(streakCount, HighestAfter(counts)) <==>
              streakCount >= InitialHighestStreak && forall i :: 0 <= i < |counts| ==> counts[i] <= streakCount
  {
    var h := HighestAfter(counts);
    if streakCount >= InitialHighestStreak && forall i :: 0 <= i < |counts| ==> counts[i] <= streakCount {
      if h != InitialHighestStreak {
        var i :| 0 <= i < |counts| && counts[i] == h;
      }
    }
  }

  // ---------------------------------------------------------------------
  // Label and motivation

  /** The unit after the count: "DAY" for exactly one day, "DAYS" otherwise. */
  function DayLabel(streakCount: int): (s: string)
    ensures s == "DAY" <==> streakCount == 1
    ensures s == "DAY" || s == "DAYS"
  {
    "DAY" + (if streakCount == 1 then "" else "S")
  }

  datatype Motivation = BackOnTrack | FirstRun | GreatStart | FullWeek | TwoWeeks | Legendary | KeepMoving

  /**
   * The `switch` over the count, case by case. The bands partition the
   * counts: a non-negative count gets the message of the one band it falls
   * in, and only a negative count gets the default.
   */
  function MotivationFor(streakCount: int): (m: Motivation)
    ensures m == KeepMoving <==> streakCount < 0
    ensures streakCount >= 0 ==> m == Bands[BandIndex(streakCount)]
  {
    if streakCount == 0 then BackOnTrack
    else if streakCount == 1 then FirstRun
    else if 2 <= streakCount <= 6 then GreatStart
    else if 7 <= streakCount <= 13 then FullWeek
    else if 14 <= streakCount <= 29 then TwoWeeks
    else if 30 <= streakCount then Legendary
    else KeepMoving
  }

  function MotivationText(m: Motivation): string {
    match m
    case BackOnTrack => "Let’s get back on track — every step counts 💪"
    case FirstRun => "Every streak starts with one run. Keep it going! 🏁"
    case GreatStart => "Great start! Keep the momentum rolling 🔥"
    case FullWeek => "A full week! You’re building strong habits 💥"
    case TwoWeeks => "Two weeks strong — you’re unstoppable 💪"
    case Legendary => "Legendary consistency. You’re built different 🌟"
    case KeepMoving => "Keep moving forward!"
  }

  /** The first count of each band, in increasing order, and each band's message. */
  const BandStarts: seq<int> := [0, 1, 2, 7, 14, 30]
  const Bands: seq<Motivation> := [BackOnTrack, FirstRun, GreatStart, FullWeek, TwoWeeks, Legendary]

  /** The band a non-negative count falls in: the last band whose start it has reached. */
  function BandIndex(streakCount: int): (k: int)
    requires streakCount >= 0
    ensures 0 <= k < |BandStarts|
    ensures BandStarts[k] <= streakCount
    ensures k + 1 < |BandStarts| ==> streakCount < BandStarts[k + 1]
  {
    BandFrom(streakCount, |BandStarts| - 1)
  }

  function BandFrom(streakCount: int, k: int): (b: int)
    requires streakCount >= 0 && 0 <= k < |BandStarts|
    requires k + 1 < |BandStarts| ==> streakCount < BandStarts[k + 1]
    ensures 0 <= b <= k
    ensures BandStarts[b] <= streakCount
    ensures b + 1 < |BandStarts| ==> streakCount < BandStarts[b + 1]
  {
    if k == 0 || BandStarts[k] <= streakCount then k else BandFrom(streakCount, k - 1)
  }

  /** The seven messages are pairwise different (their lengths already differ). */
  lemma MotivationTextsDistinct(a: Motivation, b: Motivation)
    ensures MotivationText(a) == MotivationText(b) <==> a == b
  {
    if a != b {
      assert |MotivationText(a)| != |MotivationText(b)| by {
        var la, lb := TextLength(a), TextLength(b);
      }
    }
  }

  /** The number of characters of each message. */
  function TextLength(m: Motivation): (n: nat)
    ensures |MotivationText(m)| == n
  {
    match m
    case BackOnTrack => 45
    case FirstRun => 50
    case GreatStart => 40
    case FullWeek => 44
    case TwoWeeks => 39
    case Legendary => 47
    case KeepMoving => 20
  }

  /**
   * Two non-negative counts get the same text on the card exactly when they
   * fall in the same band.
   */
  lemma SameTextIffSameBand(a: int, b: int)
    requires a >= 0 && b >= 0
    ensures MotivationText(MotivationFor(a)) == MotivationText(MotivationFor(b)) <==> BandIndex(a) == BandIndex(b)
  {
    MotivationTextsDistinct(MotivationFor(a), MotivationFor(b));
    SameMotivationIffSameBand(a, b);
  }

  /** Two non-negative counts get the same message exactly when they fall in the same band. */
  lemma SameMotivationIffSameBand(a: int, b: int)
    requires a >= 0 && b >= 0
    ensures MotivationFor(a) == MotivationFor(b) <==> BandIndex(a) == BandIndex(b)
  {
    assert forall i, j :: 0 <= i < j < |Bands| ==> Bands[i] != Bands[j];
  }

  /** A longer streak never gets the message of an earlier band. */
  lemma MotivationNeverFallsBack(a: int, b: int)
    requires 0 <= a <= b
    ensures BandIndex(a) <= BandIndex(b)
  {
  }
}
