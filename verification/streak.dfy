/**
 * Streak counting. Two rules exist in the app:
 *  - anchored at the most recent run day (`calculateStreak` / `streakCount`):
 *    walk the distinct run days newest first and count while each is exactly
 *    one day before the previous counted one;
 *  - anchored at today (`computeSummary`): count today, yesterday, ... while
 *    the newest-first run days keep matching the cursor.
 * Both are related here to one reference definition, `Chain`, the length of
 * the run of consecutive days ending at a given day.
 */
module Streak {
  import opened DayClock
  import opened RunDayModel

  /** The calendar day a run belongs to. */
  function DayOf(r: RunDay): int {
    StartOfDay(r.date)
  }

  /** `Set(runs.map { startOfDay(for: $0.date) })`. */
  function DaySet(runs: seq<RunDay>): set<int> {
    set r | r in runs :: DayOf(r)
  }

  function Elems(s: seq<int>): set<int> {
    set x | x in s
  }

  predicate StrictlyDecreasing(s: seq<int>) {
    forall i, j :: 0 <= i < j < |s| ==> s[i] > s[j]
  }

  predicate AllDayStarts(s: seq<int>) {
    forall i :: 0 <= i < |s| ==> IsDayStart(s[i])
  }

  /** The instant `i` whole days before `d`. */
  function DaysBefore(d: int, i: int): int {
    d - i * SecondsPerDay
  }

  // ---------------------------------------------------------------------
  // Reference definition

  /**
   * The number of consecutive days `d`, `d` minus one day, ... that all lie
   * in `days`. Each counted day is taken out of the set, which bounds the
   * recursion.
   */
  function Chain(days: set<int>, d: int): (n: nat)
    ensures n <= |days|
    ensures n > 0 <==> d in days
    decreases |days|
  {
    if d in days then 1 + Chain(days - {d}, d - SecondsPerDay) else 0
  }

  /** What `Chain` counts: the first `n` days back from `d` are present and the next one is not. */
  lemma {:induction false} ChainFacts(days: set<int>, d: int)
    ensures forall i :: 0 <= i < Chain(days, d) ==> DaysBefore(d, i) in days
    ensures DaysBefore(d, Chain(days, d)) !in days
    decreases |days|
  {
    if d in days {
      var rest := days - {d};
      ChainFacts(rest, d - SecondsPerDay);
      var c := Chain(days, d);
      forall i | 0 <= i < c
        ensures DaysBefore(d, i) in days
      {
        if i > 0 {
          assert DaysBefore(d, i) == DaysBefore(d - SecondsPerDay, i - 1);
        }
      }
      assert DaysBefore(d, c) == DaysBefore(d - SecondsPerDay, c - 1);
    }
  }

  /**
   * `Chain(days, d)` is the unique `n` such that the `n` days ending at `d`
   * are all in `days` and the day before them is not: the first gap stops
   * the count, and nothing beyond it contributes.
   */
  lemma ChainCharacterization(days: set<int>, d: int, n: nat)
    ensures Chain(days, d) == n <==>
              (forall i :: 0 <= i < n ==> DaysBefore(d, i) in days) && DaysBefore(d, n) !in days
  {
    ChainFacts(days, d);
  }

  /** The latest day of a non-empty set of days. */
  predicate IsLatest(days: set<int>, d: int) {
    d in days && forall x :: x in days ==> x <= d
  }

  // ---------------------------------------------------------------------
  // Distinct days, newest first

  /** Inserts a day into a strictly decreasing sequence, dropping it if already present. */
  function InsertDescending(x: int, s: seq<int>): (r: seq<int>)
    requires StrictlyDecreasing(s)
    ensures StrictlyDecreasing(r)
    ensures forall y :: y in r <==> y in s || y == x
    ensures forall i :: 0 <= i < |r| ==> r[i] == x || r[i] in s
  {
    if s == [] then [x]
    else if x == s[0] then s
    else if x > s[0] then [x] + s
    else
      var tail := InsertDescending(x, s[1..]);
      assert forall y :: y in s <==> y == s[0] || y in s[1..];
      assert forall k :: 0 <= k < |tail| ==> tail[k] < s[0];
      [s[0]] + tail
  }

  /** `Array(Set(days)).sorted(by: >)`: each run day once, newest first. */
  function DaysDescending(runs: seq<RunDay>): (ds: seq<int>)
    ensures StrictlyDecreasing(ds)
    ensures AllDayStarts(ds)
    ensures forall d :: d in ds <==> d in DaySet(runs)
  {
    if runs == [] then []
    else
      var init := runs[..|runs| - 1];
      var last := runs[|runs| - 1];
      assert runs == init + [last];
      assert forall d :: d in DaySet(runs) <==> d in DaySet(init) || d == DayOf(last);
      var ds := InsertDescending(DayOf(last), DaysDescending(init));
      assert forall i :: 0 <= i < |ds| ==> ds[i] == DayOf(last) || ds[i] in DaysDescending(init);
      ds
  }

  /** The day of the most recent run. */
  function MostRecentDay(runs: seq<RunDay>): (d: int)
    requires runs != []
    ensures IsLatest(DaySet(runs), d)
  {
    var ds := DaysDescending(runs);
    assert DayOf(runs[0]) in DaySet(runs);
    ds[0]
  }

  // ---------------------------------------------------------------------
  // The walk anchored at the most recent run day

  /** How many of `rest` continue the chain one day at a time back from `prev`. */
  function ChainFrom(prev: int, rest: seq<int>): nat
    decreases |rest|
  {
    if rest == [] then 0
    else if DaysBetween(rest[0], prev) == 1 then 1 + ChainFrom(rest[0], rest[1..])
    else 0
  }

  /** The streak walk over the newest-first distinct days. */
  function Walk(ds: seq<int>): nat {
    if ds == [] then 0 else 1 + ChainFrom(ds[0], ds[1..])
  }

  /** Two distinct day starts are at least a day apart, and more than one day when not adjacent. */
  lemma DayStartGap(a: int, b: int)
    requires IsDayStart(a) && IsDayStart(b) && b < a
    ensures b <= a - SecondsPerDay
    ensures b != a - SecondsPerDay ==> b < a - SecondsPerDay
  {
    var ka := a / SecondsPerDay;
    var kb := b / SecondsPerDay;
    assert a == ka * SecondsPerDay;
    assert b == kb * SecondsPerDay;
    assert kb < ka;
  }

  lemma ElemsTail(s: seq<int>)
    requires s != [] && StrictlyDecreasing(s)
    ensures Elems(s) - {s[0]} == Elems(s[1..])
  {
    assert forall y :: y in s <==> y == s[0] || y in s[1..];
    assert s[0] !in s[1..];
  }

  lemma {:induction false} ChainFromIsChain(prev: int, rest: seq<int>)
    requires IsDayStart(prev)
    requires StrictlyDecreasing(rest) && AllDayStarts(rest)
    requires forall i :: 0 <= i < |rest| ==> rest[i] < prev
    ensures ChainFrom(prev, rest) == Chain(Elems(rest), prev - SecondsPerDay)
    decreases |rest|
  {
    if rest != [] {
      var day := rest[0];
      DayStartGap(prev, day);
      OneDayApart(day, prev);
      if day == prev - SecondsPerDay {
        ChainFromIsChain(day, rest[1..]);
        ElemsTail(rest);
      } else {
        assert prev - SecondsPerDay !in rest;
      }
    }
  }

  lemma WalkIsChain(ds: seq<int>)
    requires ds != [] && StrictlyDecreasing(ds) && AllDayStarts(ds)
    ensures Walk(ds) == Chain(Elems(ds), ds[0])
  {
    ChainFromIsChain(ds[0], ds[1..]);
    ElemsTail(ds);
  }

  lemma DaySetIsElems(runs: seq<RunDay>)
    ensures Elems(DaysDescending(runs)) == DaySet(runs)
  {
  }

  /**
   * `streakCount` / `calculateStreak`: 0 without runs, otherwise the number
   * of consecutive days ending at the most recent run day.
   */
  function StreakCount(runs: seq<RunDay>): (n: nat)
    ensures n == 0 <==> runs == []
    ensures runs != [] ==> 1 <= n <= |DaySet(runs)|
    ensures runs != [] ==> n == Chain(DaySet(runs), MostRecentDay(runs))
  {
    var ds := DaysDescending(runs);
    if runs == [] then
      0
    else
      assert DayOf(runs[0]) in DaySet(runs);
      WalkIsChain(ds);
      DaySetIsElems(runs);
      Walk(ds)
  }

  /** The same count as a loop with an early `break`, the way the source writes it. */
  method CalculateStreak(runs: seq<RunDay>) returns (streak: nat)
    ensures runs == [] ==> streak == 0
    ensures runs != [] ==> streak == Chain(DaySet(runs), MostRecentDay(runs))
  {
    var sortedDays := DaysDescending(runs);
    if runs == [] {
      return 0;
    }
    assert DayOf(runs[0]) in DaySet(runs);
    streak := 1;
    var previousDay := sortedDays[0];
    var i := 1;
    while i < |sortedDays|
      invariant 1 <= i <= |sortedDays|
      invariant previousDay == sortedDays[i - 1]
      invariant streak + ChainFrom(previousDay, sortedDays[i..]) == Walk(sortedDays)
    {
      var day := sortedDays[i];
      if DaysBetween(day, previousDay) == 1 {
        streak := streak + 1;
        previousDay := day;
        i := i + 1;
      } else {
        break;
      }
    }
    WalkIsChain(sortedDays);
    DaySetIsElems(runs);
  }

  // ---------------------------------------------------------------------
  // Properties of the most-recent-day streak

  lemma LatestIsUnique(days: set<int>, a: int, b: int)
    requires IsLatest(days, a) && IsLatest(days, b)
    ensures a == b
  {
  }

  /** A run on a day that already has a run leaves the streak unchanged. */
  lemma StreakIgnoresSameDayRun(runs: seq<RunDay>, r: RunDay)
    requires exists x :: x in runs && DayOf(x) == DayOf(r)
    ensures StreakCount(runs + [r]) == StreakCount(runs)
  {
    var more := runs + [r];
    assert forall d :: d in DaySet(more) <==> d in DaySet(runs) || d == DayOf(r);
    assert DaySet(more) == DaySet(runs);
    LatestIsUnique(DaySet(runs), MostRecentDay(more), MostRecentDay(runs));
  }

  /**
   * Runs on days before the first gap of the streak never change it: only
   * the chain of days ending at the most recent run day counts.
   */
  lemma StreakIgnoresDaysBeyondGap(runs: seq<RunDay>, older: seq<RunDay>)
    requires runs != []
    requires forall x :: x in older ==>
               DayOf(x) < DaysBefore(MostRecentDay(runs), StreakCount(runs))
    ensures StreakCount(runs + older) == StreakCount(runs)
  {
    var n := StreakCount(runs);
    var top := MostRecentDay(runs);
    var more := runs + older;
    assert forall d :: d in DaySet(more) <==> d in DaySet(runs) || d in DaySet(older);
    assert n >= 1;
    assert DaysBefore(top, n) < top;
    assert IsLatest(DaySet(more), top);
    LatestIsUnique(DaySet(more), top, MostRecentDay(more));
    ChainCharacterization(DaySet(runs), top, n);
    ChainCharacterization(DaySet(more), top, n);
  }

  // ---------------------------------------------------------------------
  // The walk anchored at today (`computeSummary`)

  /** Counts newest-first days while each equals the cursor, moving the cursor back a day each time. */
  function TodayWalk(ds: seq<int>, cursor: int): nat {
    if ds == [] then 0
    else if SameDay(ds[0], cursor) then 1 + TodayWalk(ds[1..], AddDays(cursor, -1))
    else 0
  }

  lemma {:induction false} TodayWalkIsChain(ds: seq<int>, cursor: int)
    requires IsDayStart(cursor)
    requires StrictlyDecreasing(ds) && AllDayStarts(ds)
    requires forall i :: 0 <= i < |ds| ==> ds[i] <= cursor
    ensures TodayWalk(ds, cursor) == Chain(Elems(ds), cursor)
    decreases |ds|
  {
    if ds != [] {
      if ds[0] == cursor {
        forall i | 0 <= i < |ds[1..]|
          ensures ds[1..][i] <= cursor - SecondsPerDay
        {
          DayStartGap(cursor, ds[1..][i]);
        }
        TodayWalkIsChain(ds[1..], AddDays(cursor, -1));
        ElemsTail(ds);
      } else {
        assert cursor !in ds;
      }
    }
  }

  /**
   * The streak of `computeSummary`: 0 when any run day lies after today,
   * otherwise the number of consecutive days ending today.
   */
  function TodayStreak(runs: seq<RunDay>, now: int): (n: nat)
    ensures (exists d :: d in DaySet(runs) && d > StartOfDay(now)) ==> n == 0
    ensures (forall d :: d in DaySet(runs) ==> d <= StartOfDay(now)) ==>
              n == Chain(DaySet(runs), StartOfDay(now))
  {
    var ds := DaysDescending(runs);
    var today := StartOfDay(now);
    DaySetIsElems(runs);
    if ds != [] && ds[0] > today then
      assert !SameDay(ds[0], today);
      assert ds[0] in DaySet(runs);
      TodayWalk(ds, today)
    else
      assert forall i :: 0 <= i < |ds| ==> ds[i] <= ds[0];
      TodayWalkIsChain(ds, today);
      TodayWalk(ds, today)
  }

  /** The today-anchored streak never exceeds the number of distinct run days. */
  lemma TodayStreakBounded(runs: seq<RunDay>, now: int)
    ensures TodayStreak(runs, now) <= |DaySet(runs)|
  {
    if forall d :: d in DaySet(runs) ==> d <= StartOfDay(now) {
      ChainFacts(DaySet(runs), StartOfDay(now));
    }
  }

  /**
   * The two rules agree exactly when the most recent run is today; otherwise
   * the today-anchored streak is 0 whatever the other one says.
   */
  lemma TodayStreakVersusRecentStreak(runs: seq<RunDay>, now: int)
    ensures TodayStreak(runs, now) ==
              if runs != [] && MostRecentDay(runs) == StartOfDay(now) then StreakCount(runs) else 0
  {
    if runs != [] {
      var top := MostRecentDay(runs);
      var today := StartOfDay(now);
      if top > today {
        assert top in DaySet(runs);
      } else if top < today {
        assert today !in DaySet(runs);
      }
    }
  }
}
