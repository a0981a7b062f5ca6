/**
 * The "all runs" list: runs grouped by calendar month, newest month first,
 * each month's runs newest first, under a "<month> <year>" header with a
 * run count.
 */
module AllRuns {
  import opened Numbers
  import opened RunDayModel

  /** A calendar month; the source falls back to 0 for a missing component. */
  datatype YearMonth = YearMonth(year: int, month: int)

  /** `YearMonth <`: by year, then by month. */
  predicate Less(a: YearMonth, b: YearMonth) {
    if a.year != b.year then a.year < b.year else a.month < b.month
  }

  /** `<` is a strict total order: irreflexive, transitive, and any two distinct months compare. */
  lemma LessIsStrictTotalOrder(a: YearMonth, b: YearMonth, c: YearMonth)
    ensures !Less(a, a)
    ensures Less(a, b) ==> !Less(b, a)
    ensures Less(a, b) && Less(b, c) ==> Less(a, c)
    ensures a != b ==> Less(a, b) || Less(b, a)
  {
  }

  /** The Gregorian month names, `calendar.monthSymbols` of an English calendar. */
  const MonthSymbols: seq<string> :=
    ["January", "February", "March", "April", "May", "June",
     "July", "August", "September", "October", "November", "December"]

  /** `max(0, min(month - 1, count - 1))`: a month number clamped to a valid index. */
  function MonthIndex(month: int): (i: int)
    ensures 0 <= i < |MonthSymbols|
    ensures 1 <= month <= 12 ==> i == month - 1
    ensures month < 1 ==> i == 0
    ensures month > 12 ==> i == 11
  {
    var m := if month - 1 < |MonthSymbols| - 1 then month - 1 else |MonthSymbols| - 1;
    if 0 < m then m else 0
  }

  /** The month's name, the first or last name for a number outside 1 through 12. */
  function MonthName(month: int): (s: string)
    ensures 1 <= month <= 12 ==> s == MonthSymbols[month - 1]
    ensures month < 1 ==> s == MonthSymbols[0]
    ensures month > 12 ==> s == MonthSymbols[11]
  {
    MonthSymbols[MonthIndex(month)]
  }

  /** The section header's noun: "run" for exactly one run, "runs" otherwise. */
  function RunNoun(count: int): (s: string)
    ensures s == "run" <==> count == 1
    ensures s == "run" || s == "runs"
  {
    "run" + (if count == 1 then "" else "s")
  }

  datatype MonthGroup = MonthGroup(key: YearMonth, monthName: string, runs: seq<RunDay>)

  // ---------------------------------------------------------------------
  // Runs newest first

  predicate NewestFirst(s: seq<RunDay>) {
    forall i, j :: 0 <= i < j < |s| ==> s[i].date >= s[j].date
  }

  /** Places `x` before the first run that is not newer than it. */
  function InsertByDate(x: RunDay, s: seq<RunDay>): (r: seq<RunDay>)
    requires NewestFirst(s)
    ensures NewestFirst(r)
    ensures multiset(r) == multiset(s) + multiset{x}
    ensures forall y :: y in r ==> y == x || y in s
  {
    if s == [] || x.date >= s[0].date then
      [x] + s
    else
      var rest := InsertByDate(x, s[1..]);
      HeadIsNewest(s[0], x, s[1..], rest);
      assert s == [s[0]] + s[1..];
      [s[0]] + rest
  }

  lemma HeadIsNewest(h: RunDay, x: RunDay, tail: seq<RunDay>, rest: seq<RunDay>)
    requires NewestFirst([h] + tail) && NewestFirst(rest)
    requires x.date < h.date
    requires forall y :: y in rest ==> y == x || y in tail
    ensures NewestFirst([h] + rest)
  {
    forall j | 0 <= j < |rest|
      ensures h.date >= rest[j].date
    {
      var y := rest[j];
      assert y in rest;
      if y != x {
        var k :| 0 <= k < |tail| && tail[k] == y;
        assert ([h] + tail)[0] == h && ([h] + tail)[k + 1] == y;
      }
    }
  }

  /** `sorted(by: { $0.date > $1.date })`, as an insertion sort. */
  function SortNewestFirst(s: seq<RunDay>): (r: seq<RunDay>)
    ensures NewestFirst(r)
    ensures multiset(r) == multiset(s)
    ensures |r| == |s|
  {
    if s == [] then []
    else
      assert s == [s[0]] + s[1..];
      InsertByDate(s[0], SortNewestFirst(s[1..]))
  }

  /**
   * Sorting runs that are already newest first changes nothing (the list
   * body sorts each group again). This rests on the model's sort being
   * stable: Swift's `sorted(by:)` does not promise to keep runs with equal
   * dates in order, so the app may reorder such runs where this model does not.
   */
  lemma {:induction false} SortSortedIsIdentity(s: seq<RunDay>)
    requires NewestFirst(s)
    ensures SortNewestFirst(s) == s
  {
    if s != [] {
      SortSortedIsIdentity(s[1..]);
      assert s == [s[0]] + s[1..];
    }
  }

  // ---------------------------------------------------------------------
  // Months newest first

  predicate NewestMonthFirst(ks: seq<YearMonth>) {
    forall i, j :: 0 <= i < j < |ks| ==> Less(ks[j], ks[i])
  }

  function InsertMonth(k: YearMonth, ks: seq<YearMonth>): (r: seq<YearMonth>)
    requires NewestMonthFirst(ks)
    ensures NewestMonthFirst(r)
    ensures forall y :: y in r <==> y == k || y in ks
  {
    if ks == [] then [k]
    else if k == ks[0] then ks
    else if Less(ks[0], k) then
      assert forall j :: 0 <= j < |ks| ==> Less(ks[j], k) by {
        forall j | 0 <= j < |ks|
          ensures Less(ks[j], k)
        {
          if j > 0 {
            LessIsStrictTotalOrder(ks[j], ks[0], k);
          }
        }
      }
      [k] + ks
    else
      var rest := InsertMonth(k, ks[1..]);
      LessIsStrictTotalOrder(k, ks[0], k);
      assert forall j :: 0 <= j < |rest| ==> Less(rest[j], ks[0]) by {
        forall j | 0 <= j < |rest|
          ensures Less(rest[j], ks[0])
        {
          assert rest[j] in rest;
          if rest[j] != k {
            var m :| 0 <= m < |ks[1..]| && ks[1..][m] == rest[j];
            assert ks[m + 1] == rest[j];
          }
        }
      }
      assert forall y :: y in ks <==> y == ks[0] || y in ks[1..] by {
        assert ks == [ks[0]] + ks[1..];
      }
      [ks[0]] + rest
  }

  /** The distinct months of the runs, newest first. */
  function MonthsNewestFirst(runs: seq<RunDay>, monthOf: RunDay -> YearMonth): (ks: seq<YearMonth>)
    ensures NewestMonthFirst(ks)
    ensures forall k :: k in ks <==> exists x :: x in runs && monthOf(x) == k
  {
    if runs == [] then []
    else
      var init := runs[..|runs| - 1];
      var last := runs[|runs| - 1];
      assert forall x :: x in runs <==> x in init || x == last;
      InsertMonth(monthOf(last), MonthsNewestFirst(init, monthOf))
  }

  // ---------------------------------------------------------------------
  // Grouping

  /** The runs of month `k`, in input order: one value list of the grouping dictionary. */
  function RunsIn(runs: seq<RunDay>, monthOf: RunDay -> YearMonth, k: YearMonth): (g: seq<RunDay>)
    ensures forall x :: x in g <==> x in runs && monthOf(x) == k
  {
    Filter(runs, (x: RunDay) => monthOf(x) == k)
  }

  function GroupsFor(ks: seq<YearMonth>, runs: seq<RunDay>, monthOf: RunDay -> YearMonth): (gs: seq<MonthGroup>)
    ensures |gs| == |ks|
    ensures forall i :: 0 <= i < |ks| ==>
              gs[i] == MonthGroup(ks[i], MonthName(ks[i].month), SortNewestFirst(RunsIn(runs, monthOf, ks[i])))
  {
    if ks == [] then []
    else
      var k := ks[|ks| - 1];
      GroupsFor(ks[..|ks| - 1], runs, monthOf)
        + [MonthGroup(k, MonthName(k.month), SortNewestFirst(RunsIn(runs, monthOf, k)))]
  }

  /**
   * `groupedRuns`: one group per month that has a run, newest month first;
   * each group holds exactly that month's runs, newest first, under the
   * month's name; every run is in its month's group.
   */
  function GroupedRuns(runs: seq<RunDay>, monthOf: RunDay -> YearMonth): (gs: seq<MonthGroup>)
    ensures forall i, j :: 0 <= i < j < |gs| ==> Less(gs[j].key, gs[i].key)
    ensures forall i :: 0 <= i < |gs| ==>
              && |gs[i].runs| > 0
              && NewestFirst(gs[i].runs)
              && multiset(gs[i].runs) == multiset(RunsIn(runs, monthOf, gs[i].key))
              && gs[i].monthName == MonthName(gs[i].key.month)
    ensures forall x :: x in runs ==> exists i :: 0 <= i < |gs| && gs[i].key == monthOf(x) && x in gs[i].runs
  {
    var ks := MonthsNewestFirst(runs, monthOf);
    var gs := GroupsFor(ks, runs, monthOf);
    GroupedRunsFacts(runs, monthOf, ks, gs);
    gs
  }

  lemma GroupedRunsFacts(runs: seq<RunDay>, monthOf: RunDay -> YearMonth, ks: seq<YearMonth>, gs: seq<MonthGroup>)
    requires ks == MonthsNewestFirst(runs, monthOf)
    requires gs == GroupsFor(ks, runs, monthOf)
    ensures forall i :: 0 <= i < |gs| ==> |gs[i].runs| > 0
    ensures forall x :: x in runs ==> exists i :: 0 <= i < |gs| && gs[i].key == monthOf(x) && x in gs[i].runs
  {
    forall i | 0 <= i < |gs|
      ensures |gs[i].runs| > 0
    {
      assert ks[i] in ks;
      var x :| x in runs && monthOf(x) == ks[i];
      assert x in RunsIn(runs, monthOf, ks[i]);
      assert x in multiset(gs[i].runs);
    }
    forall x | x in runs
      ensures exists i :: 0 <= i < |gs| && gs[i].key == monthOf(x) && x in gs[i].runs
    {
      assert monthOf(x) in ks;
      var i :| 0 <= i < |ks| && ks[i] == monthOf(x);
      assert x in RunsIn(runs, monthOf, ks[i]);
      assert x in multiset(gs[i].runs);
    }
  }

  // ---------------------------------------------------------------------
  // Every run is counted once

  /** The runs listed under all groups together. */
  function ListedRuns(gs: seq<MonthGroup>): nat {
    if gs == [] then 0 else ListedRuns(gs[..|gs| - 1]) + |gs[|gs| - 1].runs|
  }

  function CountsOver(runs: seq<RunDay>, monthOf: RunDay -> YearMonth, ks: seq<YearMonth>): nat {
    if ks == [] then 0
    else CountsOver(runs, monthOf, ks[..|ks| - 1]) + |RunsIn(runs, monthOf, ks[|ks| - 1])|
  }

  function Occurrences(ks: seq<YearMonth>, k: YearMonth): nat {
    if ks == [] then 0
    else Occurrences(ks[..|ks| - 1], k) + (if ks[|ks| - 1] == k then 1 else 0)
  }

  predicate Distinct(ks: seq<YearMonth>) {
    forall i, j :: 0 <= i < j < |ks| ==> ks[i] != ks[j]
  }

  lemma {:induction false} OccursOnce(ks: seq<YearMonth>, k: YearMonth)
    requires Distinct(ks)
    ensures Occurrences(ks, k) == if k in ks then 1 else 0
  {
    if ks != [] {
      var init := ks[..|ks| - 1];
      OccursOnce(init, k);
      assert forall y :: y in ks <==> y in init || y == ks[|ks| - 1];
    }
  }

  lemma {:induction false} CountsOfNoRuns(monthOf: RunDay -> YearMonth, ks: seq<YearMonth>)
    ensures CountsOver([], monthOf, ks) == 0
  {
    if ks != [] {
      CountsOfNoRuns(monthOf, ks[..|ks| - 1]);
    }
  }

  /** Adding one run adds one to the count of every listed month that is its month. */
  lemma {:induction false} CountsOverSnoc(runs: seq<RunDay>, x: RunDay, monthOf: RunDay -> YearMonth, ks: seq<YearMonth>)
    ensures CountsOver(runs + [x], monthOf, ks) == CountsOver(runs, monthOf, ks) + Occurrences(ks, monthOf(x))
  {
    if ks != [] {
      CountsOverSnoc(runs, x, monthOf, ks[..|ks| - 1]);
      assert (runs + [x])[..|runs + [x]| - 1] == runs;
    }
  }

  lemma {:induction false} CountsCoverAll(runs: seq<RunDay>, monthOf: RunDay -> YearMonth, ks: seq<YearMonth>)
    requires Distinct(ks)
    requires forall x :: x in runs ==> monthOf(x) in ks
    ensures CountsOver(runs, monthOf, ks) == |runs|
  {
    if runs == [] {
      CountsOfNoRuns(monthOf, ks);
    } else {
      var init := runs[..|runs| - 1];
      var x := runs[|runs| - 1];
      assert runs == init + [x];
      CountsCoverAll(init, monthOf, ks);
      CountsOverSnoc(init, x, monthOf, ks);
      OccursOnce(ks, monthOf(x));
    }
  }

  lemma {:induction false} ListedRunsOfGroups(runs: seq<RunDay>, monthOf: RunDay -> YearMonth, ks: seq<YearMonth>)
    ensures ListedRuns(GroupsFor(ks, runs, monthOf)) == CountsOver(runs, monthOf, ks)
  {
    if ks != [] {
      var init := ks[..|ks| - 1];
      ListedRunsOfGroups(runs, monthOf, init);
      var gs := GroupsFor(ks, runs, monthOf);
      var gi := GroupsFor(init, runs, monthOf);
      assert gs[..|gs| - 1] == gi;
    }
  }

  /** The month groups together list every run exactly once: their sizes add up to the number of runs. */
  lemma GroupSizesAddUp(runs: seq<RunDay>, monthOf: RunDay -> YearMonth)
    ensures ListedRuns(GroupedRuns(runs, monthOf)) == |runs|
  {
    var ks := MonthsNewestFirst(runs, monthOf);
    assert Distinct(ks) by {
      forall i, j | 0 <= i < j < |ks|
        ensures ks[i] != ks[j]
      {
        LessIsStrictTotalOrder(ks[i], ks[j], ks[j]);
      }
    }
    ListedRunsOfGroups(runs, monthOf, ks);
    CountsCoverAll(runs, monthOf, ks);
  }
}
