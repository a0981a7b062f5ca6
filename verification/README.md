# RunStreak statistics core in Dafny

RunStreak is an iOS app that reads running workouts from the health store
and shows streaks, per-day charts, rolling seven-day figures, a summary, a
month-by-month run list and a streak card. This project models the app's
pure statistics over a list of `RunDay` records, and proves what those
computations promise.

The app copies the same logic into several views, and the copies have
drifted apart. Each variant is modelled as its own function, and lemmas
relate the variants where they agree or differ.

Conventions of the model:

- **Instants** are `int` seconds. `StartOfDay(t) = t - t % 86400`, so days
  are fixed 86400-second days in one time zone.
- **Metric values** are exact `real`s, so every `isFinite` check holds.
  Optional readings are `Option<real>`.
- **Outside inputs** become parameters:
  - `now`, the clock reading;
  - the calendar's month lookup (`monthOf` in `AllRuns`);
  - each workout's heart-rate query result;
  - the locale's measurement system.
- **Swift's `Int(x)`** truncates toward zero, and
  `truncatingRemainder(dividingBy:)` keeps the dividend's sign. Both are
  written out in `PaceFormat`. The summary's pace is truncated, not
  rounded, as the code does.
- **Swift's `max(by:)` and `min(by:)`** return the first extremal element,
  and `BestSample` does the same.
- **`downsampled`** uses a real stride `count / limit`. With exact
  arithmetic, `Int(i * step)` is the integer quotient `(i * count) / limit`.

Modules, one per area of the app:

| module | models |
|---|---|
| `DayClock` | `startOfDay`, adding days, `isDateInToday`, day differences |
| `Numbers` | sums, means, `filter`, `compactMap` |
| `PaceFormat` | the minute:second decompositions by truncation |
| `RunDayModel` | the `RunDay` record, its initialiser, `paceMinPerKm`, `formattedPace` |
| `Streak` | both streak rules: from the most recent run day, and from today |
| `DayBuckets` | `groupRunsByDay` and the three 30-day trend charts |
| `RollingWindow` | the seven-day figures of the view model and of both home views, plus today's distance and badge |
| `RunSummary` | `computeSummary` |
| `HealthMapping` | the VO2max by-day map and the workout-to-`RunDay` mapping |
| `Measurement` | the measurement-system helpers |
| `TimeRangeModel` | the chart's `TimeRange` table |
| `ChartDetail` | the metric detail view model and view logic |
| `AllRuns` | the month grouping of the run list |
| `StreakCard` | the record badge, high score, label and motivation bands |
| `Stats` | the overview and stats-block figures |

The two streak rules differ on purpose:

- `StreakCount` counts back from the most recent run day.
- `TodayStreak` counts back from today.

`TodayStreakVersusRecentStreak` proves that they agree exactly when the
most recent run is today, and that the today-anchored streak is 0 otherwise.

The seven-day "total distance" also has two versions:

- The home view model's version is a mean of the positive per-run
  kilometres.
- The home views' version is a sum.

`TotalDistanceDrift` exhibits two runs on which they differ.

## Model

| member | source | states |
|---|---|---|
| `DayClock.StartOfDay` | RunStreak/Model/RunDay.swift:31 | the start of a day is a day boundary at or before the instant and less than one day before it |
| `DayClock.StartOfDayIdempotent` | RunStreak/Model/RunDay.swift:31 | normalising a date that is already a start of day changes nothing |
| `DayClock.DaysBetween` | RunStreak/Screen/HomeScreen/HomeScreenVM.swift:36-37 | the whole days from one instant to another, truncated toward zero, bracket the seconds between them; between two day starts it is exactly their distance in days |
| `DayClock.OneDayApart` | RunStreak/Screen/HomeScreen/HomeScreenVM.swift:36-37 | for two day starts, the day difference is 1 exactly when the later one is 86400 s after the earlier one |
| `DayClock.SameDayIffSameStart` | RunStreak/Model/RunSummary.swift:52 | two instants are on the same day exactly when the second lies within the first one's day |
| `Numbers.FilterCounts` | RunStreak/Screen/ChartDetailScreen/MetricDetailViewModel.swift:22 | `filter` keeps every passing element as often as it occurs in the input and drops every other element |
| `Numbers.FilterConcat` | RunStreak/Screen/ChartDetailScreen/MetricDetailViewModel.swift:22 | filtering a concatenation is the concatenation of the filtered parts, so `filter` keeps the input's order |
| `PaceFormat.Trunc` | RunStreak/Model/RunDay.swift:48 | `Int(x)` is the whole number at or below a non-negative x, and at or above a negative x, less than 1 away |
| `PaceFormat.SplitSeconds` | RunStreak/Screen/AllRunsScreen.swift:120-124 | for non-negative seconds, the seconds part lies in [0, 59] and minutes·60 + seconds is the floor of the input |
| `PaceFormat.SplitMinutes` | RunStreak/UIComponents/StatsBlock.swift:28-31 | for a non-negative pace, the seconds part lies in [0, 59], never 60, and minutes·60 + seconds is the floor of pace·60 |
| `PaceFormat.SplitsAgree` | RunStreak/Model/RunSummary.swift:40-41 | splitting whole seconds gives the same minutes and seconds as splitting the same time given in minutes |
| `RunDayModel.MakeRunDay` | RunStreak/Model/RunDay.swift:20-38 | the stored date is a start of day on the same day as the given date, and every other field is stored as given |
| `RunDayModel.DefaultRunDay` | RunStreak/Model/RunDay.swift:21-28 | with default arguments the run is dated today, with distance and duration 0 and every optional field absent |
| `RunDayModel.RebuildIsIdentity` | RunStreak/Model/RunDay.swift:30-37 | re-initialising a run from its own fields returns it unchanged when its date is a start of day |
| `RunDayModel.PaceMinPerKm` | RunStreak/Model/RunDay.swift:40-44 | the pace is 0 without distance; otherwise pace × km × 60 gives back the duration; it is non-negative for a non-negative duration |
| `RunDayModel.FormattedPace` | RunStreak/Model/RunDay.swift:46-50 | for a non-negative duration, the seconds lie in [0, 59] and minutes·60 + seconds is the floor of the pace in seconds |
| `RunDayModel.FiveMinutePace` | RunStreak/Model/RunDay.swift:46-50 | a 5 km run of 25 minutes prints as 5:00 |
| `Streak.ChainCharacterization` | RunStreak/Screen/HomeScreen/HomeScreenVM.swift:33-41 | the chain length from day d is n exactly when the n days d, d−1, … are run days and the day before them is not |
| `Streak.DaysDescending` | RunStreak/Screen/HomeScreen/HomeScreenVM.swift:30 | the distinct run days, each a start of day, in strictly descending order and no others |
| `Streak.MostRecentDay` | RunStreak/Screen/HomeScreen/HomeScreenVM.swift:31 | for non-empty runs, a run day that no other run day follows |
| `Streak.WalkIsChain` | RunStreak/HealthKitManager.swift:170-179 | the walk over descending days, counting while the gap is exactly one day, equals the chain of consecutive days from the first day |
| `Streak.StreakCount` | RunStreak/Screen/HomeScreen/HomeScreenVM.swift:29-43 | 0 exactly for no runs; otherwise between 1 and the number of distinct run days, and equal to the chain of consecutive days ending at the most recent run day |
| `Streak.CalculateStreak` | RunStreak/Screen/HomeView.swift:204-218 | the loop returns 0 for no runs and otherwise the chain of consecutive days ending at the most recent run day |
| `Streak.StreakIgnoresSameDayRun` | RunStreak/HomeView.swift:149-151 | adding a run on a day that already has a run leaves the streak unchanged |
| `Streak.StreakIgnoresDaysBeyondGap` | RunStreak/HomeView.swift:155-160 | runs older than the first missing day never change the streak |
| `Streak.TodayWalkIsChain` | RunStreak/Model/RunSummary.swift:48-58 | walking the descending days with a cursor that starts today and steps back one day per match counts the chain of consecutive days ending today |
| `Streak.TodayStreak` | RunStreak/Model/RunSummary.swift:44-58 | 0 when some run day is after today; otherwise the chain of consecutive run days ending today, which is 0 without a run today |
| `Streak.TodayStreakBounded` | RunStreak/Model/RunSummary.swift:45-58 | the today-anchored streak never exceeds the number of distinct run days |
| `Streak.TodayStreakVersusRecentStreak` | RunStreak/Model/RunSummary.swift:45-58 | the today-anchored streak equals the most-recent-day streak when the most recent run day is today, and is 0 otherwise |
| `DayBuckets.GroupByDay` | RunStreak/Screen/HomeView.swift:248-260 | entries ascend strictly by date; each is a run day whose runs reduce to its value; every run day whose runs reduce to a value has an entry |
| `DayBuckets.GroupRunsByDay` | RunStreak/Screen/HomeScreen/HomeScreenVM.swift:91-104 | one ascending entry per run day that has a positive reading; each value is the mean of that day's positive readings and is positive |
| `DayBuckets.MeansArePositive` | RunStreak/Screen/HomeView.swift:251-258 | no emitted average is 0 or negative |
| `DayBuckets.GroupedDistance` | RunStreak/Screen/HomeScreen/HomeScreenVM.swift:14-17 | ascending days, each the mean of its positive metre readings divided by 1000; every run day with a positive distance has a point |
| `DayBuckets.GroupedHeartRate` | RunStreak/Screen/HomeScreen/HomeScreenVM.swift:19-22 | ascending run days, each the mean of that day's positive heart rates and so positive; every run day with a positive heart rate has a point |
| `DayBuckets.GroupedVo2Max` | RunStreak/Screen/HomeScreen/HomeScreenVM.swift:24-27 | ascending run days, each the mean of that day's positive VO2max readings and so positive; every run day with a positive VO2max has a point |
| `DayBuckets.SingleDayMean` | RunStreak/Screen/HomeScreen/HomeScreenVM.swift:96-101 | runs all on one day give that day with the mean of its positive readings, or nothing when none is positive |
| `DayBuckets.SameDayDistancesAverage` | RunStreak/Screen/HomeScreen/HomeScreenVM.swift:98-100 | two positive-distance runs on one day give one point whose value is their mean in km |
| `DayBuckets.RecentWith` | RunStreak/UIComponents/Chart/HeartRateTrendChart.swift:17-19 | exactly the runs of the last 30 days that carry the reading |
| `DayBuckets.PresentMeanTrend` | RunStreak/UIComponents/Chart/HeartRateTrendChart.swift:21-27 | ascending days; each value is the mean of the readings of that day's recent runs; every recent run with a reading has its day; empty exactly when no recent run has a reading |
| `DayBuckets.HeartRateTrend` | RunStreak/UIComponents/Chart/HeartRateTrendChart.swift:32-33 | ascending points; the chart is empty, showing the placeholder, exactly when no run of the last 30 days has a heart rate |
| `DayBuckets.Vo2MaxTrend` | RunStreak/UIComponents/Chart/Vo2MaxTrendChart.swift:14-27 | ascending points; empty exactly when no run of the last 30 days has a VO2max |
| `DayBuckets.ZeroHeartRateIsKept` | RunStreak/UIComponents/Chart/HeartRateTrendChart.swift:23-24 | a zero heart-rate reading still gives a point, with value 0 |
| `DayBuckets.RecentRuns` | RunStreak/UIComponents/Chart/DistanceTrendChart.swift:22-24 | exactly the runs of the last 30 days, with no metric filter |
| `DayBuckets.DistanceTrend` | RunStreak/UIComponents/Chart/DistanceTrendChart.swift:20-31 | ascending days; each value is the sum of that day's km; the days are exactly the days of recent runs |
| `DayBuckets.DistanceTrendCovers` | RunStreak/UIComponents/Chart/DistanceTrendChart.swift:26-29 | every recent run's day has a point, even one whose runs have zero distance, and every point comes from a recent run |
| `RollingWindow.InWindow` | RunStreak/Screen/HomeView.swift:221-222 | exactly the runs dated at or after the window start |
| `RollingWindow.MetricAverage` | RunStreak/Screen/HomeScreen/HomeScreenVM.swift:83-89 | non-negative; positive exactly when some windowed run has a positive reading; then the mean of the windowed positive readings |
| `RollingWindow.MetricAverageAtMost` | RunStreak/Screen/HomeScreen/HomeScreenVM.swift:86-88 | the average never exceeds a bound that every windowed reading respects |
| `RollingWindow.VmTotalDistanceLast7Days` | RunStreak/Screen/HomeScreen/HomeScreenVM.swift:58-60 | positive exactly when some run of the last 7 days has positive distance |
| `RollingWindow.VmAvgHeartRateLast7Days` | RunStreak/Screen/HomeScreen/HomeScreenVM.swift:62-64 | positive exactly when some run of the last 7 days has a positive heart rate |
| `RollingWindow.VmAvgVo2MaxLast7Days` | RunStreak/Screen/HomeScreen/HomeScreenVM.swift:66-68 | positive exactly when some run of the last 7 days has a positive VO2max |
| `RollingWindow.TodayRuns` | RunStreak/HomeView.swift:67-72 | exactly the runs dated today |
| `RollingWindow.HasCompletedTodayRun` | RunStreak/Screen/HomeScreen/HomeScreenVM.swift:52-56 | with non-negative distances, today is complete exactly when some run dated today has a positive distance |
| `RollingWindow.TodayMetersPositiveIffPositiveRun` | RunStreak/Screen/HomeScreen/HomeScreenVM.swift:53-55 | with non-negative distances, today's summed metres are positive exactly when some run dated today has a positive distance |
| `RollingWindow.TodayDistanceKm` | RunStreak/Screen/HomeView.swift:119-124 | today's summed metres over 1000 equal the sum of today's per-run km, and are non-negative when no distance is negative |
| `RollingWindow.TodayBadgeShown` | RunStreak/Screen/HomeView.swift:119-126 | the badge test on kilometres shows exactly when the view model counts today as complete, on every input |
| `RollingWindow.TotalDistanceLast7Days` | RunStreak/Screen/HomeView.swift:220-224 | the sum of the windowed runs' km, non-negative when distances are |
| `RollingWindow.PresentMean` | RunStreak/HomeView.swift:171-176 | 0 when no windowed run has the reading, otherwise the mean of all windowed readings, zeros included |
| `RollingWindow.PresentReadings` | RunStreak/Screen/HomeView.swift:228-230 | reading `?? 0` over the runs that have a reading gives exactly the present readings |
| `RollingWindow.AvgHeartRateLast7Days` | RunStreak/Screen/HomeView.swift:226-231 | 0 with no heart rate in the window, otherwise the mean of the windowed heart rates |
| `RollingWindow.AvgVo2MaxLast7Days` | RunStreak/Screen/HomeView.swift:233-238 | 0 with no VO2max in the window, otherwise the mean of the windowed VO2max readings |
| `RollingWindow.OldRunsOnlyGiveZero` | RunStreak/HomeView.swift:165-183 | with no run in the last 7 days, all six seven-day figures are 0 |
| `RollingWindow.TotalDistanceDrift` | RunStreak/HomeView.swift:165-169 | for two recent runs, the view model's "total" is the mean of their km while the home view's is the sum |
| `RunSummary.PaceSecondsPerKm` | RunStreak/Model/RunSummary.swift:39 | with distance, pace × km gives back the total seconds; without distance, the divisor is 1 |
| `RunSummary.ComputeSummary` | RunStreak/Model/RunSummary.swift:22-71 | no runs give the placeholder summary; otherwise the total is the sum of the per-run km, the averages are the mean km and mean minutes per run, and pace and duration are present; today's km is the sum of the km of today's runs, positive exactly when a run today is complete |
| `RunSummary.TotalKm` | RunStreak/Model/RunSummary.swift:34 | dividing the summed metres by 1000 gives the sum of the per-run km |
| `RunSummary.AverageKm` | RunStreak/Model/RunSummary.swift:36 | the mean km per run |
| `RunSummary.AverageMinutes` | RunStreak/Model/RunSummary.swift:35-37 | the mean duration in seconds over 60; the average × 60 × run count gives back the total seconds |
| `RunSummary.AveragePace` | RunStreak/Model/RunSummary.swift:39-42 | with non-negative durations, seconds in [0, 59] and minutes·60 + seconds is the floor of the seconds per km |
| `RunSummary.KmTotal` | RunStreak/UIComponents/StatsOverview.swift:13-15 | summing metres and dividing by 1000 equals summing the per-run km |
| `RunSummary.SummaryPace` | RunStreak/Model/RunSummary.swift:39-42 | the summary's pace is present, with seconds in [0, 59], and whole minutes and seconds of the total seconds over the total km |
| `RunSummary.SummaryStreak` | RunStreak/Model/RunSummary.swift:44-58 | the summary's streak is the today-anchored chain, at most the number of distinct run days |
| `RunSummary.SummaryStreakVersusHomeStreak` | RunStreak/Model/RunSummary.swift:47-58 | the summary's streak equals the home streak exactly when the latest run is today, and is 0 otherwise |
| `RunSummary.TenKmInFiftyMinutes` | RunStreak/Model/RunSummary.swift:39-42 | one 10 km run of 50 minutes gives the pace 5:00 |
| `HealthMapping.Vo2ByDate` | RunStreak/HealthKitManager.swift:54-59 | the keys are exactly the days with a reading, and each holds that day's last reading |
| `HealthMapping.Vo2ForDay` | RunStreak/HealthKitManager.swift:127-128 | present exactly when the day is a key, with the stored value |
| `HealthMapping.RunningWorkouts` | RunStreak/HealthKitManager.swift:109-111 | exactly the running workouts |
| `HealthMapping.BuildRunDay` | RunStreak/HealthKitManager.swift:122-138 | identity and start of day; distance defaults to 0; calories 100; source is the app's name; the given heart rate; VO2max present exactly when the day has a reading |
| `HealthMapping.BuiltVo2IsLastReadingOfDay` | RunStreak/HealthKitManager.swift:118-128 | a built run has a VO2max exactly when its day has a reading, and then it is that day's last reading |
| `HealthMapping.FetchRunDays` | RunStreak/HealthKitManager.swift:118-142 | one run per running workout, in order, each the run built from that workout with its queried heart rate and the day's VO2max |
| `Measurement.ConvertDistance` | RunStreak/Extensions/MeasurementSystem+Extension.swift:12-19 | unchanged for metric; otherwise the result times 1.60934 gives back the km |
| `Measurement.DistanceUnitSymbol` | RunStreak/Extensions/MeasurementSystem+Extension.swift:22-29 | "km" exactly for metric, "mi" otherwise |
| `Measurement.PaceUnitSymbol` | RunStreak/Extensions/MeasurementSystem+Extension.swift:32-39 | "min/km" exactly for metric, "min/mi" otherwise |
| `Measurement.PaceUnitIsPerDistanceUnit` | RunStreak/Extensions/MeasurementSystem+Extension.swift:22-39 | the pace unit is always "min/" followed by the distance unit |
| `Measurement.ImperialSystemsAgree` | RunStreak/Extensions/MeasurementSystem+Extension.swift:12-39 | the US and UK systems convert and label distances and paces identically, since only metric is special-cased |
| `Measurement.ConvertDistanceMonotone` | RunStreak/Extensions/MeasurementSystem+Extension.swift:12-19 | conversion keeps the order of distances |
| `TimeRangeModel.Label` | RunStreak/Screen/ChartDetailScreen/TimeRangeModel.swift:8-15 | the caption is "All" exactly for the range without a day limit |
| `TimeRangeModel.DisplayTitle` | RunStreak/Screen/ChartDetailScreen/TimeRangeModel.swift:17-24 | the title is "All Runs" exactly for the range without a day limit |
| `TimeRangeModel.DaysBack` | RunStreak/Screen/ChartDetailScreen/TimeRangeModel.swift:26-33 | no day count exactly for "all", and a positive one otherwise |
| `TimeRangeModel.InAllCases` | RunStreak/Screen/ChartDetailScreen/TimeRangeModel.swift:5-6 | every range appears in the case list |
| `TimeRangeModel.AllCasesOrdered` | RunStreak/Screen/ChartDetailScreen/TimeRangeModel.swift:6 | the cases are distinct and ordered by increasing day count |
| `TimeRangeModel.LabelsIdentifyRanges` | RunStreak/Screen/ChartDetailScreen/TimeRangeModel.swift:8-24 | distinct ranges have distinct labels and distinct titles |
| `ChartDetail.StrideIndex` | RunStreak/Screen/ChartDetailScreen/MetricDetailViewModel.swift:42-43 | `Int(i * step)`: the largest k with k·limit ≤ i·count |
| `ChartDetail.StrideInBounds` | RunStreak/Screen/ChartDetailScreen/MetricDetailViewModel.swift:42-43 | every stride index is a valid position |
| `ChartDetail.StrideMonotone` | RunStreak/Screen/ChartDetailScreen/MetricDetailViewModel.swift:42-43 | stride indices strictly increase, so no sample is taken twice or out of order |
| `ChartDetail.Downsampled` | RunStreak/Screen/ChartDetailScreen/MetricDetailViewModel.swift:40-44 | unchanged within the limit; otherwise exactly `limit` samples starting with the first; samples come from the input and ascending dates stay ascending |
| `ChartDetail.Strided` | RunStreak/Screen/ChartDetailScreen/MetricDetailViewModel.swift:42-43 | exactly `limit` samples, the i-th taken at the i-th stride index |
| `ChartDetail.SamplesSince` | RunStreak/Screen/ChartDetailScreen/MetricDetailViewModel.swift:21-22 | exactly the samples at or after the cutoff |
| `ChartDetail.LimitFor` | RunStreak/Screen/ChartDetailScreen/MetricDetailViewModel.swift:23 | positive, and the long-range limit exactly for more than 200 days back |
| `ChartDetail.FilteredSamples` | RunStreak/Screen/ChartDetailScreen/MetricDetailViewModel.swift:16-24 | at most 150 samples from the input, within the range's cutoff, order kept; a range of 200 days or fewer keeps at most 60 and a longer one at most 150; an over-budget input is thinned to exactly its budget, and one within budget is left unchanged |
| `ChartDetail.AverageValue` | RunStreak/Screen/ChartDetailScreen/MetricDetailViewModel.swift:26-29 | 0 for no samples; otherwise the mean value, which lies between the smallest and the largest sample value |
| `ChartDetail.BestSample` | RunStreak/Screen/ChartDetailScreen/MetricDetailViewModel.swift:31-33 | absent exactly for no samples; otherwise the first sample whose value no other exceeds |
| `ChartDetail.TotalRunningDistance` | RunStreak/Screen/ChartDetailScreen/MetricDetailViewModel.swift:35-38 | present exactly for distance samples or an empty list, which the array cast also accepts and which totals 0; then the sum of the values, the average × sample count, and at least every sample value when none is negative |
| `ChartDetail.AverageAtMostBest` | RunStreak/Screen/ChartDetailScreen/MetricDetailViewModel.swift:26-33 | the average shown never exceeds the best sample's value |
| `ChartDetail.SelectedValue` | RunStreak/Screen/ChartDetailScreen/MetricDetailView.swift:48-53 | absent exactly without a selected date or without samples; otherwise the first sample nearest the selected date: no other is nearer and every earlier one is farther |
| `ChartDetail.Nearest` | RunStreak/Screen/ChartDetailScreen/MetricDetailView.swift:50-51 | absent exactly for no samples; otherwise the first sample nearest the date, as `min(by:)` keeps: no other is nearer and every earlier one is farther |
| `ChartDetail.YDomainUpper` | RunStreak/Screen/ChartDetailScreen/MetricDetailView.swift:179 | 1 for no samples; otherwise a sample value at least every value |
| `ChartDetail.UnitConvert` | RunStreak/Screen/ChartDetailScreen/MetricDetailView.swift:15-24 | heart-rate and VO2max values pass unchanged in every system |
| `ChartDetail.UnitSymbol` | RunStreak/Screen/ChartDetailScreen/MetricDetailView.swift:26-35 | the km unit's symbol is the measurement system's distance symbol; the other units never show "km" or "mi" |
| `ChartDetail.KmUnitAgreesWithMeasurement` | RunStreak/Screen/ChartDetailScreen/MetricDetailView.swift:15-35 | the km unit converts and labels as the measurement-system helpers do |
| `ChartDetail.UnitSymbolsDistinct` | RunStreak/Screen/ChartDetailScreen/MetricDetailView.swift:26-35 | in any system, distinct units have distinct symbols |
| `AllRuns.LessIsStrictTotalOrder` | RunStreak/Screen/AllRunsScreen.swift:14-19 | month order is irreflexive, asymmetric and transitive, and it relates any two distinct months |
| `AllRuns.MonthIndex` | RunStreak/Screen/AllRunsScreen.swift:36 | always a valid month-name index; month − 1 for months 1–12, clamped at both ends otherwise |
| `AllRuns.MonthName` | RunStreak/Screen/AllRunsScreen.swift:36-37 | the month's name for 1–12, the first name below and the last name above |
| `AllRuns.RunNoun` | RunStreak/Screen/AllRunsScreen.swift:72 | "run" exactly for a count of 1, otherwise "runs" |
| `AllRuns.InsertByDate` | RunStreak/Screen/AllRunsScreen.swift:38 | inserting into a newest-first list keeps it newest first and adds exactly the one run |
| `AllRuns.SortNewestFirst` | RunStreak/Screen/AllRunsScreen.swift:38 | a permutation of the runs with dates non-increasing |
| `AllRuns.SortSortedIsIdentity` | RunStreak/Screen/AllRunsScreen.swift:47 | sorting an already newest-first group again changes nothing, as the model's stable sort keeps ties in place |
| `AllRuns.MonthsNewestFirst` | RunStreak/Screen/AllRunsScreen.swift:40 | the distinct months of the runs, strictly newest first |
| `AllRuns.RunsIn` | RunStreak/Screen/AllRunsScreen.swift:29-32 | exactly the runs of the given month |
| `AllRuns.GroupedRuns` | RunStreak/Screen/AllRunsScreen.swift:25-41 | months strictly newest first; each group non-empty, newest first, a permutation of its month's runs, and named by its month; every run is in its month's group |
| `AllRuns.GroupSizesAddUp` | RunStreak/Screen/AllRunsScreen.swift:29-32 | the group sizes add up to the number of runs |
| `StreakCard.IsNewRecord` | RunStreak/UIComponents/Card/StreakCard.swift:14-16 | the badge condition holds exactly when appearing would leave the count as the high score |
| `StreakCard.OnAppear` | RunStreak/UIComponents/Card/StreakCard.swift:72-76 | the new high score is the larger of the old one and the count |
| `StreakCard.HighestAfter` | UIComponents/Sources/UIComponents/Card/StreakCard.swift:65-69 | from the initial 0, the high score is at least 0 and every count shown, and is 0 or one of them |
| `StreakCard.HighScoreNeverDecreases` | RunStreak/UIComponents/Card/StreakCard.swift:72-76 | later appearances never lower the high score |
| `StreakCard.BadgeAfterAppear` | RunStreak/UIComponents/Card/StreakCard.swift:14-16 | after the card appears, the badge shows exactly when the count reached the old high score, ties included |
| `StreakCard.NewRecordIffBestSoFar` | UIComponents/Sources/UIComponents/Card/StreakCard.swift:12-14 | a count is a new record exactly when it is at least 0 and at least every earlier count |
| `StreakCard.DayLabel` | RunStreak/UIComponents/Card/StreakCard.swift:50 | "DAY" exactly for a count of 1, otherwise "DAYS" |
| `StreakCard.MotivationFor` | RunStreak/UIComponents/Card/StreakCard.swift:19-34 | a count gets the default message exactly when it is negative; any other count gets the message of the one band it falls in |
| `StreakCard.MotivationTextsDistinct` | RunStreak/UIComponents/Card/StreakCard.swift:19-34 | two messages have the same text exactly when they are the same message |
| `StreakCard.SameMotivationIffSameBand` | RunStreak/UIComponents/Card/StreakCard.swift:19-34 | two non-negative counts get the same message exactly when they fall in the same band |
| `StreakCard.SameTextIffSameBand` | RunStreak/UIComponents/Card/StreakCard.swift:19-34 | two non-negative counts show the same text exactly when they fall in the same band |
| `StreakCard.MotivationNeverFallsBack` | UIComponents/Sources/UIComponents/Card/StreakCard.swift:17-32 | a longer streak never falls in an earlier band |
| `Stats.OverviewPace` | RunStreak/UIComponents/StatsOverview.swift:17-23 | absent exactly when the total distance is not positive; otherwise the split of the mean per-run pace, with seconds in [0, 59] for non-negative durations |
| `Stats.OverviewPaceOfEvenRuns` | RunStreak/UIComponents/StatsOverview.swift:19-21 | runs that all went one pace show that pace |
| `Stats.ZeroDistanceRunHalvesPace` | RunStreak/UIComponents/StatsOverview.swift:19 | a run without distance still counts in the divisor and halves the pace of the run beside it |
| `Stats.BlockAverageDistance` | RunStreak/UIComponents/StatsBlock.swift:16-20 | 0 for no runs; otherwise the average times the run count gives the total km; non-negative for non-negative distances |
| `Stats.BlockAverageMinutes` | RunStreak/UIComponents/StatsBlock.swift:22-26 | 0 for no runs; otherwise the average × 60 × run count gives the total seconds |
| `Stats.BlockAgreesWithSummary` | RunStreak/UIComponents/StatsBlock.swift:16-26 | the block's averages equal the summary's, with the summary's placeholder read as 0 |

## Left out

- HealthKit access is not modelled because it is platform I/O. This covers authorization, the workout, heart-rate and VO2max queries, continuations, the observer query and background delivery. The heart-rate query's result is a parameter of `FetchRunDays`. The VO2 samples are an input sequence.
- The widget is not modelled because it is file I/O and WidgetKit: saving and reading the streak in the app group, and the widget's timeline.
- App lifecycle is not modelled because it is async scheduling: the background task and the async `loadRuns` with its `isLoading` guard.
- Views, styling and layout are not modelled because they are pure presentation.
- String rendering is not modelled because it is locale and format-string text:
  - `%.1f`, `%.0f`, `%02d` and `toLocaleDistanceString`;
  - the "--" and "-" placeholders, which are `None`;
  - the "<month> <year>" header text.

  The numbers behind the text are modelled.
- `RunListRow` (RunRow.swift) shows a random heart rate, which is not modelled because it is non-deterministic. The run list's `RunRow` (AllRunsScreen.swift) shows the run's own heart rate, and its `formatDuration` is `PaceFormat.SplitSeconds`.
- The older `ChartDetail/MetricDetailView.swift` is not modelled. Its only logic is the nearest-sample lookup, which is modelled from the newer view.
- `ChartModel.swift` holds only type declarations; its (date, value) shape is the `Sample` datatype.
- Floating point is not modelled: values are exact reals, `isFinite` always holds, and `downsampled`'s stride is exact.
- Calendars are simplified:
  - Time zones, DST and locale calendars are out of scope; days are 86400 s.
  - The month lookup of the run list is a parameter.
  - Month names are the English Gregorian ones.
- `AllRuns.SortNewestFirst`: Swift does not document whether `sorted(by:)` is stable. The model keeps runs with equal dates in input order, and the contract states only a newest-first permutation.
- `ChartDetail.UnitConvert`: the contract states only the heart-rate and VO2max cases. The km case is stated by `ChartDetail.KmUnitAgreesWithMeasurement`.
- The "NEW RECORD" and today-run badges are modelled as the conditions that show them, not as views.
- Two figures are modelled as the code computes them, although their names suggest otherwise:
  - The summary's pace seconds are truncated toward zero (`Int(...)`), not rounded with carry into the minutes.
  - The view model's seven-day "total distance" is the mean of the positive per-run kilometres, not their sum; `TotalDistanceDrift` shows the two differ.
