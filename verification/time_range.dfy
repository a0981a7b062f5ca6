/** The chart detail screen's range picker. */
module TimeRangeModel {
  import opened Wrappers

  datatype TimeRange = Days7 | Days30 | Days365 | All

  /** `allCases`, in declaration order. */
  const AllCases: seq<TimeRange> := [Days7, Days30, Days365, All]

  /** The range a detail screen opens with. */
  const InitialRange: TimeRange := Days30

  /** `label`: the segmented-control caption; "All" marks exactly the range without a day limit. */
  function Label(r: TimeRange): (s: string)
    ensures s == "All" <==> DaysBack(r).None?
  {
    match r
    case Days7 => "7D"
    case Days30 => "30D"
    case Days365 => "1Y"
    case All => "All"
  }

  /** `displayTitle`: "All Runs" marks exactly the range without a day limit. */
  function DisplayTitle(r: TimeRange): (s: string)
    ensures s == "All Runs" <==> DaysBack(r).None?
  {
    match r
    case Days7 => "Last 7 Days"
    case Days30 => "Last 30 Days"
    case Days365 => "Last Year"
    case All => "All Runs"
  }

  /** `daysBack`: how many days the range reaches back, or none for the whole history. */
  function DaysBack(r: TimeRange): (d: Option<int>)
    ensures d.None? <==> r == All
    ensures d.Some? ==> d.value > 0
  {
    match r
    case Days7 => Some(7)
    case Days30 => Some(30)
    case Days365 => Some(365)
    case All => None
  }

  /** Every range is listed in `AllCases`. */
  lemma InAllCases(r: TimeRange)
    ensures r in AllCases
  {
    match r
    case Days7 => assert AllCases[0] == r;
    case Days30 => assert AllCases[1] == r;
    case Days365 => assert AllCases[2] == r;
    case All => assert AllCases[3] == r;
  }

  /** No range is listed twice, and the bounded ones reach further back the later they come. */
  lemma AllCasesOrdered()
    ensures forall i, j :: 0 <= i < j < |AllCases| ==> AllCases[i] != AllCases[j]
    ensures forall i, j :: 0 <= i < j < |AllCases| && DaysBack(AllCases[j]).Some? ==>
              DaysBack(AllCases[i]).Some? && DaysBack(AllCases[i]).value < DaysBack(AllCases[j]).value
  {
  }

  /** No two ranges share a caption or a title, so either one identifies the range. */
  lemma LabelsIdentifyRanges(a: TimeRange, b: TimeRange)
    ensures Label(a) == Label(b) <==> a == b
    ensures DisplayTitle(a) == DisplayTitle(b) <==> a == b
  {
  }
}
