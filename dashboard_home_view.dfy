/** The dashboard's filters and figures (components/DashboardHomeView.tsx):
    the scan history narrowed to a range of days, then to one area, the
    toggle behind a click on an area bar, and the two figures shown above the
    table. Dates are day numbers (module Days). */
module DashboardHomeView {
  import opened Types
  import StorageService
  import ScanChart
  import Sorting
  import opened Days
  import DateRangePicker

  // ---------------------------------------------------------------------
  // The date filter
  // ---------------------------------------------------------------------

  /** The lower bound: local midnight of the start day. */
  function StartBound(startDay: Option<int>): Option<int> {
    if startDay.Some? then Some(Midnight(startDay.value)) else None
  }

  /** The upper bound as written: `${endDate}T23:59:59`, the start of the
      last second of the end day. */
  function EndBoundAsWritten(endDay: Option<int>): Option<int> {
    if endDay.Some? then Some(Midnight(endDay.value) + DayMs - 1000) else None
  }

  /** The upper bound the filter evidently means: the last millisecond of the
      end day. */
  function EndBound(endDay: Option<int>): Option<int> {
    if endDay.Some? then Some(Midnight(endDay.value) + DayMs - 1) else None
  }

  /** `filteredByDateHistory`: without either day the history itself;
      otherwise the scans between the bounds, where a missing start is 0 and
      a missing end is `now`. The end bound is the one written in the view,
      `${endDate}T23:59:59`. */
  function DateFiltered(history: seq<IdCardData>, startDay: Option<int>, endDay: Option<int>, now: int): seq<IdCardData> {
    StorageService.RangeFilter(history, StartBound(startDay), EndBoundAsWritten(endDay), now)
  }

  /** `filteredByDateHistory` with the end day taken whole, as the view
      evidently means it. */
  function DateFilteredWholeDays(history: seq<IdCardData>, startDay: Option<int>, endDay: Option<int>, now: int): seq<IdCardData> {
    StorageService.RangeFilter(history, StartBound(startDay), EndBound(endDay), now)
  }

  /** With both days given, the date filter keeps a scan exactly when it was
      taken on one of the days from the start day to the end day. */
  lemma WholeDaysKept(x: IdCardData, a: int, b: int, now: int)
    ensures StorageService.InWindow(x, StartBound(Some(a)), EndBound(Some(b)), now) <==> a <= DayOf(x.scanTimestamp) <= b
  {
    DayOrder(x.scanTimestamp, a, b);
  }

  /** With both days given, the view's filter keeps a scan exactly when it
      was taken on the start day or later and no later than 23:59:59.000 of
      the end day: the last 999 milliseconds of the end day are cut off. */
  lemma DaysKeptAsWritten(x: IdCardData, a: int, b: int, now: int)
    ensures StorageService.InWindow(x, StartBound(Some(a)), EndBoundAsWritten(Some(b)), now) <==>
      a <= DayOf(x.scanTimestamp) && x.scanTimestamp <= Midnight(b) + DayMs - 1000
    ensures StorageService.InWindow(x, StartBound(Some(a)), EndBoundAsWritten(Some(b)), now) ==>
      a <= DayOf(x.scanTimestamp) <= b
  {
    DayOrder(x.scanTimestamp, a, b);
  }

  /** As written, a scan in the last second of the end day is dropped. */
  lemma LastSecondDropped(x: IdCardData, b: int, now: int)
    requires x.scanTimestamp == Midnight(b) + DayMs - 500
    ensures DayOf(x.scanTimestamp) == b
    ensures DateFiltered([x], Some(b), Some(b), now) == []
    ensures DateFilteredWholeDays([x], Some(b), Some(b), now) == [x]
  {
    DayBounds(x.scanTimestamp, b);
    assert [x][..0] == [];
    assert StorageService.Within([x], Midnight(b), Midnight(b) + DayMs - 1000) == [];
    assert StorageService.Within([x], Midnight(b), Midnight(b) + DayMs - 1) == [x];
  }

  /** Filtering a concatenation filters each part: the date filter keeps
      the scans' order. */
  lemma {:induction false} WithinAppend(s: seq<IdCardData>, t: seq<IdCardData>, lo: int, hi: int)
    ensures StorageService.Within(s + t, lo, hi) == StorageService.Within(s, lo, hi) + StorageService.Within(t, lo, hi)
    decreases |t|
  {
    if t != [] {
      var t0 := t[..|t| - 1];
      WithinAppend(s, t0, lo, hi);
      assert (s + t)[..|s + t| - 1] == s + t0;
    } else {
      assert s + t == s;
    }
  }

  /** The date filter: the history itself without bounds, and otherwise the
      scans within the bounds, each as often as in the history, in their
      order. */
  lemma DateFilterKeeps(history: seq<IdCardData>, startDay: Option<int>, endDay: Option<int>, now: int, x: IdCardData)
    ensures startDay.None? && endDay.None? ==> DateFiltered(history, startDay, endDay, now) == history
    ensures multiset(DateFiltered(history, startDay, endDay, now))[x] ==
      if StorageService.InWindow(x, StartBound(startDay), EndBoundAsWritten(endDay), now) then multiset(history)[x] else 0
  {
    StorageService.RangeFilterCounts(history, StartBound(startDay), EndBoundAsWritten(endDay), now, x);
  }

  // ---------------------------------------------------------------------
  // The area filter
  // ---------------------------------------------------------------------

  /** The scans whose `scanArea` is `area`, in their order. */
  function Matching(s: seq<IdCardData>, area: string): seq<IdCardData> {
    if s == [] then []
    else
      var rest := Matching(s[..|s| - 1], area);
      if s[|s| - 1].scanArea == area then rest + [s[|s| - 1]] else rest
  }

  /** `finalFilteredHistory`: without an area (null or empty) the list
      itself. */
  function AreaFiltered(s: seq<IdCardData>, areaFilter: Option<string>): seq<IdCardData> {
    if areaFilter.None? || areaFilter.value == "" then s else Matching(s, areaFilter.value)
  }

  /** The number of scans without an area, which the chart counts as
      'Unknown'. */
  function Unnamed(s: seq<IdCardData>): nat {
    if s == [] then 0 else Unnamed(s[..|s| - 1]) + (if s[|s| - 1].scanArea == "" then 1 else 0)
  }

  lemma {:induction false} MatchingCounts(s: seq<IdCardData>, area: string, x: IdCardData)
    ensures multiset(Matching(s, area))[x] == if x.scanArea == area then multiset(s)[x] else 0
  {
    if s != [] {
      MatchingCounts(s[..|s| - 1], area, x);
      assert s == s[..|s| - 1] + [s[|s| - 1]];
    }
  }

  lemma {:induction false} MatchingAppend(s: seq<IdCardData>, t: seq<IdCardData>, area: string)
    ensures Matching(s + t, area) == Matching(s, area) + Matching(t, area)
    decreases |t|
  {
    if t != [] {
      var t0 := t[..|t| - 1];
      MatchingAppend(s, t0, area);
      assert (s + t)[..|s + t| - 1] == s + t0;
    } else {
      assert s + t == s;
    }
  }

  /** Clicking a bar lists as many scans as the bar counts, except that the
      'Unknown' bar also counts the scans without an area, which the filter,
      comparing `scanArea` itself, does not list. */
  lemma {:induction false} MatchingBar(s: seq<IdCardData>, area: string)
    requires area != ""
    ensures |Matching(s, area)| + (if area == "Unknown" then Unnamed(s) else 0) == ScanChart.Occurrences(s, area)
  {
    if s != [] {
      MatchingBar(s[..|s| - 1], area);
    }
  }

  /** The area filter keeps exactly the scans of the chosen area, each as
      often as it is given them, and never more scans than it is given. */
  lemma AreaFilterKeeps(s: seq<IdCardData>, areaFilter: Option<string>, x: IdCardData)
    ensures areaFilter.None? ==> AreaFiltered(s, areaFilter) == s
    ensures areaFilter.Some? && areaFilter.value != "" ==>
      multiset(AreaFiltered(s, areaFilter))[x] == if x.scanArea == areaFilter.value then multiset(s)[x] else 0
    ensures |AreaFiltered(s, areaFilter)| <= |s|
  {
    if areaFilter.Some? && areaFilter.value != "" {
      MatchingCounts(s, areaFilter.value, x);
      MatchingShorter(s, areaFilter.value);
    }
  }

  lemma {:induction false} MatchingShorter(s: seq<IdCardData>, area: string)
    ensures |Matching(s, area)| <= |s|
  {
    if s != [] {
      MatchingShorter(s[..|s| - 1], area);
    }
  }

  // ---------------------------------------------------------------------
  // The view's state
  // ---------------------------------------------------------------------

  /** The dashboard's state: the chosen days (the empty date text is
      `None`) and the chosen area. */
  datatype Dashboard = Dashboard(startDay: Option<int>, endDay: Option<int>, areaFilter: Option<string>)

  function Initial(): Dashboard {
    Dashboard(None, None, None)
  }

  /** `handleDateApply`. */
  function ApplyDates(v: Dashboard, startDay: Option<int>, endDay: Option<int>): Dashboard {
    v.(startDay := startDay, endDay := endDay)
  }

  /** `handleAreaFilterChange`: clicking the selected area clears the
      filter, clicking another selects it, and no area (null or empty)
      clears it. */
  function AreaChange(v: Dashboard, area: Option<string>): Dashboard {
    if area.Some? && area.value != "" then
      v.(areaFilter := if v.areaFilter == area then None else area)
    else v.(areaFilter := None)
  }

  /** A click on a bar from any state: it selects that area, or clears the
      filter when that area is already selected, and the dates stay. The table
      then lists the area's scans among the date-filtered ones, or all of them.
      A click on no area (null or empty) clears the filter. */
  lemma AreaClick(v: Dashboard, area: string, history: seq<IdCardData>, now: int)
    requires area != ""
    ensures var w := AreaChange(v, Some(area));
      w.startDay == v.startDay && w.endDay == v.endDay
    ensures v.areaFilter == Some(area) ==> AreaChange(v, Some(area)).areaFilter == None
    ensures v.areaFilter != Some(area) ==> AreaChange(v, Some(area)).areaFilter == Some(area)
    ensures v.areaFilter == Some(area) ==>
      Table(AreaChange(v, Some(area)), history, now) == DateFiltered(history, v.startDay, v.endDay, now)
    ensures v.areaFilter != Some(area) ==>
      Table(AreaChange(v, Some(area)), history, now) == Matching(DateFiltered(history, v.startDay, v.endDay, now), area)
    ensures AreaChange(v, None).areaFilter == None && AreaChange(v, Some("")).areaFilter == None
  {
  }

  /** Clicking the same bar twice from an unfiltered view ends unfiltered,
      having shown that bar's scans in between; the dates never change. */
  lemma AreaToggles(v: Dashboard, area: string)
    requires area != "" && v.areaFilter.None?
    ensures AreaChange(v, Some(area)).areaFilter == Some(area)
    ensures AreaChange(AreaChange(v, Some(area)), Some(area)) == v
  {
  }

  /** Applying a preset of `days` days in the date picker makes the
      dashboard keep exactly the scans taken on the `days - 1` days before
      today, or today up to 23:59:59.000. */
  lemma PresetShowsLastDays(v: Dashboard, days: int, now: int, x: IdCardData)
    requires days >= 1
    ensures var p := DateRangePicker.PresetSelection(days, now);
      var w := ApplyDates(v, DateRangePicker.Format(p.start), DateRangePicker.Format(p.end));
      StorageService.InWindow(x, StartBound(w.startDay), EndBoundAsWritten(w.endDay), now) <==>
        DayOf(now) - days < DayOf(x.scanTimestamp) && x.scanTimestamp <= Midnight(DayOf(now)) + DayMs - 1000
  {
    DateRangePicker.PresetApplied(days, now);
    DaysKeptAsWritten(x, DayOf(now) - (days - 1), DayOf(now), now);
  }

  /** The rows the table shows. */
  function Table(v: Dashboard, history: seq<IdCardData>, now: int): seq<IdCardData> {
    AreaFiltered(DateFiltered(history, v.startDay, v.endDay, now), v.areaFilter)
  }

  /** `totalScans`: the number of date-filtered scans, whatever the area. */
  function TotalScans(v: Dashboard, history: seq<IdCardData>, now: int): nat {
    |DateFiltered(history, v.startDay, v.endDay, now)|
  }

  /** `lastScan`: the first date-filtered scan, if any. */
  function LastScan(v: Dashboard, history: seq<IdCardData>, now: int): Option<IdCardData> {
    var f := DateFiltered(history, v.startDay, v.endDay, now);
    if |f| > 0 then Some(f[0]) else None
  }

  /** The total counts the table before the area filter: choosing an area
      leaves it as it is and never shows more rows than it. */
  lemma TotalIgnoresArea(v: Dashboard, history: seq<IdCardData>, now: int, area: Option<string>)
    ensures TotalScans(AreaChange(v, area), history, now) == TotalScans(v, history, now)
    ensures |Table(v, history, now)| <= TotalScans(v, history, now)
  {
    if v.areaFilter.Some? && v.areaFilter.value != "" {
      MatchingShorter(DateFiltered(history, v.startDay, v.endDay, now), v.areaFilter.value);
    }
  }

  lemma {:induction false} WithinNewestFirst(s: seq<IdCardData>, lo: int, hi: int)
    requires StorageService.NewestFirst(s)
    ensures StorageService.NewestFirst(StorageService.Within(s, lo, hi))
  {
    if s != [] {
      var init := s[..|s| - 1];
      var x := s[|s| - 1];
      assert StorageService.NewestFirst(init);
      WithinNewestFirst(init, lo, hi);
      var r := StorageService.Within(init, lo, hi);
      if lo <= x.scanTimestamp <= hi {
        forall i | 0 <= i < |r|
          ensures r[i].scanTimestamp >= x.scanTimestamp
        {
          StorageService.WithinCounts(init, lo, hi, r[i]);
          assert r[i] in multiset(r);
          var k :| 0 <= k < |init| && init[k] == r[i];
          assert s[k] == r[i];
        }
      }
    }
  }

  /** On a history loaded newest first, the last scan shown is the newest
      scan in the range, and there is one exactly when the total is not 0. */
  lemma LastScanIsNewest(v: Dashboard, history: seq<IdCardData>, now: int)
    requires StorageService.NewestFirst(history)
    ensures LastScan(v, history, now).Some? <==> TotalScans(v, history, now) > 0
    ensures LastScan(v, history, now).Some? ==>
      forall x | x in DateFiltered(history, v.startDay, v.endDay, now) ::
        x.scanTimestamp <= LastScan(v, history, now).value.scanTimestamp
  {
    var f := DateFiltered(history, v.startDay, v.endDay, now);
    if !(v.startDay.None? && v.endDay.None?) {
      WithinNewestFirst(history, StorageService.Low(StartBound(v.startDay)), StorageService.High(EndBoundAsWritten(v.endDay), now));
    }
    assert StorageService.NewestFirst(f);
  }
}
