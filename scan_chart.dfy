/** The scans-per-area chart of the dashboard (components/ScanChart.tsx): the
    scans are counted per area, the areas are ranked by count, and each row
    gets a bar width relative to the largest count and its highlight flags. */
module ScanChart {
  import opened Types
  import Sorting

  /** The area a scan is counted under: `scan.scanArea || 'Unknown'`. */
  function AreaOf(scan: IdCardData): string {
    if scan.scanArea == "" then "Unknown" else scan.scanArea
  }

  /** One entry of `scanCountsByArea`. */
  datatype AreaCount = AreaCount(area: string, count: nat)

  /** `acc[area] = (acc[area] || 0) + 1`, with the entries kept in the
      order their areas first appear: a new area goes last. That is the order
      `Object.entries` gives for keys that are not integer-like. */
  function Tally(acc: seq<AreaCount>, area: string): seq<AreaCount> {
    if acc == [] then [AreaCount(area, 1)]
    else if acc[0].area == area then [AreaCount(area, acc[0].count + 1)] + acc[1..]
    else [acc[0]] + Tally(acc[1..], area)
  }

  /** `scanCountsByArea`: the `reduce` over the scans. */
  function CountsByArea(scans: seq<IdCardData>): seq<AreaCount> {
    if scans == [] then [] else Tally(CountsByArea(scans[..|scans| - 1]), AreaOf(scans[|scans| - 1]))
  }

  /** How many scans are counted under `area`. */
  function Occurrences(scans: seq<IdCardData>, area: string): nat {
    if scans == [] then 0
    else Occurrences(scans[..|scans| - 1], area) + (if AreaOf(scans[|scans| - 1]) == area then 1 else 0)
  }

  /** The count an entry list holds for `area`, 0 when it has none. */
  function CountIn(entries: seq<AreaCount>, area: string): nat {
    if entries == [] then 0
    else if entries[0].area == area then entries[0].count
    else CountIn(entries[1..], area)
  }

  predicate DistinctAreas(entries: seq<AreaCount>) {
    forall i, j | 0 <= i < j < |entries| :: entries[i].area != entries[j].area
  }

  predicate AllPositive(entries: seq<AreaCount>) {
    forall i | 0 <= i < |entries| :: entries[i].count > 0
  }

  function Total(entries: seq<AreaCount>): nat {
    if entries == [] then 0 else entries[0].count + Total(entries[1..])
  }

  lemma {:induction false} TallyCounts(acc: seq<AreaCount>, area: string, b: string)
    ensures CountIn(Tally(acc, area), b) == CountIn(acc, b) + (if b == area then 1 else 0)
  {
    if acc != [] && acc[0].area != area {
      TallyCounts(acc[1..], area, b);
    }
  }

  /** Every entry of a tally is the tallied area's or was already there. */
  lemma {:induction false} TallyFrom(acc: seq<AreaCount>, area: string)
    ensures forall i | 0 <= i < |Tally(acc, area)| :: Tally(acc, area)[i].area == area || Tally(acc, area)[i] in acc
  {
    if acc != [] && acc[0].area != area {
      TallyFrom(acc[1..], area);
      assert Tally(acc, area) == [acc[0]] + Tally(acc[1..], area);
      assert forall e | e in acc[1..] :: e in acc;
    }
  }

  lemma {:induction false} TallyTotal(acc: seq<AreaCount>, area: string)
    requires AllPositive(acc)
    ensures AllPositive(Tally(acc, area)) && Total(Tally(acc, area)) == Total(acc) + 1
  {
    if acc != [] && acc[0].area != area {
      TallyTotal(acc[1..], area);
    } else if acc != [] {
      assert Tally(acc, area)[1..] == acc[1..];
    }
  }

  lemma {:induction false} TallyDistinct(acc: seq<AreaCount>, area: string)
    requires DistinctAreas(acc)
    ensures DistinctAreas(Tally(acc, area))
  {
    if acc != [] && acc[0].area != area {
      TallyDistinct(acc[1..], area);
      TallyFrom(acc[1..], area);
      var r := Tally(acc[1..], area);
      assert Tally(acc, area) == [acc[0]] + r;
      forall j | 0 <= j < |r|
        ensures r[j].area != acc[0].area
      {
        if r[j].area != area {
          var k :| 0 <= k < |acc[1..]| && acc[1..][k] == r[j];
          assert acc[k + 1] == r[j];
        }
      }
    } else if acc != [] {
      assert Tally(acc, area)[1..] == acc[1..];
    }
  }

  /** Every area's entry holds the number of scans counted under it, each
      area has one entry, every entry counts at least one scan, and the
      counts add up to the number of scans. */
  lemma {:induction false} CountsByAreaCounts(scans: seq<IdCardData>)
    ensures DistinctAreas(CountsByArea(scans)) && AllPositive(CountsByArea(scans))
    ensures Total(CountsByArea(scans)) == |scans|
    ensures forall a :: CountIn(CountsByArea(scans), a) == Occurrences(scans, a)
  {
    if scans != [] {
      var init := scans[..|scans| - 1];
      CountsByAreaCounts(init);
      TallyTotal(CountsByArea(init), AreaOf(scans[|scans| - 1]));
      TallyDistinct(CountsByArea(init), AreaOf(scans[|scans| - 1]));
      forall a
        ensures CountIn(CountsByArea(scans), a) == Occurrences(scans, a)
      {
        TallyCounts(CountsByArea(init), AreaOf(scans[|scans| - 1]), a);
      }
    }
  }

  /** With distinct areas, an entry's count is the count for its area. */
  lemma {:induction false} CountInEntry(entries: seq<AreaCount>, i: nat)
    requires DistinctAreas(entries) && i < |entries|
    ensures CountIn(entries, entries[i].area) == entries[i].count
  {
    if i > 0 {
      assert entries[0].area != entries[i].area;
      CountInEntry(entries[1..], i - 1);
    }
  }

  // ---------------------------------------------------------------------
  // The ranking
  // ---------------------------------------------------------------------

  function Count(e: AreaCount): int {
    e.count
  }

  /** `chartData`: the entries sorted by count, largest first; areas with
      equal counts keep their order. */
  function ChartData(scans: seq<IdCardData>): seq<AreaCount> {
    Sorting.SortDesc(CountsByArea(scans), Count)
  }

  lemma {:induction false} InsertDistinct(s: seq<AreaCount>, x: AreaCount)
    requires DistinctAreas(s)
    requires forall i | 0 <= i < |s| :: s[i].area != x.area
    ensures DistinctAreas(Sorting.InsertDesc(s, x, Count))
  {
    if s != [] && s[0].count >= x.count {
      InsertDistinct(s[1..], x);
      var r := Sorting.InsertDesc(s[1..], x, Count);
      Sorting.InsertCounts(s[1..], x, Count);
      assert Sorting.InsertDesc(s, x, Count) == [s[0]] + r;
      forall j | 0 <= j < |r|
        ensures r[j].area != s[0].area
      {
        assert r[j] in multiset(s[1..]) + multiset{x};
        if r[j] != x {
          var k :| 0 <= k < |s[1..]| && s[1..][k] == r[j];
          assert s[k + 1] == r[j];
        }
      }
    }
  }

  lemma {:induction false} SortDistinct(s: seq<AreaCount>)
    requires DistinctAreas(s)
    ensures DistinctAreas(Sorting.SortDesc(s, Count))
  {
    if s != [] {
      var init := s[..|s| - 1];
      var x := s[|s| - 1];
      SortDistinct(init);
      Sorting.SortDescSorts(init, Count);
      var t := Sorting.SortDesc(init, Count);
      forall i | 0 <= i < |t|
        ensures t[i].area != x.area
      {
        assert t[i] in multiset(init);
        var k :| 0 <= k < |init| && init[k] == t[i];
        assert s[k] == t[i];
      }
      InsertDistinct(t, x);
    }
  }

  /** The chart lists each counted area once, largest count first, with the
      number of scans counted under it. */
  lemma ChartDataRanks(scans: seq<IdCardData>)
    ensures Sorting.Descending(ChartData(scans), Count)
    ensures multiset(ChartData(scans)) == multiset(CountsByArea(scans))
    ensures DistinctAreas(ChartData(scans))
    ensures forall i | 0 <= i < |ChartData(scans)| ::
      ChartData(scans)[i].count == Occurrences(scans, ChartData(scans)[i].area) > 0
  {
    var entries := CountsByArea(scans);
    CountsByAreaCounts(scans);
    Sorting.SortDescSorts(entries, Count);
    SortDistinct(entries);
    var chart := ChartData(scans);
    forall i | 0 <= i < |chart|
      ensures chart[i].count == Occurrences(scans, chart[i].area) > 0
    {
      assert chart[i] in multiset(entries);
      var k :| 0 <= k < |entries| && entries[k] == chart[i];
      CountInEntry(entries, k);
    }
  }

  // ---------------------------------------------------------------------
  // The bars
  // ---------------------------------------------------------------------

  /** `Math.max(...counts, 0)`. */
  function MaxCount(chart: seq<AreaCount>): nat {
    if chart == [] then 0
    else
      var rest := MaxCount(chart[..|chart| - 1]);
      var c := chart[|chart| - 1].count;
      if c > rest then c else rest
  }

  lemma {:induction false} MaxCountBounds(chart: seq<AreaCount>)
    ensures forall i | 0 <= i < |chart| :: chart[i].count <= MaxCount(chart)
    ensures chart != [] ==> exists i | 0 <= i < |chart| :: chart[i].count == MaxCount(chart)
  {
    if chart != [] {
      var init := chart[..|chart| - 1];
      MaxCountBounds(init);
      if init != [] && MaxCount(init) >= chart[|chart| - 1].count {
        var i :| 0 <= i < |init| && init[i].count == MaxCount(init);
        assert chart[i] == init[i];
      } else {
        assert chart[|chart| - 1].count == MaxCount(chart);
      }
    }
  }

  /** The largest count is the first of the ranked chart, and 0 exactly when
      there are no scans. */
  lemma MaxCountIsFirst(scans: seq<IdCardData>)
    ensures ChartData(scans) != [] ==> MaxCount(ChartData(scans)) == ChartData(scans)[0].count
    ensures MaxCount(ChartData(scans)) == 0 <==> scans == []
  {
    var chart := ChartData(scans);
    ChartDataRanks(scans);
    MaxCountBounds(chart);
    HasDataIff(scans);
    if chart != [] {
      var i :| 0 <= i < |chart| && chart[i].count == MaxCount(chart);
      if i > 0 {
        assert chart[0].count >= chart[i].count;
      }
    }
  }

  /** `hasData`. */
  predicate HasData(chart: seq<AreaCount>) {
    |chart| > 0
  }

  lemma {:induction false} TotalOfEmpty(entries: seq<AreaCount>)
    requires AllPositive(entries)
    ensures Total(entries) == 0 <==> entries == []
  {
  }

  /** The chart has rows exactly when there is a scan. */
  lemma HasDataIff(scans: seq<IdCardData>)
    ensures HasData(ChartData(scans)) <==> |scans| > 0
  {
    CountsByAreaCounts(scans);
    Sorting.SortDescSorts(CountsByArea(scans), Count);
    TotalOfEmpty(CountsByArea(scans));
    if ChartData(scans) == [] {
      assert multiset(CountsByArea(scans)) == multiset{};
    }
  }

  /** One button of the chart. */
  datatype Row = Row(area: string, count: nat, barWidth: real, isActive: bool, isOtherActive: bool)

  /** `maxCount > 0 ? (count / maxCount) * 100 : 0`. */
  function BarWidth(count: nat, maxCount: nat): real {
    if maxCount > 0 then (count as real / maxCount as real) * 100.0 else 0.0
  }

  function MakeRow(e: AreaCount, maxCount: nat, activeArea: Option<string>): Row {
    var isActive := activeArea == Some(e.area);
    Row(e.area, e.count, BarWidth(e.count, maxCount), isActive, activeArea.Some? && !isActive)
  }

  /** The rows `chartData.map` renders. */
  function Rows(scans: seq<IdCardData>, activeArea: Option<string>): seq<Row> {
    var chart := ChartData(scans);
    var maxCount := MaxCount(chart);
    seq(|chart|, i requires 0 <= i < |chart| => MakeRow(chart[i], maxCount, activeArea))
  }

  lemma WidthBounds(c: real, m: real)
    requires 0.0 < c <= m
    ensures 0.0 < (c / m) * 100.0 <= 100.0
    ensures (c / m) * 100.0 == 100.0 <==> c == m
  {
    assert c / m <= 1.0;
    if (c / m) * 100.0 == 100.0 {
      assert c / m == 1.0;
    }
  }

  /** Every bar is wider than nothing and at most full; the full bars are
      exactly the areas with the largest count. A row is dimmed exactly when
      another area is selected, and at most one row is highlighted. */
  lemma RowsShape(scans: seq<IdCardData>, activeArea: Option<string>)
    ensures |Rows(scans, activeArea)| == |ChartData(scans)|
    ensures forall i | 0 <= i < |Rows(scans, activeArea)| ::
      var r := Rows(scans, activeArea)[i];
      r.area == ChartData(scans)[i].area && r.count == ChartData(scans)[i].count &&
      0.0 < r.barWidth <= 100.0 && (r.barWidth == 100.0 <==> r.count == MaxCount(ChartData(scans))) &&
      (r.isActive <==> activeArea == Some(r.area)) &&
      (r.isOtherActive <==> activeArea.Some? && activeArea.value != r.area)
    ensures forall i, j | 0 <= i < j < |Rows(scans, activeArea)| ::
      !(Rows(scans, activeArea)[i].isActive && Rows(scans, activeArea)[j].isActive)
  {
    var chart := ChartData(scans);
    var rows := Rows(scans, activeArea);
    ChartDataRanks(scans);
    MaxCountBounds(chart);
    forall i | 0 <= i < |rows|
      ensures 0.0 < rows[i].barWidth <= 100.0 && (rows[i].barWidth == 100.0 <==> rows[i].count == MaxCount(chart))
    {
      WidthBounds(chart[i].count as real, MaxCount(chart) as real);
    }
  }
}
