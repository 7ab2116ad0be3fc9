/** The date range picker (components/DateRangePicker.tsx): the selection
    the user builds by clicking calendar days or a preset, which Apply hands
    to the dashboard as two day numbers, and the month grid it draws. The
    selected dates are timestamps (the picker holds `Date` objects), and the
    dates it exchanges with the dashboard are day numbers (module Days). */
module DateRangePicker {
  import opened Types
  import opened Days

  // ---------------------------------------------------------------------
  // The selection
  // ---------------------------------------------------------------------

  /** `tempStartDate` and `tempEndDate`, `None` for null. */
  datatype Selection = Selection(start: Option<int>, end: Option<int>)

  /** Whenever both ends are chosen, the start does not come after the end. */
  predicate Ordered(s: Selection) {
    s.start.Some? && s.end.Some? ==> s.start.value <= s.end.value
  }

  /** `handleDateClick`: with no start, or with both ends chosen, the day
      starts a new selection; a day before the start moves the start; any
      other day becomes the end. */
  function Click(s: Selection, day: int): Selection {
    if s.start.None? || s.end.Some? then Selection(Some(day), None)
    else if day < s.start.value then Selection(Some(day), s.end)
    else Selection(s.start, Some(day))
  }

  /** The selection after clicking `days` in turn. */
  function Clicks(s: Selection, days: seq<int>): Selection {
    if days == [] then s else Click(Clicks(s, days[..|days| - 1]), days[|days| - 1])
  }

  /** A click either starts a selection at the day, with no end, or keeps
      the start and ends at the day; the end it sets is never before the
      start. */
  lemma ClickCases(s: Selection, day: int)
    ensures Ordered(Click(s, day))
    ensures s.start.None? || s.end.Some? ==> Click(s, day) == Selection(Some(day), None)
    ensures s.start.Some? && s.end.None? ==>
      Click(s, day) == if day < s.start.value then Selection(Some(day), None) else Selection(s.start, Some(day))
  {
  }

  /** Every sequence of clicks keeps an ordered selection ordered. */
  lemma {:induction false} ClicksKeepOrder(s: Selection, days: seq<int>)
    requires Ordered(s)
    ensures Ordered(Clicks(s, days))
  {
    if days != [] {
      ClicksKeepOrder(s, days[..|days| - 1]);
      ClickCases(Clicks(s, days[..|days| - 1]), days[|days| - 1]);
    }
  }

  /** From an empty or a finished selection, clicking `a` and then a day
      `b` not before it selects the range from `a` to `b`, while clicking an
      earlier `b` restarts the selection at `b`. */
  lemma TwoClicks(s: Selection, a: int, b: int)
    requires s.start.None? || s.end.Some?
    ensures Clicks(s, [a, b]) == if a <= b then Selection(Some(a), Some(b)) else Selection(Some(b), None)
  {
    assert [a, b][..1] == [a];
    assert [a][..0] == [];
    assert Clicks(s, [a]) == Click(s, a);
    assert Clicks(s, [a, b]) == Click(Click(s, a), b);
  }

  /** `isInRange`: strictly after the start and strictly before the end. */
  predicate InRange(s: Selection, day: int) {
    s.start.Some? && s.end.Some? && s.start.value < day < s.end.value
  }

  /** `isSelectedStart`, `isSelectedEnd`: the same calendar day as an end. */
  predicate IsSelectedEnd(t: Option<int>, day: int) {
    t.Some? && DayOf(t.value) == DayOf(day)
  }

  /** The cells drawn in red: an end of the selection or a day in range. */
  predicate Highlighted(s: Selection, day: int) {
    IsSelectedEnd(s.start, day) || IsSelectedEnd(s.end, day) || InRange(s, day)
  }

  /** Between two clicked calendar days, the highlighted calendar days are
      exactly the days from the first to the last: the ends are drawn as
      selected, never as in range, and the days between them as in range. */
  lemma HighlightedDays(a: int, b: int, c: int)
    requires a <= b
    ensures !InRange(Selection(Some(Midnight(a)), Some(Midnight(b))), Midnight(a))
    ensures !InRange(Selection(Some(Midnight(a)), Some(Midnight(b))), Midnight(b))
    ensures Highlighted(Selection(Some(Midnight(a)), Some(Midnight(b))), Midnight(c)) <==> a <= c <= b
  {
    DayOfMidnight(a);
    DayOfMidnight(b);
    DayOfMidnight(c);
  }

  lemma DayOfMidnight(d: int)
    ensures DayOf(Midnight(d)) == d
  {
    DayBounds(Midnight(d), d);
  }

  /** `handlePreset(days)`: from `days - 1` days before now until now. */
  function PresetSelection(days: int, now: int): Selection {
    Selection(Some(now - (days - 1) * DayMs), Some(now))
  }

  /** `formatDateForInput`: the day a selected date falls on, `None` (the
      empty text) without one. */
  function Format(t: Option<int>): Option<int> {
    if t.Some? then Some(DayOf(t.value)) else None
  }

  /** `parseDateString`: midnight of the day, null for the empty text. */
  function Parse(day: Option<int>): Option<int> {
    if day.Some? then Some(Midnight(day.value)) else None
  }

  /** Applying a preset of at least one day hands over the day `days - 1`
      before today and today, in order. */
  lemma PresetApplied(days: int, now: int)
    requires days >= 1
    ensures Ordered(PresetSelection(days, now))
    ensures Format(PresetSelection(days, now).start) == Some(DayOf(now) - (days - 1))
    ensures Format(PresetSelection(days, now).end) == Some(DayOf(now))
  {
    DayOfShift(now, days - 1);
  }

  /** Applying an ordered selection hands over a start day not after the
      end day. */
  lemma AppliedOrdered(s: Selection)
    requires Ordered(s)
    ensures Format(s.start).Some? && Format(s.end).Some? ==> Format(s.start).value <= Format(s.end).value
  {
    if s.start.Some? && s.end.Some? {
      DayOfMonotone(s.start.value, s.end.value);
    }
  }

  /** A day text read back gives the same day; a date read from a day text
      and written back gives the same date. So a selection of calendar days
      survives Apply followed by Cancel. */
  lemma FormatParse(day: Option<int>)
    ensures Format(Parse(day)) == day
    ensures Parse(Format(Parse(day))) == Parse(day)
  {
    if day.Some? {
      DayOfMidnight(day.value);
    }
  }

  // ---------------------------------------------------------------------
  // The picker's state
  // ---------------------------------------------------------------------

  class Picker {
    var isOpen: bool
    var tempStart: Option<int>
    var tempEnd: Option<int>
    /** `currentMonth`, the timestamp of a date in the month shown. */
    var currentMonth: int

    function Selected(): Selection
      reads this
    {
      Selection(tempStart, tempEnd)
    }

    /** The picker is closed and holds the dates of the day texts it was
        given; it shows the month of `now`. */
    constructor(startDate: Option<int>, endDate: Option<int>, now: int)
      ensures !isOpen && Selected() == Selection(Parse(startDate), Parse(endDate)) && currentMonth == now
    {
      isOpen := false;
      tempStart := Parse(startDate);
      tempEnd := Parse(endDate);
      currentMonth := now;
    }

    /** The button under the picker opens or closes it. */
    method Toggle()
      modifies this
      ensures isOpen == !old(isOpen)
      ensures Selected() == old(Selected()) && currentMonth == old(currentMonth)
    {
      isOpen := !isOpen;
    }

    /** `handleDateClick`. */
    method DateClick(day: int)
      modifies this
      ensures Selected() == Click(old(Selected()), day)
      ensures Ordered(Selected())
      ensures isOpen == old(isOpen) && currentMonth == old(currentMonth)
    {
      ClickCases(Selected(), day);
      if tempStart.None? || tempEnd.Some? {
        tempStart := Some(day);
        tempEnd := None;
      } else if day < tempStart.value {
        tempStart := Some(day);
      } else {
        tempEnd := Some(day);
      }
    }

    /** `handlePreset`: the last `days` days up to now, shown from the
        month of now. */
    method Preset(days: int, now: int)
      modifies this
      ensures Selected() == PresetSelection(days, now) && currentMonth == now
      ensures days >= 1 ==> Ordered(Selected())
      ensures isOpen == old(isOpen)
    {
      var end := now;
      var start := now - (days - 1) * DayMs;
      tempStart := Some(start);
      tempEnd := Some(end);
      currentMonth := end;
    }

    /** `handleApply`: hands the selected days to the dashboard, the
        empty text for a missing end, and closes. */
    method Apply() returns (startDate: Option<int>, endDate: Option<int>)
      modifies this
      ensures startDate == Format(old(tempStart)) && endDate == Format(old(tempEnd))
      ensures !isOpen
      ensures Selected() == old(Selected()) && currentMonth == old(currentMonth)
    {
      startDate := Format(tempStart);
      endDate := Format(tempEnd);
      isOpen := false;
    }

    /** `handleCancel`: back to the dates of the dashboard's day texts,
        closed. */
    method Cancel(startDate: Option<int>, endDate: Option<int>)
      modifies this
      ensures Selected() == Selection(Parse(startDate), Parse(endDate))
      ensures !isOpen && currentMonth == old(currentMonth)
    {
      tempStart := Parse(startDate);
      tempEnd := Parse(endDate);
      isOpen := false;
    }

    /** The Clear Selection button. */
    method Clear()
      modifies this
      ensures Selected() == Selection(None, None)
      ensures isOpen == old(isOpen) && currentMonth == old(currentMonth)
    {
      tempStart := None;
      tempEnd := None;
    }
  }

  // ---------------------------------------------------------------------
  // The calendar
  // ---------------------------------------------------------------------

  /** The `Date` constructor reads a year from 0 to 99 as 1900 to 1999. */
  function DateYear(year: int): int {
    if 0 <= year <= 99 then year + 1900 else year
  }

  predicate IsLeap(y: int) {
    y % 4 == 0 && (y % 100 != 0 || y % 400 == 0)
  }

  /** The days of month `m` (0 for January) of year `y`. */
  function DaysInMonth(y: int, m: int): int
    requires 0 <= m < 12
  {
    if m == 1 then (if IsLeap(y) then 29 else 28)
    else if m == 3 || m == 5 || m == 8 || m == 10 then 30
    else 31
  }

  /** The days from 1 March of year 0 to 1 March of year `y`, counting
      400-year eras of 146097 days. */
  function MarchDays(y: int): int {
    var era := y / 400;
    var yoe := y - era * 400;
    era * 146097 + yoe * 365 + yoe / 4 - yoe / 100
  }

  /** The days from 1 March to the first of month `mp`, counting from March. */
  function MonthOffset(mp: int): int {
    (153 * mp + 2) / 5
  }

  /** The day number of day `d` of month `m` (0 for January) of year `y`:
      the year is counted from March, so that February ends it. */
  function DayNumber(y: int, m: int, d: int): int {
    MarchDays(if m < 2 then y - 1 else y) + MonthOffset((m + 10) % 12) + d - 1 - 719468
  }

  /** `getDay()`: 0 for Sunday; day 0, 1 January 1970, was a Thursday. */
  function Weekday(day: int): int {
    (day + 4) % 7
  }

  lemma EpochIsThursday()
    ensures DayNumber(1970, 0, 1) == 0 && Weekday(0) == 4
  {
  }

  /** A year is a leap year's 366 days long, otherwise 365. */
  lemma YearLength(y: int)
    ensures MarchDays(y) - MarchDays(y - 1) == if IsLeap(y) then 366 else 365
  {
    var era := (y - 1) / 400;
    var yoe := (y - 1) - era * 400;
    EraSplit(era, yoe + 1);
    if yoe == 399 {
      assert MarchDays(y) == (era + 1) * 146097;
    } else {
      Step4(yoe);
      Step100(yoe);
    }
  }

  /** A year `400 * era + r`, with `r` at most 400, shares its remainders by
      4, 100 and 400 with `r`. */
  lemma EraSplit(era: int, r: int)
    requires 0 < r <= 400
    ensures (400 * era + r) % 4 == r % 4
    ensures (400 * era + r) % 100 == r % 100
    ensures r < 400 ==> (400 * era + r) / 400 == era && (400 * era + r) % 400 == r
    ensures r == 400 ==> (400 * era + r) / 400 == era + 1 && (400 * era + r) % 400 == 0
  {
    Mod4(100 * era, r);
    Mod100(4 * era, r);
    if r < 400 {
      Div400(era, r);
    } else {
      assert 400 * era + r == 400 * (era + 1);
      Div400(era + 1, 0);
    }
  }

  lemma Mod4(q: int, r: int)
    ensures (4 * q + r) % 4 == r % 4
  {
  }

  lemma Mod100(q: int, r: int)
    ensures (100 * q + r) % 100 == r % 100
  {
  }

  lemma Div400(q: int, r: int)
    requires 0 <= r < 400
    ensures (400 * q + r) / 400 == q && (400 * q + r) % 400 == r
  {
  }

  lemma Step4(n: int)
    ensures (n + 1) / 4 == n / 4 + (if (n + 1) % 4 == 0 then 1 else 0)
  {
  }

  lemma Step100(n: int)
    ensures (n + 1) / 100 == n / 100 + (if (n + 1) % 100 == 0 then 1 else 0)
  {
  }

  /** `daysInMonth` is `new Date(year, month + 1, 0).getDate()`, the day
      before the first of the next month: the number of days from the first
      of this month to the first of the next. */
  lemma MonthLength(y: int, m: int)
    requires 0 <= m < 12
    ensures m < 11 ==> DayNumber(y, m + 1, 1) - DayNumber(y, m, 1) == DaysInMonth(y, m)
    ensures m == 11 ==> DayNumber(y + 1, 0, 1) - DayNumber(y, m, 1) == DaysInMonth(y, m)
  {
    if m == 1 {
      February(y);
    } else if m == 11 {
      December(y);
    } else {
      SameYear(y, m);
    }
  }

  lemma SameYear(y: int, m: int)
    requires 0 <= m < 11 && m != 1
    ensures DayNumber(y, m + 1, 1) - DayNumber(y, m, 1) == DaysInMonth(y, m)
  {
    var y0 := if m < 2 then y - 1 else y;
    var mp := if m < 2 then m + 10 else m - 2;
    assert (m + 10) % 12 == mp && (m + 11) % 12 == mp + 1;
    assert DayNumber(y, m, 1) == MarchDays(y0) + MonthOffset(mp) - 719468;
    assert DayNumber(y, m + 1, 1) == MarchDays(y0) + MonthOffset(mp + 1) - 719468;
    MonthStep(mp);
  }

  lemma February(y: int)
    ensures DayNumber(y, 2, 1) - DayNumber(y, 1, 1) == if IsLeap(y) then 29 else 28
  {
    YearLength(y);
  }

  lemma December(y: int)
    ensures DayNumber(y + 1, 0, 1) - DayNumber(y, 11, 1) == 31
  {
  }

  /** Between the firsts of two months of the same year counted from March,
      as many days as the earlier month has. */
  lemma MonthStep(mp: int)
    requires 0 <= mp < 11
    ensures MonthOffset(mp + 1) - MonthOffset(mp) == if mp == 1 || mp == 3 || mp == 6 || mp == 8 then 30 else 31
  {
  }

  /** The days of a month follow each other. */
  lemma NextDay(y: int, m: int, d: int)
    ensures DayNumber(y, m, d + 1) == DayNumber(y, m, d) + 1
  {
  }

  /** The weekday of the first of the month: `firstDayOfMonth`. */
  function FirstDay(year: int, month: int): int {
    Weekday(DayNumber(DateYear(year), month, 1))
  }

  /** `new Date(year, month, i)`, as a timestamp. */
  function Cell(year: int, month: int, i: int): int {
    Midnight(DayNumber(DateYear(year), month, i))
  }

  /** `generateCalendar`: a blank cell for each weekday before the first of
      the month, then each day of the month in turn. */
  method GenerateCalendar(year: int, month: int) returns (cells: seq<Option<int>>)
    requires 0 <= month < 12
    ensures |cells| == FirstDay(year, month) + DaysInMonth(DateYear(year), month)
    ensures forall i | 0 <= i < FirstDay(year, month) :: cells[i].None?
    ensures forall i | 1 <= i <= DaysInMonth(DateYear(year), month) ::
      cells[FirstDay(year, month) + i - 1] == Some(Cell(year, month, i))
  {
    var first := FirstDay(year, month);
    var daysInMonth := DaysInMonth(DateYear(year), month);
    cells := seq(first, _ => None);
    var i := 1;
    while i <= daysInMonth
      invariant 1 <= i <= daysInMonth + 1
      invariant |cells| == first + i - 1
      invariant forall k | 0 <= k < first :: cells[k].None?
      invariant forall k | 1 <= k < i :: cells[first + k - 1] == Some(Cell(year, month, k))
    {
      cells := cells + [Some(Cell(year, month, i))];
      i := i + 1;
    }
  }

  /** The grid's columns run from Sunday to Saturday: every day of the month
      sits in the column of its weekday, the days one day apart, and the
      grid never needs more than 37 cells. */
  lemma CalendarColumns(year: int, month: int, i: int)
    requires 0 <= month < 12
    requires 1 <= i <= DaysInMonth(DateYear(year), month)
    ensures Weekday(DayNumber(DateYear(year), month, i)) == (FirstDay(year, month) + i - 1) % 7
    ensures i < DaysInMonth(DateYear(year), month) ==> Cell(year, month, i + 1) == Cell(year, month, i) + DayMs
    ensures FirstDay(year, month) + DaysInMonth(DateYear(year), month) <= 37
  {
    var y := DateYear(year);
    DaysApart(y, month, i);
    WeekdayShift(DayNumber(y, month, 1), i - 1);
    NextDay(y, month, i);
  }

  lemma DaysApart(y: int, m: int, i: int)
    ensures DayNumber(y, m, i) == DayNumber(y, m, 1) + (i - 1)
  {
  }

  /** Counting `n` days on from a day counts `n` weekdays on. */
  lemma WeekdayShift(d: int, n: int)
    ensures Weekday(d + n) == (Weekday(d) + n) % 7
  {
    var q := (d + 4) / 7;
    assert d + n + 4 == 7 * q + (Weekday(d) + n);
  }
}
