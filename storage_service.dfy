/** The scan archive (services/storageService.ts). Scans are kept per local
    calendar day under the key `scan_data_YYYY-MM-DD`, newest first; loading
    gathers every day, keeps a time window and sorts newest first. The
    browser's key-value store is a map from keys to entries, a JSON text is
    the record list it decodes to, and the local date of a timestamp is a
    parameter. */
module StorageService {
  import opened Types
  import Text
  import Sorting

  // ---------------------------------------------------------------------
  // The day key
  // ---------------------------------------------------------------------

  const Prefix := "scan_data_"

  /** A local calendar date as `Date` reports it: `month` counts from 0
      (`getMonth`), `day` from 1 (`getDate`). */
  datatype CalendarDate = CalendarDate(year: int, month: int, day: int)

  predicate IsDate(d: CalendarDate) {
    0 <= d.month < 12 && 1 <= d.day <= 31
  }

  function DigitChar(n: nat): char
    requires n < 10
  {
    ('0' as int + n) as char
  }

  function DigitValue(c: char): int {
    c as int - '0' as int
  }

  /** The decimal digits of `n`, without leading zeros. */
  function Digits(n: nat): (s: string)
    ensures |s| >= 1 && s[0] != '-'
  {
    if n < 10 then [DigitChar(n)] else Digits(n / 10) + [DigitChar(n % 10)]
  }

  /** `String(n)` for an integer `n`. */
  function Decimal(n: int): (s: string)
    ensures |s| >= 1
  {
    if n < 0 then "-" + Digits(-n) else Digits(n)
  }

  /** `s.padStart(2, '0')`. */
  function Pad2(s: string): (p: string)
    ensures |p| == if |s| < 2 then 2 else |s|
  {
    if |s| == 0 then "00" else if |s| == 1 then "0" + s else s
  }

  /** The storage key of the day a scan falls on. */
  function StorageKey(d: CalendarDate): (key: string)
    ensures Text.StartsWith(key, Prefix)
  {
    Prefix + DayText(d)
  }

  /** The reading of a string of decimal digits. */
  function ReadDigits(s: string): int {
    if s == [] then 0 else 10 * ReadDigits(s[..|s| - 1]) + DigitValue(s[|s| - 1])
  }

  function ReadDecimal(s: string): int {
    if |s| > 0 && s[0] == '-' then -ReadDigits(s[1..]) else ReadDigits(s)
  }

  /** The date a storage key names: the year before the last six characters
      `-MM-DD`. */
  function ParseKey(key: string): Option<CalendarDate> {
    if !Text.StartsWith(key, Prefix) || |key| < |Prefix| + 7 then None
    else Some(ParseDay(key[|Prefix|..]))
  }

  function ParseDay(body: string): CalendarDate
    requires |body| >= 6
  {
    var n := |body|;
    CalendarDate(ReadDecimal(body[..n - 6]), ReadDigits(body[n - 5..n - 3]) - 1, ReadDigits(body[n - 2..]))
  }

  lemma {:induction false} DigitsRead(n: nat)
    ensures ReadDigits(Digits(n)) == n
    decreases n
  {
    if n >= 10 {
      DigitsRead(n / 10);
      var s := Digits(n / 10) + [DigitChar(n % 10)];
      assert s[..|s| - 1] == Digits(n / 10);
    }
  }

  lemma DecimalRead(n: int)
    ensures ReadDecimal(Decimal(n)) == n
  {
    if n < 0 {
      DigitsRead(-n);
      assert Decimal(n)[1..] == Digits(-n);
    } else {
      DigitsRead(n);
    }
  }

  /** A month or day number below 100 takes exactly two characters. */
  lemma TwoDigits(n: int)
    requires 1 <= n < 100
    ensures |Pad2(Decimal(n))| == 2 && ReadDigits(Pad2(Decimal(n))) == n
  {
    DigitsRead(n);
    if n < 10 {
      assert Pad2(Decimal(n)) == ['0', DigitChar(n)];
      assert ['0', DigitChar(n)][..1] == ['0'];
    }
  }

  /** The key of a valid date reads back as that date. */
  lemma KeyRoundTrip(d: CalendarDate)
    requires IsDate(d)
    ensures ParseKey(StorageKey(d)) == Some(d)
  {
    var body := DayText(d);
    DayRoundTrip(d);
    AfterPrefix(Prefix, body);
    assert StorageKey(d) == Prefix + body;
  }

  /** The key without its prefix. */
  function DayText(d: CalendarDate): string {
    Decimal(d.year) + "-" + Pad2(Decimal(d.month + 1)) + "-" + Pad2(Decimal(d.day))
  }

  lemma DayRoundTrip(d: CalendarDate)
    requires IsDate(d)
    ensures |DayText(d)| >= 7 && ParseDay(DayText(d)) == d
  {
    var y, m, dd := Decimal(d.year), Pad2(Decimal(d.month + 1)), Pad2(Decimal(d.day));
    TwoDigits(d.month + 1);
    TwoDigits(d.day);
    DecimalRead(d.year);
    ParseFields(y, m, dd);
    assert DayText(d) == y + "-" + m + "-" + dd;
  }

  /** `y-mm-dd` parses field by field. */
  lemma ParseFields(y: string, m: string, dd: string)
    requires |y| >= 1 && |m| == 2 && |dd| == 2
    ensures |y + "-" + m + "-" + dd| >= 7
    ensures ParseDay(y + "-" + m + "-" + dd) == CalendarDate(ReadDecimal(y), ReadDigits(m) - 1, ReadDigits(dd))
  {
    Fields(y, m, dd);
  }

  lemma AfterPrefix(p: string, body: string)
    ensures (p + body)[|p|..] == body
  {
  }

  /** The three fields of `y-mm-dd` with two-character `mm` and `dd`. */
  lemma Fields(y: string, m: string, dd: string)
    requires |m| == 2 && |dd| == 2
    ensures var b := y + "-" + m + "-" + dd;
      |b| == |y| + 6 && b[..|b| - 6] == y && b[|b| - 5..|b| - 3] == m && b[|b| - 2..] == dd
  {
    var b := y + "-" + m + "-" + dd;
    var n := |y|;
    assert b[..n] == y;
    assert b[n + 1..n + 3] == m by {
      forall i | 0 <= i < 2 ensures b[n + 1 + i] == m[i] { }
    }
    assert b[n + 4..] == dd by {
      forall i | 0 <= i < 2 ensures b[n + 4 + i] == dd[i] { }
    }
  }

  /** Different days are stored under different keys. */
  lemma KeyInjective(a: CalendarDate, b: CalendarDate)
    requires IsDate(a) && IsDate(b) && StorageKey(a) == StorageKey(b)
    ensures a == b
  {
    KeyRoundTrip(a);
    KeyRoundTrip(b);
  }

  // ---------------------------------------------------------------------
  // Newest-first order
  // ---------------------------------------------------------------------

  function Timestamp(x: IdCardData): int {
    x.scanTimestamp
  }

  predicate NewestFirst(s: seq<IdCardData>) {
    Sorting.Descending(s, Timestamp)
  }

  /** `sort((a, b) => b.scanTimestamp - a.scanTimestamp)`. */
  function SortByTime(s: seq<IdCardData>): seq<IdCardData> {
    Sorting.SortDesc(s, Timestamp)
  }

  // ---------------------------------------------------------------------
  // Stored entries
  // ---------------------------------------------------------------------

  /** What a stored text decodes to: a record list, the empty text (which
      both operations treat as no entry), or `Malformed`: a text that does
      not parse, or parses to anything but a list. */
  datatype Entry = Records(records: seq<IdCardData>) | Blank | Malformed

  /** The list a day already holds, as `saveIdCardData` reads it. */
  function DayList(items: map<string, Entry>, key: string): seq<IdCardData> {
    if key in items && items[key].Records? then items[key].records else []
  }

  /** Whether reading `key` makes `JSON.parse` throw. */
  predicate Unreadable(items: map<string, Entry>, key: string) {
    key in items && items[key].Malformed?
  }

  /** What a save would store under the day's key. */
  function SavedList(items: map<string, Entry>, key: string, data: IdCardData): seq<IdCardData> {
    SortByTime(DayList(items, key) + [data])
  }

  /** The day list after a save holds the old records and the new one, newest
      first. */
  lemma SavedListContents(items: map<string, Entry>, key: string, data: IdCardData)
    ensures NewestFirst(SavedList(items, key, data))
    ensures multiset(SavedList(items, key, data)) == multiset(DayList(items, key)) + multiset{data}
    ensures |SavedList(items, key, data)| == |DayList(items, key)| + 1
  {
    Sorting.SortDescSorts(DayList(items, key) + [data], Timestamp);
    assert |multiset(SavedList(items, key, data))| == |DayList(items, key) + [data]|;
  }

  /** Every save leaves its day newest first, so a save into such a day
      places the new record after every record at least as new and moves
      nothing else. */
  lemma SaveIntoSortedDay(items: map<string, Entry>, key: string, data: IdCardData)
    requires NewestFirst(DayList(items, key))
    ensures SavedList(items, key, data) == Sorting.InsertDesc(DayList(items, key), data, Timestamp)
  {
    Sorting.SortAfterPush(DayList(items, key), data, Timestamp);
  }

  // ---------------------------------------------------------------------
  // Loading
  // ---------------------------------------------------------------------

  /** The records of the archive's keys among `order`, in that order; `None`
      when one of them cannot be parsed. */
  function Gather(items: map<string, Entry>, order: seq<string>): Option<seq<IdCardData>> {
    if order == [] then Some([])
    else AddKey(items, Gather(items, order[..|order| - 1]), order[|order| - 1])
  }

  /** One pass of the gathering loop: the records under `key` appended when
      it is an archive key. */
  function AddKey(items: map<string, Entry>, acc: Option<seq<IdCardData>>, key: string): Option<seq<IdCardData>> {
    if acc.None? || !Text.StartsWith(key, Prefix) || key !in items then acc
    else match items[key]
      case Records(rs) => Some(acc.value + rs)
      case Blank => acc
      case Malformed => None
  }

  /** The lower end of the window: the start, or 0 without one. */
  function Low(start: Option<int>): int {
    if start.Some? then start.value else 0
  }

  /** The upper end of the window: the end, or the current time without one. */
  function High(end: Option<int>, now: int): int {
    if end.Some? then end.value else now
  }

  /** The records from `lo` to `hi` inclusive, in their order. */
  function Within(s: seq<IdCardData>, lo: int, hi: int): seq<IdCardData> {
    if s == [] then []
    else
      var rest := Within(s[..|s| - 1], lo, hi);
      var x := s[|s| - 1];
      if lo <= x.scanTimestamp <= hi then rest + [x] else rest
  }

  /** The range filter: none without either bound. */
  function RangeFilter(s: seq<IdCardData>, start: Option<int>, end: Option<int>, now: int): seq<IdCardData> {
    if start.None? && end.None? then s else Within(s, Low(start), High(end, now))
  }

  predicate InWindow(x: IdCardData, start: Option<int>, end: Option<int>, now: int) {
    (start.None? && end.None?) || Low(start) <= x.scanTimestamp <= High(end, now)
  }

  /** `loadIdCardData`: the gathered records in the window, newest first, or
      nothing when a stored text cannot be parsed. */
  function LoadResult(items: map<string, Entry>, order: seq<string>, start: Option<int>, end: Option<int>, now: int): seq<IdCardData> {
    match Gather(items, order)
    case None => []
    case Some(all) => SortByTime(RangeFilter(all, start, end, now))
  }

  /** The order of `localStorage.key(0)`, `key(1)`, ...: every key once. */
  predicate Enumerates(order: seq<string>, items: map<string, Entry>) {
    (forall k | k in items :: k in order) &&
    (forall i | 0 <= i < |order| :: order[i] in items) &&
    (forall i, j | 0 <= i < j < |order| :: order[i] != order[j])
  }

  // ---------------------------------------------------------------------
  // The store
  // ---------------------------------------------------------------------

  datatype SaveOutcome = Saved | Threw

  /** The browser's key-value store as the archive uses it. */
  class ScanStore {
    var items: map<string, Entry>

    constructor (initial: map<string, Entry>)
      ensures items == initial
    {
      items := initial;
    }

    /** `saveIdCardData`: `date` is the local calendar date of the record's
        timestamp, and `quotaExceeded` says whether the store refuses the
        write. A parse failure or a refused write is thrown again and nothing
        is written. */
    method Save(data: IdCardData, date: CalendarDate, quotaExceeded: bool) returns (outcome: SaveOutcome)
      modifies this
      ensures outcome == Saved <==> !Unreadable(old(items), StorageKey(date)) && !quotaExceeded
      ensures outcome == Saved ==> items == old(items)[StorageKey(date) := Records(SavedList(old(items), StorageKey(date), data))]
      ensures outcome == Threw ==> items == old(items)
    {
      var storageKey := StorageKey(date);
      var existing := ReadDay(storageKey);
      if existing.None? {
        return Threw;
      }
      var existingData := existing.value + [data];
      existingData := SortByTime(existingData);
      if quotaExceeded {
        return Threw;
      }
      items := items[storageKey := Records(existingData)];
      outcome := Saved;
    }

    /** The list stored under a day's key before a save: none when its
        text cannot be parsed, empty when there is no text or it is
        empty. */
    method ReadDay(storageKey: string) returns (existing: Option<seq<IdCardData>>)
      ensures existing.None? <==> Unreadable(items, storageKey)
      ensures existing.Some? ==> existing.value == DayList(items, storageKey)
    {
      existing := Some([]);
      if storageKey in items {
        match items[storageKey]
        case Malformed =>
          existing := None;
        case Blank =>
        case Records(rs) =>
          existing := Some(rs);
      }
    }

    /** `loadIdCardData` over the keys in the store's enumeration `order`;
        `now` is `Date.now()`. */
    method Load(order: seq<string>, start: Option<int>, end: Option<int>, now: int) returns (result: seq<IdCardData>)
      requires Enumerates(order, items)
      ensures result == LoadResult(items, order, start, end, now)
    {
      var allData: seq<IdCardData> := [];
      var i := 0;
      while i < |order|
        invariant 0 <= i <= |order|
        invariant Gather(items, order[..i]) == Some(allData)
      {
        assert order[..i + 1][..i] == order[..i];
        var next := ReadKey(order[i], allData);
        if next.None? {
          GatherFails(items, order, i + 1);
          return [];
        }
        allData := next.value;
        i := i + 1;
      }
      assert order[..|order|] == order;
      var filteredData := RangeFilter(allData, start, end, now);
      result := SortByTime(filteredData);
    }

    /** The body of the gathering loop for one key. */
    method ReadKey(key: string, allData: seq<IdCardData>) returns (next: Option<seq<IdCardData>>)
      ensures next == AddKey(items, Some(allData), key)
    {
      next := Some(allData);
      if Text.StartsWith(key, Prefix) && key in items {
        match items[key]
        case Malformed =>
          next := None;
        case Blank =>
        case Records(fileData) =>
          next := Some(allData + fileData);
      }
    }
  }

  /** Once a key cannot be parsed, the whole gather fails. */
  lemma {:induction false} GatherFails(items: map<string, Entry>, order: seq<string>, n: nat)
    requires n <= |order| && Gather(items, order[..n]) == None
    ensures Gather(items, order) == None
    decreases |order| - n
  {
    if n < |order| {
      assert order[..n + 1][..n] == order[..n];
      GatherFails(items, order, n + 1);
    } else {
      assert order[..n] == order;
    }
  }

  /** Gathering fails exactly when some archive key in `order` holds a text
      that does not parse. */
  lemma {:induction false} GatherFailsIff(items: map<string, Entry>, order: seq<string>)
    ensures Gather(items, order).None? <==>
      exists i | 0 <= i < |order| :: Text.StartsWith(order[i], Prefix) && Unreadable(items, order[i])
  {
    if order != [] {
      var init := order[..|order| - 1];
      GatherFailsIff(items, init);
      if exists i | 0 <= i < |init| :: Text.StartsWith(init[i], Prefix) && Unreadable(items, init[i]) {
        var i :| 0 <= i < |init| && Text.StartsWith(init[i], Prefix) && Unreadable(items, init[i]);
        assert order[i] == init[i];
      }
      if exists i | 0 <= i < |order| :: Text.StartsWith(order[i], Prefix) && Unreadable(items, order[i]) {
        var i :| 0 <= i < |order| && Text.StartsWith(order[i], Prefix) && Unreadable(items, order[i]);
        if i < |init| {
          assert init[i] == order[i];
        }
      }
    }
  }

  /** Every gathered record comes from an archive key holding a record list. */
  lemma {:induction false} GatherSources(items: map<string, Entry>, order: seq<string>, x: IdCardData)
    requires Gather(items, order).Some? && x in Gather(items, order).value
    ensures exists i | 0 <= i < |order| ::
      Text.StartsWith(order[i], Prefix) && order[i] in items && items[order[i]].Records? && x in items[order[i]].records
  {
    var init := order[..|order| - 1];
    var key := order[|order| - 1];
    var acc := Gather(items, init);
    if acc.Some? && x in acc.value {
      GatherSources(items, init, x);
      var i :| 0 <= i < |init| && Text.StartsWith(init[i], Prefix) && init[i] in items && items[init[i]].Records? && x in items[init[i]].records;
      assert order[i] == init[i];
    } else {
      assert Text.StartsWith(key, Prefix) && key in items && items[key].Records?;
      assert order[|order| - 1] == key;
    }
  }

  /** Every record of every archive key in `order` is gathered. */
  lemma {:induction false} GatherComplete(items: map<string, Entry>, order: seq<string>, i: nat, x: IdCardData)
    requires Gather(items, order).Some? && i < |order|
    requires Text.StartsWith(order[i], Prefix) && order[i] in items && items[order[i]].Records?
    requires x in items[order[i]].records
    ensures x in Gather(items, order).value
  {
    var init := order[..|order| - 1];
    var acc := Gather(items, init);
    assert acc.Some?;
    if i < |init| {
      assert init[i] == order[i];
      GatherComplete(items, init, i, x);
    }
  }

  lemma {:induction false} WithinCounts(s: seq<IdCardData>, lo: int, hi: int, x: IdCardData)
    ensures multiset(Within(s, lo, hi))[x] == if lo <= x.scanTimestamp <= hi then multiset(s)[x] else 0
  {
    if s != [] {
      WithinCounts(s[..|s| - 1], lo, hi, x);
      assert s == s[..|s| - 1] + [s[|s| - 1]];
    }
  }

  /** The range filter keeps every copy of a record in the window and none
      outside it; without bounds it keeps everything. */
  lemma RangeFilterCounts(s: seq<IdCardData>, start: Option<int>, end: Option<int>, now: int, x: IdCardData)
    ensures multiset(RangeFilter(s, start, end, now))[x] == if InWindow(x, start, end, now) then multiset(s)[x] else 0
  {
    if start.Some? || end.Some? {
      WithinCounts(s, Low(start), High(end, now), x);
    }
  }

  /** A load is newest first, and holds exactly the gathered records in the
      window, each as often as it is stored. */
  lemma LoadContents(items: map<string, Entry>, order: seq<string>, start: Option<int>, end: Option<int>, now: int, x: IdCardData)
    ensures NewestFirst(LoadResult(items, order, start, end, now))
    ensures Gather(items, order).None? ==> LoadResult(items, order, start, end, now) == []
    ensures Gather(items, order).Some? ==>
      multiset(LoadResult(items, order, start, end, now))[x] ==
      if InWindow(x, start, end, now) then multiset(Gather(items, order).value)[x] else 0
  {
    if Gather(items, order).Some? {
      var all := Gather(items, order).value;
      Sorting.SortDescSorts(RangeFilter(all, start, end, now), Timestamp);
      RangeFilterCounts(all, start, end, now, x);
    }
  }

  /** A record saved under its day is returned by a later load whose window
      holds it, unless some archive text cannot be parsed. */
  lemma SaveThenLoad(items: map<string, Entry>, data: IdCardData, date: CalendarDate,
                     order: seq<string>, start: Option<int>, end: Option<int>, now: int)
    requires Enumerates(order, items[StorageKey(date) := Records(SavedList(items, StorageKey(date), data))])
    requires InWindow(data, start, end, now)
    ensures var after := items[StorageKey(date) := Records(SavedList(items, StorageKey(date), data))];
      Gather(after, order).Some? ==> data in LoadResult(after, order, start, end, now)
  {
    var key := StorageKey(date);
    var after := items[key := Records(SavedList(items, key, data))];
    if Gather(after, order).Some? {
      assert key in order;
      var i :| 0 <= i < |order| && order[i] == key;
      SavedListContents(items, key, data);
      assert data in multiset(SavedList(items, key, data));
      assert data in after[key].records;
      GatherComplete(after, order, i, data);
      LoadContents(after, order, start, end, now, data);
    }
  }
}
