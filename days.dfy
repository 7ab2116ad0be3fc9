/** Days and timestamps. A timestamp counts milliseconds since the epoch;
    a day is a day number, and day `d` begins at timestamp `d * DayMs`
    (local midnight, the time zone and daylight saving left out). The date
    texts `YYYY-MM-DD` that the dashboard and the date picker pass around
    are day numbers here, the empty text `None`. */
module Days {

  const DayMs := 86_400_000

  /** The timestamp of local midnight of `day`: `${day}T00:00:00`. */
  function Midnight(day: int): int {
    day * DayMs
  }

  /** The day a timestamp falls on. */
  function DayOf(ts: int): int {
    ts / DayMs
  }

  /** A timestamp falls on `day` exactly when it lies between that day's
      midnight and the last millisecond before the next. */
  lemma DayBounds(ts: int, day: int)
    ensures DayOf(ts) == day <==> Midnight(day) <= ts <= Midnight(day) + DayMs - 1
  {
    if Midnight(day) <= ts <= Midnight(day) + DayMs - 1 {
      assert ts - Midnight(day) == ts - day * DayMs;
    }
    if DayOf(ts) == day {
      assert ts == DayOf(ts) * DayMs + ts % DayMs;
    }
  }

  /** Comparing days is comparing with their first or last millisecond. */
  lemma DayOrder(ts: int, a: int, b: int)
    ensures a <= DayOf(ts) <==> Midnight(a) <= ts
    ensures DayOf(ts) <= b <==> ts <= Midnight(b) + DayMs - 1
  {
    var d := DayOf(ts);
    DayBounds(ts, d);
    if a <= d {
      assert Midnight(a) <= Midnight(d);
    } else {
      assert Midnight(d + 1) <= Midnight(a);
    }
    if d <= b {
      assert Midnight(d) <= Midnight(b);
    } else {
      assert Midnight(b + 1) <= Midnight(d);
    }
  }

  /** Later timestamps never fall on earlier days. */
  lemma DayOfMonotone(s: int, t: int)
    requires s <= t
    ensures DayOf(s) <= DayOf(t)
  {
    DayOrder(s, DayOf(t) + 1, DayOf(t));
    DayBounds(t, DayOf(t));
  }

  /** Going back whole days goes back as many day numbers. */
  lemma DayOfShift(ts: int, n: int)
    ensures DayOf(ts - n * DayMs) == DayOf(ts) - n
  {
    DayBounds(ts, DayOf(ts));
    DayBounds(ts - n * DayMs, DayOf(ts) - n);
  }
}
