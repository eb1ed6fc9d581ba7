/** Time as the routes see it: naive `datetime` values, `timedelta(days=...)`
    arithmetic and `datetime.weekday()`. */
module Calendar {

  /** A timestamp: microseconds since 1970-01-01T00:00:00 (a Thursday),
      the resolution of Python's `datetime`. */
  type Timestamp = int

  /** The text of a date-valued key of a request body, as
      `datetime.fromisoformat` sees it: the empty string (falsy), a text it
      rejects with `ValueError`, or one it parses to the instant `t`. */
  datatype DateText = Blank | Malformed | Iso(t: Timestamp)

  /** `timedelta(days=n)` in microseconds. */
  function Days(n: int): int
  {
    n * 86_400_000_000
  }

  /** Microseconds from midnight to 23:59:59 of the same day. */
  function EndOfDayOffset(): int
  {
    86_399_000_000
  }

  /** The day number (days since 1970-01-01) that `t` falls on; floors for
      timestamps before the epoch, as the calendar does. */
  function DayOf(t: Timestamp): int
  {
    t / 86_400_000_000
  }

  /** `t` lies within its day. */
  lemma DayOfBounds(t: Timestamp)
    ensures Days(DayOf(t)) <= t < Days(DayOf(t) + 1)
  {
  }

  /** Midnight at the start of day `d`. */
  function Midnight(d: int): (t: Timestamp)
    ensures DayOf(t) == d
    ensures t == Days(d)
  {
    DayOfUnique(Days(d), d);
    Days(d)
  }

  /** `datetime.weekday()`: Monday is 0 and Sunday is 6. 1970-01-01 was a
      Thursday, weekday 3. */
  function Weekday(t: Timestamp): (w: int)
    ensures 0 <= w < 7
  {
    (DayOf(t) + 3) % 7
  }

  /** Adding whole days moves the weekday forward by as many days, mod 7. */
  lemma WeekdayAfterDays(t: Timestamp, n: int)
    ensures DayOf(t + Days(n)) == DayOf(t) + n
    ensures Weekday(t + Days(n)) == (Weekday(t) + n) % 7
  {
    var q := DayOf(t);
    DayOfBounds(t);
    assert Days(q + n) <= t + Days(n) < Days(q + n + 1);
    DayOfUnique(t + Days(n), q + n);
  }

  /** The day number is the only `d` whose day contains `t`. */
  lemma DayOfUnique(t: Timestamp, d: int)
    requires Days(d) <= t < Days(d + 1)
    ensures DayOf(t) == d
  {
  }
}
