/** The planned dates `create_task_items_by_cycle` produces, as functions of its
    inputs. The loop that builds the task items (module Tasks) is proved to
    produce exactly these dates. */
module Schedule {
  import opened Common
  import opened Calendar
  import opened WeekDays

  /** Occurrences of a daily task without an end date (`start_date + 29 days` is the last). */
  function OpenDailyCount(): nat { 30 }

  /** Weeks of a weekly task without an end date. */
  function OpenWeeklyCount(): nat { 12 }

  /** `end_date is None or date <= end_date`. */
  predicate InRange(t: Timestamp, end: Option<Timestamp>)
  {
    end.None? || t <= end.value
  }

  /** How many days `start + k days` are in range: 30 without an end date,
      otherwise every whole day from `start` up to `end`. */
  function DailyCount(start: Timestamp, end: Option<Timestamp>): nat
  {
    if end.None? then OpenDailyCount()
    else if end.value < start then 0
    else (end.value - start) / 86_400_000_000 + 1
  }

  /** The plan of a daily task: consecutive days from `start`, each at the
      time of day of `start`; without an end date exactly 30 of them, with
      an end date every one that is not after it and no more. */
  function DailyDates(start: Timestamp, end: Option<Timestamp>): (r: seq<Timestamp>)
    ensures end.None? ==> |r| == OpenDailyCount()
    ensures forall k :: 0 <= k < |r| ==> r[k] == start + Days(k)
    ensures forall k :: 0 <= k < |r| ==> InRange(r[k], end)
    ensures end.Some? ==> !InRange(start + Days(|r|), end)
    ensures end.Some? && end.value < start ==> r == []
  {
    seq(DailyCount(start, end), k => start + Days(k))
  }

  /** `days_ahead` for weekday `wd`: its distance from the weekday of `start`,
      moved into the coming week when it is already past. */
  function DaysAhead(wd: nat, start: Timestamp): int
  {
    var d := wd - Weekday(start);
    if d < 0 then d + 7 else d
  }

  /** `days_ahead` is never negative, and for a real weekday it is the
      number of days, under a week, to the next day with that weekday. */
  lemma DaysAheadRange(wd: nat, start: Timestamp)
    ensures 0 <= DaysAhead(wd, start)
    ensures wd < 7 ==> DaysAhead(wd, start) < 7 && (Weekday(start) + DaysAhead(wd, start)) % 7 == wd
  {
  }

  /** `item_date` for weekday `wd` in week `w`. */
  function ItemDate(start: Timestamp, wd: nat, w: nat): Timestamp
  {
    start + Days(DaysAhead(wd, start) + 7 * w)
  }

  /** The date of week `w` is not before the start of that week, and for a
      real weekday it lies within it. */
  lemma ItemDateBounds(start: Timestamp, wd: nat, w: nat)
    ensures ItemDate(start, wd, w) >= start + Days(7 * w)
    ensures wd < 7 ==> ItemDate(start, wd, w) < start + Days(7 * w + 7)
  {
    DaysAheadRange(wd, start);
  }

  /** For a real weekday (0..6) the date falls on that weekday, is never
      before `start`, and in week 0 lies within six days of `start`. */
  lemma ItemDateWeekday(start: Timestamp, wd: nat, w: nat)
    requires wd < 7
    ensures Weekday(ItemDate(start, wd, w)) == wd
    ensures start <= ItemDate(start, wd, w)
    ensures w == 0 ==> ItemDate(start, wd, w) <= start + Days(6)
  {
    var d := DaysAhead(wd, start);
    DaysAheadRange(wd, start);
    WeekdayAfterDays(start, d + 7 * w);
  }

  /** Every weekday's date moves on by exactly one week per week. */
  lemma ItemDateNextWeek(start: Timestamp, wd: nat, w: nat)
    ensures ItemDate(start, wd, w + 1) == ItemDate(start, wd, w) + Days(7)
  {
  }

  /** The in-range dates of week `w` for the first `i` entries of `wds`, in
      order: the state of the inner `for` loop after `i` steps. */
  function WeekPrefix(wds: seq<nat>, start: Timestamp, end: Option<Timestamp>, w: nat, i: nat): (r: seq<Timestamp>)
    requires i <= |wds|
    ensures |r| <= i
  {
    if i == 0 then []
    else
      var t := ItemDate(start, wds[i - 1], w);
      WeekPrefix(wds, start, end, w, i - 1) + (if InRange(t, end) then [t] else [])
  }

  /** The dates of week `w`, in the order of `wds`, that are in range. */
  function WeekRow(wds: seq<nat>, start: Timestamp, end: Option<Timestamp>, w: nat): seq<Timestamp>
  {
    WeekPrefix(wds, start, end, w, |wds|)
  }

  /** Weeks `0 .. n-1`, one after the other. */
  function Rows(wds: seq<nat>, start: Timestamp, end: Option<Timestamp>, n: nat): seq<Timestamp>
    decreases n
  {
    if n == 0 then [] else Rows(wds, start, end, n - 1) + WeekRow(wds, start, end, n - 1)
  }

  /** The weeks that can hold a date in range: 12 without an end date; with
      one, every week whose first day is not after it. */
  function WeeksBound(start: Timestamp, end: Option<Timestamp>): nat
  {
    if end.None? then OpenWeeklyCount()
    else if end.value < start then 0
    else (end.value - start) / 604_800_000_000 + 1
  }

  /** The plan of a weekly task: week by week, and within a week in the order
      of `wds`, every date that is in range. */
  function WeeklyDates(wds: seq<nat>, start: Timestamp, end: Option<Timestamp>): seq<Timestamp>
  {
    Rows(wds, start, end, WeeksBound(start, end))
  }

  /** At the week bound the rows so far are the whole weekly plan. */
  lemma WeeklyDatesRows(wds: seq<nat>, start: Timestamp, end: Option<Timestamp>, n: nat)
    requires n == WeeksBound(start, end)
    ensures Rows(wds, start, end, n) == WeeklyDates(wds, start, end)
  {
  }

  /** The weekly loop's exit test, after `week` has been counted up: twelve
      weeks without an end date, or a week without items with one. */
  predicate WeeklyStop(end: Option<Timestamp>, week: nat, hasItems: bool)
  {
    (end.None? && week >= OpenWeeklyCount()) || (end.Some? && !hasItems)
  }

  /** The state of the weekly loop before week `week`: `rows` holds the
      weeks so far; a loop that goes on is within the week bound; a loop
      that has stopped holds the whole weekly plan. */
  ghost predicate WeeklyLoop(wds: seq<nat>, start: Timestamp, end: Option<Timestamp>,
                             week: nat, done: bool, rows: seq<Timestamp>)
  {
    rows == Rows(wds, start, end, week) &&
    (!done ==> if end.None? then week < WeeksBound(start, end) else week <= WeeksBound(start, end)) &&
    (done ==> rows == WeeklyDates(wds, start, end))
  }

  /** One turn of the weekly loop over week `w` keeps its state. */
  lemma WeeklyTurn(wds: seq<nat>, start: Timestamp, end: Option<Timestamp>, w: nat, rows: seq<Timestamp>)
    requires WeeklyLoop(wds, start, end, w, false, rows)
    ensures var row := WeekRow(wds, start, end, w);
            WeeklyLoop(wds, start, end, w + 1, WeeklyStop(end, w + 1, row != []), rows + row)
  {
    var row := WeekRow(wds, start, end, w);
    if end.None? && w + 1 >= OpenWeeklyCount() {
      WeeklyDatesRows(wds, start, end, w + 1);
    }
    if end.Some? {
      if row != [] && w >= WeeksBound(start, end) {
        BeyondBoundEmpty(wds, start, end.value, w);
      }
      if row == [] {
        StopAtEmptyWeek(wds, start, end.value, w);
      }
    }
  }

  /** `week_days` is truthy: present and not the empty string. */
  predicate Truthy(s: Option<string>)
  {
    s.Some? && s.value != ""
  }

  /** The dates of the daily and weekly branches; any other cycle type plans nothing. */
  function Recurring(cycle: Option<string>, weekDays: Option<string>, start: Timestamp,
                     end: Option<Timestamp>): seq<Timestamp>
  {
    if cycle == Some("daily") then DailyDates(start, end)
    else if cycle == Some("weekly") && Truthy(weekDays) then
      WeeklyDates(ParseWeekDays(weekDays.value), start, end)
    else []
  }

  /** The dates `create_task_items_by_cycle` is meant to plan: a `once` task
      gets one item stamped with the current time `now`, not with `start`. */
  function Planned(cycle: Option<string>, weekDays: Option<string>, start: Timestamp,
                   end: Option<Timestamp>, now: Timestamp): (r: seq<Timestamp>)
    ensures cycle == Some("once") ==> r == [now]
    ensures cycle == Some("weekly") && !Truthy(weekDays) ==> r == []
    ensures cycle != Some("daily") && cycle != Some("weekly") && cycle != Some("once") ==> r == []
  {
    if cycle == Some("once") then [now] else Recurring(cycle, weekDays, start, end)
  }

  /** The failure of the `once` branch as the source is written. */
  datatype Raised = AttributeError

  /** The `once` branch as written: the function-local
      `from datetime import datetime` rebinds `datetime` to the class, so
      `datetime.datetime.now()` raises before any item is added. */
  function PlannedAsWritten(cycle: Option<string>, weekDays: Option<string>, start: Timestamp,
                            end: Option<Timestamp>): (r: Result<seq<Timestamp>, Raised>)
    ensures r.Err? <==> cycle == Some("once")
  {
    if cycle == Some("once") then Err(AttributeError) else Ok(Recurring(cycle, weekDays, start, end))
  }

  // ---------------------------------------------------------------------
  // Weekly plans without an end date

  /** Without an end date the first `i` entries give `i` dates. */
  lemma {:induction false} WeekPrefixOpenLength(wds: seq<nat>, start: Timestamp, w: nat, i: nat)
    requires i <= |wds|
    ensures |WeekPrefix(wds, start, None, w, i)| == i
  {
    if i > 0 {
      WeekPrefixOpenLength(wds, start, w, i - 1);
    }
  }

  /** Without an end date entry `k` of a week is the date of weekday `wds[k]`. */
  lemma {:induction false} WeekPrefixOpenAt(wds: seq<nat>, start: Timestamp, w: nat, i: nat, k: nat)
    requires k < i <= |wds|
    ensures k < |WeekPrefix(wds, start, None, w, i)|
    ensures WeekPrefix(wds, start, None, w, i)[k] == ItemDate(start, wds[k], w)
  {
    WeekPrefixOpenLength(wds, start, w, i - 1);
    if k < i - 1 {
      WeekPrefixOpenAt(wds, start, w, i - 1, k);
    }
  }

  /** Position of the first date of week `w` when every week holds `m` dates. */
  function Offset(w: nat, m: nat): nat
  {
    w * m
  }

  /** The next week starts `m` dates later. */
  lemma OffsetStep(n: nat, m: nat)
    ensures Offset(n + 1, m) == Offset(n, m) + m
  {
    assert (n + 1) * m == n * m + m;
  }

  /** Earlier weeks end no later than later weeks start. */
  lemma {:induction false} OffsetMono(w: nat, n: nat, m: nat)
    requires w < n
    ensures Offset(w, m) + m <= Offset(n, m)
    decreases n
  {
    OffsetStep(n - 1, m);
    if w < n - 1 {
      OffsetMono(w, n - 1, m);
    }
  }

  /** Without an end date, weeks `0 .. n-1` hold `Offset(n, |wds|)` dates. */
  lemma {:induction false} RowsOpenLength(wds: seq<nat>, start: Timestamp, n: nat)
    ensures |Rows(wds, start, None, n)| == Offset(n, |wds|)
    decreases n
  {
    if n > 0 {
      RowsOpenLength(wds, start, n - 1);
      WeekPrefixOpenLength(wds, start, n - 1, |wds|);
      OffsetStep(n - 1, |wds|);
    }
  }

  /** Without an end date, the date of week `w` for weekday entry `i` sits at
      position `Offset(w, |wds|) + i`. */
  lemma {:induction false} RowsOpenAt(wds: seq<nat>, start: Timestamp, n: nat, w: nat, i: nat)
    requires w < n && i < |wds|
    ensures Offset(w, |wds|) + i < |Rows(wds, start, None, n)|
    ensures Rows(wds, start, None, n)[Offset(w, |wds|) + i] == ItemDate(start, wds[i], w)
    decreases n
  {
    var prev := Rows(wds, start, None, n - 1);
    var row := WeekRow(wds, start, None, n - 1);
    RowsOpenLength(wds, start, n - 1);
    WeekPrefixOpenLength(wds, start, n - 1, |wds|);
    OffsetStep(n - 1, |wds|);
    assert Rows(wds, start, None, n) == prev + row;
    if w < n - 1 {
      OffsetMono(w, n - 1, |wds|);
      RowsOpenAt(wds, start, n - 1, w, i);
      AppendAtLeft(prev, row, Offset(w, |wds|) + i);
    } else {
      WeekPrefixOpenAt(wds, start, w, |wds|, i);
      AppendAtRight(prev, row, i);
    }
  }

  lemma AppendAtLeft(a: seq<Timestamp>, b: seq<Timestamp>, k: nat)
    requires k < |a|
    ensures (a + b)[k] == a[k]
  {
  }

  lemma AppendAtRight(a: seq<Timestamp>, b: seq<Timestamp>, k: nat)
    requires k < |b|
    ensures (a + b)[|a| + k] == b[k]
  {
  }

  /** A weekly task without an end date plans exactly 12 weeks of every
      parsed weekday: `12 * |wds|` dates, week `w` of entry `i` at position
      `Offset(w, |wds|) + i`, that is `w * |wds| + i`. */
  lemma WeeklyOpen(wds: seq<nat>, start: Timestamp)
    ensures |WeeklyDates(wds, start, None)| == 12 * |wds|
    ensures forall w, i :: 0 <= w < 12 && 0 <= i < |wds| ==>
              Offset(w, |wds|) + i < |WeeklyDates(wds, start, None)| &&
              WeeklyDates(wds, start, None)[Offset(w, |wds|) + i] == ItemDate(start, wds[i], w)
  {
    WeeklyDatesRows(wds, start, None, 12);
    RowsOpenLength(wds, start, 12);
    forall w, i | 0 <= w < 12 && 0 <= i < |wds|
      ensures Offset(w, |wds|) + i < |WeeklyDates(wds, start, None)|
      ensures WeeklyDates(wds, start, None)[Offset(w, |wds|) + i] == ItemDate(start, wds[i], w)
    {
      RowsOpenAt(wds, start, 12, w, i);
    }
  }

  // ---------------------------------------------------------------------
  // Weekly plans with an end date

  /** The dates of the first `i` entries are exactly their in-range dates. */
  lemma {:induction false} WeekPrefixMembers(wds: seq<nat>, start: Timestamp, end: Option<Timestamp>, w: nat,
                                             i: nat, x: Timestamp)
    requires i <= |wds|
    ensures x in WeekPrefix(wds, start, end, w, i) <==>
            exists k :: 0 <= k < i && x == ItemDate(start, wds[k], w) && InRange(x, end)
  {
    if i > 0 {
      WeekPrefixMembers(wds, start, end, w, i - 1, x);
    }
  }

  /** The dates of a week are exactly the in-range dates of its weekday entries. */
  lemma WeekRowMembers(wds: seq<nat>, start: Timestamp, end: Option<Timestamp>, w: nat, x: Timestamp)
    ensures x in WeekRow(wds, start, end, w) <==>
            exists i :: 0 <= i < |wds| && x == ItemDate(start, wds[i], w) && InRange(x, end)
  {
    WeekPrefixMembers(wds, start, end, w, |wds|, x);
  }

  /** The dates of weeks `0 .. n-1` are exactly the in-range dates of those weeks. */
  lemma {:induction false} RowsMembers(wds: seq<nat>, start: Timestamp, end: Option<Timestamp>, n: nat, x: Timestamp)
    ensures x in Rows(wds, start, end, n) <==>
            exists i, w :: 0 <= i < |wds| && 0 <= w < n && x == ItemDate(start, wds[i], w) && InRange(x, end)
    decreases n
  {
    if n > 0 {
      RowsMembers(wds, start, end, n - 1, x);
      WeekRowMembers(wds, start, end, n - 1, x);
    }
  }

  /** No week at or past the bound holds a date that is not after `e`. */
  lemma PastBound(start: Timestamp, e: Timestamp, w: nat)
    requires start + Days(7 * w) <= e
    ensures w < WeeksBound(start, Some(e))
  {
    var q := (e - start) / 604_800_000_000;
    assert 604_800_000_000 * w <= e - start;
  }

  /** With an end date, every planned date is in range, and every in-range
      date of every parsed weekday in every week is planned: nothing past the
      end, nothing skipped. */
  lemma WeeklyBoundedMembers(wds: seq<nat>, start: Timestamp, e: Timestamp, x: Timestamp)
    ensures x in WeeklyDates(wds, start, Some(e)) <==>
            exists i, w :: 0 <= i < |wds| && 0 <= w && x == ItemDate(start, wds[i], w) && x <= e
  {
    RowsMembers(wds, start, Some(e), WeeksBound(start, Some(e)), x);
    if exists i, w :: 0 <= i < |wds| && 0 <= w && x == ItemDate(start, wds[i], w) && x <= e {
      var i, w :| 0 <= i < |wds| && 0 <= w && x == ItemDate(start, wds[i], w) && x <= e;
      ItemDateBounds(start, wds[i], w);
      PastBound(start, e, w);
    }
  }

  /** A week is empty exactly when each of its weekday dates is past the end. */
  lemma WeekRowEmpty(wds: seq<nat>, start: Timestamp, e: Timestamp, w: nat)
    ensures WeekRow(wds, start, Some(e), w) == [] <==>
            forall i :: 0 <= i < |wds| ==> ItemDate(start, wds[i], w) > e
  {
    var row := WeekRow(wds, start, Some(e), w);
    if row != [] {
      WeekRowMembers(wds, start, Some(e), w, row[0]);
    } else {
      forall i | 0 <= i < |wds| ensures ItemDate(start, wds[i], w) > e {
        WeekRowMembers(wds, start, Some(e), w, ItemDate(start, wds[i], w));
      }
    }
  }

  /** Dates only grow from week to week, so once a week is empty every later
      week is empty too. */
  lemma EmptyWeekStaysEmpty(wds: seq<nat>, start: Timestamp, e: Timestamp, w: nat, v: nat)
    requires WeekRow(wds, start, Some(e), w) == []
    requires w <= v
    ensures WeekRow(wds, start, Some(e), v) == []
  {
    WeekRowEmpty(wds, start, e, w);
    WeekRowEmpty(wds, start, e, v);
    forall i | 0 <= i < |wds| ensures ItemDate(start, wds[i], v) > e {
      assert ItemDate(start, wds[i], v) == ItemDate(start, wds[i], w) + Days(7 * (v - w));
    }
  }

  /** Weeks at or past the bound are empty. */
  lemma BeyondBoundEmpty(wds: seq<nat>, start: Timestamp, e: Timestamp, v: nat)
    requires v >= WeeksBound(start, Some(e))
    ensures WeekRow(wds, start, Some(e), v) == []
  {
    WeekRowEmpty(wds, start, e, v);
    forall i | 0 <= i < |wds| ensures ItemDate(start, wds[i], v) > e {
      if ItemDate(start, wds[i], v) <= e {
        ItemDateBounds(start, wds[i], v);
        PastBound(start, e, v);
      }
    }
  }

  lemma AppendNothing(s: seq<Timestamp>, e: seq<Timestamp>)
    requires e == []
    ensures s + e == s
  {
  }

  /** Appending empty weeks changes nothing. */
  lemma {:induction false} RowsStable(wds: seq<nat>, start: Timestamp, end: Option<Timestamp>, n: nat, m: nat)
    requires n <= m
    requires forall v :: n <= v < m ==> WeekRow(wds, start, end, v) == []
    ensures Rows(wds, start, end, m) == Rows(wds, start, end, n)
    decreases m
  {
    if n < m {
      RowsStable(wds, start, end, n, m - 1);
      AppendNothing(Rows(wds, start, end, m - 1), WeekRow(wds, start, end, m - 1));
    }
  }

  /** The stopping rule of the loop is sound: stopping at the first week with
      nothing in range gives the same dates as going through every week that
      could hold one. */
  lemma StopAtEmptyWeek(wds: seq<nat>, start: Timestamp, e: Timestamp, w: nat)
    requires WeekRow(wds, start, Some(e), w) == []
    ensures Rows(wds, start, Some(e), w) == WeeklyDates(wds, start, Some(e))
  {
    var b := WeeksBound(start, Some(e));
    if w <= b {
      forall v | w <= v < b ensures WeekRow(wds, start, Some(e), v) == [] {
        EmptyWeekStaysEmpty(wds, start, e, w, v);
      }
      RowsStable(wds, start, Some(e), w, b);
    } else {
      forall v | b <= v < w ensures WeekRow(wds, start, Some(e), v) == [] {
        BeyondBoundEmpty(wds, start, e, v);
      }
      RowsStable(wds, start, Some(e), b, w);
    }
  }

  /** An empty weekday list plans nothing, whatever the range. */
  lemma WeeklyNoWeekdays(start: Timestamp, end: Option<Timestamp>)
    ensures WeeklyDates([], start, end) == []
  {
    RowsStable([], start, end, 0, WeeksBound(start, end));
  }
}
