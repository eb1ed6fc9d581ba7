/** The task-item routes: updating one item (a first score completes it and
    counts it on its task), deleting one, the list of items still open at the
    end of today, and the items of one task. */
module TaskItems {
  import opened Common
  import opened Calendar
  import opened Models

  // ---------------------------------------------------------------------
  // Lookups

  /** The row `filter_by(id=itemId, user_id=userId)` selects. */
  predicate IsRow(item: TaskItem, userId: Id, itemId: nat)
  {
    item.id == itemId && item.userId == userId
  }

  /** `TaskItem.query.filter_by(id=..., user_id=...).first()`: the position
      of the first row with that id owned by that user, if any. */
  function FindItem(items: seq<TaskItem>, userId: Id, itemId: nat): (r: Option<nat>)
    ensures r.Some? ==> r.value < |items| && IsRow(items[r.value], userId, itemId)
    ensures r.Some? ==> forall i :: 0 <= i < r.value ==> !IsRow(items[i], userId, itemId)
    ensures r.None? ==> forall i :: 0 <= i < |items| ==> !IsRow(items[i], userId, itemId)
  {
    FindItemFrom(items, userId, itemId, 0)
  }

  function FindItemFrom(items: seq<TaskItem>, userId: Id, itemId: nat, from: nat): (r: Option<nat>)
    requires from <= |items|
    ensures r.Some? ==> from <= r.value < |items| && IsRow(items[r.value], userId, itemId)
    ensures r.Some? ==> forall i :: from <= i < r.value ==> !IsRow(items[i], userId, itemId)
    ensures r.None? ==> forall i :: from <= i < |items| ==> !IsRow(items[i], userId, itemId)
    decreases |items| - from
  {
    if from == |items| then None
    else if IsRow(items[from], userId, itemId) then Some(from)
    else FindItemFrom(items, userId, itemId, from + 1)
  }

  /** Row ids are unique in a well-numbered table, so the row found is the
      only one with that id. */
  lemma FoundRowIsOnly(items: seq<TaskItem>, next: nat, userId: Id, itemId: nat)
    requires WellNumbered(items, next)
    requires FindItem(items, userId, itemId).Some?
    ensures forall i :: 0 <= i < |items| && items[i].id == itemId ==> i == FindItem(items, userId, itemId).value
  {
  }

  // ---------------------------------------------------------------------
  // Updating an item

  /** The keys of a `PUT /task-items/<id>` body that the route reads. */
  datatype ItemUpdate = ItemUpdate(resourceId: Field<int>, beginTime: Field<DateText>,
                                   endTime: Field<DateText>, score: Field<Score>)

  /** A begin or end time after its key is applied: a falsy value (`null`,
      `""`) clears it, a text in ISO format sets it, and any other text makes
      `fromisoformat` raise, outside the route's `try`, so the request fails
      with status 500. */
  function TimeAfter(f: Field<DateText>, current: Option<Timestamp>): (r: Result<Option<Timestamp>, Failure>)
  {
    match f
    case Absent => Ok(current)
    case Null => Ok(None)
    case Value(Blank) => Ok(None)
    case Value(Malformed) => Err(ServerError)
    case Value(Iso(t)) => Ok(Some(t))
  }

  /** The score after its key is applied: a present key stores its value,
      `null` included. */
  function ScoreAfter(f: Field<Score>, current: Option<Score>): Option<Score>
  {
    if f.IsPresent() then f.AsOption() else current
  }

  /** The row an update leaves, or the error it fails with. It fails
      exactly when a time key holds text that is not a date; otherwise it
      keeps the row's identity, owner, task and plan time, keeps every
      attribute whose key is missing and stores every key that is present. */
  function UpdatedItem(item: TaskItem, req: ItemUpdate): (res: Result<TaskItem, Failure>)
    ensures res.Err? <==> req.beginTime == Value(Malformed) || req.endTime == Value(Malformed)
    ensures res.Err? ==> res.error == ServerError
    ensures res.Ok? ==>
      var r := res.value;
      r.id == item.id && r.userId == item.userId && r.taskId == item.taskId && r.planTime == item.planTime &&
      (req.resourceId.Absent? ==> r.resourceId == item.resourceId) &&
      (req.resourceId.IsPresent() ==> r.resourceId == req.resourceId.AsOption()) &&
      (req.beginTime.Absent? ==> r.beginTime == item.beginTime) &&
      (req.beginTime.IsPresent() ==> (r.beginTime.Some? <==> req.beginTime.Value? && req.beginTime.v.Iso?)) &&
      (req.beginTime.Value? && req.beginTime.v.Iso? ==> r.beginTime == Some(req.beginTime.v.t)) &&
      (req.endTime.Absent? ==> r.endTime == item.endTime) &&
      (req.endTime.IsPresent() ==> (r.endTime.Some? <==> req.endTime.Value? && req.endTime.v.Iso?)) &&
      (req.endTime.Value? && req.endTime.v.Iso? ==> r.endTime == Some(req.endTime.v.t)) &&
      (req.score.Absent? ==> r.score == item.score) &&
      (req.score.IsPresent() ==> r.score == req.score.AsOption())
  {
    var begin := TimeAfter(req.beginTime, item.beginTime);
    var end := TimeAfter(req.endTime, item.endTime);
    if begin.Err? || end.Err? then Err(ServerError)
    else
      Ok(item.(resourceId := if req.resourceId.IsPresent() then req.resourceId.AsOption() else item.resourceId,
               beginTime := begin.value,
               endTime := end.value,
               score := ScoreAfter(req.score, item.score)))
  }

  /** The update completes the item: the key `score` is present, the stored
      score was NULL and the new one is not. */
  predicate Completes(original: Option<Score>, f: Field<Score>)
  {
    f.Value? && original.None?
  }

  /** Completion is decided by the stored score going from NULL to a value,
      and by nothing else. */
  lemma CompletesExactly(original: Option<Score>, f: Field<Score>)
    ensures Completes(original, f) <==> original.None? && ScoreAfter(f, original).Some?
  {
  }

  /** An item's score and the `finished_task_num` of its task. */
  datatype Tally = Tally(score: Option<Score>, finished: int)

  /** The effect of one score key on the item and its task's counter: one
      more finished item when it completes the item, none otherwise; in
      particular an item that already has a score is never counted again. */
  function Step(t: Tally, f: Field<Score>): (r: Tally)
    ensures r.score == ScoreAfter(f, t.score)
    ensures r.finished == t.finished + 1 <==> t.score.None? && f.IsPresent() && f.AsOption().Some?
    ensures r.finished == t.finished || r.finished == t.finished + 1
    ensures t.score.Some? ==> r.finished == t.finished
  {
    Tally(ScoreAfter(f, t.score), if Completes(t.score, f) then t.finished + 1 else t.finished)
  }

  /** The effect of a run of score keys, one request after another. */
  function Replay(t: Tally, fs: seq<Field<Score>>): Tally
    decreases |fs|
  {
    if |fs| == 0 then t else Replay(Step(t, fs[0]), fs[1..])
  }

  /** The counter never goes down, and rises at most once per request. */
  lemma {:induction false} ReplayBounds(t: Tally, fs: seq<Field<Score>>)
    ensures t.finished <= Replay(t, fs).finished <= t.finished + |fs|
    decreases |fs|
  {
    if |fs| > 0 {
      ReplayBounds(Step(t, fs[0]), fs[1..]);
    }
  }

  /** No request clears the score with `null`. */
  predicate NeverCleared(fs: seq<Field<Score>>)
  {
    forall i :: 0 <= i < |fs| ==> !fs[i].Null?
  }

  /** As long as no request clears the score, an item is counted at most
      once: exactly when it had no score and some request sets one. */
  lemma {:induction false} CountedOnce(t: Tally, fs: seq<Field<Score>>)
    requires NeverCleared(fs)
    ensures Replay(t, fs).finished == t.finished + 1 <==> t.score.None? && exists i :: 0 <= i < |fs| && fs[i].Value?
    ensures Replay(t, fs).finished <= t.finished + 1
    decreases |fs|
  {
    if |fs| > 0 {
      var s := Step(t, fs[0]);
      assert NeverCleared(fs[1..]) by {
        forall i | 0 <= i < |fs[1..]| ensures !fs[1..][i].Null? {
          assert fs[1..][i] == fs[i + 1];
        }
      }
      CountedOnce(s, fs[1..]);
      if fs[0].Value? {
        assert s.score.Some?;
        ReplaySettled(s, fs[1..]);
      } else {
        assert s == t;
        if exists i :: 0 <= i < |fs| && fs[i].Value? {
          var i :| 0 <= i < |fs| && fs[i].Value?;
          assert i > 0;
          assert fs[1..][i - 1].Value?;
        }
        if exists i :: 0 <= i < |fs[1..]| && fs[1..][i].Value? {
          var i :| 0 <= i < |fs[1..]| && fs[1..][i].Value?;
          assert fs[i + 1].Value?;
        }
      }
    }
  }

  /** Once scored, and never cleared, an item leaves the counter alone. */
  lemma {:induction false} ReplaySettled(t: Tally, fs: seq<Field<Score>>)
    requires NeverCleared(fs)
    requires t.score.Some?
    ensures Replay(t, fs).finished == t.finished
    ensures Replay(t, fs).score.Some?
    decreases |fs|
  {
    if |fs| > 0 {
      assert NeverCleared(fs[1..]) by {
        forall i | 0 <= i < |fs[1..]| ensures !fs[1..][i].Null? {
          assert fs[1..][i] == fs[i + 1];
        }
      }
      ReplaySettled(Step(t, fs[0]), fs[1..]);
    }
  }

  /** Clearing a score and setting it again counts the item a second time:
      a task with a single item can report two finished items, so
      `finished_task_num <= task_num` is not an invariant of the routes. */
  lemma ClearAndRescoreCountsTwice(x: Score, y: Score)
    ensures Replay(Tally(None, 0), [Value(x), Null, Value(y)]).finished == 2
  {
    var fs: seq<Field<Score>> := [Value(x), Null, Value(y)];
    var t1 := Step(Tally(None, 0), Value(x));
    var t2 := Step(t1, Null);
    var t3 := Step(t2, Value(y));
    assert t3 == Tally(Some(y), 2);
    assert fs[1..] == [Null, Value(y)];
    assert fs[1..][1..] == [Value(y)];
    assert Replay(t3, []) == t3;
    assert Replay(t2, [Value(y)]) == t3;
    assert Replay(t1, [Null, Value(y)]) == t3;
  }

  /** The position of the task an update credits with a finished item: the
      row was found, the update succeeds, it completes the item, and the
      item's task exists. */
  function Credited(tasks: seq<Task>, items: seq<TaskItem>, userId: Id, itemId: nat, req: ItemUpdate): (r: Option<nat>)
    reads tasks
    ensures r.Some? ==> r.value < |tasks|
  {
    var k := FindItem(items, userId, itemId);
    if k.None? || UpdatedItem(items[k.value], req).Err? || !Completes(items[k.value].score, req.score) then None
    else FindTask(tasks, items[k.value].taskId, None)
  }

  /** `PUT /task-items/<id>` with the intended time parsing: the user's row
      with that id is replaced by its updated value, and when the update
      gives the item its first score, the item's task (if there is one)
      counts one more finished item, and the commit stamps that task's
      update date with `utcNow` (the column's `onupdate` hook). A missing
      row is a 404 and a time key that is not a date a 500; neither changes
      anything. */
  method UpdateTaskItem(db: Database, userId: Id, itemId: nat, req: ItemUpdate, utcNow: Timestamp)
    returns (r: Result<TaskItem, Failure>)
    requires db.Valid()
    modifies db`items, db.tasks`finishedTaskNum, db.tasks`updateDate
    ensures db.Valid()
    ensures var k := FindItem(old(db.items), userId, itemId);
      if k.None? then r == Err(NotFound) && db.items == old(db.items)
      else r == UpdatedItem(old(db.items)[k.value], req) &&
           db.items == (if r.Ok? then old(db.items)[k.value := r.value] else old(db.items))
    ensures var c := old(Credited(db.tasks, db.items, userId, itemId, req));
      forall t :: t in db.tasks ==>
        t.finishedTaskNum == old(t.finishedTaskNum) + (if c.Some? && t == db.tasks[c.value] then 1 else 0)
    ensures var c := old(Credited(db.tasks, db.items, userId, itemId, req));
      forall t :: t in db.tasks ==>
        t.updateDate == (if c.Some? && t == db.tasks[c.value] then utcNow else old(t.updateDate))
    ensures var k := FindItem(old(db.items), userId, itemId);
      k.Some? && r.Ok? ==>
        var p := old(FindTask(db.tasks, db.items[k.value].taskId, None));
        p.Some? ==>
          Tally(r.value.score, db.tasks[p.value].finishedTaskNum) ==
          Step(Tally(old(db.items)[k.value].score, old(db.tasks[p.value].finishedTaskNum)), req.score)
  {
    var k := FindItem(db.items, userId, itemId);
    if k.None? {
      return Err(NotFound);
    }
    var item := db.items[k.value];
    r := UpdatedItem(item, req);
    if r.Err? {
      return;
    }
    db.items := db.items[k.value := r.value];
    if Completes(item.score, req.score) {
      var p := FindTask(db.tasks, item.taskId, None);
      if p.Some? {
        var task := db.tasks[p.value];
        task.finishedTaskNum := task.finishedTaskNum + 1;
        task.updateDate := utcNow;
      }
    }
  }

  /** The route as written: `datetime` names the class there, so
      `datetime.datetime.fromisoformat` raises `AttributeError` for every
      truthy begin or end time, before the `try`, and the request fails with
      status 500. */
  function UpdatedItemAsWritten(item: TaskItem, req: ItemUpdate): Result<TaskItem, Failure>
  {
    if (req.beginTime.Value? && req.beginTime.v != Blank) || (req.endTime.Value? && req.endTime.v != Blank) then
      Err(ServerError)
    else
      UpdatedItem(item, req)
  }

  /** As written, a well-formed begin time is refused with a 500 that the
      intended update stores; every request without a non-empty time text
      behaves the same either way. */
  lemma BeginTimeRaises(item: TaskItem, t: Timestamp)
    ensures var req := ItemUpdate(Absent, Value(Iso(t)), Absent, Absent);
      UpdatedItemAsWritten(item, req) == Err(ServerError) &&
      UpdatedItem(item, req).Ok? && UpdatedItem(item, req).value.beginTime == Some(t)
  {
  }

  lemma AsWrittenAgreesWithoutTimes(item: TaskItem, req: ItemUpdate)
    requires !req.beginTime.Value? || req.beginTime.v == Blank
    requires !req.endTime.Value? || req.endTime.v == Blank
    ensures UpdatedItemAsWritten(item, req) == UpdatedItem(item, req)
    ensures UpdatedItem(item, req).Ok?
  {
  }

  // ---------------------------------------------------------------------
  // Deleting an item

  /** Removing one row keeps the numbering. */
  lemma WellNumberedRemove(items: seq<TaskItem>, next: nat, k: nat)
    requires WellNumbered(items, next)
    requires k < |items|
    ensures WellNumbered(items[..k] + items[k + 1..], next)
  {
    var r := items[..k] + items[k + 1..];
    forall i | 0 <= i < |r| ensures r[i] == items[if i < k then i else i + 1] {
    }
  }

  /** `DELETE /task-items/<id>`: the user's row with that id leaves the
      table, and no row with that id is left; a missing row is a 404. Tasks
      and their counters are untouched. */
  method DeleteTaskItem(db: Database, userId: Id, itemId: nat) returns (r: Result<TaskItem, Failure>)
    requires db.Valid()
    modifies db`items
    ensures db.Valid()
    ensures var k := FindItem(old(db.items), userId, itemId);
      if k.None? then r == Err(NotFound) && db.items == old(db.items)
      else r == Ok(old(db.items)[k.value]) && db.items == old(db.items)[..k.value] + old(db.items)[k.value + 1..]
    ensures r.Ok? ==> forall i :: 0 <= i < |db.items| ==> db.items[i].id != itemId
  {
    var k := FindItem(db.items, userId, itemId);
    if k.None? {
      return Err(NotFound);
    }
    FoundRowIsOnly(db.items, db.nextItemId, userId, itemId);
    WellNumberedRemove(db.items, db.nextItemId, k.value);
    r := Ok(db.items[k.value]);
    ghost var before := db.items;
    db.items := db.items[..k.value] + db.items[k.value + 1..];
    forall i | 0 <= i < |db.items| ensures db.items[i].id != itemId {
      assert db.items[i] == before[if i < k.value then i else i + 1];
    }
  }

  // ---------------------------------------------------------------------
  // Listings

  /** The rows of `items` that satisfy `p`, in table order. */
  function Filter(items: seq<TaskItem>, p: TaskItem -> bool): (r: seq<TaskItem>)
    ensures forall x :: multiset(r)[x] == if p(x) then multiset(items)[x] else 0
    decreases |items|
  {
    if |items| == 0 then []
    else
      assert items == [items[0]] + items[1..];
      if p(items[0]) then [items[0]] + Filter(items[1..], p) else Filter(items[1..], p)
  }

  /** `plan_time` order with NULL first, as the database sorts ascending;
      descending order is its reverse. */
  predicate PlanLe(a: Option<Timestamp>, b: Option<Timestamp>)
  {
    a.None? || (b.Some? && a.value <= b.value)
  }

  /** `x` may come before `y` in `ORDER BY plan_time` (desc: `DESC`). */
  predicate InOrder(x: TaskItem, y: TaskItem, desc: bool)
  {
    if desc then PlanLe(y.planTime, x.planTime) else PlanLe(x.planTime, y.planTime)
  }

  predicate SortedBy(s: seq<TaskItem>, desc: bool)
  {
    forall i, j :: 0 <= i < j < |s| ==> InOrder(s[i], s[j], desc)
  }

  /** `x` placed before the first row of `s` it may precede. */
  function Insert(x: TaskItem, s: seq<TaskItem>, desc: bool): (r: seq<TaskItem>)
    ensures multiset(r) == multiset(s) + multiset{x}
    decreases |s|
  {
    if |s| == 0 then [x]
    else if InOrder(x, s[0], desc) then [x] + s
    else
      assert s == [s[0]] + s[1..];
      [s[0]] + Insert(x, s[1..], desc)
  }

  /** Every row of `s` may follow `a`. */
  predicate Precedes(a: TaskItem, s: seq<TaskItem>, desc: bool)
  {
    forall j :: 0 <= j < |s| ==> InOrder(a, s[j], desc)
  }

  /** A row followed by a sorted run it precedes is a sorted run. */
  lemma SortedCons(h: TaskItem, t: seq<TaskItem>, desc: bool)
    requires Precedes(h, t, desc) && SortedBy(t, desc)
    ensures SortedBy([h] + t, desc)
  {
    var r := [h] + t;
    forall i, j | 0 <= i < j < |r| ensures InOrder(r[i], r[j], desc) {
      assert r[j] == t[j - 1];
      if i > 0 {
        assert r[i] == t[i - 1];
      }
    }
  }

  /** A row that precedes a run and the inserted row precedes the result. */
  lemma {:induction false} InsertPrecedes(a: TaskItem, x: TaskItem, s: seq<TaskItem>, desc: bool)
    requires Precedes(a, s, desc) && InOrder(a, x, desc)
    ensures Precedes(a, Insert(x, s, desc), desc)
    decreases |s|
  {
    if |s| > 0 && !InOrder(x, s[0], desc) {
      InsertPrecedes(a, x, s[1..], desc);
      var r := Insert(x, s, desc);
      assert r == [s[0]] + Insert(x, s[1..], desc);
      forall j | 0 <= j < |r| ensures InOrder(a, r[j], desc) {
        if j > 0 {
          assert r[j] == Insert(x, s[1..], desc)[j - 1];
        }
      }
    }
  }

  /** Inserting into a sorted run keeps it sorted. */
  lemma {:induction false} InsertSorted(x: TaskItem, s: seq<TaskItem>, desc: bool)
    requires SortedBy(s, desc)
    ensures SortedBy(Insert(x, s, desc), desc)
    decreases |s|
  {
    if |s| == 0 {
    } else if InOrder(x, s[0], desc) {
      SortedCons(x, s, desc);
    } else {
      var t := s[1..];
      assert Precedes(s[0], t, desc) by {
        forall j | 0 <= j < |t| ensures InOrder(s[0], t[j], desc) {
          assert t[j] == s[j + 1];
        }
      }
      assert SortedBy(t, desc) by {
        forall i, j | 0 <= i < j < |t| ensures InOrder(t[i], t[j], desc) {
          assert t[i] == s[i + 1] && t[j] == s[j + 1];
        }
      }
      InsertSorted(x, t, desc);
      InsertPrecedes(s[0], x, t, desc);
      SortedCons(s[0], Insert(x, t, desc), desc);
    }
  }

  /** `ORDER BY plan_time` (`ASC`, or `DESC` when `desc`): the rows sorted,
      as an insertion sort that keeps ties in table order. */
  function SortByPlan(s: seq<TaskItem>, desc: bool): (r: seq<TaskItem>)
    ensures SortedBy(r, desc)
    ensures multiset(r) == multiset(s)
    decreases |s|
  {
    if |s| == 0 then []
    else
      assert s == [s[0]] + s[1..];
      var sorted := SortByPlan(s[1..], desc);
      InsertSorted(s[0], sorted, desc);
      Insert(s[0], sorted, desc)
  }

  /** 23:59:59 of the day `now` falls on:
      `datetime.combine(date.today(), time(23, 59, 59))`. */
  function TodayEnd(now: Timestamp): Timestamp
  {
    Midnight(DayOf(now)) + EndOfDayOffset()
  }

  /** A time is before the end of today exactly when it falls on an earlier
      day, or on today before 23:59:59. */
  lemma TodayEndCovers(now: Timestamp, t: Timestamp)
    ensures t < TodayEnd(now) <==>
      DayOf(t) < DayOf(now) || (DayOf(t) == DayOf(now) && t - Midnight(DayOf(t)) < EndOfDayOffset())
  {
    DayOfBounds(t);
    DayOfBounds(now);
    if DayOf(t) < DayOf(now) {
      assert Days(DayOf(t) + 1) <= Days(DayOf(now));
    } else if DayOf(t) > DayOf(now) {
      assert Days(DayOf(now) + 1) <= Days(DayOf(t));
    }
  }

  /** The filter of `get_uncompleted_task_items`: the user's items with no
      end time and no score, planned before `todayEnd` (a NULL plan time
      never compares). */
  predicate Uncompleted(item: TaskItem, userId: Id, todayEnd: Timestamp)
  {
    item.userId == userId && item.endTime.None? && item.score.None? &&
    item.planTime.Some? && item.planTime.value < todayEnd
  }

  /** `GET /task-items/uncompleted`: every uncompleted item of the user
      planned before the end of today, latest plan first, each as often as
      it is in the table and nothing else. */
  function UncompletedItems(items: seq<TaskItem>, userId: Id, now: Timestamp): (r: seq<TaskItem>)
    ensures SortedBy(r, true)
    ensures forall x :: multiset(r)[x] == if Uncompleted(x, userId, TodayEnd(now)) then multiset(items)[x] else 0
    ensures forall x :: x in r <==> x in items && Uncompleted(x, userId, TodayEnd(now))
  {
    var e := TodayEnd(now);
    var r := SortByPlan(Filter(items, x => Uncompleted(x, userId, e)), true);
    assert forall x :: x in r <==> multiset(r)[x] > 0;
    r
  }

  /** An open item of the user planned earlier today is listed; none planned
      for a later day is. */
  lemma UncompletedByDay(items: seq<TaskItem>, userId: Id, now: Timestamp, x: TaskItem)
    requires x in items && x.userId == userId && x.endTime.None? && x.score.None? && x.planTime.Some?
    ensures DayOf(x.planTime.value) > DayOf(now) ==> x !in UncompletedItems(items, userId, now)
    ensures (x.planTime.value <= now && DayOf(x.planTime.value) == DayOf(now) &&
             now - Midnight(DayOf(now)) < EndOfDayOffset()) ==> x in UncompletedItems(items, userId, now)
  {
    TodayEndCovers(now, x.planTime.value);
  }

  /** The filter of `get_task_items_by_task`. */
  predicate OfTask(item: TaskItem, taskId: Id, userId: Id)
  {
    item.taskId == taskId && item.userId == userId
  }

  /** `GET /tasks/<id>/items` without pagination: 404 unless the user owns a
      task with that id; otherwise every item of that task owned by the user,
      earliest plan first (NULL plan times first), each as often as it is in
      the table and nothing else. */
  function ItemsOfTask(tasks: seq<Task>, items: seq<TaskItem>, taskId: Id, userId: Id)
    : (r: Result<seq<TaskItem>, Failure>)
    reads tasks
    ensures r.Err? <==> forall i :: 0 <= i < |tasks| ==> !TaskMatches(tasks[i], taskId, Some(userId))
    ensures r.Err? ==> r.error == NotFound
    ensures r.Ok? ==> SortedBy(r.value, false)
    ensures r.Ok? ==> forall x :: multiset(r.value)[x] == if OfTask(x, taskId, userId) then multiset(items)[x] else 0
  {
    if FindTask(tasks, taskId, Some(userId)).None? then Err(NotFound)
    else Ok(SortByPlan(Filter(items, x => OfTask(x, taskId, userId)), false))
  }
}
