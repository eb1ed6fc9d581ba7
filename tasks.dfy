/** The task routes: expansion of a new task into its items
    (`create_task_items_by_cycle`), task creation and task update. */
module Tasks {
  import opened Common
  import opened Calendar
  import opened WeekDays
  import opened Schedule
  import opened Models

  /** Appends one item per planned date of the cycle to `db.items`, in plan
      order, each a new row copying owner, task and resource from `task`, and
      returns how many it added.

      The source stamps the `once` item with `datetime.datetime.now()`, which
      raises there (see `PlannedAsWritten`); this method stamps it with `now`,
      as intended. */
  method CreateTaskItemsByCycle(db: Database, task: Task, cycle: Option<string>, weekDays: Option<string>,
                                start: Timestamp, end: Option<Timestamp>, now: Timestamp)
    returns (count: nat)
    modifies db`items, db`nextItemId
    ensures count == |Planned(cycle, weekDays, start, end, now)|
    ensures db.items == old(db.items) + NewItems(old(db.nextItemId), OriginOf(task), Planned(cycle, weekDays, start, end, now))
    ensures db.nextItemId == old(db.nextItemId) + count
  {
    if cycle == Some("daily") {
      count := AddDaily(db, task, start, end);
    } else if cycle == Some("weekly") && Truthy(weekDays) {
      var wds := ParseWeekDays(weekDays.value);
      if wds == [] {
        WeeklyNoWeekdays(start, end);
        count := 0;
      } else {
        count := AddWeekly(db, task, wds, start, end);
      }
    } else if cycle == Some("once") {
      db.items := db.items + [NewItem(db.nextItemId, OriginOf(task), now)];
      db.nextItemId := db.nextItemId + 1;
      count := 1;
    } else {
      count := 0;
    }
  }

  /** The daily branch: one item per day from `start`, until the day after
      `end`, or 30 of them when there is no end date. */
  method AddDaily(db: Database, task: Task, start: Timestamp, end: Option<Timestamp>)
    returns (count: nat)
    modifies db`items, db`nextItemId
    ensures count == |DailyDates(start, end)|
    ensures db.items == old(db.items) + NewItems(old(db.nextItemId), OriginOf(task), DailyDates(start, end))
    ensures db.nextItemId == old(db.nextItemId) + count
  {
    ghost var dates := DailyDates(start, end);
    ghost var first := db.nextItemId;
    var origin := OriginOf(task);
    count := 0;
    var current := start;
    while end.None? || current <= end.value
      invariant count <= |dates|
      invariant end.None? ==> count < OpenDailyCount()
      invariant current == start + Days(count)
      invariant db.items == old(db.items) + NewItems(first, origin, dates[..count])
      invariant db.nextItemId == first + count
      decreases if end.None? then OpenDailyCount() - count else end.value + Days(1) - current
    {
      assert dates[..count + 1][..count] == dates[..count];
      db.items := db.items + [NewItem(db.nextItemId, origin, current)];
      db.nextItemId := db.nextItemId + 1;
      count := count + 1;
      current := current + Days(1);
      if end.None? && current > start + Days(29) {
        break;
      }
    }
    assert dates[..count] == dates;
  }

  /** One pass of the inner `for` loop of the weekly branch: the in-range
      dates of week `week`, in the order of `wds`; `hasItems` tells whether
      there was any. */
  method AddWeek(db: Database, origin: Origin, wds: seq<nat>, start: Timestamp, end: Option<Timestamp>,
                 week: nat, ghost base: seq<TaskItem>, ghost first: nat, ghost dates: seq<Timestamp>)
    returns (added: nat, hasItems: bool)
    requires db.items == base + NewItems(first, origin, dates)
    requires db.nextItemId == first + |dates|
    modifies db`items, db`nextItemId
    ensures added == |WeekRow(wds, start, end, week)|
    ensures hasItems <==> WeekRow(wds, start, end, week) != []
    ensures db.items == base + NewItems(first, origin, dates + WeekRow(wds, start, end, week))
    ensures db.nextItemId == first + |dates + WeekRow(wds, start, end, week)|
  {
    ghost var before := db.items;
    ghost var next := db.nextItemId;
    added, hasItems := 0, false;
    for i := 0 to |wds|
      invariant hasItems <==> WeekPrefix(wds, start, end, week, i) != []
      invariant added == |WeekPrefix(wds, start, end, week, i)|
      invariant db.items == before + NewItems(next, origin, WeekPrefix(wds, start, end, week, i))
      invariant db.nextItemId == next + added
    {
      var daysAhead := wds[i] - Weekday(start);
      if daysAhead < 0 {
        daysAhead := daysAhead + 7;
      }
      var itemDate := start + Days(daysAhead + week * 7);
      assert itemDate == ItemDate(start, wds[i], week);
      if end.None? || itemDate <= end.value {
        db.items := db.items + [NewItem(db.nextItemId, origin, itemDate)];
        TableSnoc(before, next, origin, WeekPrefix(wds, start, end, week, i), itemDate, db.items);
        db.nextItemId := db.nextItemId + 1;
        added := added + 1;
        hasItems := true;
      }
    }
    TableGrowth(base, first, origin, dates, WeekRow(wds, start, end, week), db.items);
  }

  /** The weekly branch for a non-empty weekday list: week after week, 12 weeks
      without an end date, otherwise until the first week with nothing in
      range. */
  method AddWeekly(db: Database, task: Task, wds: seq<nat>, start: Timestamp, end: Option<Timestamp>)
    returns (count: nat)
    requires wds != []
    modifies db`items, db`nextItemId
    ensures count == |WeeklyDates(wds, start, end)|
    ensures db.items == old(db.items) + NewItems(old(db.nextItemId), OriginOf(task), WeeklyDates(wds, start, end))
    ensures db.nextItemId == old(db.nextItemId) + count
  {
    ghost var first := db.nextItemId;
    var origin := OriginOf(task);
    count := 0;
    var week: nat := 0;
    var done := false;
    ghost var rows: seq<Timestamp> := [];
    while !done
      invariant WeeklyLoop(wds, start, end, week, done, rows)
      invariant count == |rows|
      invariant db.items == old(db.items) + NewItems(first, origin, rows)
      invariant db.nextItemId == first + count
      decreases WeeksBound(start, end) - week + (if done then 0 else 1)
    {
      var added, hasItems := AddWeek(db, origin, wds, start, end, week, old(db.items), first, rows);
      WeeklyTurn(wds, start, end, week, rows);
      count := count + added;
      rows := rows + WeekRow(wds, start, end, week);
      week := week + 1;
      done := WeeklyStop(end, week, hasItems);
    }
  }

  // ---------------------------------------------------------------------
  // Creating a task

  /** The task types both routes accept. */
  const TaskTypes: seq<string> := ["practice", "review", "test", "homework", "exam"]

  /** The task statuses both routes accept. */
  const Statuses: seq<string> := ["pending", "in_progress", "completed", "cancelled"]

  /** A truthy `resource_id` must name an uploaded file; a falsy one (`0`
      or `null`) is not looked up. */
  predicate ResourceKnown(f: Field<int>, resources: set<int>)
  {
    f.Value? && f.v != 0 ==> f.v in resources
  }

  /** The keys of a `POST /tasks` body that the route reads. */
  datatype CreateRequest = CreateRequest(taskType: Field<string>, planDate: Field<DateText>,
                                         status: Field<string>, resourceId: Field<int>,
                                         finishDate: Field<DateText>, cycleType: Field<string>,
                                         weekDays: Field<string>)

  /** What an accepted request stores on the new task and passes to the
      expansion. */
  datatype NewTask = NewTask(taskType: string, status: string, resourceId: Option<int>,
                             planDate: Timestamp, finishDate: Option<Timestamp>,
                             cycle: Option<string>, weekDays: Option<string>)

  /** The status a create request asks for: `data.get('task_status', 'pending')`. */
  function RequestedStatus(f: Field<string>): Option<string>
  {
    match f
    case Absent => Some("pending")
    case Null => None
    case Value(s) => Some(s)
  }

  /** The request names one of the task types. */
  predicate TypeValid(req: CreateRequest)
  {
    req.taskType.Value? && req.taskType.v in TaskTypes
  }

  /** The requested status, `pending` when the key is missing, is one of the
      statuses. */
  predicate StatusValid(req: CreateRequest)
  {
    RequestedStatus(req.status).Some? && RequestedStatus(req.status).value in Statuses
  }

  /** Every check of `create_task` passes. */
  predicate Acceptable(req: CreateRequest, resources: set<int>)
  {
    TypeValid(req) && StatusValid(req) &&
    ResourceKnown(req.resourceId, resources) &&
    req.planDate.Value? && req.planDate.v.Iso? &&
    req.finishDate != Value(Malformed) &&
    req.cycleType.IsPresent() && req.weekDays.IsPresent()
  }

  /** The checks of `create_task`, in the order the route makes them, and
      what an accepted request stores. A missing required key, an unknown
      type or status, an unknown resource and a date text that is not a date
      are refused with 400; a `null` plan date (`None.replace`) and a missing
      `cycle_type` or `week_days` key (`KeyError`) fail with 500. */
  function Accept(req: CreateRequest, resources: set<int>): (r: Result<NewTask, Failure>)
    ensures r.Ok? <==> Acceptable(req, resources)
    ensures req.taskType.Absent? ==> r == Err(BadRequest(MissingField("task_type")))
    ensures req.taskType.IsPresent() && req.planDate.Absent? ==> r == Err(BadRequest(MissingField("task_plan_date")))
    ensures req.taskType.IsPresent() && req.planDate.IsPresent() && !TypeValid(req)
      ==> r == Err(BadRequest(InvalidTaskType))
    ensures req.planDate.IsPresent() && TypeValid(req) && !StatusValid(req)
      ==> r == Err(BadRequest(InvalidStatus))
    ensures req.planDate.IsPresent() && TypeValid(req) && StatusValid(req) && !ResourceKnown(req.resourceId, resources)
      ==> r == Err(BadRequest(UnknownResource))
    ensures TypeValid(req) && StatusValid(req) && ResourceKnown(req.resourceId, resources) && req.planDate.Null?
      ==> r == Err(ServerError)
    ensures TypeValid(req) && StatusValid(req) && ResourceKnown(req.resourceId, resources) &&
            req.planDate.Value? && !req.planDate.v.Iso?
      ==> r == Err(BadRequest(BadDateFormat))
    ensures TypeValid(req) && StatusValid(req) && ResourceKnown(req.resourceId, resources) &&
            req.planDate.Value? && req.planDate.v.Iso? && req.finishDate == Value(Malformed)
      ==> r == Err(BadRequest(BadDateFormat))
    ensures TypeValid(req) && StatusValid(req) && ResourceKnown(req.resourceId, resources) &&
            req.planDate.Value? && req.planDate.v.Iso? && req.finishDate != Value(Malformed) &&
            (req.cycleType.Absent? || req.weekDays.Absent?)
      ==> r == Err(ServerError)
    ensures r.Ok? ==>
      r.value.taskType == req.taskType.v && r.value.status == RequestedStatus(req.status).value &&
      r.value.resourceId == (if req.resourceId.Value? then Some(req.resourceId.v) else None) &&
      r.value.planDate == req.planDate.v.t &&
      r.value.finishDate == (if req.finishDate.Value? && req.finishDate.v.Iso? then Some(req.finishDate.v.t) else None) &&
      r.value.cycle == req.cycleType.AsOption() && r.value.weekDays == req.weekDays.AsOption()
  {
    if req.taskType.Absent? then Err(BadRequest(MissingField("task_type")))
    else if req.planDate.Absent? then Err(BadRequest(MissingField("task_plan_date")))
    else if !TypeValid(req) then Err(BadRequest(InvalidTaskType))
    else if !StatusValid(req) then Err(BadRequest(InvalidStatus))
    else if !ResourceKnown(req.resourceId, resources) then Err(BadRequest(UnknownResource))
    else if req.planDate.Null? then Err(ServerError)
    else if !req.planDate.v.Iso? then Err(BadRequest(BadDateFormat))
    else if req.finishDate == Value(Malformed) then Err(BadRequest(BadDateFormat))
    else if req.cycleType.Absent? || req.weekDays.Absent? then Err(ServerError)
    else
      Ok(NewTask(req.taskType.v, RequestedStatus(req.status).value,
                 if req.resourceId.Value? then Some(req.resourceId.v) else None,
                 req.planDate.v.t,
                 if req.finishDate.Value? && req.finishDate.v.Iso? then Some(req.finishDate.v.t) else None,
                 req.cycleType.AsOption(), req.weekDays.AsOption()))
  }

  /** `POST /tasks`: a refused request changes nothing; an accepted one
      adds a new task under the fresh id `id`, with its items expanded from
      its cycle between the plan date and the finish date, and `task_num`
      set to their number. `now` is the local time the `once` item is
      planned at, `utcNow` the time that stamps `create_date` and
      `update_date`. */
  method CreateTask(db: Database, userId: Id, req: CreateRequest, resources: set<int>, id: Id,
                    now: Timestamp, utcNow: Timestamp)
    returns (r: Result<Task, Failure>)
    requires db.Valid()
    modifies db
    ensures db.Valid()
    ensures Accept(req, resources).Err? ==>
      r == Err(Accept(req, resources).error) &&
      db.tasks == old(db.tasks) && db.items == old(db.items) && db.nextItemId == old(db.nextItemId)
    ensures Accept(req, resources).Ok? ==>
      var n := Accept(req, resources).value;
      var dates := Planned(n.cycle, n.weekDays, n.planDate, n.finishDate, now);
      r.Ok? && fresh(r.value) && db.tasks == old(db.tasks) + [r.value] &&
      r.value.id == id && r.value.userId == userId && r.value.resourceId == n.resourceId &&
      r.value.taskType == n.taskType && r.value.status == n.status &&
      r.value.cycleType == n.cycle && r.value.weekDays == n.weekDays &&
      r.value.planDate == n.planDate && r.value.finishDate == n.finishDate &&
      r.value.taskNum == |dates| && r.value.finishedTaskNum == 0 &&
      r.value.createDate == utcNow && r.value.updateDate == utcNow &&
      db.items == old(db.items) + NewItems(old(db.nextItemId), Origin(userId, id, n.resourceId), dates) &&
      db.nextItemId == old(db.nextItemId) + |dates|
  {
    var accepted := Accept(req, resources);
    if accepted.Err? {
      return Err(accepted.error);
    }
    var n := accepted.value;
    var task := new Task(id, userId, n.resourceId, n.taskType, n.cycle, n.weekDays, n.planDate,
                         n.finishDate, n.status, utcNow);
    WellNumberedAppend(db.items, db.nextItemId, OriginOf(task),
                       Planned(n.cycle, n.weekDays, n.planDate, n.finishDate, now));
    var count := CreateTaskItemsByCycle(db, task, n.cycle, n.weekDays, n.planDate, n.finishDate, now);
    task.taskNum := count;
    db.tasks := db.tasks + [task];
    r := Ok(task);
  }

  // ---------------------------------------------------------------------
  // Updating a task

  /** The keys of a `PUT /tasks/<id>` body that the route reads. */
  datatype TaskPatch = TaskPatch(taskType: Field<string>, status: Field<string>, resourceId: Field<int>,
                                 planDate: Field<DateText>, finishDate: Field<DateText>)

  /** The attributes of a task that `update_task` may change. */
  datatype TaskFields = TaskFields(taskType: string, status: string, resourceId: Option<int>,
                                   planDate: Timestamp, finishDate: Option<Timestamp>,
                                   updateDate: Timestamp)

  function FieldsOf(t: Task): TaskFields
    reads t
  {
    TaskFields(t.taskType, t.status, t.resourceId, t.planDate, t.finishDate, t.updateDate)
  }

  /** A `task_type` key, when the patch has one, names one of the types. */
  predicate PatchTypeValid(p: TaskPatch)
  {
    p.taskType.IsPresent() ==> p.taskType.Value? && p.taskType.v in TaskTypes
  }

  /** A `task_status` key, when the patch has one, names one of the statuses. */
  predicate PatchStatusValid(p: TaskPatch)
  {
    p.status.IsPresent() ==> p.status.Value? && p.status.v in Statuses
  }

  /** The reason `update_task` refuses a patch, checked key by key in the
      route's order; a `null` plan date fails with 500 (`None.replace`). */
  function PatchError(p: TaskPatch, resources: set<int>): (r: Option<Failure>)
    ensures !PatchTypeValid(p) ==> r == Some(BadRequest(InvalidTaskType))
    ensures PatchTypeValid(p) && !PatchStatusValid(p) ==> r == Some(BadRequest(InvalidStatus))
    ensures PatchTypeValid(p) && PatchStatusValid(p) && !ResourceKnown(p.resourceId, resources)
      ==> r == Some(BadRequest(UnknownResource))
    ensures PatchTypeValid(p) && PatchStatusValid(p) && ResourceKnown(p.resourceId, resources) && p.planDate.Null?
      ==> r == Some(ServerError)
    ensures PatchTypeValid(p) && PatchStatusValid(p) && ResourceKnown(p.resourceId, resources) &&
            p.planDate.Value? && !p.planDate.v.Iso?
      ==> r == Some(BadRequest(BadDateFormat))
    ensures PatchTypeValid(p) && PatchStatusValid(p) && ResourceKnown(p.resourceId, resources) &&
            !p.planDate.Null? && !(p.planDate.Value? && !p.planDate.v.Iso?) && p.finishDate == Value(Malformed)
      ==> r == Some(BadRequest(BadDateFormat))
    ensures r.None? <==>
      PatchTypeValid(p) && PatchStatusValid(p) && ResourceKnown(p.resourceId, resources) &&
      (p.planDate.Absent? || (p.planDate.Value? && p.planDate.v.Iso?)) && p.finishDate != Value(Malformed)
  {
    if p.taskType.IsPresent() && !(p.taskType.Value? && p.taskType.v in TaskTypes) then
      Some(BadRequest(InvalidTaskType))
    else if p.status.IsPresent() && !(p.status.Value? && p.status.v in Statuses) then
      Some(BadRequest(InvalidStatus))
    else if !ResourceKnown(p.resourceId, resources) then Some(BadRequest(UnknownResource))
    else if p.planDate.Null? then Some(ServerError)
    else if p.planDate.Value? && !p.planDate.v.Iso? then Some(BadRequest(BadDateFormat))
    else if p.finishDate == Value(Malformed) then Some(BadRequest(BadDateFormat))
    else None
  }

  /** The finish date after a patch: an explicit `task_finish_date` key
      wins (a falsy value clears it); otherwise a move to `completed` stamps
      an unset finish date with `now`. */
  function FinishAfter(f: TaskFields, p: TaskPatch, now: Timestamp): Option<Timestamp>
  {
    if p.finishDate.IsPresent() then
      (if p.finishDate.Value? && p.finishDate.v.Iso? then Some(p.finishDate.v.t) else None)
    else if p.status == Value("completed") && f.finishDate.None? then Some(now)
    else f.finishDate
  }

  /** The attributes `update_task` leaves, or the error it fails with. */
  function Patched(f: TaskFields, p: TaskPatch, resources: set<int>, now: Timestamp): (r: Result<TaskFields, Failure>)
    ensures r.Err? <==> PatchError(p, resources).Some?
    ensures r.Err? ==> r.error == PatchError(p, resources).value
    ensures r.Ok? ==> r.value.updateDate == now
    ensures r.Ok? && p.taskType.Absent? ==> r.value.taskType == f.taskType
    ensures r.Ok? && p.status.Absent? ==> r.value.status == f.status
    ensures r.Ok? && p.resourceId.Absent? ==> r.value.resourceId == f.resourceId
    ensures r.Ok? && p.planDate.Absent? ==> r.value.planDate == f.planDate
    ensures r.Ok? && p.taskType.IsPresent() ==> r.value.taskType == p.taskType.v && p.taskType.v in TaskTypes
    ensures r.Ok? && p.status.IsPresent() ==> r.value.status == p.status.v && p.status.v in Statuses
    ensures r.Ok? && p.resourceId.IsPresent() ==> r.value.resourceId == p.resourceId.AsOption()
    ensures r.Ok? && p.planDate.IsPresent() ==> r.value.planDate == p.planDate.v.t
  {
    var e := PatchError(p, resources);
    if e.Some? then Err(e.value)
    else
      Ok(TaskFields(if p.taskType.IsPresent() then p.taskType.v else f.taskType,
                    if p.status.IsPresent() then p.status.v else f.status,
                    if p.resourceId.IsPresent() then p.resourceId.AsOption() else f.resourceId,
                    if p.planDate.IsPresent() then p.planDate.v.t else f.planDate,
                    FinishAfter(f, p, now),
                    now))
  }

  /** Completing a task stamps its finish date only if it had none: an
      existing finish date is kept, a missing one becomes `now`. */
  lemma CompletionStampsOnce(f: TaskFields, p: TaskPatch, resources: set<int>, now: Timestamp)
    requires Patched(f, p, resources, now).Ok?
    requires p.status == Value("completed") && p.finishDate.Absent?
    ensures Patched(f, p, resources, now).value.finishDate == if f.finishDate.Some? then f.finishDate else Some(now)
  {
  }

  /** An explicit finish date decides the finish date, whatever the status. */
  lemma ExplicitFinishWins(f: TaskFields, p: TaskPatch, resources: set<int>, now: Timestamp)
    requires Patched(f, p, resources, now).Ok? && p.finishDate.IsPresent()
    ensures Patched(f, p, resources, now).value.finishDate ==
      if p.finishDate.Value? && p.finishDate.v.Iso? then Some(p.finishDate.v.t) else None
  {
  }

  /** Without a status or finish-date key the finish date is kept. */
  lemma FinishDateKept(f: TaskFields, p: TaskPatch, resources: set<int>, now: Timestamp)
    requires Patched(f, p, resources, now).Ok? && p.finishDate.Absent? && p.status != Value("completed")
    ensures Patched(f, p, resources, now).value.finishDate == f.finishDate
  {
  }

  /** Sending the same patch again changes nothing but `update_date`: the
      completion stamp of the first request is not renewed. */
  lemma PatchIdempotent(f: TaskFields, p: TaskPatch, resources: set<int>, now: Timestamp, later: Timestamp)
    requires Patched(f, p, resources, now).Ok?
    ensures var once := Patched(f, p, resources, now).value;
      Patched(once, p, resources, later) == Ok(once.(updateDate := later))
  {
  }

  /** Whether a patch is refused depends on the patch alone, not on the task. */
  lemma RejectionIgnoresState(f: TaskFields, g: TaskFields, p: TaskPatch, resources: set<int>, now: Timestamp)
    ensures Patched(f, p, resources, now).Err? <==> Patched(g, p, resources, now).Err?
  {
  }

  /** The body of `update_task`, key by key as the route goes: a refused
      key ends the request, and the attributes that reach the commit are
      `Patched` of the stored ones. */
  method PatchTask(before: TaskFields, p: TaskPatch, resources: set<int>, now: Timestamp)
    returns (r: Result<TaskFields, Failure>)
    ensures r == Patched(before, p, resources, now)
  {
    var taskType, status, resourceId := before.taskType, before.status, before.resourceId;
    var planDate, finishDate := before.planDate, before.finishDate;
    if p.taskType.IsPresent() {
      if !(p.taskType.Value? && p.taskType.v in TaskTypes) {
        return Err(BadRequest(InvalidTaskType));
      }
      taskType := p.taskType.v;
    }
    if p.status.IsPresent() {
      if !(p.status.Value? && p.status.v in Statuses) {
        return Err(BadRequest(InvalidStatus));
      }
      status := p.status.v;
      if p.status.v == "completed" && finishDate.None? {
        finishDate := Some(now);
      }
    }
    if p.resourceId.IsPresent() {
      if p.resourceId.Value? && p.resourceId.v != 0 && p.resourceId.v !in resources {
        return Err(BadRequest(UnknownResource));
      }
      resourceId := p.resourceId.AsOption();
    }
    if p.planDate.IsPresent() {
      if p.planDate.Null? {
        return Err(ServerError);
      }
      if !p.planDate.v.Iso? {
        return Err(BadRequest(BadDateFormat));
      }
      planDate := p.planDate.v.t;
    }
    if p.finishDate.IsPresent() {
      if p.finishDate == Value(Malformed) {
        return Err(BadRequest(BadDateFormat));
      }
      finishDate := if p.finishDate.Value? && p.finishDate.v.Iso? then Some(p.finishDate.v.t) else None;
    }
    assert PatchError(p, resources).None?;
    assert finishDate == FinishAfter(before, p, now);
    r := Ok(TaskFields(taskType, status, resourceId, planDate, finishDate, now));
  }

  /** `PUT /tasks/<id>`: 404 unless the user owns a task with that id; a
      refused patch stores nothing; otherwise the task's attributes become
      `Patched` of the old ones and are committed. No other task and no
      other attribute changes. */
  method UpdateTask(db: Database, userId: Id, taskId: Id, p: TaskPatch, resources: set<int>, now: Timestamp)
    returns (r: Result<Task, Failure>)
    modifies db.tasks`taskType, db.tasks`status, db.tasks`resourceId, db.tasks`planDate,
             db.tasks`finishDate, db.tasks`updateDate
    ensures var k := old(FindTask(db.tasks, taskId, Some(userId)));
      if k.None? then r == Err(NotFound)
      else
        var res := Patched(old(FieldsOf(db.tasks[k.value])), p, resources, now);
        (res.Err? ==> r == Err(res.error)) &&
        (res.Ok? ==> r == Ok(db.tasks[k.value]) && FieldsOf(db.tasks[k.value]) == res.value)
    ensures forall t :: t in db.tasks && (r.Err? || t != r.value) ==> FieldsOf(t) == old(FieldsOf(t))
  {
    var k := FindTask(db.tasks, taskId, Some(userId));
    if k.None? {
      return Err(NotFound);
    }
    var task := db.tasks[k.value];
    var patched := PatchTask(FieldsOf(task), p, resources, now);
    if patched.Err? {
      return Err(patched.error);
    }
    var f := patched.value;
    task.taskType, task.status, task.resourceId := f.taskType, f.status, f.resourceId;
    task.planDate, task.finishDate, task.updateDate := f.planDate, f.finishDate, f.updateDate;
    r := Ok(task);
  }
}
