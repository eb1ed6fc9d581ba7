/** The rows the scheduling routes create and update: tasks, their task items,
    and the store that holds both. A task is an object whose attributes the
    routes assign in place, as the ORM objects of the application are; a task
    item is a row value that an update replaces. */
module Models {
  import opened Common
  import opened Calendar

  /** A score; only whether it is NULL matters to the scheduler. */
  type Score = real

  /** A row of `tasks`. `taskNum`, `finishedTaskNum`, `cycleType` and
      `weekDays` are attributes the routes read and write although the table
      declares no such columns. */
  class Task {
    var id: Id
    var userId: Id
    var resourceId: Option<int>
    var taskType: string
    var cycleType: Option<string>
    var weekDays: Option<string>
    var planDate: Timestamp
    var finishDate: Option<Timestamp>
    var status: string
    var taskNum: int
    var finishedTaskNum: int
    var createDate: Timestamp
    var updateDate: Timestamp

    /** A new task as `create_task` builds it: no item counted yet, and
        `create_date` = `update_date` = the insertion time. */
    constructor (id: Id, userId: Id, resourceId: Option<int>, taskType: string,
                 cycleType: Option<string>, weekDays: Option<string>, planDate: Timestamp,
                 finishDate: Option<Timestamp>, status: string, created: Timestamp)
      ensures this.id == id && this.userId == userId && this.resourceId == resourceId
      ensures this.taskType == taskType && this.cycleType == cycleType && this.weekDays == weekDays
      ensures this.planDate == planDate && this.finishDate == finishDate && this.status == status
      ensures this.taskNum == 0 && this.finishedTaskNum == 0
      ensures this.createDate == created && this.updateDate == created
    {
      this.id, this.userId, this.resourceId := id, userId, resourceId;
      this.taskType, this.cycleType, this.weekDays := taskType, cycleType, weekDays;
      this.planDate, this.finishDate, this.status := planDate, finishDate, status;
      this.taskNum, this.finishedTaskNum := 0, 0;
      this.createDate, this.updateDate := created, created;
    }
  }

  /** A row of `task_items`, as a value: an update of its attributes is a
      new row value stored in its place. `taskId` is the relationship to the
      parent task (`task_item.task` is the task whose `id` it names). */
  datatype TaskItem = TaskItem(id: nat, userId: Id, taskId: Id, resourceId: Option<int>,
                               planTime: Option<Timestamp>, beginTime: Option<Timestamp>,
                               endTime: Option<Timestamp>, score: Option<Score>)

  /** What a new item copies from its task: owner, task id and resource. */
  datatype Origin = Origin(userId: Id, taskId: Id, resourceId: Option<int>)

  function OriginOf(task: Task): Origin
    reads task
  {
    Origin(task.userId, task.id, task.resourceId)
  }

  /** The item planned at `t` for a task of origin `o`, under row id `id`:
      begin time, end time and score unset. */
  function NewItem(id: nat, o: Origin, t: Timestamp): TaskItem
  {
    TaskItem(id, o.userId, o.taskId, o.resourceId, Some(t), None, None, None)
  }

  /** One new item per date, in order, with consecutive row ids from `first`. */
  function NewItems(first: nat, o: Origin, dates: seq<Timestamp>): (r: seq<TaskItem>)
    ensures |r| == |dates|
  {
    seq(|dates|, k requires 0 <= k < |dates| => NewItem(first + k, o, dates[k]))
  }

  /** The `k`-th new item is planned for the `k`-th date under id `first + k`. */
  lemma NewItemsAt(first: nat, o: Origin, dates: seq<Timestamp>, k: nat)
    requires k < |dates|
    ensures NewItems(first, o, dates)[k] == NewItem(first + k, o, dates[k])
  {
  }

  /** One more date adds one more item, numbered next. */
  lemma NewItemsSnoc(first: nat, o: Origin, dates: seq<Timestamp>, t: Timestamp)
    ensures NewItems(first, o, dates + [t]) == NewItems(first, o, dates) + [NewItem(first + |dates|, o, t)]
  {
    var l := NewItems(first, o, dates + [t]);
    var r := NewItems(first, o, dates) + [NewItem(first + |dates|, o, t)];
    forall k | 0 <= k < |l| ensures l[k] == r[k] {
      if k < |dates| {
        assert (dates + [t])[k] == dates[k];
      }
    }
  }

  /** The items of two runs of dates are the items of each run, the second
      numbered on from the first. */
  lemma NewItemsConcat(first: nat, o: Origin, a: seq<Timestamp>, b: seq<Timestamp>)
    ensures NewItems(first, o, a + b) == NewItems(first, o, a) + NewItems(first + |a|, o, b)
  {
    var l := NewItems(first, o, a + b);
    var r := NewItems(first, o, a) + NewItems(first + |a|, o, b);
    forall k | 0 <= k < |l| ensures l[k] == r[k] {
      if k < |a| {
        assert (a + b)[k] == a[k];
      } else {
        assert (a + b)[k] == b[k - |a|];
      }
    }
  }

  /** A table that grew by the items of `dates` and then by the item of `t`
      grew by the items of `dates + [t]`. */
  lemma TableSnoc(base: seq<TaskItem>, first: nat, o: Origin, dates: seq<Timestamp>, t: Timestamp,
                  table: seq<TaskItem>)
    requires table == base + NewItems(first, o, dates) + [NewItem(first + |dates|, o, t)]
    ensures table == base + NewItems(first, o, dates + [t])
  {
    NewItemsSnoc(first, o, dates, t);
    assert base + NewItems(first, o, dates) + [NewItem(first + |dates|, o, t)]
        == base + (NewItems(first, o, dates) + [NewItem(first + |dates|, o, t)]);
  }

  /** A table that grew by the items of `dates` and then by those of `row`
      grew by the items of `dates + row`. */
  lemma TableGrowth(base: seq<TaskItem>, first: nat, o: Origin, dates: seq<Timestamp>, row: seq<Timestamp>,
                    table: seq<TaskItem>)
    requires table == base + NewItems(first, o, dates) + NewItems(first + |dates|, o, row)
    ensures table == base + NewItems(first, o, dates + row)
  {
    NewItemsConcat(first, o, dates, row);
    assert base + NewItems(first, o, dates) + NewItems(first + |dates|, o, row)
        == base + (NewItems(first, o, dates) + NewItems(first + |dates|, o, row));
  }

  /** Row ids that increase along the table and are all below `next`. */
  predicate WellNumbered(items: seq<TaskItem>, next: nat)
  {
    (forall i :: 0 <= i < |items| ==> items[i].id < next) &&
    (forall i, j :: 0 <= i < j < |items| ==> items[i].id < items[j].id)
  }

  /** Appending new items numbered from `next` keeps the numbering. */
  lemma WellNumberedAppend(items: seq<TaskItem>, next: nat, o: Origin, dates: seq<Timestamp>)
    requires WellNumbered(items, next)
    ensures WellNumbered(items + NewItems(next, o, dates), next + |dates|)
  {
    var r := items + NewItems(next, o, dates);
    forall i | |items| <= i < |r| ensures r[i].id == next + (i - |items|) {
      NewItemsAt(next, o, dates, i - |items|);
    }
  }

  /** The persisted tables, as far as the scheduler touches them, and the
      next row id of `task_items`. A route either commits all its changes or,
      on failure, leaves everything as it was. */
  class Database {
    var tasks: seq<Task>
    var items: seq<TaskItem>
    var nextItemId: nat

    /** Item ids increase along the table and are all below `nextItemId`. */
    predicate Valid()
      reads this
    {
      WellNumbered(items, nextItemId)
    }
  }

  /** A task with id `id`, owned by `owner` when one is given. */
  predicate TaskMatches(t: Task, id: Id, owner: Option<Id>)
    reads t
  {
    t.id == id && (owner.None? || t.userId == owner.value)
  }

  /** `Task.query.filter_by(id=..., user_id=...).first()` (with an owner) and
      the `task_item.task` relationship (without one): the position of the
      first matching task, if any. */
  function FindTask(tasks: seq<Task>, id: Id, owner: Option<Id>): (r: Option<nat>)
    reads tasks
    ensures r.Some? ==> r.value < |tasks| && TaskMatches(tasks[r.value], id, owner)
    ensures r.None? ==> forall i :: 0 <= i < |tasks| ==> !TaskMatches(tasks[i], id, owner)
  {
    FindTaskFrom(tasks, id, owner, 0)
  }

  function FindTaskFrom(tasks: seq<Task>, id: Id, owner: Option<Id>, from: nat): (r: Option<nat>)
    requires from <= |tasks|
    reads tasks
    ensures r.Some? ==> from <= r.value < |tasks| && TaskMatches(tasks[r.value], id, owner)
    ensures r.None? ==> forall i :: from <= i < |tasks| ==> !TaskMatches(tasks[i], id, owner)
    decreases |tasks| - from
  {
    if from == |tasks| then None
    else if TaskMatches(tasks[from], id, owner) then Some(from)
    else FindTaskFrom(tasks, id, owner, from + 1)
  }
}
