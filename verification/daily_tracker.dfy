/**
 * The per-day task list: one completion record per task for the selected date,
 * kept in a map keyed by task, and the three-way toggle behind the two buttons
 * of each task.
 */
module DailyTracker {
  import opened Wrappers
  import opened Records

  /** A `task_completions` row as `select('*')` returns it; dates are day numbers. */
  datatype TaskCompletion = TaskCompletion(
    id: RowId,
    dailyTaskId: TaskId,
    journeyId: JourneyId,
    userId: UserId,
    completionDate: int,
    status: Status)

  /** The `completions` state: task id -> its record for the selected date. */
  type CompletionMap = map<TaskId, TaskCompletion>

  /** Every record is filed under its own task. */
  ghost predicate KeyedByTask(m: CompletionMap)
  {
    forall t :: t in m ==> m[t].dailyTaskId == t
  }

  /** `new Map(completionsData.map(c => [c.daily_task_id, c]))`. */
  function MapByTask(rows: seq<TaskCompletion>): (m: CompletionMap)
    ensures KeyedByTask(m)
  {
    if rows == [] then map[]
    else
      var last := rows[|rows| - 1];
      MapByTask(rows[..|rows| - 1])[last.dailyTaskId := last]
  }

  /** The loaded map has an entry for a task exactly when some row references it. */
  lemma {:induction false} MapByTaskKeys(rows: seq<TaskCompletion>)
    ensures forall t :: t in MapByTask(rows) <==> exists i :: 0 <= i < |rows| && rows[i].dailyTaskId == t
  {
    if rows != [] {
      var init := rows[..|rows| - 1];
      var last := rows[|rows| - 1];
      MapByTaskKeys(init);
      var m := MapByTask(rows);
      assert m == MapByTask(init)[last.dailyTaskId := last];
      forall t
        ensures t in m <==> exists i :: 0 <= i < |rows| && rows[i].dailyTaskId == t
      {
        if t == last.dailyTaskId {
          assert rows[|rows| - 1].dailyTaskId == t;
        } else if t in m {
          var i :| 0 <= i < |init| && init[i].dailyTaskId == t;
          assert rows[i].dailyTaskId == t;
        }
      }
    }
  }

  /** No later row references the task of row `i`. */
  ghost predicate IsLastForTask(rows: seq<TaskCompletion>, i: int)
    requires 0 <= i < |rows|
  {
    forall j :: i < j < |rows| ==> rows[j].dailyTaskId != rows[i].dailyTaskId
  }

  /** For a task referenced by several rows, the loaded map holds the LAST of them. */
  lemma {:induction false} MapByTaskKeepsLastRow(rows: seq<TaskCompletion>)
    ensures forall i :: 0 <= i < |rows| && IsLastForTask(rows, i) ==>
              rows[i].dailyTaskId in MapByTask(rows) && MapByTask(rows)[rows[i].dailyTaskId] == rows[i]
  {
    if rows != [] {
      var init := rows[..|rows| - 1];
      var last := rows[|rows| - 1];
      MapByTaskKeepsLastRow(init);
      var m := MapByTask(rows);
      assert m == MapByTask(init)[last.dailyTaskId := last];
      forall i | 0 <= i < |rows| && IsLastForTask(rows, i)
        ensures rows[i].dailyTaskId in m && m[rows[i].dailyTaskId] == rows[i]
      {
        if i < |init| {
          assert init[i] == rows[i];
          assert last.dailyTaskId != rows[i].dailyTaskId;
          assert IsLastForTask(init, i) by {
            forall j | i < j < |init|
              ensures init[j].dailyTaskId != init[i].dailyTaskId
            {
              assert init[j] == rows[j];
            }
          }
        }
      }
    }
  }

  /** What a task's cell shows: nothing, or the status of its record. */
  datatype Cell = Absent | Marked(status: Status)

  function CellOf(m: CompletionMap, taskId: TaskId): Cell
  {
    if taskId in m then Marked(m[taskId].status) else Absent
  }

  /**
   * The three-state machine of a cell: clicking the status it already shows clears
   * it, clicking the other status switches it, and clicking on an empty cell marks it
   * when the store returned the inserted row.
   */
  function Transition(c: Cell, clicked: Status, inserted: bool): Cell
  {
    match c
    case Absent => if inserted then Marked(clicked) else Absent
    case Marked(s) => if s == clicked then Absent else Marked(clicked)
  }

  /** The new `completions` map after a click on `status` for `taskId`. */
  function Toggle(m: CompletionMap, taskId: TaskId, status: Status, insertedRow: Option<TaskCompletion>): (r: CompletionMap)
    ensures forall t :: t != taskId ==> (t in r <==> t in m) && (t in m ==> r[t] == m[t])
    ensures taskId in m && m[taskId].status != status ==> taskId in r && r[taskId] == m[taskId].(status := status)
  {
    if taskId in m then
      if m[taskId].status == status then m - {taskId}
      else m[taskId := m[taskId].(status := status)]
    else if insertedRow.Some? then m[taskId := insertedRow.value]
    else m
  }

  /** A click moves the clicked cell along the three-state machine and leaves every other cell alone. */
  lemma ToggleFollowsTransition(m: CompletionMap, taskId: TaskId, status: Status, insertedRow: Option<TaskCompletion>, t: TaskId)
    requires insertedRow.Some? ==> insertedRow.value.status == status
    ensures CellOf(Toggle(m, taskId, status, insertedRow), t) ==
              if t == taskId then Transition(CellOf(m, taskId), status, insertedRow.Some?) else CellOf(m, t)
  {
  }

  /** A click keeps every record filed under its own task. */
  lemma ToggleKeepsKeying(m: CompletionMap, taskId: TaskId, status: Status, insertedRow: Option<TaskCompletion>)
    requires KeyedByTask(m)
    requires insertedRow.Some? ==> insertedRow.value.dailyTaskId == taskId
    ensures KeyedByTask(Toggle(m, taskId, status, insertedRow))
  {
  }

  /** Clicking the same status twice on an empty cell, with the insert answered, returns to the old map. */
  lemma ToggleTwiceRestores(m: CompletionMap, taskId: TaskId, status: Status, row: TaskCompletion, later: Option<TaskCompletion>)
    requires taskId !in m && row.status == status
    ensures Toggle(Toggle(m, taskId, status, Some(row)), taskId, status, later) == m
  {
    assert Toggle(m, taskId, status, Some(row)) - {taskId} == m;
  }

  /** The row the insert returns, when the user is known and the store answered with its id. */
  function InsertedRow(insertedId: Option<RowId>, user: Option<UserId>, taskId: TaskId, journeyId: JourneyId,
                       date: int, status: Status): (r: Option<TaskCompletion>)
    ensures r.Some? <==> insertedId.Some? && user.Some?
    ensures r.Some? ==> r.value.dailyTaskId == taskId && r.value.status == status && r.value.completionDate == date
  {
    if insertedId.Some? && user.Some? then
      Some(TaskCompletion(insertedId.value, taskId, journeyId, user.value, date, status))
    else None
  }

  /** The tracker for one journey and one selected date, with its loaded state. */
  class Tracker {
    var journeyId: JourneyId
    var selectedDate: int
    var tasks: seq<DailyTask>
    var completions: CompletionMap
    var loading: bool

    ghost predicate Valid()
      reads this
    {
      KeyedByTask(completions)
    }

    constructor(journeyId: JourneyId, selectedDate: int)
      ensures Valid()
      ensures this.journeyId == journeyId && this.selectedDate == selectedDate
      ensures tasks == [] && completions == map[] && loading
    {
      this.journeyId := journeyId;
      this.selectedDate := selectedDate;
      tasks := [];
      completions := map[];
      loading := true;
    }

    /**
     * `loadTasksAndCompletions`, given what the two queries returned: the tasks are
     * replaced when the first query answered, the map only when both answered.
     */
    method LoadTasksAndCompletions(tasksData: Option<seq<DailyTask>>, completionsData: Option<seq<TaskCompletion>>)
      requires Valid()
      modifies this
      ensures Valid() && !loading
      ensures journeyId == old(journeyId) && selectedDate == old(selectedDate)
      ensures tasks == if tasksData.Some? then tasksData.value else old(tasks)
      ensures completions ==
                if tasksData.Some? && completionsData.Some? then MapByTask(completionsData.value) else old(completions)
    {
      loading := true;
      if tasksData.Some? {
        tasks := tasksData.value;
        if completionsData.Some? {
          completions := MapByTask(completionsData.value);
        }
      }
      loading := false;
    }

    /**
     * `handleTaskStatus`: the delete and the update are sent and their answers are not
     * looked at; the insert changes the map only when it returned the new row. Without
     * a signed-in user the insert cannot be built, the error is caught, nothing changes
     * and `onUpdate` is not called; `updated` says whether it was.
     */
    method HandleTaskStatus(taskId: TaskId, status: Status, user: Option<UserId>, insertedId: Option<RowId>)
      returns (updated: bool)
      requires Valid()
      modifies this
      ensures Valid()
      ensures journeyId == old(journeyId) && selectedDate == old(selectedDate)
      ensures tasks == old(tasks) && loading == old(loading)
      ensures completions == Toggle(old(completions), taskId, status,
                                    InsertedRow(insertedId, user, taskId, journeyId, selectedDate, status))
      ensures updated <==> taskId in old(completions) || user.Some?
    {
      ToggleKeepsKeying(completions, taskId, status,
                        InsertedRow(insertedId, user, taskId, journeyId, selectedDate, status));
      if taskId in completions {
        var existing := completions[taskId];
        if existing.status == status {
          completions := completions - {taskId};
        } else {
          completions := completions[taskId := existing.(status := status)];
        }
        updated := true;
      } else {
        if user.None? {
          updated := false;
          return;
        }
        if insertedId.Some? {
          var data := TaskCompletion(insertedId.value, taskId, journeyId, user.value, selectedDate, status);
          completions := completions[taskId := data];
        }
        updated := true;
      }
    }

    /** `getTaskStatus`: the status of the task's record, or nothing when it has none. */
    function GetTaskStatus(taskId: TaskId): (r: Option<Status>)
      reads this
      ensures r.None? <==> CellOf(completions, taskId) == Absent
      ensures r.Some? ==> CellOf(completions, taskId) == Marked(r.value)
    {
      if taskId in completions then Some(completions[taskId].status) else None
    }
  }
}
