/**
 * The journey setup form: a list of daily tasks edited one entry at a time, and the
 * submission that inserts the journey and then one task row per list entry.
 */
module JourneySetup {
  import opened Wrappers
  import opened Records

  // ---------------------------------------------------------------------------
  // Trimming, as `String.prototype.trim` does it
  // ---------------------------------------------------------------------------

  /** The characters ECMAScript's `trim` strips: WhiteSpace and LineTerminator. */
  predicate IsSpace(c: char)
  {
    || c in {'\t', '\n', '\r', ' ', '\U{000B}', '\U{000C}', '\U{00A0}', '\U{1680}'}
    || c in {'\U{2028}', '\U{2029}', '\U{202F}', '\U{205F}', '\U{3000}', '\U{FEFF}'}
    || ('\U{2000}' <= c <= '\U{200A}')
  }

  /** The number of white-space characters `s` starts with. */
  function LeadingSpaces(s: string): (n: nat)
    ensures n <= |s|
    ensures forall k :: 0 <= k < n ==> IsSpace(s[k])
    ensures n < |s| ==> !IsSpace(s[n])
  {
    if s != [] && IsSpace(s[0]) then 1 + LeadingSpaces(s[1..]) else 0
  }

  /** `s` without its trailing white space: the longest prefix that does not end with white space. */
  function TrimEnd(s: string): (r: string)
    ensures |r| <= |s| && r == s[..|r|]
    ensures forall k :: |r| <= k < |s| ==> IsSpace(s[k])
    ensures r != [] ==> !IsSpace(r[|r| - 1])
  {
    if s != [] && IsSpace(s[|s| - 1]) then TrimEnd(s[..|s| - 1]) else s
  }

  /**
   * `s.trim()`: the stretch of `s` after its leading white space and before its
   * trailing white space, which neither starts nor ends with white space; empty
   * exactly when `s` is all white space.
   */
  function Trim(s: string): (r: string)
    ensures r != [] ==> !IsSpace(r[0]) && !IsSpace(r[|r| - 1])
    ensures r == [] <==> forall k :: 0 <= k < |s| ==> IsSpace(s[k])
    ensures LeadingSpaces(s) + |r| <= |s| && r == s[LeadingSpaces(s)..LeadingSpaces(s) + |r|]
    ensures forall k :: LeadingSpaces(s) + |r| <= k < |s| ==> IsSpace(s[k])
  {
    TrimEndAfterLeadingSpaces(s);
    TrimEnd(s[LeadingSpaces(s)..])
  }

  /** What stripping the trailing white space of `s` after its leading white space leaves. */
  lemma TrimEndAfterLeadingSpaces(s: string)
    ensures var n := LeadingSpaces(s); var r := TrimEnd(s[n..]);
            && (r != [] ==> !IsSpace(r[0]) && !IsSpace(r[|r| - 1]))
            && (r == [] <==> forall k :: 0 <= k < |s| ==> IsSpace(s[k]))
            && n + |r| <= |s| && r == s[n..n + |r|]
            && (forall k :: n + |r| <= k < |s| ==> IsSpace(s[k]))
  {
    var n := LeadingSpaces(s);
    var front := s[n..];
    var r := TrimEnd(front);
    forall k | n + |r| <= k < |s|
      ensures IsSpace(s[k])
    {
      assert s[k] == front[k - n];
    }
    if r != [] {
      assert r[0] == front[0] == s[n];
    }
    assert r == s[n..n + |r|];
  }

  /** Trimming a trimmed text changes nothing. */
  lemma TrimIsIdempotent(s: string)
    ensures Trim(Trim(s)) == Trim(s)
  {
    TrimmedIsFixed(Trim(s));
  }

  /** A text that neither starts nor ends with white space is its own trim. */
  lemma TrimmedIsFixed(s: string)
    requires s != [] ==> !IsSpace(s[0]) && !IsSpace(s[|s| - 1])
    ensures Trim(s) == s
  {
    assert s[LeadingSpaces(s)..] == s;
    assert TrimEnd(s) == s;
  }

  // ---------------------------------------------------------------------------
  // The task list
  // ---------------------------------------------------------------------------

  /** `tasks.filter((_, i) => i !== index)`. */
  function RemoveAt(tasks: seq<string>, index: int): seq<string>
  {
    if tasks == [] then []
    else RemoveAt(tasks[..|tasks| - 1], index) + (if |tasks| - 1 == index then [] else [tasks[|tasks| - 1]])
  }

  /** Removing drops exactly the entry at `index` and keeps the others in order; any other index changes nothing. */
  lemma {:induction false} RemoveAtRemovesExactlyOne(tasks: seq<string>, index: int)
    ensures 0 <= index < |tasks| ==> RemoveAt(tasks, index) == tasks[..index] + tasks[index + 1..]
    ensures !(0 <= index < |tasks|) ==> RemoveAt(tasks, index) == tasks
  {
    if tasks != [] {
      var init := tasks[..|tasks| - 1];
      RemoveAtRemovesExactlyOne(init, index);
      if 0 <= index < |init| {
        assert init[..index] == tasks[..index];
        assert init[index + 1..] + [tasks[|tasks| - 1]] == tasks[index + 1..];
      } else if index == |init| {
        assert tasks[..index] + tasks[index + 1..] == init;
      } else {
        assert init + [tasks[|tasks| - 1]] == tasks;
      }
    }
  }

  /** A row for `daily_tasks`. */
  datatype TaskInsert = TaskInsert(journeyId: JourneyId, taskText: string, orderIndex: int)

  /** `tasks.map((task, index) => ({ journey_id, task_text: task, order_index: index }))`. */
  function TaskInserts(journeyId: JourneyId, tasks: seq<string>): (rows: seq<TaskInsert>)
    ensures |rows| == |tasks|
    ensures forall k :: 0 <= k < |rows| ==>
              rows[k].journeyId == journeyId && rows[k].taskText == tasks[k] && rows[k].orderIndex == k
  {
    if tasks == [] then []
    else TaskInserts(journeyId, tasks[..|tasks| - 1]) + [TaskInsert(journeyId, tasks[|tasks| - 1], |tasks| - 1)]
  }

  /** Order indices are distinct and increase along the list: they are the list positions. */
  lemma TaskInsertsKeepListOrder(journeyId: JourneyId, tasks: seq<string>)
    ensures forall k, l :: 0 <= k < l < |tasks| ==>
              TaskInserts(journeyId, tasks)[k].orderIndex < TaskInserts(journeyId, tasks)[l].orderIndex
    ensures forall k :: 0 <= k < |tasks| ==> TaskInserts(journeyId, tasks)[k].orderIndex == k
  {
  }

  /** The task texts of `rows`, in the order of the rows. */
  function TaskTexts(rows: seq<TaskInsert>): (texts: seq<string>)
    ensures |texts| == |rows|
  {
    if rows == [] then [] else TaskTexts(rows[..|rows| - 1]) + [rows[|rows| - 1].taskText]
  }

  /**
   * Reading the rows back in `order_index` order (which is their order, by
   * `TaskInsertsKeepListOrder`) gives the list in the order it was edited.
   */
  lemma {:induction false} TaskInsertsRoundTrip(journeyId: JourneyId, tasks: seq<string>)
    ensures TaskTexts(TaskInserts(journeyId, tasks)) == tasks
  {
    if tasks != [] {
      var init := tasks[..|tasks| - 1];
      TaskInsertsRoundTrip(journeyId, init);
      var rows := TaskInserts(journeyId, tasks);
      assert rows[..|rows| - 1] == TaskInserts(journeyId, init);
      assert init + [tasks[|tasks| - 1]] == tasks;
    }
  }

  // ---------------------------------------------------------------------------
  // Submission
  // ---------------------------------------------------------------------------

  /** A rejection from the data store: its message, and whether it is an `Error` object. */
  datatype Failure = Failure(message: string, isError: bool)

  /** What the store answered to the journey insert: the new journey's id, or a failure. */
  datatype JourneyAnswer = Created(journeyId: JourneyId) | Rejected(failure: Failure)

  /** The message the form shows for a caught failure. */
  function ErrorMessage(f: Failure): string
  {
    if f.isError then f.message else "Failed to create journey"
  }

  /** A row for `journeys`. */
  datatype JourneyInsert = JourneyInsert(
    userId: UserId,
    title: string,
    description: string,
    durationDays: int,
    startDate: int,
    isActive: bool)

  const EmptyListError := "Add at least one daily task"

  const DefaultTasks: seq<string> := [
    "Complete one coding tutorial or lesson",
    "Build or improve a project feature",
    "Read technical documentation"
  ]

  /** A non-empty text that neither starts nor ends with white space: its own trim, by `TrimmedIsFixed`. */
  predicate IsTrimmedTask(t: string)
  {
    t != [] && !IsSpace(t[0]) && !IsSpace(t[|t| - 1])
  }

  /** Every task is non-empty and trimmed. */
  ghost predicate AllTrimmed(tasks: seq<string>)
  {
    forall k :: 0 <= k < |tasks| ==> IsTrimmedTask(tasks[k])
  }

  /** Removing an entry keeps every remaining entry non-empty and trimmed. */
  lemma RemoveAtKeepsTrimmed(tasks: seq<string>, index: int)
    requires AllTrimmed(tasks)
    ensures AllTrimmed(RemoveAt(tasks, index))
  {
    RemoveAtRemovesExactlyOne(tasks, index);
    if 0 <= index < |tasks| {
      var r := tasks[..index] + tasks[index + 1..];
      forall k | 0 <= k < |r|
        ensures IsTrimmedTask(r[k])
      {
        if k < index {
          assert r[k] == tasks[k];
        } else {
          assert r[k] == tasks[k + 1];
        }
      }
    }
  }

  /** The form's state. */
  class JourneySetupForm {
    var title: string
    var description: string
    var durationDays: int
    var tasks: seq<string>
    var newTask: string
    var loading: bool
    var error: string

    constructor()
      ensures title == "Master Front-End Development"
      ensures description == "Commit to daily practice and consistent learning"
      ensures durationDays == 90 && tasks == DefaultTasks && AllTrimmed(tasks)
      ensures newTask == "" && !loading && error == ""
    {
      title := "Master Front-End Development";
      description := "Commit to daily practice and consistent learning";
      durationDays := 90;
      tasks := DefaultTasks;
      newTask := "";
      loading := false;
      error := "";
    }

    /** `addTask`: a non-blank input is appended trimmed and the input is cleared; a blank one is ignored. */
    method AddTask()
      modifies this
      ensures Trim(old(newTask)) != [] ==> tasks == old(tasks) + [Trim(old(newTask))] && newTask == ""
      ensures Trim(old(newTask)) == [] ==> tasks == old(tasks) && newTask == old(newTask)
      ensures title == old(title) && description == old(description) && durationDays == old(durationDays)
      ensures loading == old(loading) && error == old(error)
      ensures old(AllTrimmed(tasks)) ==> AllTrimmed(tasks)
    {
      var trimmed := Trim(newTask);
      if trimmed != [] {
        tasks := tasks + [trimmed];
        newTask := "";
      }
    }

    /** `removeTask`: the entry at `index` is dropped. */
    method RemoveTask(index: int)
      modifies this
      ensures tasks == RemoveAt(old(tasks), index)
      ensures title == old(title) && description == old(description) && durationDays == old(durationDays)
      ensures newTask == old(newTask) && loading == old(loading) && error == old(error)
      ensures old(AllTrimmed(tasks)) ==> AllTrimmed(tasks)
    {
      if AllTrimmed(tasks) {
        RemoveAtKeepsTrimmed(tasks, index);
      }
      tasks := RemoveAt(tasks, index);
    }

    /**
     * `handleSubmit`, given the store's answers: with an empty list only the error is
     * set; otherwise the journey row is sent, the task rows are sent only once the
     * journey was created, and `onComplete` runs (`completed`) only when both inserts
     * succeeded. A rejection's message ends up in `error`.
     */
    method HandleSubmit(userId: UserId, today: int, journeyAnswer: JourneyAnswer, tasksFailure: Option<Failure>)
      returns (journeyRow: Option<JourneyInsert>, taskRows: Option<seq<TaskInsert>>, completed: bool)
      modifies this
      ensures title == old(title) && description == old(description) && durationDays == old(durationDays)
      ensures tasks == old(tasks) && newTask == old(newTask)
      ensures tasks == [] ==>
                error == EmptyListError && loading == old(loading)
                && journeyRow.None? && taskRows.None? && !completed
      ensures tasks != [] ==>
                !loading && journeyRow == Some(JourneyInsert(userId, title, description, durationDays, today, true))
      ensures taskRows.Some? <==> tasks != [] && journeyAnswer.Created?
      ensures taskRows.Some? ==> taskRows.value == TaskInserts(journeyAnswer.journeyId, tasks)
      ensures completed <==> tasks != [] && journeyAnswer.Created? && tasksFailure.None?
      ensures tasks != [] ==>
                error == if journeyAnswer.Rejected? then ErrorMessage(journeyAnswer.failure)
                         else if tasksFailure.Some? then ErrorMessage(tasksFailure.value)
                         else ""
    {
      journeyRow, taskRows, completed := None, None, false;
      if |tasks| == 0 {
        error := EmptyListError;
        return;
      }
      loading := true;
      error := "";
      journeyRow := Some(JourneyInsert(userId, title, description, durationDays, today, true));
      match journeyAnswer {
        case Rejected(f) =>
          error := ErrorMessage(f);
        case Created(journeyId) =>
          var taskInserts := TaskInserts(journeyId, tasks);
          taskRows := Some(taskInserts);
          if tasksFailure.Some? {
            error := ErrorMessage(tasksFailure.value);
          } else {
            completed := true;
          }
      }
      loading := false;
    }
  }
}
