/**
 * The Checklist concept: one task list per (user, date), where the date is
 * the ISO day string the client sends.
 */
module Checklisting {
  import opened Common

  datatype Task = Task(description: string, completed: bool)

  /** `tasks[k].completed = !tasks[k].completed` on a copy of the list. */
  function ToggleAt(tasks: seq<Task>, k: nat): (r: seq<Task>)
    requires k < |tasks|
    ensures |r| == |tasks|
    ensures r[k].description == tasks[k].description && r[k].completed == !tasks[k].completed
    ensures forall i :: 0 <= i < |tasks| && i != k ==> r[i] == tasks[i]
  {
    tasks[k := tasks[k].(completed := !tasks[k].completed)]
  }

  /** Toggling the same task twice restores the list. */
  lemma ToggleTwice(tasks: seq<Task>, k: nat)
    requires k < |tasks|
    ensures ToggleAt(ToggleAt(tasks, k), k) == tasks
  {
    var once := ToggleAt(tasks, k);
    var twice := ToggleAt(once, k);
    assert twice[k] == tasks[k];
    assert forall i :: 0 <= i < |tasks| ==> twice[i] == tasks[i];
  }

  /**
   * What `parseInt(taskIndex, 10)` in the route hands the concept: an
   * integer, or NaN when the path segment does not start with digits.
   */
  datatype TaskIndex = Index(value: int) | NotANumber

  /** The message of the TypeError thrown when the task read at a NaN index is undefined. */
  const UndefinedTaskError: string := "Cannot read properties of undefined (reading 'completed')"

  /**
   * `!(taskIndex < 0 || taskIndex >= length)`: every comparison with NaN
   * is false, so NaN passes whatever the length.
   */
  function PassesRangeCheck(taskIndex: TaskIndex, length: nat): (b: bool)
    ensures taskIndex.NotANumber? ==> b
    ensures taskIndex.Index? ==> (b <==> 0 <= taskIndex.value < length)
  {
    match taskIndex
    case NotANumber => true
    case Index(i) => !(i < 0 || i >= length)
  }

  /** The range check as evidently intended: a number within the list. */
  function InRange(taskIndex: TaskIndex, length: nat): (b: bool)
    ensures b <==> taskIndex.Index? && 0 <= taskIndex.value < length
  {
    taskIndex.Index? && PassesRangeCheck(taskIndex, length)
  }

  /** `tasks.splice(taskIndex, 1)`: the start is the index, with NaN read as 0, and nothing goes when it is past the end. */
  function SpliceOne(tasks: seq<Task>, taskIndex: TaskIndex): (r: seq<Task>)
    requires PassesRangeCheck(taskIndex, |tasks|)
    ensures |r| == if tasks == [] then 0 else |tasks| - 1
    ensures taskIndex.Index? ==> r == RemoveAt(tasks, taskIndex.value)
  {
    var start := if taskIndex.NotANumber? then 0 else taskIndex.value;
    if start < |tasks| then RemoveAt(tasks, start) else tasks
  }

  /**
   * A NaN index passes the range check of any list, even an empty one, and
   * the removal it leads to drops the first task.
   */
  lemma NaNRemovesFirstTask(tasks: seq<Task>)
    ensures forall length: nat :: PassesRangeCheck(NotANumber, length)
    ensures tasks != [] ==> SpliceOne(tasks, NotANumber) == tasks[1..]
    ensures tasks == [] ==> SpliceOne(tasks, NotANumber) == []
  {
    if tasks != [] {
      assert RemoveAt(tasks, 0) == tasks[1..];
    }
  }

  /** The intended check rejects NaN and agrees with the written one on numbers. */
  lemma InRangeRefinesRangeCheck(taskIndex: TaskIndex, length: nat)
    ensures InRange(taskIndex, length) ==> PassesRangeCheck(taskIndex, length)
    ensures taskIndex.Index? ==> (InRange(taskIndex, length) <==> PassesRangeCheck(taskIndex, length))
    ensures !InRange(NotANumber, length)
  {
  }

  class ChecklistConcept {
    var userChecklist: map<(UserId, string), seq<Task>>

    constructor ()
      ensures userChecklist == map[]
    {
      userChecklist := map[];
    }

    /** `initializeChecklist`: creates an empty list only when there is none for (userId, date). */
    method InitializeChecklist(userId: UserId, date: string)
      modifies this
      ensures (userId, date) in old(userChecklist) ==> userChecklist == old(userChecklist)
      ensures (userId, date) !in old(userChecklist) ==> userChecklist == old(userChecklist)[(userId, date) := []]
    {
      if (userId, date) !in userChecklist {
        userChecklist := userChecklist[(userId, date) := []];
      }
    }

    /** `getChecklist`: the list of (userId, date), NotFoundError when there is none. */
    function GetChecklist(userId: UserId, date: string): (r: Result<seq<Task>>)
      reads this
      ensures r.Err? <==> (userId, date) !in userChecklist
      ensures r.Err? ==> r.error == NotFound
      ensures r.Ok? ==> r.value == userChecklist[(userId, date)]
    {
      if (userId, date) in userChecklist then Ok(userChecklist[(userId, date)]) else Err(NotFound)
    }

    /** `addTask`: appends one uncompleted task to an existing list. */
    method AddTask(userId: UserId, date: string, description: string) returns (r: Outcome)
      modifies this
      ensures (userId, date) !in old(userChecklist) ==> r == Fail(NotFound) && userChecklist == old(userChecklist)
      ensures (userId, date) in old(userChecklist) ==>
                && r == Pass
                && userChecklist == old(userChecklist)[(userId, date) := old(userChecklist)[(userId, date)] + [Task(description, false)]]
    {
      var checklist := GetChecklist(userId, date);
      if checklist.Err? {
        return Fail(checklist.error);
      }
      var updateTasks := checklist.value + [Task(description, false)];
      userChecklist := userChecklist[(userId, date) := updateTasks];
      r := Pass;
    }

    /**
     * `removeTask`: removes the task at `taskIndex`, the later tasks moving
     * down one place; NotFoundError for a missing list or an index the
     * range check rejects. NaN passes that check and `splice` then treats
     * it as 0.
     */
    method RemoveTask(userId: UserId, date: string, taskIndex: TaskIndex) returns (r: Outcome)
      modifies this
      ensures (userId, date) !in old(userChecklist) ==> r == Fail(NotFound) && userChecklist == old(userChecklist)
      ensures (userId, date) in old(userChecklist) && !PassesRangeCheck(taskIndex, |old(userChecklist)[(userId, date)]|) ==>
                r == Fail(NotFound) && userChecklist == old(userChecklist)
      ensures (userId, date) in old(userChecklist) && PassesRangeCheck(taskIndex, |old(userChecklist)[(userId, date)]|) ==>
                && r == Pass
                && userChecklist == old(userChecklist)[(userId, date) := SpliceOne(old(userChecklist)[(userId, date)], taskIndex)]
    {
      var checklist := GetChecklist(userId, date);
      if checklist.Err? {
        return Fail(checklist.error);
      }
      var tasks := checklist.value;
      if !PassesRangeCheck(taskIndex, |tasks|) {
        return Fail(NotFound);
      }
      tasks := SpliceOne(tasks, taskIndex);
      userChecklist := userChecklist[(userId, date) := tasks];
      r := Pass;
    }

    /**
     * `toggleTask`: flips the completion of the task at `taskIndex` only;
     * NotFoundError for a missing list or an index the range check rejects.
     * NaN passes that check and reading the task at NaN throws a TypeError.
     */
    method ToggleTask(userId: UserId, date: string, taskIndex: TaskIndex) returns (r: Outcome)
      modifies this
      ensures (userId, date) !in old(userChecklist) ==> r == Fail(NotFound) && userChecklist == old(userChecklist)
      ensures (userId, date) in old(userChecklist) && !PassesRangeCheck(taskIndex, |old(userChecklist)[(userId, date)]|) ==>
                r == Fail(NotFound) && userChecklist == old(userChecklist)
      ensures (userId, date) in old(userChecklist) && taskIndex.NotANumber? ==>
                r == Fail(Failure(UndefinedTaskError)) && userChecklist == old(userChecklist)
      ensures (userId, date) in old(userChecklist) && taskIndex.Index? && PassesRangeCheck(taskIndex, |old(userChecklist)[(userId, date)]|) ==>
                && r == Pass
                && userChecklist == old(userChecklist)[(userId, date) := ToggleAt(old(userChecklist)[(userId, date)], taskIndex.value)]
    {
      var checklist := GetChecklist(userId, date);
      if checklist.Err? {
        return Fail(checklist.error);
      }
      var tasks := checklist.value;
      if !PassesRangeCheck(taskIndex, |tasks|) {
        return Fail(NotFound);
      }
      if taskIndex.NotANumber? {
        return Fail(Failure(UndefinedTaskError));
      }
      tasks := ToggleAt(tasks, taskIndex.value);
      userChecklist := userChecklist[(userId, date) := tasks];
      r := Pass;
    }

    /** `removeTask` with the range check it evidently means: NaN is out of range too. */
    method RemoveTaskAsIntended(userId: UserId, date: string, taskIndex: TaskIndex) returns (r: Outcome)
      modifies this
      ensures (userId, date) !in old(userChecklist) ==> r == Fail(NotFound) && userChecklist == old(userChecklist)
      ensures (userId, date) in old(userChecklist) && !InRange(taskIndex, |old(userChecklist)[(userId, date)]|) ==>
                r == Fail(NotFound) && userChecklist == old(userChecklist)
      ensures (userId, date) in old(userChecklist) && InRange(taskIndex, |old(userChecklist)[(userId, date)]|) ==>
                && r == Pass
                && userChecklist == old(userChecklist)[(userId, date) := RemoveAt(old(userChecklist)[(userId, date)], taskIndex.value)]
    {
      if taskIndex.NotANumber? {
        var checklist := GetChecklist(userId, date);
        return if checklist.Err? then Fail(checklist.error) else Fail(NotFound);
      }
      r := RemoveTask(userId, date, taskIndex);
    }

    /** `toggleTask` with the range check it evidently means: NaN is out of range too. */
    method ToggleTaskAsIntended(userId: UserId, date: string, taskIndex: TaskIndex) returns (r: Outcome)
      modifies this
      ensures (userId, date) !in old(userChecklist) ==> r == Fail(NotFound) && userChecklist == old(userChecklist)
      ensures (userId, date) in old(userChecklist) && !InRange(taskIndex, |old(userChecklist)[(userId, date)]|) ==>
                r == Fail(NotFound) && userChecklist == old(userChecklist)
      ensures (userId, date) in old(userChecklist) && InRange(taskIndex, |old(userChecklist)[(userId, date)]|) ==>
                && r == Pass
                && userChecklist == old(userChecklist)[(userId, date) := ToggleAt(old(userChecklist)[(userId, date)], taskIndex.value)]
    {
      if taskIndex.NotANumber? {
        var checklist := GetChecklist(userId, date);
        return if checklist.Err? then Fail(checklist.error) else Fail(NotFound);
      }
      r := ToggleTask(userId, date, taskIndex);
    }
  }
}
