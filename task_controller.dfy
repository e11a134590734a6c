/** The task handlers of controllers/task-controller.js: adding, editing and
    resetting the viewed day's tasks, and the subtask checklist whose
    completion drives a task's progress. */
module TaskController {
  import opened JsSemantics
  import opened Records

  // ---------------------------------------------------------------------------
  // Progress from subtasks

  function CompletedCount(subtasks: seq<Subtask>): (c: nat)
    ensures c <= |subtasks|
    ensures c == 0 <==> forall k :: 0 <= k < |subtasks| ==> !subtasks[k].completed
    ensures c == |subtasks| <==> forall k :: 0 <= k < |subtasks| ==> subtasks[k].completed
  {
    if subtasks == [] then 0
    else CompletedCount(subtasks[1..]) + (if subtasks[0].completed then 1 else 0)
  }

  /** `updateDailyProgressFromSubtasks`: with subtasks, progress becomes the
      rounded percentage of completed ones; without, it is left alone. */
  function Recomputed(t: Task): (r: Task)
    ensures r.(progress := t.progress) == t
    ensures |t.subtasks| == 0 ==> r == t
  {
    if |t.subtasks| > 0 then t.(progress := Some(RoundDiv(100 * CompletedCount(t.subtasks), |t.subtasks|))) else t
  }

  /** The recomputed progress lies in [0, 100]; it is 100 when every subtask
      is done and 0 when none is. The converse holds only up to rounding: 100
      means at least 99.5% done, 0 means under 0.5% done. */
  lemma RecomputedProgressBounds(t: Task)
    requires |t.subtasks| > 0
    ensures Recomputed(t).progress.Some?
    ensures var p := Recomputed(t).progress.value; var c := CompletedCount(t.subtasks); var n := |t.subtasks|;
      0 <= p <= 100
      && (c == n ==> p == 100) && (c == 0 ==> p == 0)
      && (p == 100 <==> 200 * c >= 199 * n) && (p == 0 <==> 200 * c < n)
  {
    RoundedPercent(CompletedCount(t.subtasks), |t.subtasks|);
  }

  // ---------------------------------------------------------------------------
  // Subtask list changes

  /** `subtasks.find(st => st.id === id)`, as an index or -1. */
  function FindSubtask(subtasks: seq<Subtask>, id: string): (j: int)
    ensures -1 <= j < |subtasks|
    ensures j == -1 <==> forall k :: 0 <= k < |subtasks| ==> subtasks[k].id != id
    ensures j >= 0 ==> subtasks[j].id == id && forall k :: 0 <= k < j ==> subtasks[k].id != id
  {
    if subtasks == [] then -1
    else if subtasks[0].id == id then 0
    else var k := FindSubtask(subtasks[1..], id); if k < 0 then -1 else k + 1
  }

  /** `subtasks.filter(st => st.id !== id)`. */
  function RemoveSubtasks(subtasks: seq<Subtask>, id: string): (r: seq<Subtask>)
    ensures |r| <= |subtasks|
    ensures forall s :: s in r <==> s in subtasks && s.id != id
    ensures (forall k :: 0 <= k < |subtasks| ==> subtasks[k].id != id) ==> r == subtasks
  {
    if subtasks == [] then []
    else (if subtasks[0].id == id then [] else [subtasks[0]]) + RemoveSubtasks(subtasks[1..], id)
  }

  /** The filter works element by element, so it keeps the remaining
      subtasks in their order: filtering a concatenation is concatenating
      the filtered parts. */
  lemma {:induction false} RemoveSubtasksConcat(a: seq<Subtask>, b: seq<Subtask>, id: string)
    ensures RemoveSubtasks(a + b, id) == RemoveSubtasks(a, id) + RemoveSubtasks(b, id)
  {
    if a == [] {
      assert a + b == b;
    } else {
      assert (a + b)[1..] == a[1..] + b;
      RemoveSubtasksConcat(a[1..], b, id);
    }
  }

  // ---------------------------------------------------------------------------
  // The day's task list

  class DailyTasks {
    /** The viewed day's tasks. */
    var tasks: seq<Task>

    constructor (tasks: seq<Task>)
      ensures this.tasks == tasks
    {
      this.tasks := tasks;
    }

    /** `addDailyTaskUI`: a blank entry (after trimming) adds nothing;
        otherwise a fresh task in that quadrant, at no progress, with a
        stopped empty timer and no subtasks, goes at the end. */
    method AddDailyTask(quadrant: int, input: string, newId: string)
      modifies this`tasks
      ensures Trim(input) == "" ==> tasks == old(tasks)
      ensures Trim(input) != "" ==>
        tasks == old(tasks) + [Task(newId, Trim(input), quadrant, Some(0), Some(ZeroTimer), [], 0, None)]
    {
      var val := Trim(input);
      if val == "" {
        return;
      }
      tasks := tasks + [Task(newId, val, quadrant, Some(0), Some(Timer(0, false, None, 0, None)), [], 0, None)];
    }

    /** `updateDailyText`: the first task with that id takes the new text. */
    method UpdateDailyText(id: string, txt: string)
      modifies this`tasks
      ensures var i := FindTask(old(tasks), id);
        if i >= 0 && old(tasks)[i].content != txt then tasks == old(tasks)[i := old(tasks)[i].(content := txt)]
        else tasks == old(tasks)
    {
      var i := FindTask(tasks, id);
      if i >= 0 && tasks[i].content != txt {
        tasks := tasks[i := tasks[i].(content := txt)];
      }
    }

    /** `resetTask`: progress back to 0. */
    method ResetTask(id: string)
      modifies this`tasks
      ensures var i := FindTask(old(tasks), id);
        if i >= 0 then tasks == old(tasks)[i := old(tasks)[i].(progress := Some(0))] else tasks == old(tasks)
    {
      var i := FindTask(tasks, id);
      if i >= 0 {
        tasks := tasks[i := tasks[i].(progress := Some(0))];
      }
    }

    /** `addSubtaskUI`: a blank entry adds nothing; otherwise one open
        subtask is appended and the progress recomputed. */
    method AddSubtask(taskId: string, input: string, newId: string)
      modifies this`tasks
      ensures var i := FindTask(old(tasks), taskId);
        if Trim(input) != "" && i >= 0
        then tasks == old(tasks)[i := Recomputed(old(tasks)[i].(subtasks := old(tasks)[i].subtasks + [Subtask(newId, Trim(input), false)]))]
        else tasks == old(tasks)
    {
      var val := Trim(input);
      if val == "" {
        return;
      }
      var i := FindTask(tasks, taskId);
      if i >= 0 {
        var t := tasks[i].(subtasks := tasks[i].subtasks + [Subtask(newId, val, false)]);
        tasks := tasks[i := Recomputed(t)];
      }
    }

    /** `toggleSubtaskCompletion`: the first subtask with that id flips and the
        progress is recomputed. */
    method ToggleSubtask(taskId: string, subtaskId: string)
      modifies this`tasks
      ensures var i := FindTask(old(tasks), taskId);
        var j := if i >= 0 then FindSubtask(old(tasks)[i].subtasks, subtaskId) else -1;
        if j >= 0
        then tasks == old(tasks)[i := Recomputed(old(tasks)[i].(subtasks := old(tasks)[i].subtasks[j := old(tasks)[i].subtasks[j].(completed := !old(tasks)[i].subtasks[j].completed)]))]
        else tasks == old(tasks)
    {
      var i := FindTask(tasks, taskId);
      if i < 0 {
        return;
      }
      var subs := tasks[i].subtasks;
      var j := FindSubtask(subs, subtaskId);
      if j >= 0 {
        subs := subs[j := subs[j].(completed := !subs[j].completed)];
        tasks := tasks[i := Recomputed(tasks[i].(subtasks := subs))];
      }
    }

    /** `deleteSubtask`: every subtask with that id goes and the progress is
        recomputed (kept as it was if none remain). */
    method DeleteSubtask(taskId: string, subtaskId: string)
      modifies this`tasks
      ensures var i := FindTask(old(tasks), taskId);
        if i >= 0 then tasks == old(tasks)[i := Recomputed(old(tasks)[i].(subtasks := RemoveSubtasks(old(tasks)[i].subtasks, subtaskId)))]
        else tasks == old(tasks)
    {
      var i := FindTask(tasks, taskId);
      if i >= 0 {
        tasks := tasks[i := Recomputed(tasks[i].(subtasks := RemoveSubtasks(tasks[i].subtasks, subtaskId)))];
      }
    }
  }

  // ---------------------------------------------------------------------------
  // Properties of the handlers' effects

  /** Toggling twice restores the checklist, and so the progress when there
      are subtasks. */
  lemma ToggleTwiceRestores(t: Task, j: nat)
    requires j < |t.subtasks|
    ensures var s := t.subtasks;
      var once := Recomputed(t.(subtasks := s[j := s[j].(completed := !s[j].completed)]));
      var s1 := once.subtasks;
      Recomputed(once.(subtasks := s1[j := s1[j].(completed := !s1[j].completed)])) == Recomputed(t)
  {
    var s := t.subtasks;
    assert s[j := s[j].(completed := !s[j].completed)][j := s[j]] == s;
  }

  /** Deleting every subtask leaves the progress as it was. */
  lemma DeleteAllSubtasksKeepsProgress(t: Task, id: string)
    requires forall k :: 0 <= k < |t.subtasks| ==> t.subtasks[k].id == id
    ensures Recomputed(t.(subtasks := RemoveSubtasks(t.subtasks, id))).progress == t.progress
  {
  }
}
