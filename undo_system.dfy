/** The single-slot undo of undo-system.js: the last deletion or move of a
    day task can be taken back until the next one replaces it or five seconds
    pass. */
module UndoSystem {
  import opened JsSemantics
  import opened Records

  /** `appData.undoState`: what `pushUndo` records. */
  datatype UndoState =
    | DeleteTask(task: Task, date: string)
    | MoveTask(taskId: string, fromDate: string, fromQuadrant: int, toQuadrant: int)

  /** What undoing `state` does to the loaded days: a deleted task goes back
      at the end of its day's list; a moved task gets its old quadrant back.
      A day that is not loaded, or a task no longer there, is left alone. */
  function Undone(dailyData: map<string, seq<Task>>, state: UndoState): (r: map<string, seq<Task>>)
    ensures r.Keys == dailyData.Keys
    ensures forall d :: d in dailyData && d != (if state.DeleteTask? then state.date else state.fromDate) ==> r[d] == dailyData[d]
    ensures state.DeleteTask? && state.date in dailyData ==> r[state.date] == dailyData[state.date] + [state.task]
    ensures state.MoveTask? && state.fromDate in dailyData ==>
      var tasks := dailyData[state.fromDate];
      var i := FindTask(tasks, state.taskId);
      r[state.fromDate] == if i >= 0 then tasks[i := tasks[i].(quadrant := state.fromQuadrant)] else tasks
    ensures state.DeleteTask? && state.date !in dailyData ==> r == dailyData
    ensures state.MoveTask? && state.fromDate !in dailyData ==> r == dailyData
  {
    match state
    case DeleteTask(task, date) =>
      if date in dailyData then dailyData[date := dailyData[date] + [task]] else dailyData
    case MoveTask(taskId, fromDate, fromQuadrant, _) =>
      if fromDate in dailyData then
        var tasks := dailyData[fromDate];
        var i := FindTask(tasks, taskId);
        if i >= 0 then dailyData[fromDate := tasks[i := tasks[i].(quadrant := fromQuadrant)]] else dailyData
      else dailyData
  }

  class UndoBuffer {
    /** `appData.undoState`; None is null. */
    var undoState: Option<UndoState>
    /** The loaded days' task lists (`weekData.dailyData`), by date. */
    var dailyData: map<string, seq<Task>>

    constructor (dailyData: map<string, seq<Task>>)
      ensures undoState.None? && this.dailyData == dailyData
    {
      undoState := None;
      this.dailyData := dailyData;
    }

    /** A change to a loaded day's list made elsewhere, which the buffer sees
        because the list is shared. */
    method StoreDay(date: string, tasks: seq<Task>)
      modifies this`dailyData
      ensures dailyData == old(dailyData)[date := tasks]
    {
      dailyData := dailyData[date := tasks];
    }

    /** `pushUndo`: the new state replaces whatever was there. */
    method PushUndo(state: UndoState)
      modifies this`undoState
      ensures undoState == Some(state)
    {
      undoState := Some(state);
    }

    /** The five-second timeout of the latest `pushUndo` (an earlier one is
        cancelled by the next push): the state is dropped. */
    method Expire()
      modifies this`undoState
      ensures undoState.None?
    {
      undoState := None;
    }

    /** `performUndo`: without a state nothing happens; otherwise the state
        is undone and dropped. */
    method PerformUndo()
      modifies this`undoState, this`dailyData
      ensures old(undoState).None? ==> dailyData == old(dailyData)
      ensures old(undoState).Some? ==> dailyData == Undone(old(dailyData), old(undoState).value)
      ensures undoState.None?
    {
      var state := undoState;
      if state.None? {
        return;
      }
      match state.value {
        case DeleteTask(task, date) =>
          if date in dailyData {
            dailyData := dailyData[date := dailyData[date] + [task]];
          }
        case MoveTask(taskId, fromDate, fromQuadrant, _) =>
          if fromDate in dailyData {
            var tasks := dailyData[fromDate];
            var i := FindTask(tasks, taskId);
            if i >= 0 {
              dailyData := dailyData[fromDate := tasks[i := tasks[i].(quadrant := fromQuadrant)]];
            }
          }
      }
      undoState := None;
    }
  }

  /** Undoing a move looks only at the day it came from. */
  lemma UndoneMoveLocal(dm: map<string, seq<Task>>, st: UndoState)
    requires st.MoveTask? && st.fromDate in dm
    ensures Undone(dm, st)[st.fromDate] == Undone(map[st.fromDate := dm[st.fromDate]], st)[st.fromDate]
  {
    var m1 := map[st.fromDate := dm[st.fromDate]];
    assert st.fromDate in m1 && m1[st.fromDate] == dm[st.fromDate];
  }

  /** Deleting a task from a loaded day (as `deleteDailyTask` does: the task
      is spliced out and recorded) and undoing brings the same tasks back,
      the restored one at the end. */
  lemma UndoDeleteRestoresTasks(dailyData: map<string, seq<Task>>, date: string, idx: nat)
    requires date in dailyData && idx < |dailyData[date]|
    ensures var tasks := dailyData[date];
      var afterDelete := dailyData[date := tasks[..idx] + tasks[idx + 1..]];
      var r := Undone(afterDelete, DeleteTask(tasks[idx], date));
      r[date] == tasks[..idx] + tasks[idx + 1..] + [tasks[idx]]
      && multiset(r[date]) == multiset(tasks)
  {
    var tasks := dailyData[date];
    assert tasks == tasks[..idx] + [tasks[idx]] + tasks[idx + 1..];
    calc {
      multiset(tasks);
      multiset(tasks[..idx]) + multiset{tasks[idx]} + multiset(tasks[idx + 1..]);
      multiset(tasks[..idx] + tasks[idx + 1..] + [tasks[idx]]);
    }
  }

  /** Moving a task to another quadrant and undoing gives the task its old
      quadrant back. */
  lemma UndoMoveRestoresQuadrant(tasks: seq<Task>, date: string, dailyData: map<string, seq<Task>>, i: nat, toQuadrant: int)
    requires i < |tasks| && FindTask(tasks, tasks[i].id) == i
    requires dailyData == map[date := tasks[i := tasks[i].(quadrant := toQuadrant)]]
    ensures Undone(dailyData, MoveTask(tasks[i].id, date, tasks[i].quadrant, toQuadrant))[date] == tasks
  {
    var moved := tasks[i := tasks[i].(quadrant := toQuadrant)];
    FindTaskIs(moved, tasks[i].id, i);
    assert moved[i := moved[i].(quadrant := tasks[i].quadrant)] == tasks;
  }
}
