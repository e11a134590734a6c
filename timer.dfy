/** The stopwatch and pomodoro of timer.js. Each task's timer keeps the
    accumulated stopwatch time (`totalWork`), the accumulated pomodoro time
    (`totalPomodoro`) and, while running, when it was last started. All
    operations act on the viewed day's task list; the clock reading `now` is a
    parameter. */
module Timers {
  import opened JsSemantics
  import opened Records

  /** A pomodoro's length: 25 minutes in milliseconds. */
  const PomodoroLength := 1500000

  // ---------------------------------------------------------------------------
  // Reading the timers

  /** A timestamp that is not null and not 0 (the `&& lastStart` guards). */
  predicate Stamped(o: Option<int>) { o.Some? && o.value != 0 }

  predicate StopwatchRunning(t: Task) { t.timer.Some? && t.timer.value.isRunning }

  predicate PomodoroRunning(t: Task)
  {
    t.timer.Some? && t.timer.value.pomodoro.Some? && t.timer.value.pomodoro.value.isRunning
  }

  /** `calculateTotalTime`: 0 without a timer; otherwise both accumulated
      totals plus the time since the running stopwatch and the running
      pomodoro started. */
  function CalculateTotalTime(t: Task, now: int): (total: int)
    ensures t.timer.None? ==> total == 0
    ensures t.timer.Some? && !StopwatchRunning(t) && !PomodoroRunning(t) ==>
      total == t.timer.value.totalWork + t.timer.value.totalPomodoro
  {
    match t.timer
    case None => 0
    case Some(tm) =>
      var base := tm.totalWork + tm.totalPomodoro;
      var withWatch := if tm.isRunning && Stamped(tm.lastStart) then base + (now - tm.lastStart.value) else base;
      if tm.pomodoro.Some? && tm.pomodoro.value.isRunning && Stamped(tm.pomodoro.value.lastStart)
      then withWatch + (now - tm.pomodoro.value.lastStart.value)
      else withWatch
  }

  /** Every running stopwatch and pomodoro carries a real start time, as all
      operations that start one set it to the current time. */
  predicate WellStamped(t: Task)
  {
    t.timer.Some? ==>
      (t.timer.value.isRunning ==> Stamped(t.timer.value.lastStart))
      && (t.timer.value.pomodoro.Some? && t.timer.value.pomodoro.value.isRunning ==>
            Stamped(t.timer.value.pomodoro.value.lastStart))
  }

  // ---------------------------------------------------------------------------
  // The state changes of one task

  /** Stopping a stopwatch: the time since its start is added and it stops
      with no start time. */
  function StopStopwatch(tm: Timer, now: int): (r: Timer)
    ensures !r.isRunning && r.lastStart.None?
    ensures r.totalWork == tm.totalWork + (now - OrZero(tm.lastStart))
    ensures r.totalPomodoro == tm.totalPomodoro && r.pomodoro == tm.pomodoro
  {
    tm.(totalWork := tm.totalWork + (now - OrZero(tm.lastStart)), isRunning := false, lastStart := None)
  }

  function StopIfRunning(t: Task, now: int): (r: Task)
    ensures !StopwatchRunning(r) && r.id == t.id && r.timer.Some? == t.timer.Some?
    ensures !StopwatchRunning(t) ==> r == t
  {
    if StopwatchRunning(t) then t.(timer := Some(StopStopwatch(t.timer.value, now))) else t
  }

  /** Starting the stopwatch of a task that has a timer. */
  function StartWatch(t: Task, now: int): (r: Task)
    requires t.timer.Some?
    ensures StopwatchRunning(r) && r.timer.value.lastStart == Some(now) && r.id == t.id
    ensures r.timer.value.totalWork == t.timer.value.totalWork
    ensures r.timer.value.totalPomodoro == t.timer.value.totalPomodoro
    ensures r.timer.value.pomodoro == t.timer.value.pomodoro
  {
    t.(timer := Some(t.timer.value.(isRunning := true, lastStart := Some(now))))
  }

  /** The stopwatch part of two timers is the same. */
  predicate SameStopwatch(a: Timer, b: Timer)
  {
    a.totalWork == b.totalWork && a.isRunning == b.isRunning && a.lastStart == b.lastStart
  }

  /** Pausing a running pomodoro: the elapsed time comes off `remaining` and
      goes onto the timer's `totalPomodoro`. */
  function PausedPomodoro(tm: Timer, now: int): (r: Timer)
    requires tm.pomodoro.Some?
    ensures r.pomodoro.Some? && !r.pomodoro.value.isRunning && r.pomodoro.value.lastStart.None?
    ensures r.totalPomodoro - tm.totalPomodoro == tm.pomodoro.value.remaining - r.pomodoro.value.remaining
            == now - OrZero(tm.pomodoro.value.lastStart)
    ensures SameStopwatch(r, tm)
    ensures r.pomodoro.value.duration == tm.pomodoro.value.duration
  {
    var p := tm.pomodoro.value;
    var elapsed := now - OrZero(p.lastStart);
    tm.(pomodoro := Some(p.(isRunning := false, remaining := p.remaining - elapsed, lastStart := None)),
        totalPomodoro := tm.totalPomodoro + elapsed)
  }

  function PauseTask(t: Task, now: int): (r: Task)
    requires t.timer.Some? && t.timer.value.pomodoro.Some?
    ensures r.id == t.id && r.timer.Some? && SameStopwatch(r.timer.value, t.timer.value)
  {
    t.(timer := Some(PausedPomodoro(t.timer.value, now)))
  }

  /** The pomodoro part of `startPomodoro` on a task with a timer: a fresh
      25-minute pomodoro if there is none, then started now unless it already
      runs. */
  function StartPomodoroTask(t: Task, now: int): (r: Task)
    requires t.timer.Some?
    ensures r.id == t.id && r.timer.Some? && SameStopwatch(r.timer.value, t.timer.value)
    ensures r.timer.value.totalPomodoro == t.timer.value.totalPomodoro
  {
    var tm := t.timer.value;
    var p := if tm.pomodoro.None? then Pomodoro(PomodoroLength, PomodoroLength, false, None, None) else tm.pomodoro.value;
    if p.isRunning then t.(timer := Some(tm.(pomodoro := Some(p))))
    else t.(timer := Some(tm.(pomodoro := Some(p.(isRunning := true, lastStart := Some(now))))))
  }

  /** `Math.max(0, remaining - elapsed) <= 0`: the pomodoro has run out. */
  predicate PomodoroExpired(p: Pomodoro, now: int)
  {
    Max(0, p.remaining - (now - OrZero(p.lastStart))) <= 0
  }

  /** The expiry of a running pomodoro: it stops, its run time is added to
      the timer's total and it is full again. */
  function ExpiredTask(t: Task, now: int): (r: Task)
    requires PomodoroRunning(t)
    ensures r.id == t.id && r.timer.Some? && SameStopwatch(r.timer.value, t.timer.value)
  {
    var tm := t.timer.value;
    var p := tm.pomodoro.value;
    t.(timer := Some(tm.(totalPomodoro := tm.totalPomodoro + (now - OrZero(p.lastStart)),
                         pomodoro := Some(p.(isRunning := false, remaining := p.duration, lastStart := None)))))
  }

  // ---------------------------------------------------------------------------
  // The state changes, as functions of the task list

  /** The `forEach` of `toggleStopwatch`: every running stopwatch stopped. */
  function StopAll(tasks: seq<Task>, now: int): (r: seq<Task>)
    ensures |r| == |tasks|
    ensures forall k :: 0 <= k < |tasks| ==> r[k] == StopIfRunning(tasks[k], now)
  {
    seq(|tasks|, k requires 0 <= k < |tasks| => StopIfRunning(tasks[k], now))
  }

  /** The task the timer panel is open for, or -1. */
  function CurrentIndex(tasks: seq<Task>, current: Option<string>): (i: int)
    ensures -1 <= i < |tasks|
    ensures i >= 0 ==> current.Some? && tasks[i].id == current.value
  {
    if current.None? then -1 else FindTask(tasks, current.value)
  }

  /** `pausePomodoro` on the panel's task: nothing unless its pomodoro runs.
      No stopwatch is touched. */
  function PausePomodoroResult(tasks: seq<Task>, current: Option<string>, now: int): (r: seq<Task>)
    ensures |r| == |tasks|
    ensures forall k :: 0 <= k < |tasks| ==>
      r[k].id == tasks[k].id && r[k].timer.Some? == tasks[k].timer.Some?
      && (r[k].timer.Some? ==> SameStopwatch(r[k].timer.value, tasks[k].timer.value))
    ensures var i := CurrentIndex(tasks, current);
      (i < 0 || !PomodoroRunning(tasks[i])) ==> r == tasks
    ensures var i := CurrentIndex(tasks, current);
      i >= 0 && PomodoroRunning(tasks[i]) ==>
        r[i] == PauseTask(tasks[i], now) && forall k :: 0 <= k < |tasks| && k != i ==> r[k] == tasks[k]
  {
    var i := CurrentIndex(tasks, current);
    if i < 0 || !PomodoroRunning(tasks[i]) then tasks
    else tasks[i := PauseTask(tasks[i], now)]
  }

  /** The start branch of `toggleStopwatch` for the task at `i`, which has a
      timer whose stopwatch is not running: its running pomodoro is paused
      (through `pausePomodoro`, which acts on the panel's task), every running
      stopwatch of the day is stopped, and this one starts now. */
  function StartStopwatchResult(t0: seq<Task>, current: Option<string>, i: int, now: int): (r: seq<Task>)
    requires 0 <= i < |t0| && t0[i].timer.Some?
    ensures |r| == |t0|
    ensures forall k :: 0 <= k < |t0| ==> r[k].id == t0[k].id && r[k].timer.Some? == t0[k].timer.Some?
  {
    var t1 := if PomodoroRunning(t0[i]) then PausePomodoroResult(t0, current, now) else t0;
    var t2 := StopAll(t1, now);
    t2[i := StartWatch(t2[i], now)]
  }

  /** `toggleStopwatch(id)`: the task named by `id`, or else the panel's
      task, gets a timer if it has none; then a running stopwatch is stopped
      and a stopped one started; the closing `updateTimerUI` then expires the
      panel's pomodoro if its time is up. */
  function ToggleResult(tasks: seq<Task>, current: Option<string>, id: string, now: int): (r: seq<Task>)
    ensures |r| == |tasks|
    ensures forall k :: 0 <= k < |tasks| ==>
      r[k].id == tasks[k].id && (tasks[k].timer.Some? ==> r[k].timer.Some?)
  {
    var target := if id != "" then Some(id) else current;
    var i := CurrentIndex(tasks, target);
    if i < 0 then tasks
    else
      var t0 := GiveTimer(tasks, i);
      var t1 := ToggleAt(t0, current, i, now);
      assert forall k :: 0 <= k < |tasks| ==> t1[k].id == tasks[k].id && (tasks[k].timer.Some? ==> t1[k].timer.Some?);
      ExpiryResult(t1, current, now)
  }

  /** The task at `i` given an empty timer if it has none. */
  function GiveTimer(tasks: seq<Task>, i: int): (r: seq<Task>)
    requires 0 <= i < |tasks|
    ensures |r| == |tasks| && r[i].timer.Some? && r[i].id == tasks[i].id
    ensures forall k :: 0 <= k < |tasks| && k != i ==> r[k] == tasks[k]
    ensures tasks[i].timer.Some? ==> r == tasks
  {
    if tasks[i].timer.None? then tasks[i := tasks[i].(timer := Some(ZeroTimer))] else tasks
  }

  /** The toggle proper, on a task that has a timer. */
  function ToggleAt(t0: seq<Task>, current: Option<string>, i: int, now: int): (r: seq<Task>)
    requires 0 <= i < |t0| && t0[i].timer.Some?
    ensures |r| == |t0|
    ensures forall k :: 0 <= k < |t0| ==> r[k].id == t0[k].id && r[k].timer.Some? == t0[k].timer.Some?
  {
    if t0[i].timer.value.isRunning then t0[i := t0[i].(timer := Some(StopStopwatch(t0[i].timer.value, now)))]
    else StartStopwatchResult(t0, current, i, now)
  }

  /** `startPomodoro` on the panel's task: a running stopwatch is stopped
      first (through `toggleStopwatch`); then the pomodoro starts, and the
      closing `updateTimerUI` expires it at once if it had no time left. A
      pomodoro already running is left alone, and the function returns before
      `updateTimerUI`. A task without a timer fails on reading it, and nothing
      changes. */
  function StartPomodoroResult(tasks: seq<Task>, current: Option<string>, now: int): (r: seq<Task>)
    ensures |r| == |tasks|
    ensures forall k :: 0 <= k < |tasks| ==> r[k].id == tasks[k].id
  {
    var i := CurrentIndex(tasks, current);
    if i < 0 || tasks[i].timer.None? then tasks
    else
      var t0 := StopBeforePomodoro(tasks, current, i, now);
      var t1 := t0[i := StartPomodoroTask(t0[i], now)];
      assert forall k :: 0 <= k < |tasks| ==> t1[k].id == tasks[k].id;
      if PomodoroRunning(t0[i]) then t1 else ExpiryResult(t1, current, now)
  }

  /** The first step of `startPomodoro` on the panel's task at `i`: a running
      stopwatch is stopped through `toggleStopwatch`. A pomodoro that is not
      running is left as it was, and no task gains or loses a timer. */
  function StopBeforePomodoro(tasks: seq<Task>, current: Option<string>, i: int, now: int): (r: seq<Task>)
    requires 0 <= i < |tasks| && tasks[i].timer.Some? && CurrentIndex(tasks, current) == i
    ensures |r| == |tasks|
    ensures forall k :: 0 <= k < |tasks| ==> r[k].id == tasks[k].id && r[k].timer.Some? == tasks[k].timer.Some?
    ensures CurrentIndex(r, current) == i
    ensures !StopwatchRunning(r[i])
    ensures !PomodoroRunning(tasks[i]) ==> r[i].timer.value.pomodoro == tasks[i].timer.value.pomodoro
    ensures r[i].timer.value.totalPomodoro == tasks[i].timer.value.totalPomodoro || PomodoroRunning(tasks[i])
    ensures !tasks[i].timer.value.isRunning ==> r == tasks
  {
    if tasks[i].timer.value.isRunning then
      assert CurrentIndex(tasks, Some(tasks[i].id)) == i;
      var s := ToggleAt(GiveTimer(tasks, i), current, i, now);
      SameTarget(tasks, s, current);
      SameTarget(tasks, ExpiryResult(s, current, now), current);
      ToggleResult(tasks, current, tasks[i].id, now)
    else tasks
  }

  /** `resetPomodoro`: the pomodoro stops and is full again; the time it had
      run since its last start is dropped. Nothing else changes, in this task
      or another. */
  function ResetPomodoroResult(tasks: seq<Task>, current: Option<string>): (r: seq<Task>)
    ensures |r| == |tasks| && Ids(r) == Ids(tasks)
    ensures forall k :: 0 <= k < |tasks| && k != CurrentIndex(tasks, current) ==> r[k] == tasks[k]
    ensures var i := CurrentIndex(tasks, current);
      i >= 0 && (tasks[i].timer.None? || tasks[i].timer.value.pomodoro.None?) ==> r == tasks
    ensures var i := CurrentIndex(tasks, current);
      i >= 0 && tasks[i].timer.Some? && tasks[i].timer.value.pomodoro.Some? ==>
        r[i].timer.Some? && r[i].timer.value.pomodoro.Some?
        && r[i].(timer := tasks[i].timer) == tasks[i]
        && SameStopwatch(r[i].timer.value, tasks[i].timer.value)
        && r[i].timer.value.totalPomodoro == tasks[i].timer.value.totalPomodoro
        && var p := r[i].timer.value.pomodoro.value; var q := tasks[i].timer.value.pomodoro.value;
        !p.isRunning && p.lastStart.None? && p.remaining == p.duration
        && p.duration == q.duration && p.totalPomodoro == q.totalPomodoro
    ensures AllWellStamped(tasks) ==> AllWellStamped(r)
  {
    var i := CurrentIndex(tasks, current);
    if i < 0 || tasks[i].timer.None? || tasks[i].timer.value.pomodoro.None? then tasks
    else
      var tm := tasks[i].timer.value;
      var p := tm.pomodoro.value;
      tasks[i := tasks[i].(timer := Some(tm.(pomodoro := Some(p.(isRunning := false, remaining := p.duration, lastStart := None)))))]
  }

  /** `resetStopwatch`: no stopwatch time, not running; the pomodoro and the
      other tasks are left alone. */
  function ResetStopwatchResult(tasks: seq<Task>, current: Option<string>): (r: seq<Task>)
    ensures |r| == |tasks| && Ids(r) == Ids(tasks)
    ensures forall k :: 0 <= k < |tasks| && k != CurrentIndex(tasks, current) ==> r[k] == tasks[k]
    ensures var i := CurrentIndex(tasks, current);
      i >= 0 && tasks[i].timer.None? ==> r == tasks
    ensures var i := CurrentIndex(tasks, current);
      i >= 0 && tasks[i].timer.Some? ==>
        r[i].timer.Some? && r[i].(timer := tasks[i].timer) == tasks[i]
        && r[i].timer.value.totalWork == 0 && !r[i].timer.value.isRunning
        && r[i].timer.value.lastStart.None?
        && r[i].timer.value.totalPomodoro == tasks[i].timer.value.totalPomodoro
        && r[i].timer.value.pomodoro == tasks[i].timer.value.pomodoro
    ensures AllWellStamped(tasks) ==> AllWellStamped(r)
  {
    var i := CurrentIndex(tasks, current);
    if i < 0 || tasks[i].timer.None? then tasks
    else tasks[i := tasks[i].(timer := Some(tasks[i].timer.value.(totalWork := 0, isRunning := false, lastStart := None)))]
  }

  /** `updateManualTime`, given the typed value times 60000 in milliseconds
      (None for an empty or non-numeric field): the stopwatch total becomes
      exactly that and the pomodoro total is dropped; whether anything runs,
      and the other tasks, are left alone. */
  function ManualTimeResult(tasks: seq<Task>, current: Option<string>, millis: Option<int>): (r: seq<Task>)
    ensures |r| == |tasks| && Ids(r) == Ids(tasks)
    ensures forall k :: 0 <= k < |tasks| && k != CurrentIndex(tasks, current) ==> r[k] == tasks[k]
    ensures millis.None? ==> r == tasks
    ensures var i := CurrentIndex(tasks, current);
      i >= 0 && tasks[i].timer.None? ==> r == tasks
    ensures var i := CurrentIndex(tasks, current);
      millis.Some? && i >= 0 && tasks[i].timer.Some? ==>
        r[i].timer.Some? && r[i].(timer := tasks[i].timer) == tasks[i]
        && r[i].timer.value.totalWork == millis.value && r[i].timer.value.totalPomodoro == 0
        && r[i].timer.value.isRunning == tasks[i].timer.value.isRunning
        && r[i].timer.value.lastStart == tasks[i].timer.value.lastStart
        && r[i].timer.value.pomodoro == tasks[i].timer.value.pomodoro
    ensures AllWellStamped(tasks) ==> AllWellStamped(r)
  {
    var i := CurrentIndex(tasks, current);
    if millis.None? || i < 0 || tasks[i].timer.None? then tasks
    else tasks[i := tasks[i].(timer := Some(tasks[i].timer.value.(totalWork := millis.value, totalPomodoro := 0)))]
  }

  predicate AllTimed(tasks: seq<Task>) { forall k :: 0 <= k < |tasks| ==> tasks[k].timer.Some? }

  /** The pomodoro branch of `updateTimerUI`: once the panel's running
      pomodoro has no time left it stops, its run time is added to the total
      and it is full again. The handler first reads every task's timer, so a
      task without one stops it before this point. */
  function ExpiryResult(tasks: seq<Task>, current: Option<string>, now: int): (r: seq<Task>)
    ensures |r| == |tasks|
    ensures forall k :: 0 <= k < |tasks| ==>
      r[k].id == tasks[k].id && r[k].timer.Some? == tasks[k].timer.Some?
      && (r[k].timer.Some? ==> SameStopwatch(r[k].timer.value, tasks[k].timer.value))
    ensures forall k :: 0 <= k < |tasks| && r[k] != tasks[k] ==>
      k == CurrentIndex(tasks, current) && PomodoroRunning(tasks[k]) && !PomodoroRunning(r[k])
    ensures AllWellStamped(tasks) ==> AllWellStamped(r)
  {
    var i := if current.Some? && current.value != "" then CurrentIndex(tasks, current) else -1;
    if !AllTimed(tasks) || i < 0 || !PomodoroRunning(tasks[i]) || !PomodoroExpired(tasks[i].timer.value.pomodoro.value, now)
    then tasks
    else tasks[i := ExpiredTask(tasks[i], now)]
  }

  // ---------------------------------------------------------------------------
  // The panel

  class TimerBoard {
    /** The viewed day's tasks (empty when no day is loaded). */
    var tasks: seq<Task>
    /** `appData.currentTimerTaskId`. */
    var currentTimerTaskId: Option<string>

    constructor (tasks: seq<Task>, currentTimerTaskId: Option<string>)
      ensures this.tasks == tasks && this.currentTimerTaskId == currentTimerTaskId
    {
      this.tasks := tasks;
      this.currentTimerTaskId := currentTimerTaskId;
    }

    method PausePomodoro(now: int)
      modifies this`tasks
      ensures tasks == PausePomodoroResult(old(tasks), currentTimerTaskId, now)
    {
      var i := CurrentIndex(tasks, currentTimerTaskId);
      if i < 0 || tasks[i].timer.None? || tasks[i].timer.value.pomodoro.None? || !tasks[i].timer.value.pomodoro.value.isRunning {
        return;
      }
      tasks := tasks[i := PauseTask(tasks[i], now)];
    }

    /** `toggleStopwatch`. */
    method ToggleStopwatch(id: string, now: int)
      modifies this`tasks
      ensures tasks == ToggleResult(old(tasks), currentTimerTaskId, id, now)
    {
      var target := if id != "" then Some(id) else currentTimerTaskId;
      var i := CurrentIndex(tasks, target);
      if i < 0 {
        return;
      }
      if tasks[i].timer.None? {
        tasks := tasks[i := tasks[i].(timer := Some(ZeroTimer))];
      }
      assert tasks == GiveTimer(old(tasks), i);
      ToggleAtIndex(i, now);
      UpdateTimerUI(now);
    }

    /** Stopping or starting the stopwatch of the task at `i`. */
    method ToggleAtIndex(i: int, now: int)
      requires 0 <= i < |tasks| && tasks[i].timer.Some?
      modifies this`tasks
      ensures tasks == ToggleAt(old(tasks), currentTimerTaskId, i, now)
    {
      var tm := tasks[i].timer.value;
      if tm.isRunning {
        tasks := tasks[i := tasks[i].(timer := Some(StopStopwatch(tm, now)))];
      } else {
        StartStopwatch(i, now);
      }
    }

    /** The start branch, with the loop that stops the day's other stopwatches. */
    method StartStopwatch(i: int, now: int)
      requires 0 <= i < |tasks| && tasks[i].timer.Some?
      modifies this`tasks
      ensures tasks == StartStopwatchResult(old(tasks), currentTimerTaskId, i, now)
    {
      if PomodoroRunning(tasks[i]) {
        PausePomodoro(now);
      }
      StopAllStopwatches(now);
      tasks := tasks[i := StartWatch(tasks[i], now)];
    }

    /** The `forEach` that stops every running stopwatch. */
    method StopAllStopwatches(now: int)
      modifies this`tasks
      ensures tasks == StopAll(old(tasks), now)
    {
      var k := 0;
      while k < |tasks|
        invariant 0 <= k <= |tasks| == |old(tasks)|
        invariant forall j :: 0 <= j < k ==> tasks[j] == StopIfRunning(old(tasks)[j], now)
        invariant forall j :: k <= j < |tasks| ==> tasks[j] == old(tasks)[j]
      {
        var t := tasks[k];
        if t.timer.Some? && t.timer.value.isRunning {
          tasks := tasks[k := t.(timer := Some(StopStopwatch(t.timer.value, now)))];
        }
        k := k + 1;
      }
    }

    method StartPomodoro(now: int)
      modifies this`tasks
      ensures tasks == StartPomodoroResult(old(tasks), currentTimerTaskId, now)
    {
      var i := CurrentIndex(tasks, currentTimerTaskId);
      if i < 0 || tasks[i].timer.None? {
        return;
      }
      if tasks[i].timer.value.isRunning {
        ToggleStopwatch(tasks[i].id, now);
      }
      var wasRunning := PomodoroRunning(tasks[i]);
      tasks := tasks[i := StartPomodoroTask(tasks[i], now)];
      if !wasRunning {
        UpdateTimerUI(now);
      }
    }

    /** `resetPomodoro`, with the closing `updateTimerUI`. */
    method ResetPomodoro(now: int)
      modifies this`tasks
      ensures tasks == ResetPomodoroResult(old(tasks), currentTimerTaskId)
    {
      var i := CurrentIndex(tasks, currentTimerTaskId);
      if i < 0 || tasks[i].timer.None? || tasks[i].timer.value.pomodoro.None? {
        return;
      }
      var tm := tasks[i].timer.value;
      var pomodoro := tm.pomodoro.value;
      pomodoro := pomodoro.(isRunning := false, remaining := pomodoro.duration, lastStart := None);
      tasks := tasks[i := tasks[i].(timer := Some(tm.(pomodoro := Some(pomodoro))))];
      ResetPomodoroSettles(old(tasks), currentTimerTaskId, now);
      UpdateTimerUI(now);
    }

    method ResetStopwatch()
      modifies this`tasks
      ensures tasks == ResetStopwatchResult(old(tasks), currentTimerTaskId)
    {
      var i := CurrentIndex(tasks, currentTimerTaskId);
      if i < 0 || tasks[i].timer.None? {
        return;
      }
      var tm := tasks[i].timer.value.(totalWork := 0, isRunning := false, lastStart := None);
      tasks := tasks[i := tasks[i].(timer := Some(tm))];
    }

    method UpdateManualTime(millis: Option<int>)
      modifies this`tasks
      ensures tasks == ManualTimeResult(old(tasks), currentTimerTaskId, millis)
    {
      if millis.None? {
        return;
      }
      var i := CurrentIndex(tasks, currentTimerTaskId);
      if i < 0 || tasks[i].timer.None? {
        return;
      }
      var tm := tasks[i].timer.value.(totalWork := millis.value, totalPomodoro := 0);
      tasks := tasks[i := tasks[i].(timer := Some(tm))];
    }

    /** The state change of `updateTimerUI`, which only does anything when the
        panel's pomodoro has run out. */
    method UpdateTimerUI(now: int)
      modifies this`tasks
      ensures tasks == ExpiryResult(old(tasks), currentTimerTaskId, now)
    {
      var k := 0;
      while k < |tasks|
        invariant 0 <= k <= |tasks|
        invariant forall j :: 0 <= j < k ==> tasks[j].timer.Some?
      {
        if tasks[k].timer.None? {
          return;
        }
        k := k + 1;
      }
      if currentTimerTaskId.None? || currentTimerTaskId.value == "" {
        return;
      }
      var i := CurrentIndex(tasks, currentTimerTaskId);
      if i < 0 || tasks[i].timer.value.pomodoro.None? || !tasks[i].timer.value.pomodoro.value.isRunning {
        return;
      }
      var pomodoro := tasks[i].timer.value.pomodoro.value;
      var elapsed := now - OrZero(pomodoro.lastStart);
      var remaining := Max(0, pomodoro.remaining - elapsed);
      if remaining <= 0 {
        tasks := tasks[i := ExpiredTask(tasks[i], now)];
      }
    }
  }

  // ---------------------------------------------------------------------------
  // Properties

  /** Every stopwatch and pomodoro that runs carries a real start time. */
  predicate AllWellStamped(tasks: seq<Task>) { forall k :: 0 <= k < |tasks| ==> WellStamped(tasks[k]) }

  /** The totals shown at an instant, task by task. */
  predicate SameTotals(a: seq<Task>, b: seq<Task>, now: int)
  {
    |a| == |b| && forall k :: 0 <= k < |a| ==> CalculateTotalTime(a[k], now) == CalculateTotalTime(b[k], now)
  }

  /** Stopping a stopwatch that was started at a real time does not change the
      total shown at that instant. */
  lemma StopKeepsTotal(t: Task, now: int)
    requires StopwatchRunning(t) && Stamped(t.timer.value.lastStart)
    ensures CalculateTotalTime(StopIfRunning(t, now), now) == CalculateTotalTime(t, now)
  {
  }

  /** Pausing a pomodoro started at a real time moves its run time from the
      running part to `totalPomodoro`: the total shown at that instant stays. */
  lemma PauseKeepsTotal(t: Task, now: int)
    requires PomodoroRunning(t) && Stamped(t.timer.value.pomodoro.value.lastStart)
    ensures CalculateTotalTime(PauseTask(t, now), now) == CalculateTotalTime(t, now)
    ensures WellStamped(t) ==> WellStamped(PauseTask(t, now))
  {
  }

  /** A stopwatch started at a real instant adds nothing at that instant. */
  lemma StartWatchKeepsTotal(t: Task, now: int)
    requires t.timer.Some? && !StopwatchRunning(t) && now != 0
    ensures CalculateTotalTime(StartWatch(t, now), now) == CalculateTotalTime(t, now)
    ensures WellStamped(t) ==> WellStamped(StartWatch(t, now))
  {
  }

  /** Neither does a pomodoro started then, nor a fresh one put in place. */
  lemma StartPomodoroTaskKeepsTotal(t: Task, now: int)
    requires t.timer.Some? && now != 0
    ensures CalculateTotalTime(StartPomodoroTask(t, now), now) == CalculateTotalTime(t, now)
    ensures WellStamped(t) ==> WellStamped(StartPomodoroTask(t, now))
  {
  }

  /** Replacing one task by one showing the same total keeps every total. */
  lemma UpdateKeepsTotals(a: seq<Task>, i: int, t: Task, now: int)
    requires 0 <= i < |a| && CalculateTotalTime(t, now) == CalculateTotalTime(a[i], now)
    ensures SameTotals(a[i := t], a, now)
  {
  }

  lemma SameTotalsTrans(a: seq<Task>, b: seq<Task>, c: seq<Task>, now: int)
    requires SameTotals(a, b, now) && SameTotals(b, c, now)
    ensures SameTotals(a, c, now)
  {
  }

  lemma StopAllKeepsTotals(tasks: seq<Task>, now: int)
    requires AllWellStamped(tasks)
    ensures SameTotals(StopAll(tasks, now), tasks, now) && AllWellStamped(StopAll(tasks, now))
  {
    forall k | 0 <= k < |tasks| ensures CalculateTotalTime(StopAll(tasks, now)[k], now) == CalculateTotalTime(tasks[k], now) {
      if StopwatchRunning(tasks[k]) {
        StopKeepsTotal(tasks[k], now);
      }
    }
  }

  lemma PausePomodoroResultKeepsTotals(tasks: seq<Task>, current: Option<string>, now: int)
    requires AllWellStamped(tasks)
    ensures SameTotals(PausePomodoroResult(tasks, current, now), tasks, now)
    ensures AllWellStamped(PausePomodoroResult(tasks, current, now))
  {
    var i := CurrentIndex(tasks, current);
    if i >= 0 && PomodoroRunning(tasks[i]) {
      PauseKeepsTotal(tasks[i], now);
      UpdateKeepsTotals(tasks, i, PauseTask(tasks[i], now), now);
    }
  }

  /** Starting a stopwatch leaves it the only running one of the day, started
      now; every other stopwatch that ran has its run time added. */
  lemma StartStopwatchOnlyTarget(t0: seq<Task>, current: Option<string>, i: int, now: int)
    requires 0 <= i < |t0| && t0[i].timer.Some?
    ensures var r := StartStopwatchResult(t0, current, i, now);
      StopwatchRunning(r[i]) && r[i].timer.value.lastStart == Some(now)
      && (forall k :: 0 <= k < |r| && k != i ==> !StopwatchRunning(r[k]))
      && (forall k :: 0 <= k < |r| && k != i && StopwatchRunning(t0[k]) ==>
            r[k].timer.value.totalWork == t0[k].timer.value.totalWork + (now - OrZero(t0[k].timer.value.lastStart)))
  {
    var t1 := if PomodoroRunning(t0[i]) then PausePomodoroResult(t0, current, now) else t0;
    assert forall k :: 0 <= k < |t0| && StopwatchRunning(t0[k]) ==>
      t1[k].timer.Some? && SameStopwatch(t1[k].timer.value, t0[k].timer.value);
  }

  /** The target is where the panel's id points too when it names the task. */
  lemma SameTarget(tasks: seq<Task>, a: seq<Task>, current: Option<string>)
    requires |a| == |tasks| && forall k :: 0 <= k < |tasks| ==> a[k].id == tasks[k].id
    ensures CurrentIndex(a, current) == CurrentIndex(tasks, current)
  {
    var i := CurrentIndex(tasks, current);
    if i >= 0 {
      FindTaskIs(a, current.value, i);
    } else if current.Some? {
      assert forall k :: 0 <= k < |a| ==> a[k].id != current.value;
    }
  }

  lemma ToggleStartsOnlyTarget(tasks: seq<Task>, current: Option<string>, id: string, now: int, i: int)
    requires i == CurrentIndex(tasks, if id != "" then Some(id) else current) && i >= 0
    requires !StopwatchRunning(tasks[i])
    ensures var r := ToggleResult(tasks, current, id, now);
      StopwatchRunning(r[i]) && r[i].timer.value.lastStart == Some(now)
      && (forall k :: 0 <= k < |r| && k != i ==> !StopwatchRunning(r[k]))
      && (forall k :: 0 <= k < |r| && k != i && StopwatchRunning(tasks[k]) ==>
            r[k].timer.value.totalWork == tasks[k].timer.value.totalWork + (now - OrZero(tasks[k].timer.value.lastStart)))
  {
    var t0 := GiveTimer(tasks, i);
    StartStopwatchOnlyTarget(t0, current, i, now);
  }

  /** Stopping a running stopwatch adds its run time and stops it; no other
      stopwatch changes, and when no pomodoro of the day runs nothing else
      changes at all. */
  lemma ToggleStopsRunning(tasks: seq<Task>, current: Option<string>, id: string, now: int, i: int)
    requires i == CurrentIndex(tasks, if id != "" then Some(id) else current) && i >= 0
    requires StopwatchRunning(tasks[i])
    ensures var r := ToggleResult(tasks, current, id, now);
      !StopwatchRunning(r[i]) && r[i].timer.value.lastStart.None?
      && r[i].timer.value.totalWork == tasks[i].timer.value.totalWork + (now - OrZero(tasks[i].timer.value.lastStart))
      && (forall k :: 0 <= k < |tasks| && k != i && tasks[k].timer.Some? ==>
            r[k].timer.Some? && SameStopwatch(r[k].timer.value, tasks[k].timer.value))
      && ((forall k :: 0 <= k < |tasks| ==> !PomodoroRunning(tasks[k])) ==> r == tasks[i := StopIfRunning(tasks[i], now)])
  {
  }

  lemma StartStopwatchKeepsTotals(t0: seq<Task>, current: Option<string>, i: int, now: int)
    requires 0 <= i < |t0| && t0[i].timer.Some? && !t0[i].timer.value.isRunning
    requires AllWellStamped(t0) && now != 0
    ensures SameTotals(StartStopwatchResult(t0, current, i, now), t0, now)
    ensures AllWellStamped(StartStopwatchResult(t0, current, i, now))
  {
    var t1 := if PomodoroRunning(t0[i]) then PausePomodoroResult(t0, current, now) else t0;
    PausePomodoroResultKeepsTotals(t0, current, now);
    StopAllKeepsTotals(t1, now);
    var t2 := StopAll(t1, now);
    SameTotalsTrans(t2, t1, t0, now);
    StartWatchKeepsTotal(t2[i], now);
    UpdateKeepsTotals(t2, i, StartWatch(t2[i], now), now);
    SameTotalsTrans(t2[i := StartWatch(t2[i], now)], t2, t0, now);
  }

  /** Toggling a stopwatch only moves time from "running" to "accumulated" or
      starts a stopwatch from zero elapsed: at the instant of the toggle every
      task's total stays what it was. */
  lemma ToggleKeepsTotals(tasks: seq<Task>, current: Option<string>, id: string, now: int)
    requires AllWellStamped(tasks) && now != 0
    ensures SameTotals(ToggleResult(tasks, current, id, now), tasks, now)
    ensures AllWellStamped(ToggleResult(tasks, current, id, now))
  {
    var i := CurrentIndex(tasks, if id != "" then Some(id) else current);
    if i >= 0 {
      var t0 := GiveTimer(tasks, i);
      assert SameTotals(t0, tasks, now) && AllWellStamped(t0);
      var t1 := ToggleAt(t0, current, i, now);
      if t0[i].timer.value.isRunning {
        StopKeepsTotal(t0[i], now);
        UpdateKeepsTotals(t0, i, StopIfRunning(t0[i], now), now);
      } else {
        StartStopwatchKeepsTotals(t0, current, i, now);
      }
      SameTotalsTrans(t1, t0, tasks, now);
      ExpiryKeepsTotals(t1, current, now);
      SameTotalsTrans(ExpiryResult(t1, current, now), t1, tasks, now);
    }
  }

  /** Starting a pomodoro stops the stopwatch (keeping its time) and only then
      starts the pomodoro from zero elapsed: totals stay as they were, and
      every running stopwatch and pomodoro still has a real start time. */
  lemma StartPomodoroKeepsTotals(tasks: seq<Task>, current: Option<string>, now: int)
    requires AllWellStamped(tasks) && now != 0
    ensures SameTotals(StartPomodoroResult(tasks, current, now), tasks, now)
    ensures AllWellStamped(StartPomodoroResult(tasks, current, now))
  {
    var i := CurrentIndex(tasks, current);
    if i >= 0 && tasks[i].timer.Some? {
      var t0 := StopBeforePomodoro(tasks, current, i, now);
      if tasks[i].timer.value.isRunning {
        ToggleKeepsTotals(tasks, current, tasks[i].id, now);
      }
      StartPomodoroTaskKeepsTotal(t0[i], now);
      var t1 := t0[i := StartPomodoroTask(t0[i], now)];
      UpdateKeepsTotals(t0, i, StartPomodoroTask(t0[i], now), now);
      SameTotalsTrans(t1, t0, tasks, now);
      assert AllWellStamped(t1);
      if !PomodoroRunning(t0[i]) {
        ExpiryKeepsTotals(t1, current, now);
        SameTotalsTrans(ExpiryResult(t1, current, now), t1, tasks, now);
      }
    }
  }

  /** Once the pomodoro has run its remaining time it is stopped and full
      again, and the time it ran is kept in `totalPomodoro`; before that,
      nothing changes. */
  lemma ExpiryFiresWhenTimeIsUp(tasks: seq<Task>, current: Option<string>, now: int)
    requires AllTimed(tasks) && current.Some? && current.value != ""
    requires var i := CurrentIndex(tasks, current); i >= 0 && PomodoroRunning(tasks[i])
    ensures var i := CurrentIndex(tasks, current);
      var p := tasks[i].timer.value.pomodoro.value;
      var r := ExpiryResult(tasks, current, now);
      var elapsed := now - OrZero(p.lastStart);
      (elapsed < p.remaining ==> r == tasks)
      && (elapsed >= p.remaining ==>
            r[i].timer.Some? && r[i].timer.value.pomodoro.Some?
            && r[i].timer.value.pomodoro.value == p.(isRunning := false, remaining := p.duration, lastStart := None)
            && r[i].timer.value.totalPomodoro == tasks[i].timer.value.totalPomodoro + elapsed
            && r[i].timer.value.totalWork == tasks[i].timer.value.totalWork
            && (forall k :: 0 <= k < |tasks| && k != i ==> r[k] == tasks[k]))
  {
  }

  /** The expiry moves the pomodoro's run time into its total: the shown
      total stays. */
  lemma ExpiryKeepsTotals(tasks: seq<Task>, current: Option<string>, now: int)
    requires AllWellStamped(tasks)
    ensures SameTotals(ExpiryResult(tasks, current, now), tasks, now)
  {
  }

  /** After a manual entry, with nothing running, the task's total is
      exactly the entered time. */
  lemma ManualTimeSetsTotal(tasks: seq<Task>, current: Option<string>, millis: int)
    requires var i := CurrentIndex(tasks, current);
      i >= 0 && tasks[i].timer.Some? && !StopwatchRunning(tasks[i]) && !PomodoroRunning(tasks[i])
    ensures var i := CurrentIndex(tasks, current);
      forall now :: CalculateTotalTime(ManualTimeResult(tasks, current, Some(millis))[i], now) == millis
  {
  }

  /** The `updateTimerUI` that ends `resetPomodoro` finds the panel's
      pomodoro stopped, so it changes nothing. */
  lemma ResetPomodoroSettles(tasks: seq<Task>, current: Option<string>, now: int)
    ensures ExpiryResult(ResetPomodoroResult(tasks, current), current, now) == ResetPomodoroResult(tasks, current)
  {
    var r := ResetPomodoroResult(tasks, current);
    SameTarget(tasks, r, current);
  }

  /** `startPomodoro` leaves the stopwatch stopped; a new pomodoro is a full
      25 minutes started now, a paused one with time left resumes now with
      what it had left, and one already running is left as it was. */
  lemma StartPomodoroStarts(tasks: seq<Task>, current: Option<string>, now: int)
    requires var i := CurrentIndex(tasks, current); i >= 0 && tasks[i].timer.Some?
    ensures var i := CurrentIndex(tasks, current);
      var r := StartPomodoroResult(tasks, current, now);
      var before := tasks[i].timer.value.pomodoro;
      !StopwatchRunning(r[i])
      && (before.None? ==> r[i].timer.value.pomodoro == Some(Pomodoro(PomodoroLength, PomodoroLength, true, Some(now), None)))
      && (before.Some? && !before.value.isRunning && before.value.remaining > 0 ==>
            r[i].timer.value.pomodoro == Some(before.value.(isRunning := true, lastStart := Some(now))))
      && (before.Some? && before.value.isRunning && !tasks[i].timer.value.isRunning ==> r == tasks)
  {
    var i := CurrentIndex(tasks, current);
    var t0 := StopBeforePomodoro(tasks, current, i, now);
    var t1 := t0[i := StartPomodoroTask(t0[i], now)];
    var before := tasks[i].timer.value.pomodoro;
    if before.None? || (!before.value.isRunning && before.value.remaining > 0) {
      SameTarget(t0, t1, current);
      ExpiryIdle(t1, current, now);
    }
  }

  /** The expiry check changes nothing unless the panel's pomodoro runs and
      its time is up. */
  lemma ExpiryIdle(tasks: seq<Task>, current: Option<string>, now: int)
    requires var i := CurrentIndex(tasks, current);
      i < 0 || !PomodoroRunning(tasks[i]) || !PomodoroExpired(tasks[i].timer.value.pomodoro.value, now)
    ensures ExpiryResult(tasks, current, now) == tasks
  {
  }

  /** A paused pomodoro with no time left (a pause does not check expiry, and
      the clock ticks only once a second) is expired as soon as it is
      resumed: it ends stopped and full, with zero run time added. */
  lemma StartPomodoroExpiresAtOnce(tasks: seq<Task>, current: Option<string>, now: int)
    requires var i := CurrentIndex(tasks, current); i >= 0 && tasks[i].timer.Some? && current.value != ""
    requires AllTimed(tasks)
    requires var p := tasks[CurrentIndex(tasks, current)].timer.value.pomodoro;
      p.Some? && !p.value.isRunning && p.value.remaining <= 0
    ensures var i := CurrentIndex(tasks, current);
      var r := StartPomodoroResult(tasks, current, now);
      var p := tasks[i].timer.value.pomodoro.value;
      !StopwatchRunning(r[i]) && !PomodoroRunning(r[i])
      && r[i].timer.value.pomodoro == Some(p.(remaining := p.duration, lastStart := None))
      && r[i].timer.value.totalPomodoro == tasks[i].timer.value.totalPomodoro
  {
    var i := CurrentIndex(tasks, current);
    var t0 := StopBeforePomodoro(tasks, current, i, now);
    var t1 := t0[i := StartPomodoroTask(t0[i], now)];
    SameTarget(t0, t1, current);
    assert AllTimed(t1);
    assert PomodoroRunning(t1[i]) && PomodoroExpired(t1[i].timer.value.pomodoro.value, now);
    assert StartPomodoroResult(tasks, current, now)[i] == ExpiredTask(t1[i], now);
  }
}
