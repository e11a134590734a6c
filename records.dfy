/** The records the modules share: the day task that the timer, the task
    controller, the drag-and-drop manager, the undo buffer, end-of-day
    migration and the scheduler all work on, the other things that can be
    dragged, and the global drag state (`window.dragSrcType` with
    `window.dragPayload`). */
module Records {
  import opened JsSemantics

  datatype Subtask = Subtask(id: string, content: string, completed: bool)

  /** `task.timer.pomodoro`: times in milliseconds; `lastStart` is null while
      paused. `totalPomodoro` is an older place for the pomodoro total that the
      scheduler still reads; nothing in the timer writes it. */
  datatype Pomodoro = Pomodoro(duration: int, remaining: int, isRunning: bool,
                               lastStart: Option<int>, totalPomodoro: Option<int>)

  /** `task.timer`. A missing `totalPomodoro` reads as 0, as every use of it
      goes through `|| 0`. */
  datatype Timer = Timer(totalWork: int, isRunning: bool, lastStart: Option<int>,
                         totalPomodoro: int, pomodoro: Option<Pomodoro>)

  /** A task of a day's list (or of the recommendation list). `progress` is
      None for a task saved without one; `duration` is the minutes saved by the
      scheduler, 0 while none has been saved; `templateId` is set on tasks made
      from a recurring template. */
  datatype Task = Task(id: string, content: string, quadrant: int, progress: Option<int>,
                       timer: Option<Timer>, subtasks: seq<Subtask>, duration: int,
                       templateId: Option<string>)

  /** A null timestamp used in arithmetic counts as 0, as in JavaScript. */
  function OrZero(o: Option<int>): (r: int)
    ensures o.None? ==> r == 0
    ensures o.Some? ==> r == o.value
  {
    if o.Some? then o.value else 0
  }

  /** `t.progress >= n`: a missing progress compares false, as `undefined`
      does. */
  predicate ProgressAtLeast(t: Task, n: int) { t.progress.Some? && t.progress.value >= n }

  /** `t.progress < n`: false too for a missing progress. */
  predicate ProgressBelow(t: Task, n: int) { t.progress.Some? && t.progress.value < n }

  /** `{ totalWork: 0, isRunning: false, lastStart: null }`. */
  const ZeroTimer: Timer := Timer(0, false, None, 0, None)

  /** `tasks.findIndex(t => t.id === id)`. */
  function FindTask(tasks: seq<Task>, id: string): (i: int)
    ensures -1 <= i < |tasks|
    ensures i == -1 <==> forall k :: 0 <= k < |tasks| ==> tasks[k].id != id
    ensures i >= 0 ==> tasks[i].id == id && forall k :: 0 <= k < i ==> tasks[k].id != id
  {
    if tasks == [] then -1
    else if tasks[0].id == id then 0
    else var k := FindTask(tasks[1..], id); if k < 0 then -1 else k + 1
  }

  /** The first task with an id is where it first occurs. */
  lemma FindTaskIs(tasks: seq<Task>, id: string, i: int)
    requires 0 <= i < |tasks| && tasks[i].id == id && forall k :: 0 <= k < i ==> tasks[k].id != id
    ensures FindTask(tasks, id) == i
  {
    var j := FindTask(tasks, id);
    assert j != -1;
  }

  /** The ids of a task list, in order. */
  function Ids(tasks: seq<Task>): (r: seq<string>)
    ensures |r| == |tasks| && forall k :: 0 <= k < |tasks| ==> r[k] == tasks[k].id
  {
    seq(|tasks|, k requires 0 <= k < |tasks| => tasks[k].id)
  }

  /** A preset time block of the scheduler (`presets.json`). */
  datatype Preset = Preset(id: string, title: string, defaultDuration: int)

  /** A recurring-task template, as far as dragging it reads it. */
  datatype Template = Template(id: string, title: string)

  /** An inbox entry, as far as dragging it reads it. */
  datatype InboxItem = InboxItem(id: string, content: string)

  /** `window.dragSrcType` together with `window.dragPayload`: every drag start
      sets both, and every drop handler that clears one clears the other. */
  datatype DragSource =
    | NoSource
    | WeeklySource(weekly: Task)
    | DailySource(task: Task)
    | RecommendationSource(rec: Task)
    | RecurringSource(template: Template)
    | InboxSource(item: InboxItem)
    | PresetSource(preset: Preset)
    | SubtaskSource(taskId: string, subtaskId: string)
}
