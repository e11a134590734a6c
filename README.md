# A verified model of a personal task planner's core logic

The application is a browser-based weekly planner. It keeps one file per week,
and each day in it has a list of tasks (in four quadrants), recommendations, a
time-blocking schedule and a summary. This project models, in Dafny, the parts
of it that are logic rather than rendering or storage:

- the **time-blocking scheduler**. A day's schedule is a list of groups. Each
  group has an id, a kind (task or preset), the id it refers to, a title, a hue
  and a list of `{start, duration}` segments in minutes. The scheduler covers
  the collision test, drop placement, the drag state machine, merging, splitting,
  deletion, the end-of-day audit, the time-range label, the preset clamp and the
  current-time indicator;
- the **formatters**: `h:mm:ss` clock labels, `Hh Mm` analytics labels,
  deadline classification, and the choice of the JSON slice taken out of an AI
  reply;
- the **stopwatch / pomodoro state machine** of a task's timer;
- **subtask progress** and the day-task edits of the task controller;
- the **calendar**: heat-map levels, the month grid's padding, per-day stats
  and the month cache;
- **task drag-and-drop between lists**: the five drop strategies and the
  insertion by `dropBeforeId`;
- the **single-slot undo buffer** for deleted and moved tasks;
- **day finalisation**: which items move to tomorrow's recommendations, and
  the de-duplicating `addRec`;
- the **snippet library**: HTML escaping and the add, edit and delete operations.

Each source file becomes one module. Shared pieces get modules of their own:

- `JsSemantics` holds the JavaScript built-ins the code relies on, stated exactly:
  `Math.round`, `%`, `Number#toString`, `padStart`, `trim`, `indexOf` and
  `lastIndexOf`, and string `<`.
- `Records` holds the task record that several files share.

The state the source updates in place is modelled by classes:

- `Scheduler` for the schedule;
- `TimerBoard` for the timers;
- `DailyTasks` for the task controller;
- `CalendarView` for the calendar and its cache;
- `DropZone` for drag-and-drop;
- `UndoBuffer` for undo. The viewed day's task list is one array in the
  source, shared by the drop code and the undo code. `DropZone.Drop` writes
  its list back into the buffer and `DropZone.Undo` reads it back, so the two
  copies stay equal (`DropZone.Shared`);
- `Week` for day finalisation;
- `SnippetStore` for the snippets.

Each method's `ensures` ties the new state to a pure function of the old state.
The properties the source promises are then proved as lemmas about those
functions. Where the source loops, the model has a `while` loop with its
invariants:

- the merge fixpoint;
- the collision scan;
- stopping every stopwatch;
- the calendar's padding and per-day loops;
- the de-duplication scan of `addRec` and the migration loop.

The schedule has three modules:

- `Schedule` holds the values, the constants of `schedule.js:7-13` and the pure
  decisions;
- `ScheduleProps` holds the lemmas;
- `ScheduleModule` holds the classes and the loops.

Some inputs come from outside the logic, and the model takes them as
parameters:

- the current time in milliseconds;
- fresh ids, where the source uses `uuid()` or `Date.now().toString(36)`;
- the random preset hue, any value in 100..299;
- pointer positions, in pixels, with one pixel per minute;
- the user's answer to a confirm dialog;
- the weekday, the days in a month and the day difference that the source
  computes with `Date`.

During a drag the code passes only the group id to `checkCollision`
(`schedule.js:596`), although `checkCollision` can also skip a single segment
(`schedule.js:316-329`). So the whole own group is ignored, not just the
dragged segment, and the model does the same. `ScheduleProps.SiblingDragAccepted` and
`ScheduleProps.DragThenMergeOverlapsOtherGroup` show what this allows. A segment
can be dropped onto its sibling, and the merge at drag end then sums the two
durations. That can make the group overlap a neighbouring group.

## Model

| member | source | states |
|---|---|---|
| JsSemantics.RoundDiv | controllers/task-controller.js:140 | `Math.round(n/d)` is the integer nearest n/d, a tie going up |
| JsSemantics.JsRem | schedule.js:300-305 | JavaScript `%` agrees with the mathematical remainder on non-negative operands and takes the dividend's sign otherwise |
| JsSemantics.PercentInRange | controllers/task-controller.js:139-140 | a rounded percentage of c out of n (c <= n) lies in 0..100 |
| JsSemantics.PercentEnds | controllers/task-controller.js:139-140 | the rounded percentage is 100 iff c/n >= 99.5% and 0 iff c/n < 0.5% |
| JsSemantics.RoundedPercent | controllers/task-controller.js:139-140 | `Math.round(c/n*100)` lies in 0..100, is 100 iff 200c >= 199n and is 0 iff 200c < n |
| JsSemantics.NatToString | utils.js:22-24 | `n.toString()` is a non-empty string of decimal digits with no leading zero, one digit iff n < 10 |
| JsSemantics.NatToStringRoundTrip | utils.js:22-24 | reading the decimal digits of `n.toString()` gives n back |
| JsSemantics.IntToString | utils.js:32 | a negative number prints as a minus sign before its magnitude |
| JsSemantics.PadStart2 | utils.js:22 | `padStart(2, '0')` leaves strings of two or more characters alone and left-pads shorter ones to two, keeping them as the suffix |
| JsSemantics.TwoDigitsRoundTrip | utils.js:22-24 | for 0..99 the padded label is exactly two digits whose value is the number |
| JsSemantics.TwoDigits | utils.js:22-24 | a non-negative number pads to at least two decimal digits, a single digit getting a leading `0` (the two-digit read-back is `TwoDigitsRoundTrip`) |
| JsSemantics.TrimStart | controllers/task-controller.js:13 | the result is a suffix of the input, does not start with whitespace, and everything removed is whitespace |
| JsSemantics.TrimEnd | controllers/task-controller.js:13 | the result is a prefix of the input, does not end with whitespace, and everything removed is whitespace |
| JsSemantics.TrimSpec | controllers/task-controller.js:13 | `trim()` keeps a contiguous piece with no whitespace at either end, and it is empty iff the input is all whitespace |
| JsSemantics.Trim | controllers/task-controller.js:13 | the trimmed string is no longer than the input and neither starts nor ends with whitespace (`TrimSpec` adds that it is a contiguous piece, empty iff all whitespace) |
| JsSemantics.IsJsWhitespace | controllers/task-controller.js:13 | no decimal digit or ASCII letter counts as whitespace, so `trim()` never removes one |
| JsSemantics.LexLess | calendar.js:196 | a string that sorts before another differs from it |
| JsSemantics.LexLessAsymmetric | calendar.js:196 | of two date strings at most one sorts before the other |
| JsSemantics.IndexOf | utils.js:125-126 | `indexOf(c)` is -1 iff c is absent, else the first position holding c |
| JsSemantics.LastIndexOf | utils.js:133 | `lastIndexOf(c)` is -1 iff c is absent, else the last position holding c |
| Records.OrZero | timer.js:277 | a missing number read with `\|\| 0` is 0, a present one is itself |
| Records.FindTask | controllers/task-controller.js:45 | `findIndex` by id: -1 iff no task has the id, else the first task with it |
| Records.FindTaskIs | controllers/task-controller.js:45 | the first index holding an id is what `findIndex` returns |
| Schedule.SnapMinutes | schedule.js:412 | snapping gives a multiple of 5 within half a step of the input, so a tie goes up |
| Schedule.QuadrantHue | schedule.js:529-537 | quadrants 1 to 4 get hues 0, 45, 200 and 120; anything else gets 210 |
| Schedule.NewPresetDuration | schedule.js:122-129 | a typed preset duration of 0 or none gives 30; other values are clamped into 15..480 |
| Schedule.IndicatorTop | schedule.js:191-210 | a shown indicator lies inside the 420..1560 window |
| Schedule.FindGroup | schedule.js:583 | the first group with the id, or -1 iff there is none |
| Schedule.TaskBlockDuration | schedule.js:433-453 | with tracked time, the duration is max(15, snap5(round(ms/60000))); otherwise the saved duration, or 30 when that is below 15; always at least 15 |
| Schedule.PresetBlockDuration | schedule.js:487 | a preset's `defaultDuration`, or 30 when it has none |
| Schedule.DropStart | schedule.js:412-415 | the drop start is the snapped pointer minute raised to at least 420, a multiple of 5 |
| Schedule.FittedDuration | schedule.js:455-458 | the duration is capped so the block ends by 1560, and is kept when it already fits |
| Schedule.PlanDrop | schedule.js:396-527 | only a daily task or a preset is handled; a task that already has a block is refused iff it has one; a placed block is one segment under the new id, starting at the drop start, at least 15 long, ending by 1560 and colliding with nothing (its full contract is `ScheduleProps.DropPlacesValidBlock`) |
| Schedule.DragDelta | schedule.js:575-576 | the drag delta is a multiple of 5 within half a step of the pointer travel in minutes (`ScheduleProps.DragDeltaZeroIff` gives its zero case) |
| Schedule.PlanMove | schedule.js:572-604 | nothing moves iff the snapped delta is zero; an accepted move is of the grabbed segment of the first group with the id, whose start had been recorded, ends by 1560 and collides with no other group's segment (`ScheduleProps.MoveResult` adds the clamp) |
| Schedule.PlanSplit | schedule.js:684-745 | the target is missing iff there is no such group or segment; an accepted split keeps the start, has halves of at least 15 that sum to the original, puts the second half 5 after the first and lets it collide with no other segment (`ScheduleProps.SplitShape` adds the snapped first length) |
| Schedule.Collides | schedule.js:311-343 | a block starting at or after the end of every existing segment collides with nothing (`ScheduleProps.NoCollisionDisjoint` gives the converse direction) |
| Schedule.TrackedTime | schedule.js:433-440 | a task without a timer has tracked nothing; with non-negative totals the tracked time is at least the stopwatch total (`ScheduleProps.TaskDurationFromTimerExample` shows it in use) |
| Schedule.ClockMinutes | schedule.js:299-306 | a minute count at or after midnight prints as two digits, a colon and two digits (`ScheduleProps.ClockMinutesReadsBack` reads them back) |
| Schedule.ClockRange | schedule.js:299-306 | for non-negative ends the label is 13 characters: the start's `HH:MM`, ` - `, and the end's `HH:MM` |
| Schedule.FormatTimeRange | schedule.js:299-307 | for a non-negative start and duration the label is 13 characters, from the start's `HH:MM` to the `HH:MM` of start plus duration |
| Schedule.RecordDuration | schedule.js:468-473 | a dropped task's `duration` is set to the block's duration, and nothing else in the list changes |
| Schedule.GrabbedStart | schedule.js:557-561 | the grabbed segment's start is recorded iff the group and segment exist |
| Schedule.ApplyMove | schedule.js:600 | a move assigns only the dragged segment's start, keeping its duration and every other group |
| Schedule.InsertByStart | schedule.js:646 | inserting a segment into the sort adds exactly that segment |
| Schedule.SortByStart | schedule.js:646 | `sort((a,b) => a.start - b.start)` is a permutation of the segments |
| Schedule.FirstTouching | schedule.js:655-660 | the first adjacent pair whose first end reaches the next start, or -1 iff no pair touches |
| Schedule.MergeAt | schedule.js:664-667 | merging a pair removes one segment |
| Schedule.MergeAll | schedule.js:653-677 | the merge fixpoint never adds segments |
| Schedule.MergePlan | schedule.js:642-680 | with fewer than 2 segments, returns false and the group unchanged; otherwise the sorted, merged list, and true iff a merge happened |
| Schedule.ApplySplit | schedule.js:730-736 | a split leaves the other groups alone; the group keeps its id and its segment list becomes the segments before idx, the two halves, then the segments after idx |
| Schedule.RemoveGroup | schedule.js:749-759 | deleting keeps exactly the groups with another id |
| Schedule.RemovePreset | schedule.js:139-143 | deleting a preset keeps exactly the presets with another id |
| Schedule.CompletedOutside | schedule.js:774-784 | the tasks kept are exactly those with progress >= 100 (a missing progress is not) whose id is not scheduled |
| Schedule.CompletedButUnscheduled | schedule.js:763-790 | with no current day, `{false, []}`; `hasIssues` iff the list is non-empty |
| ScheduleProps.InsertByStartSorted | schedule.js:646 | inserting into a sorted list keeps it sorted by start |
| ScheduleProps.SortByStartSorted | schedule.js:646 | the sort's result is ascending by start |
| ScheduleProps.SortByStartOfSorted | schedule.js:646 | sorting an already sorted list changes nothing |
| ScheduleProps.TotalConcat | schedule.js:664-667 | the total duration of two lists joined is the sum of their totals |
| ScheduleProps.MergeAtTotal | schedule.js:664-667 | merging a pair keeps the total duration |
| ScheduleProps.MergeAtSorted | schedule.js:664-667 | merging a pair of a sorted list keeps it sorted |
| ScheduleProps.MergeAllTotal | schedule.js:653-677 | the merge fixpoint keeps the total duration |
| ScheduleProps.MergeAllSorted | schedule.js:653-677 | the merge fixpoint keeps a sorted list sorted |
| ScheduleProps.MergeAllSeparated | schedule.js:653-677 | after the fixpoint no adjacent pair touches or overlaps |
| ScheduleProps.MergeAllShrinks | schedule.js:653-677 | the fixpoint shortens the list iff some pair touches, and otherwise leaves it as it is |
| ScheduleProps.MergePlanOrdered | schedule.js:642-680 | after a merge check, starts ascend and no adjacent pair touches |
| ScheduleProps.MergePlanTotal | schedule.js:642-680 | a merge check keeps the total duration |
| ScheduleProps.MergePlanReports | schedule.js:642-680 | the merge check returns true iff there are two or more segments and some sorted pair touches |
| ScheduleProps.MergePlanIdempotent | schedule.js:642-680 | a second merge check returns false and changes nothing |
| ScheduleProps.TotalOfPermutation | schedule.js:646 | reordering segments keeps the total duration |
| ScheduleProps.MergeTouchingExample | schedule.js:642-680 | segments 100+30 and 130+20 merge into 100+50 |
| ScheduleProps.NoCollisionDisjoint | schedule.js:311-343 | when no collision is reported, the interval shares no minute with any considered segment |
| ScheduleProps.TouchingNeverCollides | schedule.js:337 | an interval ending where a segment starts, or starting where one ends, does not overlap it |
| ScheduleProps.ExcludeGroupIsRemoval | schedule.js:316-318 | ignoring a group by id gives the same answer as checking the schedule without that group |
| ScheduleProps.ExcludeSegmentChecksSiblings | schedule.js:319-329 | ignoring one segment still reports overlaps with its siblings |
| ScheduleProps.DropPlacesValidBlock | schedule.js:396-527 | a placed drop makes one group with one segment: the new id, a snapped start at least 420, a duration of at least 15 ending by 1560, and no collision; for a task, refId, title, hue and duration cap come from the task, and the task had no block; for a preset, they come from the preset and the random hue |
| ScheduleProps.DropTaskTooShortIff | schedule.js:455-458 | an unscheduled task's drop is refused as too short iff it starts after 1545 |
| ScheduleProps.DropRejectsScheduledTask | schedule.js:424-431 | dropping a task that already has a block is refused |
| ScheduleProps.SecondDropRejected | schedule.js:424-431 | after a task's block is placed, dropping the same task again is refused |
| ScheduleProps.DropPreservesNoOverlap | schedule.js:493-516 | appending the placed group keeps every segment disjoint from every other, and keeps group ids unique when the new id is fresh |
| ScheduleProps.DropPresetExample | schedule.js:483-510 | a 45-minute preset dropped at pixel 80 on an empty day gives one block at 500+45 |
| ScheduleProps.TaskDurationFromTimerExample | schedule.js:433-453 | 1500000 ms of tracked work gives a 25-minute block |
| ScheduleProps.DropOverlapExample | schedule.js:493-498 | a 20-minute drop at 515 onto a block 500+30 is refused as overlapping |
| ScheduleProps.DragDeltaZeroIff | schedule.js:575-578 | the snapped drag delta is zero iff the pointer moved between -2 and 2 pixels |
| ScheduleProps.MoveResult | schedule.js:572-604 | an accepted move is of the dragged segment of the dragged group; its new start is clamped into the window and equals the original start plus the delta when that fits; it is disjoint from every other group |
| ScheduleProps.MovePreservesCrossGroupDisjoint | schedule.js:572-604 | a move keeps groups pairwise disjoint and ids unique |
| ScheduleProps.SiblingExampleApart | schedule.js:596 | the example schedule of two groups has no overlap and unique ids |
| ScheduleProps.SiblingDragAccepted | schedule.js:596 | in that schedule, dragging a segment onto its sibling is accepted, because the own group is ignored |
| ScheduleProps.SiblingDragMoved | schedule.js:600 | after the move, the two siblings overlap |
| ScheduleProps.SiblingMerge | schedule.js:660-667 | the merge at drag end sums the overlapping siblings into 600+60 |
| ScheduleProps.DragThenMergeOverlapsOtherGroup | schedule.js:596-622 | the merged segment then overlaps the other group |
| ScheduleProps.SplitShape | schedule.js:700-736 | an accepted split keeps the start; the halves sum to the original, are each at least 15, and the second starts 5 after the first ends; the first is the snapped click offset when that is in range |
| ScheduleProps.SplitInvalidIff | schedule.js:704-713 | a split is refused as having no valid point iff the segment is shorter than 30 |
| ScheduleProps.SplitOvershootsTimelineEnd | schedule.js:719 | the second half is not clamped: splitting 1500+60 at 30 gives a half ending at 1565 |
| ScheduleProps.SplitExample | schedule.js:700-736 | splitting 600+60 at 25 gives 600+25 and 630+35 |
| ScheduleProps.ReplaceSegmentPreservesNoOverlap | schedule.js:730-736 | replacing a segment by a piece of it and a half that collides with nothing else keeps the schedule overlap-free |
| ScheduleProps.SplitPreservesNoOverlap | schedule.js:684-745 | an accepted split keeps the schedule overlap-free and ids unique |
| ScheduleProps.RemoveGroupPreserves | schedule.js:749-759 | deleting a group keeps the schedule overlap-free and ids unique |
| ScheduleProps.RemoveGroupConcat | schedule.js:749-759 | deleting a group works piecewise: removing from a concatenation is the concatenation of the removals, so the kept groups stay in order |
| ScheduleProps.RemovePresetConcat | schedule.js:139-143 | removing a preset from a concatenation is the concatenation of the removals, so the kept presets stay in order |
| ScheduleProps.ScheduledTaskIdsIff | schedule.js:777-781 | an id is in the set of scheduled task refs iff a task group refers to it |
| ScheduleProps.AuditMembership | schedule.js:763-790 | a task is reported iff the day is loaded, it is in the list, its progress is >= 100 and no task group refers to it |
| ScheduleProps.CompletedOutsideConcat | schedule.js:784 | the audit keeps task order |
| ScheduleProps.PlacedTaskLeavesAudit | schedule.js:396-527 | once a task's block is placed, that task is no longer reported by the audit |
| ScheduleProps.ClockMinutesReadsBack | schedule.js:299-307 | a minute count prints as `HH:MM` that reads back as the hour mod 24 and the minute |
| ScheduleProps.ClockRangeReadsBack | schedule.js:299-307 | the range label reads back as both ends' hour and minute |
| ScheduleProps.ClockMinutesWraps | schedule.js:300-301 | a time 24 hours later prints the same |
| ScheduleProps.ClockRangeWraps | schedule.js:299-307 | a range shifted by 24 hours prints the same |
| ScheduleProps.IndicatorShownIff | schedule.js:199-203 | the indicator is hidden iff the time is between 02:00 and 07:00; before 02:00 it sits at minute m + 1440 - 420 |
| ScheduleModule.FindTouching | schedule.js:655-676 | the scan returns the first touching pair of the current segments |
| ScheduleModule.CheckMergeOpportunity | schedule.js:642-680 | the in-place loop gives the same flag and segments as the merge plan, and changes nothing else in the group |
| ScheduleModule.ScanCollisions | schedule.js:311-343 | the nested loop reports a collision iff some considered segment overlaps the half-open interval |
| ScheduleModule.DecideDrop | schedule.js:396-527 | the drop's checks in order give the planned outcome; a placed group has one segment |
| ScheduleModule.DecideMove | schedule.js:572-604 | the drag step gives the planned move outcome |
| ScheduleModule.DecideSplit | schedule.js:684-745 | the split gives the planned outcome |
| ScheduleModule.AuditAll | schedule.js:763-790 | the audit reports exactly the completed tasks of a loaded day with no task block |
| ScheduleModule.Scheduler.constructor | schedule.js:15-19 | a fresh scheduler is idle, with no drag target or source |
| ScheduleModule.Scheduler.CurrentSchedule | schedule.js:238-248 | the current schedule is the day's schedule, or empty with no day loaded |
| ScheduleModule.Scheduler.SetCurrentSchedule | schedule.js:250-256 | the schedule is stored only when a day is loaded |
| ScheduleModule.Scheduler.CheckCollision | schedule.js:311-343 | reports a collision with the current schedule iff some considered segment overlaps |
| ScheduleModule.Scheduler.Drop | schedule.js:396-527 | a refused drop, or a task drop with no day, changes nothing, and the drag source is not cleared; a placed one appends the group, records the task's duration and clears the source; no overlap is introduced |
| ScheduleModule.Scheduler.StartDrag | schedule.js:552-570 | dragging starts, not yet moved, with the target and the grabbed segment's start |
| ScheduleModule.Scheduler.BlockDrag | schedule.js:572-604 | with no drag, nothing; any nonzero delta sets `hasMoved`, even when the move is refused; only an accepted move changes the schedule, assigning that segment's start; ids stay unique and groups disjoint |
| ScheduleModule.Scheduler.BlockDragEnd | schedule.js:606-637 | dragging stops; the dragged group is merged, and it is persisted iff it merged or moved; with no group, nothing changes |
| ScheduleModule.Scheduler.SplitSegment | schedule.js:684-745 | only an accepted split changes the schedule, replacing the segment by its two halves; no overlap is introduced |
| ScheduleModule.Scheduler.DeleteGroup | schedule.js:749-759 | deletes the groups with that id from a loaded day, keeping it overlap-free |
| ScheduleModule.Scheduler.AddPreset | schedule.js:117-137 | a blank title adds nothing; otherwise one preset with the trimmed title and a clamped duration is appended |
| ScheduleModule.Scheduler.DeletePreset | schedule.js:139-143 | removes exactly the presets with that id |
| ScheduleModule.Scheduler.CompletedButUnscheduledNow | schedule.js:763-790 | the report holds exactly the completed tasks of a loaded day with no task block |
| Utils.ClockParts | utils.js:17-20 | whole seconds split into h*3600 + m*60 + s, with m and s in 0..59 |
| Utils.FormatTime | utils.js:15-25 | 0 ms prints as `00:00` |
| Utils.MinutesSecondsReadBack | utils.js:24 | `mm:ss` is five characters that read back as the minutes and seconds |
| Utils.HoursReadBack | utils.js:23 | an unpadded hour before a colon reads back as that hour |
| Utils.ClockLabelReadsBack | utils.js:22-24 | the label reads back as the hours, minutes and seconds it was built from |
| Utils.FormatTimeReadsBack | utils.js:15-25 | the clock label of ms reads back as the split of `floor(ms/1000)` |
| Utils.HoursMinutes | utils.js:29-31 | whole minutes split into h*60 + m, with m in 0..59 |
| Utils.FormatTimeForAnalytics | utils.js:27-33 | 0 ms prints as `0h 0m`; every label ends in `m` |
| Utils.HoursMinutesSplit | utils.js:32 | in `Hh Mm`, the first `h` follows the hour digits and the minute digits come before a final `m` |
| Utils.FormatTimeForAnalyticsReadsBack | utils.js:27-33 | the label's two numbers are the hours and minutes of `floor(ms/60000)` |
| Utils.CalculateDaysLeft | utils.js:54-78 | no deadline gives null; otherwise an overdue, due-today or days-left label, urgent iff diff <= 2 |
| Utils.NatToStringInjective | utils.js:54-78 | different day counts print differently |
| Utils.DaysLeftLabelDeterminesDiff | utils.js:54-78 | the label determines the day difference |
| Utils.SelectJsonSlice | utils.js:125-136 | no opener gives an error; a slice starts at the first `{` or `[`, whichever is earlier, and ends at the last matching closer after it |
| Utils.SelectJsonSliceMalformed | utils.js:133-134 | the slice is malformed iff there is an opener but no matching closer after it |
| Utils.Min2 | utils.js:132 | the earlier of two found positions, -1 iff neither was found |
| Timers.CalculateTotalTime | timer.js:275-285 | 0 without a timer; with nothing running, `totalWork + totalPomodoro` |
| Timers.StopStopwatch | timer.js:250-254 | stopping adds `now - lastStart` to `totalWork`, clears `isRunning` and `lastStart`, and keeps the pomodoro |
| Timers.StopIfRunning | timer.js:261-267 | a running stopwatch is stopped and any other task is unchanged |
| Timers.StartWatch | timer.js:268-269 | starting sets `isRunning` and `lastStart = now`, keeping the totals |
| Timers.PausedPomodoro | timer.js:188-195 | pausing moves the elapsed time from `remaining` to `totalPomodoro` and stops the pomodoro |
| Timers.PauseTask | timer.js:185-197 | pausing leaves the stopwatch alone |
| Timers.StartPomodoroTask | timer.js:164-182 | starting a pomodoro keeps `totalPomodoro` and leaves the stopwatch's total |
| Timers.ExpiredTask | timer.js:326-331 | expiry leaves the stopwatch alone |
| Timers.StopAll | timer.js:261-267 | every task is stopped, in place |
| Timers.CurrentIndex | timer.js:161 | the index found is that of the current timer task |
| Timers.PausePomodoroResult | timer.js:185-197 | only timers change and no stopwatch is touched; nothing happens unless the panel's pomodoro is running; when it runs, that task's pomodoro is paused (`PauseTask`: the elapsed time moves from `remaining` to `totalPomodoro` and the pomodoro stops) and every other task is unchanged |
| Timers.StartStopwatchResult | timer.js:256-269 | starting keeps every task's id and whether it has a timer |
| Timers.ToggleResult | timer.js:238-273 | toggling, including the closing `updateTimerUI` expiry, keeps the task ids and gives no task's timer away |
| Timers.GiveTimer | timer.js:245-247 | a task without a timer gets a fresh one; nothing else changes |
| Timers.ToggleAt | timer.js:238-273 | toggling keeps every task's id and whether it has a timer |
| Timers.StartPomodoroResult | timer.js:159-183 | starting a pomodoro, including the closing `updateTimerUI` expiry, keeps the task ids |
| Timers.StopBeforePomodoro | timer.js:164-166 | the stopwatch is stopped first; a pomodoro that is not running is untouched, and nothing changes when the stopwatch was not running |
| Timers.ResetPomodoroResult | timer.js:199-209 | reset sets `remaining := duration`, not running, keeping the duration, the stopwatch and `totalPomodoro`; no other task changes, a task without a timer or pomodoro is left alone, and running timers keep their start times |
| Timers.ResetStopwatchResult | timer.js:211-220 | reset sets `totalWork := 0`, not running, keeping `totalPomodoro`, the pomodoro and the rest of the task; no other task changes, and running timers keep their start times |
| Timers.ManualTimeResult | timer.js:222-236 | unparsable input changes nothing; otherwise `totalWork` becomes the entered milliseconds and `totalPomodoro` 0, with the running state, the pomodoro and the other tasks kept |
| Timers.ExpiryResult | timer.js:321-331 | the expiry check keeps the ids and every stopwatch, changes only the panel's running pomodoro (and stops it), and keeps running timers' start times |
| Timers.ExpiryIdle | timer.js:321-326 | the expiry check changes nothing unless the panel's pomodoro runs and its time is up |
| Timers.StopKeepsTotal | timer.js:250-254 | stopping a running stopwatch does not change the shown total at that instant |
| Timers.PauseKeepsTotal | timer.js:188-195 | pausing does not change the shown total at that instant |
| Timers.StartWatchKeepsTotal | timer.js:268-269 | starting does not change the shown total at that instant |
| Timers.StartPomodoroTaskKeepsTotal | timer.js:164-182 | starting a pomodoro does not change the shown total at that instant |
| Timers.StopAllKeepsTotals | timer.js:261-267 | stopping every stopwatch keeps every task's shown total |
| Timers.PausePomodoroResultKeepsTotals | timer.js:185-197 | `pausePomodoro` keeps every task's shown total |
| Timers.StartStopwatchOnlyTarget | timer.js:256-269 | after starting, the target is the only running stopwatch, with `lastStart = now`, and every other stopwatch that ran got its elapsed time added |
| Timers.ToggleStartsOnlyTarget | timer.js:238-273 | toggling a stopped stopwatch makes it the only running one, every stopped one having got its run time |
| Timers.ToggleStopsRunning | timer.js:250-254 | toggling a running stopwatch stops it with its run time added, leaves every other stopwatch alone, and with no pomodoro running changes nothing else |
| Timers.StartStopwatchKeepsTotals | timer.js:256-269 | starting keeps every task's shown total |
| Timers.ToggleKeepsTotals | timer.js:238-273 | toggling keeps every task's shown total |
| Timers.StartPomodoroKeepsTotals | timer.js:159-183 | starting a pomodoro keeps every task's shown total and every running timer's start time |
| Timers.ExpiryFiresWhenTimeIsUp | timer.js:321-331 | before the time is up nothing changes; once it is, the pomodoro stops, is full again, its run time goes into `totalPomodoro`, and no other task changes |
| Timers.ExpiryKeepsTotals | timer.js:321-331 | expiry keeps every task's shown total |
| Timers.ManualTimeSetsTotal | timer.js:226-232 | after a manual entry, the stopped task's total time is the entered milliseconds |
| Timers.ResetPomodoroSettles | timer.js:199-209 | the `updateTimerUI` closing a pomodoro reset changes nothing |
| Timers.StartPomodoroStarts | timer.js:159-183 | afterwards the stopwatch is stopped; a new pomodoro is a full 25 minutes started now, a paused one with time left resumes now, and one already running is left alone |
| Timers.StartPomodoroExpiresAtOnce | timer.js:159-197 | a paused pomodoro with no time left is expired by the closing `updateTimerUI` as soon as it resumes: stopped, full again, nothing added to `totalPomodoro` |
| Timers.TimerBoard.constructor | timer.js:160-161 | a board holds the day's tasks and the current timer task |
| Timers.TimerBoard.PausePomodoro | timer.js:185-197 | the tasks become the pause result |
| Timers.TimerBoard.ToggleStopwatch | timer.js:238-273 | the tasks become the toggle result, the `updateTimerUI` expiry included |
| Timers.TimerBoard.ToggleAtIndex | timer.js:245-270 | the tasks become the toggle result for that task |
| Timers.TimerBoard.StartStopwatch | timer.js:256-269 | the tasks become the start result |
| Timers.TimerBoard.StopAllStopwatches | timer.js:261-267 | the loop stops every running stopwatch |
| Timers.TimerBoard.StartPomodoro | timer.js:159-183 | the tasks become the pomodoro start result, the `updateTimerUI` expiry included |
| Timers.TimerBoard.ResetPomodoro | timer.js:199-209 | the tasks become the pomodoro reset result; the closing `updateTimerUI` is run and changes nothing |
| Timers.TimerBoard.ResetStopwatch | timer.js:211-220 | the tasks become the stopwatch reset result |
| Timers.TimerBoard.UpdateManualTime | timer.js:222-236 | the tasks become the manual-time result |
| Timers.TimerBoard.UpdateTimerUI | timer.js:287-376 | the tasks become the expiry result |
| TaskController.CompletedCount | controllers/task-controller.js:139 | the completed count is 0 iff none is completed, and the total iff all are |
| TaskController.Recomputed | controllers/task-controller.js:137-142 | only `progress` changes, and not at all without subtasks |
| TaskController.RecomputedProgressBounds | controllers/task-controller.js:139-140 | recomputed progress is in 0..100; all completed gives 100 and none gives 0 |
| TaskController.FindSubtask | controllers/task-controller.js:106 | the first subtask with the id, or -1 iff there is none |
| TaskController.RemoveSubtasks | controllers/task-controller.js:119 | exactly the subtasks with another id are kept |
| TaskController.RemoveSubtasksConcat | controllers/task-controller.js:119 | the filter keeps subtask order |
| TaskController.ToggleTwiceRestores | controllers/task-controller.js:103-114 | toggling the same subtask twice restores the task |
| TaskController.DeleteAllSubtasksKeepsProgress | controllers/task-controller.js:116-124 | deleting the last subtasks leaves progress at its prior value |
| TaskController.DailyTasks.constructor | controllers/task-controller.js:16 | the controller holds the day's task list |
| TaskController.DailyTasks.AddDailyTask | controllers/task-controller.js:11-28 | blank input adds nothing; otherwise one task with the quadrant, progress 0, a zeroed timer and no subtasks is appended |
| TaskController.DailyTasks.UpdateDailyText | controllers/task-controller.js:43-50 | the content changes only when the task exists and the text differs |
| TaskController.DailyTasks.ResetTask | controllers/task-controller.js:76-84 | progress of the task is set to 0 |
| TaskController.DailyTasks.AddSubtask | controllers/task-controller.js:88-101 | blank input adds nothing; otherwise one incomplete subtask is appended and progress recomputed |
| TaskController.DailyTasks.ToggleSubtask | controllers/task-controller.js:103-114 | only the matching subtask flips, and that task's progress is recomputed |
| TaskController.DailyTasks.DeleteSubtask | controllers/task-controller.js:116-124 | subtasks with the id are removed and progress recomputed |
| Calendar.HeatmapLevel | calendar.js:145-151 | 0 iff the rate is 0, then 1, 2, 3 up to 25, 50 and 75, otherwise 4 |
| Calendar.HeatmapMonotone | calendar.js:145-151 | the level never falls as the rate grows |
| Calendar.MondayOffset | calendar.js:77-78 | Sunday gives 6 and any other day `getDay()-1`, always in 0..6 |
| Calendar.MondayOffsetBijective | calendar.js:77-78 | different weekdays get different columns |
| Calendar.DateKey | calendar.js:94 | for a month 0..11 and a day 0..99 the key is the year, `-`, two digits reading back as month + 1, `-`, and two digits reading back as the day |
| Calendar.DayCell | calendar.js:93-123 | a day cell has its number, date key, heat level and overdue flag from the stats (0 and false without), and is today iff its key is today's |
| Calendar.TrailingCount | calendar.js:126-135 | the trailing fill is below 7 and makes the cell count a multiple of 7 |
| Calendar.LeadCells | calendar.js:81-88 | the leading padding shows `prevMonthDays - startDay + 1` up to `prevMonthDays`, in order |
| Calendar.DayCells | calendar.js:93-123 | one cell per day of the month |
| Calendar.DayCellsAt | calendar.js:93-123 | the cell for day d is the (d-1)-th day cell |
| Calendar.TrailCells | calendar.js:134-141 | the trailing padding is numbered from 1 |
| Calendar.GridShape | calendar.js:60-143 | the grid is the leading padding, the days 1..n and the trailing padding, and its length is a multiple of 7 less than 7 above the day cells |
| Calendar.DoneCount | calendar.js:191 | the completed count equals the total iff every task has a progress of 100 or more |
| Calendar.StatsOf | calendar.js:189-202 | without tasks `{0, false}`; with tasks, the rate is in 0..100, is 100 iff 99.5% are done, and there is an overdue flag iff the date is before today and some task is open |
| Calendar.LastRecord | calendar.js:184-203 | the last entry of the month for a date key, or -1 iff none |
| Calendar.MonthStats | calendar.js:184-203 | the month's map has a key iff some entry of that month has that date, holding the last such entry's stats |
| Calendar.MonthStatsStep | calendar.js:184-203 | one more entry adds or overwrites only its own date, and only when it is in the month |
| Calendar.CalendarView.constructor | calendar.js:2-9 | the cache starts empty |
| Calendar.CacheKey | calendar.js:155 | for a non-negative year the key is the year's digits, a `-`, then the month number |
| Calendar.CacheKeyInjective | calendar.js:155-157 | two months with non-negative year and month number never share a cache key |
| Calendar.CalendarView.FetchMonthData | calendar.js:153-216 | a cached month is returned as it is; otherwise the month's stats are computed and stored under `year-month` |
| Calendar.CalendarView.InvalidateCache | calendar.js:218-241 | no date clears the cache; a date removes only its month's key; an unparsable one changes nothing |
| Calendar.CalendarView.Render | calendar.js:60-143 | the grid uses the Monday-first offset and the month's cached stats |
| Calendar.CollectMonthStats | calendar.js:184-203 | the loop over the entries builds the month's stats map |
| Calendar.LeadingPadding | calendar.js:81-88 | the loop builds the leading padding |
| Calendar.MonthDays | calendar.js:93-123 | the loop builds the day cells |
| Calendar.TrailingPadding | calendar.js:126-141 | the loop builds the trailing padding |
| DragDropManager.PreviewText | drag-drop-manager.js:17 | text over 40 characters becomes its first 40 plus `...`; empty text becomes `任务`; other text is kept |
| DragDropManager.FreshTask | drag-drop-manager.js:165-172 | a new task has the fresh id, the content and quadrant, progress 0, a zeroed timer and no subtasks |
| DragDropManager.FromWeekly | drag-drop-manager.js:165-172 | a weekly drop yields a task with the new id, the weekly content, the target quadrant, progress 0, a stopped empty timer, no subtasks and no template |
| DragDropManager.FromRecurring | drag-drop-manager.js:208-216 | a recurring drop yields a task with the new id, the template's title as content, the target quadrant, progress 0, a stopped empty timer, no subtasks and `templateId` the template's id |
| DragDropManager.FromInbox | drag-drop-manager.js:222-229 | an inbox drop yields a task with the new id, the item's content, the target quadrant, progress 0, a stopped empty timer, no subtasks and no template |
| DragDropManager.FromRecommendation | drag-drop-manager.js:196-203 | a recommendation drop yields a fresh id and zeroed timer, copying content and subtasks, with the progress or 0 when it has none |
| DragDropManager.RemoveInboxItem | drag-drop-manager.js:219-221 | removing an inbox item keeps exactly the items with another id |
| DragDropManager.RemoveInboxItemConcat | drag-drop-manager.js:219-221 | removing an inbox item from a concatenation is the concatenation of the removals, so the kept items stay in order |
| DragDropManager.RemoveAt | drag-drop-manager.js:178 | `splice(i, 1)` removes exactly position i |
| DragDropManager.InsertIndex | drag-drop-manager.js:244-248 | the insertion index is that of `dropBeforeId` when found, and the end of the list otherwise |
| DragDropManager.InsertAt | drag-drop-manager.js:249 | `splice(k, 0, t)` puts t at k and shifts the rest |
| DragDropManager.Strategy | drag-drop-manager.js:164-231 | each source type gives its task, list changes and undo record; an unknown type or a missing item gives none and changes no list |
| DragDropManager.DropResult | drag-drop-manager.js:242-250 | with no task the list is kept; otherwise the task is inserted at the insertion index |
| DragDropManager.RemoveAtIds | drag-drop-manager.js:178 | removing a task removes exactly its id from the multiset of ids |
| DragDropManager.InsertAtIds | drag-drop-manager.js:249 | inserting a task adds exactly its id |
| DragDropManager.DailyMoveKeepsTasks | drag-drop-manager.js:174-189 | a day-to-day move keeps the list length and the ids, with the moved task in its new quadrant at the insertion index |
| DragDropManager.DailyDropKeepsTasks | drag-drop-manager.js:174-189 | the daily strategy then drop keep the length and ids, and the undo record holds the original quadrant |
| DragDropManager.UndoDailyMove | drag-drop-manager.js:179-185 | undoing such a move gives the task its old quadrant back at its new position |
| DragDropManager.DropZone.constructor | drag-drop-manager.js:252-254 | no drag is in progress |
| DragDropManager.DropZone.RunStrategy | drag-drop-manager.js:239-240 | the lists and undo state become the strategy's result |
| DragDropManager.DropZone.Drop | drag-drop-manager.js:233-258 | the task list becomes the drop result, the other lists the strategy's, and the drag state is always cleared; the undo buffer's list for the viewed day becomes the same list, since both are the one shared array |
| DragDropManager.DropZone.Undo | undo-system.js:34-63 | the buffer undoes its state and drops it, and the viewed day's list becomes the buffer's list for that day, so the two stay one list |
| DragDropManager.DropThenUndoDaily | undo-system.js:46-56 | a daily drop followed by undo on the shared day list gives the moved task its old quadrant back at the position the drop gave it |
| DragDropManager.DropZone.InsertTask | drag-drop-manager.js:243-249 | the task is inserted at the insertion index |
| UndoSystem.Undone | undo-system.js:34-63 | a deleted task goes back at the end of its loaded day; a found moved task gets `fromQuadrant`; other days and unloaded days are unchanged |
| UndoSystem.UndoBuffer.constructor | undo-system.js:34-36 | the buffer starts empty |
| UndoSystem.UndoBuffer.StoreDay | drag-drop-manager.js:249 | the buffer's list for the day becomes the given list, every other day unchanged, as when the shared array is spliced in place |
| UndoSystem.UndoneMoveLocal | undo-system.js:48-50 | undoing a move depends only on the list of the day it came from |
| UndoSystem.UndoBuffer.PushUndo | undo-system.js:11-13 | the new state replaces any previous one |
| UndoSystem.UndoBuffer.Expire | undo-system.js:28-31 | the timeout clears the state |
| UndoSystem.UndoBuffer.PerformUndo | undo-system.js:34-63 | with no state nothing happens; otherwise the state is undone and cleared |
| UndoSystem.UndoDeleteRestoresTasks | undo-system.js:38-45 | delete then undo gives the same multiset of tasks, the restored one last |
| UndoSystem.UndoMoveRestoresQuadrant | undo-system.js:46-56 | move then undo gives the original list back |
| FinalizeDay.Unfinished | finalize-day.js:48 | exactly the tasks with a progress below 100; a task with no progress compares false and stays behind |
| FinalizeDay.UnfinishedConcat | finalize-day.js:48 | the unfinished tasks of a concatenation are those of each part, in order |
| FinalizeDay.UncompletedWeekly | finalize-day.js:53 | exactly the weekly tasks not completed |
| FinalizeDay.WeeklyCandidate | finalize-day.js:126 | a weekly item migrates with its content, quadrant 2, progress 0, no timer and no subtasks |
| FinalizeDay.WeeklyCandidates | finalize-day.js:126 | one migration item per weekly task |
| FinalizeDay.Plain | finalize-day.js:123 | one migration item per daily task |
| FinalizeDay.PlainMembers | finalize-day.js:123 | the daily items are exactly the given tasks, not prefixed |
| FinalizeDay.WeeklyMembers | finalize-day.js:126 | the weekly items are exactly those of the given weekly tasks |
| FinalizeDay.RecsOf | finalize-day.js:57 | a missing recommendation list counts as empty |
| FinalizeDay.MigrationItems | finalize-day.js:48-59 | the count is unfinished tasks plus, on Sunday, uncompleted weekly tasks, plus recommendations |
| FinalizeDay.MigrationSelection | finalize-day.js:48-59 | an item is an unfinished task or a recommendation, or, on Sunday only, every uncompleted weekly task |
| FinalizeDay.RecContent | finalize-day.js:108 | a weekly item's content gets the `[周任务] ` prefix |
| FinalizeDay.NewRec | finalize-day.js:111-118 | a new recommendation has the fresh id, the content, quadrant default 4, the progress or 0 when it has none, a zeroed timer and the subtasks |
| FinalizeDay.AddRec | finalize-day.js:107-120 | an item whose content is already present adds nothing; otherwise its recommendation is appended |
| FinalizeDay.Migrated | finalize-day.js:123-129 | migrating keeps the existing recommendations in front and adds at most one per item |
| FinalizeDay.MigratedKeepsContentsDistinct | finalize-day.js:107-120 | de-duplication keeps distinct contents, also against items added in the same pass |
| FinalizeDay.MigratedCoversItems | finalize-day.js:123-129 | after migrating, every item's content is present |
| FinalizeDay.MigratedAddsOnlyCandidates | finalize-day.js:111-118 | every added recommendation is made from one of the items |
| FinalizeDay.MigratedAddsAllFresh | finalize-day.js:107-120 | items with distinct contents absent from the target are all added |
| FinalizeDay.PreparedTarget | finalize-day.js:93-102 | a missing day, recommendation list or schedule is created empty; the rest is kept |
| FinalizeDay.Lookup | finalize-day.js:94 | a day is found iff its date is a key |
| FinalizeDay.Finalized | finalize-day.js:93-129 | tomorrow is the prepared day with its recommendations migrated |
| FinalizeDay.FinalizedDay | finalize-day.js:93-129 | tomorrow's tasks and schedule are kept; the old recommendations stay in front; every item's content is present; distinct contents stay distinct |
| FinalizeDay.Week.constructor | finalize-day.js:44-59 | a week holds its days and weekly tasks |
| FinalizeDay.ContainsContent | finalize-day.js:109 | the scan finds a recommendation with that content iff there is one |
| FinalizeDay.AddRecs | finalize-day.js:107-129 | the loop gives the migrated list |
| FinalizeDay.FinalizeDayAndWeek | finalize-day.js:44-129 | no day record or a zero count migrates nothing, and nor does a declined confirm; otherwise tomorrow becomes the finalised day, and the count is the item count |
| Snippets.ReplaceAll | snippets.js:94-99 | a replaced character is gone unless the replacement holds it, and text without it is kept |
| Snippets.ReplaceAllConcat | snippets.js:94-99 | replacing distributes over concatenation |
| Snippets.EscapeHtml | snippets.js:93 | falsy (empty) input is returned as it is |
| Snippets.EscapeChar | snippets.js:94-99 | each character's entity holds no `<`, `>`, `"` or `'`, and other characters map to themselves |
| Snippets.EscapeEach | snippets.js:94-99 | escaping character by character leaves no `<`, `>`, `"` or `'` |
| Snippets.ReplaceChainConcat | snippets.js:94-99 | the five replacements distribute over concatenation |
| Snippets.ReplaceChainChar | snippets.js:94-99 | on one character the chain gives its entity; `&` goes first, so entities are not escaped twice |
| Snippets.EscapeHtmlIsCharacterMap | snippets.js:92-100 | `escapeHtml` is the per-character entity map |
| Snippets.EscapeHtmlSafe | snippets.js:92-100 | escaped text has no `<`, `>`, `"` or `'` |
| Snippets.FindSnippet | snippets.js:143 | the first snippet with the id, or -1 iff there is none |
| Snippets.WithoutId | snippets.js:168 | the filter keeps exactly the snippets with another id |
| Snippets.WithoutIdConcat | snippets.js:168 | the filter keeps order |
| Snippets.WithoutIdAbsent | snippets.js:168 | deleting an absent id changes nothing |
| Snippets.Saved | snippets.js:131-163 | an empty description or content changes nothing; add mode appends exactly one snippet |
| Snippets.SavedEdit | snippets.js:141-148 | in edit mode only the matching snippet changes, in its type, description and content |
| Snippets.SnippetStore.constructor | snippets.js:126-129 | no snippet is being edited |
| Snippets.SnippetStore.OpenSnippetModal | snippets.js:102-124 | the edit id is set whether or not the snippet is found |
| Snippets.SnippetStore.SaveSnippetFromModal | snippets.js:131-163 | the list becomes the saved result; the edit id is cleared once saved and kept when the input is refused |
| Snippets.SnippetStore.DeleteSnippet | snippets.js:165-176 | after the confirm, exactly the snippets with that id are removed; without the dialog nothing changes |

## Left out

- DOM rendering, HTML strings, toasts, alerts, audio, CSS and the drag
  indicator have no model. Saving to disk and re-rendering are left out as
  effects with no logic.
- File reads and writes have no model: the calendar's week files, the next
  week's file in day finalisation, and the presets file. The calendar takes the
  week files' day records as a list of entries.
- The clock, `uuid()`, `Date.now().toString(36)` and `Math.random()` are
  parameters.
- The weekday, the days in a month and the previous month's length are inputs,
  because the source computes them with `Date`. So are the parsed month of
  `invalidateCache` and the integer day difference of `calculateDaysLeft`.
- Floating-point arithmetic is taken as exact. `Math.round(a / b)` is the exact
  rational rounded half up, and pixel offsets are whole numbers.
- A `TypeError` the source would raise, such as reading `timer.isRunning` of a
  task with no timer, is modelled as the handler changing nothing. The
  exception stops the handler before any write.
- `updateManualTime` reads a number from an input box. The product
  `newTime * 60000` (`None` when the input is empty or not numeric) is the
  input of `Timers.TimerBoard.UpdateManualTime`, so a fractional entry such as
  `1.5` is the 90000 it gives.
- Timers.ManualTimeResult: the string-to-number conversion is not modelled,
  and the entered time is a whole number of milliseconds; an entry whose
  product with 60000 has a fractional part (below a thousandth of a minute)
  is not represented.
- Timers.TimerBoard.UpdateTimerUI: only the pomodoro-expiry branch is
  modelled. The display updates are not, and the display element is assumed
  present.
- Timers.TimerBoard, TaskController.DailyTasks, ScheduleModule.Scheduler:
  each holds its own copy of the viewed day's task list. In the source these
  are all the one array `dailyData[currentDateStr].tasks`, so a change made
  through one is seen at once by the others and by the drop and undo code.
  Only `DragDropManager.DropZone` and `UndoSystem.UndoBuffer` are kept in step
  (`DropZone.Shared`); the other copies are not connected, and each class's
  properties hold for its own copy.
- `deleteDailyTask` is not modelled as an operation. Only its effect on the
  list, followed by undo, appears, in `UndoSystem.UndoDeleteRestoresTasks`.
- `updateSubtaskContent` and `updateDailyProgressUI` are not modelled. They
  only assign an input field's value.
- UndoSystem.Undone: undoing a move across quadrants restores the quadrant,
  as the source does. It does not restore the task's position in the list
  (see `DragDropManager.UndoDailyMove`).
- A task's `progress` is a number or missing. A `null` progress, which
  JavaScript compares as 0, is not told apart from a missing one, which
  compares false.
- Schedule.PlanMove: a drag whose `originalStart` was never recorded (the
  segment was missing at `startDrag` but is present at `mousemove`) is
  refused, with nothing changed. The source computes `undefined + delta`,
  which is NaN, passes the collision check with it and writes NaN into the
  segment's start (`schedule.js:589-600`). A segment start is a whole number
  of minutes here, so that corrupted state is not represented.
- ScheduleModule.DecideMove: the same refusal, for the same reason, stands
  in for the NaN start.
- ScheduleModule.Scheduler.BlockDrag: with `originalStart` missing the
  schedule is unchanged, where the source would store the NaN start.
- DragDropManager.DropZone.Drop: the current day's task list is always
  present. With the day not loaded the source throws: the daily and
  recommendation strategies fail before changing anything
  (`drag-drop-manager.js:175`, `:192`), the inbox strategy has already removed
  its item when the lookup at `drag-drop-manager.js:243` fails, and in every
  case the drag state (`drag-drop-manager.js:252-254`) is left set. That path
  is not represented.
- Schedule.FormatTimeRange: its read-back is proved about `ClockRange`, the
  label of a start and an end minute. The addition of the duration is left as
  it is.
- FinalizeDay.FinalizeDayAndWeek:
  - whether the next day lies in another week is decided by the caller, which
    passes the target week; the file read and write around it are left out;
  - the confirmation dialog and the warning about completed but unscheduled
    tasks are folded into one `confirmed` input;
  - one fresh id is supplied per migration item, used or not.
- Snippets.EscapeHtml: the falsy inputs other than the empty string (null and
  undefined) are not modelled.
- The snippet list's rendering, highlighting and toasts are left out. So is
  the AI refinement of a snippet, which is network code.
- DragDropManager.PreviewText counts UTF-16 code units as Dafny characters.
- The JSON text's parsing, `stripModelThinking` and `repairJsonString` are
  regular-expression and library behaviour, and are left out. Only the choice
  of the slice is modelled.
- Event-listener wiring is left out: `mousemove` and `mouseup` registration, a
  `mouseup` that never arrives, `setInterval`, `setTimeout` and `debounce`.
