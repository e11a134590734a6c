/** The time-blocking timeline of one day (schedule.js): values and the pure
    decisions the event handlers take. The handlers themselves, which change the
    day's schedule, are the methods of `ScheduleModule.Scheduler`; the properties
    relating several decisions are in `ScheduleProps`.

    Times are minutes from midnight of the viewed day; the timeline runs from
    07:00 (420) to 02:00 of the next day (1560), one pixel per minute. */
module Schedule {
  import opened JsSemantics
  import opened Records

  const TimelineStart: int := 420
  const TimelineEnd: int := 1560
  const PixelPerMin: int := 1
  const SnapInterval: int := 5
  const MinDuration: int := 15
  const DefaultDuration: int := 30
  const SplitGap: int := 5
  /** The longest default duration a preset can be given. */
  const MaxPresetDuration: int := 480

  // ---------------------------------------------------------------------------
  // Data

  datatype Segment = Segment(start: int, duration: int)

  datatype GroupKind = TaskBlock | PresetBlock

  /** A scheduled block: one or more segments, all drawn with the same title and
      colour. `refId` is the task's or the preset's id. */
  datatype Group = Group(id: string, kind: GroupKind, refId: string, title: string,
                         colorHue: int, segments: seq<Segment>)

  function End(s: Segment): int { s.start + s.duration }

  /** The two segments share no minute (touching ends are allowed). */
  predicate Disjoint(a: Segment, b: Segment) { End(a) <= b.start || End(b) <= a.start }

  /** `x` lies inside `o`. */
  predicate Within(x: Segment, o: Segment) { o.start <= x.start && End(x) <= End(o) }

  predicate InnerDisjoint(g: Group)
  {
    forall i, j :: 0 <= i < j < |g.segments| ==> Disjoint(g.segments[i], g.segments[j])
  }

  predicate GroupsDisjoint(g: Group, h: Group)
  {
    forall i, j :: 0 <= i < |g.segments| && 0 <= j < |h.segments| ==>
      Disjoint(g.segments[i], h.segments[j])
  }

  /** No two blocks of different groups overlap. */
  predicate CrossGroupDisjoint(s: seq<Group>)
  {
    forall k1, k2 :: 0 <= k1 < k2 < |s| ==> GroupsDisjoint(s[k1], s[k2])
  }

  /** No two segments of the day overlap at all. */
  predicate NoOverlap(s: seq<Group>)
  {
    (forall k :: 0 <= k < |s| ==> InnerDisjoint(s[k])) && CrossGroupDisjoint(s)
  }

  predicate UniqueGroupIds(s: seq<Group>)
  {
    forall k1, k2 :: 0 <= k1 < k2 < |s| ==> s[k1].id != s[k2].id
  }

  // ---------------------------------------------------------------------------
  // Small computations

  /** `Math.round(m / SNAP_INTERVAL) * SNAP_INTERVAL`: the multiple of five
      nearest to m, a tie going up. */
  function SnapMinutes(m: int): (r: int)
    ensures r % SnapInterval == 0
    ensures -SnapInterval < 2 * (r - m) <= SnapInterval
  {
    RoundDiv(m, SnapInterval) * SnapInterval
  }

  /** The colour hue of a task block, by Eisenhower quadrant. */
  function QuadrantHue(quadrant: int): (hue: int)
    ensures quadrant == 1 ==> hue == 0
    ensures quadrant == 2 ==> hue == 45
    ensures quadrant == 3 ==> hue == 200
    ensures quadrant == 4 ==> hue == 120
    ensures !(1 <= quadrant <= 4) ==> hue == 210
  {
    if quadrant == 1 then 0
    else if quadrant == 2 then 45
    else if quadrant == 3 then 200
    else if quadrant == 4 then 120
    else 210
  }

  /** One "HH:MM" of `formatTimeRange`: the hour is taken modulo 24 so that
      times after midnight read as early-morning times. */
  function ClockMinutes(mins: int): (r: string)
    ensures mins >= 0 ==> |r| == 5 && r[2] == ':' && AllDigits(r[..2]) && AllDigits(r[3..])
  {
    var h, m := JsRem(mins / 60, 24), JsRem(mins, 60);
    var r := TwoDigits(h) + ":" + TwoDigits(m);
    if mins >= 0 then
      TwoDigitsRoundTrip(h);
      TwoDigitsRoundTrip(m);
      assert r[..2] == TwoDigits(h) && r[3..] == TwoDigits(m);
      r
    else r
  }

  /** "HH:MM - HH:MM" of a start and an end time. */
  function ClockRange(startMins: int, endMins: int): (r: string)
    ensures startMins >= 0 && endMins >= 0 ==>
      |r| == 13 && r[..5] == ClockMinutes(startMins) && r[5..8] == " - " && r[8..] == ClockMinutes(endMins)
  {
    ClockMinutes(startMins) + " - " + ClockMinutes(endMins)
  }

  /** `formatTimeRange`: the range from the start to the start plus the
      duration. */
  function FormatTimeRange(startMins: int, duration: int): (r: string)
    ensures startMins >= 0 && duration >= 0 ==>
      |r| == 13 && r[..5] == ClockMinutes(startMins) && r[8..] == ClockMinutes(startMins + duration)
  {
    ClockRange(startMins, startMins + duration)
  }

  /** The default duration a new preset gets from the number typed (None when
      the field does not parse): `parseInt(v) || 30`, then clamped to 15..480. */
  function NewPresetDuration(typed: Option<int>): (d: int)
    ensures MinDuration <= d <= MaxPresetDuration
    ensures (typed.None? || typed.value == 0) ==> d == DefaultDuration
    ensures typed.Some? && MinDuration <= typed.value <= MaxPresetDuration ==> d == typed.value
    ensures typed.Some? && typed.value != 0 && typed.value < MinDuration ==> d == MinDuration
    ensures typed.Some? && typed.value > MaxPresetDuration ==> d == MaxPresetDuration
  {
    var duration := if typed.Some? && typed.value != 0 then typed.value else DefaultDuration;
    Max(MinDuration, Min(MaxPresetDuration, duration))
  }

  /** `updateCurrentTimeIndicator`: the vertical position of the "now" line for
      a wall-clock time, or None when the line is hidden. Times before 02:00 are
      drawn at the bottom, as the end of the previous day. */
  function IndicatorTop(hours: int, minutes: int): (top: Option<int>)
    ensures top.Some? ==> 0 <= top.value <= (TimelineEnd - TimelineStart) * PixelPerMin
  {
    var m := hours * 60 + minutes;
    var current := if m < TimelineStart && m < 120 then m + 1440 else m;
    if TimelineStart <= current <= TimelineEnd then Some((current - TimelineStart) * PixelPerMin)
    else None
  }

  // ---------------------------------------------------------------------------
  // Collision

  /** `checkCollision`'s two optional arguments. An empty group id is falsy and
      ignores nothing. */
  datatype Exclusion = ExcludeNothing | ExcludeGroup(groupId: string) | ExcludeSegment(groupId: string, index: int)

  /** Whether segment i of group g is left out of a collision test. */
  predicate Skipped(g: Group, i: int, ex: Exclusion)
  {
    match ex
    case ExcludeNothing => false
    case ExcludeGroup(id) => id != "" && g.id == id
    case ExcludeSegment(id, k) => id != "" && g.id == id && i == k
  }

  /** The proposed interval [start, start + duration) meets `seg`. */
  predicate Overlaps(start: int, duration: int, seg: Segment)
  {
    start < End(seg) && start + duration > seg.start
  }

  /** Some segment taking part in the test overlaps the proposed interval. */
  predicate Collides(s: seq<Group>, start: int, duration: int, ex: Exclusion)
    ensures (forall g, i :: 0 <= g < |s| && 0 <= i < |s[g].segments| ==> End(s[g].segments[i]) <= start)
      ==> !Collides(s, start, duration, ex)
  {
    exists g, i :: 0 <= g < |s| && 0 <= i < |s[g].segments| && !Skipped(s[g], i, ex)
      && Overlaps(start, duration, s[g].segments[i])
  }

  /** `schedule.find(g => g.id === id)`, as an index (-1 when absent). */
  function FindGroup(s: seq<Group>, id: string): (k: int)
    ensures -1 <= k < |s|
    ensures k == -1 <==> forall j :: 0 <= j < |s| ==> s[j].id != id
    ensures k >= 0 ==> s[k].id == id && forall j :: 0 <= j < k ==> s[j].id != id
  {
    if s == [] then -1
    else if s[0].id == id then 0
    else var k := FindGroup(s[1..], id); if k < 0 then -1 else k + 1
  }

  // ---------------------------------------------------------------------------
  // Dropping a task or a preset on the timeline

  /** A day's time spent on the task, in milliseconds: the stopwatch total plus
      the pomodoro total (read from the pomodoro record when it carries a
      number there, from the timer otherwise). */
  function TrackedTime(t: Task): (r: int)
    ensures t.timer.None? ==> r == 0
    ensures t.timer.Some? && t.timer.value.totalWork >= 0 && t.timer.value.totalPomodoro >= 0
      && (t.timer.value.pomodoro.Some? && t.timer.value.pomodoro.value.totalPomodoro.Some?
          ==> t.timer.value.pomodoro.value.totalPomodoro.value >= 0)
      ==> r >= t.timer.value.totalWork >= 0
  {
    match t.timer
    case None => 0
    case Some(tm) =>
      tm.totalWork
        + (if tm.pomodoro.Some? && tm.pomodoro.value.totalPomodoro.Some?
           then tm.pomodoro.value.totalPomodoro.value else tm.totalPomodoro)
  }

  /** The length of a block made from a task: tracked time rounded to minutes
      and snapped (at least 15) when there is any, else the duration saved the
      last time the task was scheduled, else 30; anything under 15 becomes 30. */
  function TaskBlockDuration(t: Task): (d: int)
    ensures d >= MinDuration
    ensures TrackedTime(t) > 0 ==> d == Max(MinDuration, SnapMinutes(RoundDiv(TrackedTime(t), 60000)))
    ensures TrackedTime(t) <= 0 && t.duration >= MinDuration ==> d == t.duration
    ensures TrackedTime(t) <= 0 && t.duration < MinDuration ==> d == DefaultDuration
  {
    var total := TrackedTime(t);
    var duration :=
      if total > 0 then Max(MinDuration, SnapMinutes(RoundDiv(total, 60000)))
      else if t.duration != 0 then t.duration
      else DefaultDuration;
    if duration == 0 || duration < MinDuration then Max(DefaultDuration, MinDuration) else duration
  }

  /** `preset.defaultDuration || DEFAULT_DURATION`. */
  function PresetBlockDuration(p: Preset): (d: int)
    ensures p.defaultDuration != 0 ==> d == p.defaultDuration
    ensures p.defaultDuration == 0 ==> d == DefaultDuration
  {
    if p.defaultDuration != 0 then p.defaultDuration else DefaultDuration
  }

  /** The start minute of a drop at the given pixel offset: snapped, and never
      before the timeline starts. */
  function DropStart(offsetY: int): (start: int)
    ensures start >= TimelineStart && start % SnapInterval == 0
    ensures start == Max(TimelineStart, SnapMinutes(offsetY / PixelPerMin + TimelineStart))
  {
    Max(TimelineStart, SnapMinutes(offsetY / PixelPerMin + TimelineStart))
  }

  /** What is left of a block of the given length once cut at the end of the
      timeline. */
  function FittedDuration(start: int, duration: int): (d: int)
    ensures d <= duration && start + d <= TimelineEnd
    ensures start + duration <= TimelineEnd ==> d == duration
    ensures start + duration > TimelineEnd ==> start + d == TimelineEnd
  {
    Min(start + duration, TimelineEnd) - start
  }

  predicate HasTaskBlock(s: seq<Group>, taskId: string)
  {
    exists k :: 0 <= k < |s| && s[k].kind == TaskBlock && s[k].refId == taskId
  }

  datatype DropOutcome =
    | Placed(group: Group)
    | NotForTimeline
    | AlreadyScheduled
    | TooShort
    | Overlapping

  /** `handleTimelineDrop`'s decision for a drop on the schedule `view`; `newId`
      and `presetHue` stand for `uuid()` and the random preset colour. */
  function PlanDrop(view: seq<Group>, src: DragSource, offsetY: int, newId: string, presetHue: int): (r: DropOutcome)
    ensures r.NotForTimeline? <==> !src.DailySource? && !src.PresetSource?
    ensures r.AlreadyScheduled? <==> src.DailySource? && HasTaskBlock(view, src.task.id)
    ensures r.Placed? ==>
      r.group.id == newId && |r.group.segments| == 1
      && r.group.segments[0].start == DropStart(offsetY)
      && MinDuration <= r.group.segments[0].duration && End(r.group.segments[0]) <= TimelineEnd
      && !Collides(view, r.group.segments[0].start, r.group.segments[0].duration, ExcludeNothing)
  {
    var start := DropStart(offsetY);
    match src
    case DailySource(task) =>
      if HasTaskBlock(view, task.id) then AlreadyScheduled
      else
        var actual := FittedDuration(start, TaskBlockDuration(task));
        if actual < MinDuration then TooShort
        else if Collides(view, start, actual, ExcludeNothing) then Overlapping
        else Placed(Group(newId, TaskBlock, task.id, task.content, QuadrantHue(task.quadrant),
                          [Segment(start, actual)]))
    case PresetSource(preset) =>
      var actual := FittedDuration(start, PresetBlockDuration(preset));
      if actual < MinDuration then TooShort
      else if Collides(view, start, actual, ExcludeNothing) then Overlapping
      else Placed(Group(newId, PresetBlock, preset.id, preset.title, presetHue, [Segment(start, actual)]))
    case _ => NotForTimeline
  }

  /** `dayData.tasks.find(t => t.id === id).duration = d`: the first task with
      that id remembers the length of its block; nothing else changes. */
  function RecordDuration(tasks: seq<Task>, id: string, d: int): (r: seq<Task>)
    ensures |r| == |tasks|
    ensures FindTask(tasks, id) < 0 ==> r == tasks
    ensures FindTask(tasks, id) >= 0 ==>
      r[FindTask(tasks, id)] == tasks[FindTask(tasks, id)].(duration := d)
      && forall k :: 0 <= k < |tasks| && k != FindTask(tasks, id) ==> r[k] == tasks[k]
  {
    var k := FindTask(tasks, id);
    if k < 0 then tasks else tasks[k := tasks[k].(duration := d)]
  }

  // ---------------------------------------------------------------------------
  // Moving a segment with the mouse

  /** `dragTarget`: the segment grabbed and where; `originalStart` is recorded
      only when the segment existed when the drag started. */
  datatype DragTarget = DragTarget(groupId: string, segmentIndex: int, startY: int, originalStart: Option<int>)

  /** The start `startDrag` records: that of the grabbed segment, if it exists. */
  function GrabbedStart(view: seq<Group>, groupId: string, idx: int): (o: Option<int>)
    ensures var gi := FindGroup(view, groupId);
      (o.Some? <==> gi >= 0 && 0 <= idx < |view[gi].segments|)
      && (o.Some? ==> o.value == view[gi].segments[idx].start)
  {
    var gi := FindGroup(view, groupId);
    if gi >= 0 && 0 <= idx < |view[gi].segments| then Some(view[gi].segments[idx].start) else None
  }

  datatype MoveOutcome =
    | NotDragging
    | NoDelta
    | TargetMissing
    | Blocked
    | MovedTo(groupIndex: nat, segmentIndex: nat, newStart: int)

  /** The pointer's vertical travel, snapped to five minutes. */
  function DragDelta(t: DragTarget, clientY: int): (r: int)
    ensures r % SnapInterval == 0
    ensures -SnapInterval < 2 * (r - (clientY - t.startY) / PixelPerMin) <= SnapInterval
  {
    SnapMinutes((clientY - t.startY) / PixelPerMin)
  }

  /** `handleBlockDrag`'s decision: the new start of the grabbed segment, clamped
      to the timeline, unless it would overlap a block of another group. */
  function PlanMove(view: seq<Group>, t: DragTarget, clientY: int): (r: MoveOutcome)
    ensures r.NoDelta? <==> DragDelta(t, clientY) == 0
    ensures r.MovedTo? ==>
      r.groupIndex == FindGroup(view, t.groupId) && r.segmentIndex == t.segmentIndex < |view[r.groupIndex].segments|
      && t.originalStart.Some?
      && r.newStart + view[r.groupIndex].segments[r.segmentIndex].duration <= TimelineEnd
      && !Collides(view, r.newStart, view[r.groupIndex].segments[r.segmentIndex].duration, ExcludeGroup(t.groupId))
  {
    var delta := DragDelta(t, clientY);
    if delta == 0 then NoDelta
    else
      var gi := FindGroup(view, t.groupId);
      if gi < 0 || !(0 <= t.segmentIndex < |view[gi].segments|) || t.originalStart.None? then TargetMissing
      else
        var seg := view[gi].segments[t.segmentIndex];
        var newStart := Min(TimelineEnd - seg.duration, Max(TimelineStart, t.originalStart.value + delta));
        if Collides(view, newStart, seg.duration, ExcludeGroup(view[gi].id)) then Blocked
        else MovedTo(gi, t.segmentIndex, newStart)
  }

  /** The schedule after segment si of group gi starts at `newStart`. */
  function ApplyMove(s: seq<Group>, gi: nat, si: nat, newStart: int): (r: seq<Group>)
    requires gi < |s| && si < |s[gi].segments|
    ensures |r| == |s| && forall k :: 0 <= k < |s| && k != gi ==> r[k] == s[k]
    ensures r[gi] == s[gi].(segments := s[gi].segments[si := Segment(newStart, s[gi].segments[si].duration)])
  {
    s[gi := s[gi].(segments := s[gi].segments[si := Segment(newStart, s[gi].segments[si].duration)])]
  }

  // ---------------------------------------------------------------------------
  // Merging the segments of a group

  predicate SortedByStart(s: seq<Segment>)
  {
    forall i, j :: 0 <= i < j < |s| ==> s[i].start <= s[j].start
  }

  /** Inserts x before the first element that does not start earlier. */
  function InsertByStart(x: Segment, t: seq<Segment>): (r: seq<Segment>)
    ensures multiset(r) == multiset(t) + multiset{x} && |r| == |t| + 1
  {
    if t == [] || x.start <= t[0].start then [x] + t
    else
      assert t == [t[0]] + t[1..];
      [t[0]] + InsertByStart(x, t[1..])
  }

  /** `segments.sort((a, b) => a.start - b.start)`: a stable sort by start
      (sortedness is `ScheduleProps.SortByStartSorted`). */
  function SortByStart(s: seq<Segment>): (r: seq<Segment>)
    ensures multiset(r) == multiset(s) && |r| == |s|
  {
    if s == [] then []
    else
      assert s == [s[0]] + s[1..];
      InsertByStart(s[0], SortByStart(s[1..]))
  }

  /** The end of s[i] reaches the start of s[i + 1]. */
  predicate TouchesNext(s: seq<Segment>, i: int)
    requires 0 <= i < |s| - 1
  {
    End(s[i]) >= s[i + 1].start
  }

  /** The first i whose segment touches the next one, or -1. */
  function FirstTouching(s: seq<Segment>): (i: int)
    ensures -1 <= i < |s| - 1 || i == -1
    ensures i == -1 <==> forall j :: 0 <= j < |s| - 1 ==> !TouchesNext(s, j)
    ensures i >= 0 ==> TouchesNext(s, i) && forall j :: 0 <= j < i ==> !TouchesNext(s, j)
  {
    if |s| < 2 then -1
    else if TouchesNext(s, 0) then 0
    else
      var k := FirstTouching(s[1..]);
      assert forall j :: 1 <= j < |s| - 1 ==> (TouchesNext(s, j) <==> TouchesNext(s[1..], j - 1));
      if k < 0 then -1 else assert TouchesNext(s, k + 1); k + 1
  }

  /** Segments i and i + 1 become one segment with the sum of their durations. */
  function MergeAt(s: seq<Segment>, i: int): (r: seq<Segment>)
    requires 0 <= i < |s| - 1
    ensures |r| == |s| - 1
  {
    s[..i] + [Segment(s[i].start, s[i].duration + s[i + 1].duration)] + s[i + 2..]
  }

  /** The `do … while (merged)` loop: merge the first touching pair until none
      is left. */
  function MergeAll(s: seq<Segment>): (r: seq<Segment>)
    ensures |r| <= |s|
    decreases |s|
  {
    var i := FirstTouching(s);
    if i < 0 then s else MergeAll(MergeAt(s, i))
  }

  /** `checkMergeOpportunity` on a group's segments: whether anything merged and
      the new segment list. */
  function MergePlan(s: seq<Segment>): (r: (bool, seq<Segment>))
    ensures |s| < 2 ==> r == (false, s)
    ensures |s| >= 2 ==> r.1 == MergeAll(SortByStart(s)) && (r.0 <==> |r.1| < |s|)
  {
    if |s| < 2 then (false, s)
    else var m := MergeAll(SortByStart(s)); (|m| < |s|, m)
  }

  // ---------------------------------------------------------------------------
  // Splitting a segment

  datatype SplitOutcome =
    | SplitTargetMissing
    | InvalidSplitPoint
    | SecondHalfOverlaps
    | SplitDone(groupIndex: nat, first: Segment, second: Segment)

  /** `splitSegment`'s decision for a double click `clickOffset` pixels below
      the top of the segment: a first part snapped to five minutes, at least 15
      long and leaving at least 15, then a part with the rest of the duration
      after a five-minute gap, unless that part would overlap another segment. */
  function PlanSplit(view: seq<Group>, groupId: string, idx: int, clickOffset: int): (r: SplitOutcome)
    ensures var gi := FindGroup(view, groupId);
      r.SplitTargetMissing? <==> gi < 0 || !(0 <= idx < |view[gi].segments|)
    ensures r.SplitDone? ==>
      r.groupIndex == FindGroup(view, groupId) && 0 <= idx < |view[r.groupIndex].segments|
      && var seg := view[r.groupIndex].segments[idx];
      r.first.start == seg.start && r.first.duration + r.second.duration == seg.duration
      && r.first.duration >= MinDuration && r.second.duration >= MinDuration
      && r.second.start == End(r.first) + SplitGap
      && !Collides(view, r.second.start, r.second.duration, ExcludeSegment(groupId, idx))
  {
    var gi := FindGroup(view, groupId);
    if gi < 0 || !(0 <= idx < |view[gi].segments|) then SplitTargetMissing
    else
      var seg := view[gi].segments[idx];
      var original := seg.duration;
      var proposed := Min(original - MinDuration, Max(MinDuration, SnapMinutes(clickOffset / PixelPerMin)));
      if proposed < MinDuration || original - proposed < MinDuration then InvalidSplitPoint
      else
        var secondStart := seg.start + proposed + SplitGap;
        if Collides(view, secondStart, original - proposed, ExcludeSegment(view[gi].id, idx)) then SecondHalfOverlaps
        else SplitDone(gi, Segment(seg.start, proposed), Segment(secondStart, original - proposed))
  }

  /** `segments.splice(idx, 1, first, second)` on group gi. */
  function ApplySplit(s: seq<Group>, gi: nat, idx: nat, first: Segment, second: Segment): (r: seq<Group>)
    requires gi < |s| && idx < |s[gi].segments|
    ensures |r| == |s| && forall k :: 0 <= k < |s| && k != gi ==> r[k] == s[k]
    ensures r[gi].id == s[gi].id && |r[gi].segments| == |s[gi].segments| + 1
    ensures r[gi] == s[gi].(segments := s[gi].segments[..idx] + [first, second] + s[gi].segments[idx + 1..])
  {
    var segs := s[gi].segments;
    s[gi := s[gi].(segments := segs[..idx] + [first, second] + segs[idx + 1..])]
  }

  // ---------------------------------------------------------------------------
  // Deleting a group

  /** `schedule.filter(g => g.id !== groupId)`. */
  function RemoveGroup(s: seq<Group>, groupId: string): (r: seq<Group>)
    ensures |r| <= |s|
    ensures forall g :: g in r <==> g in s && g.id != groupId
  {
    if s == [] then []
    else (if s[0].id == groupId then [] else [s[0]]) + RemoveGroup(s[1..], groupId)
  }

  /** `presets.filter(p => p.id !== id)`. */
  function RemovePreset(presets: seq<Preset>, id: string): (r: seq<Preset>)
    ensures |r| <= |presets|
    ensures forall p :: p in r <==> p in presets && p.id != id
  {
    if presets == [] then []
    else (if presets[0].id == id then [] else [presets[0]]) + RemovePreset(presets[1..], id)
  }

  // ---------------------------------------------------------------------------
  // End-of-day audit

  datatype Audit = Audit(hasIssues: bool, tasks: seq<Task>)

  /** The ids of the tasks that have a block in the schedule. */
  function ScheduledTaskIds(s: seq<Group>): set<string>
  {
    set k | 0 <= k < |s| && s[k].kind == TaskBlock :: s[k].refId
  }

  /** The completed tasks (progress at least 100) whose id is not in `ids`, in
      list order. */
  function CompletedOutside(tasks: seq<Task>, ids: set<string>): (r: seq<Task>)
    ensures forall t :: t in r <==> t in tasks && ProgressAtLeast(t, 100) && t.id !in ids
  {
    if tasks == [] then []
    else
      var head := if ProgressAtLeast(tasks[0], 100) && tasks[0].id !in ids then [tasks[0]] else [];
      head + CompletedOutside(tasks[1..], ids)
  }

  /** `checkCompletedButUnscheduled` on the viewed day (`dayLoaded` false when
      no day data is loaded). */
  function CompletedButUnscheduled(dayLoaded: bool, tasks: seq<Task>, schedule: seq<Group>): (a: Audit)
    ensures !dayLoaded ==> a == Audit(false, [])
    ensures a.hasIssues <==> a.tasks != []
  {
    if !dayLoaded then Audit(false, [])
    else
      var r := CompletedOutside(tasks, ScheduledTaskIds(schedule));
      Audit(|r| > 0, r)
  }
}
