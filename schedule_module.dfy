/** The scheduler's event handlers (schedule.js) over the state they share: the
    viewed day's schedule and tasks, the preset catalogue, the drag session
    (`isDragging`, `hasMoved`, `dragTarget`) and the global drag source. Each
    handler is proved against the decision function of `Schedule` that says
    what it does. */
module ScheduleModule {
  import opened JsSemantics
  import opened Records
  import opened Schedule
  import opened ScheduleProps

  /** One pass of the inner `for` loop of `checkMergeOpportunity`: the index
      of the first segment that reaches the next one, or -1. */
  method FindTouching(segs: seq<Segment>) returns (i: int)
    ensures i == FirstTouching(segs)
  {
    i := 0;
    while i < |segs| - 1
      invariant 0 <= i <= |segs| - 1 || (|segs| == 0 && i == 0)
      invariant forall j :: 0 <= j < i ==> !TouchesNext(segs, j)
    {
      if segs[i].start + segs[i].duration >= segs[i + 1].start {
        assert TouchesNext(segs, i);
        return;
      }
      i := i + 1;
    }
    return -1;
  }

  /** `checkMergeOpportunity`: sorts the segments, then merges the first
      touching pair and starts over until no pair touches. */
  method CheckMergeOpportunity(group: Group) returns (didMerge: bool, merged: Group)
    ensures (didMerge, merged.segments) == MergePlan(group.segments)
    ensures merged == group.(segments := merged.segments)
  {
    if |group.segments| < 2 {
      return false, group;
    }
    var segs := SortByStart(group.segments);
    ghost var sorted := segs;
    didMerge := false;
    var mergedThisRound := true;
    while mergedThisRound
      invariant 1 <= |segs| <= |sorted| == |group.segments|
      invariant MergeAll(segs) == MergeAll(sorted)
      invariant didMerge <==> |segs| < |sorted|
      invariant !mergedThisRound ==> FirstTouching(segs) < 0
      decreases |segs| + (if mergedThisRound then 1 else 0)
    {
      mergedThisRound := false;
      var i := FindTouching(segs);
      if i >= 0 {
        segs := MergeAt(segs, i);
        mergedThisRound := true;
        didMerge := true;
      }
    }
    MergeAllShrinks(segs);
    merged := group.(segments := segs);
  }

  /** The nested loops of `checkCollision` over a schedule, with early
      return on the first overlap. */
  method ScanCollisions(s: seq<Group>, start: int, duration: int, ex: Exclusion) returns (hit: bool)
    ensures hit == Collides(s, start, duration, ex)
  {
    var end := start + duration;
    var g := 0;
    while g < |s|
      invariant 0 <= g <= |s|
      invariant forall k, i :: 0 <= k < g && 0 <= i < |s[k].segments| && !Skipped(s[k], i, ex) ==>
        !Overlaps(start, duration, s[k].segments[i])
    {
      var group := s[g];
      var ignored := match ex
        case ExcludeNothing => false
        case ExcludeGroup(id) => id != "" && group.id == id
        case ExcludeSegment(id, _) => id != "" && group.id == id;
      if ignored && ex.ExcludeGroup? {
        g := g + 1;
        continue;
      }
      var i := 0;
      while i < |group.segments|
        invariant 0 <= i <= |group.segments|
        invariant forall j :: 0 <= j < i && !Skipped(group, j, ex) ==> !Overlaps(start, duration, group.segments[j])
      {
        if !(ignored && i == ex.index) {
          var segment := group.segments[i];
          var segEnd := segment.start + segment.duration;
          if start < segEnd && end > segment.start {
            assert !Skipped(s[g], i, ex) && Overlaps(start, duration, s[g].segments[i]);
            return true;
          }
        }
        i := i + 1;
      }
      g := g + 1;
    }
    return false;
  }

  /** The checks of `handleTimelineDrop`, in order, up to the block it
      would place. */
  method DecideDrop(view: seq<Group>, src: DragSource, offsetY: int, newId: string, presetHue: int)
    returns (outcome: DropOutcome)
    ensures outcome == PlanDrop(view, src, offsetY, newId, presetHue)
    ensures outcome.Placed? ==> |outcome.group.segments| == 1
  {
    var startMinutes := SnapMinutes(offsetY / PixelPerMin + TimelineStart);
    startMinutes := Max(TimelineStart, startMinutes);
    assert startMinutes == DropStart(offsetY);
    match src {
      case DailySource(task) =>
        if HasTaskBlock(view, task.id) {
          return AlreadyScheduled;
        }
        var duration := TaskBlockDuration(task);
        var endMinutes := Min(startMinutes + duration, TimelineEnd);
        var actualDuration := endMinutes - startMinutes;
        assert actualDuration == FittedDuration(startMinutes, duration);
        if actualDuration < MinDuration {
          return TooShort;
        }
        var hit := ScanCollisions(view, startMinutes, actualDuration, ExcludeNothing);
        if hit {
          return Overlapping;
        }
        outcome := Placed(Group(newId, TaskBlock, task.id, task.content, QuadrantHue(task.quadrant),
                                [Segment(startMinutes, actualDuration)]));
      case PresetSource(preset) =>
        var duration := PresetBlockDuration(preset);
        var endMinutes := Min(startMinutes + duration, TimelineEnd);
        var actualDuration := endMinutes - startMinutes;
        assert actualDuration == FittedDuration(startMinutes, duration);
        if actualDuration < MinDuration {
          return TooShort;
        }
        var hit := ScanCollisions(view, startMinutes, actualDuration, ExcludeNothing);
        if hit {
          return Overlapping;
        }
        outcome := Placed(Group(newId, PresetBlock, preset.id, preset.title, presetHue,
                                [Segment(startMinutes, actualDuration)]));
      case _ =>
        return NotForTimeline;
    }
  }

  /** The checks of `handleBlockDrag` once a drag is under way, up to the
      start the grabbed segment would move to. */
  method DecideMove(view: seq<Group>, t: DragTarget, clientY: int) returns (outcome: MoveOutcome)
    ensures outcome == PlanMove(view, t, clientY)
  {
    var deltaMinutes := SnapMinutes((clientY - t.startY) / PixelPerMin);
    if deltaMinutes == 0 {
      return NoDelta;
    }
    var gi := FindGroup(view, t.groupId);
    if gi < 0 {
      return TargetMissing;
    }
    if !(0 <= t.segmentIndex < |view[gi].segments|) || t.originalStart.None? {
      return TargetMissing;
    }
    var segment := view[gi].segments[t.segmentIndex];
    var newStart := t.originalStart.value + deltaMinutes;
    newStart := Max(TimelineStart, newStart);
    newStart := Min(TimelineEnd - segment.duration, newStart);
    var hit := ScanCollisions(view, newStart, segment.duration, ExcludeGroup(view[gi].id));
    if hit {
      return Blocked;
    }
    outcome := MovedTo(gi, t.segmentIndex, newStart);
  }

  /** The checks of `splitSegment`, up to the two parts it would create. */
  method DecideSplit(view: seq<Group>, groupId: string, segmentIndex: int, clickOffset: int)
    returns (outcome: SplitOutcome)
    ensures outcome == PlanSplit(view, groupId, segmentIndex, clickOffset)
  {
    var gi := FindGroup(view, groupId);
    if gi < 0 {
      return SplitTargetMissing;
    }
    if !(0 <= segmentIndex < |view[gi].segments|) {
      return SplitTargetMissing;
    }
    var segment := view[gi].segments[segmentIndex];
    var originalDuration := segment.duration;
    var proposedFirstDuration := SnapMinutes(clickOffset / PixelPerMin);
    proposedFirstDuration := Max(MinDuration, proposedFirstDuration);
    proposedFirstDuration := Min(originalDuration - MinDuration, proposedFirstDuration);
    if proposedFirstDuration < MinDuration || originalDuration - proposedFirstDuration < MinDuration {
      return InvalidSplitPoint;
    }
    var firstDuration := proposedFirstDuration;
    var secondDuration := originalDuration - firstDuration;
    var secondStart := segment.start + firstDuration + SplitGap;
    var hit := ScanCollisions(view, secondStart, secondDuration, ExcludeSegment(view[gi].id, segmentIndex));
    if hit {
      return SecondHalfOverlaps;
    }
    outcome := SplitDone(gi, Segment(segment.start, firstDuration), Segment(secondStart, secondDuration));
  }

  class Scheduler {
    /** Whether the viewed day has a record (`appData.weekData.dailyData[currentDateStr]`). */
    var dayLoaded: bool
    /** That day's schedule and tasks (meaningless while no day is loaded). */
    var schedule: seq<Group>
    var tasks: seq<Task>
    var presets: seq<Preset>
    var isDragging: bool
    var hasMoved: bool
    var dragTarget: Option<DragTarget>
    /** `window.dragSrcType` with `window.dragPayload`. */
    var dragSource: DragSource

    constructor (dayLoaded: bool, schedule: seq<Group>, tasks: seq<Task>, presets: seq<Preset>)
      ensures this.dayLoaded == dayLoaded && this.schedule == schedule && this.tasks == tasks
      ensures this.presets == presets
      ensures !isDragging && !hasMoved && dragTarget.None? && dragSource == NoSource
    {
      this.dayLoaded := dayLoaded;
      this.schedule := schedule;
      this.tasks := tasks;
      this.presets := presets;
      isDragging := false;
      hasMoved := false;
      dragTarget := None;
      dragSource := NoSource;
    }

    /** `getCurrentSchedule`: the viewed day's schedule, or an empty one when no
        day is loaded. */
    function CurrentSchedule(): (s: seq<Group>)
      reads this
      ensures !dayLoaded ==> s == []
      ensures dayLoaded ==> s == schedule
    {
      if dayLoaded then schedule else []
    }

    /** `setCurrentSchedule`: stores the schedule when a day is loaded. */
    method SetCurrentSchedule(s: seq<Group>)
      modifies this`schedule
      ensures schedule == (if dayLoaded then s else old(schedule))
    {
      if dayLoaded {
        schedule := s;
      }
    }

    /** `checkCollision`, which reads the schedule of the viewed day. */
    method CheckCollision(start: int, duration: int, ex: Exclusion) returns (hit: bool)
      ensures hit == Collides(CurrentSchedule(), start, duration, ex)
    {
      hit := ScanCollisions(CurrentSchedule(), start, duration, ex);
    }

    /** `handleTimelineDrop`. A placed block is appended to the day and the
        drag source is cleared; every refusal returns early and leaves
        everything, the drag source included, as it was. A task placed while no
        day is loaded fails on the missing day record (a TypeError in the
        handler) after the decision, and then nothing changes either. */
    method Drop(offsetY: int, newId: string, presetHue: int) returns (outcome: DropOutcome)
      requires 100 <= presetHue <= 299
      modifies this`schedule, this`tasks, this`dragSource
      ensures outcome == PlanDrop(old(CurrentSchedule()), old(dragSource), offsetY, newId, presetHue)
      ensures var failed := old(dragSource).DailySource? && !dayLoaded;
        (!outcome.Placed? || failed) ==>
          schedule == old(schedule) && tasks == old(tasks) && dragSource == old(dragSource)
      ensures var failed := old(dragSource).DailySource? && !dayLoaded;
        (outcome.Placed? && !failed) ==>
          schedule == (if dayLoaded then old(schedule) + [outcome.group] else old(schedule))
          && dragSource == NoSource
          && tasks == (if old(dragSource).DailySource?
                       then RecordDuration(old(tasks), old(dragSource).task.id, outcome.group.segments[0].duration)
                       else old(tasks))
      ensures old(NoOverlap(CurrentSchedule())) ==> NoOverlap(CurrentSchedule())
    {
      var view := CurrentSchedule();
      outcome := DecideDrop(view, dragSource, offsetY, newId, presetHue);
      if !outcome.Placed? {
        return;
      }
      if dragSource.DailySource? {
        if !dayLoaded {
          return;
        }
        tasks := RecordDuration(tasks, dragSource.task.id, outcome.group.segments[0].duration);
      }
      if NoOverlap(view) {
        DropPreservesNoOverlap(view, dragSource, offsetY, newId, presetHue);
      }
      SetCurrentSchedule(view + [outcome.group]);
      dragSource := NoSource;
    }

    /** `startDrag`: enters the dragging state, remembering the pointer and, if
        the segment exists, its start. */
    method StartDrag(groupId: string, segmentIndex: int, clientY: int)
      modifies this`isDragging, this`hasMoved, this`dragTarget
      ensures isDragging && !hasMoved
      ensures dragTarget == Some(DragTarget(groupId, segmentIndex, clientY,
                                            GrabbedStart(CurrentSchedule(), groupId, segmentIndex)))
    {
      isDragging := true;
      hasMoved := false;
      var s := CurrentSchedule();
      var gi := FindGroup(s, groupId);
      var original: Option<int> := None;
      if gi >= 0 && 0 <= segmentIndex < |s[gi].segments| {
        original := Some(s[gi].segments[segmentIndex].start);
      }
      dragTarget := Some(DragTarget(groupId, segmentIndex, clientY, original));
    }

    /** `handleBlockDrag`: outside a drag nothing happens; otherwise any
        nonzero delta marks the drag as moved, even when the move is then
        refused, and an accepted move sets only the grabbed segment's start.
        Blocks of different groups stay apart. */
    method BlockDrag(clientY: int) returns (outcome: MoveOutcome)
      modifies this`hasMoved, this`schedule
      ensures !old(isDragging) || old(dragTarget).None? ==>
        outcome == NotDragging && hasMoved == old(hasMoved) && schedule == old(schedule)
      ensures old(isDragging) && old(dragTarget).Some? ==>
        outcome == PlanMove(old(CurrentSchedule()), old(dragTarget).value, clientY)
        && hasMoved == (old(hasMoved) || outcome != NoDelta)
      ensures outcome.MovedTo? ==>
        dayLoaded && outcome.groupIndex < |old(schedule)| && outcome.segmentIndex < |old(schedule)[outcome.groupIndex].segments|
        && schedule == ApplyMove(old(schedule), outcome.groupIndex, outcome.segmentIndex, outcome.newStart)
      ensures !outcome.MovedTo? ==> schedule == old(schedule)
      ensures old(UniqueGroupIds(CurrentSchedule()) && CrossGroupDisjoint(CurrentSchedule())) ==>
        UniqueGroupIds(CurrentSchedule()) && CrossGroupDisjoint(CurrentSchedule())
    {
      if !isDragging || dragTarget.None? {
        return NotDragging;
      }
      var t := dragTarget.value;
      var s := CurrentSchedule();
      outcome := DecideMove(s, t, clientY);
      if outcome == NoDelta {
        return;
      }
      hasMoved := true;
      if !outcome.MovedTo? {
        return;
      }
      if UniqueGroupIds(s) && CrossGroupDisjoint(s) {
        MovePreservesCrossGroupDisjoint(s, t, clientY);
      }
      SetCurrentSchedule(ApplyMove(s, outcome.groupIndex, outcome.segmentIndex, outcome.newStart));
    }

    /** `handleBlockDragEnd`: leaves the dragging state and merges the grabbed
        group. The segments are sorted and merged in memory even when nothing
        merged; the result says whether the schedule is saved, which happens
        when something merged or the drag moved. `hasMoved` is left set. */
    method BlockDragEnd() returns (persisted: bool)
      modifies this`isDragging, this`dragTarget, this`schedule
      ensures !isDragging && dragTarget.None?
      ensures var gi := if old(dragTarget).Some? && old(dragTarget).value.groupId != ""
                        then FindGroup(old(CurrentSchedule()), old(dragTarget).value.groupId) else -1;
        (gi < 0 ==> schedule == old(schedule) && !persisted)
        && (gi >= 0 ==>
              var m := MergePlan(old(schedule)[gi].segments);
              schedule == old(schedule)[gi := old(schedule)[gi].(segments := m.1)]
              && persisted == (m.0 || hasMoved))
    {
      isDragging := false;
      persisted := false;
      if dragTarget.Some? && dragTarget.value.groupId != "" {
        var s := CurrentSchedule();
        var gi := FindGroup(s, dragTarget.value.groupId);
        if gi >= 0 {
          var merged, group := CheckMergeOpportunity(s[gi]);
          schedule := s[gi := group];
          if merged || hasMoved {
            persisted := true;
          }
        }
      }
      dragTarget := None;
    }

    /** `splitSegment`: an accepted split replaces the segment in place by its
        two parts and keeps the day free of overlaps; a refusal changes
        nothing. */
    method SplitSegment(groupId: string, segmentIndex: int, clickOffset: int) returns (outcome: SplitOutcome)
      modifies this`schedule
      ensures outcome == PlanSplit(old(CurrentSchedule()), groupId, segmentIndex, clickOffset)
      ensures outcome.SplitDone? ==>
        dayLoaded && outcome.groupIndex < |old(schedule)| && 0 <= segmentIndex < |old(schedule)[outcome.groupIndex].segments|
        && schedule == ApplySplit(old(schedule), outcome.groupIndex, segmentIndex, outcome.first, outcome.second)
      ensures !outcome.SplitDone? ==> schedule == old(schedule)
      ensures old(NoOverlap(CurrentSchedule()) && UniqueGroupIds(CurrentSchedule())) ==> NoOverlap(CurrentSchedule())
    {
      var s := CurrentSchedule();
      outcome := DecideSplit(s, groupId, segmentIndex, clickOffset);
      if !outcome.SplitDone? {
        return;
      }
      if NoOverlap(s) && UniqueGroupIds(s) {
        SplitPreservesNoOverlap(s, groupId, segmentIndex, clickOffset);
      }
      SetCurrentSchedule(ApplySplit(s, outcome.groupIndex, segmentIndex, outcome.first, outcome.second));
    }

    /** `deleteGroup`: removes every group with that id. */
    method DeleteGroup(groupId: string)
      modifies this`schedule
      ensures schedule == (if dayLoaded then RemoveGroup(old(schedule), groupId) else old(schedule))
      ensures old(NoOverlap(CurrentSchedule())) ==> NoOverlap(CurrentSchedule())
    {
      var s := CurrentSchedule();
      RemoveGroupPreserves(s, groupId);
      SetCurrentSchedule(RemoveGroup(s, groupId));
    }

    /** `addPreset`: a blank title (after trimming) adds nothing; otherwise one
        preset with the trimmed title and the clamped duration is appended. */
    method AddPreset(titleInput: string, typedDuration: Option<int>, newId: string)
      modifies this`presets
      ensures Trim(titleInput) == "" ==> presets == old(presets)
      ensures Trim(titleInput) != "" ==>
        presets == old(presets) + [Preset(newId, Trim(titleInput), NewPresetDuration(typedDuration))]
    {
      var title := Trim(titleInput);
      var duration := if typedDuration.Some? && typedDuration.value != 0 then typedDuration.value else DefaultDuration;
      if title == "" {
        return;
      }
      presets := presets + [Preset(newId, title, Max(MinDuration, Min(MaxPresetDuration, duration)))];
    }

    /** `deletePreset`. */
    method DeletePreset(id: string)
      modifies this`presets
      ensures presets == RemovePreset(old(presets), id)
    {
      presets := RemovePreset(presets, id);
    }

    /** `checkCompletedButUnscheduled` on the current state. */
    function CompletedButUnscheduledNow(): (a: Audit)
      reads this
      ensures forall t :: t in a.tasks <==> dayLoaded && t in tasks && ProgressAtLeast(t, 100) && !HasTaskBlock(schedule, t.id)
    {
      AuditAll(dayLoaded, tasks, schedule);
      CompletedButUnscheduled(dayLoaded, tasks, schedule)
    }
  }

  lemma AuditAll(dayLoaded: bool, tasks: seq<Task>, schedule: seq<Group>)
    ensures forall t :: (t in CompletedButUnscheduled(dayLoaded, tasks, schedule).tasks
      <==> dayLoaded && t in tasks && ProgressAtLeast(t, 100) && !HasTaskBlock(schedule, t.id))
  {
    forall t ensures t in CompletedButUnscheduled(dayLoaded, tasks, schedule).tasks
      <==> dayLoaded && t in tasks && ProgressAtLeast(t, 100) && !HasTaskBlock(schedule, t.id)
    {
      AuditMembership(dayLoaded, tasks, schedule, t);
    }
  }
}
