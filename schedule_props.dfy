/** Properties of the scheduler's decisions: what a drop, a move, a split, a
    merge and a delete promise, which day-wide invariants they keep, and the
    one sequence of steps that breaks one. */
module ScheduleProps {
  import opened JsSemantics
  import opened Records
  import opened Schedule

  // ---------------------------------------------------------------------------
  // Sorting segments by start

  lemma SortedTail(t: seq<Segment>)
    requires t != [] && SortedByStart(t)
    ensures SortedByStart(t[1..])
  {
    forall i, j | 0 <= i < j < |t| - 1 ensures t[1..][i].start <= t[1..][j].start {
      assert t[1..][i] == t[i + 1] && t[1..][j] == t[j + 1];
    }
  }

  lemma SortedCons(x: Segment, t: seq<Segment>)
    requires SortedByStart(t)
    requires forall y :: y in t ==> x.start <= y.start
    ensures SortedByStart([x] + t)
  {
    var r := [x] + t;
    forall i, j | 0 <= i < j < |r| ensures r[i].start <= r[j].start {
      if i == 0 {
        assert r[j] in t;
      } else {
        assert r[i] == t[i - 1] && r[j] == t[j - 1];
      }
    }
  }

  /** Inserting into a sorted list keeps it sorted. */
  lemma {:induction false} InsertByStartSorted(x: Segment, t: seq<Segment>)
    requires SortedByStart(t)
    ensures SortedByStart(InsertByStart(x, t))
    decreases |t|
  {
    if t == [] || x.start <= t[0].start {
      forall y | y in t ensures x.start <= y.start {
        var k :| 0 <= k < |t| && t[k] == y;
        if k > 0 {
          assert t[0].start <= t[k].start;
        }
      }
      SortedCons(x, t);
    } else {
      SortedTail(t);
      InsertByStartSorted(x, t[1..]);
      var rest := InsertByStart(x, t[1..]);
      forall y | y in rest ensures t[0].start <= y.start {
        assert y in multiset(rest);
        if y != x {
          assert y in multiset(t[1..]);
          var k :| 0 <= k < |t| - 1 && t[1..][k] == y;
          assert t[k + 1] == y;
        }
      }
      SortedCons(t[0], rest);
    }
  }

  /** The sort produces ascending starts. */
  lemma {:induction false} SortByStartSorted(s: seq<Segment>)
    ensures SortedByStart(SortByStart(s))
    decreases |s|
  {
    if s != [] {
      SortByStartSorted(s[1..]);
      InsertByStartSorted(s[0], SortByStart(s[1..]));
    }
  }

  /** Sorting an already sorted list changes nothing (the sort is stable). */
  lemma {:induction false} SortByStartOfSorted(s: seq<Segment>)
    requires SortedByStart(s)
    ensures SortByStart(s) == s
    decreases |s|
  {
    if s != [] {
      SortedTail(s);
      SortByStartOfSorted(s[1..]);
      assert s == [s[0]] + s[1..];
    }
  }

  // ---------------------------------------------------------------------------
  // Merging

  /** The minutes a list of segments covers, counting overlaps twice. */
  function Total(s: seq<Segment>): int
  {
    if s == [] then 0 else s[0].duration + Total(s[1..])
  }

  /** Each segment ends strictly before the next one starts. */
  predicate Separated(s: seq<Segment>)
  {
    forall j :: 0 <= j < |s| - 1 ==> End(s[j]) < s[j + 1].start
  }

  lemma {:induction false} TotalConcat(a: seq<Segment>, b: seq<Segment>)
    ensures Total(a + b) == Total(a) + Total(b)
    decreases |a|
  {
    if a == [] {
      assert a + b == b;
    } else {
      assert (a + b)[1..] == a[1..] + b;
      TotalConcat(a[1..], b);
    }
  }

  lemma TotalCons(x: Segment, t: seq<Segment>)
    ensures Total([x] + t) == x.duration + Total(t)
  {
    assert ([x] + t)[1..] == t;
  }

  lemma TotalSplit(s: seq<Segment>, k: int)
    requires 0 <= k <= |s|
    ensures Total(s) == Total(s[..k]) + Total(s[k..])
  {
    assert s == s[..k] + s[k..];
    TotalConcat(s[..k], s[k..]);
  }

  /** One merge keeps the total duration. */
  lemma MergeAtTotal(s: seq<Segment>, i: int)
    requires 0 <= i < |s| - 1
    ensures Total(MergeAt(s, i)) == Total(s)
  {
    var r := MergeAt(s, i);
    TotalSplit(s, i);
    assert s[i..][1..] == s[i + 1..];
    assert s[i + 1..][1..] == s[i + 2..];
    TotalSplit(r, i);
    assert r[..i] == s[..i];
    assert r[i..][1..] == s[i + 2..];
  }

  /** One merge keeps starts ascending: the merged segment keeps the first
      segment's start, and every other start moves down one place. */
  lemma MergeAtSorted(s: seq<Segment>, i: int)
    requires 0 <= i < |s| - 1 && SortedByStart(s)
    ensures SortedByStart(MergeAt(s, i))
  {
    var r := MergeAt(s, i);
    assert forall j :: 0 <= j < |r| ==> r[j].start == s[if j <= i then j else j + 1].start;
    forall j, k | 0 <= j < k < |r| ensures r[j].start <= r[k].start {
      var pj := if j <= i then j else j + 1;
      var pk := if k <= i then k else k + 1;
      assert pj < pk;
      assert s[pj].start <= s[pk].start;
    }
  }

  lemma {:induction false} MergeAllTotal(s: seq<Segment>)
    ensures Total(MergeAll(s)) == Total(s)
    decreases |s|
  {
    var i := FirstTouching(s);
    if i >= 0 {
      MergeAtTotal(s, i);
      MergeAllTotal(MergeAt(s, i));
    }
  }

  lemma {:induction false} MergeAllSorted(s: seq<Segment>)
    requires SortedByStart(s)
    ensures SortedByStart(MergeAll(s))
    decreases |s|
  {
    var i := FirstTouching(s);
    if i >= 0 {
      MergeAtSorted(s, i);
      MergeAllSorted(MergeAt(s, i));
    }
  }

  /** When the loop stops, no segment reaches the next one. */
  lemma {:induction false} MergeAllSeparated(s: seq<Segment>)
    ensures Separated(MergeAll(s))
    decreases |s|
  {
    var i := FirstTouching(s);
    if i >= 0 {
      MergeAllSeparated(MergeAt(s, i));
    } else {
      forall j | 0 <= j < |s| - 1 ensures End(s[j]) < s[j + 1].start {
        assert !TouchesNext(s, j);
      }
    }
  }

  /** The loop merges something exactly when some pair touches to begin with,
      and a list with no touching pair comes back as it was. */
  lemma MergeAllShrinks(s: seq<Segment>)
    ensures |MergeAll(s)| < |s| <==> FirstTouching(s) >= 0
    ensures FirstTouching(s) < 0 ==> MergeAll(s) == s
  {
  }

  /** `checkMergeOpportunity` leaves the group's segments in ascending order of
      start with no two touching or overlapping. */
  lemma MergePlanOrdered(s: seq<Segment>)
    ensures SortedByStart(MergePlan(s).1) && Separated(MergePlan(s).1)
  {
    if |s| >= 2 {
      SortByStartSorted(s);
      MergeAllSorted(SortByStart(s));
      MergeAllSeparated(SortByStart(s));
    }
  }

  /** The merged segments add up to the same total duration. */
  lemma MergePlanTotal(s: seq<Segment>)
    ensures Total(MergePlan(s).1) == Total(s)
  {
    if |s| >= 2 {
      MergeAllTotal(SortByStart(s));
      TotalOfPermutation(SortByStart(s), s);
    }
  }

  /** It reports a merge exactly when the group had at least two segments and,
      once sorted, some segment reached the next one (`FirstTouching` finds
      one). */
  lemma MergePlanReports(s: seq<Segment>)
    ensures MergePlan(s).0 <==> |s| >= 2 && FirstTouching(SortByStart(s)) >= 0
  {
    if |s| >= 2 {
      MergeAllShrinks(SortByStart(s));
    }
  }

  /** A second merge right after the first finds nothing to do. */
  lemma MergePlanIdempotent(s: seq<Segment>)
    ensures MergePlan(MergePlan(s).1) == (false, MergePlan(s).1)
  {
    MergePlanOrdered(s);
    var r := MergePlan(s).1;
    if |r| >= 2 {
      SortByStartOfSorted(r);
      assert forall j :: 0 <= j < |r| - 1 ==> !TouchesNext(r, j);
      MergeAllShrinks(r);
    }
  }

  /** The total does not depend on the order. */
  lemma {:induction false} TotalOfPermutation(a: seq<Segment>, b: seq<Segment>)
    requires multiset(a) == multiset(b)
    ensures Total(a) == Total(b)
    decreases |a|
  {
    if a != [] {
      var x := a[0];
      assert x in multiset(b);
      var k :| 0 <= k < |b| && b[k] == x;
      var b' := b[..k] + b[k + 1..];
      assert b == b[..k] + [x] + b[k + 1..];
      assert multiset(b) == multiset(b[..k]) + multiset{x} + multiset(b[k + 1..]);
      assert a == [x] + a[1..];
      assert multiset(a) == multiset{x} + multiset(a[1..]);
      assert multiset(b') == multiset(b[..k]) + multiset(b[k + 1..]);
      assert multiset(a[1..]) == multiset(a) - multiset{x};
      assert multiset(b') == multiset(b) - multiset{x};
      TotalOfPermutation(a[1..], b');
      TotalSplit(b, k);
      assert b[k..][1..] == b[k + 1..];
      TotalConcat(b[..k], b[k + 1..]);
    }
  }

  /** Two touching segments, 100+30 and 130+20, merge into 100+50. */
  lemma MergeTouchingExample()
    ensures MergePlan([Segment(100, 30), Segment(130, 20)]) == (true, [Segment(100, 50)])
  {
    var s := [Segment(100, 30), Segment(130, 20)];
    assert SortByStart(s[1..]) == [Segment(130, 20)];
    assert SortByStart(s) == s;
    assert TouchesNext(s, 0);
    var m := MergeAt(s, 0);
    assert m == [Segment(100, 50)];
    assert FirstTouching(m) == -1;
  }

  // ---------------------------------------------------------------------------
  // Collision

  /** Disjointness is what "no collision" means for one segment. */
  lemma NoCollisionDisjoint(s: seq<Group>, start: int, duration: int, ex: Exclusion, k: int, i: int)
    requires !Collides(s, start, duration, ex)
    requires 0 <= k < |s| && 0 <= i < |s[k].segments| && !Skipped(s[k], i, ex)
    ensures Disjoint(Segment(start, duration), s[k].segments[i])
  {
  }

  /** Touching intervals never collide: a block may start exactly where another
      ends, or end exactly where it starts. */
  lemma TouchingNeverCollides(s: seq<Group>, ex: Exclusion, k: int, i: int, duration: int)
    requires 0 <= k < |s| && 0 <= i < |s[k].segments| && duration >= 0
    ensures !Overlaps(End(s[k].segments[i]), duration, s[k].segments[i])
    ensures !Overlaps(s[k].segments[i].start - duration, duration, s[k].segments[i])
  {
  }

  /** With a group id and no index the whole group is ignored: the test is the
      same as a test against the schedule without that group. */
  lemma ExcludeGroupIsRemoval(s: seq<Group>, start: int, duration: int, id: string)
    requires id != ""
    ensures Collides(s, start, duration, ExcludeGroup(id)) <==> Collides(RemoveGroup(s, id), start, duration, ExcludeNothing)
  {
    var r := RemoveGroup(s, id);
    if Collides(s, start, duration, ExcludeGroup(id)) {
      var g, i :| 0 <= g < |s| && 0 <= i < |s[g].segments| && !Skipped(s[g], i, ExcludeGroup(id))
        && Overlaps(start, duration, s[g].segments[i]);
      assert s[g] in r;
      var k :| 0 <= k < |r| && r[k] == s[g];
      assert Overlaps(start, duration, r[k].segments[i]);
    }
    if Collides(r, start, duration, ExcludeNothing) {
      var k, i :| 0 <= k < |r| && 0 <= i < |r[k].segments| && Overlaps(start, duration, r[k].segments[i]);
      assert r[k] in s;
      var g :| 0 <= g < |s| && s[g] == r[k];
      assert !Skipped(s[g], i, ExcludeGroup(id)) && Overlaps(start, duration, s[g].segments[i]);
    }
  }

  /** With a group id and an index only that one segment is ignored: any other
      segment of the same group that overlaps still counts. */
  lemma ExcludeSegmentChecksSiblings(s: seq<Group>, start: int, duration: int, k: int, idx: int, i: int)
    requires 0 <= k < |s| && 0 <= i < |s[k].segments| && i != idx
    requires Overlaps(start, duration, s[k].segments[i])
    ensures Collides(s, start, duration, ExcludeSegment(s[k].id, idx))
  {
    assert !Skipped(s[k], i, ExcludeSegment(s[k].id, idx));
  }

  // ---------------------------------------------------------------------------
  // Dropping

  /** A drop that places a block places exactly one segment, on the five-minute
      grid, inside the timeline, at least 15 minutes long, overlapping nothing;
      a task block carries the task's id, title and quadrant colour and is never
      longer than the inferred duration, a preset block carries the preset's. */
  lemma DropPlacesValidBlock(view: seq<Group>, src: DragSource, offsetY: int, newId: string, hue: int)
    requires PlanDrop(view, src, offsetY, newId, hue).Placed?
    ensures src.DailySource? || src.PresetSource?
    ensures var g := PlanDrop(view, src, offsetY, newId, hue).group;
      g.id == newId && |g.segments| == 1
      && g.segments[0].start == DropStart(offsetY)
      && g.segments[0].start % SnapInterval == 0
      && TimelineStart <= g.segments[0].start
      && MinDuration <= g.segments[0].duration
      && End(g.segments[0]) <= TimelineEnd
      && !Collides(view, g.segments[0].start, g.segments[0].duration, ExcludeNothing)
    ensures var g := PlanDrop(view, src, offsetY, newId, hue).group;
      src.DailySource? ==>
        g.kind == TaskBlock && g.refId == src.task.id && g.title == src.task.content
        && g.colorHue == QuadrantHue(src.task.quadrant)
        && g.segments[0].duration <= TaskBlockDuration(src.task)
        && !HasTaskBlock(view, src.task.id)
    ensures var g := PlanDrop(view, src, offsetY, newId, hue).group;
      src.PresetSource? ==>
        g.kind == PresetBlock && g.refId == src.preset.id && g.title == src.preset.title
        && g.colorHue == hue && g.segments[0].duration <= PresetBlockDuration(src.preset)
  {
  }

  /** A task is dropped too late exactly when fewer than 15 minutes of the
      timeline are left after the drop point (task blocks are always asked for
      at least 15). */
  lemma DropTaskTooShortIff(view: seq<Group>, task: Task, offsetY: int, newId: string, hue: int)
    requires !HasTaskBlock(view, task.id)
    ensures PlanDrop(view, DailySource(task), offsetY, newId, hue) == TooShort
        <==> DropStart(offsetY) > TimelineEnd - MinDuration
  {
  }

  /** A task that already has a block is refused. */
  lemma DropRejectsScheduledTask(view: seq<Group>, task: Task, offsetY: int, newId: string, hue: int)
    requires HasTaskBlock(view, task.id)
    ensures PlanDrop(view, DailySource(task), offsetY, newId, hue) == AlreadyScheduled
  {
  }

  /** One block per task per day: once a task's block is placed, dropping the
      same task again, anywhere, is refused. */
  lemma SecondDropRejected(view: seq<Group>, task: Task, offsetY: int, newId: string, hue: int,
                           again: Task, offsetY2: int, newId2: string, hue2: int)
    requires PlanDrop(view, DailySource(task), offsetY, newId, hue).Placed?
    requires again.id == task.id
    ensures var g := PlanDrop(view, DailySource(task), offsetY, newId, hue).group;
      PlanDrop(view + [g], DailySource(again), offsetY2, newId2, hue2) == AlreadyScheduled
  {
    var g := PlanDrop(view, DailySource(task), offsetY, newId, hue).group;
    var r := view + [g];
    assert r[|view|] == g;
    assert HasTaskBlock(r, again.id);
  }

  /** Appending what a drop places keeps the day free of overlaps, and keeps
      group ids unique when the new id is fresh. */
  lemma DropPreservesNoOverlap(view: seq<Group>, src: DragSource, offsetY: int, newId: string, hue: int)
    requires NoOverlap(view)
    requires PlanDrop(view, src, offsetY, newId, hue).Placed?
    ensures NoOverlap(view + [PlanDrop(view, src, offsetY, newId, hue).group])
    ensures UniqueGroupIds(view) && (forall k :: 0 <= k < |view| ==> view[k].id != newId) ==>
      UniqueGroupIds(view + [PlanDrop(view, src, offsetY, newId, hue).group])
  {
    var g := PlanDrop(view, src, offsetY, newId, hue).group;
    DropPlacesValidBlock(view, src, offsetY, newId, hue);
    var seg := g.segments[0];
    var r := view + [g];
    forall k | 0 <= k < |r| ensures InnerDisjoint(r[k]) {
      if k < |view| {
        assert r[k] == view[k];
      }
    }
    forall k1, k2 | 0 <= k1 < k2 < |r| ensures GroupsDisjoint(r[k1], r[k2]) {
      assert r[k1] == view[k1];
      if k2 < |view| {
        assert r[k2] == view[k2];
      } else {
        forall i, j | 0 <= i < |r[k1].segments| && 0 <= j < |r[k2].segments|
          ensures Disjoint(r[k1].segments[i], r[k2].segments[j])
        {
          NoCollisionDisjoint(view, seg.start, seg.duration, ExcludeNothing, k1, i);
        }
      }
    }
  }

  /** A preset of 45 minutes dropped at pixel 80 (minute 500) on an empty day
      gives one segment 500+45. */
  lemma DropPresetExample(newId: string, hue: int)
    ensures PlanDrop([], PresetSource(Preset("p", "Focus", 45)), 80, newId, hue)
      == Placed(Group(newId, PresetBlock, "p", "Focus", hue, [Segment(500, 45)]))
  {
    assert SnapMinutes(500) == 500;
  }

  /** 25 minutes on the stopwatch give a 25-minute block. */
  lemma TaskDurationFromTimerExample(t: Task)
    requires t.timer == Some(Timer(1500000, false, None, 0, None))
    ensures TaskBlockDuration(t) == 25
  {
    assert RoundDiv(1500000, 60000) == 25;
    assert SnapMinutes(25) == 25;
  }

  /** Next to 500+30, a block proposed at 515+20 is refused. */
  lemma DropOverlapExample(g: Group, offsetY: int, newId: string, hue: int)
    requires g.segments == [Segment(500, 30)] && offsetY == 95
    ensures PlanDrop([g], PresetSource(Preset("p", "Break", 20)), offsetY, newId, hue) == Overlapping
  {
    assert SnapMinutes(515) == 515;
    assert Overlaps(515, 20, [g][0].segments[0]);
  }

  // ---------------------------------------------------------------------------
  // Moving

  /** The pointer must travel at least 2.5 pixels for the segment to move. */
  lemma DragDeltaZeroIff(t: DragTarget, clientY: int)
    ensures DragDelta(t, clientY) == 0 <==> -2 <= clientY - t.startY <= 2
  {
  }

  /** What an accepted move promises: the grabbed segment of the grabbed group
      gets a start inside the timeline (when its length fits), moved by exactly
      the snapped delta unless clamped, and overlapping no segment of any other
      group. */
  lemma MoveResult(view: seq<Group>, t: DragTarget, clientY: int)
    requires UniqueGroupIds(view)
    requires PlanMove(view, t, clientY).MovedTo?
    ensures var m := PlanMove(view, t, clientY);
      m.groupIndex < |view| && view[m.groupIndex].id == t.groupId && m.segmentIndex == t.segmentIndex
      && t.originalStart.Some?
      && m.segmentIndex < |view[m.groupIndex].segments|
      && var d := view[m.groupIndex].segments[m.segmentIndex].duration;
      (d <= TimelineEnd - TimelineStart ==> TimelineStart <= m.newStart && m.newStart + d <= TimelineEnd)
      && (TimelineStart <= t.originalStart.value + DragDelta(t, clientY) <= TimelineEnd - d
          ==> m.newStart == t.originalStart.value + DragDelta(t, clientY))
      && (forall k, i :: 0 <= k < |view| && k != m.groupIndex && 0 <= i < |view[k].segments| ==>
            Disjoint(Segment(m.newStart, d), view[k].segments[i]))
  {
    var m := PlanMove(view, t, clientY);
    var gi := m.groupIndex;
    var d := view[gi].segments[m.segmentIndex].duration;
    forall k, i | 0 <= k < |view| && k != gi && 0 <= i < |view[k].segments|
      ensures Disjoint(Segment(m.newStart, d), view[k].segments[i])
    {
      assert view[k].id != view[gi].id by {
        if k < gi {} else {}
      }
      NoCollisionDisjoint(view, m.newStart, d, ExcludeGroup(view[gi].id), k, i);
    }
  }

  /** An accepted move keeps blocks of different groups apart and keeps ids
      unique. It may put the segment on top of a sibling of its own group. */
  lemma MovePreservesCrossGroupDisjoint(view: seq<Group>, t: DragTarget, clientY: int)
    requires UniqueGroupIds(view) && CrossGroupDisjoint(view)
    requires PlanMove(view, t, clientY).MovedTo?
    ensures var m := PlanMove(view, t, clientY);
      CrossGroupDisjoint(ApplyMove(view, m.groupIndex, m.segmentIndex, m.newStart))
      && UniqueGroupIds(ApplyMove(view, m.groupIndex, m.segmentIndex, m.newStart))
  {
    var m := PlanMove(view, t, clientY);
    MoveResult(view, t, clientY);
    var gi, si := m.groupIndex, m.segmentIndex;
    var r := ApplyMove(view, gi, si, m.newStart);
    assert forall i :: 0 <= i < |r[gi].segments| && i != si ==> r[gi].segments[i] == view[gi].segments[i];
    forall k1, k2 | 0 <= k1 < k2 < |r| ensures GroupsDisjoint(r[k1], r[k2]) {
      if k1 != gi && k2 != gi {
        assert r[k1] == view[k1] && r[k2] == view[k2];
      } else if k1 == gi {
        assert r[k2] == view[k2];
        forall i, j | 0 <= i < |r[k1].segments| && 0 <= j < |r[k2].segments|
          ensures Disjoint(r[k1].segments[i], r[k2].segments[j])
        {
          if i != si {
            assert GroupsDisjoint(view[k1], view[k2]);
          }
        }
      } else {
        assert r[k1] == view[k1];
        forall i, j | 0 <= i < |r[k1].segments| && 0 <= j < |r[k2].segments|
          ensures Disjoint(r[k1].segments[i], r[k2].segments[j])
        {
          if j != si {
            assert GroupsDisjoint(view[k1], view[k2]);
          }
        }
      }
    }
    assert forall k :: 0 <= k < |r| ==> r[k].id == view[k].id;
  }

  function SiblingDragExample(): seq<Group>
  {
    [Group("a", PresetBlock, "p1", "A", 150, [Segment(600, 30), Segment(700, 30)]),
     Group("b", PresetBlock, "p2", "B", 160, [Segment(640, 20)])]
  }

  lemma SiblingExampleApart()
    ensures NoOverlap(SiblingDragExample()) && UniqueGroupIds(SiblingDragExample())
  {
    var view := SiblingDragExample();
    assert InnerDisjoint(view[0]) by {
      assert Disjoint(view[0].segments[0], view[0].segments[1]);
    }
    assert InnerDisjoint(view[1]);
    assert GroupsDisjoint(view[0], view[1]);
  }

  /** In the example day (group a with 600+30 and 700+30, group b with 640+20)
      nothing overlaps, and dragging a's second segment 90 pixels up to 610 is
      accepted: a is ignored as a whole, and 610..640 only touches b. */
  lemma SiblingDragAccepted()
    ensures NoOverlap(SiblingDragExample()) && UniqueGroupIds(SiblingDragExample())
    ensures PlanMove(SiblingDragExample(), DragTarget("a", 1, 0, Some(700)), -90) == MovedTo(0, 1, 610)
  {
    var view := SiblingDragExample();
    SiblingExampleApart();
    var t := DragTarget("a", 1, 0, Some(700));
    assert DragDelta(t, -90) == -90 by {
      assert SnapMinutes(-90) == -90;
    }
    assert FindGroup(view, "a") == 0;
    assert !Collides(view, 610, 30, ExcludeGroup("a")) by {
      forall g, i | 0 <= g < |view| && 0 <= i < |view[g].segments| && !Skipped(view[g], i, ExcludeGroup("a"))
        ensures !Overlaps(610, 30, view[g].segments[i])
      {
        assert g == 1 && i == 0;
      }
    }
  }

  lemma SiblingDragMoved()
    ensures ApplyMove(SiblingDragExample(), 0, 1, 610)
      == [Group("a", PresetBlock, "p1", "A", 150, [Segment(600, 30), Segment(610, 30)]),
          Group("b", PresetBlock, "p2", "B", 160, [Segment(640, 20)])]
  {
    var view := SiblingDragExample();
    assert view[0].segments[1 := Segment(610, 30)] == [Segment(600, 30), Segment(610, 30)];
  }

  lemma SiblingMerge()
    ensures MergePlan([Segment(600, 30), Segment(610, 30)]) == (true, [Segment(600, 60)])
  {
    var segs := [Segment(600, 30), Segment(610, 30)];
    assert SortByStart(segs[1..]) == [Segment(610, 30)];
    assert SortByStart(segs) == segs;
    assert TouchesNext(segs, 0);
    assert MergeAt(segs, 0) == [Segment(600, 60)];
    assert FirstTouching([Segment(600, 60)]) == -1;
  }

  /** Releasing after that drag merges a's 600+30 and 610+30 into one 600+60
      block, which covers b's 640..660: drag and merge together break the
      separation of groups that each step on its own keeps. */
  lemma DragThenMergeOverlapsOtherGroup()
    ensures var moved := ApplyMove(SiblingDragExample(), 0, 1, 610);
      MergePlan(moved[0].segments) == (true, [Segment(600, 60)])
      && !CrossGroupDisjoint(moved[0 := moved[0].(segments := [Segment(600, 60)])])
  {
    SiblingDragMoved();
    SiblingMerge();
    var moved := ApplyMove(SiblingDragExample(), 0, 1, 610);
    var after := moved[0 := moved[0].(segments := [Segment(600, 60)])];
    assert !Disjoint(after[0].segments[0], after[1].segments[0]);
  }

  // ---------------------------------------------------------------------------
  // Splitting

  /** What an accepted split promises: the first part keeps the start, both
      parts are at least 15 long, their durations add up to the original and
      the second starts exactly five minutes after the first ends. */
  lemma SplitShape(view: seq<Group>, groupId: string, idx: int, clickOffset: int)
    requires PlanSplit(view, groupId, idx, clickOffset).SplitDone?
    ensures var r := PlanSplit(view, groupId, idx, clickOffset);
      r.groupIndex < |view| && view[r.groupIndex].id == groupId && 0 <= idx < |view[r.groupIndex].segments|
      && var o := view[r.groupIndex].segments[idx];
      r.first.start == o.start
      && r.first.duration + r.second.duration == o.duration
      && r.second.start == End(r.first) + SplitGap
      && MinDuration <= r.first.duration && MinDuration <= r.second.duration
      && (MinDuration <= SnapMinutes(clickOffset) <= o.duration - MinDuration ==> r.first.duration == SnapMinutes(clickOffset))
  {
  }

  /** Once the segment is found, the split point is refused exactly when the
      segment is shorter than 30 minutes, wherever the click was. */
  lemma SplitInvalidIff(view: seq<Group>, groupId: string, idx: int, clickOffset: int)
    requires FindGroup(view, groupId) >= 0 && 0 <= idx < |view[FindGroup(view, groupId)].segments|
    ensures PlanSplit(view, groupId, idx, clickOffset) == InvalidSplitPoint
        <==> view[FindGroup(view, groupId)].segments[idx].duration < 2 * MinDuration
  {
  }

  /** The split does not clamp to the timeline: 1500+60 split 30 pixels down
      gives 1500+30 and 1535+30, which ends at 1565, past 02:00. */
  lemma SplitOvershootsTimelineEnd(g: Group)
    requires g.id == "g" && g.segments == [Segment(1500, 60)]
    ensures PlanSplit([g], "g", 0, 30) == SplitDone(0, Segment(1500, 30), Segment(1535, 30))
    ensures 1535 + 30 > TimelineEnd
  {
    assert SnapMinutes(30) == 30;
    assert !Collides([g], 1535, 30, ExcludeSegment("g", 0)) by {
      forall k, i | 0 <= k < 1 && 0 <= i < |[g][k].segments| ensures Skipped([g][k], i, ExcludeSegment("g", 0)) {
      }
    }
  }

  /** 600+60 split 25 pixels down gives 600+25 and 630+35. */
  lemma SplitExample(g: Group)
    requires g.id == "g" && g.segments == [Segment(600, 60)]
    ensures PlanSplit([g], "g", 0, 25) == SplitDone(0, Segment(600, 25), Segment(630, 35))
  {
    assert SnapMinutes(25) == 25;
    assert !Collides([g], 630, 35, ExcludeSegment("g", 0)) by {
      forall k, i | 0 <= k < 1 && 0 <= i < |[g][k].segments| ensures Skipped([g][k], i, ExcludeSegment("g", 0)) {
      }
    }
  }

  lemma WithinDisjoint(x: Segment, o: Segment, y: Segment, p: Segment)
    requires Within(x, o) && Within(y, p) && Disjoint(o, p)
    ensures Disjoint(x, y)
  {
  }

  /** Segment idx replaced by `a` and `b`: where each segment of the new list
      comes from. */
  lemma SplicedAt(segs: seq<Segment>, idx: nat, a: Segment, b: Segment)
    requires idx < |segs|
    ensures var ns := segs[..idx] + [a, b] + segs[idx + 1..];
      |ns| == |segs| + 1 && ns[idx] == a && ns[idx + 1] == b
      && (forall n :: 0 <= n < idx ==> ns[n] == segs[n])
      && (forall n :: idx + 1 < n < |ns| ==> ns[n] == segs[n - 1])
  {
  }

  /** The spliced list of a group whose segments are apart stays apart, when
      `a` lies inside the replaced segment and `b` is apart from `a` and from
      every other segment. */
  lemma SplicedInnerDisjoint(g: Group, idx: nat, a: Segment, b: Segment)
    requires idx < |g.segments| && InnerDisjoint(g)
    requires Within(a, g.segments[idx]) && Disjoint(a, b)
    requires forall i :: 0 <= i < |g.segments| && i != idx ==> Disjoint(b, g.segments[i])
    ensures InnerDisjoint(g.(segments := g.segments[..idx] + [a, b] + g.segments[idx + 1..]))
  {
    var segs := g.segments;
    var ns := segs[..idx] + [a, b] + segs[idx + 1..];
    SplicedAt(segs, idx, a, b);
    forall n1, n2 | 0 <= n1 < n2 < |ns| ensures Disjoint(ns[n1], ns[n2]) {
      var p1 := if n1 <= idx then n1 else n1 - 1;
      var p2 := if n2 <= idx then n2 else n2 - 1;
      if n1 == idx + 1 {
        assert ns[n1] == b && p2 != idx && ns[n2] == segs[p2];
      } else if n2 == idx + 1 {
        if n1 < idx {
          assert ns[n1] == segs[p1];
        }
      } else {
        assert p1 < p2 && Disjoint(segs[p1], segs[p2]);
        WithinDisjoint(ns[n1], segs[p1], ns[n2], segs[p2]);
      }
    }
  }

  /** A group apart from the replaced group, and from `b`, is apart from the
      spliced group. */
  lemma SplicedApart(g: Group, idx: nat, a: Segment, b: Segment, h: Group)
    requires idx < |g.segments| && GroupsDisjoint(g, h) && Within(a, g.segments[idx])
    requires forall j :: 0 <= j < |h.segments| ==> Disjoint(b, h.segments[j])
    ensures var g' := g.(segments := g.segments[..idx] + [a, b] + g.segments[idx + 1..]);
      GroupsDisjoint(g', h) && GroupsDisjoint(h, g')
  {
    var segs := g.segments;
    var ns := segs[..idx] + [a, b] + segs[idx + 1..];
    SplicedAt(segs, idx, a, b);
    forall n, j | 0 <= n < |ns| && 0 <= j < |h.segments| ensures Disjoint(ns[n], h.segments[j]) {
      if n != idx + 1 {
        var p := if n <= idx then n else n - 1;
        assert Disjoint(segs[p], h.segments[j]);
        WithinDisjoint(ns[n], segs[p], h.segments[j], h.segments[j]);
      }
    }
  }

  /** Replacing segment idx of group gi by a part `a` of it and a segment `b`
      that is apart from `a` and from every other segment keeps the day free of
      overlaps. */
  lemma ReplaceSegmentPreservesNoOverlap(s: seq<Group>, gi: nat, idx: nat, a: Segment, b: Segment)
    requires gi < |s| && idx < |s[gi].segments| && NoOverlap(s)
    requires Within(a, s[gi].segments[idx]) && Disjoint(a, b)
    requires forall k, i :: 0 <= k < |s| && 0 <= i < |s[k].segments| && (k != gi || i != idx) ==>
      Disjoint(b, s[k].segments[i])
    ensures NoOverlap(ApplySplit(s, gi, idx, a, b))
  {
    var g := s[gi];
    var g' := g.(segments := g.segments[..idx] + [a, b] + g.segments[idx + 1..]);
    var r := ApplySplit(s, gi, idx, a, b);
    assert r == s[gi := g'];
    forall i | 0 <= i < |g.segments| && i != idx ensures Disjoint(b, g.segments[i]) {
      assert g.segments[i] == s[gi].segments[i];
    }
    SplicedInnerDisjoint(g, idx, a, b);
    forall k | 0 <= k < |r| && k != gi ensures GroupsDisjoint(g', r[k]) && GroupsDisjoint(r[k], g') {
      assert r[k] == s[k];
      if k < gi {
        assert GroupsDisjoint(s[k], s[gi]);
        forall i, j | 0 <= i < |g.segments| && 0 <= j < |s[k].segments| ensures Disjoint(g.segments[i], s[k].segments[j]) {
          assert Disjoint(s[k].segments[j], s[gi].segments[i]);
        }
      } else {
        assert GroupsDisjoint(s[gi], s[k]);
      }
      forall j | 0 <= j < |s[k].segments| ensures Disjoint(b, s[k].segments[j]) {
      }
      SplicedApart(g, idx, a, b, s[k]);
    }
    forall k1, k2 | 0 <= k1 < k2 < |r| ensures GroupsDisjoint(r[k1], r[k2]) {
      if k1 != gi && k2 != gi {
        assert r[k1] == s[k1] && r[k2] == s[k2];
        assert GroupsDisjoint(s[k1], s[k2]);
      }
    }
    forall k | 0 <= k < |r| ensures InnerDisjoint(r[k]) {
      if k != gi {
        assert r[k] == s[k];
      }
    }
  }

  /** An accepted split keeps the day free of overlaps (when the group ids are
      unique, so that the index ignored belongs to the split group only). */
  lemma SplitPreservesNoOverlap(view: seq<Group>, groupId: string, idx: int, clickOffset: int)
    requires NoOverlap(view) && UniqueGroupIds(view)
    requires PlanSplit(view, groupId, idx, clickOffset).SplitDone?
    ensures var r := PlanSplit(view, groupId, idx, clickOffset);
      NoOverlap(ApplySplit(view, r.groupIndex, idx, r.first, r.second))
      && UniqueGroupIds(ApplySplit(view, r.groupIndex, idx, r.first, r.second))
  {
    var r := PlanSplit(view, groupId, idx, clickOffset);
    var gi := r.groupIndex;
    SplitShape(view, groupId, idx, clickOffset);
    var ex := ExcludeSegment(view[gi].id, idx);
    forall k, i | 0 <= k < |view| && 0 <= i < |view[k].segments| && (k != gi || i != idx)
      ensures Disjoint(r.second, view[k].segments[i])
    {
      if k != gi {
        assert view[k].id != view[gi].id by {
          if k < gi {} else {}
        }
      }
      assert !Skipped(view[k], i, ex);
      NoCollisionDisjoint(view, r.second.start, r.second.duration, ex, k, i);
    }
    ReplaceSegmentPreservesNoOverlap(view, gi, idx, r.first, r.second);
    var after := ApplySplit(view, gi, idx, r.first, r.second);
    assert forall k :: 0 <= k < |after| ==> after[k].id == view[k].id;
  }

  // ---------------------------------------------------------------------------
  // Deleting

  lemma NoOverlapConsSplit(g: Group, t: seq<Group>)
    requires NoOverlap([g] + t)
    ensures InnerDisjoint(g) && NoOverlap(t) && forall h :: h in t ==> GroupsDisjoint(g, h)
  {
    var s := [g] + t;
    assert s[0] == g;
    forall h | h in t ensures GroupsDisjoint(g, h) {
      var k :| 0 <= k < |t| && t[k] == h;
      assert s[k + 1] == h;
      assert GroupsDisjoint(s[0], s[k + 1]);
    }
    forall k1, k2 | 0 <= k1 < k2 < |t| ensures GroupsDisjoint(t[k1], t[k2]) {
      assert s[k1 + 1] == t[k1] && s[k2 + 1] == t[k2];
      assert GroupsDisjoint(s[k1 + 1], s[k2 + 1]);
    }
    forall k | 0 <= k < |t| ensures InnerDisjoint(t[k]) {
      assert s[k + 1] == t[k];
      assert InnerDisjoint(s[k + 1]);
    }
  }

  lemma NoOverlapConsJoin(g: Group, t: seq<Group>)
    requires InnerDisjoint(g) && NoOverlap(t) && forall h :: h in t ==> GroupsDisjoint(g, h)
    ensures NoOverlap([g] + t)
  {
    var s := [g] + t;
    forall k | 0 <= k < |s| ensures InnerDisjoint(s[k]) {
      if k > 0 {
        assert s[k] == t[k - 1];
      }
    }
    forall k1, k2 | 0 <= k1 < k2 < |s| ensures GroupsDisjoint(s[k1], s[k2]) {
      if k1 == 0 {
        assert s[k2] == t[k2 - 1];
        assert s[k2] in t;
      } else {
        assert s[k1] == t[k1 - 1] && s[k2] == t[k2 - 1];
      }
    }
  }

  lemma NoOverlapCons(g: Group, t: seq<Group>)
    ensures NoOverlap([g] + t) <==>
      InnerDisjoint(g) && NoOverlap(t) && forall h :: h in t ==> GroupsDisjoint(g, h)
  {
    if NoOverlap([g] + t) {
      NoOverlapConsSplit(g, t);
    }
    if InnerDisjoint(g) && NoOverlap(t) && forall h :: h in t ==> GroupsDisjoint(g, h) {
      NoOverlapConsJoin(g, t);
    }
  }

  lemma UniqueCons(g: Group, t: seq<Group>)
    ensures UniqueGroupIds([g] + t) <==> UniqueGroupIds(t) && forall h :: h in t ==> h.id != g.id
  {
    var s := [g] + t;
    assert forall k :: 0 <= k < |t| ==> s[k + 1] == t[k];
    if UniqueGroupIds(s) {
      forall h | h in t ensures h.id != g.id {
        var k :| 0 <= k < |t| && t[k] == h;
        assert s[0].id != s[k + 1].id;
      }
      forall k1, k2 | 0 <= k1 < k2 < |t| ensures t[k1].id != t[k2].id {
        assert s[k1 + 1].id != s[k2 + 1].id;
      }
    }
    if UniqueGroupIds(t) && forall h :: h in t ==> h.id != g.id {
      forall k1, k2 | 0 <= k1 < k2 < |s| ensures s[k1].id != s[k2].id {
        if k1 == 0 {
          assert s[k2] in t;
        } else {
          assert s[k1] == t[k1 - 1] && s[k2] == t[k2 - 1];
        }
      }
    }
  }

  /** Deleting a group keeps the day free of overlaps and keeps ids unique. */
  lemma {:induction false} RemoveGroupPreserves(s: seq<Group>, id: string)
    ensures NoOverlap(s) ==> NoOverlap(RemoveGroup(s, id))
    ensures UniqueGroupIds(s) ==> UniqueGroupIds(RemoveGroup(s, id))
    decreases |s|
  {
    if s != [] {
      var t := s[1..];
      assert s == [s[0]] + t;
      RemoveGroupPreserves(t, id);
      var rt := RemoveGroup(t, id);
      NoOverlapCons(s[0], t);
      UniqueCons(s[0], t);
      if s[0].id != id {
        assert RemoveGroup(s, id) == [s[0]] + rt;
        NoOverlapCons(s[0], rt);
        UniqueCons(s[0], rt);
      } else {
        assert RemoveGroup(s, id) == rt;
      }
    }
  }

  // ---------------------------------------------------------------------------
  // End-of-day audit

  lemma ScheduledTaskIdsIff(s: seq<Group>, id: string)
    ensures id in ScheduledTaskIds(s) <==> HasTaskBlock(s, id)
  {
  }

  /** The audit lists exactly the completed tasks of the loaded day that have
      no task block; preset blocks do not count. */
  lemma AuditMembership(dayLoaded: bool, tasks: seq<Task>, schedule: seq<Group>, t: Task)
    ensures t in CompletedButUnscheduled(dayLoaded, tasks, schedule).tasks
        <==> dayLoaded && t in tasks && ProgressAtLeast(t, 100) && !HasTaskBlock(schedule, t.id)
  {
    ScheduledTaskIdsIff(schedule, t.id);
  }

  /** The audit keeps task order: it distributes over concatenation. */
  lemma {:induction false} CompletedOutsideConcat(a: seq<Task>, b: seq<Task>, ids: set<string>)
    ensures CompletedOutside(a + b, ids) == CompletedOutside(a, ids) + CompletedOutside(b, ids)
    decreases |a|
  {
    if a == [] {
      assert a + b == b;
    } else {
      assert (a + b)[0] == a[0];
      assert (a + b)[1..] == a[1..] + b;
      CompletedOutsideConcat(a[1..], b, ids);
    }
  }

  /** After a task's block is placed, the audit no longer lists that task. */
  lemma PlacedTaskLeavesAudit(view: seq<Group>, task: Task, offsetY: int, newId: string, hue: int, tasks: seq<Task>, t: Task)
    requires PlanDrop(view, DailySource(task), offsetY, newId, hue).Placed?
    requires t.id == task.id
    ensures t !in CompletedButUnscheduled(true, tasks, view + [PlanDrop(view, DailySource(task), offsetY, newId, hue).group]).tasks
  {
    var g := PlanDrop(view, DailySource(task), offsetY, newId, hue).group;
    var r := view + [g];
    assert r[|view|] == g;
    AuditMembership(true, tasks, r, t);
  }

  // ---------------------------------------------------------------------------
  // Time labels, preset durations, the "now" line

  /** Reading "HH:MM" back as an hour and a minute. */
  function ReadHourMinute(t: string): Option<(int, int)>
  {
    if |t| != 5 || t[2] != ':' || !AllDigits(t[..2]) || !AllDigits(t[3..]) then None
    else Some((DecimalValue(t[..2]), DecimalValue(t[3..])))
  }

  /** Reading "HH:MM - HH:MM" back as two hour-and-minute pairs. */
  function ReadTimeRange(r: string): Option<((int, int), (int, int))>
  {
    if |r| != 13 || r[5..8] != " - " then None
    else
      var a, b := ReadHourMinute(r[..5]), ReadHourMinute(r[8..]);
      if a.None? || b.None? then None else Some((a.value, b.value))
  }

  /** The hour of the day (modulo 24) and the minute of a time in minutes. */
  function HourMinuteOf(mins: int): (int, int)
  {
    ((mins / 60) % 24, mins % 60)
  }

  /** For a time at or after midnight, "HH:MM" reads back as the hour
      (modulo 24) and the minute. */
  lemma ClockMinutesReadsBack(mins: int)
    requires mins >= 0
    ensures |ClockMinutes(mins)| == 5
    ensures ReadHourMinute(ClockMinutes(mins)) == Some(HourMinuteOf(mins))
  {
    var h, m := (mins / 60) % 24, mins % 60;
    TwoDigitsRoundTrip(h);
    TwoDigitsRoundTrip(m);
    var r := ClockMinutes(mins);
    assert r == TwoDigits(h) + ":" + TwoDigits(m);
    assert r[..2] == TwoDigits(h);
    assert r[3..] == TwoDigits(m);
  }

  /** The label of a block (`formatTimeRange(start, duration)` is the range
      from the start to the start plus the duration): with both times at or
      after midnight it reads back as the two hours (modulo 24) and
      minutes. */
  lemma ClockRangeReadsBack(startMins: int, endMins: int)
    requires startMins >= 0 && endMins >= 0
    ensures ReadTimeRange(ClockRange(startMins, endMins)) == Some((HourMinuteOf(startMins), HourMinuteOf(endMins)))
  {
    ClockMinutesReadsBack(startMins);
    ClockMinutesReadsBack(endMins);
    var a, b := ClockMinutes(startMins), ClockMinutes(endMins);
    var r := a + " - " + b;
    assert r[..5] == a && r[5..8] == " - " && r[8..] == b;
  }

  /** A time a whole day later reads the same. */
  lemma ClockMinutesWraps(mins: int)
    requires mins >= 0
    ensures ClockMinutes(mins + 1440) == ClockMinutes(mins)
  {
    DayLater(mins, mins + 1440);
  }

  /** The hour (modulo 24) and the minute of a time a day later. */
  lemma DayLater(mins: int, later: int)
    requires mins >= 0 && later == mins + 1440
    ensures JsRem(later / 60, 24) == JsRem(mins / 60, 24) && JsRem(later, 60) == JsRem(mins, 60)
  {
    assert later / 60 == mins / 60 + 24;
  }

  /** A range a whole day later reads the same. */
  lemma ClockRangeWraps(startMins: int, endMins: int)
    requires startMins >= 0 && endMins >= 0
    ensures ClockRange(startMins + 1440, endMins + 1440) == ClockRange(startMins, endMins)
  {
    ClockMinutesWraps(startMins);
    ClockMinutesWraps(endMins);
  }

  /** On a wall clock (hours 0..23, minutes 0..59) the "now" line is shown
      except from 02:00 to 06:59; after midnight it is drawn below 24:00. */
  lemma IndicatorShownIff(hours: int, minutes: int)
    requires 0 <= hours < 24 && 0 <= minutes < 60
    ensures var m := hours * 60 + minutes;
      (IndicatorTop(hours, minutes).Some? <==> !(120 <= m < TimelineStart))
      && (m < 120 ==> IndicatorTop(hours, minutes) == Some(m + 1440 - TimelineStart))
      && (TimelineStart <= m ==> IndicatorTop(hours, minutes) == Some(m - TimelineStart))
  {
  }

  /** `filter` works element by element: filtering a concatenation filters each
      part and keeps them in order. */
  lemma {:induction false} RemoveGroupConcat(a: seq<Group>, b: seq<Group>, groupId: string)
    ensures RemoveGroup(a + b, groupId) == RemoveGroup(a, groupId) + RemoveGroup(b, groupId)
    decreases |a|
  {
    if a == [] {
      assert a + b == b;
    } else {
      assert (a + b)[0] == a[0];
      assert (a + b)[1..] == a[1..] + b;
      RemoveGroupConcat(a[1..], b, groupId);
    }
  }

  /** `filter` works element by element: filtering a concatenation filters each
      part and keeps them in order. */
  lemma {:induction false} RemovePresetConcat(a: seq<Preset>, b: seq<Preset>, id: string)
    ensures RemovePreset(a + b, id) == RemovePreset(a, id) + RemovePreset(b, id)
    decreases |a|
  {
    if a == [] {
      assert a + b == b;
    } else {
      assert (a + b)[0] == a[0];
      assert (a + b)[1..] == a[1..] + b;
      RemovePresetConcat(a[1..], b, id);
    }
  }
}
