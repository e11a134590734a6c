/** End-of-day migration (`finalizeDayAndWeek`): today's unfinished tasks, the
    week's unfinished weekly tasks on a Sunday, and today's recommendations
    are copied into the next day's recommendation list, skipping any whose
    content is already there. */
module FinalizeDay {
  import opened JsSemantics
  import opened Records
  import opened Schedule

  /** A weekly task, as far as the migration reads it. */
  datatype WeeklyTask = WeeklyTask(id: string, content: string, completed: bool)

  /** A day record of a week file. A missing `tasks` list reads as empty, as
      every use of it goes through `|| []`; `recommendations` and `schedule`
      may be missing. */
  datatype DayRecord = DayRecord(tasks: seq<Task>, recommendations: Option<seq<Task>>, summary: string,
                                 schedule: Option<seq<Group>>)

  /** One argument of `addRec`: the task-like object and whether it came
      from the weekly list. */
  datatype Candidate = Candidate(task: Task, weekly: bool)

  const WeeklyPrefix: string := "[周任务] "

  // ---------------------------------------------------------------------------
  // Selection

  /** `tasks.filter(t => t.progress < 100)`: a task with no progress is
      left behind. */
  function Unfinished(tasks: seq<Task>): (r: seq<Task>)
    ensures |r| <= |tasks|
    ensures forall t :: t in r <==> t in tasks && ProgressBelow(t, 100)
  {
    if tasks == [] then []
    else (if ProgressBelow(tasks[0], 100) then [tasks[0]] else []) + Unfinished(tasks[1..])
  }

  /** `filter` works element by element: filtering a concatenation filters each
      part and keeps them in order. */
  lemma {:induction false} UnfinishedConcat(a: seq<Task>, b: seq<Task>)
    ensures Unfinished(a + b) == Unfinished(a) + Unfinished(b)
    decreases |a|
  {
    if a == [] {
      assert a + b == b;
    } else {
      assert (a + b)[0] == a[0];
      assert (a + b)[1..] == a[1..] + b;
      UnfinishedConcat(a[1..], b);
    }
  }

  /** `weeklyTasks.filter(t => !t.completed)`. */
  function UncompletedWeekly(ws: seq<WeeklyTask>): (r: seq<WeeklyTask>)
    ensures |r| <= |ws|
    ensures forall w :: w in r <==> w in ws && !w.completed
  {
    if ws == [] then []
    else (if !ws[0].completed then [ws[0]] else []) + UncompletedWeekly(ws[1..])
  }

  /** The stand-in object built for a weekly task: its content, quadrant 2,
      progress 0, no timer and no subtasks. */
  function WeeklyCandidate(w: WeeklyTask): (c: Candidate)
    ensures c.weekly && c.task.content == w.content && c.task.quadrant == 2 && c.task.progress == Some(0)
    ensures c.task.timer.None? && c.task.subtasks == []
  {
    Candidate(Task("", w.content, 2, Some(0), None, [], 0, None), true)
  }

  function WeeklyCandidates(ws: seq<WeeklyTask>): (r: seq<Candidate>)
    ensures |r| == |ws| && forall k :: 0 <= k < |ws| ==> r[k] == WeeklyCandidate(ws[k])
  {
    if ws == [] then [] else [WeeklyCandidate(ws[0])] + WeeklyCandidates(ws[1..])
  }

  function Plain(ts: seq<Task>): (r: seq<Candidate>)
    ensures |r| == |ts| && forall k :: 0 <= k < |ts| ==> r[k] == Candidate(ts[k], false)
  {
    if ts == [] then [] else [Candidate(ts[0], false)] + Plain(ts[1..])
  }

  lemma PlainMembers(ts: seq<Task>)
    ensures forall c :: c in Plain(ts) ==> !c.weekly && c.task in ts
    ensures forall t :: t in ts ==> Candidate(t, false) in Plain(ts)
  {
    forall t | t in ts ensures Candidate(t, false) in Plain(ts) {
      var k :| 0 <= k < |ts| && ts[k] == t;
      assert Plain(ts)[k] == Candidate(t, false);
    }
  }

  lemma WeeklyMembers(ws: seq<WeeklyTask>)
    ensures forall c :: c in WeeklyCandidates(ws) ==> exists w :: w in ws && c == WeeklyCandidate(w)
    ensures forall w :: w in ws ==> WeeklyCandidate(w) in WeeklyCandidates(ws)
  {
    forall c | c in WeeklyCandidates(ws) ensures exists w :: w in ws && c == WeeklyCandidate(w) {
      var k :| 0 <= k < |ws| && WeeklyCandidates(ws)[k] == c;
      assert ws[k] in ws;
    }
    forall w | w in ws ensures WeeklyCandidate(w) in WeeklyCandidates(ws) {
      var k :| 0 <= k < |ws| && ws[k] == w;
      assert WeeklyCandidates(ws)[k] == WeeklyCandidate(w);
    }
  }

  function RecsOf(d: DayRecord): (r: seq<Task>)
    ensures d.recommendations.Some? ==> r == d.recommendations.value
    ensures d.recommendations.None? ==> r == []
  {
    if d.recommendations.Some? then d.recommendations.value else []
  }

  /** Everything `addRec` is called on, in call order: the unfinished day
      tasks, the uncompleted weekly tasks when today is a Sunday, then every
      recommendation of today. Its length is the `count` shown to the user. */
  function MigrationItems(today: DayRecord, weekly: seq<WeeklyTask>, isSunday: bool): (r: seq<Candidate>)
    ensures |r| == |Unfinished(today.tasks)| + (if isSunday then |UncompletedWeekly(weekly)| else 0) + |RecsOf(today)|
  {
    Plain(Unfinished(today.tasks)) + (if isSunday then WeeklyCandidates(UncompletedWeekly(weekly)) else [])
    + Plain(RecsOf(today))
  }

  /** The candidates are exactly the day tasks below 100% progress, the
      uncompleted weekly tasks if today is a Sunday, and the recommendations. */
  lemma MigrationSelection(today: DayRecord, weekly: seq<WeeklyTask>, isSunday: bool)
    ensures var r := MigrationItems(today, weekly, isSunday);
      (forall t :: Candidate(t, false) in r <==> (t in today.tasks && ProgressBelow(t, 100)) || t in RecsOf(today))
      && (forall c :: c in r && c.weekly ==> isSunday && exists w :: w in weekly && !w.completed && c == WeeklyCandidate(w))
      && (isSunday ==> forall w :: w in weekly && !w.completed ==> WeeklyCandidate(w) in r)
  {
    var u := UncompletedWeekly(weekly);
    PlainMembers(Unfinished(today.tasks));
    PlainMembers(RecsOf(today));
    WeeklyMembers(u);
    var r := MigrationItems(today, weekly, isSunday);
  }

  // ---------------------------------------------------------------------------
  // addRec

  /** The content a candidate is migrated with. */
  function RecContent(c: Candidate): (s: string)
    ensures c.weekly ==> s == WeeklyPrefix + c.task.content
    ensures !c.weekly ==> s == c.task.content
  {
    if c.weekly then WeeklyPrefix + c.task.content else c.task.content
  }

  /** The recommendation pushed for a candidate: a fresh id, the (possibly
      prefixed) content, the quadrant or 4 when it has none, its progress, a
      zeroed timer and a copy of its subtasks. */
  function NewRec(c: Candidate, id: string): (t: Task)
    ensures t.id == id && t.content == RecContent(c)
    ensures c.task.quadrant != 0 ==> t.quadrant == c.task.quadrant
    ensures c.task.quadrant == 0 ==> t.quadrant == 4
    ensures t.progress == Some(OrZero(c.task.progress)) && t.timer == Some(ZeroTimer) && t.subtasks == c.task.subtasks
  {
    Task(id, RecContent(c), if c.task.quadrant != 0 then c.task.quadrant else 4, Some(OrZero(c.task.progress)),
         Some(ZeroTimer), c.task.subtasks, 0, None)
  }

  /** `targetRecs.some(r => r.content === content)`. */
  predicate HasContent(recs: seq<Task>, s: string)
  {
    exists k :: 0 <= k < |recs| && recs[k].content == s
  }

  /** One call of `addRec`: nothing when a recommendation with that content
      is already on the list, one new recommendation at the end otherwise. */
  function AddRec(recs: seq<Task>, c: Candidate, id: string): (r: seq<Task>)
    ensures HasContent(recs, RecContent(c)) ==> r == recs
    ensures !HasContent(recs, RecContent(c)) ==> r == recs + [NewRec(c, id)]
  {
    if HasContent(recs, RecContent(c)) then recs else recs + [NewRec(c, id)]
  }

  /** The recommendation list after `addRec` ran on every candidate in turn;
      the candidate at position j gets the fresh id `ids[j]` if it is added. */
  function Migrated(recs: seq<Task>, items: seq<Candidate>, ids: seq<string>): (r: seq<Task>)
    requires |items| <= |ids|
    ensures |recs| <= |r| <= |recs| + |items|
    ensures r[..|recs|] == recs
    decreases |items|
  {
    if items == [] then recs
    else
      var prev := Migrated(recs, items[..|items| - 1], ids);
      var r := AddRec(prev, items[|items| - 1], ids[|items| - 1]);
      assert r[..|recs|] == prev[..|recs|];
      r
  }

  /** No two recommendations share a content. */
  predicate DistinctContents(recs: seq<Task>)
  {
    forall i, j :: 0 <= i < j < |recs| ==> recs[i].content != recs[j].content
  }

  // ---------------------------------------------------------------------------
  // Properties of the migration

  /** Migrating never creates two recommendations with one content: each
      candidate is skipped when its content is on the list already, whether
      it was there before or was added earlier in the same pass. */
  lemma {:induction false} MigratedKeepsContentsDistinct(recs: seq<Task>, items: seq<Candidate>, ids: seq<string>)
    requires |items| <= |ids| && DistinctContents(recs)
    ensures DistinctContents(Migrated(recs, items, ids))
    decreases |items|
  {
    if items != [] {
      var prev := Migrated(recs, items[..|items| - 1], ids);
      MigratedKeepsContentsDistinct(recs, items[..|items| - 1], ids);
      var c := items[|items| - 1];
      if !HasContent(prev, RecContent(c)) {
        var r := prev + [NewRec(c, ids[|items| - 1])];
        forall i, j | 0 <= i < j < |r| ensures r[i].content != r[j].content {
          if j == |prev| {
            assert r[i] == prev[i];
          }
        }
      }
    }
  }

  /** After migrating, every candidate's content is on the list. */
  lemma {:induction false} MigratedCoversItems(recs: seq<Task>, items: seq<Candidate>, ids: seq<string>)
    requires |items| <= |ids|
    ensures forall j :: 0 <= j < |items| ==> HasContent(Migrated(recs, items, ids), RecContent(items[j]))
    decreases |items|
  {
    if items != [] {
      var n := |items| - 1;
      var prev := Migrated(recs, items[..n], ids);
      var r := Migrated(recs, items, ids);
      MigratedCoversItems(recs, items[..n], ids);
      assert prev == r[..|prev|];
      forall j | 0 <= j < |items| ensures HasContent(r, RecContent(items[j])) {
        if j < n {
          assert items[..n][j] == items[j];
          var k :| 0 <= k < |prev| && prev[k].content == RecContent(items[j]);
          assert r[k] == prev[k];
        } else if !HasContent(prev, RecContent(items[n])) {
          assert r[|prev|] == NewRec(items[n], ids[n]);
        } else {
          var k :| 0 <= k < |prev| && prev[k].content == RecContent(items[n]);
          assert r[k] == prev[k];
        }
      }
    }
  }

  /** Every recommendation the migration adds is the new record of one of
      the candidates, with that candidate's fresh id. */
  lemma {:induction false} MigratedAddsOnlyCandidates(recs: seq<Task>, items: seq<Candidate>, ids: seq<string>)
    requires |items| <= |ids|
    ensures var r := Migrated(recs, items, ids);
      forall k :: |recs| <= k < |r| ==> exists j :: 0 <= j < |items| && r[k] == NewRec(items[j], ids[j])
    decreases |items|
  {
    if items != [] {
      var n := |items| - 1;
      var prev := Migrated(recs, items[..n], ids);
      var r := Migrated(recs, items, ids);
      MigratedAddsOnlyCandidates(recs, items[..n], ids);
      assert forall k :: |recs| <= k < |Migrated(recs, items[..n], ids)| ==> exists j :: 0 <= j < |items[..n]| && Migrated(recs, items[..n], ids)[k] == NewRec(items[..n][j], ids[j]);
      assert r[..|prev|] == prev;
      forall k | |recs| <= k < |r| ensures exists j :: 0 <= j < |items| && r[k] == NewRec(items[j], ids[j]) {
        if k < |prev| {
          assert |recs| <= k < |prev|;
          var j :| 0 <= j < |items[..n]| && prev[k] == NewRec(items[..n][j], ids[j]);
          assert r[k] == prev[k];
          assert items[..n][j] == items[j];
        } else {
          assert r[k] == NewRec(items[n], ids[n]);
        }
      }
    }
  }

  /** When no candidate's content is on the list yet and no two candidates
      share a content, every candidate is added. */
  lemma {:induction false} MigratedAddsAllFresh(recs: seq<Task>, items: seq<Candidate>, ids: seq<string>)
    requires |items| <= |ids|
    requires forall j :: 0 <= j < |items| ==> !HasContent(recs, RecContent(items[j]))
    requires forall i, j :: 0 <= i < j < |items| ==> RecContent(items[i]) != RecContent(items[j])
    ensures |Migrated(recs, items, ids)| == |recs| + |items|
    decreases |items|
  {
    if items != [] {
      var n := |items| - 1;
      var front := items[..n];
      assert forall j :: 0 <= j < |front| ==> front[j] == items[j];
      MigratedAddsAllFresh(recs, front, ids);
      MigratedAddsOnlyCandidates(recs, front, ids);
      var prev := Migrated(recs, front, ids);
      var c := RecContent(items[n]);
      forall k | 0 <= k < |prev| ensures prev[k].content != c {
        if k < |recs| {
          assert prev[..|recs|][k] == recs[k];
        } else {
          var j :| 0 <= j < |front| && prev[k] == NewRec(front[j], ids[j]);
        }
      }
      assert !HasContent(prev, c);
    }
  }

  // ---------------------------------------------------------------------------
  // The target day

  /** The target day made ready for migration: an empty record when it is
      missing, and empty `recommendations` / `schedule` lists where those
      are missing; its tasks and summary are kept. */
  function PreparedTarget(d: Option<DayRecord>): (r: DayRecord)
    ensures r.recommendations.Some? && r.schedule.Some?
    ensures d.None? ==> r == DayRecord([], Some([]), "", Some([]))
    ensures d.Some? ==> r.tasks == d.value.tasks && r.summary == d.value.summary
    ensures d.Some? && d.value.recommendations.Some? ==> r.recommendations == d.value.recommendations
    ensures d.Some? && d.value.recommendations.None? ==> r.recommendations == Some([])
    ensures d.Some? && d.value.schedule.Some? ==> r.schedule == d.value.schedule
    ensures d.Some? && d.value.schedule.None? ==> r.schedule == Some([])
  {
    if d.None? then DayRecord([], Some([]), "", Some([]))
    else
      var e := d.value;
      e.(recommendations := if e.recommendations.Some? then e.recommendations else Some([]),
         schedule := if e.schedule.Some? then e.schedule else Some([]))
  }

  function Lookup(m: map<string, DayRecord>, k: string): (o: Option<DayRecord>)
    ensures k in m <==> o.Some?
    ensures k in m ==> o.value == m[k]
  {
    if k in m then Some(m[k]) else None
  }

  /** The target day after the migration. */
  function Finalized(target: map<string, DayRecord>, nextDateStr: string, items: seq<Candidate>, ids: seq<string>): (r: DayRecord)
    requires |items| <= |ids|
    ensures var p := PreparedTarget(Lookup(target, nextDateStr));
      r == p.(recommendations := Some(Migrated(p.recommendations.value, items, ids)))
  {
    var p := PreparedTarget(Lookup(target, nextDateStr));
    p.(recommendations := Some(Migrated(p.recommendations.value, items, ids)))
  }

  /** The migrated day keeps its tasks and its schedule, keeps every
      recommendation it had in front, and has every candidate's content
      exactly once when its contents were distinct before. */
  lemma FinalizedDay(target: map<string, DayRecord>, nextDateStr: string, items: seq<Candidate>, ids: seq<string>)
    requires |items| <= |ids|
    ensures var before := PreparedTarget(Lookup(target, nextDateStr));
      var after := Finalized(target, nextDateStr, items, ids);
      after.tasks == before.tasks && after.schedule == before.schedule && after.recommendations.Some?
      && after.recommendations.value[..|before.recommendations.value|] == before.recommendations.value
      && (forall j :: 0 <= j < |items| ==> HasContent(after.recommendations.value, RecContent(items[j])))
      && (DistinctContents(before.recommendations.value) ==> DistinctContents(after.recommendations.value))
  {
    var before := PreparedTarget(Lookup(target, nextDateStr));
    MigratedCoversItems(before.recommendations.value, items, ids);
    if DistinctContents(before.recommendations.value) {
      MigratedKeepsContentsDistinct(before.recommendations.value, items, ids);
    }
  }

  // ---------------------------------------------------------------------------
  // The week data and finalizeDayAndWeek

  /** The data of one week file: its day records and its weekly tasks. */
  class Week {
    var dailyData: map<string, DayRecord>
    var weeklyTasks: seq<WeeklyTask>

    constructor (dailyData: map<string, DayRecord>, weeklyTasks: seq<WeeklyTask>)
      ensures this.dailyData == dailyData && this.weeklyTasks == weeklyTasks
    {
      this.dailyData := dailyData;
      this.weeklyTasks := weeklyTasks;
    }
  }

  /** The `some` scan of `addRec` over the target list. */
  method ContainsContent(recs: seq<Task>, content: string) returns (b: bool)
    ensures b == HasContent(recs, content)
  {
    b := false;
    var k := 0;
    while k < |recs|
      invariant 0 <= k <= |recs|
      invariant b <==> exists m :: 0 <= m < k && recs[m].content == content
    {
      if recs[k].content == content {
        b := true;
      }
      k := k + 1;
    }
  }

  /** The `forEach(addRec)` passes over the target list. */
  method AddRecs(recs: seq<Task>, items: seq<Candidate>, ids: seq<string>) returns (r: seq<Task>)
    requires |items| <= |ids|
    ensures r == Migrated(recs, items, ids)
  {
    r := recs;
    var i := 0;
    while i < |items|
      invariant 0 <= i <= |items|
      invariant r == Migrated(recs, items[..i], ids)
    {
      var present := ContainsContent(r, RecContent(items[i]));
      if !present {
        r := r + [NewRec(items[i], ids[i])];
      }
      assert items[..i + 1][..i] == items[..i];
      i := i + 1;
    }
    assert items[..i] == items;
  }

  /** `finalizeDayAndWeek`: `current` is the week on screen, `target` the
      week file that holds tomorrow (the same object when tomorrow is in the
      same week). Returns the number of items offered for migration; the
      migration itself happens only when there is something to migrate and
      the user confirms. */
  method FinalizeDayAndWeek(current: Week, target: Week, todayStr: string, nextDateStr: string,
                            isSunday: bool, confirmed: bool, ids: seq<string>) returns (count: nat)
    requires todayStr in current.dailyData ==>
      |MigrationItems(current.dailyData[todayStr], current.weeklyTasks, isSunday)| <= |ids|
    modifies target
    ensures target.weeklyTasks == old(target.weeklyTasks)
    ensures todayStr !in old(current.dailyData) ==> count == 0 && target.dailyData == old(target.dailyData)
    ensures todayStr in old(current.dailyData) ==>
      var items := MigrationItems(old(current.dailyData[todayStr]), old(current.weeklyTasks), isSunday);
      count == |items|
      && (count == 0 || !confirmed ==> target.dailyData == old(target.dailyData))
      && (count > 0 && confirmed ==>
            target.dailyData == old(target.dailyData)[nextDateStr := Finalized(old(target.dailyData), nextDateStr, items, ids)])
  {
    if todayStr !in current.dailyData {
      return 0;
    }
    var items := MigrationItems(current.dailyData[todayStr], current.weeklyTasks, isSunday);
    count := |items|;
    if count == 0 || !confirmed {
      return;
    }
    var day := PreparedTarget(Lookup(target.dailyData, nextDateStr));
    var recs := AddRecs(day.recommendations.value, items, ids);
    target.dailyData := target.dailyData[nextDateStr := day.(recommendations := Some(recs))];
  }
}
