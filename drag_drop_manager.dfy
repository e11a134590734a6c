/** Dropping onto a quadrant of the day view (drag-drop-manager.js): each
    kind of dragged item becomes a day task by its own strategy, which is then
    inserted before the task the pointer is over, or at the end. */
module DragDropManager {
  import opened JsSemantics
  import opened Records
  import opened UndoSystem

  /** The drag preview label: at most 40 characters, longer text cut with an
      ellipsis, and "任务" for none. */
  function PreviewText(text: string): (r: string)
    ensures |text| > 40 ==> |r| == 43 && r[..40] == text[..40] && r[40..] == "..."
    ensures 0 < |text| <= 40 ==> r == text
    ensures text == "" ==> r == "任务"
  {
    if |text| > 40 then text[..40] + "..." else if text == "" then "任务" else text
  }

  // ---------------------------------------------------------------------------
  // The record-making strategies

  /** A fresh task in the target quadrant: no progress, a stopped empty
      timer, no subtasks. */
  function FreshTask(newId: string, content: string, targetQ: int, templateId: Option<string>): (t: Task)
    ensures t.id == newId && t.content == content && t.quadrant == targetQ && t.progress == Some(0)
    ensures t.timer == Some(ZeroTimer) && t.subtasks == [] && t.templateId == templateId && t.duration == 0
  {
    Task(newId, content, targetQ, Some(0), Some(Timer(0, false, None, 0, None)), [], 0, templateId)
  }

  /** The `weekly` strategy: a copy of the weekly task's text. */
  function FromWeekly(weekly: Task, targetQ: int, newId: string): (t: Task)
    ensures t.id == newId && t.content == weekly.content && t.quadrant == targetQ && t.progress == Some(0)
    ensures t.timer == Some(ZeroTimer) && t.subtasks == [] && t.templateId.None?
  {
    FreshTask(newId, weekly.content, targetQ, None)
  }

  /** The `recurring` strategy: the template's title, linked to the template. */
  function FromRecurring(template: Template, targetQ: int, newId: string): (t: Task)
    ensures t.id == newId && t.content == template.title && t.quadrant == targetQ && t.progress == Some(0)
    ensures t.timer == Some(ZeroTimer) && t.subtasks == [] && t.templateId == Some(template.id)
  {
    FreshTask(newId, template.title, targetQ, Some(template.id))
  }

  /** The `inbox` strategy's task. */
  function FromInbox(item: InboxItem, targetQ: int, newId: string): (t: Task)
    ensures t.id == newId && t.content == item.content && t.quadrant == targetQ && t.progress == Some(0)
    ensures t.timer == Some(ZeroTimer) && t.subtasks == [] && t.templateId.None?
  {
    FreshTask(newId, item.content, targetQ, None)
  }

  /** The `recommendation` strategy's task: a fresh id and timer, the
      recommendation's text, progress and (copied) subtasks. */
  function FromRecommendation(rec: Task, targetQ: int, newId: string): (t: Task)
    ensures t.id == newId && t.content == rec.content && t.quadrant == targetQ && t.progress == Some(OrZero(rec.progress))
    ensures t.timer == Some(ZeroTimer) && t.subtasks == rec.subtasks && t.templateId.None?
  {
    Task(newId, rec.content, targetQ, Some(OrZero(rec.progress)), Some(Timer(0, false, None, 0, None)), rec.subtasks, 0, None)
  }

  /** `inboxData.items.filter(i => i.id !== id)`. */
  function RemoveInboxItem(items: seq<InboxItem>, id: string): (r: seq<InboxItem>)
    ensures |r| <= |items|
    ensures forall x :: x in r <==> x in items && x.id != id
  {
    if items == [] then [] else (if items[0].id == id then [] else [items[0]]) + RemoveInboxItem(items[1..], id)
  }

  /** `filter` works element by element: filtering a concatenation filters each
      part and keeps them in order. */
  lemma {:induction false} RemoveInboxItemConcat(a: seq<InboxItem>, b: seq<InboxItem>, id: string)
    ensures RemoveInboxItem(a + b, id) == RemoveInboxItem(a, id) + RemoveInboxItem(b, id)
    decreases |a|
  {
    if a == [] {
      assert a + b == b;
    } else {
      assert (a + b)[0] == a[0];
      assert (a + b)[1..] == a[1..] + b;
      RemoveInboxItemConcat(a[1..], b, id);
    }
  }

  /** `list.splice(i, 1)`. */
  function RemoveAt(s: seq<Task>, i: nat): (r: seq<Task>)
    requires i < |s|
    ensures |r| == |s| - 1
    ensures forall j :: 0 <= j < i ==> r[j] == s[j]
    ensures forall j :: i <= j < |r| ==> r[j] == s[j + 1]
  {
    s[..i] + s[i + 1..]
  }

  /** Where the new task goes: before the task with id `dropBeforeId` when
      there is one, at the end otherwise. */
  function InsertIndex(tasks: seq<Task>, dropBeforeId: Option<string>): (idx: nat)
    ensures idx <= |tasks|
    ensures dropBeforeId.Some? && dropBeforeId.value != "" && FindTask(tasks, dropBeforeId.value) >= 0 ==>
      idx == FindTask(tasks, dropBeforeId.value)
    ensures dropBeforeId.None? || dropBeforeId.value == "" || FindTask(tasks, dropBeforeId.value) < 0 ==> idx == |tasks|
  {
    if dropBeforeId.Some? && dropBeforeId.value != "" && FindTask(tasks, dropBeforeId.value) >= 0
    then FindTask(tasks, dropBeforeId.value) else |tasks|
  }

  /** `tasks.splice(idx, 0, t)`. */
  function InsertAt(tasks: seq<Task>, idx: nat, t: Task): (r: seq<Task>)
    requires idx <= |tasks|
    ensures |r| == |tasks| + 1 && r[idx] == t
    ensures forall j :: 0 <= j < idx ==> r[j] == tasks[j]
    ensures forall j :: idx <= j < |tasks| ==> r[j + 1] == tasks[j]
  {
    tasks[..idx] + [t] + tasks[idx..]
  }

  // ---------------------------------------------------------------------------
  // The strategies, applied

  /** What a strategy leaves behind: the task to insert (if any), the day's
      tasks, the recommendations and the inbox after it, and the undo record it
      pushed (if any). */
  datatype StrategyResult = StrategyResult(newTask: Option<Task>, tasks: seq<Task>, recommendations: seq<Task>,
                                           inbox: seq<InboxItem>, pushed: Option<UndoState>)

  /** `dropStrategies[dragSrcType](dragPayload, targetQ)`: the daily strategy
      takes the task out of the day's list and records the move, the
      recommendation strategy takes the recommendation out of its list, the
      inbox strategy removes the inbox item; kinds without a strategy, and a
      source item that is no longer there, give no task. */
  function Strategy(src: DragSource, tasks: seq<Task>, recs: seq<Task>, inbox: seq<InboxItem>,
                    date: string, targetQ: int, newId: string): (r: StrategyResult)
    ensures !(src.WeeklySource? || src.DailySource? || src.RecommendationSource? || src.RecurringSource? || src.InboxSource?)
      ==> r == StrategyResult(None, tasks, recs, inbox, None)
    ensures src.WeeklySource? ==> r == StrategyResult(Some(FromWeekly(src.weekly, targetQ, newId)), tasks, recs, inbox, None)
    ensures src.RecurringSource? ==> r == StrategyResult(Some(FromRecurring(src.template, targetQ, newId)), tasks, recs, inbox, None)
    ensures src.InboxSource? ==>
      r == StrategyResult(Some(FromInbox(src.item, targetQ, newId)), tasks, recs, RemoveInboxItem(inbox, src.item.id), None)
    ensures src.DailySource? ==>
      var i := FindTask(tasks, src.task.id);
      (i < 0 ==> r == StrategyResult(None, tasks, recs, inbox, None))
      && (i >= 0 ==> r == StrategyResult(Some(tasks[i].(quadrant := targetQ)), RemoveAt(tasks, i), recs, inbox,
                                          Some(MoveTask(tasks[i].id, date, tasks[i].quadrant, targetQ))))
    ensures src.RecommendationSource? ==>
      var i := FindTask(recs, src.rec.id);
      (i < 0 ==> r == StrategyResult(None, tasks, recs, inbox, None))
      && (i >= 0 ==> r == StrategyResult(Some(FromRecommendation(recs[i], targetQ, newId)), tasks, RemoveAt(recs, i), inbox, None))
  {
    match src
    case WeeklySource(w) => StrategyResult(Some(FromWeekly(w, targetQ, newId)), tasks, recs, inbox, None)
    case DailySource(payload) =>
      var i := FindTask(tasks, payload.id);
      if i < 0 then StrategyResult(None, tasks, recs, inbox, None)
      else StrategyResult(Some(tasks[i].(quadrant := targetQ)), RemoveAt(tasks, i), recs, inbox,
                          Some(MoveTask(tasks[i].id, date, tasks[i].quadrant, targetQ)))
    case RecommendationSource(payload) =>
      var i := FindTask(recs, payload.id);
      if i < 0 then StrategyResult(None, tasks, recs, inbox, None)
      else StrategyResult(Some(FromRecommendation(recs[i], targetQ, newId)), tasks, RemoveAt(recs, i), inbox, None)
    case RecurringSource(tpl) => StrategyResult(Some(FromRecurring(tpl, targetQ, newId)), tasks, recs, inbox, None)
    case InboxSource(item) =>
      StrategyResult(Some(FromInbox(item, targetQ, newId)), tasks, recs, RemoveInboxItem(inbox, item.id), None)
    case _ => StrategyResult(None, tasks, recs, inbox, None)
  }

  /** The day's list after `drop`: the strategy's task inserted into what the
      strategy left. */
  function DropResult(sr: StrategyResult, dropBeforeId: Option<string>): (r: seq<Task>)
    ensures sr.newTask.None? ==> r == sr.tasks
    ensures sr.newTask.Some? ==> r == InsertAt(sr.tasks, InsertIndex(sr.tasks, dropBeforeId), sr.newTask.value)
  {
    if sr.newTask.Some? then InsertAt(sr.tasks, InsertIndex(sr.tasks, dropBeforeId), sr.newTask.value) else sr.tasks
  }

  // ---------------------------------------------------------------------------
  // The drop zone

  class DropZone {
    /** The viewed day (`currentDateStr`), its tasks and recommendations. */
    var currentDate: string
    var tasks: seq<Task>
    var recommendations: seq<Task>
    var inbox: seq<InboxItem>
    var dragSource: DragSource
    /** `window.dropBeforeId`, set while hovering by the pointer position. */
    var dropBeforeId: Option<string>
    /** The undo buffer the daily strategy records its moves in. */
    const undo: UndoBuffer

    constructor (currentDate: string, tasks: seq<Task>, recommendations: seq<Task>, inbox: seq<InboxItem>, undo: UndoBuffer)
      ensures this.currentDate == currentDate && this.tasks == tasks && this.recommendations == recommendations
      ensures this.inbox == inbox && this.undo == undo && dragSource == NoSource && dropBeforeId.None?
    {
      this.currentDate := currentDate;
      this.tasks := tasks;
      this.recommendations := recommendations;
      this.inbox := inbox;
      this.undo := undo;
      dragSource := NoSource;
      dropBeforeId := None;
    }

    /** The strategy step of `drop`. */
    method RunStrategy(targetQ: int, newId: string) returns (newTask: Option<Task>)
      modifies this`tasks, this`recommendations, this`inbox, undo`undoState
      ensures var sr := Strategy(old(dragSource), old(tasks), old(recommendations), old(inbox), currentDate, targetQ, newId);
        newTask == sr.newTask && tasks == sr.tasks && recommendations == sr.recommendations && inbox == sr.inbox
        && undo.undoState == (if sr.pushed.Some? then sr.pushed else old(undo.undoState))
    {
      newTask := None;
      match dragSource {
        case WeeklySource(w) =>
          newTask := Some(FromWeekly(w, targetQ, newId));
        case DailySource(payload) =>
          var sourceIdx := FindTask(tasks, payload.id);
          if sourceIdx > -1 {
            var task := tasks[sourceIdx];
            tasks := RemoveAt(tasks, sourceIdx);
            undo.PushUndo(MoveTask(task.id, currentDate, task.quadrant, targetQ));
            newTask := Some(task.(quadrant := targetQ));
          }
        case RecommendationSource(payload) =>
          var idx := FindTask(recommendations, payload.id);
          if idx > -1 {
            var task := recommendations[idx];
            recommendations := RemoveAt(recommendations, idx);
            newTask := Some(FromRecommendation(task, targetQ, newId));
          }
        case RecurringSource(tpl) =>
          newTask := Some(FromRecurring(tpl, targetQ, newId));
        case InboxSource(item) =>
          inbox := RemoveInboxItem(inbox, item.id);
          newTask := Some(FromInbox(item, targetQ, newId));
        case _ =>
      }
    }

    /** `drop`: the strategy for the dragged kind makes the task, the task is
        inserted, and the drag state is cleared whatever happened. */
    method Drop(targetQ: int, newId: string)
      modifies this`tasks, this`recommendations, this`inbox, this`dragSource, this`dropBeforeId
      modifies undo`undoState, undo`dailyData
      ensures var sr := Strategy(old(dragSource), old(tasks), old(recommendations), old(inbox), currentDate, targetQ, newId);
        tasks == DropResult(sr, old(dropBeforeId)) && recommendations == sr.recommendations && inbox == sr.inbox
        && undo.undoState == (if sr.pushed.Some? then sr.pushed else old(undo.undoState))
      ensures undo.dailyData == old(undo.dailyData)[currentDate := tasks] && Shared()
      ensures dragSource == NoSource && dropBeforeId.None?
    {
      ghost var sr := Strategy(dragSource, tasks, recommendations, inbox, currentDate, targetQ, newId);
      ghost var days := undo.dailyData;
      var newTask := RunStrategy(targetQ, newId);
      assert newTask == sr.newTask && tasks == sr.tasks && recommendations == sr.recommendations && inbox == sr.inbox;
      ghost var pushed := undo.undoState;
      assert pushed == (if sr.pushed.Some? then sr.pushed else old(undo.undoState));
      if newTask.Some? {
        InsertTask(newTask.value);
      }
      ghost var result := tasks;
      assert result == DropResult(sr, dropBeforeId);
      dragSource := NoSource;
      dropBeforeId := None;
      undo.StoreDay(currentDate, tasks);
      assert tasks == result && recommendations == sr.recommendations && inbox == sr.inbox && undo.undoState == pushed;
      assert undo.dailyData == days[currentDate := tasks];
    }

    /** The viewed day's list is the one the undo buffer holds for that day:
        both stand for the single array `dailyData[currentDateStr].tasks`. */
    predicate Shared()
      reads this, undo
    {
      currentDate in undo.dailyData && undo.dailyData[currentDate] == tasks
    }

    /** `performUndo` seen from the drop zone: the buffer undoes its state,
        and the viewed day's list is the buffer's list for that day. */
    method Undo()
      modifies undo`undoState, undo`dailyData, this`tasks
      ensures old(undo.undoState).None? ==> undo.dailyData == old(undo.dailyData)
      ensures old(undo.undoState).Some? ==> undo.dailyData == Undone(old(undo.dailyData), old(undo.undoState).value)
      ensures undo.undoState.None?
      ensures currentDate in undo.dailyData ==> tasks == undo.dailyData[currentDate]
      ensures currentDate !in undo.dailyData ==> tasks == old(tasks)
      ensures old(Shared()) ==> Shared()
    {
      undo.PerformUndo();
      if currentDate in undo.dailyData {
        tasks := undo.dailyData[currentDate];
      }
    }

    /** The insertion step of `drop`: before the task under the pointer when
        it is in the list, at the end otherwise. */
    method InsertTask(t: Task)
      modifies this`tasks
      ensures tasks == InsertAt(old(tasks), InsertIndex(old(tasks), dropBeforeId), t)
    {
      var insertIndex := |tasks|;
      if dropBeforeId.Some? && dropBeforeId.value != "" {
        var beforeIndex := FindTask(tasks, dropBeforeId.value);
        if beforeIndex > -1 {
          insertIndex := beforeIndex;
        }
      }
      tasks := InsertAt(tasks, insertIndex, t);
    }
  }

  // ---------------------------------------------------------------------------
  // Properties of the daily move

  lemma RemoveAtIdsSeq(tasks: seq<Task>, i: nat)
    requires i < |tasks|
    ensures Ids(RemoveAt(tasks, i)) == Ids(tasks)[..i] + Ids(tasks)[i + 1..]
  {
    var ids, r := Ids(tasks), Ids(RemoveAt(tasks, i));
    forall j | 0 <= j < |r| ensures r[j] == (ids[..i] + ids[i + 1..])[j] {
      if j < i { } else { }
    }
  }

  lemma InsertAtIdsSeq(tasks: seq<Task>, k: nat, t: Task)
    requires k <= |tasks|
    ensures Ids(InsertAt(tasks, k, t)) == Ids(tasks)[..k] + [t.id] + Ids(tasks)[k..]
  {
    var ids, r := Ids(tasks), Ids(InsertAt(tasks, k, t));
    var e := ids[..k] + [t.id] + ids[k..];
    assert |e| == |r|;
    forall j | 0 <= j < |r| ensures r[j] == e[j] {
      if j < k {
        assert e[j] == ids[j];
      } else if j == k {
        assert e[j] == t.id;
      } else {
        assert e[j] == ids[j - 1];
        assert InsertAt(tasks, k, t)[j] == tasks[j - 1];
      }
    }
  }

  lemma MultisetOfSplit(ids: seq<string>, i: nat, x: string)
    requires i <= |ids|
    ensures multiset(ids[..i] + [x] + ids[i..]) == multiset(ids) + multiset{x}
  {
    assert ids == ids[..i] + ids[i..];
  }

  /** Taking a task out of a list removes exactly its id from the list's ids. */
  lemma RemoveAtIds(tasks: seq<Task>, i: nat)
    requires i < |tasks|
    ensures multiset(Ids(tasks)) == multiset(Ids(RemoveAt(tasks, i))) + multiset{tasks[i].id}
  {
    var ids := Ids(tasks);
    RemoveAtIdsSeq(tasks, i);
    assert ids == ids[..i] + [tasks[i].id] + ids[i + 1..];
    MultisetOfSplit(Ids(RemoveAt(tasks, i)), i, tasks[i].id);
    assert Ids(RemoveAt(tasks, i))[..i] == ids[..i];
    assert Ids(RemoveAt(tasks, i))[i..] == ids[i + 1..];
  }

  /** Putting a task into a list adds exactly its id to the list's ids. */
  lemma InsertAtIds(tasks: seq<Task>, k: nat, t: Task)
    requires k <= |tasks|
    ensures multiset(Ids(InsertAt(tasks, k, t))) == multiset(Ids(tasks)) + multiset{t.id}
  {
    InsertAtIdsSeq(tasks, k, t);
    MultisetOfSplit(Ids(tasks), k, t.id);
  }

  /** Moving a day task within the day keeps the same tasks: the list has the
      same length and the same ids (as a multiset), and the moved task sits
      at the insertion point with its new quadrant. */
  lemma DailyMoveKeepsTasks(tasks: seq<Task>, i: nat, dropBeforeId: Option<string>, targetQ: int)
    requires i < |tasks|
    ensures var rest := RemoveAt(tasks, i);
      var r := InsertAt(rest, InsertIndex(rest, dropBeforeId), tasks[i].(quadrant := targetQ));
      |r| == |tasks| && multiset(Ids(r)) == multiset(Ids(tasks))
      && r[InsertIndex(rest, dropBeforeId)] == tasks[i].(quadrant := targetQ)
  {
    var rest := RemoveAt(tasks, i);
    RemoveAtIds(tasks, i);
    InsertAtIds(rest, InsertIndex(rest, dropBeforeId), tasks[i].(quadrant := targetQ));
  }

  /** The same through `drop`: a daily drop onto any quadrant keeps the day's
      length and ids, and records the task's old quadrant for undo. */
  lemma DailyDropKeepsTasks(t: Task, tasks: seq<Task>, recs: seq<Task>, inbox: seq<InboxItem>,
                            date: string, targetQ: int, newId: string, dropBeforeId: Option<string>)
    requires FindTask(tasks, t.id) >= 0
    ensures var sr := Strategy(DailySource(t), tasks, recs, inbox, date, targetQ, newId);
      var r := DropResult(sr, dropBeforeId);
      var i := FindTask(tasks, t.id);
      |r| == |tasks| && multiset(Ids(r)) == multiset(Ids(tasks))
      && sr.pushed == Some(MoveTask(t.id, date, tasks[i].quadrant, targetQ))
  {
    DailyMoveKeepsTasks(tasks, FindTask(tasks, t.id), dropBeforeId, targetQ);
  }

  /** Undoing a daily move gives the moved task its old quadrant back, when
      its id is unique on that day, wherever the move put it. */
  lemma UndoDailyMove(tasks: seq<Task>, i: nat, dropBeforeId: Option<string>, targetQ: int, date: string)
    requires i < |tasks| && forall k :: 0 <= k < |tasks| && k != i ==> tasks[k].id != tasks[i].id
    ensures var rest := RemoveAt(tasks, i);
      var k := InsertIndex(rest, dropBeforeId);
      var r := InsertAt(rest, k, tasks[i].(quadrant := targetQ));
      Undone(map[date := r], MoveTask(tasks[i].id, date, tasks[i].quadrant, targetQ))[date] == r[k := tasks[i]]
  {
    var rest := RemoveAt(tasks, i);
    var k := InsertIndex(rest, dropBeforeId);
    var r := InsertAt(rest, k, tasks[i].(quadrant := targetQ));
    assert forall j :: 0 <= j < |rest| ==> rest[j].id != tasks[i].id by {
      forall j | 0 <= j < |rest| ensures rest[j].id != tasks[i].id {
        if j < i { assert rest[j] == tasks[j]; } else { assert rest[j] == tasks[j + 1]; }
      }
    }
    forall j | 0 <= j < k ensures r[j].id != tasks[i].id {
      assert r[j] == rest[j];
    }
    FindTaskIs(r, tasks[i].id, k);
  }

  /** A daily drop followed by `performUndo` on the loaded days, the day's list
      being the one the drop left: the moved task is back in its quadrant, at
      the position the drop gave it. */
  lemma DropThenUndoDaily(m: map<string, seq<Task>>, tasks: seq<Task>, recs: seq<Task>, inbox: seq<InboxItem>,
                          date: string, targetQ: int, newId: string, payload: Task, before: Option<string>)
    requires FindTask(tasks, payload.id) >= 0
    requires forall j, k :: 0 <= j < k < |tasks| ==> tasks[j].id != tasks[k].id
    ensures var sr := Strategy(DailySource(payload), tasks, recs, inbox, date, targetQ, newId);
      var r := DropResult(sr, before);
      sr.pushed.Some?
      && Undone(m[date := r], sr.pushed.value)[date] == r[InsertIndex(sr.tasks, before) := tasks[FindTask(tasks, payload.id)]]
  {
    var i := FindTask(tasks, payload.id);
    var sr := Strategy(DailySource(payload), tasks, recs, inbox, date, targetQ, newId);
    var st := MoveTask(tasks[i].id, date, tasks[i].quadrant, targetQ);
    assert sr == StrategyResult(Some(tasks[i].(quadrant := targetQ)), RemoveAt(tasks, i), recs, inbox, Some(st));
    var k := InsertIndex(sr.tasks, before);
    var r := DropResult(sr, before);
    assert r == InsertAt(RemoveAt(tasks, i), k, tasks[i].(quadrant := targetQ));
    assert forall k :: 0 <= k < |tasks| && k != i ==> tasks[k].id != tasks[i].id by {
      forall k | 0 <= k < |tasks| && k != i ensures tasks[k].id != tasks[i].id {
        if k < i { assert tasks[k].id != tasks[i].id; } else { assert tasks[i].id != tasks[k].id; }
      }
    }
    UndoDailyMove(tasks, i, before, targetQ, date);
    var m2 := m[date := r];
    assert date in m2 && m2[date] == r;
    UndoneMoveLocal(m2, st);
  }
}
