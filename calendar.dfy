/** The month calendar of calendar.js: heat-map levels from a day's
    completion rate, the Monday-first month grid with its padding days, the
    per-day statistics of a month and the cache that keeps them per month.
    Calendar facts that come from `Date` (weekday of the 1st, lengths of this
    and the previous month, today's date, the year and month a stored date
    key parses to) and the day records read from the week files are inputs. */
module Calendar {
  import opened JsSemantics
  import opened Records

  // ---------------------------------------------------------------------------
  // Heat-map level

  /** `getHeatmapLevel`: 0 for no completion, then one level per quarter. */
  function HeatmapLevel(rate: int): (level: int)
    ensures 0 <= level <= 4
    ensures level == 0 <==> rate == 0
    ensures 0 < rate <= 25 ==> level == 1
    ensures 25 < rate <= 50 ==> level == 2
    ensures 50 < rate <= 75 ==> level == 3
    ensures rate > 75 ==> level == 4
  {
    if rate == 0 then 0
    else if rate <= 25 then 1
    else if rate <= 50 then 2
    else if rate <= 75 then 3
    else 4
  }

  /** Over the rates that occur (0 and up), a higher rate never shows a lower
      level. */
  lemma HeatmapMonotone(r1: int, r2: int)
    requires 0 <= r1 <= r2
    ensures HeatmapLevel(r1) <= HeatmapLevel(r2)
  {
  }

  // ---------------------------------------------------------------------------
  // The grid

  /** The column of the 1st in a Monday-first week, from `getDay()` (0 is
      Sunday). */
  function MondayOffset(jsDay: int): (col: int)
    requires 0 <= jsDay <= 6
    ensures 0 <= col <= 6
    ensures col == (jsDay + 6) % 7
  {
    if jsDay == 0 then 6 else jsDay - 1
  }

  /** The offset is a bijection of the seven weekdays, Monday first. */
  lemma MondayOffsetBijective(d1: int, d2: int)
    requires 0 <= d1 <= 6 && 0 <= d2 <= 6 && MondayOffset(d1) == MondayOffset(d2)
    ensures d1 == d2
  {
  }

  datatype DayStats = DayStats(completionRate: int, hasOverdue: bool)

  datatype Cell =
    | PaddingDay(number: int)
    | MonthDay(number: int, dateStr: string, level: int, hasOverdue: bool, isToday: bool)

  /** The `YYYY-MM-DD` key of a day of the month (`month` counted from 0). */
  function DateKey(year: int, month: int, day: int): (r: string)
    ensures 0 <= month < 12 && 0 <= day < 100 ==>
      var y := IntToString(year);
      |r| == |y| + 6 && r[..|y|] == y && r[|y|] == '-' && r[|y| + 3] == '-'
      && AllDigits(r[|y| + 1..|y| + 3]) && DecimalValue(r[|y| + 1..|y| + 3]) == month + 1
      && AllDigits(r[|y| + 4..]) && DecimalValue(r[|y| + 4..]) == day
  {
    var y, mm, dd := IntToString(year), TwoDigits(month + 1), TwoDigits(day);
    if 0 <= month < 12 && 0 <= day < 100 then
      TwoDigitsRoundTrip(month + 1);
      TwoDigitsRoundTrip(day);
      KeyShape(y, mm, dd);
      y + "-" + mm + "-" + dd
    else y + "-" + mm + "-" + dd
  }

  /** Where the parts of a `YYYY-MM-DD` key sit. */
  lemma KeyShape(y: string, mm: string, dd: string)
    requires |mm| == 2 && |dd| == 2
    ensures var r := y + "-" + mm + "-" + dd;
      |r| == |y| + 6 && r[..|y|] == y && r[|y|] == '-' && r[|y| + 3] == '-'
      && r[|y| + 1..|y| + 3] == mm && r[|y| + 4..] == dd
  {
    var r := y + "-" + mm + "-" + dd;
    assert r[..|y|] == y;
    assert r[|y| + 1..|y| + 3] == mm;
    assert r[|y| + 4..] == dd;
  }

  /** The cell of day `d`: its level and overdue mark when the month's data
      has the day, level 0 otherwise. */
  function DayCell(year: int, month: int, d: int, monthData: map<string, DayStats>, today: string): (c: Cell)
    ensures c.MonthDay? && c.number == d && c.dateStr == DateKey(year, month, d)
    ensures c.dateStr in monthData ==>
      c.level == HeatmapLevel(monthData[c.dateStr].completionRate) && c.hasOverdue == monthData[c.dateStr].hasOverdue
    ensures c.dateStr !in monthData ==> c.level == 0 && !c.hasOverdue
    ensures c.isToday <==> c.dateStr == today
  {
    var key := DateKey(year, month, d);
    if key in monthData
    then MonthDay(d, key, HeatmapLevel(monthData[key].completionRate), monthData[key].hasOverdue, key == today)
    else MonthDay(d, key, 0, false, key == today)
  }

  /** `Math.ceil(total / 7) * 7 - total`: the cells left in the last row. */
  function TrailingCount(total: nat): (fill: nat)
    ensures fill < 7 && (total + fill) % 7 == 0
  {
    (total + 6) / 7 * 7 - total
  }

  /** The cells `render` appends: the previous month's last days, this
      month's days, then the next month's first days up to a full row. */
  function Grid(startDay: nat, daysInMonth: nat, prevMonthDays: int, year: int, month: int,
                monthData: map<string, DayStats>, today: string): seq<Cell>
  {
    LeadCells(startDay, prevMonthDays)
    + DayCells(year, month, daysInMonth, monthData, today)
    + TrailCells(TrailingCount(startDay + daysInMonth))
  }

  /** The previous month's last `startDay` days, counting up to its last. */
  function LeadCells(startDay: nat, prevMonthDays: int): (r: seq<Cell>)
    ensures |r| == startDay
    ensures forall i :: 0 <= i < startDay ==> r[i] == PaddingDay(prevMonthDays - startDay + 1 + i)
  {
    seq(startDay, i => PaddingDay(prevMonthDays - startDay + 1 + i))
  }

  /** The cells of days 1 to n of the month. */
  function DayCells(year: int, month: int, n: nat, monthData: map<string, DayStats>, today: string): (r: seq<Cell>)
    ensures |r| == n
  {
    if n == 0 then [] else DayCells(year, month, n - 1, monthData, today) + [DayCell(year, month, n, monthData, today)]
  }

  /** Day d's cell is at position d - 1. */
  lemma {:induction false} DayCellsAt(year: int, month: int, n: nat, monthData: map<string, DayStats>, today: string, d: int)
    requires 1 <= d <= n
    ensures DayCells(year, month, n, monthData, today)[d - 1] == DayCell(year, month, d, monthData, today)
  {
    if d < n {
      DayCellsAt(year, month, n - 1, monthData, today, d);
    }
  }

  /** The three parts of a concatenation are its slices. */
  lemma ConcatSlices<T>(a: seq<T>, b: seq<T>, c: seq<T>)
    ensures (a + b + c)[..|a|] == a && (a + b + c)[|a|..|a| + |b|] == b && (a + b + c)[|a| + |b|..] == c
  {
    assert (a + b + c)[..|a|] == a;
    assert (a + b + c)[|a|..|a| + |b|] == b;
    assert (a + b + c)[|a| + |b|..] == c;
  }

  /** The next month's first n days. */
  function TrailCells(n: nat): (r: seq<Cell>)
    ensures |r| == n
    ensures forall j :: 0 <= j < n ==> r[j] == PaddingDay(j + 1)
  {
    seq(n, j => PaddingDay(j + 1))
  }

  /** The grid is whole rows of seven with less than one row of trailing
      padding; the leading padding counts up to the last day of the previous
      month, then come the month's day cells, numbered in order from 1, and
      the trailing padding counts from 1. */
  lemma GridShape(startDay: nat, daysInMonth: nat, prevMonthDays: int, year: int, month: int,
                  monthData: map<string, DayStats>, today: string)
    ensures var g := Grid(startDay, daysInMonth, prevMonthDays, year, month, monthData, today);
      var total := startDay + daysInMonth;
      |g| == total + TrailingCount(total) && |g| % 7 == 0 && total <= |g| < total + 7
      && g[..startDay] == LeadCells(startDay, prevMonthDays)
      && (startDay > 0 ==> g[startDay - 1] == PaddingDay(prevMonthDays))
      && g[startDay..total] == DayCells(year, month, daysInMonth, monthData, today)
      && (forall i :: startDay <= i < total ==> g[i].MonthDay? && g[i].number == i - startDay + 1)
      && g[total..] == TrailCells(TrailingCount(total))
  {
    var g := Grid(startDay, daysInMonth, prevMonthDays, year, month, monthData, today);
    var total := startDay + daysInMonth;
    var a := LeadCells(startDay, prevMonthDays);
    var b := DayCells(year, month, daysInMonth, monthData, today);
    var c := TrailCells(TrailingCount(total));
    ConcatSlices(a, b, c);
    forall i | startDay <= i < total ensures g[i].MonthDay? && g[i].number == i - startDay + 1 {
      assert g[i] == b[i - startDay];
      DayCellsAt(year, month, daysInMonth, monthData, today, i - startDay + 1);
    }
  }

  // ---------------------------------------------------------------------------
  // Month statistics

  /** A day record of a week file: its key, the year and month that
      `dateStr.split('-').map(Number)` gives for it (month counted from 1),
      and its task list when it has one. */
  datatype DayEntry = DayEntry(dateStr: string, year: int, month: int, tasks: Option<seq<Task>>)

  function DoneCount(tasks: seq<Task>): (c: nat)
    ensures c <= |tasks|
    ensures c == |tasks| <==> forall k :: 0 <= k < |tasks| ==> ProgressAtLeast(tasks[k], 100)
  {
    if tasks == [] then 0 else DoneCount(tasks[1..]) + (if ProgressAtLeast(tasks[0], 100) then 1 else 0)
  }

  /** A day's statistics: with tasks, the rounded share of finished ones, and
      an overdue mark for a past day with unfinished tasks; without, zero and
      no mark. */
  function StatsOf(e: DayEntry, today: string): (s: DayStats)
    ensures 0 <= s.completionRate <= 100
    ensures e.tasks.None? || |e.tasks.value| == 0 ==> s == DayStats(0, false)
    ensures e.tasks.Some? && |e.tasks.value| > 0 ==>
      (s.completionRate == 100 <==> 200 * DoneCount(e.tasks.value) >= 199 * |e.tasks.value|)
      && (s.hasOverdue <==> LexLess(e.dateStr, today) && DoneCount(e.tasks.value) < |e.tasks.value|)
  {
    if e.tasks.Some? && |e.tasks.value| > 0 then
      var total := |e.tasks.value|;
      var completed := DoneCount(e.tasks.value);
      RoundedPercent(completed, total);
      DayStats(RoundDiv(100 * completed, total), LexLess(e.dateStr, today) && completed < total)
    else DayStats(0, false)
  }

  predicate InMonth(e: DayEntry, year: int, month: int) { e.year == year && e.month == month + 1 }

  predicate Matches(e: DayEntry, year: int, month: int, key: string)
  {
    InMonth(e, year, month) && e.dateStr == key
  }

  /** The last record of the requested month with that key, or -1. */
  function LastRecord(entries: seq<DayEntry>, year: int, month: int, key: string): (i: int)
    ensures -1 <= i < |entries|
    ensures i == -1 <==> forall j :: 0 <= j < |entries| ==> !Matches(entries[j], year, month, key)
    ensures i >= 0 ==> (Matches(entries[i], year, month, key)
      && forall j :: i < j < |entries| ==> !Matches(entries[j], year, month, key))
  {
    if entries == [] then -1
    else if Matches(entries[|entries| - 1], year, month, key) then |entries| - 1
    else LastRecord(entries[..|entries| - 1], year, month, key)
  }

  /** The map `fetchMonthData` builds from the day records in file order:
      one entry per day of the requested month that has a record, holding the
      statistics of its last record. */
  function MonthStats(entries: seq<DayEntry>, year: int, month: int, today: string): (r: map<string, DayStats>)
    ensures forall k :: k in r <==> LastRecord(entries, year, month, k) >= 0
    ensures forall k :: k in r ==> r[k] == StatsOf(entries[LastRecord(entries, year, month, k)], today)
  {
    if entries == [] then map[]
    else
      var n := |entries| - 1;
      var prev := MonthStats(entries[..n], year, month, today);
      var e := entries[n];
      if InMonth(e, year, month) then prev[e.dateStr := StatsOf(e, today)] else prev
  }

  /** The cache key `${year}-${month}`. */
  function CacheKey(year: int, month: int): (r: string)
    ensures year >= 0 ==>
      var y := NatToString(year);
      |r| > |y| && r[..|y|] == y && r[|y|] == '-' && r[|y| + 1..] == IntToString(month)
  {
    var r := IntToString(year) + "-" + IntToString(month);
    assert r[..|IntToString(year)|] == IntToString(year);
    r
  }

  /** Two months of non-negative year and month number never share a cache
      entry. */
  lemma CacheKeyInjective(y1: int, m1: int, y2: int, m2: int)
    requires y1 >= 0 && m1 >= 0 && y2 >= 0 && m2 >= 0
    requires CacheKey(y1, m1) == CacheKey(y2, m2)
    ensures y1 == y2 && m1 == m2
  {
    var r := CacheKey(y1, m1);
    var a1, a2 := NatToString(y1), NatToString(y2);
    assert |a1| == |a2|;
    assert a1 == r[..|a1|] == a2;
    assert NatToString(m1) == r[|a1| + 1..] == NatToString(m2);
    NatToStringRoundTrip(y1);
    NatToStringRoundTrip(y2);
    NatToStringRoundTrip(m1);
    NatToStringRoundTrip(m2);
  }

  // ---------------------------------------------------------------------------
  // The calendar with its cache

  class CalendarView {
    /** `this.monthCache`: the month statistics by `CacheKey`. */
    var monthCache: map<string, map<string, DayStats>>

    constructor ()
      ensures monthCache == map[]
    {
      monthCache := map[];
    }

    /** `fetchMonthData`: a month seen before comes from the cache; otherwise
        its statistics are computed from the day records and cached. */
    method FetchMonthData(year: int, month: int, entries: seq<DayEntry>, today: string) returns (result: map<string, DayStats>)
      modifies this`monthCache
      ensures CacheKey(year, month) in old(monthCache) ==>
        result == old(monthCache)[CacheKey(year, month)] && monthCache == old(monthCache)
      ensures CacheKey(year, month) !in old(monthCache) ==>
        result == MonthStats(entries, year, month, today) && monthCache == old(monthCache)[CacheKey(year, month) := result]
    {
      var cacheKey := CacheKey(year, month);
      if cacheKey in monthCache {
        return monthCache[cacheKey];
      }
      result := CollectMonthStats(year, month, entries, today);
      monthCache := monthCache[cacheKey := result];
    }

    /** `invalidateCache`: without a date the whole cache goes; with one, the
        month it falls in (when `new Date` can read it) goes. */
    method InvalidateCache(dateStr: string, parsed: Option<(int, int)>)
      modifies this`monthCache
      ensures dateStr == "" ==> monthCache == map[]
      ensures dateStr != "" && parsed.Some? ==> monthCache == old(monthCache) - {CacheKey(parsed.value.0, parsed.value.1)}
      ensures dateStr != "" && parsed.None? ==> monthCache == old(monthCache)
    {
      if dateStr == "" {
        monthCache := map[];
        return;
      }
      if parsed.Some? {
        var key := CacheKey(parsed.value.0, parsed.value.1);
        if key in monthCache {
          monthCache := monthCache - {key};
        }
      }
    }

    /** `render`: the grid of the month, built after fetching its data. */
    method Render(year: int, month: int, firstWeekday: int, daysInMonth: nat, prevMonthDays: int,
                  entries: seq<DayEntry>, today: string) returns (cells: seq<Cell>)
      requires 0 <= firstWeekday <= 6
      modifies this`monthCache
      ensures CacheKey(year, month) in old(monthCache) ==> monthCache == old(monthCache)
      ensures CacheKey(year, month) !in old(monthCache) ==>
        monthCache == old(monthCache)[CacheKey(year, month) := MonthStats(entries, year, month, today)]
      ensures cells == Grid(MondayOffset(firstWeekday), daysInMonth, prevMonthDays, year, month,
                            monthCache[CacheKey(year, month)], today)
    {
      var startDay := if firstWeekday == 0 then 6 else firstWeekday - 1;
      var lead := LeadingPadding(startDay, prevMonthDays);
      var monthData := FetchMonthData(year, month, entries, today);
      var days := MonthDays(year, month, daysInMonth, monthData, today);
      var trail := TrailingPadding(startDay + daysInMonth);
      cells := lead + days + trail;
      assert cells == Grid(startDay, daysInMonth, prevMonthDays, year, month, monthData, today);
      assert startDay == MondayOffset(firstWeekday) && monthData == monthCache[CacheKey(year, month)];
    }
  }

  /** The loop of `fetchMonthData` over the day records of the week files. */
  method CollectMonthStats(year: int, month: int, entries: seq<DayEntry>, today: string) returns (result: map<string, DayStats>)
    ensures result == MonthStats(entries, year, month, today)
  {
    result := map[];
    var i := 0;
    while i < |entries|
      invariant 0 <= i <= |entries|
      invariant result == MonthStats(entries[..i], year, month, today)
    {
      var e := entries[i];
      MonthStatsStep(entries, i, year, month, today);
      if e.year == year && e.month == month + 1 {
        result := result[e.dateStr := StatsOf(e, today)];
      }
      i := i + 1;
    }
    assert entries[..i] == entries;
  }

  /** One more record extends the map by its statistics when it is of the
      requested month. */
  lemma MonthStatsStep(entries: seq<DayEntry>, i: int, year: int, month: int, today: string)
    requires 0 <= i < |entries|
    ensures MonthStats(entries[..i + 1], year, month, today)
      == if InMonth(entries[i], year, month)
         then MonthStats(entries[..i], year, month, today)[entries[i].dateStr := StatsOf(entries[i], today)]
         else MonthStats(entries[..i], year, month, today)
  {
    assert entries[..i + 1][..i] == entries[..i];
  }

  /** The previous month's last `startDay` days, in order. */
  method LeadingPadding(startDay: nat, prevMonthDays: int) returns (cells: seq<Cell>)
    ensures cells == LeadCells(startDay, prevMonthDays)
  {
    cells := [];
    var i := 0;
    while i < startDay
      invariant 0 <= i <= startDay && |cells| == i
      invariant forall k :: 0 <= k < i ==> cells[k] == PaddingDay(prevMonthDays - startDay + 1 + k)
    {
      cells := cells + [PaddingDay(prevMonthDays - startDay + 1 + i)];
      i := i + 1;
    }
  }

  /** The month's days 1 to `daysInMonth`. */
  method MonthDays(year: int, month: int, daysInMonth: nat, monthData: map<string, DayStats>, today: string)
    returns (cells: seq<Cell>)
    ensures cells == DayCells(year, month, daysInMonth, monthData, today)
  {
    cells := [];
    var d := 1;
    while d <= daysInMonth
      invariant 1 <= d <= daysInMonth + 1
      invariant cells == DayCells(year, month, d - 1, monthData, today)
    {
      cells := cells + [DayCell(year, month, d, monthData, today)];
      d := d + 1;
    }
  }

  /** The next month's first days, up to the end of the last row. */
  method TrailingPadding(totalCells: nat) returns (cells: seq<Cell>)
    ensures cells == TrailCells(TrailingCount(totalCells))
  {
    var rows := (totalCells + 6) / 7;
    var cellsToFill := rows * 7 - totalCells;
    cells := [];
    var j := 1;
    while j <= cellsToFill
      invariant 1 <= j <= cellsToFill + 1 && |cells| == j - 1
      invariant forall k :: 0 <= k < j - 1 ==> cells[k] == PaddingDay(k + 1)
    {
      cells := cells + [PaddingDay(j)];
      j := j + 1;
    }
  }
}
