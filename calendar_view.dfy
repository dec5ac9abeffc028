/**
 * The custom calendar grid: where an event box sits in its day column
 * (`calculateEventPosition`), which days a view shows (`displayDates`), and
 * how a day's events are filtered, ordered and spread over columns
 * (`processedEventsByDayIndex`). Positions are in minutes: the grid draws
 * 3 rem per 30 minutes, so a position of m minutes is m/10 rem.
 */
module CalendarView {
  import opened Wrappers
  import opened Time
  import Sorting

  /** A start or end as the API returns it; an empty string counts as missing. */
  datatype EventTime = EventTime(dateTime: Option<int>, date: Option<int>)

  datatype CalendarEvent = CalendarEvent(
    id: string,
    summary: Option<string>,
    start: Option<EventTime>,
    end: Option<EventTime>)

  /** `top` and `height` in minutes (ten times the rem values). */
  datatype Position = Position(top: int, height: int)

  /** An event together with its position in the day column. */
  datatype Placed = Placed(event: CalendarEvent, position: Position)

  /** What the page shows for one placed event; width and left are not modelled. */
  datatype EventLayout = EventLayout(event: CalendarEvent, top: int, height: int, zIndex: int)

  datatype View = DayView | WeekView | MonthView

  /** The minimum height, 0.5 rem. */
  const MinHeight := 5

  /** `time?.dateTime || time?.date`. */
  function TimeOf(t: Option<EventTime>): (r: Option<int>)
    ensures r.Some? <==> t.Some? && (t.value.dateTime.Some? || t.value.date.Some?)
    ensures r.Some? && t.value.dateTime.Some? ==> r.value == t.value.dateTime.value
  {
    if t.None? then None
    else if t.value.dateTime.Some? then t.value.dateTime
    else t.value.date
  }

  /**
   * `calculateEventPosition` (calendar-view lines 45-85). The start of the
   * view is midnight of the event's own day, so the offset is the start's
   * minute of the day.
   */
  function CalculateEventPosition(e: CalendarEvent): (p: Option<Position>)
    ensures p.Some? <==>
              TimeOf(e.start).Some? && TimeOf(e.end).Some? && e.start.value.dateTime.Some? &&
              TimeOf(e.end).value - TimeOf(e.start).value > 0
    ensures p.Some? ==>
              p.value.top == MinuteOfDay(TimeOf(e.start).value) && 0 <= p.value.top < MinutesPerDay &&
              p.value.height >= MinHeight &&
              p.value.height >= TimeOf(e.end).value - TimeOf(e.start).value &&
              (p.value.height == MinHeight || p.value.height == TimeOf(e.end).value - TimeOf(e.start).value)
  {
    var startTime := TimeOf(e.start);
    var endTime := TimeOf(e.end);
    if startTime.None? || endTime.None? || e.start.value.dateTime.None? then None
    else
      var viewStartOfDay := DayStart(startTime.value);
      var startMinutesOffset := startTime.value - viewStartOfDay;
      var durationMinutes := endTime.value - startTime.value;
      if startMinutesOffset < 0 || durationMinutes <= 0 then None
      else
        DayDecomposition(startTime.value);
        Some(Position(startMinutesOffset, if durationMinutes < MinHeight then MinHeight else durationMinutes))
  }

  /** The guard against events that start before the view (line 67) can never fire. */
  lemma StartOffsetNeverNegative(t: int)
    ensures t - DayStart(t) >= 0
  {
    DayDecomposition(t);
  }

  // ---------------------------------------------------------------------
  // Display dates
  // ---------------------------------------------------------------------

  /** `eachDayOfInterval`: the days from `first` to `last`, both included. */
  function DaysBetween(first: int, last: int): (r: seq<int>)
    ensures |r| == if last < first then 0 else last - first + 1
    ensures forall k :: 0 <= k < |r| ==> r[k] == first + k
    decreases last - first
  {
    if last < first then [] else [first] + DaysBetween(first + 1, last)
  }

  /** Week view: the seven days from Sunday (lines 140-143). */
  function WeekDates(d: int): (r: seq<int>)
    ensures |r| == 7 && r[0] == StartOfWeek(d) && d in r
    ensures WeekdayOfDay(r[0]) == 0 && WeekdayOfDay(r[6]) == 6
    ensures forall k :: 0 <= k < |r| ==> r[k] == r[0] + k
  {
    var s := StartOfWeek(d);
    var r := DaysBetween(s, s + 6);
    assert d == r[d - s];
    r
  }

  /** Month view: whole weeks from the one holding the month's first day to the one holding its last (lines 144-150). */
  function MonthDates(d: int): (r: seq<int>)
    ensures |r| % 7 == 0 && 28 <= |r| <= 42
    ensures WeekdayOfDay(r[0]) == 0 && WeekdayOfDay(r[|r| - 1]) == 6
    ensures forall k :: 0 <= k < |r| ==> r[k] == r[0] + k
    ensures r[0] <= StartOfMonth(d) < r[0] + 7 && r[|r| - 1] - 7 < EndOfMonth(d) <= r[|r| - 1]
  {
    MonthBoundsOrdered(d);
    var first := StartOfWeek(StartOfMonth(d));
    var last := EndOfWeek(EndOfMonth(d));
    WeekBoundsSpan(StartOfMonth(d), EndOfMonth(d));
    DaysBetween(first, last)
  }

  /** `displayDates` (lines 136-152) for the view around day `d`. */
  function DisplayDates(view: View, d: int): (r: seq<int>)
    ensures |r| >= 1
    ensures view == DayView ==> r == [d]
    ensures view == WeekView ==> r == WeekDates(d)
    ensures view == MonthView ==> r == MonthDates(d)
  {
    match view
    case DayView => [d]
    case WeekView => WeekDates(d)
    case MonthView => MonthDates(d)
  }

  /** A grid of whole Sunday-to-Saturday weeks spans a multiple of seven days. */
  lemma WeekBoundsSpan(a: int, b: int)
    requires a <= b
    ensures (EndOfWeek(b) - StartOfWeek(a) + 1) % 7 == 0
  {
    var s := StartOfWeek(a);
    var e := EndOfWeek(b);
    assert (s + 4) % 7 == 0 && (e + 4) % 7 == 6;
    assert (e - s + 1) == ((e + 4) - (s + 4) + 1);
  }

  // ---------------------------------------------------------------------
  // Events of one day
  // ---------------------------------------------------------------------

  /** Lines 274-281: the event starts (dateTime, else date) on day `day`. */
  predicate StartsOn(e: CalendarEvent, day: int) {
    TimeOf(e.start).Some? && Day(TimeOf(e.start).value) == day
  }

  /**
   * Lines 274-288 before sorting: the events starting on `day` that have a
   * position, in input order, each with its position.
   */
  function PlacedOnDay(events: seq<CalendarEvent>, day: int): (r: seq<Placed>)
    ensures |r| <= |events|
    ensures forall p :: p in r ==>
              p.event in events && StartsOn(p.event, day) && CalculateEventPosition(p.event) == Some(p.position)
    ensures forall e :: e in events && StartsOn(e, day) && CalculateEventPosition(e).Some? ==>
              Placed(e, CalculateEventPosition(e).value) in r
  {
    if events == [] then []
    else
      var rest := PlacedOnDay(events[1..], day);
      var e := events[0];
      if StartsOn(e, day) && CalculateEventPosition(e).Some? then
        [Placed(e, CalculateEventPosition(e).value)] + rest
      else rest
  }

  /** Lines 288-289: by top ascending, then by height descending. */
  function PlacedKey(p: Placed): Sorting.Key { (p.position.top, -p.position.height) }

  function End(p: Placed): int { p.position.top + p.position.height }

  /** An entry of `activeColumns`: where a placed event ends and its column. */
  datatype ActiveColumn = ActiveColumn(end: int, column: int)

  /** `activeColumns.filter(c => c.end > top)`. */
  function StillActive(active: seq<ActiveColumn>, top: int): (r: seq<ActiveColumn>)
    ensures forall x :: x in r <==> x in active && x.end > top
  {
    if active == [] then []
    else if active[0].end > top then [active[0]] + StillActive(active[1..], top)
    else StillActive(active[1..], top)
  }

  predicate IsHeld(active: seq<ActiveColumn>, c: int) {
    exists x :: x in active && x.column == c
  }

  function MaxColumn(active: seq<ActiveColumn>): (m: int)
    ensures forall x :: x in active ==> x.column <= m
    ensures active == [] ==> m == -1
    ensures active != [] ==> exists x :: x in active && x.column == m
  {
    if active == [] then -1
    else if |active| == 1 then active[0].column
    else
      var m := MaxColumn(active[1..]);
      assert forall x :: x in active[1..] ==> x in active;
      if active[0].column > m then active[0].column else m
  }

  /** Column `c` is held, at event `i`'s top, by an earlier event still running. */
  ghost predicate TakenAt(items: seq<Placed>, cols: seq<int>, i: int, c: int)
    requires 0 <= i < |items| && i <= |cols|
  {
    exists j :: 0 <= j < i && End(items[j]) > items[i].position.top && cols[j] == c
  }

  /**
   * The greedy column rule for the first `n` events: each gets a column no
   * greater than its index, differs from every earlier event still running at
   * its top, and every smaller column is held by such an event.
   */
  ghost predicate GreedyUpTo(items: seq<Placed>, cols: seq<int>, n: int)
    requires 0 <= n <= |items| && n <= |cols|
  {
    (forall i :: 0 <= i < n ==> 0 <= cols[i] <= i) &&
    (forall i, j :: 0 <= j < i < n && End(items[j]) > items[i].position.top ==> cols[j] != cols[i]) &&
    (forall i, c :: 0 <= i < n && 0 <= c < cols[i] ==> TakenAt(items, cols, i, c))
  }

  ghost predicate GreedyColumns(items: seq<Placed>, cols: seq<int>) {
    |cols| == |items| && GreedyUpTo(items, cols, |items|)
  }

  predicate TopsAscending(items: seq<Placed>) {
    forall i, j :: 0 <= i < j < |items| ==> items[i].position.top <= items[j].position.top
  }

  /** Every active entry records the end and column of one of the first `i` events. */
  ghost predicate ActiveSound(items: seq<Placed>, cols: seq<int>, active: seq<ActiveColumn>, i: int)
    requires 0 <= i <= |items| && i <= |cols|
  {
    forall x :: x in active ==> exists j :: 0 <= j < i && x == ActiveColumn(End(items[j]), cols[j])
  }

  /** Every one of the first `i` events that runs past `top` has its entry. */
  ghost predicate ActiveComplete(items: seq<Placed>, cols: seq<int>, active: seq<ActiveColumn>, i: int, top: int)
    requires 0 <= i <= |items| && i <= |cols|
  {
    forall j :: 0 <= j < i && End(items[j]) > top ==> ActiveColumn(End(items[j]), cols[j]) in active
  }

  /** With tops ascending, the filter keeps every earlier event still running at the new top. */
  lemma FilterKeepsRunning(items: seq<Placed>, cols: seq<int>, active: seq<ActiveColumn>, i: int)
    requires TopsAscending(items) && 0 < i < |items| && |cols| == i
    requires ActiveComplete(items, cols, active, i, items[i - 1].position.top)
    requires ActiveColumn(End(items[i - 1]), cols[i - 1]) in active
    ensures ActiveComplete(items, cols, StillActive(active, items[i].position.top), i, items[i].position.top)
  {
    forall j | 0 <= j < i && End(items[j]) > items[i].position.top
      ensures ActiveColumn(End(items[j]), cols[j]) in StillActive(active, items[i].position.top)
    {
      assert items[i - 1].position.top <= items[i].position.top;
    }
  }

  /** The first free column is no greater than the number of earlier events. */
  lemma FreeColumnBound(items: seq<Placed>, cols: seq<int>, active: seq<ActiveColumn>, i: int, a: int)
    requires 0 <= i < |items| && |cols| == i && GreedyUpTo(items, cols, i)
    requires ActiveSound(items, cols, active, i)
    requires a <= MaxColumn(active) + 1
    ensures a <= i
  {
    if active != [] {
      var x :| x in active && x.column == MaxColumn(active);
      var j :| 0 <= j < i && x == ActiveColumn(End(items[j]), cols[j]);
    }
  }

  /** Appending a column keeps every earlier event's smaller columns held. */
  lemma EarlierColumnsStayTaken(items: seq<Placed>, cols: seq<int>, i: int, a: int)
    requires 0 <= i < |items| && |cols| == i && GreedyUpTo(items, cols, i)
    ensures forall k, c :: 0 <= k < i && 0 <= c < (cols + [a])[k] ==> TakenAt(items, cols + [a], k, c)
  {
    var cols' := cols + [a];
    forall k, c | 0 <= k < i && 0 <= c < cols'[k]
      ensures TakenAt(items, cols', k, c)
    {
      assert cols'[k] == cols[k];
      assert TakenAt(items, cols, k, c);
      var j :| 0 <= j < k && End(items[j]) > items[k].position.top && cols[j] == c;
      assert cols'[j] == c;
    }
  }

  /** Every column below the first free one is held by an earlier event still running. */
  lemma SmallerColumnsTaken(items: seq<Placed>, cols: seq<int>, active: seq<ActiveColumn>, i: int, a: int)
    requires 0 <= i < |items| && |cols| == i
    requires ActiveSound(items, cols, active, i)
    requires forall x :: x in active ==> x.end > items[i].position.top
    requires forall c :: 0 <= c < a ==> IsHeld(active, c)
    ensures forall c :: 0 <= c < a ==> TakenAt(items, cols + [a], i, c)
  {
    var cols' := cols + [a];
    forall c | 0 <= c < a
      ensures TakenAt(items, cols', i, c)
    {
      assert IsHeld(active, c);
      var x :| x in active && x.column == c;
      var j :| 0 <= j < i && x == ActiveColumn(End(items[j]), cols[j]);
      assert cols'[j] == c;
    }
  }

  /** The chosen column extends the greedy rule to one more event. */
  lemma GreedyExtends(items: seq<Placed>, cols: seq<int>, active: seq<ActiveColumn>, i: int, a: int)
    requires 0 <= i < |items| && |cols| == i && GreedyUpTo(items, cols, i)
    requires ActiveSound(items, cols, active, i)
    requires ActiveComplete(items, cols, active, i, items[i].position.top)
    requires forall x :: x in active ==> x.end > items[i].position.top
    requires 0 <= a <= i && !IsHeld(active, a)
    requires forall c :: 0 <= c < a ==> IsHeld(active, c)
    ensures GreedyUpTo(items, cols + [a], i + 1)
  {
    var cols' := cols + [a];
    forall j | 0 <= j < i && End(items[j]) > items[i].position.top
      ensures cols'[j] != a
    {
      assert ActiveColumn(End(items[j]), cols[j]) in active;
    }
    EarlierColumnsStayTaken(items, cols, i, a);
    SmallerColumnsTaken(items, cols, active, i, a);
    assert cols'[i] == a;
  }

  /** Recording the new event's entry keeps the active list sound and complete. */
  lemma PushKeepsActive(items: seq<Placed>, cols: seq<int>, active: seq<ActiveColumn>, i: int, a: int)
    requires 0 <= i < |items| && |cols| == i
    requires ActiveSound(items, cols, active, i)
    requires ActiveComplete(items, cols, active, i, items[i].position.top)
    ensures ActiveSound(items, cols + [a], active + [ActiveColumn(End(items[i]), a)], i + 1)
    ensures ActiveComplete(items, cols + [a], active + [ActiveColumn(End(items[i]), a)], i + 1, items[i].position.top)
    ensures ActiveColumn(End(items[i]), (cols + [a])[i]) in active + [ActiveColumn(End(items[i]), a)]
  {
    var cols' := cols + [a];
    var active' := active + [ActiveColumn(End(items[i]), a)];
    forall x | x in active'
      ensures exists j :: 0 <= j < i + 1 && x == ActiveColumn(End(items[j]), cols'[j])
    {
      if x in active {
        var j :| 0 <= j < i && x == ActiveColumn(End(items[j]), cols[j]);
        assert cols'[j] == cols[j];
      } else {
        assert x == ActiveColumn(End(items[i]), cols'[i]);
      }
    }
    forall j | 0 <= j < i + 1 && End(items[j]) > items[i].position.top
      ensures ActiveColumn(End(items[j]), cols'[j]) in active'
    {
      if j < i {
        assert cols'[j] == cols[j];
      }
    }
  }

  /**
   * Lines 300-304: the smallest column no active entry holds, counting up
   * from zero while some entry holds the current one.
   */
  method FirstFreeColumn(activeColumns: seq<ActiveColumn>) returns (assignedColumn: int)
    ensures assignedColumn >= 0 && (assignedColumn == 0 || assignedColumn <= MaxColumn(activeColumns) + 1)
    ensures !IsHeld(activeColumns, assignedColumn)
    ensures forall c :: 0 <= c < assignedColumn ==> IsHeld(activeColumns, c)
  {
    assignedColumn := 0;
    while IsHeld(activeColumns, assignedColumn)
      invariant assignedColumn >= 0 && (assignedColumn == 0 || assignedColumn <= MaxColumn(activeColumns) + 1)
      invariant forall c :: 0 <= c < assignedColumn ==> IsHeld(activeColumns, c)
      decreases MaxColumn(activeColumns) + 1 - assignedColumn
    {
      assignedColumn := assignedColumn + 1;
    }
  }

  /**
   * What the column loop keeps after `i` events: greedy columns so far, and
   * an active list holding exactly entries of earlier events, including every
   * one still running at the last event's top.
   */
  ghost predicate ColumnsSoFar(items: seq<Placed>, cols: seq<int>, activeColumns: seq<ActiveColumn>, i: int) {
    0 <= i <= |items| && |cols| == i &&
    GreedyUpTo(items, cols, i) &&
    ActiveSound(items, cols, activeColumns, i) &&
    (i > 0 ==> ActiveComplete(items, cols, activeColumns, i, items[i - 1].position.top) &&
               ActiveColumn(End(items[i - 1]), cols[i - 1]) in activeColumns)
  }

  /** One pass of the column loop keeps what the loop keeps. */
  lemma ColumnStep(items: seq<Placed>, cols: seq<int>, activeColumns: seq<ActiveColumn>, i: int, a: int)
    requires TopsAscending(items) && ColumnsSoFar(items, cols, activeColumns, i) && i < |items|
    requires var live := StillActive(activeColumns, items[i].position.top);
             a >= 0 && (a == 0 || a <= MaxColumn(live) + 1) &&
             !IsHeld(live, a) && forall c :: 0 <= c < a ==> IsHeld(live, c)
    ensures ColumnsSoFar(items, cols + [a],
                         StillActive(activeColumns, items[i].position.top) + [ActiveColumn(End(items[i]), a)], i + 1)
  {
    if i > 0 {
      FilterKeepsRunning(items, cols, activeColumns, i);
    }
    var live := StillActive(activeColumns, items[i].position.top);
    if a > 0 {
      FreeColumnBound(items, cols, live, i, a);
    }
    GreedyExtends(items, cols, live, i, a);
    PushKeepsActive(items, cols, live, i, a);
  }

  /**
   * The column loop of lines 297-308: drop the active entries that ended by
   * this event's top, take the first column no remaining entry holds, and
   * record this event's end in that column.
   */
  method AssignColumns(items: seq<Placed>) returns (cols: seq<int>)
    requires TopsAscending(items)
    ensures GreedyColumns(items, cols)
  {
    cols := [];
    var activeColumns: seq<ActiveColumn> := [];
    var i := 0;
    while i < |items|
      invariant ColumnsSoFar(items, cols, activeColumns, i)
    {
      var item := items[i];
      var live := StillActive(activeColumns, item.position.top);
      var assignedColumn := FirstFreeColumn(live);
      ColumnStep(items, cols, activeColumns, i, assignedColumn);
      activeColumns := live + [ActiveColumn(End(item), assignedColumn)];
      cols := cols + [assignedColumn];
      i := i + 1;
    }
  }

  /** Lines 296-308 and 356: a day's placed events in display order with their layouts. */
  ghost predicate IsDayLayout(events: seq<CalendarEvent>, day: int, layouts: seq<EventLayout>) {
    exists placed: seq<Placed>, cols: seq<int> ::
      multiset(placed) == multiset(PlacedOnDay(events, day)) &&
      Sorting.SortedBy(placed, PlacedKey) &&
      GreedyColumns(placed, cols) &&
      |layouts| == |placed| &&
      forall k :: 0 <= k < |layouts| ==>
        layouts[k] == EventLayout(placed[k].event, placed[k].position.top, placed[k].position.height, cols[k] + 1)
  }

  /**
   * In a day's layout, an event still running when a later one starts is
   * stacked at a different zIndex, and the later one's tops are not earlier.
   */
  lemma {:induction false} OverlappingLayoutsDiffer(events: seq<CalendarEvent>, day: int, layouts: seq<EventLayout>, i: int, j: int)
    requires IsDayLayout(events, day, layouts)
    requires 0 <= j < i < |layouts| && layouts[j].top + layouts[j].height > layouts[i].top
    ensures layouts[j].zIndex != layouts[i].zIndex
    ensures layouts[j].top <= layouts[i].top
  {
    var placed: seq<Placed>, cols: seq<int> :|
      multiset(placed) == multiset(PlacedOnDay(events, day)) &&
      Sorting.SortedBy(placed, PlacedKey) &&
      GreedyColumns(placed, cols) &&
      |layouts| == |placed| &&
      forall k :: 0 <= k < |layouts| ==>
        layouts[k] == EventLayout(placed[k].event, placed[k].position.top, placed[k].position.height, cols[k] + 1);
    assert Sorting.KeyLe(PlacedKey(placed[j]), PlacedKey(placed[i]));
    assert End(placed[j]) > placed[i].position.top;
  }

  lemma SortedTopsAscending(s: seq<Placed>)
    requires Sorting.SortedBy(s, PlacedKey)
    ensures TopsAscending(s)
  {
    forall i, j | 0 <= i < j < |s|
      ensures s[i].position.top <= s[j].position.top
    {
      assert Sorting.KeyLe(PlacedKey(s[i]), PlacedKey(s[j]));
    }
  }

  /**
   * One day of `processedEventsByDayIndex` (lines 272-363): the day's placed
   * events, sorted in place, given greedy columns and zIndex = column + 1.
   */
  method LayoutDay(events: seq<CalendarEvent>, day: int) returns (layouts: seq<EventLayout>)
    ensures IsDayLayout(events, day, layouts)
    ensures |layouts| == |PlacedOnDay(events, day)|
    ensures forall k :: 0 <= k < |layouts| ==> 1 <= layouts[k].zIndex <= k + 1 && StartsOn(layouts[k].event, day)
  {
    var dayEvents := PlacedOnDay(events, day);
    var sorted := new Placed[|dayEvents|](k requires 0 <= k < |dayEvents| => dayEvents[k]);
    assert sorted[..] == dayEvents;
    Sorting.SortInPlace(sorted, PlacedKey);
    var placed := sorted[..];
    SortedTopsAscending(placed);
    var cols := AssignColumns(placed);
    layouts := seq(|placed|, k requires 0 <= k < |placed| =>
                 EventLayout(placed[k].event, placed[k].position.top, placed[k].position.height, cols[k] + 1));
    assert |placed| == |dayEvents| by {
      assert |multiset(placed)| == |multiset(dayEvents)|;
    }
    forall k | 0 <= k < |layouts|
      ensures StartsOn(layouts[k].event, day)
    {
      assert placed[k] in multiset(dayEvents);
    }
  }

  /** Adding the layout of the next day keeps every day's entry a layout of that day. */
  lemma GroupedStep(events: seq<CalendarEvent>, dates: seq<int>, grouped: map<int, seq<EventLayout>>,
                    layouts: seq<EventLayout>, n: int, next: map<int, seq<EventLayout>>)
    requires 0 <= n < |dates| && next == grouped[n := layouts]
    requires forall k :: k in grouped <==> 0 <= k < n
    requires forall k :: 0 <= k < n ==> IsDayLayout(events, dates[k], grouped[k])
    requires IsDayLayout(events, dates[n], layouts)
    ensures forall k :: k in next <==> 0 <= k < n + 1
    ensures forall k :: 0 <= k < n + 1 ==> IsDayLayout(events, dates[k], next[k])
  {
    forall k | 0 <= k < n + 1
      ensures IsDayLayout(events, dates[k], next[k])
    {
      if k < n {
        assert next[k] == grouped[k];
      }
    }
  }

  /**
   * `processedEventsByDayIndex`: nothing for the month view or when there are
   * no dates, otherwise one layout per displayed day, keyed by its index.
   */
  method ProcessedEventsByDayIndex(view: View, dates: seq<int>, events: seq<CalendarEvent>)
    returns (grouped: map<int, seq<EventLayout>>)
    ensures |dates| == 0 || view == MonthView ==> grouped == map[]
    ensures |dates| > 0 && view != MonthView ==>
              (forall k :: k in grouped <==> 0 <= k < |dates|) &&
              (forall k :: 0 <= k < |dates| ==> IsDayLayout(events, dates[k], grouped[k]))
  {
    grouped := map[];
    if |dates| == 0 || view == MonthView {
      return;
    }
    var dayIndex := 0;
    while dayIndex < |dates|
      invariant 0 <= dayIndex <= |dates|
      invariant forall k :: k in grouped <==> 0 <= k < dayIndex
      invariant forall k :: 0 <= k < dayIndex ==> IsDayLayout(events, dates[k], grouped[k])
    {
      var layouts := LayoutDay(events, dates[dayIndex]);
      GroupedStep(events, dates, grouped, layouts, dayIndex, grouped[dayIndex := layouts]);
      grouped := grouped[dayIndex := layouts];
      dayIndex := dayIndex + 1;
    }
  }
}
