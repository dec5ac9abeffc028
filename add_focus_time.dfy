/**
 * The "add focus time" route: `findNextAvailableSlot`, request validation,
 * summary and colour selection, the explicit-start path and the mapping of
 * errors to HTTP statuses. Times are wall-clock minutes (module Time); the
 * free/busy answer of the calendar provider is an input.
 */
module AddFocusTime {
  import opened Wrappers
  import opened Time
  import Sorting
  import Text

  const WorkStartHour := 9
  const WorkEndHour := 17
  /** The horizon of the final candidate, in days after the initial cursor. */
  const SearchDays := 7

  /** One busy interval of the free/busy answer. */
  datatype Interval = Interval(start: int, end: int)

  datatype Slot = Slot(start: int, end: int)

  /** What the free/busy query produced. */
  datatype FreeBusy =
    | QueryFailed(googleMessage: Option<string>, message: Option<string>)  // the query threw
    | NoBusyList                                                       // `calendars.primary.busy` absent
    | BusyList(busy: seq<Interval>)

  datatype SlotSearch = Found(slot: Slot) | NotFound | Upstream(message: string)

  // ---------------------------------------------------------------------
  // Working-time arithmetic
  // ---------------------------------------------------------------------

  /** Weekday and not before 09:00: where the day-advance loops stop. */
  predicate InWorkingDay(t: int) {
    !IsWeekend(t) && t >= At(t, WorkStartHour)
  }

  /** The first day on or after `d` that is not a Saturday or Sunday. */
  function FirstWeekdayFrom(d: int): (w: int)
    ensures d <= w <= d + 2 && !IsWeekendDay(w)
    ensures forall x :: d <= x < w ==> IsWeekendDay(x)
  {
    if WeekdayOfDay(d) == 6 then d + 2 else if WeekdayOfDay(d) == 0 then d + 1 else d
  }

  /** 09:00 on day `d`. */
  function WorkStartOn(d: int): int { Midnight(d) + WorkStartHour * MinutesPerHour }

  lemma WorkStartOnFacts(d: int)
    ensures Day(WorkStartOn(d)) == d && At(WorkStartOn(d), WorkStartHour) == WorkStartOn(d)
    ensures At(WorkStartOn(d), WorkEndHour) == WorkStartOn(d) + 480
  {
    DayOfMidnightPlus(d, WorkStartHour * MinutesPerHour);
  }

  /**
   * Where the day-advance loop leaves a cursor: unchanged when it is already on
   * a weekday at or after 09:00 (even past 17:00), otherwise 09:00 of the first
   * weekday strictly after the cursor's day.
   */
  function NextWorkingTime(c: int): int {
    if InWorkingDay(c) then c else WorkStartOn(FirstWeekdayFrom(Day(c) + 1))
  }

  lemma NextWorkingTimeFacts(c: int)
    ensures InWorkingDay(NextWorkingTime(c)) && NextWorkingTime(c) >= c
    ensures !InWorkingDay(c) ==> Day(NextWorkingTime(c)) > Day(c)
  {
    if !InWorkingDay(c) {
      var w := FirstWeekdayFrom(Day(c) + 1);
      WorkStartOnFacts(w);
      DayDecomposition(c);
    }
  }

  /** The number of steps the day-advance loop still has to take. */
  function AdvanceRank(c: int): nat {
    if InWorkingDay(c) then 0 else if Weekday(c) == 5 then 2 else 1
  }

  /** One pass of the day-advance loop: 09:00 two days on from a Saturday, else one day on. */
  function AdvanceStep(r: int): int {
    var step := if IsWeekend(r) then (if Weekday(r) == 6 then 2 else 1) else 1;
    HourOfDayAfter(r, step, WorkStartHour)
  }

  /** What the day-advance loop keeps: unchanged, or 09:00 of a day no later than the target. */
  ghost predicate AdvanceInvariant(c: int, r: int) {
    r == c || (!InWorkingDay(c) && r == WorkStartOn(Day(r)) && Day(c) < Day(r) <= FirstWeekdayFrom(Day(c) + 1))
  }

  lemma {:induction false} AdvanceStepFacts(c: int, r: int)
    requires AdvanceInvariant(c, r) && !InWorkingDay(r)
    ensures AdvanceInvariant(c, AdvanceStep(r))
    ensures AdvanceRank(AdvanceStep(r)) < AdvanceRank(r)
  {
    var step := if IsWeekend(r) then (if Weekday(r) == 6 then 2 else 1) else 1;
    var d := Day(r) + step;
    WorkStartOnFacts(d);
    assert AdvanceStep(r) == WorkStartOn(d);
    if r != c {
      WorkStartOnFacts(Day(r));
      assert IsWeekend(r);
    }
  }

  lemma AdvanceExit(c: int, r: int)
    requires AdvanceInvariant(c, r) && InWorkingDay(r)
    ensures r == NextWorkingTime(c)
  {
    if r != c {
      var w := FirstWeekdayFrom(Day(c) + 1);
      assert !IsWeekendDay(Day(r));
      assert Day(r) == w;
    }
  }

  /**
   * The loop at add-focus-time lines 128-131 and 141-144: a weekend cursor
   * moves to 09:00 two days later (Saturday) or one day later (Sunday); a
   * weekday cursor before 09:00 moves to 09:00 of the FOLLOWING day.
   */
  method AdvanceToWorkingTime(c: int) returns (r: int)
    ensures r == NextWorkingTime(c)
    ensures InWorkingDay(r) && r >= c
  {
    r := c;
    while IsWeekend(r) || r < At(r, WorkStartHour)
      invariant AdvanceInvariant(c, r)
      decreases AdvanceRank(r)
    {
      AdvanceStepFacts(c, r);
      r := AdvanceStep(r);
    }
    AdvanceExit(c, r);
    NextWorkingTimeFacts(c);
  }

  // ---------------------------------------------------------------------
  // The search
  // ---------------------------------------------------------------------

  /**
   * The cursor the search starts from (lines 51-62): after 17:00 or on a
   * weekend it jumps to 09:00 of a later day (+2 on Saturday, +1 otherwise,
   * so a Friday evening lands on Saturday); otherwise it is the later of now
   * and 09:00 today.
   */
  function InitialCursor(now: int): (c: int)
    ensures c >= now
    ensures At(c, WorkStartHour) <= c <= At(c, WorkEndHour)
    ensures !IsWeekend(now) && now <= At(now, WorkEndHour) ==>
              Day(c) == Day(now) && c == Max(now, At(now, WorkStartHour))
    ensures IsWeekend(now) || now > At(now, WorkEndHour) ==>
              c == WorkStartOn(Day(c)) && Day(c) == Day(now) + (if Weekday(now) == 6 then 2 else 1)
    ensures IsWeekend(c) ==> Weekday(now) == 5 && now > At(now, WorkEndHour)
  {
    DayDecomposition(now);
    if now > At(now, WorkEndHour) || IsWeekend(now) then
      var k := if IsWeekend(now) then (if Weekday(now) == 6 then 2 else 1) else 1;
      WorkStartOnFacts(Day(now) + k);
      WeekdayShift(Day(now), k);
      assert HourOfDayAfter(now, k, WorkStartHour) == WorkStartOn(Day(now) + k);
      HourOfDayAfter(now, k, WorkStartHour)
    else
      DayOfMidnightPlus(Day(now), WorkStartHour * MinutesPerHour);
      if now < At(now, WorkStartHour) then At(now, WorkStartHour) else now
  }

  /** A slot of the requested length, on a weekday, from 09:00 and ending strictly before 17:00. */
  predicate IsWorkingSlot(s: Slot, duration: int) {
    s.end == s.start + duration &&
    !IsWeekend(s.start) && At(s.start, WorkStartHour) <= s.start && s.end < At(s.start, WorkEndHour)
  }

  /** The slot ends strictly before the busy interval starts, or starts at or after it ends. */
  predicate ClearOf(s: Slot, b: Interval) {
    s.end < b.start || b.end <= s.start
  }

  function StartKey(b: Interval): Sorting.Key { (b.start, 0) }

  /** The busy list is in ascending order of start. */
  predicate StartsAscending(busy: seq<Interval>) {
    forall i, j :: 0 <= i < j < |busy| ==> busy[i].start <= busy[j].start
  }

  /** Sorting by the key `(start, 0)` is sorting by start. */
  lemma SortedByStartKey(busy: seq<Interval>)
    requires Sorting.SortedBy(busy, StartKey)
    ensures StartsAscending(busy)
  {
    forall i, j | 0 <= i < j < |busy|
      ensures busy[i].start <= busy[j].start
    {
      assert Sorting.KeyLe(StartKey(busy[i]), StartKey(busy[j]));
    }
  }

  function Max(a: int, b: int): int { if a < b then b else a }

  /**
   * The final candidate (lines 140-152): the cursor after the day-advance loop,
   * accepted when it ends strictly before 17:00 and starts before the horizon.
   */
  function FinalResult(lastEnd: int, duration: int, limit: int): SlotSearch {
    var p := NextWorkingTime(lastEnd);
    if p + duration < At(p, WorkEndHour) && p < limit then Found(Slot(p, p + duration)) else NotFound
  }

  method FinalCandidate(lastEnd: int, duration: int, limit: int) returns (r: SlotSearch)
    ensures r == FinalResult(lastEnd, duration, limit)
    ensures r.Found? ==> r.slot.start >= lastEnd && r.slot.start < limit && IsWorkingSlot(r.slot, duration)
  {
    var finalStart := AdvanceToWorkingTime(lastEnd);
    var finalEnd := finalStart + duration;
    if finalEnd < At(finalStart, WorkEndHour) && finalStart < limit {
      r := Found(Slot(finalStart, finalEnd));
    } else {
      r := NotFound;
    }
  }

  /** A weekday cursor already at or past 17:00 never yields a final candidate. */
  lemma FinalResultAfterHours(lastEnd: int, duration: int, limit: int)
    requires !IsWeekend(lastEnd) && lastEnd >= At(lastEnd, WorkEndHour) && duration > 0
    ensures FinalResult(lastEnd, duration, limit) == NotFound
  {
  }

  /** Lines 88-118: only the first weekday cursor and 09:00 of the next weekday after it are tried. */
  function NoBusyDataResult(searchStart: int, duration: int): SlotSearch {
    var first := if IsWeekend(searchStart) then WorkStartOn(FirstWeekdayFrom(Day(searchStart))) else searchStart;
    var next := WorkStartOn(FirstWeekdayFrom(Day(first) + 1));
    if first + duration < At(first, WorkEndHour) then Found(Slot(first, first + duration))
    else if next + duration < At(next, WorkEndHour) then Found(Slot(next, next + duration))
    else NotFound
  }

  /** What the first weekend loop of lines 93-97 keeps. */
  ghost predicate WeekendSkipInvariant(s: int, p: int) {
    p == s || (IsWeekend(s) && p == WorkStartOn(Day(p)) && Day(s) < Day(p) <= FirstWeekdayFrom(Day(s)))
  }

  lemma {:induction false} WeekendSkipStep(s: int, p: int)
    requires WeekendSkipInvariant(s, p) && IsWeekend(p)
    ensures WeekendSkipInvariant(s, HourOfDayAfter(p, if Weekday(p) == 6 then 2 else 1, WorkStartHour))
    ensures !IsWeekend(HourOfDayAfter(p, if Weekday(p) == 6 then 2 else 1, WorkStartHour))
  {
    var d := Day(p) + (if Weekday(p) == 6 then 2 else 1);
    WorkStartOnFacts(d);
    assert HourOfDayAfter(p, if Weekday(p) == 6 then 2 else 1, WorkStartHour) == WorkStartOn(d);
  }

  lemma WeekendSkipExit(s: int, p: int)
    requires WeekendSkipInvariant(s, p) && !IsWeekend(p)
    ensures p == if IsWeekend(s) then WorkStartOn(FirstWeekdayFrom(Day(s))) else s
  {
    if p != s {
      assert Day(p) == FirstWeekdayFrom(Day(s));
    }
  }

  /** The second weekend loop of lines 107-109 steps over whole days. */
  lemma {:induction false} WeekdayScanStep(from: int, day: int)
    requires from <= day <= FirstWeekdayFrom(from) && IsWeekendDay(day)
    ensures from < day + (if WeekdayOfDay(day) == 6 then 2 else 1) <= FirstWeekdayFrom(from)
  {
    if WeekdayOfDay(day) == 6 {
      assert IsWeekendDay(day + 1);
    }
  }

  method FirstSlotWithoutBusyData(searchStart: int, duration: int) returns (r: SlotSearch)
    requires At(searchStart, WorkStartHour) <= searchStart
    ensures r == NoBusyDataResult(searchStart, duration)
    ensures r.Found? ==> IsWorkingSlot(r.slot, duration) && r.slot.start >= searchStart
  {
    var potentialStart := searchStart;
    while IsWeekend(potentialStart)
      invariant WeekendSkipInvariant(searchStart, potentialStart)
      decreases if IsWeekend(potentialStart) then 1 else 0
    {
      WeekendSkipStep(searchStart, potentialStart);
      potentialStart := HourOfDayAfter(potentialStart, if Weekday(potentialStart) == 6 then 2 else 1, WorkStartHour);
    }
    WeekendSkipExit(searchStart, potentialStart);
    if potentialStart != searchStart {
      WorkStartOnFacts(Day(potentialStart));
      DayDecomposition(searchStart);
    }
    var potentialEnd := potentialStart + duration;
    if potentialEnd < At(potentialStart, WorkEndHour) {
      return Found(Slot(potentialStart, potentialEnd));
    }
    var from := Day(potentialStart) + 1;
    var day := from;
    while IsWeekendDay(day)
      invariant from <= day <= FirstWeekdayFrom(from)
      decreases FirstWeekdayFrom(from) - day
    {
      WeekdayScanStep(from, day);
      day := day + (if WeekdayOfDay(day) == 6 then 2 else 1);
    }
    assert day == FirstWeekdayFrom(from);
    potentialStart := WorkStartOn(day);
    WorkStartOnFacts(day);
    potentialEnd := potentialStart + duration;
    if potentialEnd < At(potentialStart, WorkEndHour) {
      r := Found(Slot(potentialStart, potentialEnd));
    } else {
      r := NotFound;
    }
  }

  /** Either slot the no-busy-data search offers is a working slot at or after the cursor. */
  lemma NoBusyDataFacts(searchStart: int, duration: int)
    requires At(searchStart, WorkStartHour) <= searchStart
    ensures var r := NoBusyDataResult(searchStart, duration);
            r.Found? ==> IsWorkingSlot(r.slot, duration) && r.slot.start >= searchStart
  {
    DayDecomposition(searchStart);
    var first := if IsWeekend(searchStart) then WorkStartOn(FirstWeekdayFrom(Day(searchStart))) else searchStart;
    if IsWeekend(searchStart) {
      WorkStartOnFacts(FirstWeekdayFrom(Day(searchStart)));
    }
    var nextDay := FirstWeekdayFrom(Day(first) + 1);
    WorkStartOnFacts(nextDay);
    DayDecomposition(first);
  }

  /**
   * The message `findNextAvailableSlot` throws when the free/busy query fails
   * (lines 158-166): the base sentence, followed by Google's own message when
   * there is one, else by the error's message when there is one.
   */
  function FreeBusyErrorMessage(googleMessage: Option<string>, message: Option<string>): (m: string)
    ensures Text.StartsWith(m, FreeBusyErrorBase)
    ensures googleMessage.Some? && googleMessage.value != "" ==>
              var tail := " Google Error: " + googleMessage.value;
              Text.EndsWith(m, tail) && |m| == |FreeBusyErrorBase| + |tail|
    ensures !(googleMessage.Some? && googleMessage.value != "") && message.Some? && message.value != "" ==>
              var tail := " Details: " + message.value;
              Text.EndsWith(m, tail) && |m| == |FreeBusyErrorBase| + |tail|
    ensures (googleMessage.None? || googleMessage.value == "") && (message.None? || message.value == "") ==>
              m == FreeBusyErrorBase
  {
    if googleMessage.Some? && googleMessage.value != "" then FreeBusyErrorBase + " Google Error: " + googleMessage.value
    else if message.Some? && message.value != "" then FreeBusyErrorBase + " Details: " + message.value
    else FreeBusyErrorBase
  }

  const FreeBusyErrorBase: string := QueryFailedPhrase + FreeBusyErrorTail
  const FreeBusyErrorTail: string := " free/busy information."

  /**
   * The scan of lines 123-152 over a busy list in the order given: the cursor
   * starts at the running maximum of busy ends, is advanced into working time
   * and accepted when the slot ends strictly before the next busy interval
   * starts and strictly before 17:00; past the last interval the final
   * candidate decides.
   */
  function ScanResult(busy: seq<Interval>, cursor: int, duration: int, limit: int): (r: SlotSearch)
    ensures r.Found? || r.NotFound?
    decreases |busy|
  {
    if busy == [] then FinalResult(cursor, duration, limit)
    else
      var p := NextWorkingTime(cursor);
      if p + duration < busy[0].start && p + duration < At(p, WorkEndHour) then Found(Slot(p, p + duration))
      else ScanResult(busy[1..], Max(cursor, busy[0].end), duration, limit)
  }

  /** A slot the scan accepts has the requested length, lies in working hours and starts at or after the cursor. */
  lemma {:induction false} ScanResultWorking(busy: seq<Interval>, cursor: int, duration: int, limit: int)
    ensures var r := ScanResult(busy, cursor, duration, limit);
            r.Found? ==> IsWorkingSlot(r.slot, duration) && r.slot.start >= cursor
    decreases |busy|
  {
    NextWorkingTimeFacts(cursor);
    if busy != [] {
      ScanResultWorking(busy[1..], Max(cursor, busy[0].end), duration, limit);
    }
  }

  /** Over a list sorted by start, the accepted slot overlaps no busy interval. */
  lemma {:induction false} ScanResultClear(busy: seq<Interval>, cursor: int, duration: int, limit: int)
    requires StartsAscending(busy)
    ensures var r := ScanResult(busy, cursor, duration, limit);
            r.Found? ==> forall k :: 0 <= k < |busy| ==> ClearOf(r.slot, busy[k])
    decreases |busy|
  {
    var r := ScanResult(busy, cursor, duration, limit);
    if busy != [] && r.Found? {
      var p := NextWorkingTime(cursor);
      if p + duration < busy[0].start && p + duration < At(p, WorkEndHour) {
        forall k | 0 <= k < |busy|
          ensures ClearOf(r.slot, busy[k])
        {
          if k > 0 {
            assert busy[0].start <= busy[k].start;
          }
        }
      } else {
        var next := Max(cursor, busy[0].end);
        SortedTail(busy);
        ScanResultClear(busy[1..], next, duration, limit);
        ScanResultWorking(busy[1..], next, duration, limit);
        forall k | 0 <= k < |busy|
          ensures ClearOf(r.slot, busy[k])
        {
          if k > 0 {
            assert busy[k] == busy[1..][k - 1];
          }
        }
      }
    }
  }

  /** Removing one element keeps a list sorted. */
  lemma SortedWithout(s: seq<Interval>, j: int)
    requires StartsAscending(s) && 0 <= j < |s|
    ensures StartsAscending(s[..j] + s[j + 1..])
  {
    var t := s[..j] + s[j + 1..];
    forall a, b | 0 <= a < b < |t|
      ensures t[a].start <= t[b].start
    {
      var a' := if a < j then a else a + 1;
      var b' := if b < j then b else b + 1;
      assert t[a] == s[a'] && t[b] == s[b'];
    }
  }

  lemma SortedTail(s: seq<Interval>)
    requires StartsAscending(s) && s != []
    ensures StartsAscending(s[1..])
  {
    forall i, j | 0 <= i < j < |s| - 1
      ensures s[1..][i].start <= s[1..][j].start
    {
      assert s[1..][i] == s[i + 1] && s[1..][j] == s[j + 1];
    }
  }

  /**
   * Intervals at the head that start no later than the cursor can never be
   * slotted before, so moving one of them to the front changes nothing.
   */
  lemma {:induction false} ScanHoist(busy: seq<Interval>, j: int, cursor: int, duration: int, limit: int)
    requires 0 <= j < |busy| && duration >= 0
    requires forall i :: 0 <= i <= j ==> busy[i].start <= cursor
    ensures ScanResult(busy, cursor, duration, limit) ==
            ScanResult([busy[j]] + (busy[..j] + busy[j + 1..]), cursor, duration, limit)
    decreases j
  {
    if j == 0 {
      assert [busy[0]] + (busy[..0] + busy[1..]) == busy;
    } else {
      var rest := busy[..j] + busy[j + 1..];
      var c1 := Max(cursor, busy[0].end);
      var c2 := Max(cursor, busy[j].end);
      var merged := Max(c1, busy[j].end);
      NextWorkingTimeFacts(cursor);
      NextWorkingTimeFacts(c1);
      NextWorkingTimeFacts(c2);
      assert busy[1..][j - 1] == busy[j];
      ScanHoist(busy[1..], j - 1, c1, duration, limit);
      var tail := busy[1..][..j - 1] + busy[1..][j..];
      assert ([busy[j]] + tail)[1..] == tail;
      assert ScanResult(busy, cursor, duration, limit) == ScanResult(busy[1..], c1, duration, limit);
      assert ScanResult([busy[j]] + tail, c1, duration, limit) == ScanResult(tail, merged, duration, limit);
      assert ([busy[j]] + rest)[1..] == rest && rest[0] == busy[0] && rest[1..] == tail;
      assert ScanResult([busy[j]] + rest, cursor, duration, limit) == ScanResult(rest, c2, duration, limit);
      assert ScanResult(rest, c2, duration, limit) == ScanResult(tail, Max(c2, busy[0].end), duration, limit);
      assert Max(c2, busy[0].end) == merged;
    }
  }

  /** Every busy interval ends no earlier than it starts, as the calendar provider reports them. */
  predicate WellFormed(busy: seq<Interval>) {
    forall b :: b in busy ==> b.start <= b.end
  }

  /** A rearranged part of a well-formed list is well-formed. */
  lemma WellFormedPart(a: seq<Interval>, r: seq<Interval>)
    requires WellFormed(a) && multiset(r) <= multiset(a)
    ensures WellFormed(r)
  {
    forall z | z in r
      ensures z.start <= z.end
    {
      assert z in multiset(r);
      assert z in multiset(a);
    }
  }

  /** Two start-sorted orders of the same list begin with the same start. */
  lemma LeadingStartsAgree(a: seq<Interval>, b: seq<Interval>)
    requires StartsAscending(a) && StartsAscending(b)
    requires multiset(a) == multiset(b) && a != [] && b != []
    ensures a[0].start == b[0].start
  {
    assert b[0] in multiset(a) && a[0] in multiset(b);
    var ya :| 0 <= ya < |a| && a[ya] == b[0];
    var xb :| 0 <= xb < |b| && b[xb] == a[0];
    if ya > 0 { assert a[0].start <= a[ya].start; }
    if xb > 0 { assert b[0].start <= b[xb].start; }
  }

  /**
   * Once the leading interval of a sorted list is passed over, another
   * interval with the same start is absorbed next: its end is folded into
   * the cursor and it leaves the list.
   */
  lemma AbsorbTie(a: seq<Interval>, y: Interval, cursor: int, duration: int, limit: int) returns (rest: seq<Interval>)
    requires StartsAscending(a) && duration >= 0
    requires a != [] && a[0].start <= a[0].end && y in multiset(a[1..]) && y.start == a[0].start
    ensures StartsAscending(rest) && |rest| == |a| - 2
    ensures multiset(rest) == multiset(a) - multiset{a[0]} - multiset{y}
    ensures ScanResult(a[1..], Max(cursor, a[0].end), duration, limit) ==
            ScanResult(rest, Max(Max(cursor, a[0].end), y.end), duration, limit)
  {
    var tail := a[1..];
    SortedTail(a);
    var j :| 0 <= j < |tail| && tail[j] == y;
    rest := TakeOutLeader(tail, j, Max(cursor, a[0].end), duration, limit);
    assert a == [a[0]] + tail;
  }

  /**
   * The order in which a sort leaves intervals with equal starts does not
   * matter: any two start-sorted orders of the same well-formed busy list
   * give the same scan result.
   */
  lemma {:induction false} ScanIgnoresTieOrder(a: seq<Interval>, b: seq<Interval>, cursor: int, duration: int, limit: int)
    requires StartsAscending(a) && StartsAscending(b)
    requires multiset(a) == multiset(b) && WellFormed(a) && duration >= 0
    ensures ScanResult(a, cursor, duration, limit) == ScanResult(b, cursor, duration, limit)
    decreases |a|
  {
    assert |a| == |multiset(a)| == |multiset(b)| == |b|;
    if a != [] {
      LeadingStartsAgree(a, b);
      var p := NextWorkingTime(cursor);
      if !(p + duration < a[0].start && p + duration < At(p, WorkEndHour)) {
        var ra, rb, c := PassOverLeaders(a, b, cursor, duration, limit);
        ScanIgnoresTieOrder(ra, rb, c, duration, limit);
      }
    }
  }

  /**
   * One step of the previous lemma: when the common leading start cannot be
   * slotted before, both lists absorb their leaders (and, when these differ,
   * each other's leader) and continue from the same cursor.
   */
  lemma PassOverLeaders(a: seq<Interval>, b: seq<Interval>, cursor: int, duration: int, limit: int)
    returns (ra: seq<Interval>, rb: seq<Interval>, c: int)
    requires StartsAscending(a) && StartsAscending(b)
    requires multiset(a) == multiset(b) && WellFormed(a) && duration >= 0
    requires a != [] && b != [] && a[0].start == b[0].start
    requires var p := NextWorkingTime(cursor); !(p + duration < a[0].start && p + duration < At(p, WorkEndHour))
    ensures StartsAscending(ra) && StartsAscending(rb) && multiset(ra) == multiset(rb) && WellFormed(ra)
    ensures |ra| < |a|
    ensures ScanResult(a, cursor, duration, limit) == ScanResult(ra, c, duration, limit)
    ensures ScanResult(b, cursor, duration, limit) == ScanResult(rb, c, duration, limit)
  {
    var x, y := a[0], b[0];
    PassOver(a, cursor, duration, limit);
    PassOver(b, cursor, duration, limit);
    if x == y {
      ra := SameLeader(a, b);
      rb, c := b[1..], Max(cursor, x.end);
    } else {
      ra, rb := DifferentLeaders(a, b, cursor, duration, limit);
      c := Max(Max(cursor, x.end), y.end);
      assert c == Max(Max(cursor, y.end), x.end);
    }
  }

  /** The scan passes over a leading interval it cannot slot before. */
  lemma PassOver(a: seq<Interval>, cursor: int, duration: int, limit: int)
    requires a != []
    requires var p := NextWorkingTime(cursor); !(p + duration < a[0].start && p + duration < At(p, WorkEndHour))
    ensures ScanResult(a, cursor, duration, limit) == ScanResult(a[1..], Max(cursor, a[0].end), duration, limit)
  {
  }

  lemma SameLeader(a: seq<Interval>, b: seq<Interval>) returns (ra: seq<Interval>)
    requires StartsAscending(a) && StartsAscending(b) && multiset(a) == multiset(b) && WellFormed(a)
    requires a != [] && b != [] && a[0] == b[0]
    ensures ra == a[1..] && StartsAscending(ra) && StartsAscending(b[1..]) && WellFormed(ra)
    ensures multiset(ra) == multiset(b[1..])
  {
    ra := a[1..];
    assert a == [a[0]] + a[1..] && b == [b[0]] + b[1..];
    SortedTail(a);
    SortedTail(b);
    WellFormedPart(a, ra);
  }

  /** The leader of one order sits in the tail of the other when the leaders differ. */
  lemma LeaderInOtherTail(a: seq<Interval>, b: seq<Interval>)
    requires multiset(a) == multiset(b) && a != [] && b != [] && a[0] != b[0]
    ensures b[0] in multiset(a[1..])
  {
    assert a == [a[0]] + a[1..];
    assert multiset(a) == multiset{a[0]} + multiset(a[1..]);
    assert b[0] in multiset(b);
  }

  lemma DifferentLeaders(a: seq<Interval>, b: seq<Interval>, cursor: int, duration: int, limit: int)
    returns (ra: seq<Interval>, rb: seq<Interval>)
    requires StartsAscending(a) && StartsAscending(b) && multiset(a) == multiset(b) && WellFormed(a)
    requires a != [] && b != [] && a[0] != b[0] && a[0].start == b[0].start && duration >= 0
    ensures StartsAscending(ra) && StartsAscending(rb) && multiset(ra) == multiset(rb) && WellFormed(ra)
    ensures |ra| < |a|
    ensures ScanResult(a[1..], Max(cursor, a[0].end), duration, limit) ==
            ScanResult(ra, Max(Max(cursor, a[0].end), b[0].end), duration, limit)
    ensures ScanResult(b[1..], Max(cursor, b[0].end), duration, limit) ==
            ScanResult(rb, Max(Max(cursor, b[0].end), a[0].end), duration, limit)
  {
    var x, y := a[0], b[0];
    LeaderInOtherTail(a, b);
    LeaderInOtherTail(b, a);
    assert x in a;
    WellFormedPart(a, b);
    ra := AbsorbTie(a, y, cursor, duration, limit);
    rb := AbsorbTie(b, x, cursor, duration, limit);
    WellFormedPart(a, ra);
  }

  /**
   * The step of the previous lemma on one side: the interval at `j` of a
   * sorted list whose earlier entries all start no later than the cursor is
   * absorbed first, its end folded into the cursor.
   */
  lemma TakeOutLeader(s: seq<Interval>, j: int, cursor: int, duration: int, limit: int) returns (rest: seq<Interval>)
    requires StartsAscending(s) && 0 <= j < |s| && s[j].start <= cursor && duration >= 0
    ensures rest == s[..j] + s[j + 1..] && StartsAscending(rest)
    ensures multiset(rest) == multiset(s) - multiset{s[j]}
    ensures ScanResult(s, cursor, duration, limit) == ScanResult(rest, Max(cursor, s[j].end), duration, limit)
  {
    rest := s[..j] + s[j + 1..];
    forall i | 0 <= i < j
      ensures s[i].start <= cursor
    {
      assert s[i].start <= s[j].start;
    }
    ScanHoist(s, j, cursor, duration, limit);
    NextWorkingTimeFacts(cursor);
    assert ([s[j]] + rest)[1..] == rest;
    SortedWithout(s, j);
    assert s == s[..j] + [s[j]] + s[j + 1..];
  }

  /** Inserts `b` before the first interval that starts no earlier than it. */
  function InsertByStart(b: Interval, s: seq<Interval>): (r: seq<Interval>)
    ensures multiset(r) == multiset(s) + multiset{b}
    decreases |s|
  {
    if s == [] || b.start <= s[0].start then [b] + s
    else
      assert s == [s[0]] + s[1..];
      [s[0]] + InsertByStart(b, s[1..])
  }

  /** A list sorted by start stays sorted with an interval in front that starts no later than any of it. */
  lemma SortedCons(x: Interval, rest: seq<Interval>)
    requires StartsAscending(rest) && forall k :: 0 <= k < |rest| ==> x.start <= rest[k].start
    ensures StartsAscending([x] + rest)
  {
    var r := [x] + rest;
    forall i, j | 0 <= i < j < |r|
      ensures r[i].start <= r[j].start
    {
      assert r[j] == rest[j - 1];
      if i > 0 {
        assert r[i] == rest[i - 1];
      }
    }
  }

  lemma {:induction false} InsertByStartSorted(b: Interval, s: seq<Interval>)
    requires StartsAscending(s)
    ensures StartsAscending(InsertByStart(b, s))
    decreases |s|
  {
    if s != [] && b.start > s[0].start {
      SortedTail(s);
      InsertByStartSorted(b, s[1..]);
      var rest := InsertByStart(b, s[1..]);
      forall k | 0 <= k < |rest|
        ensures s[0].start <= rest[k].start
      {
        assert rest[k] in multiset(rest);
        if rest[k] != b {
          assert rest[k] in multiset(s[1..]);
          var m :| 0 <= m < |s[1..]| && s[1..][m] == rest[k];
          assert s[0].start <= s[m + 1].start;
        }
      }
      SortedCons(s[0], rest);
    }
  }

  /**
   * The busy list in the order a stable sort by start leaves it (the order
   * of line 122: equal starts keep their original order).
   */
  function SortByStart(busy: seq<Interval>): (r: seq<Interval>)
    ensures multiset(r) == multiset(busy)
    decreases |busy|
  {
    if busy == [] then []
    else
      assert busy == [busy[0]] + busy[1..];
      InsertByStart(busy[0], SortByStart(busy[1..]))
  }

  lemma {:induction false} SortByStartSorted(busy: seq<Interval>)
    ensures StartsAscending(SortByStart(busy))
    decreases |busy|
  {
    if busy != [] {
      SortByStartSorted(busy[1..]);
      InsertByStartSorted(busy[0], SortByStart(busy[1..]));
    }
  }

  /** The horizon of the final candidate: seven days after the initial cursor. */
  function SearchLimit(now: int): int { InitialCursor(now) + SearchDays * MinutesPerDay }

  /**
   * What `findNextAvailableSlot` answers (lines 48-166) once the free/busy
   * answer is known: the failure message, the no-busy-data search, or the
   * scan of the busy list sorted by start.
   */
  function SlotSearchResult(now: int, duration: int, response: FreeBusy): SlotSearch {
    match response
    case QueryFailed(googleMessage, message) => Upstream(FreeBusyErrorMessage(googleMessage, message))
    case NoBusyList => NoBusyDataResult(InitialCursor(now), duration)
    case BusyList(busy) => ScanResult(SortByStart(busy), InitialCursor(now), duration, SearchLimit(now))
  }

  /** The answers whose search result does not depend on how the sort orders equal starts. */
  predicate TieOrderFree(duration: int, response: FreeBusy) {
    response.BusyList? ==> WellFormed(response.busy) && duration >= 0
  }

  /** Every slot the search finds is a working slot at or after the initial cursor, clear of every busy interval. */
  lemma SlotSearchResultSafe(now: int, duration: int, response: FreeBusy)
    ensures var r := SlotSearchResult(now, duration, response);
            r.Found? ==> IsWorkingSlot(r.slot, duration) && r.slot.start >= InitialCursor(now) &&
                         (response.BusyList? ==> forall b :: b in response.busy ==> ClearOf(r.slot, b))
  {
    var r := SlotSearchResult(now, duration, response);
    match response {
      case QueryFailed(_, _) =>
      case NoBusyList =>
        if r.Found? {
          NoBusyDataFacts(InitialCursor(now), duration);
        }
      case BusyList(busy) =>
        var sorted := SortByStart(busy);
        SortByStartSorted(busy);
        ScanResultWorking(sorted, InitialCursor(now), duration, SearchLimit(now));
        ScanResultClear(sorted, InitialCursor(now), duration, SearchLimit(now));
        if r.Found? {
          forall b | b in busy
            ensures ClearOf(r.slot, b)
          {
            assert b in multiset(sorted);
            var k :| 0 <= k < |sorted| && sorted[k] == b;
          }
        }
    }
  }

  /**
   * The loop of lines 123-152 over the sorted busy list, proved against the
   * reference scan.
   */
  method ScanBusyTimes(busyTimes: array<Interval>, searchStart: int, duration: int, limit: int)
    returns (r: SlotSearch)
    ensures r == ScanResult(busyTimes[..], searchStart, duration, limit)
  {
    var lastEndTime := searchStart;
    var i := 0;
    while i < busyTimes.Length
      invariant 0 <= i <= busyTimes.Length
      invariant ScanResult(busyTimes[..], searchStart, duration, limit) ==
                ScanResult(busyTimes[i..], lastEndTime, duration, limit)
    {
      var busy := busyTimes[i];
      assert busyTimes[i..][1..] == busyTimes[i + 1..];
      var potentialSlotStart := AdvanceToWorkingTime(lastEndTime);
      var potentialSlotEnd := potentialSlotStart + duration;
      if potentialSlotEnd < busy.start && potentialSlotEnd < At(potentialSlotStart, WorkEndHour) {
        return Found(Slot(potentialSlotStart, potentialSlotEnd));
      }
      lastEndTime := Max(lastEndTime, busy.end);
      i := i + 1;
    }
    assert busyTimes[i..] == [];
    r := FinalCandidate(lastEndTime, duration, limit);
  }

  /**
   * Lines 122-152: the busy list is copied, sorted in place by start and
   * scanned. The result is the scan of some start-sorted order of the list,
   * and of the stable order when the tie order cannot matter.
   */
  method SortAndScan(busy: seq<Interval>, searchStart: int, duration: int, limit: int) returns (r: SlotSearch)
    ensures exists sorted :: StartsAscending(sorted) && multiset(sorted) == multiset(busy) &&
                             r == ScanResult(sorted, searchStart, duration, limit)
    ensures WellFormed(busy) && duration >= 0 ==> r == ScanResult(SortByStart(busy), searchStart, duration, limit)
    ensures r.Found? ==> IsWorkingSlot(r.slot, duration) && r.slot.start >= searchStart
    ensures r.Found? ==> forall b :: b in busy ==> ClearOf(r.slot, b)
  {
    var busyTimes := new Interval[|busy|](i requires 0 <= i < |busy| => busy[i]);
    assert busyTimes[..] == busy;
    Sorting.SortInPlace(busyTimes, StartKey);
    r := ScanBusyTimes(busyTimes, searchStart, duration, limit);
    ghost var sorted := busyTimes[..];
    SortedByStartKey(sorted);
    ScanResultWorking(sorted, searchStart, duration, limit);
    ScanResultClear(sorted, searchStart, duration, limit);
    if r.Found? {
      forall b | b in busy
        ensures ClearOf(r.slot, b)
      {
        assert b in multiset(sorted);
        var k :| 0 <= k < |sorted| && sorted[k] == b;
      }
    }
    if WellFormed(busy) && duration >= 0 {
      WellFormedPart(busy, sorted);
      SortByStartSorted(busy);
      ScanIgnoresTieOrder(sorted, SortByStart(busy), searchStart, duration, limit);
    }
  }

  /**
   * `findNextAvailableSlot` once the free/busy answer is known: the
   * reference search result whenever the tie order of the sort cannot
   * matter, and in every case the scan of some start-sorted order of the
   * busy list.
   */
  method FindNextAvailableSlot(now: int, duration: int, response: FreeBusy) returns (r: SlotSearch)
    ensures TieOrderFree(duration, response) ==> r == SlotSearchResult(now, duration, response)
    ensures response.BusyList? ==>
              exists sorted :: StartsAscending(sorted) && multiset(sorted) == multiset(response.busy) &&
                               r == ScanResult(sorted, InitialCursor(now), duration, SearchLimit(now))
    ensures r.Found? ==> IsWorkingSlot(r.slot, duration) && r.slot.start >= InitialCursor(now) >= now
    ensures r.Found? && response.BusyList? ==> forall b :: b in response.busy ==> ClearOf(r.slot, b)
  {
    var searchStart := InitialCursor(now);
    var searchEndLimit := searchStart + SearchDays * MinutesPerDay;
    assert searchEndLimit == SearchLimit(now);
    match response {
      case QueryFailed(googleMessage, message) =>
        r := Upstream(FreeBusyErrorMessage(googleMessage, message));
      case NoBusyList =>
        r := FirstSlotWithoutBusyData(searchStart, duration);
        assert r == SlotSearchResult(now, duration, response);
      case BusyList(busy) =>
        r := SortAndScan(busy, searchStart, duration, searchEndLimit);
        assert TieOrderFree(duration, response) ==> r == SlotSearchResult(now, duration, response);
    }
  }

  // ---------------------------------------------------------------------
  // The POST handler
  // ---------------------------------------------------------------------

  /** `body.duration`: a JSON number (whole minutes) or a value of another type. */
  datatype DurationField = Minutes(n: int) | NotANumber

  datatype AddRequestBody = AddRequestBody(
    duration: DurationField,
    sessionName: Option<string>,
    priority: Option<string>,
    startTime: IsoTime)

  /** The token lookup: a row, no row (Postgres code PGRST116), or another database error. */
  datatype TokenLookup = Connected | NotConnected | TokenDatabaseError

  /** An error caught by the handler: its message, Google's own message and HTTP status if any. */
  datatype ThrownError = ThrownError(message: string, googleMessage: Option<string>, status: Option<int>)

  datatype InsertOutcome = Inserted | InsertFailed(error: ThrownError)

  /** The event sent to `events.insert`. */
  datatype FocusEvent = FocusEvent(
    summary: string,
    description: string,
    start: int,
    end: int,
    colorId: string,
    privateProperties: map<string, string>)

  datatype Response = Failure(status: int, error: string) | Scheduled(event: FocusEvent)

  const InvalidBodyMessage: string :=
    "Invalid request body. Ensure " + "\"duration\" (number in minutes) is provided."
  const NotConnectedPhrase: string := "Google Calendar not connected"
  const NoSlotPhrase: string := "Could not find an available time slot"
  const NoSlotMessage: string := NoSlotPhrase + "."
  const QueryFailedPhrase: string := "Failed to query Google Calendar"
  const UnexpectedErrorMessage: string :=
    "An unexpected error occurred " + "while scheduling focus time."
  const DefaultSummary: string := "Focus Time"

  const PriorityColorMap: map<string, string> :=
    map["high" := "11", "medium" := "5", "low" := "2", "default" := "8"]

  /** Lines 206-208: the duration must be a number greater than zero. */
  function ValidDuration(body: AddRequestBody): (d: Option<int>)
    ensures d.Some? <==> body.duration.Minutes? && body.duration.n > 0
    ensures d.Some? ==> d.value == body.duration.n
  {
    if body.duration.Minutes? && body.duration.n > 0 then Some(body.duration.n) else None
  }

  predicate IsKnownPriority(p: string) { p == "high" || p == "medium" || p == "low" }

  /**
   * `priority || 'default'` after lines 210-213 reset an unknown priority:
   * a known priority is kept, anything else (absent, empty, unknown) is 'default'.
   */
  function EffectivePriority(priority: Option<string>): (q: string)
    ensures q in PriorityColorMap
    ensures priority.Some? && IsKnownPriority(priority.value) ==> q == priority.value
    ensures !(priority.Some? && IsKnownPriority(priority.value)) ==> q == "default"
  {
    if priority.Some? && IsKnownPriority(priority.value) then priority.value else "default"
  }

  /** Line 395: the colour of the new event; '8' exactly when no known priority was given. */
  function EventColorId(priority: Option<string>): (c: string)
    ensures c == "8" <==> !(priority.Some? && IsKnownPriority(priority.value))
    ensures c in PriorityColorMap.Values
  {
    PriorityColorMap[EffectivePriority(priority)]
  }

  /**
   * Line 394: the trimmed session name, or 'Focus Time' when the name is
   * absent or only whitespace.
   */
  function EventSummary(sessionName: Option<string>): (s: string)
    ensures sessionName.None? ==> s == DefaultSummary
    ensures sessionName.Some? && (forall i :: 0 <= i < |sessionName.value| ==> Text.IsWhiteSpace(sessionName.value[i])) ==>
              s == DefaultSummary
    ensures sessionName.Some? && (exists i :: 0 <= i < |sessionName.value| && !Text.IsWhiteSpace(sessionName.value[i])) ==>
              s == Text.Trim(sessionName.value) && s != [] &&
              !Text.IsWhiteSpace(s[0]) && !Text.IsWhiteSpace(s[|s| - 1])
  {
    if sessionName.None? then DefaultSummary
    else
      Text.TrimEmptyIffAllWhiteSpace(sessionName.value);
      if sessionName.value != "" && Text.Trim(sessionName.value) != "" then Text.Trim(sessionName.value)
      else DefaultSummary
  }

  const DescriptionLead: string := "Scheduled via CalmHour. Duration: "

  /** The part of the description after the duration. */
  function DescriptionTail(priority: Option<string>): string {
    " minutes. Priority: " + EffectivePriority(priority) + "."
  }

  /**
   * Line 396: the description names the duration in minutes and the
   * priority the colour was chosen by ('default' when none is known).
   */
  function EventDescription(duration: int, priority: Option<string>): (d: string)
    ensures Text.StartsWith(d, DescriptionLead) && Text.EndsWith(d, DescriptionTail(priority))
    ensures |DescriptionLead| + |DescriptionTail(priority)| <= |d| &&
            d[|DescriptionLead|..|d| - |DescriptionTail(priority)|] == Text.IntToString(duration)
  {
    DescriptionLead + Text.IntToString(duration) + DescriptionTail(priority)
  }

  /** The duration written into the description reads back as the duration. */
  lemma DescriptionDurationReadsBack(duration: nat, priority: Option<string>)
    ensures var d := EventDescription(duration, priority);
            var digits := d[|DescriptionLead|..|d| - |DescriptionTail(priority)|];
            Text.AllDigits(digits) && Text.DigitsValue(digits) == duration
  {
    Text.NatToStringRoundTrip(duration);
  }

  /**
   * Lines 450-473: the status and message of an error caught by the handler.
   * The phrase tests run in order on the message, so an earlier phrase wins.
   */
  function ErrorFor(e: ThrownError): (r: Response)
    ensures r.Failure?
    ensures Text.Contains(e.message, NotConnectedPhrase) ==> r == Failure(400, e.message)
    ensures !Text.Contains(e.message, NotConnectedPhrase) && Text.Contains(e.message, NoSlotPhrase) ==>
              r == Failure(409, e.message)
    ensures (!Text.Contains(e.message, NotConnectedPhrase) && !Text.Contains(e.message, NoSlotPhrase) &&
             Text.Contains(e.message, QueryFailedPhrase)) ==> r == Failure(502, e.message)
    // no phrase matched: Google's own message, with Google's status (500 when absent or zero)
    ensures NoKnownPhrase(e.message) && e.googleMessage.Some? && e.googleMessage.value != "" ==>
              r.error == "Google API Error: " + e.googleMessage.value &&
              (e.status.Some? && e.status.value != 0 ==> r.status == e.status.value) &&
              (e.status.None? || e.status == Some(0) ==> r.status == 500)
    // no phrase and no Google message: the error's own message, else the generic one, with 500
    ensures NoKnownPhrase(e.message) && (e.googleMessage.None? || e.googleMessage.value == "") ==>
              r.status == 500 &&
              (e.message != "" ==> r.error == e.message) &&
              (e.message == "" ==> r.error == UnexpectedErrorMessage)
    ensures r.status == 409 ==> Text.Contains(e.message, NoSlotPhrase) || e.status == Some(409)
    ensures r.status == 502 ==> Text.Contains(e.message, QueryFailedPhrase) || e.status == Some(502)
  {
    if Text.Contains(e.message, NotConnectedPhrase) then Failure(400, e.message)
    else if Text.Contains(e.message, NoSlotPhrase) then Failure(409, e.message)
    else if Text.Contains(e.message, QueryFailedPhrase) then Failure(502, e.message)
    else if e.googleMessage.Some? && e.googleMessage.value != "" then
      Failure(if e.status.Some? && e.status.value != 0 then e.status.value else 500,
              "Google API Error: " + e.googleMessage.value)
    else if e.message != "" then Failure(500, e.message)
    else Failure(500, UnexpectedErrorMessage)
  }

  predicate NoKnownPhrase(message: string) {
    !Text.Contains(message, NotConnectedPhrase) && !Text.Contains(message, NoSlotPhrase) &&
    !Text.Contains(message, QueryFailedPhrase)
  }

  /** The error thrown when no slot was found is answered with 409 Conflict. */
  lemma NoSlotIsConflict()
    ensures ErrorFor(ThrownError(NoSlotMessage, None, None)) == Failure(409, NoSlotMessage)
  {
    Text.MissingCharNotContained(NoSlotMessage, NotConnectedPhrase, 'G');
    Text.PrefixContained(NoSlotPhrase, ".", NoSlotPhrase);
  }

  /** The bare free/busy failure message does not mention a missing connection ... */
  lemma FreeBusyErrorBaseNotDisconnected()
    ensures !Text.Contains(FreeBusyErrorBase, NotConnectedPhrase)
  {
    assert 'c' !in QueryFailedPhrase && 'c' !in FreeBusyErrorTail;
    Text.MissingCharNotContained(FreeBusyErrorBase, NotConnectedPhrase, 'c');
  }

  /** ... nor a missing slot ... */
  lemma FreeBusyErrorBaseNotNoSlot()
    ensures !Text.Contains(FreeBusyErrorBase, NoSlotPhrase)
  {
    assert 'v' !in QueryFailedPhrase && 'v' !in FreeBusyErrorTail;
    Text.MissingCharNotContained(FreeBusyErrorBase, NoSlotPhrase, 'v');
  }

  /** ... and does carry the query-failure phrase. */
  lemma FreeBusyErrorBaseIsQueryFailure()
    ensures Text.Contains(FreeBusyErrorBase, QueryFailedPhrase)
  {
    Text.PrefixContained(QueryFailedPhrase, FreeBusyErrorTail, QueryFailedPhrase);
  }

  /** A failed free/busy query without further detail is answered with 502 Bad Gateway. */
  lemma QueryFailureIsBadGateway()
    ensures ErrorFor(ThrownError(FreeBusyErrorMessage(None, None), None, None)) == Failure(502, FreeBusyErrorBase)
  {
    FreeBusyErrorBaseNotDisconnected();
    FreeBusyErrorBaseNotNoSlot();
    FreeBusyErrorBaseIsQueryFailure();
    var e := ThrownError(FreeBusyErrorBase, None, None);
    assert FreeBusyErrorMessage(None, None) == FreeBusyErrorBase;
    assert ErrorFor(e) == Failure(502, FreeBusyErrorBase);
  }

  /**
   * The phrase tests look at the whole message, so a free/busy failure whose
   * Google detail mentions a missing connection is answered with 400, not 502.
   */
  lemma QueryFailureDetailCanOverrideStatus()
    ensures ErrorFor(ThrownError(FreeBusyErrorMessage(Some(NotConnectedPhrase), None), None, None)).status == 400
  {
    Text.SuffixContained(FreeBusyErrorBase + " Google Error: ", NotConnectedPhrase);
  }

  /** An auto-scheduled request never reaches the explicit-start path. */
  predicate AutoScheduled(body: AddRequestBody) { !body.startTime.TimeAt? }

  /** A body with a valid duration, from a user whose calendar is connected. */
  predicate Accepted(body: Option<AddRequestBody>, tokens: TokenLookup) {
    body.Some? && ValidDuration(body.value).Some? && tokens.Connected?
  }

  /** The event of lines 393-414 for a request starting at `start`. */
  function FocusEventFor(request: AddRequestBody, start: int): FocusEvent
    requires request.duration.Minutes?
  {
    FocusEvent(
      EventSummary(request.sessionName),
      EventDescription(request.duration.n, request.priority),
      start, start + request.duration.n,
      EventColorId(request.priority),
      map["calmhourFocusBlock" := "true"])
  }

  /**
   * The POST handler after authentication (lines 194-473): validate the body,
   * look up the tokens, take the explicit start or search for a slot, then
   * build and insert the event. Token refresh and the Google calls are
   * outcomes given as inputs.
   */
  method HandlePost(now: int, body: Option<AddRequestBody>, tokens: TokenLookup, freeBusy: FreeBusy,
                    insert: InsertOutcome) returns (resp: Response)
    ensures body.None? || ValidDuration(body.value).None? ==> resp == Failure(400, InvalidBodyMessage)
    ensures body.Some? && ValidDuration(body.value).Some? && tokens.NotConnected? ==>
              resp == Failure(400, "Google Calendar not connected.")
    ensures body.Some? && ValidDuration(body.value).Some? && tokens.TokenDatabaseError? ==>
              resp == Failure(500, "Database error fetching tokens.")
    // an explicit start is used as given
    ensures Accepted(body, tokens) && body.value.startTime.TimeAt? && insert.Inserted? ==>
              resp == Scheduled(FocusEventFor(body.value, body.value.startTime.t))
    // otherwise the search decides
    ensures Accepted(body, tokens) && AutoScheduled(body.value) && freeBusy.QueryFailed? ==>
              resp == ErrorFor(ThrownError(FreeBusyErrorMessage(freeBusy.googleMessage, freeBusy.message), None, None))
    ensures Accepted(body, tokens) && AutoScheduled(body.value) && TieOrderFree(body.value.duration.n, freeBusy) &&
            SlotSearchResult(now, body.value.duration.n, freeBusy).NotFound? ==>
              resp == Failure(409, NoSlotMessage)
    ensures Accepted(body, tokens) && AutoScheduled(body.value) && TieOrderFree(body.value.duration.n, freeBusy) &&
            SlotSearchResult(now, body.value.duration.n, freeBusy).Found? && insert.Inserted? ==>
              resp == Scheduled(FocusEventFor(body.value, SlotSearchResult(now, body.value.duration.n, freeBusy).slot.start))
    // a failed insert is mapped like any other error
    ensures Accepted(body, tokens) && insert.InsertFailed? &&
            (body.value.startTime.TimeAt? ||
             (TieOrderFree(body.value.duration.n, freeBusy) && SlotSearchResult(now, body.value.duration.n, freeBusy).Found?)) ==>
              resp == ErrorFor(insert.error)
    // whatever the busy list holds, an event is only ever scheduled into a free working slot
    ensures resp.Scheduled? ==>
              Accepted(body, tokens) && insert.Inserted? &&
              resp.event.end == resp.event.start + body.value.duration.n &&
              resp.event.summary == EventSummary(body.value.sessionName) &&
              resp.event.colorId == EventColorId(body.value.priority) &&
              resp.event.privateProperties == map["calmhourFocusBlock" := "true"]
    ensures resp.Scheduled? && AutoScheduled(body.value) ==>
              IsWorkingSlot(Slot(resp.event.start, resp.event.end), body.value.duration.n) &&
              resp.event.start >= InitialCursor(now) &&
              (freeBusy.BusyList? ==> forall b :: b in freeBusy.busy ==> ClearOf(Slot(resp.event.start, resp.event.end), b))
  {
    if body.None? || ValidDuration(body.value).None? {
      return Failure(400, InvalidBodyMessage);
    }
    var request := body.value;
    var duration := request.duration.n;
    match tokens {
      case NotConnected => return Failure(400, "Google Calendar not connected.");
      case TokenDatabaseError => return Failure(500, "Database error fetching tokens.");
      case Connected =>
    }
    var eventStart;
    if request.startTime.TimeAt? {
      eventStart := request.startTime.t;
    } else {
      var found := FindNextAvailableSlot(now, duration, freeBusy);
      match found {
        case Upstream(message) =>
          return ErrorFor(ThrownError(message, None, None));
        case NotFound =>
          NoSlotIsConflict();
          return ErrorFor(ThrownError(NoSlotMessage, None, None));
        case Found(slot) =>
          eventStart := slot.start;
      }
    }
    var event := FocusEventFor(request, eventStart);
    match insert {
      case InsertFailed(e) => resp := ErrorFor(e);
      case Inserted => resp := Scheduled(event);
    }
  }
}
