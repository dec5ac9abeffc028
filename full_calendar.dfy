/**
 * The FullCalendar-based calendar: how API events become FullCalendar
 * events (and which are dropped), the colour classes and icon of an event,
 * and the choice of header title.
 */
module FullCalendar {
  import opened Wrappers
  import opened Time
  import Text

  /** A start or end as the API returns it. */
  datatype ApiTime = ApiTime(dateTime: Option<string>, date: Option<string>)

  datatype ApiEvent = ApiEvent(
    id: string,
    summary: Option<string>,
    start: Option<ApiTime>,
    end: Option<ApiTime>,
    colorId: Option<string>)

  /** A JavaScript value stored in `extendedProps`. */
  datatype PropValue = Undefined | Null | Flag(b: bool) | Text(s: string)

  /** JavaScript truthiness of a property value. */
  predicate Truthy(v: PropValue) {
    (v.Flag? && v.b) || (v.Text? && v.s != "")
  }

  /** Reading a key of `extendedProps`: a missing key reads as `undefined`. */
  function Prop(props: map<string, PropValue>, key: string): PropValue {
    if key in props then props[key] else Undefined
  }

  /** A mapped event; `start` and `end` are `None` when they are not strings. */
  datatype FcEvent = FcEvent(
    id: string,
    title: Option<string>,
    start: Option<string>,
    end: Option<string>,
    allDay: bool,
    extendedProps: map<string, PropValue>)

  /** `a || b` on optional strings: the empty string is falsy. */
  function OrElse(a: Option<string>, b: Option<string>): (r: Option<string>)
    ensures a.Some? && a.value != "" ==> r == a
    ensures !(a.Some? && a.value != "") ==> r == b
  {
    if a.Some? && a.value != "" then a else b
  }

  /** `t?.dateTime || t?.date`. */
  function TimeString(t: Option<ApiTime>): Option<string> {
    if t.None? then None else OrElse(t.value.dateTime, t.value.date)
  }

  const FocusPhrase: string := "focus time"

  /** Line 106: the lower-cased summary mentions 'focus time'; no summary means false. */
  predicate IsFocusSummary(summary: Option<string>) {
    summary.Some? && Text.Contains(Text.Lower(summary.value), FocusPhrase)
  }

  /** Lines 104-118: one API event as a FullCalendar event. */
  function MapEvent(a: ApiEvent): (e: FcEvent)
    ensures e.id == a.id
    ensures e.title.Some? <==> a.summary.Some? && a.summary.value != ""
    ensures e.title.Some? ==> e.title == a.summary
    ensures e.start == TimeString(a.start) && e.end == TimeString(a.end)
    ensures e.allDay <==> a.start.Some? && a.start.value.date.Some? && a.start.value.date.value != ""
    ensures e.extendedProps.Keys == {"isFocusTime", "colorId"}
    ensures Truthy(Prop(e.extendedProps, "isFocusTime")) <==> IsFocusSummary(a.summary)
    ensures Prop(e.extendedProps, "colorId") == (if a.colorId.Some? then Text(a.colorId.value) else Undefined)
  {
    FcEvent(
      a.id,
      OrElse(a.summary, None),
      TimeString(a.start),
      TimeString(a.end),
      a.start.Some? && a.start.value.date.Some? && a.start.value.date.value != "",
      map["isFocusTime" := Flag(IsFocusSummary(a.summary)),
          "colorId" := if a.colorId.Some? then Text(a.colorId.value) else Undefined])
  }

  predicate HasStartAndEnd(e: FcEvent) { e.start.Some? && e.end.Some? }

  /** Lines 104-124: map every API event, then keep those whose start and end are strings. */
  function FormatEvents(events: seq<ApiEvent>): (r: seq<FcEvent>)
    ensures |r| <= |events|
    ensures forall e :: e in r ==> HasStartAndEnd(e) && exists a :: a in events && e == MapEvent(a)
    ensures forall a :: a in events && HasStartAndEnd(MapEvent(a)) ==> MapEvent(a) in r
  {
    if events == [] then []
    else
      var rest := FormatEvents(events[1..]);
      assert forall a :: a in events[1..] ==> a in events;
      if HasStartAndEnd(MapEvent(events[0])) then [MapEvent(events[0])] + rest else rest
  }

  /** The filter keeps the input order: formatting distributes over concatenation. */
  lemma {:induction false} FormatEventsAppend(xs: seq<ApiEvent>, ys: seq<ApiEvent>)
    ensures FormatEvents(xs + ys) == FormatEvents(xs) + FormatEvents(ys)
    decreases |xs|
  {
    if xs == [] {
      assert xs + ys == ys;
    } else {
      assert (xs + ys)[1..] == xs[1..] + ys;
      FormatEventsAppend(xs[1..], ys);
    }
  }

  // ---------------------------------------------------------------------
  // Colours and icon
  // ---------------------------------------------------------------------

  /** The colour family of a Google colour id '1' to '11'. */
  function Palette(colorId: string): (name: Option<string>)
    ensures name.Some? <==> colorId in {"1", "2", "3", "4", "5", "6", "7", "8", "9", "10", "11"}
  {
    match colorId
    case "1" => Some("blue")
    case "2" => Some("green")
    case "3" => Some("purple")
    case "4" => Some("red")
    case "5" => Some("yellow")
    case "6" => Some("orange")
    case "7" => Some("cyan")
    case "8" => Some("gray")
    case "9" => Some("blue")
    case "10" => Some("emerald")
    case "11" => Some("red")
    case _ => None
  }

  /** The colour family an event is drawn in: its palette colour, else green for focus and blue otherwise. */
  function EventColor(props: map<string, PropValue>): (name: string)
    ensures Prop(props, "colorId").Text? && Palette(Prop(props, "colorId").s).Some? ==>
              name == Palette(Prop(props, "colorId").s).value
    ensures !(Prop(props, "colorId").Text? && Palette(Prop(props, "colorId").s).Some?) ==>
              name == (if Truthy(Prop(props, "isFocusTime")) then "green" else "blue")
  {
    var colorId := Prop(props, "colorId");
    if colorId.Text? && Palette(colorId.s).Some? then Palette(colorId.s).value
    else if Truthy(Prop(props, "isFocusTime")) then "green"
    else "blue"
  }

  /** The text class of a colour family. */
  function TextClass(name: string): string { "text-" + name + "-800" }

  /** The background, border and hover classes of a colour family. */
  function ColorClasses(name: string): string {
    "bg-" + name + "-100 border-" + name + "-500 hover:bg-" + name + "-200"
  }

  /** Lines 262-286: the icon and title text colour, in the event's colour family. */
  function TextColor(props: map<string, PropValue>): (c: string)
    ensures Text.StartsWith(c, "text-") && Text.EndsWith(c, "-800") && |c| >= 9
    ensures c[5..|c| - 4] == EventColor(props)
  {
    TextClass(EventColor(props))
  }

  datatype Icon = Target | Users

  function EventIcon(props: map<string, PropValue>): (i: Icon)
    ensures i == Target <==> Truthy(Prop(props, "isFocusTime"))
  {
    if Truthy(Prop(props, "isFocusTime")) then Target else Users
  }

  const BaseClasses: string := "rounded shadow-sm border-l-4 p-0.5"

  /** Lines 299-331: the base classes and the background, border and hover classes of the colour. */
  function EventClassNames(props: map<string, PropValue>): (c: string)
    ensures Text.StartsWith(c, BaseClasses + " bg-" + EventColor(props) + "-100 ")
    ensures Text.EndsWith(c, " hover:bg-" + EventColor(props) + "-200")
  {
    BaseClasses + " " + ColorClasses(EventColor(props))
  }

  /** The background, border and hover classes are in the family the text colour names. */
  lemma TextAndBackgroundAgree(props: map<string, PropValue>)
    ensures var t := TextColor(props);
            EventClassNames(props) == BaseClasses + " " + ColorClasses(t[5..|t| - 4])
  {
  }

  /** An event without a known colour id is drawn green when it is focus time and blue otherwise. */
  lemma FallbackColors(props: map<string, PropValue>)
    requires !(Prop(props, "colorId").Text? && Palette(Prop(props, "colorId").s).Some?)
    ensures Truthy(Prop(props, "isFocusTime")) ==>
              TextColor(props) == TextClass("green") && EventClassNames(props) == BaseClasses + " " + ColorClasses("green")
    ensures !Truthy(Prop(props, "isFocusTime")) ==>
              TextColor(props) == TextClass("blue") && EventClassNames(props) == BaseClasses + " " + ColorClasses("blue")
  {
  }

  /** A known colour id decides the colours alone: the focus flag then changes only the icon. */
  lemma KnownColorIgnoresFocus(props: map<string, PropValue>, focus: bool)
    requires Prop(props, "colorId").Text? && Palette(Prop(props, "colorId").s).Some?
    ensures EventColor(props["isFocusTime" := Flag(focus)]) == Palette(Prop(props, "colorId").s).value
    ensures EventClassNames(props["isFocusTime" := Flag(focus)]) == EventClassNames(props)
    ensures TextColor(props["isFocusTime" := Flag(focus)]) == TextColor(props)
  {
    assert Prop(props["isFocusTime" := Flag(focus)], "colorId") == Prop(props, "colorId");
  }

  // ---------------------------------------------------------------------
  // Header title
  // ---------------------------------------------------------------------

  /** The range FullCalendar shows, in day numbers; `currentEnd` is exclusive. */
  datatype ViewRange = ViewRange(viewType: string, currentStart: int, currentEnd: int)

  /** Which date pattern the header uses and the dates it is applied to. */
  datatype HeaderTitle =
    | FullDay(day: int)                          // 'EEEE, MMMM d, yyyy'
    | MonthYear(day: int)                        // 'MMMM yyyy'
    | SameMonthRange(first: int, last: int)      // 'MMMM d' - 'd, yyyy'
    | CrossMonthRange(first: int, last: int)     // 'MMM d' - 'MMM d, yyyy'

  /** Lines 204-226: the header for the calendar's current range, or the month of `currentDate` before it is ready. */
  function Header(range: Option<ViewRange>, currentDate: int): (h: HeaderTitle)
    ensures range.None? ==> h == MonthYear(currentDate)
    ensures range.Some? && range.value.viewType == "timeGridDay" ==> h == FullDay(range.value.currentStart)
    ensures range.Some? && range.value.viewType == "dayGridMonth" ==> h == MonthYear(range.value.currentStart)
    ensures (h.SameMonthRange? || h.CrossMonthRange?) ==>
              range.Some? && h.first == range.value.currentStart && h.last == range.value.currentEnd - 1 &&
              (h.SameMonthRange? <==> IsSameMonth(h.first, h.last))
    ensures range.Some? && range.value.viewType != "timeGridDay" && range.value.viewType != "dayGridMonth" ==>
              h.SameMonthRange? || h.CrossMonthRange?
  {
    if range.None? then MonthYear(currentDate)
    else
      var start := range.value.currentStart;
      match range.value.viewType
      case "timeGridDay" => FullDay(start)
      case "dayGridMonth" => MonthYear(start)
      case _ =>
        var inclusiveEnd := range.value.currentEnd - 1;
        if IsSameMonth(start, inclusiveEnd) then SameMonthRange(start, inclusiveEnd)
        else CrossMonthRange(start, inclusiveEnd)
  }
}
