/**
 * The event details sidebar's two labels: the date and time range and the
 * rounded duration. Instants are milliseconds since the epoch, as
 * `Date.getTime()` gives them; `null` is `None`.
 */
module EventDetails {
  import opened Wrappers
  import opened Text
  import JsMath
  import FocusControls

  const MillisecondsPerMinute: int := 1000 * 60

  /** Line 39: `Math.round(diffMs / (1000 * 60))`, the nearest whole minute with halves rounded up. */
  function RoundedMinutes(diffMs: int): (m: int)
    ensures m * MillisecondsPerMinute - MillisecondsPerMinute / 2 <= diffMs < m * MillisecondsPerMinute + MillisecondsPerMinute / 2
  {
    JsMath.RoundDiv(diffMs, MillisecondsPerMinute)
  }

  /**
   * Lines 36-50: 'N/A' without both ends; otherwise the rounded length in
   * minutes, labelled like the duration control. A length that rounds to
   * zero or less reads "0m", because `%` keeps the dividend's sign.
   */
  function CalculateDuration(start: Option<int>, end: Option<int>): (s: string)
    ensures start.None? || end.None? ==> s == "N/A"
    ensures start.Some? && end.Some? && RoundedMinutes(end.value - start.value) <= 0 ==> s == "0m"
  {
    if start.None? || end.None? then "N/A"
    else FocusControls.FormatMinutes(RoundedMinutes(end.value - start.value))
  }

  /**
   * A present range never reads 'N/A', and its label reads back as the
   * rounded number of minutes whenever that is not negative.
   */
  lemma DurationReadsBack(start: int, end: int)
    requires end - start >= 0
    ensures CalculateDuration(Some(start), Some(end)) != "N/A"
    ensures FocusControls.ParseMinutes(CalculateDuration(Some(start), Some(end))) ==
            Some(RoundedMinutes(end - start))
  {
    var m := RoundedMinutes(end - start);
    assert m >= 0;
    assert CalculateDuration(Some(start), Some(end)) == FocusControls.FormatMinutes(m);
    FocusControls.FormatMinutesRoundTrip(m);
  }

  const NoStartTime: string := "No start time"
  const NoEndTime: string := "No end time"

  /**
   * Lines 27-33. `format(date, pattern)` from date-fns is the parameter
   * `format`: the start's long date ('PPP') and time ('p'), then the end's
   * time or 'No end time'.
   */
  function FormatDateTimeRange(start: Option<int>, end: Option<int>, format: (int, string) -> string): (s: string)
    ensures start.None? ==> s == NoStartTime
    ensures start.Some? ==> StartsWith(s, format(start.value, "PPP") + ", " + format(start.value, "p") + " - ")
    ensures start.Some? && end.None? ==> EndsWith(s, NoEndTime)
    ensures start.Some? && end.Some? ==> EndsWith(s, " - " + format(end.value, "p"))
  {
    if start.None? then NoStartTime
    else
      var startDate := format(start.value, "PPP");
      var startTime := format(start.value, "p");
      var endTime := if end.Some? then format(end.value, "p") else NoEndTime;
      var s := startDate + ", " + startTime + " - " + endTime;
      assert s[..|startDate + ", " + startTime + " - "|] == startDate + ", " + startTime + " - ";
      assert s[|s| - |" - " + endTime|..] == " - " + endTime;
      s
  }
}
