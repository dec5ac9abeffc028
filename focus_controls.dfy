/**
 * The focus controls sidebar: the duration label (`formatMinutes`), the
 * duration buttons and slider, the priority and session name that go into
 * the add-focus-time request, and the optimistic auto-schedule switch.
 */
module FocusControls {
  import opened Wrappers
  import opened Text
  import AddFocusTime
  import Time
  import JsMath

  /**
   * Lines 19-26: the hour part "Xh" when positive, the minute part "Ym" when
   * positive (after one space when there is an hour part), and "0m" when
   * neither is present.
   */
  function DurationLabel(hours: int, mins: int): (s: string)
    ensures hours <= 0 && mins <= 0 ==> s == "0m"
    ensures hours > 0 && mins <= 0 ==> s == NatToString(hours) + "h"
    ensures hours <= 0 && mins > 0 ==> s == NatToString(mins) + "m"
    ensures hours > 0 && mins > 0 ==> s == NatToString(hours) + "h" + " " + NatToString(mins) + "m"
  {
    var hourPart := if hours > 0 then IntToString(hours) + "h" else "";
    var minutePart := if mins > 0 then (if hours > 0 then " " else "") + IntToString(mins) + "m" else "";
    if hourPart + minutePart == "" then "0m" else hourPart + minutePart
  }

  /** Lines 16-27: `Math.floor(m / 60)` hours and `m % 60` minutes, labelled. */
  function FormatMinutes(m: int): (s: string)
    ensures m <= 0 ==> s == "0m"
    ensures m > 0 && m < 60 ==> s == NatToString(m) + "m"
    ensures m > 0 && m % 60 == 0 ==> s == NatToString(m / 60) + "h"
  {
    DurationLabel(m / 60, JsMath.Rem(m, 60))
  }

  /**
   * Reads a duration label back: "Xh", "Ym" or "Xh Ym" with decimal digits,
   * the inverse of `FormatMinutes` on non-negative minutes.
   */
  function ParseMinutes(s: string): (r: Option<int>)
    ensures r.Some? ==> r.value >= 0
  {
    if |s| < 2 then None
    else
      var body := s[..|s| - 1];
      if s[|s| - 1] == 'h' then
        if AllDigits(body) then Some(DigitsValue(body) * 60) else None
      else if s[|s| - 1] != 'm' then None
      else if AllDigits(body) then Some(DigitsValue(body))
      else
        var k := IndexOf(body, 'h');
        if 1 <= k && k + 2 < |body| && body[k + 1] == ' ' && AllDigits(body[..k]) && AllDigits(body[k + 2..])
        then Some(DigitsValue(body[..k]) * 60 + DigitsValue(body[k + 2..]))
        else None
  }

  /** Any "Xh Ym" of digit strings: the 'h' after the hour digits is the first one. */
  lemma {:induction false} HoursMinutesLabelParse(hs: string, ms: string)
    requires |hs| >= 1 && |ms| >= 1 && AllDigits(hs) && AllDigits(ms)
    ensures ParseMinutes(hs + "h" + " " + ms + "m") == Some(DigitsValue(hs) * 60 + DigitsValue(ms))
  {
    var s := hs + "h" + " " + ms + "m";
    var body := s[..|s| - 1];
    assert body == hs + "h" + " " + ms;
    assert body[|hs|] == 'h' && !IsDigit(body[|hs|]);
    assert forall i :: 0 <= i < |hs| ==> body[i] == hs[i];
    var k := IndexOf(body, 'h');
    assert k == |hs|;
    assert body[..k] == hs;
    assert body[k + 2..] == ms;
  }

  lemma {:induction false} HoursAndMinutesParse(h: nat, mins: nat)
    ensures ParseMinutes(NatToString(h) + "h" + " " + NatToString(mins) + "m") == Some(h * 60 + mins)
  {
    NatToStringRoundTrip(h);
    NatToStringRoundTrip(mins);
    HoursMinutesLabelParse(NatToString(h), NatToString(mins));
  }

  lemma {:induction false} HoursOnlyParse(h: nat)
    ensures ParseMinutes(NatToString(h) + "h") == Some(h * 60)
  {
    var s := NatToString(h) + "h";
    assert s[..|s| - 1] == NatToString(h);
    NatToStringRoundTrip(h);
  }

  lemma {:induction false} MinutesOnlyParse(n: nat)
    ensures ParseMinutes(NatToString(n) + "m") == Some(n)
  {
    var s := NatToString(n) + "m";
    assert s[..|s| - 1] == NatToString(n);
    NatToStringRoundTrip(n);
  }

  /** A label of non-negative parts reads back as the minutes it stands for. */
  lemma {:induction false} DurationLabelRoundTrip(hours: nat, mins: nat)
    ensures ParseMinutes(DurationLabel(hours, mins)) == Some(hours * 60 + mins)
  {
    if hours == 0 && mins == 0 {
      MinutesOnlyParse(0);
    } else if hours > 0 && mins > 0 {
      HoursAndMinutesParse(hours, mins);
    } else if hours > 0 {
      HoursOnlyParse(hours);
    } else {
      MinutesOnlyParse(mins);
    }
  }

  /** Every label of a non-negative duration reads back as that duration. */
  lemma {:induction false} FormatMinutesRoundTrip(m: int)
    requires m >= 0
    ensures ParseMinutes(FormatMinutes(m)) == Some(m)
  {
    DurationLabelRoundTrip(m / 60, m % 60);
  }

  /** Lines 78-95: the add request carries the duration, the name or nothing when it is empty, and the priority. */
  function AddRequest(duration: int, sessionName: string, priority: string): (b: AddFocusTime.AddRequestBody)
    ensures b.duration == AddFocusTime.Minutes(duration) && b.priority == Some(priority)
    ensures b.sessionName.None? <==> sessionName == ""
    ensures b.sessionName.Some? ==> b.sessionName.value == sessionName
    ensures AddFocusTime.AutoScheduled(b)
  {
    AddFocusTime.AddRequestBody(AddFocusTime.Minutes(duration),
                                if sessionName == "" then None else Some(sessionName),
                                Some(priority), Time.NoTime)
  }

  /**
   * What the add route makes of this sidebar's request: it is accepted
   * exactly when the duration is positive, it is searched for automatically,
   * a blank name gives the default summary, and the radio group's three
   * priorities give their own colours.
   */
  lemma {:induction false} AddRequestAsScheduled(duration: int, sessionName: string, priority: string)
    ensures AddFocusTime.ValidDuration(AddRequest(duration, sessionName, priority)).Some? <==> duration > 0
    ensures (forall i :: 0 <= i < |sessionName| ==> IsWhiteSpace(sessionName[i])) ==>
              AddFocusTime.EventSummary(AddRequest(duration, sessionName, priority).sessionName) ==
              AddFocusTime.DefaultSummary
    ensures priority == "high" ==> AddFocusTime.EventColorId(AddRequest(duration, sessionName, priority).priority) == "11"
    ensures priority == "medium" ==> AddFocusTime.EventColorId(AddRequest(duration, sessionName, priority).priority) == "5"
    ensures priority == "low" ==> AddFocusTime.EventColorId(AddRequest(duration, sessionName, priority).priority) == "2"
  {
    var b := AddRequest(duration, sessionName, priority);
    assert AddFocusTime.EffectivePriority(Some("high")) == "high";
    assert AddFocusTime.EffectivePriority(Some("medium")) == "medium";
    assert AddFocusTime.EffectivePriority(Some("low")) == "low";
  }

  class FocusControlsState {
    var duration: int
    var customDuration: seq<int>
    var isUsingCustomDuration: bool
    var autoSchedule: bool
    var isFetchingSettings: bool
    var priority: string
    var sessionName: string
    var isAddingFocusTime: bool
    var isUpdatingSettings: bool

    /** The slider always shows the selected duration first. */
    predicate Valid()
      reads this
    {
      |customDuration| >= 1 && duration == customDuration[0]
    }

    /** Lines 31-41: one hour, high priority, no name, auto-scheduling off until the settings arrive. */
    constructor ()
      ensures duration == 60 && customDuration == [60] && !isUsingCustomDuration
      ensures !autoSchedule && isFetchingSettings && priority == "high" && sessionName == ""
      ensures !isAddingFocusTime && !isUpdatingSettings
      ensures Valid()
    {
      duration := 60;
      customDuration := [60];
      isUsingCustomDuration := false;
      autoSchedule := false;
      isFetchingSettings := true;
      priority := "high";
      sessionName := "";
      isAddingFocusTime := false;
      isUpdatingSettings := false;
    }

    /**
     * Lines 44-64, after the settings request: `auto_schedule_enabled ?? false`
     * when it answered (`None` inside for a missing or null field), the
     * current value when it failed; loading ends either way.
     */
    method FinishFetchSettings(result: Option<Option<bool>>)
      modifies this
      ensures result.Some? ==> autoSchedule == result.value.GetOr(false)
      ensures result.None? ==> autoSchedule == old(autoSchedule)
      ensures !isFetchingSettings
      ensures duration == old(duration) && customDuration == old(customDuration)
      ensures isUsingCustomDuration == old(isUsingCustomDuration)
      ensures priority == old(priority) && sessionName == old(sessionName)
      ensures isAddingFocusTime == old(isAddingFocusTime) && isUpdatingSettings == old(isUpdatingSettings)
      ensures old(Valid()) ==> Valid()
    {
      if result.Some? {
        autoSchedule := result.value.GetOr(false);
      }
      isFetchingSettings := false;
    }

    /** Lines 66-70: a preset button selects its duration and leaves custom mode. */
    method HandleDurationButtonClick(value: int)
      modifies this
      ensures duration == value && customDuration == [value] && !isUsingCustomDuration
      ensures autoSchedule == old(autoSchedule) && isFetchingSettings == old(isFetchingSettings)
      ensures priority == old(priority) && sessionName == old(sessionName)
      ensures isAddingFocusTime == old(isAddingFocusTime) && isUpdatingSettings == old(isUpdatingSettings)
      ensures Valid()
    {
      duration := value;
      customDuration := [value];
      isUsingCustomDuration := false;
    }

    /** Lines 72-76: the slider's value becomes the duration and custom mode is on. */
    method HandleSliderChange(value: seq<int>)
      requires |value| >= 1
      modifies this
      ensures customDuration == value && duration == value[0] && isUsingCustomDuration
      ensures autoSchedule == old(autoSchedule) && isFetchingSettings == old(isFetchingSettings)
      ensures priority == old(priority) && sessionName == old(sessionName)
      ensures isAddingFocusTime == old(isAddingFocusTime) && isUpdatingSettings == old(isUpdatingSettings)
      ensures Valid()
    {
      customDuration := value;
      duration := value[0];
      isUsingCustomDuration := true;
    }

    /** Lines 78-95, up to the request: mark it in flight and build its body from the current selection. */
    method BeginAddFocusTime() returns (body: AddFocusTime.AddRequestBody)
      modifies this
      ensures body == AddRequest(duration, sessionName, priority)
      ensures isAddingFocusTime
      ensures duration == old(duration) && customDuration == old(customDuration)
      ensures isUsingCustomDuration == old(isUsingCustomDuration)
      ensures autoSchedule == old(autoSchedule) && isFetchingSettings == old(isFetchingSettings)
      ensures priority == old(priority) && sessionName == old(sessionName)
      ensures isUpdatingSettings == old(isUpdatingSettings)
    {
      isAddingFocusTime := true;
      body := AddRequest(duration, sessionName, priority);
    }

    /** Lines 113-116: the request is no longer in flight, whatever its outcome. */
    method FinishAddFocusTime()
      modifies this
      ensures !isAddingFocusTime
      ensures duration == old(duration) && customDuration == old(customDuration)
      ensures isUsingCustomDuration == old(isUsingCustomDuration)
      ensures autoSchedule == old(autoSchedule) && isFetchingSettings == old(isFetchingSettings)
      ensures priority == old(priority) && sessionName == old(sessionName)
      ensures isUpdatingSettings == old(isUpdatingSettings)
    {
      isAddingFocusTime := false;
    }

    /**
     * Lines 119-122: the switch shows the new value at once and the save is
     * marked in flight; the previous value is kept for a rollback.
     */
    method BeginAutoScheduleChange(checked: bool) returns (previous: bool)
      modifies this
      ensures previous == old(autoSchedule)
      ensures autoSchedule == checked && isUpdatingSettings
      ensures duration == old(duration) && customDuration == old(customDuration)
      ensures isUsingCustomDuration == old(isUsingCustomDuration) && isFetchingSettings == old(isFetchingSettings)
      ensures priority == old(priority) && sessionName == old(sessionName)
      ensures isAddingFocusTime == old(isAddingFocusTime)
    {
      previous := autoSchedule;
      autoSchedule := checked;
      isUpdatingSettings := true;
    }

    /**
     * Lines 124-146, after the response: the server's stored value on
     * success, the previous value on failure; the save is no longer in
     * flight either way.
     */
    method FinishAutoScheduleChange(previous: bool, saved: Option<bool>)
      modifies this
      ensures saved.Some? ==> autoSchedule == saved.value
      ensures saved.None? ==> autoSchedule == previous
      ensures !isUpdatingSettings
      ensures duration == old(duration) && customDuration == old(customDuration)
      ensures isUsingCustomDuration == old(isUsingCustomDuration) && isFetchingSettings == old(isFetchingSettings)
      ensures priority == old(priority) && sessionName == old(sessionName)
      ensures isAddingFocusTime == old(isAddingFocusTime)
    {
      if saved.Some? {
        autoSchedule := saved.value;
      } else {
        autoSchedule := previous;
      }
      isUpdatingSettings := false;
    }
  }
}
