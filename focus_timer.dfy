/**
 * The focus timer: a seconds counter that grows by one per tick while the
 * timer runs, shown as "HH:MM:SS".
 */
module FocusTimer {
  import opened Wrappers
  import opened Text
  import JsMath

  /**
   * Lines 6-8: `Math.floor(s / 3600)`, `Math.floor((s % 3600) / 60)` and
   * `s % 60`. For a non-negative count the three parts recompose it, with
   * minutes and seconds below 60.
   */
  function ClockParts(totalSeconds: int): (parts: (int, int, int))
    ensures totalSeconds >= 0 ==>
              parts.0 >= 0 && 0 <= parts.1 < 60 && 0 <= parts.2 < 60 &&
              parts.0 * 3600 + parts.1 * 60 + parts.2 == totalSeconds
  {
    var hours := totalSeconds / 3600;
    var minutes := JsMath.Rem(totalSeconds, 3600) / 60;
    var seconds := JsMath.Rem(totalSeconds, 60);
    if totalSeconds >= 0 then
      assert totalSeconds == hours * 3600 + totalSeconds % 3600;
      assert totalSeconds % 3600 == minutes * 60 + (totalSeconds % 3600) % 60;
      assert (hours * 3600 + minutes * 60 + (totalSeconds % 3600) % 60) % 60 == (totalSeconds % 3600) % 60;
      (hours, minutes, seconds)
    else
      (hours, minutes, seconds)
  }

  /** Lines 10-12: `String(n).padStart(2, '0')`. */
  function Padded(n: int): string {
    PadStart(IntToString(n), 2, '0')
  }

  /** Line 14: the three padded parts joined by ':'. */
  function FormatTime(totalSeconds: int): (t: string)
    ensures totalSeconds >= 0 ==> |t| >= 8 && t[|t| - 3] == ':' && t[|t| - 6] == ':'
  {
    var parts := ClockParts(totalSeconds);
    if totalSeconds >= 0 then
      PaddedDigits(parts.0);
      PaddedDigits(parts.1);
      PaddedDigits(parts.2);
      Padded(parts.0) + ":" + Padded(parts.1) + ":" + Padded(parts.2)
    else
      Padded(parts.0) + ":" + Padded(parts.1) + ":" + Padded(parts.2)
  }

  /**
   * A padded part of a non-negative number: at least two digits, exactly
   * two below 100, never cut short, and worth the number itself.
   */
  lemma {:induction false} PaddedDigits(n: nat)
    ensures |Padded(n)| >= 2 && AllDigits(Padded(n)) && DigitsValue(Padded(n)) == n
    ensures n < 100 ==> |Padded(n)| == 2
  {
    var s := NatToString(n);
    NatToStringRoundTrip(n);
    if n < 10 {
      assert Padded(n) == "0" + s;
      LeadingZeroValue(s);
    } else {
      assert Padded(n) == s;
    }
  }

  /** Reads "H…H:MM:SS" back as a number of seconds. */
  function ParseClock(t: string): (r: Option<int>)
    ensures r.Some? ==> r.value >= 0
  {
    if |t| < 8 then None
    else
      var hs := t[..|t| - 6];
      var ms := t[|t| - 5..|t| - 3];
      var ss := t[|t| - 2..];
      if t[|t| - 6] == ':' && t[|t| - 3] == ':' && AllDigits(hs) && AllDigits(ms) && AllDigits(ss)
      then Some(DigitsValue(hs) * 3600 + DigitsValue(ms) * 60 + DigitsValue(ss))
      else None
  }

  /** Any "H…H:MM:SS" of digit strings reads back as its number of seconds. */
  lemma {:induction false} ClockLabelParse(hs: string, ms: string, ss: string)
    requires |hs| >= 2 && |ms| == 2 && |ss| == 2 && AllDigits(hs) && AllDigits(ms) && AllDigits(ss)
    ensures ParseClock(hs + ":" + ms + ":" + ss) ==
            Some(DigitsValue(hs) * 3600 + DigitsValue(ms) * 60 + DigitsValue(ss))
  {
    var t := hs + ":" + ms + ":" + ss;
    assert t[..|t| - 6] == hs;
    assert t[|t| - 5..|t| - 3] == ms;
    assert t[|t| - 2..] == ss;
  }

  /** The clock of any non-negative count reads back as that count, however many hours it holds. */
  lemma {:induction false} FormatTimeRoundTrip(totalSeconds: int)
    requires totalSeconds >= 0
    ensures ParseClock(FormatTime(totalSeconds)) == Some(totalSeconds)
  {
    var parts := ClockParts(totalSeconds);
    PaddedDigits(parts.0);
    PaddedDigits(parts.1);
    PaddedDigits(parts.2);
    var hs, ms, ss := Padded(parts.0), Padded(parts.1), Padded(parts.2);
    assert FormatTime(totalSeconds) == hs + ":" + ms + ":" + ss;
    ClockLabelParse(hs, ms, ss);
    assert DigitsValue(hs) == parts.0 && DigitsValue(ms) == parts.1 && DigitsValue(ss) == parts.2;
  }

  class Timer {
    var elapsedSeconds: int
    var isActive: bool

    /** Lines 29-33: the count starts at `initialSeconds` (0 by default) and the timer is stopped. */
    constructor (initialSeconds: Option<int>)
      ensures elapsedSeconds == initialSeconds.GetOr(0) && !isActive
    {
      elapsedSeconds := initialSeconds.GetOr(0);
      isActive := false;
    }

    /**
     * Lines 37-41: the interval callback. The interval exists only while
     * the timer runs, so a stopped timer does not count.
     */
    method Tick()
      modifies this
      ensures elapsedSeconds == old(elapsedSeconds) + (if isActive then 1 else 0)
      ensures isActive == old(isActive)
    {
      if isActive {
        elapsedSeconds := elapsedSeconds + 1;
      }
    }

    /** Line 57: start, keeping the count. */
    method Start()
      modifies this
      ensures isActive && elapsedSeconds == old(elapsedSeconds)
    {
      isActive := true;
    }

    /** Line 58: pause, keeping the count. */
    method Pause()
      modifies this
      ensures !isActive && elapsedSeconds == old(elapsedSeconds)
    {
      isActive := false;
    }

    /** What the timer shows (line 63). */
    function Display(): (t: string)
      reads this
      ensures elapsedSeconds >= 0 ==> ParseClock(t) == Some(elapsedSeconds)
    {
      FormatTimeRoundTrip(if elapsedSeconds >= 0 then elapsedSeconds else 0);
      FormatTime(elapsedSeconds)
    }
  }
}
