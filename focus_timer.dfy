/**
 * The focus timer component: the clock text it renders for a duration, the
 * duration it shows in each timer state, and the "total today" line.
 */
module FocusTimer {
  import opened Wrappers
  import opened Text
  import opened JsNumber

  /** The fields `formatDuration` computes. */
  datatype Clock = Clock(hours: int, minutes: int, seconds: int)

  /** `Math.floor(ms / 1000)`, then hours, `% 3600` minutes and `% 60` seconds. */
  function Decompose(ms: int): (c: Clock)
    ensures ms >= 0 ==> c.hours >= 0 && 0 <= c.minutes < 60 && 0 <= c.seconds < 60
    ensures ms >= 0 ==> c.hours * 3600 + c.minutes * 60 + c.seconds == ms / 1000
  {
    var totalSeconds := ms / 1000;
    var c := Clock(totalSeconds / 3600, Rem(totalSeconds, 3600) / 60, Rem(totalSeconds, 60));
    if ms >= 0 then
      HoursMinutesSeconds(totalSeconds);
      c
    else c
  }

  /** Splitting whole seconds at the hour, then the minute, recomposes them. */
  lemma HoursMinutesSeconds(t: nat)
    ensures t == (t / 3600) * 3600 + ((t % 3600) / 60) * 60 + t % 60
    ensures t % 60 == (t % 3600) % 60
  {
    var r := t % 3600;
    assert t == 3600 * (t / 3600) + r;
    assert r == 60 * (r / 60) + r % 60;
    assert t == 60 * (60 * (t / 3600) + r / 60) + r % 60;
  }

  /** `formatDuration`: `H:MM:SS` when there are hours, otherwise `M:SS`. */
  function FormatDuration(ms: int): string
  {
    var c := Decompose(ms);
    if c.hours > 0 then
      IntToString(c.hours) + ":" + PadStart2(IntToString(c.minutes)) + ":" + PadStart2(IntToString(c.seconds))
    else
      IntToString(c.minutes) + ":" + PadStart2(IntToString(c.seconds))
  }

  lemma SmallRendering(n: nat)
    requires n < 60
    ensures 1 <= |NatToString(n)| <= 2
  {
    if n >= 10 {
      assert Pow10(1) == 10 && Pow10(2) == 100;
      NatToStringLength(n, 2);
    }
  }

  /** A two-digit field of the clock reads back as its number. */
  lemma FieldReadsBack(n: nat)
    requires n < 60
    ensures var f := PadStart2(NatToString(n));
            |f| == 2 && AllDigits(f) && ParseDigits(f) == n && ':' !in f
  {
    SmallRendering(n);
    PadStart2Digits(NatToString(n));
    ParseNatToString(n);
    DigitsExclude(PadStart2(NatToString(n)), ':');
  }

  /** `H:MM:SS` splits into its three fields, which read back as the numbers. */
  lemma HoursTextReadsBack(h: nat, m: nat, sec: nat)
    requires m < 60 && sec < 60
    ensures var parts := Split(NatToString(h) + ":" + PadStart2(NatToString(m)) + ":" + PadStart2(NatToString(sec)), ':');
            && |parts| == 3
            && AllDigits(parts[0]) && AllDigits(parts[1]) && AllDigits(parts[2])
            && |parts[1]| == 2 && |parts[2]| == 2
            && ParseDigits(parts[0]) == h && ParseDigits(parts[1]) == m && ParseDigits(parts[2]) == sec
  {
    var hs, mm, ss := NatToString(h), PadStart2(NatToString(m)), PadStart2(NatToString(sec));
    FieldReadsBack(m);
    FieldReadsBack(sec);
    ParseNatToString(h);
    DigitsExclude(hs, ':');
    Split3(hs, mm, ss, ':');
  }

  /** `M:SS` splits into its two fields, which read back as the numbers. */
  lemma MinutesTextReadsBack(m: nat, sec: nat)
    requires sec < 60
    ensures var parts := Split(NatToString(m) + ":" + PadStart2(NatToString(sec)), ':');
            && |parts| == 2
            && AllDigits(parts[0]) && AllDigits(parts[1])
            && |parts[1]| == 2
            && ParseDigits(parts[0]) == m && ParseDigits(parts[1]) == sec
  {
    var ms, ss := NatToString(m), PadStart2(NatToString(sec));
    FieldReadsBack(sec);
    ParseNatToString(m);
    DigitsExclude(ms, ':');
    Split2(ms, ss, ':');
  }

  /**
   * For a non-negative duration the text splits at ':' into two fields, or
   * three when there are hours; every field after the first has two digits,
   * and the fields read back as hours, minutes and seconds that recompose
   * the whole seconds of the duration.
   */
  lemma FormatDurationReadsBack(ms: int)
    requires ms >= 0
    ensures var c := Decompose(ms);
            var parts := Split(FormatDuration(ms), ':');
            && c.hours * 3600 + c.minutes * 60 + c.seconds == ms / 1000
            && |parts| == (if c.hours > 0 then 3 else 2)
            && AllDigits(parts[0]) && AllDigits(parts[1]) && AllDigits(parts[|parts| - 1])
            && |parts[|parts| - 1]| == 2
            && ParseDigits(parts[|parts| - 1]) == c.seconds
            && (c.hours > 0 ==> ParseDigits(parts[0]) == c.hours && |parts[1]| == 2 && ParseDigits(parts[1]) == c.minutes)
            && (c.hours == 0 ==> ParseDigits(parts[0]) == c.minutes)
  {
    var c := Decompose(ms);
    var text := FormatDuration(ms);
    if c.hours > 0 {
      assert text == NatToString(c.hours) + ":" + PadStart2(NatToString(c.minutes)) + ":" + PadStart2(NatToString(c.seconds));
      HoursTextReadsBack(c.hours, c.minutes, c.seconds);
    } else {
      assert text == NatToString(c.minutes) + ":" + PadStart2(NatToString(c.seconds));
      MinutesTextReadsBack(c.minutes, c.seconds);
    }
  }

  /** The timer states the component distinguishes. */
  datatype TimerState = Idle | Active | Paused

  /** A number is truthy when present and not zero. */
  predicate NumTruthy(o: Option<int>)
  {
    o.Some? && o.value != 0
  }

  /** `currentDuration` and the interval the effect keeps running. */
  class TimerDisplay {
    var currentDuration: int
    /** The start and paused time the running interval captured, if one runs. */
    var ticking: Option<(int, int)>

    constructor ()
      ensures currentDuration == 0 && ticking == None
    {
      currentDuration := 0;
      ticking := None;
    }

    /**
     * The effect on a change of state: the previous interval is cleared;
     * active starts a new one, paused freezes the shown duration, idle shows
     * zero, anything else keeps the shown value.
     */
    method Effect(state: TimerState, sessionStart: Option<int>, pauseStart: Option<int>, totalPaused: int)
      modifies this
      ensures state == Active && NumTruthy(sessionStart) ==>
                ticking == Some((sessionStart.value, totalPaused)) && currentDuration == old(currentDuration)
      ensures !(state == Active && NumTruthy(sessionStart)) ==> ticking == None
      ensures state == Paused && NumTruthy(sessionStart) && NumTruthy(pauseStart) ==>
                currentDuration == pauseStart.value - sessionStart.value - totalPaused
      ensures state == Idle ==> currentDuration == 0
      ensures state == Active && !NumTruthy(sessionStart) ==> currentDuration == old(currentDuration)
      ensures state == Paused && !(NumTruthy(sessionStart) && NumTruthy(pauseStart)) ==> currentDuration == old(currentDuration)
    {
      ticking := None;
      if state == Active && NumTruthy(sessionStart) {
        ticking := Some((sessionStart.value, totalPaused));
      } else if state == Paused && NumTruthy(sessionStart) && NumTruthy(pauseStart) {
        currentDuration := pauseStart.value - sessionStart.value - totalPaused;
      } else if state == Idle {
        currentDuration := 0;
      }
    }

    /** One tick of the interval at time `now`: elapsed time less the paused time. */
    method Tick(now: int)
      modifies this
      ensures ticking == old(ticking)
      ensures old(ticking).Some? ==> currentDuration == now - old(ticking).value.0 - old(ticking).value.1
      ensures old(ticking).None? ==> currentDuration == old(currentDuration)
    {
      if ticking.Some? {
        currentDuration := now - ticking.value.0 - ticking.value.1;
      }
    }
  }

  /** The "total today" line: shown only for a positive total, with the duration in the template's placeholder. */
  function TotalTodayLine(totalFocusToday: int, template: string): (line: Option<string>)
    ensures line.Some? <==> totalFocusToday > 0
    ensures line.Some? && IndexOfText(template, "{duration}").Some? ==>
              var i := IndexOfText(template, "{duration}").value;
              line.value == template[..i] + FormatDuration(totalFocusToday) + template[i + 10..]
    ensures line.Some? && IndexOfText(template, "{duration}").None? ==> line.value == template
  {
    ReplaceFirstAt(template, "{duration}", FormatDuration(totalFocusToday));
    if totalFocusToday > 0 then Some(ReplaceFirst(template, "{duration}", FormatDuration(totalFocusToday))) else None
  }
}
