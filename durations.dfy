/** Durations and clock times as the planning and recipe pages show them:
    `formatTime` (app/planning/page.tsx and its copy in app/recipes/page.tsx),
    `calculateEndTime`, and the rule that a duration chip appears only for a
    positive duration. */
module Durations {
  import opened Wrappers
  import opened Text

  // ---------------------------------------------------------------------------
  // formatTime

  /** `formatTime(minutes)`: `"{m}min"` under an hour, otherwise hours and the
      unpadded remaining minutes, the minutes dropped when there are none. */
  function FormatTime(minutes: int): string {
    if minutes < 60 then IntToString(minutes) + "min"
    else
      var hours := minutes / 60;
      var mins := minutes % 60;
      if mins > 0 then IntToString(hours) + "h" + IntToString(mins) else IntToString(hours) + "h"
  }

  /** Reads a duration in the notation `FormatTime` writes. */
  function ReadDuration(s: string): Option<int> {
    if |s| >= 3 && s[|s| - 3..] == "min" then ParseInt(s[..|s| - 3])
    else
      var parts := Split(s, 'h');
      if |parts| == 2 && |parts[0]| > 0 && AllDigits(parts[0]) && AllDigits(parts[1]) then
        Some(60 * DigitsValue(parts[0]) + DigitsValue(parts[1]))
      else None
  }

  /** Every duration, negative ones included, reads back from its rendering. */
  lemma FormatTimeRoundTrip(minutes: int)
    ensures ReadDuration(FormatTime(minutes)) == Some(minutes)
  {
    if minutes < 60 {
      UnderAnHourRoundTrip(minutes);
    } else if minutes % 60 > 0 {
      HoursAndMinutesRoundTrip(minutes);
    } else {
      WholeHoursRoundTrip(minutes);
    }
  }

  lemma UnderAnHourRoundTrip(minutes: int)
    requires minutes < 60
    ensures ReadDuration(FormatTime(minutes)) == Some(minutes)
  {
    var s, q := FormatTime(minutes), IntToString(minutes);
    assert s[|s| - 3..] == "min" && s[..|s| - 3] == q;
    IntToStringRoundTrip(minutes);
  }

  lemma HoursAndMinutesRoundTrip(minutes: int)
    requires minutes >= 60 && minutes % 60 > 0
    ensures ReadDuration(FormatTime(minutes)) == Some(minutes)
  {
    var hours, mins := minutes / 60, minutes % 60;
    var s, hs, ms := FormatTime(minutes), NatToString(hours), NatToString(mins);
    NoSeparator(hs, 'h');
    NoSeparator(ms, 'h');
    assert s == hs + ['h'] + ms;
    assert s[|s| - 1] == ms[|ms| - 1];
    assert s[|s| - 3..][2] == s[|s| - 1];
    SplitPiece(hs, 'h', ms);
    SplitNoSeparator(ms, 'h');
    NatToStringRoundTrip(hours);
    NatToStringRoundTrip(mins);
  }

  lemma WholeHoursRoundTrip(minutes: int)
    requires minutes >= 60 && minutes % 60 == 0
    ensures ReadDuration(FormatTime(minutes)) == Some(minutes)
  {
    var hours := minutes / 60;
    var s, hs := FormatTime(minutes), NatToString(hours);
    assert s == hs + "h";
    assert !(|s| >= 3 && s[|s| - 3..] == "min") by {
      if |s| >= 3 {
        assert s[|s| - 3..][2] == s[|s| - 1] == 'h';
      }
    }
    NoSeparator(hs, 'h');
    SplitPiece(hs, 'h', "");
    assert hs + ['h'] + "" == s;
    assert Split(s, 'h') == [hs, ""];
    NatToStringRoundTrip(hours);
    assert DigitsValue("") == 0;
  }

  /** A string of digits holds no separator that is not a digit. */
  lemma NoSeparator(p: string, sep: char)
    requires AllDigits(p) && !IsDigit(sep)
    ensures sep !in p
  {
    forall k | 0 <= k < |p| ensures p[k] != sep {
      assert IsDigit(p[k]);
    }
  }

  /** Two durations never render alike. */
  lemma FormatTimeInjective(a: int, b: int)
    requires FormatTime(a) == FormatTime(b)
    ensures a == b
  {
    FormatTimeRoundTrip(a);
    FormatTimeRoundTrip(b);
  }

  lemma FormatTimeExamples()
    ensures FormatTime(45) == "45min"
    ensures FormatTime(60) == "1h"
    ensures FormatTime(65) == "1h5"
    ensures FormatTime(90) == "1h30"
  {
  }

  // ---------------------------------------------------------------------------
  // calculateEndTime

  /** `Number(s)` on one piece of a start time: decimal digits, where the empty
      text reads as 0, optionally after a minus sign; anything else is NaN (`None`). */
  function JsNumber(s: string): Option<int> {
    if AllDigits(s) then Some(DigitsValue(s))
    else if |s| > 1 && s[0] == '-' && AllDigits(s[1..]) then Some(-(DigitsValue(s[1..]) as int))
    else None
  }

  /** The `%` operator of JavaScript on integers: the remainder takes the sign
      of the dividend. */
  function JsRem(a: int, b: int): (r: int)
    requires b > 0
    ensures -b < r < b
    ensures a >= 0 ==> r == a % b
    ensures a < 0 ==> r <= 0
  {
    if a >= 0 then a % b else -((-a) % b)
  }

  /** The hours and minutes the start time holds: the first two `:`-separated
      pieces, read by `Number` (a missing piece is `undefined`, hence NaN). */
  function StartMinutes(startTime: string): Option<int> {
    StartFromPieces(Split(startTime, ':'))
  }

  function StartFromPieces(parts: seq<string>): Option<int>
    requires |parts| > 0
  {
    var hours := JsNumber(parts[0]);
    var minutes := if |parts| > 1 then JsNumber(parts[1]) else None;
    if hours.None? || minutes.None? then None else Some(hours.value * 60 + minutes.value)
  }

  /** `calculateEndTime(startTime, totalMinutes)`: the clock time `totalMinutes`
      after the start, with the day dropped; NaN when the start cannot be read. */
  function CalculateEndTime(startTime: string, totalMinutes: int): string {
    EndFromStart(StartMinutes(startTime), totalMinutes)
  }

  function EndFromStart(start: Option<int>, totalMinutes: int): string {
    match start
    case None => "NaN:NaN"
    case Some(minutes) => ClockText(minutes + totalMinutes)
  }

  /** The `HH:MM` text for `totalMins` minutes after midnight of some day. */
  function ClockText(totalMins: int): string {
    ClockFace(JsRem(totalMins / 60, 24), JsRem(totalMins, 60))
  }

  /** `${pad(hours)}:${pad(minutes)}`. */
  function ClockFace(hours: int, minutes: int): string {
    PadStart2(IntToString(hours)) + ":" + PadStart2(IntToString(minutes))
  }

  /** Reads an `HH:MM` clock time (hours 0-23, minutes 0-59, two digits each)
      as minutes since midnight. */
  function ReadClock(s: string): Option<nat> {
    var parts := Split(s, ':');
    if |parts| == 2 && |parts[0]| == 2 && |parts[1]| == 2 && AllDigits(parts[0]) && AllDigits(parts[1])
       && DigitsValue(parts[0]) < 24 && DigitsValue(parts[1]) < 60
    then Some(60 * DigitsValue(parts[0]) + DigitsValue(parts[1]))
    else None
  }

  /** `String(n).padStart(2, '0')` for `n < 100`: two digits spelling `n`. */
  lemma PadTwo(n: nat)
    requires n < 100
    ensures |PadStart2(IntToString(n))| == 2 && AllDigits(PadStart2(IntToString(n)))
    ensures DigitsValue(PadStart2(IntToString(n))) == n
  {
    var s := NatToString(n);
    if n < 10 {
      var p := PadStart2(s);
      assert p == "0" + [DigitChar(n)];
      assert p[..1] == "0";
      assert DigitsValue("0") == 0 by {
        assert "0"[..0] == "";
      }
    } else {
      assert s == NatToString(n / 10) + [DigitChar(n % 10)];
      NatToStringRoundTrip(n);
    }
  }

  /** For a non-negative count of minutes, the text is a well-formed `HH:MM`
      time: the count modulo 24 hours. */
  lemma ClockTextReads(t: int)
    requires t >= 0
    ensures |ClockText(t)| == 5
    ensures ReadClock(ClockText(t)) == Some(t % 1440)
  {
    var q, h, m := t / 60, (t / 60) % 24, t % 60;
    PadTwo(h);
    PadTwo(m);
    var ph, pm := PadStart2(IntToString(h)), PadStart2(IntToString(m));
    assert ClockText(t) == ph + [':'] + pm;
    NoSeparator(ph, ':');
    NoSeparator(pm, ':');
    SplitPiece(ph, ':', pm);
    SplitNoSeparator(pm, ':');
    MinuteOfDay(t);
  }

  lemma MinuteOfDay(t: int)
    requires t >= 0
    ensures 60 * ((t / 60) % 24) + t % 60 == t % 1440
  {
    var q, h, m := t / 60, (t / 60) % 24, t % 60;
    assert t == 60 * q + m;
    assert q == 24 * (q / 24) + h;
    assert t == 1440 * (q / 24) + (60 * h + m);
    assert 0 <= 60 * h + m < 1440;
  }

  /** For a readable start and a non-negative end, the end time is a
      well-formed `HH:MM` time: the start plus the duration, modulo 24 hours. */
  lemma EndTimeIsClock(startTime: string, totalMinutes: int)
    requires StartMinutes(startTime).Some?
    requires StartMinutes(startTime).value + totalMinutes >= 0
    ensures |CalculateEndTime(startTime, totalMinutes)| == 5
    ensures ReadClock(CalculateEndTime(startTime, totalMinutes)) ==
            Some((StartMinutes(startTime).value + totalMinutes) % 1440)
  {
    var t := StartMinutes(startTime).value + totalMinutes;
    assert CalculateEndTime(startTime, totalMinutes) == ClockText(t);
    ClockTextReads(t);
  }

  /** A day later, the hour and the minute are the same. */
  lemma ClockWrapsDaily(later: int, t: int)
    requires t >= 0 && later == t + 1440
    ensures JsRem(later / 60, 24) == JsRem(t / 60, 24)
    ensures JsRem(later, 60) == JsRem(t, 60)
  {
    assert later / 60 == t / 60 + 24;
  }

  lemma EndFromStartWraps(start: int, totalMinutes: int)
    requires start + totalMinutes >= 0
    ensures EndFromStart(Some(start), totalMinutes + 1440) == EndFromStart(Some(start), totalMinutes)
  {
    var t, later := start + totalMinutes, start + (totalMinutes + 1440);
    ClockWrapsDaily(later, t);
    ClockTextOfFace(later, JsRem(t / 60, 24), JsRem(t, 60));
    ClockTextOfFace(t, JsRem(t / 60, 24), JsRem(t, 60));
  }

  lemma ClockTextOfFace(t: int, hours: int, minutes: int)
    requires JsRem(t / 60, 24) == hours && JsRem(t, 60) == minutes
    ensures ClockText(t) == ClockFace(hours, minutes)
  {
  }

  /** A whole day more ends at the same clock time. */
  lemma EndTimeWrapsDaily(startTime: string, totalMinutes: int)
    requires StartMinutes(startTime).Some?
    requires StartMinutes(startTime).value + totalMinutes >= 0
    ensures CalculateEndTime(startTime, totalMinutes + 1440) == CalculateEndTime(startTime, totalMinutes)
  {
    EndFromStartWraps(StartMinutes(startTime).value, totalMinutes);
  }

  /** How `HH:MM:SS` splits, for pieces free of `:`. */
  lemma SplitWithSeconds(hh: string, mm: string, ss: string)
    requires ':' !in hh && ':' !in mm
    ensures Split(hh + ":" + mm + ":" + ss, ':') == [hh, mm] + Split(ss, ':')
  {
    assert hh + ":" + mm + ":" + ss == hh + [':'] + (mm + [':'] + ss);
    SplitPiece(hh, ':', mm + [':'] + ss);
    SplitPiece(mm, ':', ss);
  }

  /** How `HH:MM` splits, for pieces free of `:`. */
  lemma SplitClock(hh: string, mm: string)
    requires ':' !in hh && ':' !in mm
    ensures Split(hh + ":" + mm, ':') == [hh, mm]
  {
    assert hh + ":" + mm == hh + [':'] + mm;
    SplitPiece(hh, ':', mm);
    SplitNoSeparator(mm, ':');
  }

  /** Only the first two pieces are read: a seconds field changes nothing. */
  lemma SecondsIgnored(hh: string, mm: string, ss: string, totalMinutes: int)
    requires ':' !in hh && ':' !in mm
    ensures CalculateEndTime(hh + ":" + mm + ":" + ss, totalMinutes) == CalculateEndTime(hh + ":" + mm, totalMinutes)
  {
    SplitWithSeconds(hh, mm, ss);
    SplitClock(hh, mm);
    assert StartMinutes(hh + ":" + mm + ":" + ss) == StartMinutes(hh + ":" + mm);
  }

  lemma StartExample()
    ensures StartMinutes("23:00") == Some(1380)
  {
    assert "23:00" == "23" + [':'] + "00";
    SplitPiece("23", ':', "00");
    SplitNoSeparator("00", ':');
    assert DigitsValue("23") == 23 by {
      assert "23"[..1] == "2";
      assert "2"[..0] == "";
    }
    assert DigitsValue("00") == 0 by {
      assert "00"[..1] == "0";
      assert "0"[..0] == "";
    }
  }

  lemma ClockExample()
    ensures ClockText(1500) == "01:00"
  {
    assert JsRem(1500 / 60, 24) == 1;
    assert JsRem(1500, 60) == 0;
    assert IntToString(1) == "1" && IntToString(0) == "0";
  }

  /** Past midnight the day is dropped. */
  lemma EndTimeExample()
    ensures CalculateEndTime("23:00", 120) == "01:00"
  {
    StartExample();
    ClockExample();
  }

  // ---------------------------------------------------------------------------
  // Duration chips

  datatype Stage = Prep | Rest | Baking

  /** One chip of the timeline: the stage and the formatted duration. */
  datatype Chip = Chip(stage: Stage, minutes: int, text: string)

  function ChipIf(stage: Stage, minutes: int): seq<Chip> {
    if minutes > 0 then [Chip(stage, minutes, FormatTime(minutes))] else []
  }

  /** The chips of a recipe: preparation, rest and baking, each only when
      positive. */
  function Chips(prep: int, rest: int, baking: int): seq<Chip> {
    ChipIf(Prep, prep) + ChipIf(Rest, rest) + ChipIf(Baking, baking)
  }

  function StageMinutes(stage: Stage, prep: int, rest: int, baking: int): int {
    match stage
    case Prep => prep
    case Rest => rest
    case Baking => baking
  }

  /** A stage has a chip exactly when its duration is positive; the chip shows
      that duration; chips keep the order preparation, rest, baking. */
  lemma ChipsShown(prep: int, rest: int, baking: int)
    ensures forall stage ::
              (exists k :: 0 <= k < |Chips(prep, rest, baking)| && Chips(prep, rest, baking)[k].stage == stage)
              <==> StageMinutes(stage, prep, rest, baking) > 0
    ensures forall c :: c in Chips(prep, rest, baking) ==>
              c.minutes == StageMinutes(c.stage, prep, rest, baking) && c.text == FormatTime(c.minutes)
    ensures |Chips(prep, rest, baking)| <= 3
    ensures forall i, j :: 0 <= i < j < |Chips(prep, rest, baking)| ==>
              StageRank(Chips(prep, rest, baking)[i].stage) < StageRank(Chips(prep, rest, baking)[j].stage)
  {
    ChipsPresent(prep, rest, baking);
    ChipsContent(prep, rest, baking);
    ChipsOrdered(prep, rest, baking);
  }

  lemma ChipsPresent(prep: int, rest: int, baking: int)
    ensures forall stage ::
              (exists k :: 0 <= k < |Chips(prep, rest, baking)| && Chips(prep, rest, baking)[k].stage == stage)
              <==> StageMinutes(stage, prep, rest, baking) > 0
  {
    var a, b, c := ChipIf(Prep, prep), ChipIf(Rest, rest), ChipIf(Baking, baking);
    var cs := Chips(prep, rest, baking);
    assert cs == a + b + c;
    forall stage ensures
      (exists k :: 0 <= k < |cs| && cs[k].stage == stage) <==> StageMinutes(stage, prep, rest, baking) > 0
    {
      if StageMinutes(stage, prep, rest, baking) > 0 {
        var before := match stage
          case Prep => 0
          case Rest => |a|
          case Baking => |a| + |b|;
        assert cs[before].stage == stage;
      }
    }
  }

  lemma ChipsContent(prep: int, rest: int, baking: int)
    ensures forall c :: c in Chips(prep, rest, baking) ==>
              c.minutes == StageMinutes(c.stage, prep, rest, baking) && c.text == FormatTime(c.minutes)
  {
    var a, b, c := ChipIf(Prep, prep), ChipIf(Rest, rest), ChipIf(Baking, baking);
    assert Chips(prep, rest, baking) == a + b + c;
    assert forall x :: x in a + b + c <==> x in a || x in b || x in c;
  }

  lemma ChipsOrdered(prep: int, rest: int, baking: int)
    ensures |Chips(prep, rest, baking)| <= 3
    ensures forall i, j :: 0 <= i < j < |Chips(prep, rest, baking)| ==>
              StageRank(Chips(prep, rest, baking)[i].stage) < StageRank(Chips(prep, rest, baking)[j].stage)
  {
  }

  function StageRank(stage: Stage): nat {
    match stage
    case Prep => 0
    case Rest => 1
    case Baking => 2
  }
}
