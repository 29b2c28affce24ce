/**
 * `getStartTime` and `getRunTime`: the run's start inferred from the first
 * top-level command, and the elapsed time formatted as `HH:MM:SS`.
 */
module RunTime {
  import opened Wrappers
  import opened RobotState
  import opened Commands

  // ---- decimal strings ----

  predicate IsDigit(c: char) { '0' <= c <= '9' }

  predicate AllDigits(s: string) { forall k :: 0 <= k < |s| ==> IsDigit(s[k]) }

  /** The number a string of decimal digits denotes (leading zeros allowed). */
  function DigitsValue(s: string): nat
    requires AllDigits(s)
    decreases |s|
  {
    if s == [] then 0 else DigitsValue(s[..|s| - 1]) * 10 + (s[|s| - 1] as int - '0' as int)
  }

  /** The decimal text of a natural number, as template-literal interpolation produces it. */
  function NatToString(n: nat): (r: string)
    ensures 1 <= |r| && AllDigits(r) && DigitsValue(r) == n
    ensures |r| > 1 ==> r[0] != '0'
    ensures |r| == 1 <==> n < 10
    ensures n < 100 ==> |r| <= 2
  {
    var last := [('0' as int + n % 10) as char];
    if n < 10 then last
    else
      var prefix := NatToString(n / 10);
      assert (prefix + last)[..|prefix + last| - 1] == prefix;
      prefix + last
  }

  /** `padStart(s, width, fill)`: `s` preceded by as many `fill` characters as it lacks to reach `width`. */
  function PadStart(s: string, width: nat, fill: char): (r: string)
    ensures |r| == if |s| < width then width else |s|
    ensures r[|r| - |s|..] == s
    ensures forall k :: 0 <= k < |r| - |s| ==> r[k] == fill
  {
    if |s| < width then seq(width - |s|, _ => fill) + s else s
  }

  lemma {:induction false} ZerosValue(n: nat)
    ensures AllDigits(seq(n, _ => '0')) && DigitsValue(seq(n, _ => '0')) == 0
  {
    if n > 0 {
      assert seq(n, _ => '0')[..n - 1] == seq(n - 1, _ => '0');
      ZerosValue(n - 1);
    }
  }

  /** Leading zeros do not change the value of a digit string. */
  lemma {:induction false} LeadingZerosValue(zeros: nat, s: string)
    requires AllDigits(s)
    ensures AllDigits(seq(zeros, _ => '0') + s)
    ensures DigitsValue(seq(zeros, _ => '0') + s) == DigitsValue(s)
    decreases |s|
  {
    var z := seq(zeros, _ => '0');
    if s == [] {
      assert z + s == z;
      ZerosValue(zeros);
    } else {
      var t := z + s;
      assert t[..|t| - 1] == z + s[..|s| - 1];
      LeadingZerosValue(zeros, s[..|s| - 1]);
    }
  }

  /** Zero-padding keeps a digit string's value. */
  lemma PadStartValue(s: string, width: nat)
    requires AllDigits(s)
    ensures AllDigits(PadStart(s, width, '0')) && DigitsValue(PadStart(s, width, '0')) == DigitsValue(s)
  {
    if |s| < width {
      LeadingZerosValue(width - |s|, s);
    }
  }

  // ---- start time and elapsed seconds ----

  /** `getStartTime`'s rule: the first top-level command's `handledAt`, or null when there are no commands. */
  function StartTime(commands: seq<AnnotatedCommand>): Option<Timestamp>
  {
    if |commands| > 0 then commands[0].handledAt else None
  }

  /** `getStartTime`: the `handledAt` of the first top-level command of the session, if any. */
  function GetStartTime(state: State): (r: Option<Timestamp>)
    requires CommandsResolve(state.session)
    ensures var roots := state.session.protocolCommands;
      r == if roots == [] then None else state.session.protocolCommandsById[roots[0]].handledAt
  {
    StartTime(GetCommands(state))
  }

  /** The run has a measurable length: both times truthy and the run time after the start. */
  predicate HasElapsed(startTime: Option<Timestamp>, runTime: Option<Timestamp>)
  {
    NumberTruthy(runTime) && NumberTruthy(startTime) && runTime.value > startTime.value
  }

  /** Whole seconds elapsed since the start, rounded down; zero when the run has no measurable length. */
  function RunTimeSeconds(startTime: Option<Timestamp>, runTime: Option<Timestamp>): (r: nat)
    ensures !HasElapsed(startTime, runTime) ==> r == 0
    ensures HasElapsed(startTime, runTime) ==>
      r * 1000 <= runTime.value - startTime.value < r * 1000 + 1000
  {
    if HasElapsed(startTime, runTime) then (runTime.value - startTime.value) / 1000 else 0
  }

  // ---- HH:MM:SS ----

  /** `s` reads as hours, `:`, two-digit minutes, `:`, two-digit seconds, with at least two hour digits. */
  predicate IsClockText(s: string)
  {
    && |s| >= 8
    && s[|s| - 6] == ':' && s[|s| - 3] == ':'
    && AllDigits(s[..|s| - 6]) && AllDigits(s[|s| - 5..|s| - 3]) && AllDigits(s[|s| - 2..])
  }

  function Hours(s: string): nat requires IsClockText(s) { DigitsValue(s[..|s| - 6]) }
  function Minutes(s: string): nat requires IsClockText(s) { DigitsValue(s[|s| - 5..|s| - 3]) }
  function Seconds(s: string): nat requires IsClockText(s) { DigitsValue(s[|s| - 2..]) }

  lemma ClockArithmetic(total: nat)
    ensures total == 3600 * (total / 3600) + 60 * ((total / 60) % 60) + total % 60
  {
  }


  /**
   * The elapsed time as `HH:MM:SS`: each field zero-padded to two digits,
   * hours unbounded, minutes and seconds below 60, and the fields adding up
   * to the given number of seconds.
   */
  function FormatRunTime(seconds: nat): (r: string)
    ensures IsClockText(r)
    ensures |r| == 8 || r[0] != '0'
    ensures Minutes(r) < 60 && Seconds(r) < 60
    ensures 3600 * Hours(r) + 60 * Minutes(r) + Seconds(r) == seconds
  {
    var hh := PadStart(NatToString(seconds / 3600), 2, '0');
    var mm := PadStart(NatToString((seconds / 60) % 60), 2, '0');
    var ss := PadStart(NatToString(seconds % 60), 2, '0');
    FieldsValue(seconds);
    HoursPadding(seconds / 3600);
    ClockFields(hh, mm, ss);
    hh + ":" + mm + ":" + ss
  }

  /** The three padded fields have the widths and values of hours, minutes and seconds. */
  lemma FieldsValue(seconds: nat)
    ensures var hh := PadStart(NatToString(seconds / 3600), 2, '0');
      var mm := PadStart(NatToString((seconds / 60) % 60), 2, '0');
      var ss := PadStart(NatToString(seconds % 60), 2, '0');
      && |hh| >= 2 && |mm| == 2 && |ss| == 2
      && AllDigits(hh) && AllDigits(mm) && AllDigits(ss)
      && DigitsValue(mm) < 60 && DigitsValue(ss) < 60
      && 3600 * DigitsValue(hh) + 60 * DigitsValue(mm) + DigitsValue(ss) == seconds
  {
    PadStartValue(NatToString(seconds / 3600), 2);
    PadStartValue(NatToString((seconds / 60) % 60), 2);
    PadStartValue(NatToString(seconds % 60), 2);
    ClockArithmetic(seconds);
  }

  /** Zero-padding to two characters adds a zero only to a one-digit number. */
  lemma HoursPadding(n: nat)
    ensures var hh := PadStart(NatToString(n), 2, '0');
      |hh| == 2 || hh[0] != '0'
  {
    var h := NatToString(n);
    if |h| >= 2 {
      assert PadStart(h, 2, '0') == h;
    }
  }

  /** Joining the fields with colons gives clock text whose fields read back as the fields' values. */
  lemma ClockFields(hh: string, mm: string, ss: string)
    requires |hh| >= 2 && |mm| == 2 && |ss| == 2
    requires AllDigits(hh) && AllDigits(mm) && AllDigits(ss)
    ensures IsClockText(hh + ":" + mm + ":" + ss)
    ensures Hours(hh + ":" + mm + ":" + ss) == DigitsValue(hh)
    ensures Minutes(hh + ":" + mm + ":" + ss) == DigitsValue(mm)
    ensures Seconds(hh + ":" + mm + ":" + ss) == DigitsValue(ss)
  {
    var r := hh + ":" + mm + ":" + ss;
    assert r[..|r| - 6] == hh;
    assert r[|r| - 5..|r| - 3] == mm;
    assert r[|r| - 2..] == ss;
  }

  /** `getRunTime`: the session's elapsed time, `00:00:00` until the run time passes the start time. */
  function GetRunTime(state: State): (r: string)
    requires CommandsResolve(state.session)
    ensures IsClockText(r) && Minutes(r) < 60 && Seconds(r) < 60
    ensures |r| == 8 || r[0] != '0'
    ensures var start := GetStartTime(state);
      var runTime := state.session.runTime;
      var elapsed := 3600 * Hours(r) + 60 * Minutes(r) + Seconds(r);
      && (!HasElapsed(start, runTime) ==> elapsed == 0)
      && (HasElapsed(start, runTime) ==> elapsed * 1000 <= runTime.value - start.value < elapsed * 1000 + 1000)
  {
    FormatRunTime(RunTimeSeconds(GetStartTime(state), state.session.runTime))
  }

  /** No elapsed time reads `00:00:00`. */
  lemma FormatZero()
    ensures FormatRunTime(0) == "00:00:00"
  {
  }

  /** 3 661 000 ms after the start reads `01:01:01`. */
  lemma FormatOneHourOneMinuteOneSecond()
    ensures FormatRunTime(RunTimeSeconds(Some(1000), Some(3662000))) == "01:01:01"
  {
    assert RunTimeSeconds(Some(1000), Some(3662000)) == 3661;
    assert 3661 / 3600 == 1 && (3661 / 60) % 60 == 1 && 3661 % 60 == 1;
    assert PadStart(NatToString(1), 2, '0') == "01";
    assert FormatRunTime(3661) == "01" + ":" + "01" + ":" + "01";
  }
}
