/**
 * The focus timer (src/components/PomodoroTimer.tsx): a 25-minute countdown
 * with play/pause and reset buttons, shown as `m:ss`. The one-second
 * interval exists only while the timer is active with time left; each firing
 * takes one second off, and the effect that follows the render stops the
 * timer once it reaches zero.
 */
module PomodoroTimer {
  import opened JsString

  /** `25 * 60` seconds. */
  const FullTime := 1500

  datatype TimerState = TimerState(timeLeft: int, isActive: bool)

  const Initial := TimerState(FullTime, false)

  /** The countdown stays between zero and a full session. */
  predicate InRange(t: TimerState) {
    0 <= t.timeLeft <= FullTime
  }

  /** The interval is running. */
  predicate Running(t: TimerState) {
    t.isActive && t.timeLeft > 0
  }

  /** The effect after a render: with no interval to start, a timer at zero is stopped. */
  function Settle(t: TimerState): (r: TimerState)
    ensures r.timeLeft == t.timeLeft
    ensures r.isActive <==> t.isActive && t.timeLeft != 0
  {
    if !Running(t) && t.timeLeft == 0 then t.(isActive := false) else t
  }

  /** One second passes: the interval, if it runs, fires once, and the effect settles the result. */
  function Tick(t: TimerState): (r: TimerState)
    ensures Running(t) ==> r.timeLeft == t.timeLeft - 1 && (r.isActive <==> r.timeLeft > 0)
    ensures !Running(t) ==> r == Settle(t)
    ensures InRange(t) ==> InRange(r)
  {
    if Running(t) then Settle(t.(timeLeft := t.timeLeft - 1)) else Settle(t)
  }

  /** The play/pause button, followed by the effect. */
  function PlayPause(t: TimerState): (r: TimerState)
    ensures r.timeLeft == t.timeLeft
    ensures r.isActive <==> !t.isActive && t.timeLeft != 0
  {
    Settle(t.(isActive := !t.isActive))
  }

  /** `n` seconds in a row. */
  function Ticks(t: TimerState, n: nat): TimerState
    decreases n
  {
    if n == 0 then t else Ticks(Tick(t), n - 1)
  }

  /**
   * A running timer with `s` seconds left counts down one second per tick
   * and stops exactly when it reaches zero; it never goes below zero.
   */
  lemma {:induction false} Countdown(s: int, n: nat)
    requires s > 0
    ensures Ticks(TimerState(s, true), n) ==
            if n < s then TimerState(s - n, true) else TimerState(0, false)
  {
    if n > 0 {
      if s == 1 {
        StoppedStaysPut(TimerState(0, false), n - 1);
      } else {
        Countdown(s - 1, n - 1);
      }
    }
  }

  /** A stopped timer stays exactly as it is, however many seconds pass. */
  lemma {:induction false} StoppedStaysPut(t: TimerState, n: nat)
    requires !t.isActive
    ensures Ticks(t, n) == t
  {
    if n > 0 {
      StoppedStaysPut(Tick(t), n - 1);
    }
  }

  /** Starting a full session and letting it run out ends stopped at zero, after exactly 1500 seconds. */
  lemma FullSession()
    ensures Ticks(PlayPause(Initial), FullTime - 1) == TimerState(1, true)
    ensures Ticks(PlayPause(Initial), FullTime) == TimerState(0, false)
  {
    Countdown(FullTime, FullTime - 1);
    Countdown(FullTime, FullTime);
  }

  /** Pausing and resuming a timer with time left changes nothing. */
  lemma PauseResume(t: TimerState)
    requires t.timeLeft != 0
    ensures PlayPause(PlayPause(t)) == t
  {
  }

  /** The digit character of `d`. */
  function DigitChar(d: int): (c: char)
    requires 0 <= d < 10
    ensures '0' <= c <= '9' && (c as int) - ('0' as int) == d
  {
    ('0' as int + d) as char
  }

  predicate IsDigit(c: char) {
    '0' <= c <= '9'
  }

  /** `String(n)` for a non-negative integer: its decimal digits, no leading zeros. */
  function Decimal(n: nat): (r: string)
    ensures |r| >= 1 && forall i :: 0 <= i < |r| ==> IsDigit(r[i])
    ensures n >= 10 <==> |r| >= 2
    ensures |r| >= 2 ==> r[0] != '0'
  {
    if n < 10 then [DigitChar(n)] else Decimal(n / 10) + [DigitChar(n % 10)]
  }

  /** The number a string of decimal digits denotes. */
  function DigitsValue(s: string): (v: nat)
    requires forall i :: 0 <= i < |s| ==> IsDigit(s[i])
  {
    if s == [] then 0
    else
      assert IsDigit(s[|s| - 1]);
      10 * DigitsValue(s[..|s| - 1]) + ((s[|s| - 1] as int) - ('0' as int))
  }

  /** Reading the decimal form back gives the number. */
  lemma {:induction false} DecimalValue(n: nat)
    ensures DigitsValue(Decimal(n)) == n
  {
    if n >= 10 {
      var d := Decimal(n);
      assert d[..|d| - 1] == Decimal(n / 10);
      DecimalValue(n / 10);
    }
  }

  /** A leading zero does not change the value. */
  lemma {:induction false} LeadingZero(s: string)
    requires forall i :: 0 <= i < |s| ==> IsDigit(s[i])
    ensures forall i :: 0 <= i < |"0" + s| ==> IsDigit(("0" + s)[i])
    ensures DigitsValue("0" + s) == DigitsValue(s)
  {
    if s != [] {
      var z := "0" + s;
      assert z[..|z| - 1] == "0" + s[..|s| - 1];
      LeadingZero(s[..|s| - 1]);
    }
  }

  /** `padStart(2, '0')` of a digit string. */
  function Pad2(s: string): (r: string)
    requires |s| >= 1
    ensures |s| >= 2 ==> r == s
    ensures |s| == 1 ==> r == ['0'] + s
  {
    if |s| < 2 then "0" + s else s
  }

  /** `formatTime`: whole minutes, a colon, and the seconds as two digits. */
  function FormatTime(seconds: nat): (r: string)
    ensures ':' in r
    ensures forall i :: 0 <= i < |Before(r, ':')| ==> IsDigit(Before(r, ':')[i])
    ensures forall i :: 0 <= i < |After(r, ':')| ==> IsDigit(After(r, ':')[i])
    ensures |After(r, ':')| == 2
    ensures DigitsValue(Before(r, ':')) == seconds / 60
    ensures DigitsValue(After(r, ':')) == seconds % 60 < 60
  {
    var m, d := Decimal(seconds / 60), Decimal(seconds % 60);
    var s := Pad2(d);
    assert forall i :: 0 <= i < |m| ==> m[i] != ':';
    BeforeAfterSplit(m, s, ':');
    DecimalValue(seconds / 60);
    DecimalValue(seconds % 60);
    LeadingZero(d);
    m + [':'] + s
  }

  /** Reading a `m:ss` display back: sixty times the minutes plus the seconds. */
  function ParseTime(r: string): int
    requires forall i :: 0 <= i < |Before(r, ':')| ==> IsDigit(Before(r, ':')[i])
    requires forall i :: 0 <= i < |After(r, ':')| ==> IsDigit(After(r, ':')[i])
  {
    60 * DigitsValue(Before(r, ':')) + DigitsValue(After(r, ':'))
  }

  /** The display denotes exactly the remaining seconds, so distinct counts show distinct texts. */
  lemma FormatTimeRoundTrip(seconds: nat)
    ensures ParseTime(FormatTime(seconds)) == seconds
  {
    var m, d := Decimal(seconds / 60), Decimal(seconds % 60);
    var s := Pad2(d);
    assert forall i :: 0 <= i < |m| ==> m[i] != ':';
    BeforeAfterSplit(m, s, ':');
    DecimalValue(seconds / 60);
    DecimalValue(seconds % 60);
    if |d| == 1 {
      LeadingZero(d);
    }
  }

  lemma FormatTimeInjective(a: nat, b: nat)
    requires FormatTime(a) == FormatTime(b)
    ensures a == b
  {
    FormatTimeRoundTrip(a);
    FormatTimeRoundTrip(b);
  }

  /** The initial display reads "25:00"; five seconds read "0:05". */
  lemma FormatExamples()
    ensures FormatTime(FullTime) == "25:00"
    ensures FormatTime(5) == "0:05"
  {
    FullTimeDisplay();
    FiveSecondsDisplay();
  }

  lemma FullTimeDisplay()
    ensures FormatTime(FullTime) == "25:00"
  {
    assert Decimal(25) == "25";
    assert Decimal(0) == "0";
  }

  lemma FiveSecondsDisplay()
    ensures FormatTime(5) == "0:05"
  {
    assert Decimal(0) == "0";
    assert Decimal(5) == "5";
  }

  class Timer {
    var timeLeft: int
    var isActive: bool

    function State(): TimerState
      reads this
    {
      TimerState(timeLeft, isActive)
    }

    ghost predicate Valid()
      reads this
    {
      InRange(State())
    }

    constructor()
      ensures Valid() && State() == Initial
    {
      timeLeft, isActive := FullTime, false;
    }

    /** The interval fires (when it runs) and the effect runs after the render. */
    method Second()
      requires Valid()
      modifies this
      ensures Valid()
      ensures State() == Tick(old(State()))
    {
      if isActive && timeLeft > 0 {
        timeLeft := timeLeft - 1;
      }
      if !(isActive && timeLeft > 0) && timeLeft == 0 {
        isActive := false;
      }
    }

    /** The play/pause button. */
    method Toggle()
      requires Valid()
      modifies this
      ensures Valid()
      ensures State() == PlayPause(old(State()))
    {
      isActive := !isActive;
      if !(isActive && timeLeft > 0) && timeLeft == 0 {
        isActive := false;
      }
    }

    /** The reset button: stop and return to a full session. */
    method Reset()
      modifies this
      ensures Valid() && State() == Initial
    {
      isActive := false;
      timeLeft := FullTime;
    }

  }
}
