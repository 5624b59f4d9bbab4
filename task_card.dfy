/** `components/tasks/TaskCard.js`: the countdown to a task's deadline, its
    text, the colours of a card and the actions it offers. Times are whole
    milliseconds, as `getTime()` returns them. */
module TaskCard {
  import opened Wrappers
  import opened Text
  import opened Tasks

  // 1000, 1000 * 60, 1000 * 60 * 60 and 1000 * 60 * 60 * 24 milliseconds.
  const SECOND: int := 1000
  const MINUTE: int := 60000
  const HOUR: int := 3600000
  const DAY: int := 86400000

  const GREEN: string := "#34C759"
  const BLUE: string := "#007AFF"
  const ORANGE: string := "#FF9500"
  const RED: string := "#FF3B30"
  const GREY: string := "#8E8E93"

  // ---------------------------------------------------------------------------
  // Countdown

  datatype Duration = Duration(days: nat, hours: nat, minutes: nat, seconds: nat)

  function Millis(u: Duration): int {
    u.days * DAY + u.hours * HOUR + u.minutes * MINUTE + u.seconds * SECOND
  }

  /** The whole days, hours, minutes and seconds in a positive difference
      (floor division and remainder, which for a positive divisor is what
      `Math.floor` and `%` give on a positive number). */
  function Decompose(d: int): (u: Duration)
    requires d > 0
    ensures u.hours < 24 && u.minutes < 60 && u.seconds < 60
    ensures Millis(u) <= d < Millis(u) + SECOND
  {
    var u := Duration(d / DAY, (d % DAY) / HOUR, (d % HOUR) / MINUTE, (d % MINUTE) / SECOND);
    DecomposeSound(d);
    u
  }

  lemma DecomposeSound(d: int)
    requires d > 0
    ensures var days, hours, minutes, seconds := d / DAY, (d % DAY) / HOUR, (d % HOUR) / MINUTE, (d % MINUTE) / SECOND;
      && hours < 24 && minutes < 60 && seconds < 60
      && days * DAY + hours * HOUR + minutes * MINUTE + seconds * SECOND <= d
      && d < days * DAY + hours * HOUR + minutes * MINUTE + seconds * SECOND + SECOND
  {
    var k := d % DAY;
    assert d == (d / DAY) * DAY + k;
    var h := k / HOUR;
    assert k == h * HOUR + k % HOUR;
    assert d % HOUR == k % HOUR by {
      assert d == ((d / DAY) * 24 + h) * HOUR + k % HOUR;
    }
    var r := d % HOUR;
    var m := r / MINUTE;
    assert r == m * MINUTE + r % MINUTE;
    assert d % MINUTE == r % MINUTE by {
      assert d == ((d / HOUR) * 60 + m) * MINUTE + r % MINUTE;
    }
  }

  /** `n.toString().padStart(2, '0')`. */
  function Pad2(n: nat): string {
    PadStart(NatToString(n), 2, '0')
  }

  /** A padded field has at least two digits, equals the plain number from 10
      on, and reads back as the number. */
  lemma Pad2Properties(n: nat)
    ensures |Pad2(n)| >= 2 && AllDigits(Pad2(n))
    ensures n >= 10 ==> Pad2(n) == NatToString(n)
    ensures n < 10 ==> Pad2(n) == ['0', DigitChar(n)]
    ensures DecimalValue(Pad2(n)) == n
    ensures n < 100 ==> |Pad2(n)| == 2
  {
    NatToStringRoundTrip(n);
    if 10 <= n < 100 {
      assert |NatToString(n / 10)| == 1;
    }
    var s := NatToString(n);
    if n < 10 {
      assert Pad2(n) == ['0'] + s;
      assert Pad2(n)[..1] == ['0'];
    }
  }

  /** `HH:MM:SS`. */
  function Clock(hours: nat, minutes: nat, seconds: nat): string {
    Pad2(hours) + ":" + Pad2(minutes) + ":" + Pad2(seconds)
  }

  /** A clock of fields below 100 is eight characters, and its three fields read back. */
  lemma ClockRoundTrip(hours: nat, minutes: nat, seconds: nat)
    requires hours < 100 && minutes < 100 && seconds < 100
    ensures var c := Clock(hours, minutes, seconds);
      && |c| == 8 && c[2] == ':' && c[5] == ':'
      && AllDigits(c[0..2]) && DecimalValue(c[0..2]) == hours
      && AllDigits(c[3..5]) && DecimalValue(c[3..5]) == minutes
      && AllDigits(c[6..8]) && DecimalValue(c[6..8]) == seconds
  {
    Pad2Properties(hours);
    Pad2Properties(minutes);
    Pad2Properties(seconds);
    ClockSlices(Pad2(hours), Pad2(minutes), Pad2(seconds));
  }

  lemma ClockSlices(h: string, m: string, s: string)
    requires |h| == 2 && |m| == 2 && |s| == 2
    ensures var c := h + ":" + m + ":" + s;
      |c| == 8 && c[2] == ':' && c[5] == ':' && c[0..2] == h && c[3..5] == m && c[6..8] == s
  {
  }

  /** A clock starts with a digit. */
  lemma ClockStartsWithDigit(hours: nat, minutes: nat, seconds: nat)
    ensures IsDigit(Clock(hours, minutes, seconds)[0])
  {
    Pad2Properties(hours);
    assert Clock(hours, minutes, seconds)[0] == Pad2(hours)[0];
  }

  /** `"N day"` for one day, `"N days"` for any other count. */
  function DayLabel(days: nat): string {
    NatToString(days) + (if days == 1 then " day" else " days")
  }

  lemma DayLabelPlural(days: nat)
    ensures DayLabel(days) == NatToString(days) + " day" <==> days == 1
    ensures DayLabel(days) == NatToString(days) + " days" <==> days != 1
    ensures AllDigits(DayLabel(days)[..|NatToString(days)|])
    ensures DecimalValue(DayLabel(days)[..|NatToString(days)|]) == days
  {
    NatToStringRoundTrip(days);
    var s := NatToString(days);
    assert DayLabel(days)[..|s|] == s;
    if days != 1 {
      assert |DayLabel(days)| != |s + " day"|;
    }
  }

  /** The countdown's text: the primary line and the optional secondary line. */
  datatype TimeLeft = TimeLeft(primary: string, secondary: Option<string>)

  /** The text for a difference `d = expiryTime - now`: "EXPIRED" once the
      deadline has passed, a day count with a clock below it from one day on,
      and a clock alone under one day. */
  function CountdownText(d: int): (r: TimeLeft)
    ensures r.primary == "EXPIRED" <==> d <= 0
    ensures r.secondary.Some? <==> d >= DAY
  {
    if d <= 0 then TimeLeft("EXPIRED", None)
    else
      var r := RunningText(d);
      assert r.primary[0] != "EXPIRED"[0];
      r
  }

  /** The text while the deadline is ahead. */
  function RunningText(d: int): (r: TimeLeft)
    requires d > 0
    ensures |r.primary| > 0 && IsDigit(r.primary[0])
    ensures r.secondary.Some? <==> d >= DAY
  {
    var u := Decompose(d);
    assert u.days >= 1 <==> d >= DAY;
    ClockStartsWithDigit(u.hours, u.minutes, u.seconds);
    if u.days >= 1 then
      assert DayLabel(u.days)[0] == NatToString(u.days)[0];
      TimeLeft(DayLabel(u.days), Some(Clock(u.hours, u.minutes, u.seconds)))
    else
      TimeLeft(Clock(u.hours, u.minutes, u.seconds), None)
  }

  /** `c` is an `HH:MM:SS` clock whose fields read back as hours under 24,
      minutes and seconds under 60 that, added to `base`, come within a second
      below `d`. */
  ghost predicate ClockDenotes(c: string, base: int, d: int) {
    && |c| == 8 && c[2] == ':' && c[5] == ':'
    && AllDigits(c[0..2]) && AllDigits(c[3..5]) && AllDigits(c[6..8])
    && var h, m, s := DecimalValue(c[0..2]), DecimalValue(c[3..5]), DecimalValue(c[6..8]);
    && h < 24 && m < 60 && s < 60
    && base + h * HOUR + m * MINUTE + s * SECOND <= d < base + h * HOUR + m * MINUTE + s * SECOND + SECOND
  }

  /** The clock of a decomposed difference denotes what is left after its whole days. */
  lemma DecomposedClock(d: int)
    requires d > 0
    ensures var u := Decompose(d);
      u.days == d / DAY && ClockDenotes(Clock(u.hours, u.minutes, u.seconds), (d / DAY) * DAY, d)
  {
    var u := Decompose(d);
    ClockRoundTrip(u.hours, u.minutes, u.seconds);
  }

  /** From one day on, the primary line begins with the digits of the whole
      number of days, followed by " day" exactly when that number is one and
      by " days" otherwise, and the secondary line is the clock of what is
      left; under one day the primary line is that clock of `d` itself and
      there is no secondary line. */
  lemma RunningTextFormat(d: int)
    requires d > 0
    ensures d >= DAY ==>
      var n, p := NatToString(d / DAY), RunningText(d).primary;
      && |n| <= |p| && AllDigits(p[..|n|]) && DecimalValue(p[..|n|]) == d / DAY
      && (p[|n|..] == " day" <==> d / DAY == 1)
      && (p[|n|..] == " days" <==> d / DAY != 1)
    ensures d >= DAY ==>
      RunningText(d).secondary.Some? && ClockDenotes(RunningText(d).secondary.value, (d / DAY) * DAY, d)
    ensures d < DAY ==>
      RunningText(d).secondary.None? && ClockDenotes(RunningText(d).primary, 0, d)
  {
    if d >= DAY {
      DayLines(d);
    } else {
      ClockLine(d);
    }
  }

  lemma DayLines(d: int)
    requires d >= DAY
    ensures var n, p := NatToString(d / DAY), RunningText(d).primary;
      && |n| <= |p| && AllDigits(p[..|n|]) && DecimalValue(p[..|n|]) == d / DAY
      && (p[|n|..] == " day" <==> d / DAY == 1)
      && (p[|n|..] == " days" <==> d / DAY != 1)
    ensures RunningText(d).secondary.Some?
    ensures ClockDenotes(RunningText(d).secondary.value, (d / DAY) * DAY, d)
  {
    DecomposedClock(d);
    var u := Decompose(d);
    assert RunningText(d) == TimeLeft(DayLabel(u.days), Some(Clock(u.hours, u.minutes, u.seconds)));
    var n, p := NatToString(u.days), DayLabel(u.days);
    NatToStringRoundTrip(u.days);
    assert p[..|n|] == n;
    assert p[|n|..] == (if u.days == 1 then " day" else " days");
  }

  lemma ClockLine(d: int)
    requires 0 < d < DAY
    ensures RunningText(d).secondary.None?
    ensures ClockDenotes(RunningText(d).primary, 0, d)
  {
    DecomposedClock(d);
    var u := Decompose(d);
    assert u.days == 0;
    assert RunningText(d) == TimeLeft(Clock(u.hours, u.minutes, u.seconds), None);
  }

  /** The one-second interval of a card: it runs only for a pending task and
      stops once the deadline has passed. */
  class Countdown {
    const expiryTime: int
    var timeLeft: TimeLeft
    var ticking: bool

    /** The card's effect for a task: the interval starts only for a pending task. */
    constructor (task: Task)
      ensures expiryTime == task.expiryTime
      ensures timeLeft == TimeLeft("", None)
      ensures ticking <==> task.status == PENDING
    {
      expiryTime := task.expiryTime;
      timeLeft := TimeLeft("", None);
      ticking := task.status == PENDING;
    }

    /** One run of the interval callback at time `now`: the text is refreshed,
        and the interval is cleared once the deadline has passed. */
    method Tick(now: int)
      requires ticking
      modifies this
      ensures timeLeft == CountdownText(expiryTime - now)
      ensures ticking <==> expiryTime - now > 0
    {
      if expiryTime - now <= 0 {
        timeLeft := TimeLeft("EXPIRED", None);
        ticking := false;
        return;
      }
      timeLeft := RunningText(expiryTime - now);
    }
  }

  // ---------------------------------------------------------------------------
  // Colours and actions

  /** `getTimeLeftColor` for a difference `d = expiryTime - now`, which may be negative. */
  function TimeLeftColor(status: string, d: int): (c: string)
    ensures status != PENDING ==> c == GREY
    ensures status == PENDING ==>
      && (c == GREEN <==> d >= 3 * DAY)
      && (c == BLUE <==> 2 * DAY <= d < 3 * DAY)
      && (c == ORANGE <==> DAY <= d < 2 * DAY)
      && (c == RED <==> d < DAY)
  {
    if status != PENDING then GREY
    else
      // Math.floor: Dafny's division by a positive divisor rounds down.
      var days := d / DAY;
      if days >= 3 then GREEN
      else if days >= 2 then BLUE
      else if days >= 1 then ORANGE
      else RED
  }

  /** `getPriorityColor`. */
  function PriorityColor(priority: string): (c: string)
    ensures c == RED <==> priority == HIGH
    ensures c == ORANGE <==> priority == MEDIUM
    ensures c == GREEN <==> priority != HIGH && priority != MEDIUM
  {
    if priority == HIGH then RED
    else if priority == MEDIUM then ORANGE
    else GREEN
  }

  /** `getStatusColor`. */
  function StatusColor(status: string): (c: string)
    ensures c == GREEN <==> status == COMPLETED
    ensures c == RED <==> status == EXPIRED
    ensures c == BLUE <==> status != COMPLETED && status != EXPIRED
  {
    if status == COMPLETED then GREEN
    else if status == EXPIRED then RED
    else BLUE
  }

  datatype CardAction = CompleteAction | DeleteAction

  /** The buttons a card shows: delete always, complete only while pending. */
  function Actions(t: Task): (r: set<CardAction>)
    ensures DeleteAction in r
    ensures CompleteAction in r <==> t.status == PENDING
  {
    if t.status == PENDING then {CompleteAction, DeleteAction} else {DeleteAction}
  }
}
