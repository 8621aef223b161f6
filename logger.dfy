/**
 * The elapsed-time report of src/utils/logger.py: a logger remembers when
 * it was created, and each `log_component` call writes how long ago that
 * was as `hours:minutes:seconds`. The clock reading is a parameter and the
 * log line is returned instead of being written to the log file.
 */
module Logger {
  import opened Strings
  import opened Geometry

  /** Python's `x // m` for a positive float divisor: the floor of the quotient. */
  function FloorDiv(x: real, m: real): int
    requires m > 0.0
  {
    (x / m).Floor
  }

  lemma FloorDivBounds(x: real, m: real)
    requires m > 0.0
    ensures FloorDiv(x, m) as real * m <= x < FloorDiv(x, m) as real * m + m
  {
    var q := x / m;
    var f := FloorDiv(x, m) as real;
    assert q * m == x;
    assert f <= q < f + 1.0;
    MulLess(q, f + 1.0, m);
    assert (f + 1.0) * m == f * m + m;
    assert q * m < f * m + m;
    assert x < f * m + m;
  }

  lemma MulLess(a: real, b: real, m: real)
    requires a < b && m > 0.0
    ensures a * m < b * m
  {
    assert (b - a) * m > 0.0;
  }

  /** Python's `x % m` for a positive float divisor: never negative and below `m`. */
  function FloorMod(x: real, m: real): (r: real)
    requires m > 0.0
    ensures 0.0 <= r < m
    ensures x == FloorDiv(x, m) as real * m + r
  {
    FloorDivBounds(x, m);
    x - FloorDiv(x, m) as real * m
  }

  datatype Duration = Duration(hours: int, minutes: int, seconds: int)

  /**
   * `hours = int(t // 3600)`, `minutes = int((t % 3600) // 60)`,
   * `seconds = int(t % 60)`.
   */
  function Split(elapsed: real): Duration
  {
    Duration(FloorDiv(elapsed, 3600.0), FloorDiv(FloorMod(elapsed, 3600.0), 60.0), Trunc(FloorMod(elapsed, 60.0)))
  }

  lemma FloorShift(k: int, x: real)
    ensures (k as real + x).Floor == k + x.Floor
  {
  }

  /**
   * Minutes and seconds are in [0, 59], the hours are never negative for a
   * non-negative time, and the three recompose the whole seconds elapsed.
   */
  lemma SplitRecomposes(elapsed: real)
    ensures var d := Split(elapsed);
      && 0 <= d.minutes < 60 && 0 <= d.seconds < 60
      && (elapsed >= 0.0 ==> d.hours >= 0)
      && d.hours * 3600 + d.minutes * 60 + d.seconds == elapsed.Floor
  {
    var h := FloorDiv(elapsed, 3600.0);
    var r := FloorMod(elapsed, 3600.0);
    var m := FloorDiv(r, 60.0);
    var r2 := FloorMod(r, 60.0);
    FloorDivBounds(r, 60.0);
    assert 0 <= m < 60;
    // elapsed / 60 == 60 h + r / 60, so its floor is 60 h + m
    assert elapsed / 60.0 == (60 * h) as real + r / 60.0;
    FloorShift(60 * h, r / 60.0);
    assert FloorDiv(elapsed, 60.0) == 60 * h + m;
    assert FloorMod(elapsed, 60.0) == r2;
    assert elapsed == (3600 * h + 60 * m) as real + r2;
    FloorShift(3600 * h + 60 * m, r2);
    if elapsed >= 0.0 {
      FloorDivBounds(elapsed, 3600.0);
    }
  }

  /** `f"{hours}:{minutes}:{seconds}"`: no zero padding. */
  function DurationText(d: Duration): string
  {
    IntToString(d.hours) + ":" + IntToString(d.minutes) + ":" + IntToString(d.seconds)
  }

  /** The message `log_component` logs. */
  function Message(iteration: int, component: string, elapsed: real): string
  {
    "At iteration " + IntToString(iteration) + " for component: (" + component + ") time elapsed: "
      + DurationText(Split(elapsed))
  }

  class Logger {
    /** The clock reading when the logger was created; never changed. */
    const startTime: real

    constructor (now: real)
      ensures startTime == now
    {
      startTime := now;
    }

    /** The message logged when the clock reads `now`. */
    method LogComponent(now: real, iteration: int, component: string) returns (message: string)
      ensures message == Message(iteration, component, now - startTime)
    {
      var elapsedTime := now - startTime;
      var d := Split(elapsedTime);
      message := "At iteration " + IntToString(iteration) + " for component: (" + component + ") time elapsed: "
        + DurationText(d);
    }
  }

  // ---------------------------------------------------------------------
  // Reading the duration back.

  lemma DigitsNoColon(s: string)
    requires AllDigits(s)
    ensures ':' !in s
  {
  }

  /**
   * For a non-negative time the logged duration splits at ':' into three
   * decimal fields, minutes and seconds without a leading zero, that
   * recompose the whole seconds elapsed.
   */
  lemma DurationTextParses(elapsed: real)
    requires elapsed >= 0.0
    ensures var f := SplitOn(DurationText(Split(elapsed)), ':');
      && |f| == 3 && AllDigits(f[0]) && AllDigits(f[1]) && AllDigits(f[2])
      && 1 <= |f[1]| <= 2 && 1 <= |f[2]| <= 2
      && (|f[1]| == 2 ==> f[1][0] != '0') && (|f[2]| == 2 ==> f[2][0] != '0')
      && ParseNat(f[0]) * 3600 + ParseNat(f[1]) * 60 + ParseNat(f[2]) == elapsed.Floor
  {
    var d := Split(elapsed);
    SplitRecomposes(elapsed);
    var h, m, s := NatToString(d.hours), NatToString(d.minutes), NatToString(d.seconds);
    DigitsNoColon(h);
    DigitsNoColon(m);
    DigitsNoColon(s);
    assert DurationText(d) == h + ":" + (m + ":" + s);
    assert h + ":" + (m + ":" + s) == h + [':'] + (m + [':'] + s);
    assert m + ":" + s == m + [':'] + s;
    SplitOnJoin(h, m + [':'] + s, ':');
    SplitOnJoin(m, s, ':');
    SplitOnNone(s, ':');
    assert SplitOn(DurationText(d), ':') == [h, m, s];
    ParseNatToString(d.hours);
    ParseNatToString(d.minutes);
    ParseNatToString(d.seconds);
    if |m| > 2 { assert d.minutes >= 100 by { NatLength(d.minutes); } }
    if |s| > 2 { assert d.seconds >= 100 by { NatLength(d.seconds); } }
  }

  /** A number printed with three or more digits is at least 100. */
  lemma NatLength(n: nat)
    requires |NatToString(n)| > 2
    ensures n >= 100
  {
  }
}
