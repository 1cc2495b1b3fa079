/**
 * examples/stop_watch.py: a stopwatch counting milliseconds.  `now` stands
 * for time.ticks_ms() at the moment of the call.
 */
module StopWatch {
  import opened Decimal

  const MS_PER_SECOND: int := 1000
  const MS_PER_DAY: int := 24 * 60 * 60 * 1000

  /**
   * str() of a timedelta of `ms` milliseconds: "D day(s), " when the day
   * count is not zero, then H:MM:SS, then the fraction as six digits when
   * there is one.  The day count floors, so a negative duration is a
   * negative day plus a positive remainder.  A whole number of
   * milliseconds has microseconds ending in "000", so the six digits are
   * the three millisecond digits followed by three zeros.
   */
  function TimedeltaString(ms: int): (s: string)
    ensures |s| >= 7
  {
    var days := ms / MS_PER_DAY;
    var rest := ms % MS_PER_DAY;
    DaysPart(days) + Clock(rest / MS_PER_SECOND) + Fraction(rest % MS_PER_SECOND)
  }

  function DaysPart(days: int): string
  {
    if days == 0 then "" else Str(days) + (if days == 1 || days == -1 then " day, " else " days, ")
  }

  /** H:MM:SS of a number of seconds. */
  function Clock(seconds: nat): string
  {
    Dec(seconds / 3600) + ":" + Format02(seconds / 60 % 60) + ":" + Format02(seconds % 60)
  }

  /** The fraction of a second, from its milliseconds. */
  function Fraction(ms: int): string
    requires 0 <= ms < 1000
  {
    if ms == 0 then "" else "." + Pad3(ms) + "000"
  }

  /** format(n, "03d") for 0 <= n < 1000: hundreds, tens and units digits. */
  function Pad3(n: int): (s: string)
    requires 0 <= n < 1000
    ensures |s| == 3 && AllDigits(s)
  {
    [DigitChar(n / 100), DigitChar(n / 10 % 10), DigitChar(n % 10)]
  }

  /** The display: the first ten characters of the duration's text. */
  function Display(ms: int): (s: string)
    ensures |s| <= 10
  {
    var t := TimedeltaString(ms);
    if |t| <= 10 then t else t[..10]
  }

  /** Under ten hours the clock is seven characters. */
  lemma ClockLength(seconds: nat)
    requires seconds < 10 * 3600
    ensures |Clock(seconds)| == 7
  {
    Format02Value(seconds / 60 % 60);
    Format02Value(seconds % 60);
  }

  /** The first two digits of the fraction are the hundredths. */
  lemma FractionHundredths(ms: int)
    requires 0 < ms < 1000
    ensures var f := Fraction(ms);
      |f| == 7 && f[0] == '.' && AllDigits(f[1..3]) && Value(f[1..3]) == ms / 10
  {
    var f := Fraction(ms);
    var p := Pad3(ms);
    assert f[1..3] == p[..2];
    assert p[..2][..1] == [p[0]];
    assert Value([p[0]]) == ms / 100;
    assert ms / 100 * 10 + ms / 10 % 10 == ms / 10;
  }

  /**
   * Under ten hours the display is H:MM:SS, then the hundredths as ".hh"
   * when the time is not a whole second; the digits read back as the
   * duration, to the hundredth.
   */
  lemma DisplayUnderTenHours(ms: int)
    requires 0 <= ms < 10 * 3600 * 1000
    ensures var s := Display(ms);
      && |s| >= 7 && s[..7] == Clock(ms / 1000)
      && (ms % 1000 == 0 ==> |s| == 7)
      && (ms % 1000 != 0 ==> |s| == 10 && s[7] == '.' && AllDigits(s[8..]) && Value(s[8..]) == ms % 1000 / 10)
  {
    var c := Clock(ms / 1000);
    var f := Fraction(ms % 1000);
    ClockLength(ms / 1000);
    UnderADay(ms);
    var t := c + f;
    if ms % 1000 != 0 {
      FractionHundredths(ms % 1000);
      assert |t| == 14;
      var d := t[..10];
      assert Display(ms) == d;
      assert d[..7] == c && d[7] == f[0];
      assert d[8..] == f[1..3];
    } else {
      assert t == c;
    }
  }

  /** Within the first day there is no day count: just the clock and the fraction. */
  lemma UnderADay(ms: int)
    requires 0 <= ms < MS_PER_DAY
    ensures TimedeltaString(ms) == Clock(ms / 1000) + Fraction(ms % 1000)
  {
    assert ms / MS_PER_DAY == 0 && ms % MS_PER_DAY == ms;
  }

  class StopWatch {
    var startTime: int
    var elapsed: int
    var running: bool

    constructor()
      ensures startTime == 0 && elapsed == 0 && !running
    {
      startTime := 0;
      elapsed := 0;
      running := false;
    }

    /**
     * start: runs from now, or, once it has a start time, from `elapsed`
     * milliseconds before now, so the count carries on.
     */
    method Start(now: int)
      modifies this
      ensures running && elapsed == old(elapsed)
      ensures startTime == (if old(startTime) != 0 then now - old(elapsed) else now)
    {
      running := true;
      if startTime != 0 {
        startTime := now - elapsed;
      } else {
        startTime := now;
      }
    }

    /** stop: only stops; the count and its start stay as they are. */
    method Stop()
      modifies this
      ensures !running && elapsed == old(elapsed) && startTime == old(startTime)
    {
      running := false;
    }

    /** reset: the count back to zero, running or not. */
    method Reset()
      modifies this
      ensures startTime == 0 && elapsed == 0 && running == old(running)
    {
      startTime := 0;
      elapsed := 0;
    }

    /** return_string: brings `elapsed` up to now while running, and shows it. */
    method ReturnString(now: int) returns (s: string)
      modifies this
      ensures elapsed == (if running then now - startTime else old(elapsed))
      ensures running == old(running) && startTime == old(startTime)
      ensures s == Display(elapsed)
    {
      if running {
        elapsed := now - startTime;
      }
      s := Display(elapsed);
    }
  }

  /**
   * Stopping at t1 and starting again at t2 loses nothing: at any later t3
   * the count is what it was at t1 plus the time run since t2.
   */
  method StopAndResume(w: StopWatch, t1: int, t2: int, t3: int) returns (atStop: int, atEnd: int)
    requires w.running && w.startTime != 0
    modifies w
    ensures atEnd == atStop + (t3 - t2)
  {
    var _ := w.ReturnString(t1);
    atStop := w.elapsed;
    w.Stop();
    w.Start(t2);
    var _ := w.ReturnString(t3);
    atEnd := w.elapsed;
  }
}
