/**
 * examples/tomato.py: a pomodoro timer.  Task periods alternate with
 * breaks; every fourth break is a long one.  Times are whole seconds, and
 * `now` stands for time.time() at the moment of the call.
 */
module Tomato {
  import opened Decimal

  const TASK: int := 25 * 60
  const SHORT: int := 10 * 60
  const LONG: int := 30 * 60
  /** How long the completion alert sounds, in seconds. */
  const ALERT_DURATION: int := 2

  /** The period run() starts: a task, or a short break until four tasks are done, then a long one. */
  function TimerFor(isBreakTime: bool, tasksComplete: int): (t: int)
    ensures t == TASK || t == SHORT || t == LONG
    ensures t == LONG <==> isBreakTime && tasksComplete >= 4
  {
    if !isBreakTime then TASK else if tasksComplete < 4 then SHORT else LONG
  }

  /** tasks_complete after a task period ends, as written: counts to 4, then back to 0. */
  function NextTasksAsWritten(tasksComplete: int): (t: int)
    ensures 0 <= tasksComplete <= 4 ==> 0 <= t <= 4
    ensures 0 <= tasksComplete ==> (t == 0 <==> tasksComplete >= 4)
  {
    if tasksComplete < 4 then tasksComplete + 1 else 0
  }

  /** tasks_complete after a task period ends, counting the task that just ended as the first of a new round. */
  function NextTasks(tasksComplete: int): (t: int)
    ensures 0 <= tasksComplete <= 4 ==> 1 <= t <= 4
  {
    if tasksComplete < 4 then tasksComplete + 1 else 1
  }

  /** tasks_complete once n task periods have ended, from the initial 0. */
  function TasksAfter(n: nat): int
  {
    if n == 0 then 0 else NextTasks(TasksAfter(n - 1))
  }

  /** After n tasks the counter shows how far into the current round of four they are. */
  lemma {:induction false} TasksAfterCount(n: nat)
    ensures n > 0 ==> TasksAfter(n) == (n - 1) % 4 + 1
  {
    if n > 1 {
      TasksAfterCount(n - 1);
    }
  }

  /** The break after the n-th task is long exactly when n is a multiple of four. */
  lemma LongBreakEveryFourth(n: nat)
    requires n > 0
    ensures TimerFor(true, TasksAfter(n)) == LONG <==> n % 4 == 0
  {
    TasksAfterCount(n);
    var q, r := (n - 1) / 4, (n - 1) % 4;
    if r == 3 {
      RemainderOf(n, q + 1, 0);
    } else {
      RemainderOf(n, q, r + 1);
    }
  }

  /** The remainder by four is the r of any a == 4 * q + r with 0 <= r < 4. */
  lemma RemainderOf(a: int, q: int, r: int)
    requires a == 4 * q + r && 0 <= r < 4
    ensures a % 4 == r
  {
  }

  /** tasks_complete once n task periods have ended, with the counter as written. */
  function TasksAfterWritten(n: nat): int
  {
    if n == 0 then 0 else NextTasksAsWritten(TasksAfterWritten(n - 1))
  }

  /** As written, the counter runs 1, 2, 3, 4, 0, 1, ...: it has period five. */
  lemma {:induction false} TasksAfterWrittenCount(n: nat)
    ensures TasksAfterWritten(n) == n % 5
  {
    if n > 0 {
      TasksAfterWrittenCount(n - 1);
    }
  }

  /**
   * As written, the long break follows the 4th, 9th, 14th, ... task: after
   * the first round every round is five tasks long.
   */
  lemma LongBreakAsWritten(n: nat)
    requires n > 0
    ensures TimerFor(true, TasksAfterWritten(n)) == LONG <==> n % 5 == 4
    ensures TimerFor(true, TasksAfterWritten(9)) == LONG && TimerFor(true, TasksAfter(8)) == LONG
  {
    TasksAfterWrittenCount(n);
    TasksAfterWrittenCount(9);
    TasksAfterCount(8);
  }

  /** return_string: the time left as zero-padded minutes and seconds, divmod by 60. */
  function RemainingString(currentTimer: int, timeElapsed: int): (s: string)
    ensures |s| >= 5
  {
    var left := currentTimer - timeElapsed;
    Format02(left / 60) + ":" + Format02(left % 60)
  }

  /** Up to 99:59 left, the string is "MM:SS" and reads back as the seconds left. */
  lemma RemainingStringValue(currentTimer: int, timeElapsed: int)
    requires 0 <= currentTimer - timeElapsed < 100 * 60
    ensures var s := RemainingString(currentTimer, timeElapsed);
      |s| == 5 && s[2] == ':' && AllDigits(s[..2]) && AllDigits(s[3..])
      && Value(s[..2]) * 60 + Value(s[3..]) == currentTimer - timeElapsed
      && Value(s[3..]) < 60
  {
    var left := currentTimer - timeElapsed;
    Format02Value(left / 60);
    Format02Value(left % 60);
    var s := RemainingString(currentTimer, timeElapsed);
    assert s[..2] == Format02(left / 60);
    assert s[3..] == Format02(left % 60);
  }

  class Tomato {
    var alertStartTime: int
    var isBreakTime: bool
    var startTime: int
    var tasksComplete: int
    var running: bool
    var paused: bool
    var timeElapsed: int
    var currentTimer: int

    /**
     * The counter stays in 0..4, a timer is paused only while running, and a
     * running period has the length its kind calls for.
     */
    ghost predicate Valid()
      reads this
    {
      0 <= tasksComplete <= 4
      && (currentTimer == TASK || currentTimer == SHORT || currentTimer == LONG)
      && (!running ==> !paused)
      && (running ==> currentTimer == TimerFor(isBreakTime, tasksComplete))
    }

    constructor()
      ensures Valid()
      ensures alertStartTime == 0 && !isBreakTime && startTime == 0 && tasksComplete == 0
      ensures !running && !paused && timeElapsed == 0 && currentTimer == TASK
    {
      alertStartTime := 0;
      isBreakTime := false;
      startTime := 0;
      tasksComplete := 0;
      running := false;
      paused := false;
      timeElapsed := 0;
      currentTimer := TASK;
    }

    /** reset: the period's clock back to zero. */
    method Reset()
      modifies this
      ensures startTime == 0 && timeElapsed == 0
      ensures alertStartTime == old(alertStartTime) && isBreakTime == old(isBreakTime)
      ensures tasksComplete == old(tasksComplete) && running == old(running)
      ensures paused == old(paused) && currentTimer == old(currentTimer)
    {
      startTime := 0;
      timeElapsed := 0;
    }

    /** start_buzzer: the alert starts now. */
    method StartBuzzer(now: int)
      modifies this
      ensures alertStartTime == now
      ensures isBreakTime == old(isBreakTime) && startTime == old(startTime)
      ensures tasksComplete == old(tasksComplete) && running == old(running) && paused == old(paused)
      ensures timeElapsed == old(timeElapsed) && currentTimer == old(currentTimer)
    {
      alertStartTime := now;
    }

    /** stop_buzzer: no alert is sounding. */
    method StopBuzzer()
      modifies this
      ensures alertStartTime == 0
      ensures isBreakTime == old(isBreakTime) && startTime == old(startTime)
      ensures tasksComplete == old(tasksComplete) && running == old(running) && paused == old(paused)
      ensures timeElapsed == old(timeElapsed) && currentTimer == old(currentTimer)
    {
      alertStartTime := 0;
    }

    /**
     * run, the button: picks the period's length, then starts a stopped
     * timer from zero, pauses a running one, or resumes a paused one so
     * that the elapsed time carries on from where it stood.
     */
    method Run(now: int)
      requires Valid()
      modifies this
      ensures Valid()
      ensures alertStartTime == 0
      ensures isBreakTime == old(isBreakTime) && tasksComplete == old(tasksComplete)
      ensures currentTimer == TimerFor(isBreakTime, tasksComplete)
      ensures running
      ensures !old(running) ==> !paused && timeElapsed == 0 && startTime == now
      ensures old(running) && !old(paused) ==>
        paused && timeElapsed == old(timeElapsed) && startTime == old(startTime)
      ensures old(running) && old(paused) ==>
        !paused && timeElapsed == old(timeElapsed) && startTime + timeElapsed == now
    {
      StopBuzzer();
      if isBreakTime {
        if tasksComplete < 4 {
          currentTimer := SHORT;
        } else {
          currentTimer := LONG;
        }
      } else {
        currentTimer := TASK;
      }
      if !running {
        Reset();
        running := true;
        startTime := now;
      } else if running && !paused {
        paused := true;
      } else if running && paused {
        paused := false;
        startTime := now - timeElapsed;
      }
    }

    /**
     * update, once per frame: silences an alert that has sounded long
     * enough, and while the timer runs unpaused recomputes the elapsed
     * time; a period that has run its length stops, sounds the alert,
     * counts a finished task and switches between task and break.
     */
    method Update(now: int)
      requires Valid()
      modifies this
      ensures Valid()
      ensures var ticking := old(running) && !old(paused);
        var done := ticking && now - old(startTime) >= old(currentTimer);
        && timeElapsed == (if ticking then now - old(startTime) else old(timeElapsed))
        && running == (old(running) && !done)
        && isBreakTime == (old(isBreakTime) != done)
        && tasksComplete == (if done && !old(isBreakTime) then NextTasks(old(tasksComplete)) else old(tasksComplete))
        && alertStartTime == (if done then now
                              else if now - old(alertStartTime) >= ALERT_DURATION then 0
                              else old(alertStartTime))
      ensures paused == old(paused) && startTime == old(startTime) && currentTimer == old(currentTimer)
    {
      if now - alertStartTime >= ALERT_DURATION {
        StopBuzzer();
      }
      if running && !paused {
        timeElapsed := now - startTime;
        if timeElapsed >= currentTimer {
          running := false;
          StartBuzzer(now);
          if !isBreakTime {
            tasksComplete := NextTasks(tasksComplete);
          }
          isBreakTime := !isBreakTime;
        }
      }
    }

    /** return_string: the time left in the current period. */
    function ReturnString(): (s: string)
      reads this
      ensures |s| >= 5
    {
      RemainingString(currentTimer, timeElapsed)
    }
  }
}
