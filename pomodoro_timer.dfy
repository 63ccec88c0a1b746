/** The 15-minute focus timer (ai-notebook-github-upload/components/pomodoro-timer.tsx).
    The component keeps three state variables; the model is a class with those fields whose
    methods are the three buttons and one tick of the one-second interval. Each method is
    specified by a function on a snapshot of the three fields, and the timer's invariant and
    its countdown are proved about those functions. */
module PomodoroTimer {
  import opened Text

  /** `15 * 60`: the length of one session in seconds. */
  const TotalTime: nat := 900

  /** The component's state: timeLeft, isRunning and isCompleted. */
  datatype State = State(timeLeft: int, isRunning: bool, isCompleted: bool)

  /** The state the component starts in. */
  const Initial: State := State(TotalTime, false, false)

  /** What holds in every reachable state: the time stays within one session, the session is
      completed exactly when no time is left, and a completed timer is not running. */
  predicate Valid(s: State) {
    && 0 <= s.timeLeft <= TotalTime
    && (s.isCompleted <==> s.timeLeft == 0)
    && (s.isCompleted ==> !s.isRunning)
  }

  /** One second: an interval exists only while running with time left; a tick from one
      second or less finishes the session, any other takes one second off. */
  function TickStep(s: State): (r: State)
    ensures Valid(s) ==> Valid(r)
    ensures !(s.isRunning && s.timeLeft > 0) ==> r == s
    ensures s.isRunning && s.timeLeft > 1 ==> r == s.(timeLeft := s.timeLeft - 1)
    ensures s.isRunning && 0 < s.timeLeft <= 1 ==> r == State(0, false, true)
  {
    if !(s.isRunning && s.timeLeft > 0) then s
    else if s.timeLeft <= 1 then State(0, false, true)
    else s.(timeLeft := s.timeLeft - 1)
  }

  /** handleStart: a completed session starts over from the full time; otherwise the timer
      resumes where it stopped. */
  function StartStep(s: State): (r: State)
    ensures Valid(s) ==> Valid(r)
    ensures r.isRunning && !r.isCompleted
    ensures s.isCompleted ==> r.timeLeft == TotalTime
    ensures !s.isCompleted ==> r.timeLeft == s.timeLeft
  {
    if s.isCompleted then State(TotalTime, true, false) else s.(isRunning := true)
  }

  /** handlePause: stops without touching the time. */
  function PauseStep(s: State): (r: State)
    ensures Valid(s) ==> Valid(r)
    ensures !r.isRunning && r.timeLeft == s.timeLeft && r.isCompleted == s.isCompleted
  {
    s.(isRunning := false)
  }

  /** handleReset: back to the initial state from anywhere. */
  function ResetStep(s: State): (r: State)
    ensures Valid(r) && r == Initial
  {
    Initial
  }

  /** `n` ticks of the interval. */
  function Ticks(s: State, n: nat): State
    decreases n
  {
    if n == 0 then s else Ticks(TickStep(s), n - 1)
  }

  /** A running timer counts down one second per tick, finishing after exactly timeLeft ticks
      and staying finished after that. */
  lemma {:induction false} CountDown(s: State, n: nat)
    requires Valid(s) && s.isRunning
    ensures var r := Ticks(s, n);
            && Valid(r)
            && (n < s.timeLeft ==> r == s.(timeLeft := s.timeLeft - n))
            && (n >= s.timeLeft ==> r == State(0, false, true))
    decreases n
  {
    if n > 0 {
      var t := TickStep(s);
      if s.timeLeft > 1 {
        CountDown(t, n - 1);
      } else {
        FinishedStays(t, n - 1);
      }
    }
  }

  /** Ticks do nothing to a timer that is not running. */
  lemma {:induction false} FinishedStays(s: State, n: nat)
    requires !s.isRunning
    ensures Ticks(s, n) == s
    decreases n
  {
    if n > 0 {
      FinishedStays(TickStep(s), n - 1);
    }
  }

  /** A session started from the initial state completes after 900 ticks and not before. */
  lemma FullSession(n: nat)
    ensures var r := Ticks(StartStep(Initial), n);
            r.isCompleted <==> n >= TotalTime
  {
    CountDown(StartStep(Initial), n);
  }

  /** The timer component: the three state variables and the handlers that set them. */
  class Timer {
    var timeLeft: int
    var isRunning: bool
    var isCompleted: bool

    function Snapshot(): State
      reads this
    {
      State(timeLeft, isRunning, isCompleted)
    }

    constructor ()
      ensures Snapshot() == Initial && Valid(Snapshot())
    {
      timeLeft := TotalTime;
      isRunning := false;
      isCompleted := false;
    }

    /** The interval callback: the functional update of timeLeft, and on finishing, the stop
        and the completion flag. */
    method Tick()
      modifies this
      ensures Snapshot() == TickStep(old(Snapshot()))
      ensures old(Valid(Snapshot())) ==> Valid(Snapshot())
    {
      if isRunning && timeLeft > 0 {
        var prev := timeLeft;
        if prev <= 1 {
          isRunning := false;
          isCompleted := true;
          timeLeft := 0;
        } else {
          timeLeft := prev - 1;
        }
      }
    }

    method Start()
      modifies this
      ensures Snapshot() == StartStep(old(Snapshot()))
      ensures old(Valid(Snapshot())) ==> Valid(Snapshot())
    {
      if isCompleted {
        timeLeft := TotalTime;
        isCompleted := false;
      }
      isRunning := true;
    }

    method Pause()
      modifies this
      ensures Snapshot() == PauseStep(old(Snapshot()))
      ensures old(Valid(Snapshot())) ==> Valid(Snapshot())
    {
      isRunning := false;
    }

    method Reset()
      modifies this
      ensures Snapshot() == ResetStep(old(Snapshot()))
      ensures Valid(Snapshot())
    {
      isRunning := false;
      timeLeft := TotalTime;
      isCompleted := false;
    }
  }

  /** The value of a string of decimal digits, most significant first. */
  function DigitsValue(s: string): int {
    if s == [] then 0 else 10 * DigitsValue(s[..|s| - 1]) + DigitValue(s[|s| - 1])
  }

  lemma {:induction false} DecimalValue(n: nat)
    ensures DigitsValue(Decimal(n)) == n
  {
    if n >= 10 {
      DecimalValue(n / 10);
      var d := Decimal(n / 10);
      assert (d + [DigitChar(n % 10)])[..|d|] == d;
    }
  }

  /** Padding a number's digits to two does not change their value. */
  lemma PadValue(n: nat)
    ensures DigitsValue(PadStart2(Decimal(n))) == n
  {
    DecimalValue(n);
    var d := Decimal(n);
    if |d| < 2 {
      var p := PadStart2(d);
      assert p == ['0', d[0]];
      assert p[..1] == ['0'];
      assert ['0'][..0] == [];
    }
  }

  /** formatTime(seconds): minutes, a colon and seconds, each with at least two digits. */
  function FormatTime(seconds: nat): (r: string)
    ensures |r| >= 5 && r[|r| - 3] == ':'
    ensures seconds < 6000 ==> |r| == 5
  {
    var m := PadStart2(Decimal(seconds / 60));
    var s := PadStart2(Decimal(seconds % 60));
    assert |Decimal(seconds % 60)| == 1 || |Decimal(seconds % 60)| == 2 by {
      if seconds % 60 >= 10 {
        assert Decimal(seconds % 60) == Decimal(seconds % 60 / 10) + [DigitChar(seconds % 60 % 10)];
      }
    }
    assert seconds < 6000 ==> |Decimal(seconds / 60)| <= 2 by {
      if 10 <= seconds / 60 < 100 {
        assert Decimal(seconds / 60) == Decimal(seconds / 60 / 10) + [DigitChar(seconds / 60 % 10)];
      }
    }
    m + ":" + s
  }

  /** Reading the display back as minutes and seconds gives the seconds it shows. */
  lemma FormatTimeReadsBack(seconds: nat)
    ensures var r := FormatTime(seconds);
            60 * DigitsValue(r[..|r| - 3]) + DigitsValue(r[|r| - 2..]) == seconds
            && DigitsValue(r[|r| - 2..]) < 60
  {
    var m := PadStart2(Decimal(seconds / 60));
    var s := PadStart2(Decimal(seconds % 60));
    var r := FormatTime(seconds);
    assert r == m + ":" + s;
    assert |s| == 2;
    assert r[..|r| - 3] == m;
    assert r[|r| - 2..] == s;
    PadValue(seconds / 60);
    PadValue(seconds % 60);
  }
}
