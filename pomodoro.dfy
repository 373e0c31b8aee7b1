/** The Pomodoro study timer: a count of seconds left, a study/break phase
    and a running flag, driven by start, pause, reset and a one-second tick
    that completes the phase when the count reaches zero. The two minute
    fields of the page are read afresh by every operation that needs them,
    so they are an argument of those operations. */
module Pomodoro {
  import opened Wrappers
  import opened Text

  const DefaultStudyMinutes: int := 25
  const DefaultBreakMinutes: int := 5

  /** What `parseInt` makes of the study and break minute fields; `None`
      stands for NaN (an empty or non-numeric field). */
  datatype Fields = Fields(study: Option<int>, rest: Option<int>)

  /** `parseInt(field) || default`: NaN and 0 both fall back to the default. */
  function MinutesOr(field: Option<int>, default: int): (m: int)
    ensures default != 0 ==> m != 0
    ensures field.Some? && field.value != 0 ==> m == field.value
    ensures (field.None? || field.value == 0) ==> m == default
  {
    match field
    case None => default
    case Some(m) => if m == 0 then default else m
  }

  function StudySeconds(fields: Fields): int {
    MinutesOr(fields.study, DefaultStudyMinutes) * 60
  }

  function BreakSeconds(fields: Fields): int {
    MinutesOr(fields.rest, DefaultBreakMinutes) * 60
  }

  /** The configured length of the study phase or of the break phase. */
  function PhaseSeconds(isBreakTime: bool, fields: Fields): int {
    if isBreakTime then BreakSeconds(fields) else StudySeconds(fields)
  }

  /** The values of the count that `startTimer` takes for "not started yet":
      0 and the two default lengths, 25 and 5 minutes. */
  predicate IsFresh(currentTime: int) {
    currentTime == 0 || currentTime == DefaultStudyMinutes * 60 ||
    currentTime == DefaultBreakMinutes * 60
  }

  // ---------------------------------------------------------------------
  // The timer as a value and its transitions
  // ---------------------------------------------------------------------

  datatype Timer = Timer(running: bool, currentTime: int, isBreakTime: bool)

  /** The state on page load: stopped, study phase, 25 minutes. */
  const Initial: Timer := Timer(false, DefaultStudyMinutes * 60, false)

  /** `startTimer`: no effect while running; otherwise a fresh count is
      reloaded from the current phase's field and the timer runs. */
  function StartStep(t: Timer, fields: Fields): Timer {
    if t.running then t
    else
      var time := if IsFresh(t.currentTime) then PhaseSeconds(t.isBreakTime, fields)
                  else t.currentTime;
      Timer(true, time, t.isBreakTime)
  }

  /** `pauseTimer`: stops the timer and keeps the count and the phase. */
  function PauseStep(t: Timer): Timer {
    t.(running := false)
  }

  /** `resetTimer`: stopped, study phase, count from the study field. */
  function ResetStep(fields: Fields): Timer {
    Timer(false, StudySeconds(fields), false)
  }

  /** `timerComplete`: stopped, the other phase, its full length. */
  function CompleteStep(t: Timer, fields: Fields): Timer {
    Timer(false, PhaseSeconds(!t.isBreakTime, fields), !t.isBreakTime)
  }

  /** The interval callback: one second off the count, and completion when
      the count is no longer positive. The callback exists only while the
      timer runs. */
  function TickStep(t: Timer, fields: Fields): Timer
    requires t.running
  {
    var time := t.currentTime - 1;
    if time <= 0 then CompleteStep(t.(currentTime := time), fields)
    else t.(currentTime := time)
  }

  /** `k` firings of the interval: once the timer has stopped, the interval
      is cleared and nothing more happens. */
  function Run(t: Timer, fields: Fields, k: nat): Timer
    decreases k
  {
    if k == 0 || !t.running then t else Run(TickStep(t, fields), fields, k - 1)
  }

  // ---------------------------------------------------------------------
  // What the transitions promise
  // ---------------------------------------------------------------------

  /** Start while running does nothing, so one interval at most ever runs;
      pause while stopped does nothing. */
  lemma StartPauseGuards(t: Timer, fields: Fields)
    ensures t.running ==> StartStep(t, fields) == t
    ensures !t.running ==> PauseStep(t) == t
    ensures StartStep(t, fields).running && !PauseStep(t).running
  {
  }

  /** Pausing and starting again resumes from the paused count, in the same
      phase, unless that count looks fresh, in which case the phase's field
      is read again. */
  lemma PauseThenStart(t: Timer, fields: Fields)
    requires t.running
    ensures !IsFresh(t.currentTime) ==> StartStep(PauseStep(t), fields) == t
    ensures IsFresh(t.currentTime) ==>
      StartStep(PauseStep(t), fields) == t.(currentTime := PhaseSeconds(t.isBreakTime, fields))
  {
  }

  /** A session started right after a reset, with the fields unchanged,
      runs the study phase for exactly the study field's length, whether or
      not that length happens to look fresh. */
  lemma ResetThenStart(fields: Fields)
    ensures StartStep(ResetStep(fields), fields) == Timer(true, StudySeconds(fields), false)
  {
  }

  /** Likewise right after a completion: the next session is the other
      phase at its field's full length. */
  lemma CompleteThenStart(t: Timer, fields: Fields)
    ensures StartStep(CompleteStep(t, fields), fields)
         == Timer(true, PhaseSeconds(!t.isBreakTime, fields), !t.isBreakTime)
  {
  }

  /** The fields are not read again on start unless the count looks fresh:
      after a reset to a length other than 0, 25 or 5 minutes, an edit of the
      study field before start is ignored. */
  lemma StartKeepsStaleLength(before: Fields, after: Fields)
    requires !IsFresh(StudySeconds(before))
    ensures StartStep(ResetStep(before), after).currentTime == StudySeconds(before)
  {
  }

  /** `|| 25` and `|| 5` make sure neither length is ever zero; a field that
      is empty, zero or positive gives a positive length. */
  lemma LengthsNeverZero(fields: Fields)
    ensures StudySeconds(fields) != 0 && BreakSeconds(fields) != 0
    ensures (fields.study.None? || fields.study.value >= 0) ==> StudySeconds(fields) > 0
    ensures (fields.rest.None? || fields.rest.value >= 0) ==> BreakSeconds(fields) > 0
  {
  }

  /** Before the count runs out, each tick takes exactly one second off and
      the timer keeps running in the same phase. */
  lemma {:induction false} TicksCountDown(t: Timer, fields: Fields, k: nat)
    requires t.running && k < t.currentTime
    ensures Run(t, fields, k) == t.(currentTime := t.currentTime - k)
    decreases k
  {
    if k > 0 {
      var next := TickStep(t, fields);
      assert next == t.(currentTime := t.currentTime - 1);
      TicksCountDown(next, fields, k - 1);
    }
  }

  /** A running timer with `n` seconds left completes on the `n`-th tick,
      exactly once: after it the timer is stopped in the other phase with
      that phase's full length, and further ticks change nothing. */
  lemma CompletesOnce(t: Timer, fields: Fields, extra: nat)
    requires t.running && t.currentTime >= 1
    ensures Run(t, fields, t.currentTime - 1).running
    ensures Run(t, fields, t.currentTime + extra) == CompleteStep(t, fields)
  {
    var n := t.currentTime;
    TicksCountDown(t, fields, n - 1);
    var last := t.(currentTime := 1);
    assert Run(t, fields, n - 1) == last;
    RunSplit(t, fields, n - 1, 1 + extra);
    assert Run(last, fields, 1 + extra) == Run(CompleteStep(t, fields), fields, extra);
    StoppedStays(CompleteStep(t, fields), fields, extra);
  }

  /** Running `a` ticks and then `b` more is running `a + b` ticks. */
  lemma {:induction false} RunSplit(t: Timer, fields: Fields, a: nat, b: nat)
    ensures Run(t, fields, a + b) == Run(Run(t, fields, a), fields, b)
    decreases a
  {
    if a > 0 && t.running {
      RunSplit(TickStep(t, fields), fields, a - 1, b);
    } else if !t.running {
      StoppedStays(t, fields, b);
      StoppedStays(t, fields, a + b);
    }
  }

  /** A stopped timer receives no ticks. */
  lemma StoppedStays(t: Timer, fields: Fields, k: nat)
    requires !t.running
    ensures Run(t, fields, k) == t
  {
  }

  /** The worked case: with a one-minute study field, starting from reset
      and letting 60 ticks pass completes the study phase and leaves the
      timer stopped at the break length. */
  lemma OneMinuteStudySession(fields: Fields)
    requires fields.study == Some(1)
    ensures var started := StartStep(ResetStep(fields), fields);
      started == Timer(true, 60, false) &&
      Run(started, fields, 59).running &&
      Run(started, fields, 60) == Timer(false, BreakSeconds(fields), true)
  {
    var started := StartStep(ResetStep(fields), fields);
    CompletesOnce(started, fields, 0);
  }

  // ---------------------------------------------------------------------
  // A count the display can show
  // ---------------------------------------------------------------------

  /** Minute fields between 1 and 99 (or empty, giving the default). */
  predicate ReasonableFields(fields: Fields) {
    1 <= MinutesOr(fields.study, DefaultStudyMinutes) <= 99 &&
    1 <= MinutesOr(fields.rest, DefaultBreakMinutes) <= 99
  }

  /** At least one second and less than 100 minutes left. */
  predicate Showable(t: Timer) {
    1 <= t.currentTime < 6000
  }

  /** With reasonable minute fields every operation keeps the count between
      one second and 99:59, so the count never rests at zero and the
      display always has its five-character form. */
  lemma ShowablePreserved(t: Timer, fields: Fields)
    requires Showable(t) && ReasonableFields(fields)
    ensures Showable(Initial) && Showable(ResetStep(fields))
    ensures Showable(StartStep(t, fields)) && Showable(PauseStep(t))
    ensures Showable(CompleteStep(t, fields))
    ensures t.running ==> Showable(TickStep(t, fields))
  {
  }

  // ---------------------------------------------------------------------
  // MM:SS
  // ---------------------------------------------------------------------

  /** JavaScript's `%`: the remainder of the magnitudes, with the sign of
      the dividend (Dafny's own `%` is never negative). */
  function JsRemainder(a: int, b: int): (r: int)
    requires b > 0
    ensures a >= 0 ==> 0 <= r < b
    ensures a < 0 ==> -b < r <= 0
  {
    if a >= 0 then a % b else -((-a) % b)
  }

  /** The remainder differs from the dividend by a multiple of the divisor;
      with the two ranges of `JsRemainder` this fixes it as the remainder
      of a division that truncates toward zero. */
  lemma JsRemainderCongruent(a: int, b: int)
    requires b > 0
    ensures (a - JsRemainder(a, b)) % b == 0
  {
    if a >= 0 {
      var q, r := a / b, a % b;
      assert a - r == q * b;
      MultipleMod(q, b);
    } else {
      var m := -a;
      var q, r := m / b, m % b;
      assert m - r == q * b;
      assert a - JsRemainder(a, b) == (-q) * b;
      MultipleMod(-q, b);
    }
  }

  /** A multiple of `b` leaves no remainder. */
  lemma MultipleMod(q: int, b: int)
    requires b > 0
    ensures (q * b) % b == 0
  {
    var m := q * b;
    var d := q - m / b;
    assert d * b == m - (m / b) * b == m % b;
    if d >= 1 {
      assert d * b == (d - 1) * b + b;
      MulNonNegative(d - 1, b);
    } else if d <= -1 {
      assert d * b == (d + 1) * b - b;
      MulNonNegative(-(d + 1), b);
    }
  }

  lemma MulNonNegative(x: nat, b: nat)
    ensures x * b >= 0
  {
  }

  /** `updateTimerDisplay`'s text: `Math.floor(t / 60)` and `t % 60`, each
      written out and padded to two characters, joined by a colon. */
  function Display(currentTime: int): string {
    PadStart2(IntToString(currentTime / 60)) + ":" +
    PadStart2(IntToString(JsRemainder(currentTime, 60)))
  }

  /** Reads an "MM:SS" text back into seconds. */
  function ParseClock(s: string): Option<int> {
    if |s| == 5 && s[2] == ':' && IsDigits(s[..2]) && IsDigits(s[3..]) &&
       DigitsValue(s[3..]) < 60
    then Some(60 * DigitsValue(s[..2]) + DigitsValue(s[3..]))
    else None
  }

  /** Below 100 minutes the display is exactly five characters, "MM:SS",
      and reading it back gives the count it shows. */
  lemma DisplayRoundTrip(currentTime: int)
    requires 0 <= currentTime < 6000
    ensures |Display(currentTime)| == 5
    ensures ParseClock(Display(currentTime)) == Some(currentTime)
  {
    var minutes, seconds := currentTime / 60, currentTime % 60;
    TwoDigits(minutes);
    TwoDigits(seconds);
    var s := Display(currentTime);
    assert s[..2] == PadStart2(Decimal(minutes));
    assert s[3..] == PadStart2(Decimal(seconds));
  }

  /** The default break length shows as "05:00", and 61 seconds as "01:01". */
  lemma DisplayExamples()
    ensures Display(300) == "05:00" && Display(61) == "01:01"
  {
    assert 300 / 60 == 5 && JsRemainder(300, 60) == 0;
    assert 61 / 60 == 1 && JsRemainder(61, 60) == 1;
  }

  /** A count made negative by a negative minute field shows a minus sign
      in both halves: -61 seconds is "-2:-1". */
  lemma NegativeCountDisplay()
    ensures Display(-61) == "-2:-1"
  {
    assert -61 / 60 == -2 && JsRemainder(-61, 60) == -1;
  }

  /** Every showable count is displayed as "MM:SS". */
  lemma ShowableDisplays(t: Timer)
    requires Showable(t)
    ensures ParseClock(Display(t.currentTime)) == Some(t.currentTime)
  {
    DisplayRoundTrip(t.currentTime);
  }

  // ---------------------------------------------------------------------
  // The timer object of the page
  // ---------------------------------------------------------------------

  /** The page's global timer variables, changed in place. */
  class PomodoroTimer {
    var timerRunning: bool
    var currentTime: int
    var isBreakTime: bool

    function State(): Timer
      reads this
    {
      Timer(timerRunning, currentTime, isBreakTime)
    }

    constructor ()
      ensures State() == Initial
    {
      timerRunning := false;
      currentTime := DefaultStudyMinutes * 60;
      isBreakTime := false;
    }

    method Start(fields: Fields)
      modifies this
      ensures State() == StartStep(old(State()), fields)
    {
      if !timerRunning {
        if currentTime == 0 || currentTime == 25 * 60 || currentTime == 5 * 60 {
          var studyMinutes := MinutesOr(fields.study, DefaultStudyMinutes);
          var breakMinutes := MinutesOr(fields.rest, DefaultBreakMinutes);
          if !isBreakTime {
            currentTime := studyMinutes * 60;
          } else {
            currentTime := breakMinutes * 60;
          }
        }
        timerRunning := true;
      }
    }

    method Pause()
      modifies this
      ensures State() == PauseStep(old(State()))
    {
      if timerRunning {
        timerRunning := false;
      }
    }

    method Reset(fields: Fields)
      modifies this
      ensures State() == ResetStep(fields)
    {
      timerRunning := false;
      var studyMinutes := MinutesOr(fields.study, DefaultStudyMinutes);
      currentTime := studyMinutes * 60;
      isBreakTime := false;
    }

    method Complete(fields: Fields)
      modifies this
      ensures State() == CompleteStep(old(State()), fields)
    {
      timerRunning := false;
      if !isBreakTime {
        isBreakTime := true;
        var breakMinutes := MinutesOr(fields.rest, DefaultBreakMinutes);
        currentTime := breakMinutes * 60;
      } else {
        isBreakTime := false;
        var studyMinutes := MinutesOr(fields.study, DefaultStudyMinutes);
        currentTime := studyMinutes * 60;
      }
    }

    /** One firing of the interval `startTimer` sets up. */
    method Tick(fields: Fields)
      requires timerRunning
      modifies this
      ensures State() == TickStep(old(State()), fields)
    {
      currentTime := currentTime - 1;
      if currentTime <= 0 {
        Complete(fields);
      }
    }
  }
}
