/** The focus timer of UltimateTaskManager (`this.timer`): a 25-minute
    countdown in seconds, with start, pause, stop, the once-a-second tick of
    its interval, and completion. Each operation is a function from the old
    timer object to the new one. */
module FocusTimer {
  import opened Seqs
  import opened Tasks

  /** 25 minutes, in seconds. */
  const FocusSeconds: int := 25 * 60

  /** `this.timer`; the interval handle is represented by `active`, since
      the interval runs exactly while the timer is active. */
  datatype Timer = Timer(active: bool, time: int, originalTime: int, currentTask: Option<Task>)

  function Initial(): Timer {
    Timer(false, FocusSeconds, FocusSeconds, None)
  }

  /** What holds of the timer object between calls: a full session length
      and a countdown that has not yet reached zero. */
  ghost predicate TimerInvariant(t: Timer) {
    t.originalTime == FocusSeconds && 1 <= t.time <= t.originalTime
  }

  /** startTimer: does nothing when already running. */
  function Start(t: Timer): (r: Timer)
    ensures t.active ==> r == t
    ensures r.active && r.(active := t.active) == t
  {
    if t.active then t else t.(active := true)
  }

  /** pauseTimer: does nothing when not running; keeps the remaining time. */
  function Pause(t: Timer): (r: Timer)
    ensures !t.active ==> r == t
    ensures !r.active && r.(active := t.active) == t
  {
    if !t.active then t else t.(active := false)
  }

  /** stopTimer: pause, rewind to the session length, forget the task. */
  function Stop(t: Timer): (r: Timer)
    ensures !r.active && r.time == t.originalTime && r.originalTime == t.originalTime && r.currentTask == None
  {
    Pause(t).(time := t.originalTime, currentTask := None)
  }

  /** timerComplete. It stops first, so the task it would credit with the
      session's minutes is already gone when it looks. */
  function Complete(t: Timer): (r: Timer)
    ensures !r.active && r.time == t.originalTime && r.currentTask == None
  {
    Stop(t)
  }

  /** startFocusTimer: a fresh session with no task; a running interval keeps running. */
  function Focus(t: Timer): (r: Timer)
    ensures r == Timer(t.active, FocusSeconds, FocusSeconds, None)
  {
    t.(time := FocusSeconds, originalTime := FocusSeconds, currentTask := None)
  }

  /** startTimerForTask once the task is found: a fresh session for it. */
  function ForTask(t: Timer, task: Task): (r: Timer)
    ensures r == Timer(t.active, FocusSeconds, FocusSeconds, Some(task))
  {
    t.(time := FocusSeconds, originalTime := FocusSeconds, currentTask := Some(task))
  }

  /** The interval callback: one second off, completion when none are left. */
  function Tick(t: Timer): (r: Timer)
    requires t.active
    ensures r.active <==> t.time > 1
    ensures r.time == if t.time > 1 then t.time - 1 else t.originalTime
    ensures r.currentTask == if t.time > 1 then t.currentTask else None
    ensures r.originalTime == t.originalTime
  {
    var d := t.(time := t.time - 1);
    if d.time <= 0 then Complete(d) else d
  }

  /** A tick either counts down one second and keeps running, or, on the
      last second, stops and rewinds. */
  lemma TickCases(t: Timer)
    requires t.active && TimerInvariant(t)
    ensures t.time > 1 ==> Tick(t) == t.(time := t.time - 1)
    ensures t.time == 1 ==> Tick(t) == Timer(false, t.originalTime, t.originalTime, None)
  {
  }

  /** Every operation keeps the timer invariant. */
  lemma OperationsKeepInvariant(t: Timer, task: Task)
    requires TimerInvariant(t)
    ensures TimerInvariant(Start(t)) && TimerInvariant(Pause(t)) && TimerInvariant(Stop(t))
    ensures TimerInvariant(Focus(t)) && TimerInvariant(ForTask(t, task))
    ensures t.active ==> TimerInvariant(Tick(t))
  {
  }

  /** n seconds of the interval; once the timer is inactive no more ticks come. */
  function Ticks(t: Timer, n: nat): Timer
    decreases n
  {
    if n == 0 || !t.active then t else Ticks(Tick(t), n - 1)
  }

  /** Started with T seconds left, the timer is still running with T - n left
      after n < T seconds, and has stopped and rewound after exactly T. */
  lemma {:induction false} CountdownRunsToCompletion(t: Timer, n: nat)
    requires t.active && TimerInvariant(t)
    ensures n < t.time ==> Ticks(t, n) == t.(time := t.time - n)
    ensures n >= t.time ==> Ticks(t, n) == Timer(false, FocusSeconds, FocusSeconds, None)
    decreases n
  {
    if n > 0 {
      TickCases(t);
      if t.time > 1 {
        CountdownRunsToCompletion(Tick(t), n - 1);
      }
    }
  }
}
