/** The Pomodoro timer as a state machine over values.

    The four state cells of the App component (timeLeft, isRunning, mode,
    sessions) plus a counter of the completion alerts that were played form
    one State value. Each control operation of the component is a function
    from State to State; Step and Run apply a sequence of user and clock
    events. The class in timer.dfy updates its fields exactly as these
    functions say, so every lemma here holds of the running timer as well.
 */
module PomodoroState {

  datatype Mode = Work | Break

  /** Nominal length of a period in seconds: 25 minutes of work, 5 of break. */
  function Duration(m: Mode): (d: nat)
    ensures 0 < d <= 25 * 60
  {
    if m == Work then 25 * 60 else 5 * 60
  }

  /** The mode switchMode moves to. */
  function Other(m: Mode): (o: Mode)
    ensures o != m
  {
    if m == Work then Break else Work
  }

  /** timeLeft, isRunning, mode and sessions are the component's state;
      notified counts the alert sounds started on completion. */
  datatype State = State(timeLeft: int, isRunning: bool, mode: Mode, sessions: nat, notified: nat)

  /** The state the component is mounted with. */
  const Initial := State(25 * 60, false, Work, 0, 0)

  /** The countdown never leaves the current mode's range. */
  predicate Inv(s: State)
  {
    0 <= s.timeLeft <= Duration(s.mode)
  }

  /** toggleTimer: flip the running flag. */
  function AfterToggle(s: State): State
  {
    s.(isRunning := !s.isRunning)
  }

  /** resetTimer: stop and refill the current mode's period. */
  function AfterReset(s: State): State
  {
    s.(isRunning := false, timeLeft := Duration(s.mode))
  }

  /** switchMode: move to the other mode with its full period, stopped; a
      session is counted only when the new mode is work. */
  function AfterSwitch(s: State): State
  {
    var newMode := Other(s.mode);
    s.(mode := newMode, timeLeft := Duration(newMode), isRunning := false,
       sessions := if newMode == Work then s.sessions + 1 else s.sessions)
  }

  /** One firing of the one-second interval: the interval exists only while
      the timer runs with time left, and it takes one second off. */
  function AfterTick(s: State): State
  {
    if s.isRunning && s.timeLeft > 0 then s.(timeLeft := s.timeLeft - 1) else s
  }

  /** The effect's zero branch: play the alert, then switchMode. With time
      left the branch is not taken. */
  function AfterComplete(s: State): State
  {
    if s.timeLeft == 0 then AfterSwitch(s.(notified := s.notified + 1)) else s
  }

  datatype Event = Toggle | Reset | Switch | Tick | Complete

  function Step(s: State, e: Event): State
  {
    match e
    case Toggle => AfterToggle(s)
    case Reset => AfterReset(s)
    case Switch => AfterSwitch(s)
    case Tick => AfterTick(s)
    case Complete => AfterComplete(s)
  }

  /** Events applied one after the other, in arrival order. */
  function Run(s: State, es: seq<Event>): State
    decreases |es|
  {
    if es == [] then s else Run(Step(s, es[0]), es[1..])
  }

  /** n clock ticks in a row. */
  function Ticks(s: State, n: nat): State
    decreases n
  {
    if n == 0 then s else Ticks(AfterTick(s), n - 1)
  }

  /** k switchMode calls in a row. */
  function Switches(s: State, k: nat): State
    decreases k
  {
    if k == 0 then s else Switches(AfterSwitch(s), k - 1)
  }

  /** The user starts the timer and lets a whole period of the current mode
      elapse; the effect then completes it. */
  function FullPeriod(s: State): State
  {
    AfterComplete(Ticks(AfterToggle(s), Duration(s.mode)))
  }

  /** n rounds of a full period followed by another full period. */
  function Cycles(s: State, n: nat): State
    decreases n
  {
    if n == 0 then s else Cycles(FullPeriod(FullPeriod(s)), n - 1)
  }

  function Max(a: int, b: int): int
  {
    if a < b then b else a
  }

  // ---------------------------------------------------------------------
  // One operation at a time

  lemma InitialIsFullWorkPeriod()
    ensures Inv(Initial)
    ensures Initial.mode == Work && Initial.timeLeft == Duration(Work) == 1500
    ensures !Initial.isRunning && Initial.sessions == 0
  {
  }

  /** Toggling changes the running flag only, and twice is no change at all. */
  lemma ToggleInvolution(s: State)
    ensures AfterToggle(s).isRunning == !s.isRunning
    ensures AfterToggle(s).(isRunning := s.isRunning) == s
    ensures AfterToggle(AfterToggle(s)) == s
  {
  }

  /** Reset stops the timer at the full period of the CURRENT mode. */
  lemma ResetRestoresCurrentPeriod(s: State)
    ensures !AfterReset(s).isRunning
    ensures AfterReset(s).mode == s.mode && AfterReset(s).sessions == s.sessions
    ensures AfterReset(s).notified == s.notified
    ensures AfterReset(s).timeLeft == 1500 <==> s.mode == Work
    ensures AfterReset(s).timeLeft == 300 <==> s.mode == Break
    ensures Inv(AfterReset(s))
    ensures AfterReset(AfterReset(s)) == AfterReset(s)
  {
  }

  /** switchMode flips the mode, refills and stops; it counts a session
      exactly when it enters work. */
  lemma SwitchFlipsMode(s: State)
    ensures AfterSwitch(s).mode != s.mode
    ensures AfterSwitch(s).timeLeft == Duration(AfterSwitch(s).mode)
    ensures !AfterSwitch(s).isRunning && Inv(AfterSwitch(s))
    ensures s.mode == Break ==> AfterSwitch(s).sessions == s.sessions + 1
    ensures s.mode == Work ==> AfterSwitch(s).sessions == s.sessions
    ensures AfterSwitch(s).notified == s.notified
  {
  }

  /** Two switches come back to the same mode, full and stopped, with
      exactly one more session. */
  lemma SwitchTwice(s: State)
    ensures AfterSwitch(AfterSwitch(s)) ==
      s.(timeLeft := Duration(s.mode), isRunning := false, sessions := s.sessions + 1)
  {
  }

  /** A tick takes exactly one second off a running timer with time left and
      does nothing otherwise; it never goes below zero. */
  lemma TickDecrements(s: State)
    ensures s.isRunning && s.timeLeft > 0 ==> AfterTick(s) == s.(timeLeft := s.timeLeft - 1)
    ensures !(s.isRunning && s.timeLeft > 0) ==> AfterTick(s) == s
    ensures s.timeLeft >= 0 ==> AfterTick(s).timeLeft >= 0
  {
  }

  /** Completion at zero is one alert followed by switchMode: the other
      mode, full and stopped, with the session rule of switchMode; with time
      left it changes nothing. */
  lemma CompleteAtZero(s: State)
    ensures s.timeLeft == 0 ==>
      AfterComplete(s).notified == s.notified + 1 &&
      AfterComplete(s).mode == Other(s.mode) &&
      AfterComplete(s).timeLeft == Duration(Other(s.mode)) &&
      !AfterComplete(s).isRunning &&
      AfterComplete(s).sessions == (if s.mode == Break then s.sessions + 1 else s.sessions)
    ensures s.timeLeft == 0 ==> AfterComplete(s) == AfterSwitch(s.(notified := s.notified + 1))
    ensures s.timeLeft != 0 ==> AfterComplete(s) == s
  {
  }

  /** Every operation keeps the countdown in range and never lowers the
      session or alert counts. */
  lemma StepPreservesInv(s: State, e: Event)
    requires Inv(s)
    ensures Inv(Step(s, e))
    ensures Step(s, e).sessions >= s.sessions && Step(s, e).notified >= s.notified
  {
  }

  // ---------------------------------------------------------------------
  // Sequences of operations

  /** Any run of events keeps the invariant, and sessions and alerts only grow. */
  lemma {:induction false} RunPreservesInv(s: State, es: seq<Event>)
    requires Inv(s)
    ensures Inv(Run(s, es))
    ensures Run(s, es).sessions >= s.sessions
    ensures Run(s, es).notified >= s.notified
    decreases |es|
  {
    if es != [] {
      StepPreservesInv(s, es[0]);
      RunPreservesInv(Step(s, es[0]), es[1..]);
    }
  }

  /** Every state the component can reach from mounting satisfies Inv. */
  lemma ReachableInv(es: seq<Event>)
    ensures Inv(Run(Initial, es)) && Run(Initial, es).timeLeft >= 0
  {
    RunPreservesInv(Initial, es);
  }

  /** Ticks count down one second each while running, stopping at zero;
      a paused timer does not move. */
  lemma {:induction false} TicksCountDown(s: State, n: nat)
    requires s.timeLeft >= 0
    ensures Ticks(s, n) == if s.isRunning then s.(timeLeft := Max(0, s.timeLeft - n)) else s
    decreases n
  {
    if n > 0 {
      TicksCountDown(AfterTick(s), n - 1);
    }
  }

  /** k switches: the mode alternates, and a session is counted once per
      entry into work. */
  lemma {:induction false} SwitchesCountEntriesIntoWork(s: State, k: nat)
    ensures Switches(s, k).mode == if k % 2 == 0 then s.mode else Other(s.mode)
    ensures Switches(s, k).sessions == s.sessions + (k + if s.mode == Break then 1 else 0) / 2
    ensures Switches(s, k).notified == s.notified
    ensures k > 0 ==> !Switches(s, k).isRunning && Switches(s, k).timeLeft == Duration(Switches(s, k).mode)
    decreases k
  {
    if k > 0 {
      SwitchesCountEntriesIntoWork(AfterSwitch(s), k - 1);
    }
  }

  /** Starting a stopped timer and letting the period run out reaches zero
      while still running; completion then alerts once and switches. */
  lemma FullPeriodSwitches(s: State)
    requires Inv(s) && !s.isRunning
    ensures Ticks(AfterToggle(s), Duration(s.mode)) == s.(timeLeft := 0, isRunning := true)
    ensures FullPeriod(s) == AfterSwitch(s.(notified := s.notified + 1))
  {
    TicksCountDown(AfterToggle(s), Duration(s.mode));
  }

  /** From mounting, start and 1500 ticks reach 0:00 still running; the
      completion gives a stopped break of 300 seconds and no session yet. */
  lemma WorkPeriodFromStart()
    ensures Ticks(AfterToggle(Initial), 1500) == State(0, true, Work, 0, 0)
    ensures AfterComplete(Ticks(AfterToggle(Initial), 1500)) == State(300, false, Break, 0, 1)
  {
    TicksCountDown(AfterToggle(Initial), 1500);
  }

  /** A work period followed by a break period returns to a full stopped work
      period with one more session and two more alerts. */
  lemma WorkThenBreak(s: State)
    requires s.mode == Work && s.timeLeft == Duration(Work) && !s.isRunning
    ensures FullPeriod(FullPeriod(s)) == s.(sessions := s.sessions + 1, notified := s.notified + 2)
  {
    FullPeriodSwitches(s);
    FullPeriodSwitches(FullPeriod(s));
  }

  /** n work-and-break rounds count n sessions and 2n alerts. */
  lemma {:induction false} CyclesCountSessions(s: State, n: nat)
    requires s.mode == Work && s.timeLeft == Duration(Work) && !s.isRunning
    ensures Cycles(s, n) == s.(sessions := s.sessions + n, notified := s.notified + 2 * n)
    decreases n
  {
    if n > 0 {
      WorkThenBreak(s);
      CyclesCountSessions(FullPeriod(FullPeriod(s)), n - 1);
    }
  }

  /** From mounting, n completed rounds show n sessions. */
  lemma SessionsAfterRounds(n: nat)
    ensures Cycles(Initial, n).sessions == n
    ensures Cycles(Initial, n).notified == 2 * n
    ensures Cycles(Initial, n).mode == Work && Cycles(Initial, n).timeLeft == 1500
  {
    CyclesCountSessions(Initial, n);
  }
}
