/** The App component's timer as an object: its four state cells are
    fields that the control operations update in place, and the alert that
    the completion step plays is counted in a fifth field. The effect that
    the component schedules with setInterval is split into two explicit
    steps, Tick (one firing of the interval) and Complete (the branch taken
    at zero), which the host calls in arrival order.
 */
module Pomodoro {
  import opened PomodoroState
  import opened ClockDisplay

  class Timer {
    var timeLeft: int
    var isRunning: bool
    var mode: Mode
    var sessions: nat
    var notified: nat

    /** The fields as a value of the state machine in PomodoroState. */
    function Snapshot(): State
      reads this
    {
      State(timeLeft, isRunning, mode, sessions, notified)
    }

    ghost predicate Valid()
      reads this
    {
      Inv(Snapshot())
    }

    /** Mounting the component: a stopped, full work period, no sessions. */
    constructor ()
      ensures Valid() && Snapshot() == Initial
      ensures timeLeft == 1500 && !isRunning && mode == Work && sessions == 0 && notified == 0
    {
      timeLeft := 25 * 60;
      isRunning := false;
      mode := Work;
      sessions := 0;
      notified := 0;
    }

    /** toggleTimer: start or pause; nothing else moves. */
    method ToggleTimer()
      modifies this
      ensures isRunning == !old(isRunning)
      ensures timeLeft == old(timeLeft) && mode == old(mode)
      ensures sessions == old(sessions) && notified == old(notified)
      ensures Snapshot() == Step(old(Snapshot()), Event.Toggle)
      ensures old(Valid()) ==> Valid()
    {
      isRunning := !isRunning;
    }

    /** resetTimer: stop and refill the period of the current mode. */
    method ResetTimer()
      modifies this
      ensures !isRunning && timeLeft == Duration(old(mode))
      ensures mode == old(mode) && sessions == old(sessions) && notified == old(notified)
      ensures Snapshot() == Step(old(Snapshot()), Event.Reset)
      ensures Valid()
    {
      isRunning := false;
      timeLeft := if mode == Work then 25 * 60 else 5 * 60;
    }

    /** switchMode: the other mode, its full period, stopped; one more
        session only when the new mode is work. */
    method SwitchMode()
      modifies this
      ensures mode == Other(old(mode)) && timeLeft == Duration(mode) && !isRunning
      ensures sessions == if mode == Work then old(sessions) + 1 else old(sessions)
      ensures notified == old(notified)
      ensures Snapshot() == Step(old(Snapshot()), Event.Switch)
      ensures Valid()
    {
      var newMode := if mode == Work then Break else Work;
      mode := newMode;
      timeLeft := if newMode == Work then 25 * 60 else 5 * 60;
      isRunning := false;
      if newMode == Work {
        sessions := sessions + 1;
      }
    }

    /** One firing of the one-second interval, which exists only while the
        timer runs with time left. */
    method Tick()
      modifies this
      ensures old(isRunning) && old(timeLeft) > 0 ==> timeLeft == old(timeLeft) - 1
      ensures !(old(isRunning) && old(timeLeft) > 0) ==> timeLeft == old(timeLeft)
      ensures isRunning == old(isRunning) && mode == old(mode)
      ensures sessions == old(sessions) && notified == old(notified)
      ensures Snapshot() == Step(old(Snapshot()), Event.Tick)
      ensures old(Valid()) ==> Valid()
    {
      if isRunning && timeLeft > 0 {
        timeLeft := timeLeft - 1;
      }
    }

    /** The effect's branch at zero: play the alert, then switchMode. With
        time left it is not taken. */
    method Complete()
      modifies this
      ensures old(timeLeft) == 0 ==>
        notified == old(notified) + 1 &&
        mode == Other(old(mode)) && timeLeft == Duration(mode) && !isRunning &&
        sessions == (if mode == Work then old(sessions) + 1 else old(sessions))
      ensures old(timeLeft) != 0 ==> Snapshot() == old(Snapshot())
      ensures Snapshot() == Step(old(Snapshot()), Event.Complete)
      ensures old(Valid()) ==> Valid()
    {
      if timeLeft == 0 {
        notified := notified + 1;
        SwitchMode();
      }
    }

    /** The `MM:SS` text the component renders for the current countdown. */
    function Display(): (text: string)
      reads this
      requires Valid()
      ensures |text| == 5 && text[2] == ':'
      ensures IsDigit(text[0]) && IsDigit(text[1]) && IsDigit(text[3]) && IsDigit(text[4])
      ensures TwoDigitValue(text[0], text[1]) <= 25
      ensures TwoDigitValue(text[3], text[4]) < 60
      ensures TwoDigitValue(text[0], text[1]) * 60 + TwoDigitValue(text[3], text[4]) == timeLeft
    {
      ClockTextRoundTrip(timeLeft);
      ClockText(timeLeft)
    }
  }
}
