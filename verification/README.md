# Pomodoro timer: a verified model of the timer state machine

The project models the one React component of a Pomodoro timer (`src/App.tsx`).
The timer alternates a 25-minute work period (1500 s) and a 5-minute break (300 s).
It counts sessions and plays an alert when a period runs out.

The component keeps four state cells: `timeLeft` (seconds), `isRunning`, `mode` (`work` or `break`) and `sessions`.
Five things change them: `toggleTimer`, `resetTimer`, `switchMode`, the one-second interval that the effect schedules, and the effect's branch taken at zero.
The model has three modules:

- `PomodoroState` (`pomodoro_state.dfy`) is the state machine over values.
  A `State` datatype holds the four cells and a `notified` counter that stands for the alert sound.
  There is one function per operation (`AfterToggle`, `AfterReset`, `AfterSwitch`, `AfterTick`, `AfterComplete`).
  `Step`, `Run`, `Ticks`, `Switches`, `FullPeriod` and `Cycles` apply sequences of operations.
  The lemmas about single operations and about whole runs are stated here.
- `Pomodoro` (`timer.dfy`) holds the class `Timer`.
  Its fields are the state cells, and its methods update them in place under `modifies this`.
  Each method states the new value of every field.
  Each method also ties its new state to the matching step of `PomodoroState`, so every lemma proved there holds of the object.
  The interval tick and the zero branch become two explicit methods, `Tick` and `Complete`, which the host calls in arrival order.
- `ClockDisplay` (`clock_display.dfy`) models the `MM:SS` text.
  Minutes are `Math.floor(t / 60)`, and seconds use JavaScript's truncating `t % 60`.
  Each field is the decimal `toString` of its number, padded on the left with `'0'` to two characters by `padStart`.

The invariant kept by every operation is `0 <= timeLeft <= Duration(mode)`.

Two consequences of the code are worth stating outright:

- `sessions` grows only when `switchMode` enters work (`src/App.tsx:26-28`), that is, when a break ends.
  So finishing the first work period gives break mode, 300 s and `sessions == 0` (`WorkPeriodFromStart`).
  Over n work-and-break rounds the count is n (`SessionsAfterRounds`).
- The last tick leaves the timer at 0 with `isRunning` still true (`src/App.tsx:34-37`).
  Only the completion step stops it, so `Inv` does not exclude running at zero.
  `FullPeriodSwitches` and `WorkPeriodFromStart` state this intermediate state.

## Model

| member | source | states |
|---|---|---|
| `PomodoroState.InitialIsFullWorkPeriod` | src/App.tsx:9-12 | the mounted state is a stopped work period of 1500 s with no sessions, and it satisfies the invariant |
| `Pomodoro.Timer.constructor` | src/App.tsx:9-12 | a new timer has timeLeft 1500, is stopped, in work mode, with 0 sessions and no alert played |
| `PomodoroState.ToggleInvolution` | src/App.tsx:14 | toggling flips `isRunning`, leaves every other field as it was, and toggling twice restores the state |
| `Pomodoro.Timer.ToggleTimer` | src/App.tsx:14 | flips `isRunning`; timeLeft, mode, sessions and alerts unchanged; the invariant is kept |
| `PomodoroState.ResetRestoresCurrentPeriod` | src/App.tsx:16-19 | reset stops the timer with timeLeft 1500 exactly in work mode and 300 exactly in break mode; mode, sessions and alerts unchanged; resetting twice equals resetting once |
| `Pomodoro.Timer.ResetTimer` | src/App.tsx:16-19 | stops, sets timeLeft to the duration of the unchanged current mode, keeps sessions and alerts; the invariant holds afterwards from any state |
| `PomodoroState.SwitchFlipsMode` | src/App.tsx:21-29 | switchMode changes the mode, sets the new mode's full duration, stops, adds a session exactly when leaving break and none when leaving work |
| `PomodoroState.SwitchTwice` | src/App.tsx:21-29 | two switches return to the original mode with its full duration, stopped, with exactly one more session |
| `PomodoroState.SwitchesCountEntriesIntoWork` | src/App.tsx:21-29 | after k switches the mode has flipped k times, and sessions grew by the number of entries into work, `(k + [started in break]) / 2` |
| `Pomodoro.Timer.SwitchMode` | src/App.tsx:21-29 | the other mode, its full duration, stopped; sessions plus one exactly when the new mode is work; alerts unchanged |
| `PomodoroState.TickDecrements` | src/App.tsx:34-37 | a tick takes exactly one second off a running timer with time left, is a no-op otherwise, and never makes timeLeft negative |
| `PomodoroState.TicksCountDown` | src/App.tsx:34-37 | n ticks leave a running timer at `max(0, timeLeft - n)` with nothing else changed, and leave a paused timer unchanged |
| `Pomodoro.Timer.Tick` | src/App.tsx:34-37 | decrements timeLeft by one exactly when running with time left; no other field changes; the invariant is kept |
| `PomodoroState.CompleteAtZero` | src/App.tsx:38-41 | at zero, completion is exactly one alert followed by switchMode: the other mode with its full duration, stopped, one more session exactly when entering work; with time left it changes nothing |
| `Pomodoro.Timer.Complete` | src/App.tsx:38-41 | at zero: one more alert, the other mode, its full duration, stopped, sessions plus one exactly when entering work; otherwise no field changes |
| `PomodoroState.StepPreservesInv` | src/App.tsx:14-41 | each of the five operations keeps `0 <= timeLeft <= Duration(mode)` and never lowers sessions or alerts |
| `PomodoroState.RunPreservesInv` | src/App.tsx:14-44 | any sequence of operations keeps the invariant; sessions and alerts never decrease |
| `PomodoroState.ReachableInv` | src/App.tsx:9-44 | every state reachable from mounting satisfies the invariant, so timeLeft is never negative |
| `PomodoroState.FullPeriodSwitches` | src/App.tsx:31-41 | starting a stopped timer and ticking a whole period reaches 0 while still running; completion then equals one alert followed by switchMode |
| `PomodoroState.WorkPeriodFromStart` | src/App.tsx:9-41 | from mounting, toggle and 1500 ticks give timeLeft 0 while running; completion gives break, 300 s, stopped, sessions 0, one alert |
| `PomodoroState.WorkThenBreak` | src/App.tsx:21-41 | a full work period followed by a full break returns to a stopped full work period with one more session and two more alerts |
| `PomodoroState.CyclesCountSessions` | src/App.tsx:26-28 | n work-and-break rounds add exactly n sessions and 2n alerts and change nothing else |
| `PomodoroState.SessionsAfterRounds` | src/App.tsx:9-41 | from mounting, n rounds show n sessions, 2n alerts, and a full work period |
| `ClockDisplay.Minutes` | src/App.tsx:46 | the minutes are the floor of `t / 60`: `m * 60 <= t < m * 60 + 60` |
| `ClockDisplay.Seconds` | src/App.tsx:47 | for `t >= 0` the seconds lie in `[0, 60)` and `minutes * 60 + seconds == t`; for negative `t` they lie in `(-60, 0]`; always `t - seconds` is a multiple of 60 |
| `ClockDisplay.PeriodFields` | src/App.tsx:46-47 | within a period (`0 <= t <= 1500`) the minutes are at most 25, the seconds below 60, and together they give back `t` |
| `ClockDisplay.PadStart` | src/App.tsx:87 | the padded text is as long as the larger of `width` and the length of `s`, ends with `s`, and every character before it is the fill character |
| `ClockDisplay.NatToStringRoundTrip` | src/App.tsx:87 | `toString` of a natural number is decimal digits without a leading zero that read back as the number; one digit below 10, two from 10 to 99 |
| `ClockDisplay.PaddedTwoDigits` | src/App.tsx:87 | a number below 100 padded with `'0'` to width 2 is exactly two digits that read back as the number |
| `ClockDisplay.ClockTextRoundTrip` | src/App.tsx:87 | below 100 minutes the text is five characters, two digits, a colon and two digits; the two fields read back as the minutes and the seconds, and together as `t` |
| `Pomodoro.Timer.Display` | src/App.tsx:87 | for a timer in its invariant the display is `MM:SS` of length 5 with at most 25 minutes and under 60 seconds, and it reads back as timeLeft |

## Left out

- Rendering (`src/App.tsx:52-127`): the JSX tree, the colour classes, the SVG progress ring and the icons carry no state logic.
- Progress percentage (`src/App.tsx:48-50`): a floating-point value used only for drawing the ring.
- Audio: the alert sound (`src/App.tsx:39`) is a browser call whose failure never reaches the state. It is modelled only as the `notified` counter.
- Scheduling: `setInterval`, `clearInterval` and React's effect re-runs (`src/App.tsx:31-44`) are host machinery. They are replaced by explicit `Tick` and `Complete` steps that the host applies in arrival order.
- Wall-clock time: the model counts ticks, not elapsed time.
- Re-renders and `useCallback` memoisation: the model has no notion of a stale closure. `resetTimer` and `switchMode` always read the current mode, as they do once React has re-created them after a mode change.
