# Pomodoro timer: the countdown state machine

This project models the `PomodoroTimer` class of a browser Pomodoro timer
(`script.js`). The timer alternates work phases (25 minutes by default) and
break phases (5 minutes by default). You start it, pause it, reset it or switch
its mode with buttons. A `setInterval` subscription calls `countdown` once a
second while it runs. When a phase runs out, `complete` plays a chime if sound
is on, switches to the other mode and starts it. The work and break minutes and
the two toggles (sound, dark mode) are saved in browser storage, with the
durations stored in minutes.

The model is in five files:

- `timer.dfy`, module `Timer`: the timer's fields as a value `TimerState`, one
  function per operation (`Start`, `Pause`, `Reset`, `SwitchMode`,
  `PlayNotification`, `Complete`, `Countdown`, the change handlers), the
  one-second `Tick` and its iteration `Ticks`, the invariant `Inv`, and the
  lemmas about them.
- `pomodoro.dfy`, module `Pomodoro`: the class `PomodoroTimer`, with the
  source's fields updated in place. Each method calls the others as the source
  does, and each is proved to leave `State()` as the matching `Timer` function
  says and to keep `Valid()`.
- `clock.dfy`, module `Clock`: the `MM:SS` text of `updateDisplay`. `ParseClock`
  reads such a text back, which gives the formatting a proved inverse.
- `persistence.dfy`, module `Persistence`: the minutes/seconds conversions of
  `saveSettings`, `loadSettings` and the duration inputs.
- `options.dfy`: an `Option` type.

The browser shows up only as abstract values:

- `intervals` (ghost in the class) counts live `setInterval` subscriptions.
  The invariant states that there is exactly one while running and none
  otherwise, so `start` can never create a second one.
- `chimes` (ghost in the class) counts tone requests. It goes up by one on a
  completion, and only when sound is on.
- `saved` is the storage entry under 'pomodoroSettings'.
- `Tick` is one second of wall-clock time. It calls `countdown` when a
  subscription is live and does nothing otherwise.

Three behaviours of the code are easy to misread, and the model states them as written:

- A phase of N seconds takes N + 1 ticks, not N, to switch mode. `countdown`
  completes only on a tick that finds 0 already on the clock
  (`Timer.PhaseEnd`, `Timer.FreshWorkPhase`).
- "Remaining time at most the phase length" is not an invariant of the code.
  Shortening the duration of the running phase keeps the remaining time
  (`Timer.EditWhileRunningExceedsPhase`). So `WithinPhase` is proved preserved
  by every other operation (`Timer.WithinPhaseRest`, `Timer.ResetSpec`,
  `Timer.SwitchModeOther`, `Timer.CompleteSpec`, `Timer.TickPreserves`). The
  edit lemmas state exactly when an edit leaves the timer within the phase: an
  edit of the other mode keeps it as it was, an edit of the stopped current
  mode refills it, and an edit of the running phase keeps it exactly when the
  new duration is at least the time left.
- Durations are never validated: a non-positive or non-numeric entry is
  applied as it is (see "Left out").

## Model

| member | source | states |
|---|---|---|
| Timer.StartSpec | script.js:81-89 | on a stopped timer start sets running, clears paused and opens exactly one subscription; on a running timer it changes nothing, so there is never a second subscription |
| Timer.PauseSpec | script.js:91-99 | on a running timer pause clears running, sets paused and cancels the subscription; on a stopped timer it changes nothing |
| Timer.ResetSpec | script.js:101-106 | reset ends stopped with no subscription, mode and durations unchanged, and the remaining time equal to the current mode's duration |
| Timer.SwitchModeSame | script.js:108-109 | switching to the current mode leaves the whole state unchanged (it does not even pause) |
| Timer.SwitchModeOther | script.js:108-123 | switching to the other mode pauses, sets the mode to the target and the remaining time to the target's duration |
| Timer.CompleteSpec | script.js:135-140 | completion flips the mode, refills its full duration, runs on exactly one subscription, and requests one tone when sound is on and none otherwise |
| Timer.CountdownPositive | script.js:125-129 | a tick with time left takes exactly one second off and changes nothing else; mode and running flag stay |
| Timer.CountdownAtZero | script.js:130-132 | a tick at 0:00 enters the other mode with its full duration, running, with one tone iff sound is on |
| Timer.TickPreserves | script.js:87 | one second of ticking keeps the invariant (positive whole-minute durations, one subscription iff running) and keeps the remaining time within the phase |
| Timer.TicksPreserve | script.js:87 | any number of seconds keeps the invariant and the within-phase bound |
| Timer.TicksAdd | script.js:87 | n + m seconds of ticking are n seconds followed by m seconds |
| Timer.TicksWhileStopped | script.js:91-99 | once stopped, no subscription fires, so any number of seconds leaves the state unchanged |
| Timer.TicksCountDown | script.js:125-129 | a running timer with k or more seconds left is, after k ticks, the same state with k fewer seconds |
| Timer.PhaseEnd | script.js:125-140 | a running phase with r seconds left stays in its mode showing r - k for ticks k = 0..r, and tick r + 1 enters the other mode with its full duration and one tone iff sound is on |
| Timer.FreshWorkPhase | script.js:125-140 | after start on a timer built by the intended constructor with W seconds of work, ticks 0..W stay in work mode and tick W + 1 is the break, running, with the full break duration |
| Timer.FreshWorkPhaseAsWritten | script.js:5-14 | after start on a timer built by the constructor as written, whatever work duration was loaded, tick 1500 shows 0:00 in work mode and tick 1501 is the break, running, with the full break duration |
| Timer.FullCycle | script.js:125-140 | from the start of a running work phase, W + B + 2 ticks return to the same state with two more tones if sound is on |
| Timer.EditWorkTimeSpec | script.js:53-59 | a work-minutes edit m sets the work duration to 60m, resets only when the current mode is work and the timer is stopped, keeps the break duration, saves a record that loads back to both durations, and changes nothing else (toggles, paused flag, tone count); the result is within the phase exactly when the edited mode is not current and the old state was, or it is current and stopped, or it is running with at most 60m seconds left |
| Timer.EditBreakTimeSpec | script.js:61-67 | the break-minutes edit is the mirror image of the work edit, with the same "nothing else changes" frame and the same exact condition for staying within the phase |
| Timer.EditWhileRunningExceedsPhase | script.js:53-59 | shortening the running work phase to 1 minute with more than a minute left leaves more time on the clock than the phase is long |
| Timer.TogglesSpec | script.js:69-78 | the sound and dark-mode toggles set their flag, save the full record of the new state (both durations and both toggles), and change nothing else |
| Timer.WithinPhaseRest | script.js:81-99 | start, pause, the tone request and both toggles keep the remaining time within the phase |
| Timer.Save | script.js:190-198 | the saved record holds positive whole minutes that load back to exactly the timer's durations |
| Timer.SaveLoad | script.js:190-217 | loading the record saved from any reachable state restores both durations and both toggles exactly |
| Timer.Elapsed | script.js:171-172 | the progress ring's numerator (duration minus remaining) is at most the duration; it is negative exactly when the remaining time exceeds the phase, and otherwise lies in 0..duration; it is 0 exactly at a full phase and the duration exactly at 0:00 |
| Timer.InitDefaults | script.js:2-12 | with nothing saved the timer has 25 and 5 minutes, 25:00 on the clock, sound on and dark mode off |
| Timer.InitFresh | script.js:2-14 | the intended constructor is stopped in work mode with no subscription and the loaded work duration on the clock, and re-saving gives back the loaded record |
| Timer.InitAsWrittenStale | script.js:5-14 | the constructor as written keeps 1500 seconds on the clock after loading a saved work duration of 30 minutes (1800 seconds) |
| Timer.InitAsWrittenOutsidePhase | script.js:5-19 | the constructor as written, after loading 10 saved work minutes, has more time on the clock than the phase is long, so the ring's numerator is -900 |
| Clock.MinutesSeconds | script.js:165-166 | minutes and seconds satisfy 60 * minutes + seconds == remaining time, with seconds < 60 |
| Clock.DecimalString | script.js:167 | `toString` of a non-negative integer is a non-empty string of digits, it starts with '0' only for 0, and it is one digit long exactly below 10 |
| Clock.DecimalStringValue | script.js:167 | the decimal digits denote the number they were written from |
| Clock.PadStart2 | script.js:167 | `padStart(2, '0')` gives length max(2, length): '0's in front followed by the input itself |
| Clock.PadStart2Value | script.js:167 | padding digits with '0' keeps them digits and does not change their value |
| Clock.FieldShape | script.js:167 | a display field is digits, at least two long, exactly two below 100, starts with '0' exactly below 10, and denotes its value |
| Clock.ParseDisplay | script.js:165-167 | the text of m minutes and s < 60 seconds, both fields around ':', reads back as 60m + s |
| Clock.ParseFormatTime | script.js:164-168 | reading the display text back gives the remaining time it was written from |
| Clock.FormatTimeInjective | script.js:164-168 | different remaining times never show the same text |
| Clock.FormatTimeExample | script.js:165-167 | 1490 seconds show as "24:50" |
| Persistence.LoadedSeconds | script.js:204-205 | a loaded entry of m whole minutes gives 60m seconds, a positive multiple of 60 |
| Persistence.EditedSeconds | script.js:54 | an edit of m minutes gives 60m seconds, a positive multiple of 60 that saves as exactly m minutes |
| Persistence.WholeMinutesIff | script.js:192-193 | the saved minutes are a whole number exactly when the duration is a multiple of 60 seconds |
| Persistence.SaveLoadRoundTrip | script.js:190-205 | a positive multiple of 60 seconds saves as a whole-minutes entry that loads back to the same duration |
| Persistence.LoadSaveRoundTrip | script.js:200-205 | loading a whole-minutes entry and saving the result stores the same entry |
| Pomodoro.PomodoroTimer.constructor | script.js:2-14 | builds the intended initial state from the storage entry: the invariant holds and the clock shows the loaded work duration |
| Pomodoro.PomodoroTimer.Start | script.js:81-89 | running and not paused afterwards, with one subscription; a running timer is left unchanged |
| Pomodoro.PomodoroTimer.Pause | script.js:91-99 | stopped afterwards with no subscription; paused if it was running; a stopped timer is left unchanged |
| Pomodoro.PomodoroTimer.Reset | script.js:101-106 | stopped, same mode, remaining time equal to the mode's duration |
| Pomodoro.PomodoroTimer.SwitchMode | script.js:108-123 | no change for the current mode; otherwise stopped in the target mode with the target's duration |
| Pomodoro.PomodoroTimer.PlayNotification | script.js:142-162 | the tone count goes up by one when sound is on and is unchanged otherwise |
| Pomodoro.PomodoroTimer.Complete | script.js:135-140 | the other mode with its full duration, running and not paused on one subscription, one tone iff sound is on |
| Pomodoro.PomodoroTimer.Countdown | script.js:125-133 | with time left, one second less in the same mode and running state; at 0:00, the completion |
| Pomodoro.PomodoroTimer.Tick | script.js:87 | a live subscription calls countdown; a stopped timer is left unchanged |
| Pomodoro.PomodoroTimer.DisplayText | script.js:164-168 | the clock text is the `MM:SS` formatting of the remaining time and reads back as that time |
| Pomodoro.PomodoroTimer.SaveSettings | script.js:190-198 | writes the storage entry, which loads back to the current durations |
| Pomodoro.PomodoroTimer.OnWorkTimeChange | script.js:53-59 | work duration 60m, break duration and mode unchanged, clock refilled only if work is the stopped current mode |
| Pomodoro.PomodoroTimer.OnBreakTimeChange | script.js:61-67 | break duration 60m, work duration and mode unchanged, clock refilled only if break is the stopped current mode |
| Pomodoro.PomodoroTimer.OnSoundToggle | script.js:69-72 | sets the sound flag and saves |
| Pomodoro.PomodoroTimer.OnDarkModeToggle | script.js:74-78 | sets the dark-mode flag and saves |

## Findings

| source | as written | input that shows it | evidently intended | confidence | as-written member | corrected member |
|---|---|---|---|---|---|---|
| script.js:5-14 | the constructor sets `remainingTime` from the default work time (line 6) before `loadSettings` replaces `workTime` (line 14) | a saved entry with workTime 30: the clock shows 25:00 (1500 s) while the work phase is 1800 s; with workTime 10 the remaining time exceeds the phase and the ring's fraction goes negative | the clock starts at the loaded work duration | likely; not executed | Timer.InitAsWrittenStale | Timer.InitFresh |

The class constructor `Pomodoro.PomodoroTimer.constructor` follows the corrected
definition `Timer.Init`. `Timer.InitAsWritten` keeps the code as written.

## Left out

- DOM plumbing is not modelled: `initElements`, the listener wiring, button `disabled` flags, CSS classes in `switchMode`, `updateProgressRingColor` and `applyDarkMode`. None of it affects the timer's fields.
- The cadence of `setInterval`/`clearInterval` is not modelled. The subscription is the ghost count `intervals`, and one second is `Tick`.
- `playNotification`'s Web Audio calls (oscillator, gain ramp, frequencies) are foreign, floating-point API calls. Only "a tone is requested iff sound is on" is kept, and an audio failure is a no-op.
- The progress ring's `strokeDashoffset` and circumference use floating point and `Math.PI`. Only the integer numerator `Timer.Elapsed` and its bounds are modelled.
- `localStorage` and JSON serialisation are I/O and a library serialiser. Storage is the value `saved`, and the record at page load is a constructor parameter.
- Persistence.SaveLoadRoundTrip: computes in exact real arithmetic. The rounding of JavaScript's floating-point division by 60 is not modelled.
- Pomodoro.PomodoroTimer.constructor: requires the stored entry to hold positive whole minutes. A hand-edited or corrupt entry (fractions, zero, non-numbers) is not modelled. The code does not check it.
- Pomodoro.PomodoroTimer.OnWorkTimeChange: takes the entry as an already-parsed positive whole number of minutes. `parseInt` of the raw text, NaN, zero and negative input are not modelled. The code does not validate them, and a zero duration would make the ring's division at script.js:172 divide by zero.
- Pomodoro.PomodoroTimer.OnBreakTimeChange: same restriction on the entered minutes as the work handler.
- The `currentTime` field (script.js:5) is not modelled. It is written once and never read.
- Durations and the remaining time use `nat`. The source's numbers are non-negative integers, so `Math.floor(t / 60)` and `t % 60` agree with Dafny's `/` and `%`, but only while they stay below 2^53 seconds, where JavaScript's doubles are exact. The model assumes that bound without stating it.
- Clock.DecimalString: always gives plain digits. `toString` writes 10^21 and above in exponent form ("1e+21"), which a duration of that size would show.
- Timer.TicksCountDown: takes one second off per tick at every size. In the source, from 2^53 seconds up `remainingTime--` can leave the value unchanged, so the clock would not move.
- Pomodoro.PomodoroTimer.OnWorkTimeChange: accepts any positive whole number of minutes. The source accepts any parsed integer too, so an edit of 10^20 minutes goes past the 2^53 bound above; the model does not capture what happens then.
