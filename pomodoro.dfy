/**
 * The `PomodoroTimer` object: its fields are updated in place by the
 * button and interval callbacks. Every method is proved to leave the fields
 * as the matching function of module `Timer` says, and to keep `Valid()`.
 */
module Pomodoro {
  import opened Options
  import opened Persistence
  import opened Timer
  import opened Clock

  class PomodoroTimer {
    var workTime: nat
    var breakTime: nat
    var remainingTime: nat
    var currentMode: Mode
    var isRunning: bool
    var isPaused: bool
    var isSoundEnabled: bool
    var isDarkModeEnabled: bool
    /** The 'pomodoroSettings' storage entry. */
    var saved: Option<Settings>
    /** Live `setInterval` subscriptions (the `timerId` handle). */
    ghost var intervals: nat
    /** Tones requested from the audio API. */
    ghost var chimes: nat

    ghost function State(): TimerState
      reads this
    {
      TimerState(workTime, breakTime, remainingTime, currentMode, isRunning, isPaused,
                 isSoundEnabled, isDarkModeEnabled, intervals, chimes, saved)
    }

    ghost predicate Valid()
      reads this
    {
      Inv(State())
    }

    /** Builds the timer over the storage entry found at page load (`None`: nothing saved). */
    constructor (stored: Option<Settings>)
      requires stored.Some? ==> WellFormed(stored.value)
      ensures Valid() && WithinPhase(State())
      ensures State() == Init(stored)
      ensures currentMode == Work && !isRunning && remainingTime == workTime && intervals == 0
    {
      workTime := 25 * 60;
      breakTime := 5 * 60;
      isRunning := false;
      isPaused := false;
      currentMode := Work;
      isSoundEnabled := true;
      isDarkModeEnabled := false;
      intervals := 0;
      chimes := 0;
      saved := stored;
      if stored.Some? {
        var st := stored.value;
        workTime := LoadedSeconds(st.workTime);
        breakTime := LoadedSeconds(st.breakTime);
        isSoundEnabled := st.isSoundEnabled;
        isDarkModeEnabled := st.isDarkModeEnabled;
      }
      remainingTime := workTime;
      InitFresh(stored);
    }

    method Start()
      requires Valid()
      modifies this
      ensures Valid() && State() == Timer.Start(old(State()))
      ensures isRunning && !isPaused && intervals == 1
      ensures old(isRunning) ==> State() == old(State())
    {
      if !isRunning {
        isRunning := true;
        isPaused := false;
        intervals := intervals + 1;
      }
    }

    method Pause()
      requires Valid()
      modifies this
      ensures Valid() && State() == Timer.Pause(old(State()))
      ensures !isRunning && intervals == 0
      ensures old(isRunning) ==> isPaused
      ensures !old(isRunning) ==> State() == old(State())
    {
      if isRunning {
        isRunning := false;
        isPaused := true;
        intervals := intervals - 1;
      }
    }

    method Reset()
      requires Valid()
      modifies this
      ensures Valid() && State() == Timer.Reset(old(State()))
      ensures !isRunning && intervals == 0 && WithinPhase(State())
      ensures currentMode == old(currentMode)
      ensures remainingTime == Duration(old(State()), old(currentMode))
    {
      Pause();
      remainingTime := if currentMode == Work then workTime else breakTime;
    }

    method SwitchMode(mode: Mode)
      requires Valid()
      modifies this
      ensures Valid() && State() == Timer.SwitchMode(old(State()), mode)
      ensures mode == old(currentMode) ==> State() == old(State())
      ensures mode != old(currentMode) ==>
        !isRunning && currentMode == mode && remainingTime == Duration(old(State()), mode)
    {
      if mode != currentMode {
        Pause();
        currentMode := mode;
        remainingTime := if mode == Work then workTime else breakTime;
      }
    }

    method PlayNotification()
      requires Valid()
      modifies this
      ensures Valid() && State() == Timer.PlayNotification(old(State()))
      ensures chimes == old(chimes) + ChimeCount(old(State()))
    {
      if isSoundEnabled {
        chimes := chimes + 1;
      }
    }

    method Complete()
      requires Valid()
      modifies this
      ensures Valid() && State() == Timer.Complete(old(State()))
      ensures currentMode == Other(old(currentMode))
      ensures remainingTime == Duration(old(State()), currentMode)
      ensures isRunning && !isPaused && intervals == 1
      ensures chimes == old(chimes) + ChimeCount(old(State()))
    {
      ghost var s := State();
      Pause();
      PlayNotification();
      SwitchMode(if currentMode == Work then Break else Work);
      Start();
      CompleteSpec(s);
    }

    method Countdown()
      requires Valid()
      modifies this
      ensures Valid() && State() == Timer.Countdown(old(State()))
      ensures old(remainingTime) > 0 ==>
        remainingTime == old(remainingTime) - 1 && currentMode == old(currentMode) && isRunning == old(isRunning)
      ensures old(remainingTime) == 0 ==>
        currentMode == Other(old(currentMode)) && remainingTime == Duration(old(State()), currentMode) &&
        isRunning && chimes == old(chimes) + ChimeCount(old(State()))
    {
      if remainingTime > 0 {
        remainingTime := remainingTime - 1;
      } else {
        Complete();
      }
    }

    /** The text `updateDisplay` puts on the clock face. */
    method DisplayText() returns (text: string)
      ensures text == Clock.FormatTime(remainingTime)
      ensures ParseClock(text) == Some(remainingTime)
    {
      text := FormatTime(remainingTime);
      ParseFormatTime(remainingTime);
    }

    /** One second passes: the live subscription, if any, calls `Countdown`. */
    method Tick()
      requires Valid()
      modifies this
      ensures Valid() && State() == Timer.Tick(old(State()))
      ensures !old(isRunning) ==> State() == old(State())
    {
      if isRunning {
        Countdown();
      }
    }

    method SaveSettings()
      requires Valid()
      modifies this
      ensures Valid() && State() == old(State()).(saved := Some(Save(old(State()))))
      ensures saved.Some? && LoadedSeconds(saved.value.workTime) == workTime &&
              LoadedSeconds(saved.value.breakTime) == breakTime
    {
      SaveLoadRoundTrip(workTime);
      SaveLoadRoundTrip(breakTime);
      saved := Some(Settings(ToMinutes(workTime), ToMinutes(breakTime), isSoundEnabled, isDarkModeEnabled));
    }

    /** The work-minutes input's change handler, for an entry already read as whole minutes. */
    method OnWorkTimeChange(minutes: nat)
      requires Valid() && minutes > 0
      modifies this
      ensures Valid() && State() == EditWorkTime(old(State()), minutes)
      ensures workTime == minutes * 60 && breakTime == old(breakTime) && currentMode == old(currentMode)
      ensures remainingTime == if old(currentMode) == Work && !old(isRunning) then workTime else old(remainingTime)
    {
      workTime := EditedSeconds(minutes);
      if currentMode == Work && !isRunning {
        Reset();
      }
      SaveSettings();
    }

    /** The break-minutes input's change handler. */
    method OnBreakTimeChange(minutes: nat)
      requires Valid() && minutes > 0
      modifies this
      ensures Valid() && State() == EditBreakTime(old(State()), minutes)
      ensures breakTime == minutes * 60 && workTime == old(workTime) && currentMode == old(currentMode)
      ensures remainingTime == if old(currentMode) == Break && !old(isRunning) then breakTime else old(remainingTime)
    {
      breakTime := EditedSeconds(minutes);
      if currentMode == Break && !isRunning {
        Reset();
      }
      SaveSettings();
    }

    method OnSoundToggle(checked: bool)
      requires Valid()
      modifies this
      ensures Valid() && State() == SetSound(old(State()), checked)
      ensures isSoundEnabled == checked
    {
      isSoundEnabled := checked;
      SaveSettings();
    }

    method OnDarkModeToggle(checked: bool)
      requires Valid()
      modifies this
      ensures Valid() && State() == SetDarkMode(old(State()), checked)
      ensures isDarkModeEnabled == checked
    {
      isDarkModeEnabled := checked;
      SaveSettings();
    }
  }
}
