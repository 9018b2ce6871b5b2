/**
 * The countdown state machine of `PomodoroTimer` as values: the timer's
 * fields, one function per operation, and the lemmas about them. The class
 * in module `Pomodoro` is proved to change its fields exactly as these
 * functions say.
 *
 * Two pieces of the browser are represented abstractly: `intervals` counts
 * the `setInterval` subscriptions that are alive (each one calls `countdown`
 * once a second), and `chimes` counts the notification tones requested.
 * `saved` is the record under the 'pomodoroSettings' storage key.
 */
module Timer {
  import opened Options
  import opened Persistence

  datatype Mode = Work | Break

  function Other(m: Mode): Mode
  {
    if m == Work then Break else Work
  }

  datatype TimerState = TimerState(
    workTime: nat,
    breakTime: nat,
    remainingTime: nat,
    currentMode: Mode,
    isRunning: bool,
    isPaused: bool,
    isSoundEnabled: bool,
    isDarkModeEnabled: bool,
    intervals: nat,
    chimes: nat,
    saved: Option<Settings>)

  /** The configured length of a phase in `m`: `m === 'work' ? workTime : breakTime`. */
  function Duration(s: TimerState, m: Mode): nat
  {
    if m == Work then s.workTime else s.breakTime
  }

  /**
   * What holds in every reachable state: positive durations that are whole
   * minutes, exactly one live subscription while running and none
   * otherwise, never running and paused at once, and a saved record (if
   * any) of positive whole minutes.
   */
  ghost predicate Inv(s: TimerState)
  {
    && s.workTime > 0 && s.workTime % 60 == 0
    && s.breakTime > 0 && s.breakTime % 60 == 0
    && s.intervals == (if s.isRunning then 1 else 0)
    && (s.isRunning ==> !s.isPaused)
    && (s.saved.Some? ==> WellFormed(s.saved.value))
  }

  /** The remaining time does not exceed the length of the current phase. */
  ghost predicate WithinPhase(s: TimerState)
  {
    s.remainingTime <= Duration(s, s.currentMode)
  }

  // ---------------------------------------------------------------- construction

  /** The preferences record `saveSettings` writes for `s`. */
  function Save(s: TimerState): (st: Settings)
    requires Inv(s)
    ensures WellFormed(st)
    ensures LoadedSeconds(st.workTime) == s.workTime && LoadedSeconds(st.breakTime) == s.breakTime
  {
    SaveLoadRoundTrip(s.workTime);
    SaveLoadRoundTrip(s.breakTime);
    Settings(ToMinutes(s.workTime), ToMinutes(s.breakTime), s.isSoundEnabled, s.isDarkModeEnabled)
  }

  /** `loadSettings`: a saved record replaces durations and toggles; nothing saved changes nothing. */
  function Load(s: TimerState, saved: Option<Settings>): TimerState
    requires saved.Some? ==> WellFormed(saved.value)
  {
    match saved
    case None => s
    case Some(st) =>
      s.(workTime := LoadedSeconds(st.workTime), breakTime := LoadedSeconds(st.breakTime),
         isSoundEnabled := st.isSoundEnabled, isDarkModeEnabled := st.isDarkModeEnabled)
  }

  /** The fields the constructor assigns before it loads the preferences. */
  function Defaults(saved: Option<Settings>): TimerState
  {
    TimerState(25 * 60, 5 * 60, 25 * 60, Work, false, false, true, false, 0, 0, saved)
  }

  /** The constructor as written: the remaining time is taken from the default work duration. */
  function InitAsWritten(saved: Option<Settings>): TimerState
    requires saved.Some? ==> WellFormed(saved.value)
  {
    Load(Defaults(saved), saved)
  }

  /** The constructor as intended: the remaining time is the loaded work duration. */
  function Init(saved: Option<Settings>): TimerState
    requires saved.Some? ==> WellFormed(saved.value)
  {
    var s := Load(Defaults(saved), saved);
    s.(remainingTime := s.workTime)
  }

  // ---------------------------------------------------------------- commands

  function Start(s: TimerState): TimerState
  {
    if !s.isRunning then s.(isRunning := true, isPaused := false, intervals := s.intervals + 1)
    else s
  }

  function Pause(s: TimerState): TimerState
  {
    // clearInterval on the one handle the timer keeps
    if s.isRunning then s.(isRunning := false, isPaused := true, intervals := if s.intervals > 0 then s.intervals - 1 else 0)
    else s
  }

  function Reset(s: TimerState): TimerState
  {
    var p := Pause(s);
    p.(remainingTime := Duration(p, p.currentMode))
  }

  function SwitchMode(s: TimerState, mode: Mode): TimerState
  {
    if mode != s.currentMode then
      var p := Pause(s);
      p.(currentMode := mode, remainingTime := Duration(p, mode))
    else s
  }

  /** `playNotification`: a tone is requested only when sound is on; a failing audio API changes nothing. */
  function PlayNotification(s: TimerState): TimerState
  {
    if s.isSoundEnabled then s.(chimes := s.chimes + 1) else s
  }

  function Complete(s: TimerState): TimerState
  {
    Start(SwitchMode(PlayNotification(Pause(s)), Other(s.currentMode)))
  }

  function Countdown(s: TimerState): TimerState
  {
    if s.remainingTime > 0 then s.(remainingTime := s.remainingTime - 1) else Complete(s)
  }

  /** One second of wall-clock time: the live subscription, if any, calls `countdown`. */
  function Tick(s: TimerState): TimerState
  {
    if s.isRunning then Countdown(s) else s
  }

  /** `n` seconds of wall-clock time. */
  function Ticks(s: TimerState, n: nat): TimerState
    decreases n
  {
    if n == 0 then s else Ticks(Tick(s), n - 1)
  }

  // ---------------------------------------------------------------- preference handlers

  /** The work-minutes change handler: set the duration, reset if it is the idle current phase, save. */
  function EditWorkTime(s: TimerState, minutes: nat): TimerState
    requires Inv(s) && minutes > 0
  {
    var t := s.(workTime := EditedSeconds(minutes));
    var u := if t.currentMode == Work && !t.isRunning then Reset(t) else t;
    u.(saved := Some(Save(u)))
  }

  /** The break-minutes change handler, symmetric to `EditWorkTime`. */
  function EditBreakTime(s: TimerState, minutes: nat): TimerState
    requires Inv(s) && minutes > 0
  {
    var t := s.(breakTime := EditedSeconds(minutes));
    var u := if t.currentMode == Break && !t.isRunning then Reset(t) else t;
    u.(saved := Some(Save(u)))
  }

  function SetSound(s: TimerState, enabled: bool): TimerState
    requires Inv(s)
  {
    var t := s.(isSoundEnabled := enabled);
    t.(saved := Some(Save(t)))
  }

  function SetDarkMode(s: TimerState, enabled: bool): TimerState
    requires Inv(s)
  {
    var t := s.(isDarkModeEnabled := enabled);
    t.(saved := Some(Save(t)))
  }

  /** The numerator of the progress ring's fraction: seconds already spent in this phase. */
  function Elapsed(s: TimerState): (e: int)
    requires Inv(s)
    ensures e <= Duration(s, s.currentMode)
    ensures e < 0 <==> !WithinPhase(s)
    ensures WithinPhase(s) ==> 0 <= e
    ensures e == 0 <==> s.remainingTime == Duration(s, s.currentMode)
    ensures e == Duration(s, s.currentMode) <==> s.remainingTime == 0
  {
    Duration(s, s.currentMode) - s.remainingTime
  }

  // ---------------------------------------------------------------- lemmas: construction

  /** Nothing saved, the timer starts idle in work mode with 25:00 on the clock. */
  lemma InitDefaults()
    ensures Init(None) == InitAsWritten(None)
    ensures Init(None).workTime == 1500 && Init(None).breakTime == 300
    ensures Init(None).remainingTime == 1500 && Init(None).isSoundEnabled && !Init(None).isDarkModeEnabled
  {
  }

  /** A fresh timer is idle in work mode with the full (loaded) work duration left. */
  lemma InitFresh(saved: Option<Settings>)
    requires saved.Some? ==> WellFormed(saved.value)
    ensures var s := Init(saved);
      Inv(s) && WithinPhase(s) &&
      s.currentMode == Work && !s.isRunning && !s.isPaused && s.intervals == 0 && s.chimes == 0 &&
      s.remainingTime == s.workTime
    ensures saved.Some? ==> Save(Init(saved)) == saved.value
  {
    if saved.Some? {
      var st := saved.value;
      LoadSaveRoundTrip(st.workTime);
      LoadSaveRoundTrip(st.breakTime);
    }
  }

  /**
   * The constructor as written keeps 25 minutes on the clock after loading
   * a saved work duration of 30 minutes.
   */
  lemma InitAsWrittenStale()
    ensures var s := InitAsWritten(Some(Settings(30.0, 5.0, true, false)));
      s.workTime == 1800 && s.remainingTime == 1500 && s.remainingTime != Duration(s, s.currentMode)
  {
  }

  /** With a saved work duration under 25 minutes, the constructor as written starts outside the phase. */
  lemma InitAsWrittenOutsidePhase()
    ensures var s := InitAsWritten(Some(Settings(10.0, 5.0, true, false)));
      !WithinPhase(s) && Inv(s) && Elapsed(s) == -900
  {
  }

  /**
   * Starting the timer as the constructor as written builds it: whatever
   * work duration was loaded, the first phase counts down from 1500
   * seconds and the break begins on tick 1501.
   */
  lemma FreshWorkPhaseAsWritten(saved: Option<Settings>)
    requires saved.Some? ==> WellFormed(saved.value)
    ensures var s := Start(InitAsWritten(saved));
      Ticks(s, 1500).currentMode == Work && Ticks(s, 1500).remainingTime == 0 &&
      Ticks(s, 1501).currentMode == Break && Ticks(s, 1501).remainingTime == s.breakTime &&
      Ticks(s, 1501).isRunning
  {
    var s := Start(InitAsWritten(saved));
    assert Inv(s) && s.isRunning && s.remainingTime == 1500;
    PhaseEnd(s);
  }

  // ---------------------------------------------------------------- lemmas: commands

  /** Start on a stopped timer runs it with one new subscription; on a running one it does nothing. */
  lemma StartSpec(s: TimerState)
    requires Inv(s)
    ensures Inv(Start(s))
    ensures !s.isRunning ==> Start(s) == s.(isRunning := true, isPaused := false, intervals := 1)
    ensures s.isRunning ==> Start(s) == s
  {
  }

  /** Pause on a running timer stops it and cancels its subscription; on a stopped one it does nothing. */
  lemma PauseSpec(s: TimerState)
    requires Inv(s)
    ensures Inv(Pause(s))
    ensures s.isRunning ==> Pause(s) == s.(isRunning := false, isPaused := true, intervals := 0)
    ensures !s.isRunning ==> Pause(s) == s
  {
  }

  /** Reset stops the timer and refills the current phase; the mode and durations stay. */
  lemma ResetSpec(s: TimerState)
    requires Inv(s)
    ensures var r := Reset(s);
      Inv(r) && WithinPhase(r) && !r.isRunning && r.intervals == 0 &&
      r.remainingTime == Duration(s, s.currentMode) &&
      r == Pause(s).(remainingTime := Duration(s, s.currentMode))
  {
  }

  /** Switching to the current mode changes nothing at all, not even the running flag. */
  lemma SwitchModeSame(s: TimerState)
    ensures SwitchMode(s, s.currentMode) == s
  {
  }

  /** Switching to the other mode stops the timer and starts the target phase from its full duration. */
  lemma SwitchModeOther(s: TimerState, mode: Mode)
    requires Inv(s) && mode != s.currentMode
    ensures var r := SwitchMode(s, mode);
      Inv(r) && WithinPhase(r) && !r.isRunning && r.intervals == 0 &&
      r.currentMode == mode && r.remainingTime == Duration(s, mode) &&
      r == Pause(s).(currentMode := mode, remainingTime := Duration(s, mode))
  {
  }

  /** The tone count of one completion. */
  function ChimeCount(s: TimerState): nat
  {
    if s.isSoundEnabled then 1 else 0
  }

  /**
   * A completion enters the other mode with its full duration and runs it
   * on a single subscription, having requested one tone if sound is on.
   */
  lemma CompleteSpec(s: TimerState)
    requires Inv(s)
    ensures Complete(s) == s.(currentMode := Other(s.currentMode),
                              remainingTime := Duration(s, Other(s.currentMode)),
                              isRunning := true, isPaused := false, intervals := 1,
                              chimes := s.chimes + ChimeCount(s))
    ensures Inv(Complete(s)) && WithinPhase(Complete(s))
  {
  }

  /** A tick with time left takes exactly one second off and changes nothing else. */
  lemma CountdownPositive(s: TimerState)
    requires s.remainingTime > 0
    ensures Countdown(s) == s.(remainingTime := s.remainingTime - 1)
    ensures Countdown(s).remainingTime < s.remainingTime
    ensures Countdown(s).currentMode == s.currentMode && Countdown(s).isRunning == s.isRunning
  {
  }

  /** A tick at zero completes the phase: other mode, full duration, running, one tone if sound is on. */
  lemma CountdownAtZero(s: TimerState)
    requires Inv(s) && s.remainingTime == 0
    ensures var r := Countdown(s);
      r.currentMode == Other(s.currentMode) && r.remainingTime == Duration(s, r.currentMode) &&
      r.isRunning && r.intervals == 1 && r.chimes == s.chimes + ChimeCount(s)
  {
    CompleteSpec(s);
  }

  /** Every tick keeps the invariant and keeps the remaining time within the phase. */
  lemma TickPreserves(s: TimerState)
    requires Inv(s)
    ensures Inv(Tick(s))
    ensures WithinPhase(s) ==> WithinPhase(Tick(s))
  {
    if s.isRunning && s.remainingTime == 0 {
      CompleteSpec(s);
    }
  }

  /**
   * The commands that do not touch the remaining time or the durations keep
   * it within the phase.
   */
  lemma WithinPhaseRest(s: TimerState, enabled: bool)
    requires Inv(s) && WithinPhase(s)
    ensures WithinPhase(Start(s)) && WithinPhase(Pause(s)) && WithinPhase(PlayNotification(s))
    ensures WithinPhase(SetSound(s, enabled)) && WithinPhase(SetDarkMode(s, enabled))
  {
  }

  // ---------------------------------------------------------------- lemmas: tick sequences

  lemma {:induction false} TicksAdd(s: TimerState, a: nat, b: nat)
    ensures Ticks(s, a + b) == Ticks(Ticks(s, a), b)
    decreases a
  {
    if a > 0 {
      TicksAdd(Tick(s), a - 1, b);
    }
  }

  /** While the timer is stopped no subscription fires, so any number of seconds changes nothing. */
  lemma {:induction false} TicksWhileStopped(s: TimerState, n: nat)
    requires !s.isRunning
    ensures Ticks(s, n) == s
    decreases n
  {
    if n > 0 {
      TicksWhileStopped(s, n - 1);
    }
  }

  /** A running timer with `k` or more seconds left loses exactly one second per tick. */
  lemma {:induction false} TicksCountDown(s: TimerState, k: nat)
    requires s.isRunning && k <= s.remainingTime
    ensures Ticks(s, k) == s.(remainingTime := s.remainingTime - k)
    decreases k
  {
    if k > 0 {
      CountdownPositive(s);
      TicksCountDown(Tick(s), k - 1);
    }
  }

  /** Ticks keep the invariant. */
  lemma {:induction false} TicksPreserve(s: TimerState, n: nat)
    requires Inv(s)
    ensures Inv(Ticks(s, n))
    ensures WithinPhase(s) ==> WithinPhase(Ticks(s, n))
    decreases n
  {
    if n > 0 {
      TickPreserves(s);
      TicksPreserve(Tick(s), n - 1);
    }
  }

  /**
   * A running phase with `r` seconds left reaches 0:00 after `r` ticks and
   * stays in its mode; only tick `r + 1` enters the other mode, with its
   * full duration, still running and with one tone if sound is on.
   */
  lemma PhaseEnd(s: TimerState)
    requires Inv(s) && s.isRunning
    ensures forall k :: 0 <= k <= s.remainingTime ==>
      Ticks(s, k).currentMode == s.currentMode && Ticks(s, k).remainingTime == s.remainingTime - k
    ensures Ticks(s, s.remainingTime + 1) ==
      s.(currentMode := Other(s.currentMode), remainingTime := Duration(s, Other(s.currentMode)),
         chimes := s.chimes + ChimeCount(s))
  {
    forall k | 0 <= k <= s.remainingTime
      ensures Ticks(s, k).currentMode == s.currentMode && Ticks(s, k).remainingTime == s.remainingTime - k
    {
      TicksCountDown(s, k);
    }
    var z := s.(remainingTime := 0);
    TicksCountDown(s, s.remainingTime);
    TicksAdd(s, s.remainingTime, 1);
    CompleteSpec(z);
  }

  /**
   * Starting a fresh timer in work mode: for W seconds of work, ticks 0..W
   * show W..0 seconds of work, and tick W + 1 starts the break, running
   * with the full break duration.
   */
  lemma FreshWorkPhase(saved: Option<Settings>)
    requires saved.Some? ==> WellFormed(saved.value)
    ensures var s := Start(Init(saved));
      (forall k :: 0 <= k <= s.workTime ==>
         Ticks(s, k).currentMode == Work && Ticks(s, k).remainingTime == s.workTime - k) &&
      Ticks(s, s.workTime + 1).currentMode == Break &&
      Ticks(s, s.workTime + 1).remainingTime == s.breakTime &&
      Ticks(s, s.workTime + 1).isRunning
  {
    InitFresh(saved);
    var s := Start(Init(saved));
    StartSpec(Init(saved));
    PhaseEnd(s);
  }

  /**
   * A running timer at the start of a work phase returns to the same state
   * after a whole work phase and a whole break phase, W + B + 2 ticks, with
   * two more tones if sound is on.
   */
  lemma FullCycle(s: TimerState)
    requires Inv(s) && s.isRunning && s.currentMode == Work && s.remainingTime == s.workTime
    ensures Ticks(s, s.workTime + s.breakTime + 2) == s.(chimes := s.chimes + 2 * ChimeCount(s))
  {
    PhaseEnd(s);
    var b := Ticks(s, s.workTime + 1);
    assert Inv(b) by { TicksPreserve(s, s.workTime + 1); }
    PhaseEnd(b);
    TicksAdd(s, s.workTime + 1, s.breakTime + 1);
  }

  // ---------------------------------------------------------------- lemmas: preferences

  /**
   * A work-minutes edit sets the work duration to `minutes * 60`, resets
   * only when the idle current phase is work, leaves the break duration,
   * and saves a record that loads back to both durations.
   */
  lemma EditWorkTimeSpec(s: TimerState, minutes: nat)
    requires Inv(s) && minutes > 0
    ensures var r := EditWorkTime(s, minutes);
      Inv(r) &&
      r.workTime == minutes * 60 && r.breakTime == s.breakTime &&
      r.currentMode == s.currentMode && r.isRunning == s.isRunning &&
      r.remainingTime == (if s.currentMode == Work && !s.isRunning then minutes * 60 else s.remainingTime) &&
      r.saved.Some? && r.saved.value.workTime == minutes as real &&
      LoadedSeconds(r.saved.value.workTime) == r.workTime &&
      LoadedSeconds(r.saved.value.breakTime) == r.breakTime
    ensures var r := EditWorkTime(s, minutes);
      r.(saved := s.saved, workTime := s.workTime, remainingTime := s.remainingTime) == s &&
      r.saved == Some(Save(r))
    ensures WithinPhase(EditWorkTime(s, minutes)) <==>
      if s.currentMode == Work then !s.isRunning || s.remainingTime <= minutes * 60 else WithinPhase(s)
  {
  }

  /** A break-minutes edit, symmetric to `EditWorkTimeSpec`. */
  lemma EditBreakTimeSpec(s: TimerState, minutes: nat)
    requires Inv(s) && minutes > 0
    ensures var r := EditBreakTime(s, minutes);
      Inv(r) &&
      r.breakTime == minutes * 60 && r.workTime == s.workTime &&
      r.currentMode == s.currentMode && r.isRunning == s.isRunning &&
      r.remainingTime == (if s.currentMode == Break && !s.isRunning then minutes * 60 else s.remainingTime) &&
      r.saved.Some? && r.saved.value.breakTime == minutes as real &&
      LoadedSeconds(r.saved.value.workTime) == r.workTime &&
      LoadedSeconds(r.saved.value.breakTime) == r.breakTime
    ensures var r := EditBreakTime(s, minutes);
      r.(saved := s.saved, breakTime := s.breakTime, remainingTime := s.remainingTime) == s &&
      r.saved == Some(Save(r))
    ensures WithinPhase(EditBreakTime(s, minutes)) <==>
      if s.currentMode == Break then !s.isRunning || s.remainingTime <= minutes * 60 else WithinPhase(s)
  {
  }

  /**
   * Editing the work minutes of a running work phase to less than the time
   * left leaves more time on the clock than the phase is long.
   */
  lemma EditWhileRunningExceedsPhase(s: TimerState)
    requires Inv(s) && s.isRunning && s.currentMode == Work && s.remainingTime > 60
    ensures !WithinPhase(EditWorkTime(s, 1))
  {
  }

  /**
   * Whatever the state, loading the record saved by any handler restores
   * its durations and toggles exactly.
   */
  lemma SaveLoad(s: TimerState, t: TimerState)
    requires Inv(s)
    ensures var l := Load(t, Some(Save(s)));
      l.workTime == s.workTime && l.breakTime == s.breakTime &&
      l.isSoundEnabled == s.isSoundEnabled && l.isDarkModeEnabled == s.isDarkModeEnabled
  {
  }

  /** The toggles change only their flag and save it. */
  lemma TogglesSpec(s: TimerState, enabled: bool)
    requires Inv(s)
    ensures var r := SetSound(s, enabled);
      Inv(r) && r.isSoundEnabled == enabled && r.saved.Some? && r.saved.value.isSoundEnabled == enabled &&
      r.(saved := s.saved, isSoundEnabled := s.isSoundEnabled) == s && r.saved == Some(Save(r))
    ensures var r := SetDarkMode(s, enabled);
      Inv(r) && r.isDarkModeEnabled == enabled && r.saved.Some? && r.saved.value.isDarkModeEnabled == enabled &&
      r.(saved := s.saved, isDarkModeEnabled := s.isDarkModeEnabled) == s && r.saved == Some(Save(r))
  {
  }
}
