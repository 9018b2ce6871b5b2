/**
 * The minutes/seconds arithmetic of the saved preferences. `saveSettings`
 * stores each duration divided by 60 (JavaScript division, so a real
 * number), `loadSettings` multiplies the stored value by 60, and a duration
 * edit multiplies the entered whole minutes by 60.
 */
module Persistence {

  /** The record saved under the key 'pomodoroSettings'; durations in minutes. */
  datatype Settings = Settings(
    workTime: real,
    breakTime: real,
    isSoundEnabled: bool,
    isDarkModeEnabled: bool)

  predicate IsWhole(x: real) { x.Floor as real == x }

  /** A stored duration that a duration edit can have produced: a positive whole number of minutes. */
  predicate IsMinutesEntry(x: real) { IsWhole(x) && x > 0.0 }

  /** A record whose durations are positive whole minutes, as every save from a reachable timer writes. */
  predicate WellFormed(st: Settings)
  {
    IsMinutesEntry(st.workTime) && IsMinutesEntry(st.breakTime)
  }

  /** Seconds to stored minutes, as `saveSettings` divides. */
  function ToMinutes(seconds: nat): real
  {
    seconds as real / 60.0
  }

  /** Stored minutes to seconds, as `loadSettings` multiplies. */
  function ToSeconds(minutes: real): real
  {
    minutes * 60.0
  }

  /** The duration in seconds that `loadSettings` puts into the timer for a stored entry. */
  function LoadedSeconds(minutes: real): (seconds: nat)
    requires IsMinutesEntry(minutes)
    ensures seconds as real == ToSeconds(minutes)
    ensures seconds > 0 && seconds % 60 == 0
  {
    minutes.Floor * 60
  }

  /** The duration in seconds that a duration edit sets for `minutes` entered minutes. */
  function EditedSeconds(minutes: nat): (seconds: nat)
    requires minutes > 0
    ensures seconds > 0 && seconds % 60 == 0
    ensures ToMinutes(seconds) == minutes as real
  {
    minutes * 60
  }

  /** The stored minutes are a whole number exactly when the duration is a multiple of 60 seconds. */
  lemma WholeMinutesIff(seconds: nat)
    ensures IsWhole(ToMinutes(seconds)) <==> seconds % 60 == 0
  {
    var x := ToMinutes(seconds);
    if seconds % 60 == 0 {
      var k := seconds / 60;
      assert seconds == 60 * k;
      assert x == k as real;
    }
    if IsWhole(x) {
      var k := x.Floor;
      assert seconds as real == 60.0 * k as real;
      assert seconds == 60 * k;
    }
  }

  /**
   * Saving a positive duration that is a multiple of 60 seconds stores a
   * minutes entry, and loading that entry restores the duration exactly.
   */
  lemma SaveLoadRoundTrip(seconds: nat)
    requires seconds > 0 && seconds % 60 == 0
    ensures IsMinutesEntry(ToMinutes(seconds))
    ensures LoadedSeconds(ToMinutes(seconds)) == seconds
  {
    WholeMinutesIff(seconds);
  }

  /** Loading an entry and saving the result stores the same entry. */
  lemma LoadSaveRoundTrip(minutes: real)
    requires IsMinutesEntry(minutes)
    ensures ToMinutes(LoadedSeconds(minutes)) == minutes
  {
  }
}
