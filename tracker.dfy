/**
 * The state of the `App` component of app/src/App.jsx: the session, the rest
 * countdown with its "ultima serie" marker, the elapsed-time display and the
 * stored copy of the session. React's `useState` slots become the fields of
 * `Tracker`, each handler a method, and each `setInterval` firing a method
 * the caller invokes. The countdown alone is also a value, `Countdown`, so
 * that what the interval does over many seconds can be stated as lemmas.
 */
module RestTimer {
  import opened Wrappers
  import opened WorkoutSession

  /** `restSecondsLeft` and `isRestRunning`. */
  datatype Countdown = Countdown(secondsLeft: nat, running: bool)

  /** The invariant every handler keeps: the rest is running exactly when
      seconds are left. */
  predicate Consistent(c: Countdown) {
    c.running <==> c.secondsLeft > 0
  }

  /** The countdown is idle: the rest-timer effect installs no interval. */
  predicate Idle(c: Countdown) {
    !c.running || c.secondsLeft == 0
  }

  /** One firing of the rest interval, which exists only while the countdown
      is not idle: at one second or less it stops at zero, otherwise it
      counts down by one. */
  function TickOnce(c: Countdown): (r: Countdown)
    ensures Idle(c) ==> r == c
    ensures !Idle(c) ==> r.secondsLeft == c.secondsLeft - 1 && (r.running <==> c.secondsLeft > 1)
    ensures Consistent(c) ==> Consistent(r)
  {
    if Idle(c) then c
    else if c.secondsLeft <= 1 then Countdown(0, false)
    else Countdown(c.secondsLeft - 1, true)
  }

  /** `k` consecutive firings. */
  function Ticks(c: Countdown, k: nat): Countdown
    decreases k
  {
    if k == 0 then c else Ticks(TickOnce(c), k - 1)
  }

  /** A running countdown of `n` seconds shows `n - k` after `k` seconds
      and is stopped at zero from the `n`-th second on. */
  lemma {:induction false} TicksClosedForm(c: Countdown, k: nat)
    requires Consistent(c)
    ensures Ticks(c, k) == if k < c.secondsLeft then Countdown(c.secondsLeft - k, true)
                           else Countdown(0, false)
    decreases k
  {
    if k > 0 {
      TicksClosedForm(TickOnce(c), k - 1);
    }
  }

  /** The countdown a completed set starts. */
  function StartRest(w: Workout, exerciseId: string): (r: Countdown)
    ensures Consistent(r) && r.running
    ensures r.secondsLeft == RestSeconds(w, exerciseId)
  {
    Countdown(RestSeconds(w, exerciseId), true)
  }

  /** After a set is toggled the rest runs for exactly the configured number
      of seconds, then stops by itself. */
  lemma RestRunsForConfiguredSeconds(w: Workout, exerciseId: string, k: nat)
    ensures Ticks(StartRest(w, exerciseId), k).running <==> k < RestSeconds(w, exerciseId)
    ensures k >= RestSeconds(w, exerciseId) ==> Ticks(StartRest(w, exerciseId), k) == Countdown(0, false)
  {
    TicksClosedForm(StartRest(w, exerciseId), k);
  }

  class Tracker {
    /** The template the app runs (`DEFAULT_WORKOUT` in the app). */
    const workout: Workout
    var session: Session
    var restSecondsLeft: nat
    var isRestRunning: bool
    var lastCompletedExercise: Option<string>
    var lastCompletedSetIndex: Option<nat>
    var elapsedSeconds: int
    /** The local-storage slot the session is saved to after every change.
        A save can fail (storage full or disabled); the failure is swallowed
        and the slot keeps what it held. */
    var storage: Option<Session>

    function Rest(): Countdown
      reads this
    {
      Countdown(restSecondsLeft, isRestRunning)
    }

    ghost predicate Valid()
      reads this
    {
      && session.workoutId == workout.id
      && Consistent(Rest())
      && (lastCompletedExercise.Some? <==> lastCompletedSetIndex.Some?)
    }

    /** The slot holds the current session: every save so far succeeded,
        or the last one did. */
    ghost predicate Saved()
      reads this
    {
      storage == Some(session)
    }

    /** Mounting the app: the stored session is resumed when it belongs to
        the template, otherwise a fresh one is built; the timers are idle.
        The save effect then runs once; `saved` is whether it succeeded. */
    constructor(w: Workout, stored: Option<Session>, now: int, saved: bool)
      ensures workout == w && session == InitialSession(stored, w, now)
      ensures Rest() == Countdown(0, false)
      ensures lastCompletedExercise == None && lastCompletedSetIndex == None
      ensures elapsedSeconds == 0
      ensures saved ==> Saved()
      ensures !saved ==> storage == stored
      ensures Valid()
    {
      workout := w;
      session := InitialSession(stored, w, now);
      restSecondsLeft := 0;
      isRestRunning := false;
      lastCompletedExercise := None;
      lastCompletedSetIndex := None;
      elapsedSeconds := 0;
      new;
      storage := if saved then Some(session) else stored;
    }

    /** `handleSetFieldChange`, followed by the save effect; `saved` is
        whether the save succeeded. */
    method SetFieldChange(exerciseId: string, setIndex: nat, field: Field, value: Raw, saved: bool)
      requires Valid()
      modifies this
      ensures Valid()
      ensures session == SetField(old(session), exerciseId, setIndex, field, value)
      ensures saved ==> Saved()
      ensures !saved ==> storage == old(storage)
      ensures Rest() == old(Rest()) && elapsedSeconds == old(elapsedSeconds)
      ensures lastCompletedExercise == old(lastCompletedExercise)
      ensures lastCompletedSetIndex == old(lastCompletedSetIndex)
    {
      session := SetField(session, exerciseId, setIndex, field, value);
      if saved {
        storage := Some(session);
      }
    }

    /** `handleToggleSetDone`: flips the set, then starts the rest and
        records the set, whether the set was marked or unmarked; `saved` is
        whether the save effect succeeded. */
    method ToggleSetDone(exerciseId: string, setIndex: nat, saved: bool)
      requires Valid()
      modifies this
      ensures Valid()
      ensures session == ToggleDone(old(session), exerciseId, setIndex)
      ensures saved ==> Saved()
      ensures !saved ==> storage == old(storage)
      ensures Rest() == StartRest(workout, exerciseId)
      ensures lastCompletedExercise == Some(exerciseId) && lastCompletedSetIndex == Some(setIndex)
      ensures elapsedSeconds == old(elapsedSeconds)
    {
      session := ToggleDone(session, exerciseId, setIndex);
      if saved {
        storage := Some(session);
      }
      lastCompletedExercise := Some(exerciseId);
      lastCompletedSetIndex := Some(setIndex);
      restSecondsLeft := RestSeconds(workout, exerciseId);
      isRestRunning := true;
    }

    /** One second of the rest interval (a no-op when no interval is
        installed). */
    method Tick()
      requires Valid()
      modifies this
      ensures Valid()
      ensures Rest() == TickOnce(old(Rest()))
      ensures session == old(session) && storage == old(storage)
      ensures lastCompletedExercise == old(lastCompletedExercise)
      ensures lastCompletedSetIndex == old(lastCompletedSetIndex)
      ensures elapsedSeconds == old(elapsedSeconds)
    {
      if isRestRunning && restSecondsLeft > 0 {
        if restSecondsLeft <= 1 {
          isRestRunning := false;
          restSecondsLeft := 0;
        } else {
          restSecondsLeft := restSecondsLeft - 1;
        }
      }
    }

    /** The Stop button. */
    method Stop()
      requires Valid()
      modifies this
      ensures Valid()
      ensures Rest() == Countdown(0, false)
      ensures session == old(session) && storage == old(storage)
      ensures lastCompletedExercise == old(lastCompletedExercise)
      ensures lastCompletedSetIndex == old(lastCompletedSetIndex)
      ensures elapsedSeconds == old(elapsedSeconds)
    {
      isRestRunning := false;
      restSecondsLeft := 0;
    }

    /** One firing of the elapsed-time interval: whole seconds since the
        session started, rounded down (timestamps in milliseconds). */
    method UpdateElapsed(nowMillis: int)
      requires Valid()
      modifies this
      ensures Valid()
      ensures elapsedSeconds * 1000 <= nowMillis - session.startedAt < elapsedSeconds * 1000 + 1000
      ensures session == old(session) && storage == old(storage) && Rest() == old(Rest())
      ensures lastCompletedExercise == old(lastCompletedExercise)
      ensures lastCompletedSetIndex == old(lastCompletedSetIndex)
    {
      elapsedSeconds := (nowMillis - session.startedAt) / 1000;
    }

    /** `handleResetSession`: nothing happens unless the user confirms;
        then a fresh session is built and saved and every timer is cleared.
        `saved` is whether the save succeeded. */
    method ResetSession(confirmed: bool, now: int, saved: bool)
      requires Valid()
      modifies this
      ensures Valid()
      ensures !confirmed ==>
        && session == old(session) && storage == old(storage) && Rest() == old(Rest())
        && elapsedSeconds == old(elapsedSeconds)
        && lastCompletedExercise == old(lastCompletedExercise)
        && lastCompletedSetIndex == old(lastCompletedSetIndex)
      ensures confirmed ==>
        && session == BuildSession(workout, now) && Rest() == Countdown(0, false)
        && elapsedSeconds == 0 && lastCompletedExercise == None && lastCompletedSetIndex == None
      ensures confirmed && saved ==> Saved()
      ensures confirmed && !saved ==> storage == old(storage)
    {
      if !confirmed {
        return;
      }
      session := BuildSession(workout, now);
      elapsedSeconds := 0;
      isRestRunning := false;
      restSecondsLeft := 0;
      lastCompletedExercise := None;
      lastCompletedSetIndex := None;
      if saved {
        storage := Some(session);
      }
    }

    /** The "Volume totale completato" figure. */
    function Volume(): (v: int)
      reads this
      ensures v >= 0
    {
      VolumeNonNegative(session);
      TotalVolume(session)
    }
  }

  /** A reload resumes what was last saved: a tracker built from another
      tracker's storage holds that tracker's session when its last save
      succeeded, and otherwise whatever the slot still holds (an older
      session of the template, or a fresh one). */
  method Reload(t: Tracker, now: int, saved: bool) returns (u: Tracker)
    requires t.Valid()
    ensures fresh(u) && u.Valid()
    ensures u.workout == t.workout && u.session == InitialSession(t.storage, t.workout, now)
    ensures t.Saved() ==> u.session == t.session
  {
    u := new Tracker(t.workout, t.storage, now, saved);
  }
}
