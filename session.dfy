/**
 * The workout session of app/src/App.jsx and the data it is built from: a
 * workout template (id, name, default rest, exercises) and the in-progress
 * session (one exercise log per template exercise, one set log per target
 * set). Everything here is the pure part of the app: building a fresh
 * session, choosing between a stored session and a fresh one, the two set
 * updates that rebuild the session with `map`, the rest duration a completed
 * set starts, and the session volume.
 */
module WorkoutSession {
  import opened Wrappers
  import opened Seqs

  /** A set's raw `reps` or `weight` input: the empty string, or a number. */
  datatype Raw = Empty | Num(n: nat)

  /** A template exercise. Numeric fields use 0 for a missing (falsy) value. */
  datatype ExerciseDef = ExerciseDef(
    id: string, name: string, targetSets: nat, targetReps: nat,
    defaultWeight: nat, defaultRestSeconds: nat)

  datatype Workout = Workout(
    id: string, name: string, defaultRestSeconds: nat, exercises: seq<ExerciseDef>)

  datatype SetLog = SetLog(index: nat, targetReps: nat, reps: Raw, weight: Raw, done: bool)

  datatype ExerciseLog = ExerciseLog(id: string, name: string, sets: seq<SetLog>)

  /** `startedAt` is the creation timestamp, supplied by the caller. */
  datatype Session = Session(
    workoutId: string, workoutName: string, startedAt: int, exercises: seq<ExerciseLog>)

  /** The two set inputs `handleSetFieldChange` is called with. */
  datatype Field = Reps | Weight

  /** `DEFAULT_WORKOUT`, the fixed template the app runs. */
  const DefaultWorkout: Workout := Workout("fullbody-1", "Full Body A", 90, [
    ExerciseDef("squat", "Squat", 4, 6, 60, 0),
    ExerciseDef("bench", "Panca piana", 4, 6, 50, 0),
    ExerciseDef("row", "Rematore bilanciere", 3, 8, 40, 0)
  ])

  /** `ex.defaultWeight || ""`. */
  function WeightInput(defaultWeight: nat): Raw {
    if defaultWeight == 0 then Empty else Num(defaultWeight)
  }

  /** An exercise log exactly as a session builder leaves it: `count` sets
      indexed 1..count, no reps, the default weight, nothing done. */
  ghost predicate IsFreshLog(log: ExerciseLog, id: string, name: string, count: nat,
                             targetReps: nat, defaultWeight: nat)
  {
    && log.id == id && log.name == name && |log.sets| == count
    && forall j :: 0 <= j < count ==>
         log.sets[j] == SetLog(j + 1, targetReps, Empty, WeightInput(defaultWeight), false)
  }

  /** `Array.from({ length: count }, (_, idx) => ({ index: idx + 1, ... }))`. */
  function FreshSets(count: nat, targetReps: nat, defaultWeight: nat): seq<SetLog> {
    seq(count, (j: nat) => SetLog(j + 1, targetReps, Empty, WeightInput(defaultWeight), false))
  }

  /** The fresh session of App.jsx, built from the template without fallbacks. */
  function BuildSession(w: Workout, now: int): (r: Session)
    ensures r.workoutId == w.id && r.workoutName == w.name && r.startedAt == now
    ensures |r.exercises| == |w.exercises|
    ensures forall i :: 0 <= i < |w.exercises| ==>
      var ex := w.exercises[i];
      IsFreshLog(r.exercises[i], ex.id, ex.name, ex.targetSets, ex.targetReps, ex.defaultWeight)
  {
    Session(w.id, w.name, now, seq(|w.exercises|, i requires 0 <= i < |w.exercises| =>
      var ex := w.exercises[i];
      ExerciseLog(ex.id, ex.name, FreshSets(ex.targetSets, ex.targetReps, ex.defaultWeight))))
  }

  /** The session the app starts with: the stored one when its workout is the
      template's, otherwise a fresh one. */
  function InitialSession(stored: Option<Session>, w: Workout, now: int): (r: Session)
    ensures r.workoutId == w.id
    ensures stored.Some? && stored.value.workoutId == w.id ==> r == stored.value
    ensures !(stored.Some? && stored.value.workoutId == w.id) ==> r == BuildSession(w, now)
  {
    if stored.Some? && stored.value.workoutId == w.id then stored.value else BuildSession(w, now)
  }

  function HasId(id: string): ExerciseDef -> bool {
    (e: ExerciseDef) => e.id == id
  }

  /** The rest a completed set starts: the exercise's own default (first
      exercise with that id), else the workout's, else 90 seconds. */
  function RestSeconds(w: Workout, exerciseId: string): (r: nat)
    ensures r > 0
    ensures forall i :: 0 <= i < |w.exercises| && w.exercises[i].id == exerciseId
                        && (forall j :: 0 <= j < i ==> w.exercises[j].id != exerciseId) ==>
      r == (if w.exercises[i].defaultRestSeconds != 0 then w.exercises[i].defaultRestSeconds
            else if w.defaultRestSeconds != 0 then w.defaultRestSeconds else 90)
    ensures (forall i :: 0 <= i < |w.exercises| ==> w.exercises[i].id != exerciseId) ==>
      r == (if w.defaultRestSeconds != 0 then w.defaultRestSeconds else 90)
  {
    var own := match FindFirst(w.exercises, HasId(exerciseId))
      case Some(i) => w.exercises[i].defaultRestSeconds
      case None => 0;
    if own != 0 then own else if w.defaultRestSeconds != 0 then w.defaultRestSeconds else 90
  }

  /** In the app's own template no exercise overrides the rest, so every
      completed set starts a 90-second rest. */
  lemma DefaultWorkoutRest(exerciseId: string)
    ensures RestSeconds(DefaultWorkout, exerciseId) == 90
  {
    var w := DefaultWorkout;
    assert forall i :: 0 <= i < |w.exercises| ==> w.exercises[i].defaultRestSeconds == 0;
    if i :| 0 <= i < |w.exercises| && w.exercises[i].id == exerciseId {
      var k := FindFirst(w.exercises, HasId(exerciseId));
      assert k.Some?;
    }
  }

  /** The set a handler call addresses. */
  predicate Addressed(ex: ExerciseLog, st: SetLog, exerciseId: string, setIndex: nat) {
    ex.id == exerciseId && st.index == setIndex
  }

  /** The rebuild shared by both set handlers: `f` is applied to every set
      whose exercise id and set index match; every other node is kept. */
  function UpdateSets(sets: seq<SetLog>, setIndex: nat, f: SetLog -> SetLog): seq<SetLog> {
    seq(|sets|, j requires 0 <= j < |sets| => if sets[j].index == setIndex then f(sets[j]) else sets[j])
  }

  function UpdateSession(s: Session, exerciseId: string, setIndex: nat, f: SetLog -> SetLog): Session {
    s.(exercises := seq(|s.exercises|, i requires 0 <= i < |s.exercises| =>
      var ex := s.exercises[i];
      if ex.id == exerciseId then ex.(sets := UpdateSets(ex.sets, setIndex, f)) else ex))
  }

  /** Same workout, same exercises, same sets with the same indices and
      targets: only `reps`, `weight` and `done` may differ. */
  ghost predicate SameShape(a: Session, b: Session) {
    && a.workoutId == b.workoutId && a.workoutName == b.workoutName && a.startedAt == b.startedAt
    && |a.exercises| == |b.exercises|
    && forall i :: 0 <= i < |a.exercises| ==>
         && a.exercises[i].id == b.exercises[i].id
         && a.exercises[i].name == b.exercises[i].name
         && |a.exercises[i].sets| == |b.exercises[i].sets|
         && forall j :: 0 <= j < |a.exercises[i].sets| ==>
              a.exercises[i].sets[j].index == b.exercises[i].sets[j].index
              && a.exercises[i].sets[j].targetReps == b.exercises[i].sets[j].targetReps
  }

  function WithField(st: SetLog, field: Field, value: Raw): SetLog {
    match field
    case Reps => st.(reps := value)
    case Weight => st.(weight := value)
  }

  /** `handleSetFieldChange`: the named field of every addressed set becomes
      `value`; nothing else in the session changes. */
  function SetField(s: Session, exerciseId: string, setIndex: nat, field: Field, value: Raw): (r: Session)
    ensures SameShape(s, r)
    ensures forall i, j :: 0 <= i < |s.exercises| && 0 <= j < |s.exercises[i].sets| ==>
      var ex, old_, new_ := s.exercises[i], s.exercises[i].sets[j], r.exercises[i].sets[j];
      && new_.done == old_.done
      && new_.reps == (if Addressed(ex, old_, exerciseId, setIndex) && field == Reps then value else old_.reps)
      && new_.weight == (if Addressed(ex, old_, exerciseId, setIndex) && field == Weight then value else old_.weight)
  {
    UpdateSession(s, exerciseId, setIndex, (st: SetLog) => WithField(st, field, value))
  }

  /** The `done` flag of every addressed set is flipped; nothing else changes. */
  function ToggleDone(s: Session, exerciseId: string, setIndex: nat): (r: Session)
    ensures SameShape(s, r)
    ensures forall i, j :: 0 <= i < |s.exercises| && 0 <= j < |s.exercises[i].sets| ==>
      var ex, old_, new_ := s.exercises[i], s.exercises[i].sets[j], r.exercises[i].sets[j];
      && new_.reps == old_.reps && new_.weight == old_.weight
      && new_.done == (if Addressed(ex, old_, exerciseId, setIndex) then !old_.done else old_.done)
  {
    UpdateSession(s, exerciseId, setIndex, (st: SetLog) => st.(done := !st.done))
  }

  /** Sessions with the same shape and the same set contents are equal. */
  lemma SessionExtensionality(a: Session, b: Session)
    requires SameShape(a, b)
    requires forall i, j :: 0 <= i < |a.exercises| && 0 <= j < |a.exercises[i].sets| ==>
      a.exercises[i].sets[j] == b.exercises[i].sets[j]
    ensures a == b
  {
    forall i | 0 <= i < |a.exercises| ensures a.exercises[i] == b.exercises[i] {
      assert a.exercises[i].sets == b.exercises[i].sets;
    }
    assert a.exercises == b.exercises;
  }

  /** A handler call that addresses no set leaves the session as it was. */
  lemma SetFieldWithoutTarget(s: Session, exerciseId: string, setIndex: nat, field: Field, value: Raw)
    requires forall i, j :: 0 <= i < |s.exercises| && 0 <= j < |s.exercises[i].sets| ==>
      !Addressed(s.exercises[i], s.exercises[i].sets[j], exerciseId, setIndex)
    ensures SetField(s, exerciseId, setIndex, field, value) == s
  {
    SessionExtensionality(SetField(s, exerciseId, setIndex, field, value), s);
  }

  lemma ToggleWithoutTarget(s: Session, exerciseId: string, setIndex: nat)
    requires forall i, j :: 0 <= i < |s.exercises| && 0 <= j < |s.exercises[i].sets| ==>
      !Addressed(s.exercises[i], s.exercises[i].sets[j], exerciseId, setIndex)
    ensures ToggleDone(s, exerciseId, setIndex) == s
  {
    SessionExtensionality(ToggleDone(s, exerciseId, setIndex), s);
  }

  /** Toggling the same set twice restores the session. */
  lemma ToggleTwice(s: Session, exerciseId: string, setIndex: nat)
    ensures ToggleDone(ToggleDone(s, exerciseId, setIndex), exerciseId, setIndex) == s
  {
    var t := ToggleDone(s, exerciseId, setIndex);
    var u := ToggleDone(t, exerciseId, setIndex);
    forall i, j | 0 <= i < |s.exercises| && 0 <= j < |s.exercises[i].sets|
      ensures u.exercises[i].sets[j] == s.exercises[i].sets[j]
    {
      assert t.exercises[i].sets[j].index == s.exercises[i].sets[j].index;
    }
    SessionExtensionality(u, s);
  }

  /** Writing the same value twice is the same as writing it once. */
  lemma SetFieldIdempotent(s: Session, exerciseId: string, setIndex: nat, field: Field, value: Raw)
    ensures var t := SetField(s, exerciseId, setIndex, field, value);
      SetField(t, exerciseId, setIndex, field, value) == t
  {
    var t := SetField(s, exerciseId, setIndex, field, value);
    var u := SetField(t, exerciseId, setIndex, field, value);
    forall i, j | 0 <= i < |t.exercises| && 0 <= j < |t.exercises[i].sets|
      ensures u.exercises[i].sets[j] == t.exercises[i].sets[j]
    {
      assert t.exercises[i].sets[j].index == s.exercises[i].sets[j].index;
    }
    SessionExtensionality(u, t);
  }

  /** `s.done && s.reps && s.weight`: the sets the volume counts. */
  predicate Counts(st: SetLog) {
    st.done && st.reps.Num? && st.weight.Num?
  }

  /** `Number(s.reps) * Number(s.weight)`. */
  function Product(st: SetLog): int {
    match (st.reps, st.weight)
    case (Num(r), Num(w)) => r * w
    case _ => 0
  }

  /** `flatMap` over the exercises' sets. */
  function AllSets(exercises: seq<ExerciseLog>): seq<SetLog> {
    if exercises == [] then [] else exercises[0].sets + AllSets(exercises[1..])
  }

  /** `totalVolume`: flatten, keep the counted sets, add up reps x weight. */
  function TotalVolume(s: Session): int {
    Sum(Filter(AllSets(s.exercises), Counts), Product)
  }

  /** A set's share of the volume. */
  function SetVolume(st: SetLog): int {
    if Counts(st) then Product(st) else 0
  }

  function ExerciseVolume(ex: ExerciseLog): int {
    Sum(ex.sets, SetVolume)
  }

  lemma {:induction false} AllSetsSum(exercises: seq<ExerciseLog>)
    ensures Sum(AllSets(exercises), SetVolume) == Sum(exercises, ExerciseVolume)
  {
    if exercises != [] {
      AllSetsSum(exercises[1..]);
      SumConcat(exercises[0].sets, AllSets(exercises[1..]), SetVolume);
    }
  }

  /** The volume is the sum, exercise by exercise, of the counted sets'
      reps x weight: the flattened pipeline and the nested sum agree. */
  lemma VolumeByExercise(s: Session)
    ensures TotalVolume(s) == Sum(s.exercises, ExerciseVolume)
  {
    SumFilter(AllSets(s.exercises), Counts, Product, SetVolume);
    AllSetsSum(s.exercises);
  }

  /** The volume is never negative. */
  lemma VolumeNonNegative(s: Session)
    ensures TotalVolume(s) >= 0
  {
    SumNonNegative(Filter(AllSets(s.exercises), Counts), Product);
  }

  /** Two sessions of one shape whose sets contribute the same amounts have
      the same volume. */
  lemma VolumeCongruent(a: Session, b: Session)
    requires |a.exercises| == |b.exercises|
    requires forall i :: 0 <= i < |a.exercises| ==> |a.exercises[i].sets| == |b.exercises[i].sets|
    requires forall i, j :: 0 <= i < |a.exercises| && 0 <= j < |a.exercises[i].sets| ==>
      SetVolume(a.exercises[i].sets[j]) == SetVolume(b.exercises[i].sets[j])
    ensures TotalVolume(a) == TotalVolume(b)
  {
    VolumeByExercise(a);
    VolumeByExercise(b);
    forall i | 0 <= i < |a.exercises|
      ensures ExerciseVolume(a.exercises[i]) == ExerciseVolume(b.exercises[i])
    {
      SumCongruent(a.exercises[i].sets, SetVolume, b.exercises[i].sets, SetVolume);
    }
    SumCongruent(a.exercises, ExerciseVolume, b.exercises, ExerciseVolume);
  }

  /** A session nobody has logged in yet has no volume. */
  lemma FreshSessionHasNoVolume(w: Workout, now: int)
    ensures TotalVolume(BuildSession(w, now)) == 0
  {
    var s := BuildSession(w, now);
    VolumeByExercise(s);
    forall i | 0 <= i < |s.exercises| ensures ExerciseVolume(s.exercises[i]) == 0 {
      var sets := s.exercises[i].sets;
      SumCongruent(sets, SetVolume, seq(|sets|, _ => 0), x => x);
      SumZero(|sets|);
    }
    SumCongruent(s.exercises, ExerciseVolume, seq(|s.exercises|, _ => 0), x => x);
    SumZero(|s.exercises|);
  }

  lemma {:induction false} SumZero(n: nat)
    ensures Sum(seq(n, _ => 0), x => x) == 0
  {
    if n > 0 {
      assert seq(n, _ => 0)[1..] == seq(n - 1, _ => 0);
      SumZero(n - 1);
    }
  }

  /** Editing reps or weight of sets that are not done leaves the volume
      unchanged: undone sets contribute nothing. */
  lemma SetFieldOfUndoneKeepsVolume(s: Session, exerciseId: string, setIndex: nat, field: Field, value: Raw)
    requires forall i, j ::
      (0 <= i < |s.exercises| && 0 <= j < |s.exercises[i].sets|
       && Addressed(s.exercises[i], s.exercises[i].sets[j], exerciseId, setIndex))
      ==> !s.exercises[i].sets[j].done
    ensures TotalVolume(SetField(s, exerciseId, setIndex, field, value)) == TotalVolume(s)
  {
    VolumeCongruent(SetField(s, exerciseId, setIndex, field, value), s);
  }

  /** Marking or unmarking sets whose reps or weight is empty leaves the
      volume unchanged: such sets contribute nothing either way. */
  lemma ToggleOfIncompleteKeepsVolume(s: Session, exerciseId: string, setIndex: nat)
    requires forall i, j ::
      (0 <= i < |s.exercises| && 0 <= j < |s.exercises[i].sets|
       && Addressed(s.exercises[i], s.exercises[i].sets[j], exerciseId, setIndex))
      ==> s.exercises[i].sets[j].reps == Empty || s.exercises[i].sets[j].weight == Empty
    ensures TotalVolume(ToggleDone(s, exerciseId, setIndex)) == TotalVolume(s)
  {
    VolumeCongruent(ToggleDone(s, exerciseId, setIndex), s);
  }

  /** Rebuilding a session at another time changes only its timestamp. */
  lemma RebuildDiffersOnlyInStart(w: Workout, t1: int, t2: int)
    ensures BuildSession(w, t1).(startedAt := t2) == BuildSession(w, t2)
  {
  }

  /** A done set with both inputs counts; a done set missing its reps and a
      set not done do not: 5 x 60 is the whole volume. */
  lemma VolumeExample()
    ensures TotalVolume(Session("w", "W", 0, [ExerciseLog("e", "E", [
      SetLog(1, 5, Num(5), Num(60), true),
      SetLog(2, 5, Empty, Num(40), true),
      SetLog(3, 5, Num(3), Num(20), false)])])) == 300
  {
    var sets := [SetLog(1, 5, Num(5), Num(60), true),
      SetLog(2, 5, Empty, Num(40), true),
      SetLog(3, 5, Num(3), Num(20), false)];
    assert AllSets([ExerciseLog("e", "E", sets)]) == sets by {
      assert AllSets([ExerciseLog("e", "E", sets)]) == sets + [];
    }
    ExampleCounted(sets);
  }

  lemma ExampleCounted(sets: seq<SetLog>)
    requires sets == [SetLog(1, 5, Num(5), Num(60), true),
      SetLog(2, 5, Empty, Num(40), true),
      SetLog(3, 5, Num(3), Num(20), false)]
    ensures Sum(Filter(sets, Counts), Product) == 300
  {
    var a, b, c := sets[0], sets[1], sets[2];
    assert Counts(a) && !Counts(b) && !Counts(c);
    FilterCons(c, [], Counts);
    assert [c] == [c] + [];
    assert Filter([c], Counts) == [];
    FilterCons(b, [c], Counts);
    assert [b, c] == [b] + [c];
    assert Filter([b, c], Counts) == [];
    FilterCons(a, [b, c], Counts);
    assert sets == [a] + [b, c];
    assert Filter(sets, Counts) == [a] + [];
    SumCons(a, [], Product);
    assert Product(a) == 300;
  }
}
