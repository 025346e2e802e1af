/**
 * The workout-template editor of app/src/WorkoutEditor.jsx: its own session
 * builder (with fallbacks for missing targets), the handlers that rebuild the
 * list of workouts with `map`/`filter`, the drag-and-drop reorder that
 * splices a copy of the exercise list in place, and the child rows the
 * editor writes for a workout's exercises.
 */
module WorkoutEditor {
  import opened Wrappers
  import opened Seqs
  import opened WorkoutSession

  /** `n || fallback` for a numeric template field. */
  function OrElse(n: nat, fallback: nat): nat {
    if n == 0 then fallback else n
  }

  /** `buildEmptySessionFromWorkout`: like the app's builder, but an
      exercise without target sets gets 3 and one without target reps 8. */
  function BuildEmptySession(w: Workout, now: int): (r: Session)
    ensures r.workoutId == w.id && r.workoutName == w.name && r.startedAt == now
    ensures |r.exercises| == |w.exercises|
    ensures forall i :: 0 <= i < |w.exercises| ==>
      var ex := w.exercises[i];
      IsFreshLog(r.exercises[i], ex.id, ex.name, OrElse(ex.targetSets, 3), OrElse(ex.targetReps, 8),
                 ex.defaultWeight)
    ensures forall i :: 0 <= i < |r.exercises| ==> |r.exercises[i].sets| >= 1
  {
    Session(w.id, w.name, now, seq(|w.exercises|, i requires 0 <= i < |w.exercises| =>
      var ex := w.exercises[i];
      ExerciseLog(ex.id, ex.name,
        FreshSets(OrElse(ex.targetSets, 3), OrElse(ex.targetReps, 8), ex.defaultWeight))))
  }

  /** The two session builders agree on templates that name their targets. */
  lemma BuildersAgree(w: Workout, now: int)
    requires forall i :: 0 <= i < |w.exercises| ==>
      w.exercises[i].targetSets != 0 && w.exercises[i].targetReps != 0
    ensures BuildEmptySession(w, now) == BuildSession(w, now)
  {
    var a, b := BuildEmptySession(w, now), BuildSession(w, now);
    forall i | 0 <= i < |w.exercises| ensures a.exercises[i] == b.exercises[i] {
      assert a.exercises[i].sets == b.exercises[i].sets;
    }
    assert a.exercises == b.exercises;
  }

  /** The workouts' ids, in list order. */
  function Ids(ws: seq<Workout>): seq<string> {
    seq(|ws|, i requires 0 <= i < |ws| => ws[i].id)
  }

  /** The `prev.map((w) => w.id === workoutId ? f(w) : w)` every handler
      performs. */
  function UpdateWorkout(ws: seq<Workout>, workoutId: string, f: Workout -> Workout): (r: seq<Workout>)
    ensures |r| == |ws|
    ensures forall i :: 0 <= i < |ws| && ws[i].id != workoutId ==> r[i] == ws[i]
    ensures forall i :: 0 <= i < |ws| && ws[i].id == workoutId ==> r[i] == f(ws[i])
  {
    seq(|ws|, i requires 0 <= i < |ws| => if ws[i].id == workoutId then f(ws[i]) else ws[i])
  }

  /** An update that keeps a workout's id keeps the list of ids. */
  lemma UpdateKeepsIds(ws: seq<Workout>, workoutId: string, f: Workout -> Workout)
    requires forall w :: f(w).id == w.id
    ensures Ids(UpdateWorkout(ws, workoutId, f)) == Ids(ws)
  {
  }

  /** An update addressed to an id no workout has changes nothing. */
  lemma UpdateWithoutTarget(ws: seq<Workout>, workoutId: string, f: Workout -> Workout)
    requires workoutId !in Ids(ws)
    ensures UpdateWorkout(ws, workoutId, f) == ws
  {
    var r := UpdateWorkout(ws, workoutId, f);
    forall i | 0 <= i < |ws| ensures r[i] == ws[i] {
      assert Ids(ws)[i] == ws[i].id;
    }
  }

  /** The workout fields the editor edits; the rest duration arrives
      already converted by `Number`. */
  datatype WorkoutEdit = Name(name: string) | DefaultRest(seconds: nat)

  function ApplyWorkoutEdit(e: WorkoutEdit): Workout -> Workout {
    (w: Workout) => match e
      case Name(n) => w.(name := n)
      case DefaultRest(sec) => w.(defaultRestSeconds := sec)
  }

  /** `handleWorkoutFieldChange`: the edited workout gets the new field;
      every other workout, the list length and every id are unchanged. */
  function WorkoutFieldChange(ws: seq<Workout>, workoutId: string, e: WorkoutEdit): (r: seq<Workout>)
    ensures |r| == |ws| && Ids(r) == Ids(ws)
    ensures forall i :: 0 <= i < |ws| && ws[i].id != workoutId ==> r[i] == ws[i]
    ensures forall i :: 0 <= i < |ws| && ws[i].id == workoutId ==>
      && r[i].exercises == ws[i].exercises
      && r[i].name == (if e.Name? then e.name else ws[i].name)
      && r[i].defaultRestSeconds == (if e.DefaultRest? then e.seconds else ws[i].defaultRestSeconds)
  {
    UpdateKeepsIds(ws, workoutId, ApplyWorkoutEdit(e));
    UpdateWorkout(ws, workoutId, ApplyWorkoutEdit(e))
  }

  /** The exercise fields the editor edits; numeric fields arrive already
      converted by `Number`. */
  datatype ExerciseEdit =
    | ExerciseName(name: string)
    | TargetSets(sets: nat)
    | TargetReps(reps: nat)
    | DefaultWeight(weight: nat)

  function ApplyExerciseEdit(ex: ExerciseDef, e: ExerciseEdit): ExerciseDef {
    match e
    case ExerciseName(n) => ex.(name := n)
    case TargetSets(n) => ex.(targetSets := n)
    case TargetReps(n) => ex.(targetReps := n)
    case DefaultWeight(n) => ex.(defaultWeight := n)
  }

  function EditExercises(exerciseId: string, e: ExerciseEdit): Workout -> Workout {
    (w: Workout) => w.(exercises := seq(|w.exercises|, j requires 0 <= j < |w.exercises| =>
      if w.exercises[j].id == exerciseId then ApplyExerciseEdit(w.exercises[j], e) else w.exercises[j]))
  }

  /** `handleExerciseFieldChange`: inside the edited workout, every exercise
      with that id gets the new field and the others stay; exercise order,
      count and ids are kept, and other workouts are untouched. */
  function ExerciseFieldChange(ws: seq<Workout>, workoutId: string, exerciseId: string, e: ExerciseEdit)
    : (r: seq<Workout>)
    ensures |r| == |ws| && Ids(r) == Ids(ws)
    ensures forall i :: 0 <= i < |ws| && ws[i].id != workoutId ==> r[i] == ws[i]
    ensures forall i :: 0 <= i < |ws| && ws[i].id == workoutId ==>
      && r[i].name == ws[i].name && r[i].defaultRestSeconds == ws[i].defaultRestSeconds
      && |r[i].exercises| == |ws[i].exercises|
      && forall j :: 0 <= j < |ws[i].exercises| ==>
           && r[i].exercises[j].id == ws[i].exercises[j].id
           && r[i].exercises[j] == (if ws[i].exercises[j].id == exerciseId
                                    then ApplyExerciseEdit(ws[i].exercises[j], e)
                                    else ws[i].exercises[j])
  {
    UpdateKeepsIds(ws, workoutId, EditExercises(exerciseId, e));
    UpdateWorkout(ws, workoutId, EditExercises(exerciseId, e))
  }

  /** The exercise `handleAddExercise` appends; its id (derived from the
      clock in the app) is a parameter. */
  function NewExercise(newId: string): ExerciseDef {
    ExerciseDef(newId, "Nuovo esercizio", 3, 10, 0, 0)
  }

  function AppendExercise(newId: string): Workout -> Workout {
    (w: Workout) => w.(exercises := w.exercises + [NewExercise(newId)])
  }

  /** `handleAddExercise`: exactly one new exercise at the end of the edited
      workout; its existing exercises and every other workout are kept. */
  function AddExercise(ws: seq<Workout>, workoutId: string, newId: string): (r: seq<Workout>)
    ensures |r| == |ws| && Ids(r) == Ids(ws)
    ensures forall i :: 0 <= i < |ws| && ws[i].id != workoutId ==> r[i] == ws[i]
    ensures forall i :: 0 <= i < |ws| && ws[i].id == workoutId ==>
      && r[i].name == ws[i].name && r[i].defaultRestSeconds == ws[i].defaultRestSeconds
      && |r[i].exercises| == |ws[i].exercises| + 1
      && r[i].exercises[..|ws[i].exercises|] == ws[i].exercises
      && r[i].exercises[|ws[i].exercises|] == ExerciseDef(newId, "Nuovo esercizio", 3, 10, 0, 0)
  {
    UpdateKeepsIds(ws, workoutId, AppendExercise(newId));
    UpdateWorkout(ws, workoutId, AppendExercise(newId))
  }

  function NotId(exerciseId: string): ExerciseDef -> bool {
    (ex: ExerciseDef) => ex.id != exerciseId
  }

  function DropExercise(exerciseId: string): Workout -> Workout {
    (w: Workout) => w.(exercises := Filter(w.exercises, NotId(exerciseId)))
  }

  /** `handleRemoveExercise`: the edited workout loses every exercise with
      that id and keeps every other one, in the original relative order;
      other workouts are untouched. */
  function RemoveExercise(ws: seq<Workout>, workoutId: string, exerciseId: string): (r: seq<Workout>)
    ensures |r| == |ws| && Ids(r) == Ids(ws)
    ensures forall i :: 0 <= i < |ws| && ws[i].id != workoutId ==> r[i] == ws[i]
    ensures forall i :: 0 <= i < |ws| && ws[i].id == workoutId ==>
      && r[i].name == ws[i].name && r[i].defaultRestSeconds == ws[i].defaultRestSeconds
      && (forall j :: 0 <= j < |r[i].exercises| ==> r[i].exercises[j].id != exerciseId)
      && (forall j :: 0 <= j < |ws[i].exercises| && ws[i].exercises[j].id != exerciseId ==>
            ws[i].exercises[j] in r[i].exercises)
      && IsSubsequence(r[i].exercises, ws[i].exercises)
      && r[i].exercises == Filter(ws[i].exercises, NotId(exerciseId))
  {
    UpdateKeepsIds(ws, workoutId, DropExercise(exerciseId));
    var r := UpdateWorkout(ws, workoutId, DropExercise(exerciseId));
    forall i | 0 <= i < |ws| && ws[i].id == workoutId
      ensures IsSubsequence(r[i].exercises, ws[i].exercises)
    {
      FilterSubsequence(ws[i].exercises, NotId(exerciseId));
    }
    r
  }

  /** Removing an exercise that was just added under a fresh id undoes the
      addition. */
  lemma RemoveUndoesAdd(ws: seq<Workout>, workoutId: string, newId: string)
    requires forall i, j :: 0 <= i < |ws| && ws[i].id == workoutId && 0 <= j < |ws[i].exercises| ==>
      ws[i].exercises[j].id != newId
    ensures RemoveExercise(AddExercise(ws, workoutId, newId), workoutId, newId) == ws
  {
    var added := AddExercise(ws, workoutId, newId);
    var r := RemoveExercise(added, workoutId, newId);
    forall i | 0 <= i < |ws| ensures r[i] == ws[i] {
      if ws[i].id == workoutId {
        var exs := ws[i].exercises;
        assert added[i].exercises == exs + [NewExercise(newId)];
        FilterConcat(exs, [NewExercise(newId)], NotId(newId));
        FilterAll(exs, NotId(newId));
        assert Filter([NewExercise(newId)], NotId(newId)) == [];
      }
    }
  }

  function HasExerciseId(id: string): ExerciseDef -> bool {
    (ex: ExerciseDef) => ex.id == id
  }

  /** What `handleReorderExercises` makes of one exercise list. Nothing
      changes when an id is missing (the empty string stands for `null`),
      when both ids are the same, or when either is not in the list;
      otherwise the first exercise with the dragged id is taken out and put
      back in at the index the first exercise with the target id had. */
  function Reordered(exs: seq<ExerciseDef>, draggedId: string, targetId: string): (r: seq<ExerciseDef>)
    ensures |r| == |exs| && multiset(r) == multiset(exs)
    ensures draggedId == "" || targetId == "" || draggedId == targetId ==> r == exs
    ensures (forall j :: 0 <= j < |exs| ==> exs[j].id != draggedId) ==> r == exs
    ensures (forall j :: 0 <= j < |exs| ==> exs[j].id != targetId) ==> r == exs
  {
    if draggedId == "" || targetId == "" || draggedId == targetId then exs
    else match (FindFirst(exs, HasExerciseId(draggedId)), FindFirst(exs, HasExerciseId(targetId)))
      case (Some(from), Some(to)) => Move(exs, from, to)
      case _ => exs
  }

  /** A reorder that does take place puts the dragged exercise at the
      target's original index and keeps every other exercise in order. */
  lemma ReorderedPlacesDragged(exs: seq<ExerciseDef>, draggedId: string, targetId: string, from: nat, to: nat)
    requires draggedId != "" && targetId != "" && draggedId != targetId
    requires from < |exs| && exs[from].id == draggedId
    requires forall j :: 0 <= j < from ==> exs[j].id != draggedId
    requires to < |exs| && exs[to].id == targetId
    requires forall j :: 0 <= j < to ==> exs[j].id != targetId
    ensures Reordered(exs, draggedId, targetId)[to] == exs[from]
    ensures RemoveAt(Reordered(exs, draggedId, targetId), to) == RemoveAt(exs, from)
  {
    var f := FindFirst(exs, HasExerciseId(draggedId));
    var t := FindFirst(exs, HasExerciseId(targetId));
    assert f.Some? && f.value == from by {
      assert HasExerciseId(draggedId)(exs[from]);
    }
    assert t.Some? && t.value == to by {
      assert HasExerciseId(targetId)(exs[to]);
    }
  }

  /** `copy.splice(from, 1)` followed by `copy.splice(to, 0, moved)`, done
      by shifting the elements between the two indices by one. */
  method MoveInPlace(a: array<ExerciseDef>, from: nat, to: nat)
    requires from < a.Length && to < a.Length
    modifies a
    ensures a[..] == Move(old(a[..]), from, to)
  {
    ghost var s := a[..];
    var moved := a[from];
    if from < to {
      ShiftDown(a, from, to);
    } else {
      ShiftUp(a, to, from);
    }
    a[to] := moved;
    ShiftedIsMove(s, a[..], from, to);
  }

  /** A sequence laid out as the two shifts and the final write leave the
      array is the move of the original. */
  lemma ShiftedIsMove<T>(s: seq<T>, t: seq<T>, from: nat, to: nat)
    requires from < |s| && to < |s| && |t| == |s| && t[to] == s[from]
    requires forall j {:trigger t[j]} :: 0 <= j < |t| && j != to ==>
      t[j] == if from < to && from <= j < to then s[j + 1]
              else if to < from && to < j <= from then s[j - 1]
              else s[j]
    ensures t == Move(s, from, to)
  {
    var m := Move(s, from, to);
    MoveAt(s, from, to);
    forall j | 0 <= j < |t| ensures t[j] == m[j] {
      if j == to {
        assert t[j] == s[from];
      }
    }
  }

  /** Moves `a[lo + 1..hi + 1]` one place down, leaving `a[hi]` as it was. */
  method ShiftDown(a: array<ExerciseDef>, lo: nat, hi: nat)
    requires lo <= hi < a.Length
    modifies a
    ensures forall j :: 0 <= j < a.Length ==> a[j] == if lo <= j < hi then old(a[j + 1]) else old(a[j])
  {
    var k := lo;
    while k < hi
      invariant lo <= k <= hi
      invariant forall j :: 0 <= j < a.Length ==> a[j] == if lo <= j < k then old(a[j + 1]) else old(a[j])
    {
      a[k] := a[k + 1];
      k := k + 1;
    }
  }

  /** Moves `a[lo..hi]` one place up, leaving `a[lo]` as it was. */
  method ShiftUp(a: array<ExerciseDef>, lo: nat, hi: nat)
    requires lo <= hi < a.Length
    modifies a
    ensures forall j :: 0 <= j < a.Length ==> a[j] == if lo < j <= hi then old(a[j - 1]) else old(a[j])
  {
    var k := hi;
    while k > lo
      invariant lo <= k <= hi
      invariant forall j :: 0 <= j < a.Length ==> a[j] == if k < j <= hi then old(a[j - 1]) else old(a[j])
    {
      a[k] := a[k - 1];
      k := k - 1;
    }
  }

  /** The list-level reorder: copies the list into an array, finds the two
      indices and moves the dragged exercise in place. */
  method ReorderExercises(exs: seq<ExerciseDef>, draggedId: string, targetId: string)
    returns (r: seq<ExerciseDef>)
    ensures r == Reordered(exs, draggedId, targetId)
  {
    if draggedId == "" || targetId == "" || draggedId == targetId {
      return exs;
    }
    var from := FindFirst(exs, HasExerciseId(draggedId));
    var to := FindFirst(exs, HasExerciseId(targetId));
    if from.None? || to.None? {
      return exs;
    }
    var copy := new ExerciseDef[|exs|](j requires 0 <= j < |exs| => exs[j]);
    assert copy[..] == exs;
    MoveInPlace(copy, from.value, to.value);
    r := copy[..];
  }

  /** `handleReorderExercises` on the whole list of workouts. */
  function ReorderInWorkouts(ws: seq<Workout>, workoutId: string, draggedId: string, targetId: string)
    : (r: seq<Workout>)
    ensures |r| == |ws| && Ids(r) == Ids(ws)
    ensures forall i :: 0 <= i < |ws| && ws[i].id != workoutId ==> r[i] == ws[i]
    ensures forall i :: 0 <= i < |ws| && ws[i].id == workoutId ==>
      r[i] == ws[i].(exercises := Reordered(ws[i].exercises, draggedId, targetId))
  {
    seq(|ws|, i requires 0 <= i < |ws| =>
      if ws[i].id == workoutId then ws[i].(exercises := Reordered(ws[i].exercises, draggedId, targetId))
      else ws[i])
  }

  /** The handler itself: rebuilds the list, reordering the edited workout's
      exercises through the in-place move. */
  method ReorderWorkoutExercises(ws: seq<Workout>, workoutId: string, draggedId: string, targetId: string)
    returns (r: seq<Workout>)
    ensures r == ReorderInWorkouts(ws, workoutId, draggedId, targetId)
  {
    r := [];
    var i := 0;
    while i < |ws|
      invariant 0 <= i <= |ws|
      invariant r == ReorderInWorkouts(ws, workoutId, draggedId, targetId)[..i]
    {
      var w := ws[i];
      if w.id == workoutId {
        var exs := ReorderExercises(w.exercises, draggedId, targetId);
        w := w.(exercises := exs);
      }
      r := r + [w];
      i := i + 1;
    }
  }

  /** One `workout_exercises` row as `syncWorkoutToDb` builds it. */
  datatype ExerciseRow = ExerciseRow(
    workoutDbId: int, exerciseId: string, name: string,
    targetSets: nat, targetReps: nat, defaultWeight: nat, position: nat)

  /** The child rows of a workout: one per exercise, in list order, with its
      index as `position`. */
  function ExerciseRows(w: Workout, dbId: int): (r: seq<ExerciseRow>)
    ensures |r| == |w.exercises|
    ensures forall i :: 0 <= i < |r| ==>
      && r[i].position == i && r[i].workoutDbId == dbId
      && r[i].exerciseId == w.exercises[i].id && r[i].name == w.exercises[i].name
      && r[i].targetSets == w.exercises[i].targetSets && r[i].targetReps == w.exercises[i].targetReps
      && r[i].defaultWeight == w.exercises[i].defaultWeight
  {
    seq(|w.exercises|, i requires 0 <= i < |w.exercises| =>
      var ex := w.exercises[i];
      ExerciseRow(dbId, ex.id, ex.name, ex.targetSets, ex.targetReps, ex.defaultWeight, i))
  }

  /** Reading rows back: the exercise at each row's position. A row has no
      rest column, so the exercise's own rest comes back as 0. */
  function ExercisesOfRows(rows: seq<ExerciseRow>): seq<ExerciseDef> {
    seq(|rows|, i requires 0 <= i < |rows| =>
      var row := rows[i];
      ExerciseDef(row.exerciseId, row.name, row.targetSets, row.targetReps, row.defaultWeight, 0))
  }

  /** The rows hold the whole exercise list, in order, except for the
      exercises' own rest durations. */
  lemma RowsRoundTrip(w: Workout, dbId: int)
    ensures ExercisesOfRows(ExerciseRows(w, dbId)) ==
      seq(|w.exercises|, i requires 0 <= i < |w.exercises| => w.exercises[i].(defaultRestSeconds := 0))
  {
  }
}
