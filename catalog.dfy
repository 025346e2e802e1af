/**
 * The catalog state the editor's delete handler updates
 * (app/src/WorkoutEditor.jsx): the list of workouts, the selected workout's
 * id and the active session, changed in sequence by `handleDeleteWorkout`.
 */
module WorkoutCatalog {
  import opened Seqs
  import opened WorkoutSession
  import opened WorkoutEditor

  /** The single workout a catalog emptied by a delete is replaced with. */
  const FallbackWorkout: Workout := Workout("fullbody-a", "Full Body A", 90, [])

  function NotWorkout(workoutId: string): Workout -> bool {
    (w: Workout) => w.id != workoutId
  }

  class Catalog {
    var workouts: seq<Workout>
    var selectedWorkoutId: string
    var session: Session

    /** The selection names a workout of the catalog, and the session is
        one of that workout. */
    ghost predicate Valid()
      reads this
    {
      && selectedWorkoutId in Ids(workouts)
      && session.workoutId == selectedWorkoutId
    }

    /** The editor's catalog as it is handed the workouts, the selection
        and the session; a selection naming one of the workouts, with a
        session of it, gives a valid catalog. */
    constructor(ws: seq<Workout>, selected: string, s: Session)
      ensures workouts == ws && selectedWorkoutId == selected && session == s
      ensures selected in Ids(ws) && s.workoutId == selected ==> Valid()
    {
      workouts := ws;
      selectedWorkoutId := selected;
      session := s;
    }

    /** The catalog part of `handleDeleteWorkout`. Unless the user confirms,
        nothing changes. Otherwise the workout is filtered out; an emptied
        catalog becomes the fallback workout, selected with a fresh session;
        if the deleted workout was the selected one, the first remaining
        workout is selected with a fresh session; otherwise the selection and
        session stay. */
    method DeleteWorkout(workoutId: string, confirmed: bool, now: int)
      modifies this
      ensures !confirmed ==> workouts == old(workouts) && selectedWorkoutId == old(selectedWorkoutId)
                             && session == old(session)
      ensures confirmed && Filter(old(workouts), NotWorkout(workoutId)) == [] ==>
        && workouts == [FallbackWorkout] && selectedWorkoutId == FallbackWorkout.id
        && session == BuildEmptySession(FallbackWorkout, now)
      ensures confirmed && Filter(old(workouts), NotWorkout(workoutId)) != [] ==>
        && workouts == Filter(old(workouts), NotWorkout(workoutId))
        && (old(selectedWorkoutId) == workoutId ==>
              selectedWorkoutId == workouts[0].id && session == BuildEmptySession(workouts[0], now))
        && (old(selectedWorkoutId) != workoutId ==>
              selectedWorkoutId == old(selectedWorkoutId) && session == old(session))
      ensures confirmed ==> workoutId !in Ids(workouts) || workoutId == FallbackWorkout.id
      ensures old(Valid()) ==> Valid()
    {
      if !confirmed {
        return;
      }
      var filtered := Filter(workouts, NotWorkout(workoutId));
      if |filtered| == 0 {
        selectedWorkoutId := FallbackWorkout.id;
        session := BuildEmptySession(FallbackWorkout, now);
        workouts := [FallbackWorkout];
        assert Ids(workouts)[0] == FallbackWorkout.id;
        return;
      }
      if selectedWorkoutId == workoutId {
        selectedWorkoutId := filtered[0].id;
        session := BuildEmptySession(filtered[0], now);
      } else if selectedWorkoutId in Ids(workouts) {
        KeptWorkoutStays(workouts, workoutId, selectedWorkoutId);
      }
      workouts := filtered;
      assert Ids(workouts)[0] == workouts[0].id;
      forall i | 0 <= i < |workouts| ensures Ids(workouts)[i] != workoutId {
        assert NotWorkout(workoutId)(workouts[i]);
      }
    }
  }

  /** A workout whose id is not the deleted one survives the delete. */
  lemma KeptWorkoutStays(ws: seq<Workout>, workoutId: string, keep: string)
    requires keep in Ids(ws) && keep != workoutId
    ensures keep in Ids(Filter(ws, NotWorkout(workoutId)))
  {
    var i :| 0 <= i < |ws| && Ids(ws)[i] == keep;
    var r := Filter(ws, NotWorkout(workoutId));
    assert ws[i] in r;
    var k :| 0 <= k < |r| && r[k] == ws[i];
    assert Ids(r)[k] == keep;
  }
}
