# Gym tracker: a verified model of the session, editor, lookup and statistics logic

This project models the non-I/O behaviour of a small React gym-tracking app in Dafny and proves properties of it.

- **The workout session** (`App`): a template (id, name, default rest, exercises) yields an in-progress session, with one exercise log per exercise and one set log per target set.
  - The user edits a set's reps or weight and ticks sets done.
  - Every tick starts a rest countdown that the one-second interval brings down to zero.
  - The header shows the elapsed time and the total volume.
  - The session is saved after every change (a failed save is ignored) and resumed on reload when it belongs to the template.
- **The workout editor** (`WorkoutEditor`):
  - it has its own session builder, with fallbacks for missing targets;
  - it edits workout and exercise fields, adds, removes and drag-reorders exercises;
  - it deletes a workout, updating the selection and the session;
  - it builds the child rows it stores for a workout's exercises.
- **The exercise lookup** (`exercisesDatabase`):
  - the list of names;
  - a five-tier fuzzy `searchExercise`;
  - `getExerciseSuggestions`, capped at 10.
- **The statistics page** (`ProgressStats`):
  - `calculateExerciseStats` joins completed sets with their sessions' dates and aggregates them per exercise name;
  - two chart helpers group an exercise's history by day.

Modules:

| module | file | models |
|---|---|---|
| `Wrappers` | wrappers.dfy | `Option` |
| `Seqs` | seqs.dfy | the array methods used: `findIndex`/`find`, tiered `find`, `filter`, `reduce` sums, grouped sums, `sort` as a stable insertion sort over a "comes before" test |
| `Text` | text.dfy | `toLowerCase` (ASCII letters), `trim`, `split`/`join` on one character, `startsWith`, `includes` |
| `Clock` | clock.dfy | `formatSeconds` and a parser of its `MM:SS` output |
| `WorkoutSession` | session.dfy | the data model, the session builder, stored-session reuse, the two set updates, the rest duration, the volume |
| `RestTimer` | tracker.dfy | the `App` component's state as class `Tracker`: one method per handler and per interval firing |
| `WorkoutEditor` | editor.dfy | the editor's builder and list edits, the in-place reorder on an array, the child rows |
| `WorkoutCatalog` | catalog.dfy | the catalog, selection and session that the delete handler updates, as class `Catalog` |
| `ExerciseLookup` | lookup.dfy | `EXERCISES_IT`, `searchExercise`, `getExerciseSuggestions` |
| `ProgressStats` | stats.dfy | `calculateExerciseStats` (a method with loops, proved equal to a specification function), `VolumeChart` and `WeightProgressChart` grouping (methods with loops) |

Representation choices:

- **Raw set inputs.** A set's `reps`/`weight` is `Raw = Empty | Num(n)`: the empty string or a number.
- **Template numbers.** Numeric template fields are `nat`, and 0 stands for a missing (falsy) value.
  - So `ex.defaultWeight || ""` becomes `Empty` exactly when the weight is 0.
  - `targetSets || 3` becomes `OrElse(targetSets, 3)`.
- **Time.** Timestamps are integers (milliseconds). The creation time of a session is a parameter.
- **Day labels.** The charts' locale date string is an abstract function `dateKey: int -> string`.
- **Statistics rows.** Rows carry the `reps || 0` and `weight || 0` values as integers. A session's `completed_at` is an `Option<int>`.
- **The database.** The lookup takes the exercise database as a parameter: a sequence of `(id, name)` entries.

Where the code and its comments disagree, the model follows the code:

- **Rest restarts on every toggle.** The comment at App.jsx:175 says un-marking a set should not start the rest. Lines 176-182 start it unconditionally.
  - `RestTimer.Tracker.ToggleSetDone` states the unconditional restart.
- **Tier 5 never decides.** The fifth search tier ("word prefix") is reached only after tier 4 found nothing. Every entry passing tier 5 passes tier 4 too, so it never decides a search (`ExerciseLookup.FifthTierNeverDecides`).
- **The suggestion comparator is not an order.** It ranks two names that both start with the query each before the other (`ExerciseLookup.CompareNotAntisymmetric`). Only the set of suggestions is claimed, not their ranking.
- **Storage rows drop the rest.** The child rows have no rest column. A workout read back from its rows loses its exercises' own rest durations (`WorkoutEditor.RowsRoundTrip`).
- **The max-weight chart treats 0 as "no entry yet".** It replaces a stored weight of 0 by any later weight, even a negative one (`ProgressStats.StoredMaxAfterZero`). The stored value is the largest weight only when weights are non-negative (`ProgressStats.StoredMaxIsMax`).

## Model

| member | source | states |
|---|---|---|
| `Clock.DecimalValue` | app/src/App.jsx:58 | `toString` of a non-negative integer reads back as that integer |
| `Clock.FormatSecondsParts` | app/src/App.jsx:55-59 | the display is the minutes `s / 60` padded to at least two digits, a colon, and exactly two digits of seconds `s % 60`, below 60 |
| `Clock.FormatSecondsRoundTrip` | app/src/App.jsx:55-59 | parsing the display back as minutes * 60 + seconds returns `s` |
| `Clock.FormatSecondsInjective` | app/src/App.jsx:55-59 | two durations with the same display are equal |
| `WorkoutSession.BuildSession` | app/src/App.jsx:69-87 | the fresh session copies the template's id and name and holds one log per template exercise, in order, each with exactly `targetSets` sets indexed 1..n, empty reps, weight `defaultWeight` or empty when it is 0, not done |
| `WorkoutSession.InitialSession` | app/src/App.jsx:63-88 | the stored session, unchanged, when its `workoutId` is the template's; otherwise the fresh session; either way the session belongs to the template |
| `WorkoutSession.RestSeconds` | app/src/App.jsx:176-177 | the rest is the first matching exercise's non-zero `defaultRestSeconds`, else the workout's non-zero default, else 90; always positive |
| `WorkoutSession.DefaultWorkoutRest` | app/src/App.jsx:8-35 | in the app's own template no exercise sets a rest, so every completed set starts 90 seconds |
| `WorkoutSession.SetField` | app/src/App.jsx:136-154 | only the named field of the sets whose exercise id and set index both match changes; shape, ids, names, indices, targets and `done` are kept |
| `WorkoutSession.SetFieldWithoutTarget` | app/src/App.jsx:136-154 | when no set matches, the session is unchanged |
| `WorkoutSession.SetFieldIdempotent` | app/src/App.jsx:136-154 | writing the same value twice equals writing it once |
| `WorkoutSession.ToggleDone` | app/src/App.jsx:156-173 | `done` flips on exactly the matching sets; reps, weights and shape are kept |
| `WorkoutSession.ToggleWithoutTarget` | app/src/App.jsx:156-173 | when no set matches, the session is unchanged |
| `WorkoutSession.ToggleTwice` | app/src/App.jsx:156-173 | toggling the same set twice restores the session |
| `WorkoutSession.AllSetsSum` | app/src/App.jsx:215-216 | summing over the flattened sets equals summing exercise by exercise |
| `WorkoutSession.VolumeByExercise` | app/src/App.jsx:215-218 | the flatten-filter-reduce volume equals the per-exercise sum of reps x weight over done sets with both inputs |
| `WorkoutSession.VolumeNonNegative` | app/src/App.jsx:215-218 | the volume is never negative |
| `WorkoutSession.VolumeCongruent` | app/src/App.jsx:215-218 | sessions whose sets contribute the same amounts have the same volume |
| `WorkoutSession.FreshSessionHasNoVolume` | app/src/App.jsx:215-218 | a freshly built session has volume 0 |
| `WorkoutSession.SetFieldOfUndoneKeepsVolume` | app/src/App.jsx:217 | editing reps or weight of sets that are not done leaves the volume unchanged |
| `WorkoutSession.ToggleOfIncompleteKeepsVolume` | app/src/App.jsx:217 | toggling sets with an empty reps or weight leaves the volume unchanged |
| `WorkoutSession.RebuildDiffersOnlyInStart` | app/src/App.jsx:188-204 | two fresh sessions of one template differ only in their start time |
| `WorkoutSession.VolumeExample` | app/src/App.jsx:217-218 | a done 5 x 60 set counts, a done set without reps and an undone set do not: the volume is 300 |
| `RestTimer.TickOnce` | app/src/App.jsx:119-134 | no change while the countdown is idle; otherwise one second less, running exactly when more than one second was left; keeps "running iff seconds left" |
| `RestTimer.TicksClosedForm` | app/src/App.jsx:119-134 | after k firings an n-second rest shows n - k and is running while k < n, then stays stopped at 0 |
| `RestTimer.StartRest` | app/src/App.jsx:176-182 | a toggle starts a running countdown of the configured rest |
| `RestTimer.RestRunsForConfiguredSeconds` | app/src/App.jsx:175-182 | the started rest runs for exactly the configured number of seconds, then stops at 0 |
| `RestTimer.Tracker.constructor` | app/src/App.jsx:63-97 | mounting: the initial session, the countdown stopped at 0, no last set, elapsed 0; the session is saved when the save succeeds, otherwise the slot keeps what it held |
| `RestTimer.Tracker.SetFieldChange` | app/src/App.jsx:136-154 | the session becomes `SetField` of the old one; it is saved when the save succeeds, otherwise the slot is unchanged; timers and last set are kept |
| `RestTimer.Tracker.ToggleSetDone` | app/src/App.jsx:156-183 | the session becomes `ToggleDone`; it is saved when the save succeeds, otherwise the slot is unchanged; the rest restarts at the configured seconds and the last set is recorded, whether the set was marked or unmarked |
| `RestTimer.Tracker.Tick` | app/src/App.jsx:122-131 | the countdown becomes `TickOnce` of the old one; nothing else changes |
| `RestTimer.Tracker.Stop` | app/src/App.jsx:249-252 | the countdown is stopped at 0 (so a second Stop changes nothing); nothing else changes |
| `RestTimer.Tracker.UpdateElapsed` | app/src/App.jsx:109-113 | elapsed is the whole seconds since the start, rounded down; nothing else changes |
| `RestTimer.Tracker.ResetSession` | app/src/App.jsx:185-213 | declined: nothing changes, storage included; confirmed: a fresh session, saved when the save succeeds and otherwise the slot unchanged, elapsed 0, the countdown stopped at 0, no last set |
| `RestTimer.Tracker.Volume` | app/src/App.jsx:215-218 | the displayed volume is non-negative |
| `RestTimer.Reload` | app/src/App.jsx:63-67 | a tracker mounted from another's storage slot starts from `InitialSession` of that slot, and resumes the exact session when the last save succeeded |
| `WorkoutEditor.BuildEmptySession` | app/src/WorkoutEditor.jsx:5-23 | copies id and name; each exercise gets `targetSets` sets (3 when 0) indexed 1.., `targetReps` reps (8 when 0), empty reps, weight `defaultWeight` or empty when it is 0, not done; at least one set each |
| `WorkoutEditor.BuildersAgree` | app/src/WorkoutEditor.jsx:5-23 | on templates that name their targets the editor's builder and the app's builder coincide |
| `WorkoutEditor.UpdateWithoutTarget` | app/src/WorkoutEditor.jsx:138-147 | a `map` update addressed to an id no workout has changes nothing |
| `WorkoutEditor.WorkoutFieldChange` | app/src/WorkoutEditor.jsx:137-148 | only the workout with that id changes, and only in the edited field (rest stored as a number); length, ids and other workouts are kept |
| `WorkoutEditor.ExerciseFieldChange` | app/src/WorkoutEditor.jsx:150-173 | in the edited workout only the exercises with that id change, in the edited field; order, count and ids are kept; other workouts are untouched |
| `WorkoutEditor.AddExercise` | app/src/WorkoutEditor.jsx:175-196 | exactly one exercise ("Nuovo esercizio", 3 sets, 10 reps, weight 0) is appended to the edited workout; its existing exercises and the other workouts are kept |
| `WorkoutEditor.RemoveExercise` | app/src/WorkoutEditor.jsx:198-209 | the edited workout's exercises are exactly those with another id, in their original relative order; other workouts are untouched |
| `WorkoutEditor.RemoveUndoesAdd` | app/src/WorkoutEditor.jsx:175-209 | removing a just-added exercise with a fresh id restores the list |
| `WorkoutEditor.Reordered` | app/src/WorkoutEditor.jsx:211-227 | the result is a permutation of the same length; nothing changes when an id is empty, the ids are equal, or either id is missing |
| `WorkoutEditor.ReorderedPlacesDragged` | app/src/WorkoutEditor.jsx:217-224 | when the reorder happens, the dragged exercise sits at the target's original index and the others keep their relative order |
| `WorkoutEditor.MoveInPlace` | app/src/WorkoutEditor.jsx:222-223 | the two splices on the copied array leave exactly the remove-then-insert move of its old contents |
| `WorkoutEditor.ReorderExercises` | app/src/WorkoutEditor.jsx:216-224 | the copy-and-splice on one list yields `Reordered` |
| `WorkoutEditor.ReorderInWorkouts` | app/src/WorkoutEditor.jsx:211-227 | only the edited workout's exercises are reordered; length, ids and other workouts are kept |
| `WorkoutEditor.ReorderWorkoutExercises` | app/src/WorkoutEditor.jsx:211-227 | the handler's rebuild of the list equals `ReorderInWorkouts` |
| `WorkoutEditor.ExerciseRows` | app/src/WorkoutEditor.jsx:116-125 | one row per exercise, in list order, with `position` its index and the exercise's fields |
| `WorkoutEditor.RowsRoundTrip` | app/src/WorkoutEditor.jsx:116-125 | reading the rows back gives the exercise list, except for the exercises' rest durations |
| `WorkoutCatalog.Catalog.constructor` | app/src/WorkoutEditor.jsx:25-33 | the catalog holds the given workouts, selection and session, and is valid when the selection names one of the workouts and the session belongs to it |
| `WorkoutCatalog.Catalog.DeleteWorkout` | app/src/WorkoutEditor.jsx:229-262 | declined: nothing changes; an emptied catalog becomes the single `fullbody-a` fallback, selected with a fresh session; otherwise the workout is filtered out, and if it was selected the first remaining one is selected with a fresh session, else selection and session stay; a valid selection stays valid |
| `WorkoutCatalog.KeptWorkoutStays` | app/src/WorkoutEditor.jsx:244 | a workout with another id survives the filter |
| `ExerciseLookup.Names` | app/src/exercisesDatabase.js:808 | as many names as entries, the i-th being the i-th entry's name |
| `ExerciseLookup.Search` | app/src/exercisesDatabase.js:811-867 | nothing for an empty name; any result is a database entry; the result is null exactly when no entry passes any of the five tiers |
| `ExerciseLookup.SearchDecidedBy` | app/src/exercisesDatabase.js:817-866 | tiers are tried in order: when no entry passes an earlier tier, the result is the first entry passing tier t |
| `ExerciseLookup.SearchExact` | app/src/exercisesDatabase.js:814-822 | with an exact match on lowercase name or id, the result is the first such entry |
| `ExerciseLookup.SearchFindsListedName` | app/src/exercisesDatabase.js:814-822 | searching an entry's own name finds that entry or an earlier one |
| `ExerciseLookup.CleanWordsShape` | app/src/exercisesDatabase.js:825-829 | every clean word is longer than 2, not a common word, and free of spaces |
| `ExerciseLookup.KeywordsAreCleanWords` | app/src/exercisesDatabase.js:842 | the keywords are exactly the query's clean words |
| `ExerciseLookup.EmptyQueryPartialMatch` | app/src/exercisesDatabase.js:831-837 | every entry passes tier 2 for an empty clean query |
| `ExerciseLookup.SearchWithoutCleanWords` | app/src/exercisesDatabase.js:824-839 | with no clean word and no exact match, the result is the first database entry |
| `ExerciseLookup.WordPrefixImpliesKeyword` | app/src/exercisesDatabase.js:850-864 | an entry passing tier 5 passes tier 4 |
| `ExerciseLookup.FifthTierNeverDecides` | app/src/exercisesDatabase.js:858-866 | the search gives the same result with tier 5 dropped |
| `ExerciseLookup.CompareNotAntisymmetric` | app/src/exercisesDatabase.js:896-908 | two names that both start with the query are each ranked before the other |
| `ExerciseLookup.Take10` | app/src/exercisesDatabase.js:909 | a prefix of at most 10 elements, the whole list when it is that short |
| `ExerciseLookup.Suggestions` | app/src/exercisesDatabase.js:870-912 | nothing for a query shorter than 2; at most 10 database entries, each satisfying one of the three substring conditions and together a sub-multiset of the matches; all matches (as a permutation) when there are at most 10, otherwise exactly 10 |
| `ExerciseLookup.SuggestsContainingName` | app/src/exercisesDatabase.js:882-895 | an entry whose name contains the query is suggested when there are at most 10 matches |
| `ProgressStats.Accumulate` | app/src/ProgressStats.jsx:77-124 | the table lists each of its names once, and has an entry exactly for the listed names |
| `ProgressStats.AccumulateIsFold` | app/src/ProgressStats.jsx:77-124 | the table has an entry for a name exactly when some kept set has that name, and the entry is what that name's kept sets alone build |
| `ProgressStats.IgnoredSet` | app/src/ProgressStats.jsx:81 | a set without a name, or whose session is missing or has no date, changes nothing |
| `ProgressStats.FoldTotals` | app/src/ProgressStats.jsx:96-123 | an entry counts its sets, sums `reps` and reps x weight, collects the distinct session ids, and has one history point per set, in order |
| `ProgressStats.FoldMaxWeight` | app/src/ProgressStats.jsx:108-110 | `maxWeight` is at least 0 and every weight, and is 0 or one of the weights |
| `ProgressStats.FoldLastPerformed` | app/src/ProgressStats.jsx:113-115 | `lastPerformed` is missing only without sets, and is the latest of the sets' dates |
| `ProgressStats.Projected` | app/src/ProgressStats.jsx:127-133 | one projected entry per table name, in insertion order |
| `ProgressStats.ProjectAll` | app/src/ProgressStats.jsx:127-133 | the loop over the names yields `Projected` |
| `ProgressStats.StatsSortedByVolume` | app/src/ProgressStats.jsx:127-134 | the output is non-increasing in `totalVolume` and a permutation of the projected entries |
| `ProgressStats.StatOfOwnSets` | app/src/ProgressStats.jsx:83-133 | each output entry is the projection of what its exercise's own kept sets build |
| `ProgressStats.StatFigures` | app/src/ProgressStats.jsx:96-132 | each entry: `totalSets` = its kept sets = history length; the sums; `maxWeight` at least 0 and every weight and attained unless 0; `lastPerformed` the latest date; `totalSessions` the distinct session ids; the history sorted by date and, as a multiset, exactly one point per kept set |
| `ProgressStats.StatHistory` | app/src/ProgressStats.jsx:117-132 | an entry's history is sorted by date, holds as a multiset exactly the points of its exercise's kept sets, and contains each of them |
| `ProgressStats.StatsNames` | app/src/ProgressStats.jsx:83-94 | exactly one output entry per distinct exercise name among the kept sets |
| `ProgressStats.TotalSetsAddUp` | app/src/ProgressStats.jsx:102 | summing `totalSets` over the output gives the number of kept sets |
| `ProgressStats.CalculateExerciseStats` | app/src/ProgressStats.jsx:67-135 | the two `forEach` loops, the projection and the sort yield `ExerciseStats`, the specification the lemmas above are about |
| `ProgressStats.KeysListed` | app/src/ProgressStats.jsx:328 | the chart keys list each day present in the history once |
| `ProgressStats.GroupVolumeByDate` | app/src/ProgressStats.jsx:319-329 | each day present maps to the sum of its entries' volumes, and the keys are those days in first-appearance order |
| `ProgressStats.GroupedVolumeTotal` | app/src/ProgressStats.jsx:319-329 | the per-day sums add up to the history's total volume |
| `ProgressStats.StoredMaxAttained` | app/src/ProgressStats.jsx:376-382 | a day has a stored weight exactly when it has entries, and the stored weight is one of that day's weights |
| `ProgressStats.StoredMaxIsMax` | app/src/ProgressStats.jsx:376-382 | with non-negative weights the stored weight is at least every weight of that day |
| `ProgressStats.StoredMaxAfterZero` | app/src/ProgressStats.jsx:379 | a weight of 0 followed by -5 on one day leaves -5, because 0 is falsy |
| `ProgressStats.MaxWeightByDate` | app/src/ProgressStats.jsx:376-385 | each day present maps to the weight the chart's comparison keeps, and the keys are those days in first-appearance order |

## Left out

- Local storage: `loadSessionFromStorage`/`saveSessionToStorage` and JSON parsing. The stored session is an `Option<Session>` input, and each save is the assignment of `Tracker.storage`. The app swallows a failed `setItem`; the model takes the save's outcome as a `saved` parameter, and a failed save leaves `Tracker.storage` as it was. A corrupt or unreadable stored value is the `None` case.
- The back end: every supabase query and write (workouts, workout exercises, sessions, sets). The statistics take the fetched rows as inputs, and the editor's storage is its row construction only.
- Timer scheduling: `setInterval`, `useEffect` lifetimes and `clearInterval`. Each interval firing is an explicit call of `Tracker.Tick` or `Tracker.UpdateElapsed`, and `Date.now` is a parameter.
- The ISO start timestamp: a session's `startedAt` is an integer timestamp, not an ISO string.
- Number coercion: `Number()` on arbitrary text and NaN. Raw inputs are `Empty` or a natural number. A non-numeric string and a negative or fractional number are not represented.
- Floating point: weights, reps and volumes are integers. `avgWeightPerSet`, chart percentages and `Math.max`/`Math.round` for display are not modelled.
- Dates and locale: `new Date`, `toLocaleDateString` and `toISOString`. Dates are integers, and the day label is the `dateKey` parameter.
- `ProgressStats.FoldLastPerformed`: compares integer dates where the app compares ISO date strings. The two agree for ISO timestamps in one format.
- `ProgressStats.Projected`: lists names in insertion order. JavaScript's `Object.values` lists integer-like keys first, in ascending order. Only the order among entries of equal volume can differ.
- `ProgressStats.SessionDates`: JavaScript object keys are strings, so `session.id` and `set.session_id` are compared after string conversion. The model compares the integer ids.
- Strings: `toLowerCase` is modelled on ASCII letters only. There is no Unicode case mapping.
- `ExerciseLookup.Suggestions`: the app's `query.length < 2` counts UTF-16 code units, while `|query|` counts characters. A query of one character outside the Basic Multilingual Plane (one emoji) is searched by the app and answered with nothing by the model.
- `ExerciseLookup.Suggestions`: does not state the ranking, because the comparator is not a consistent order and the order `Array.prototype.sort` produces with it is implementation-defined. The model ranks with a stable insertion sort over the same comparator.
- `ProgressStats.Accumulate`: an exercise name equal to a property of `Object.prototype` ("constructor", "toString", "valueOf", "__proto__", ...) finds a truthy `exerciseMap[name]` at app/src/ProgressStats.jsx:83 without an entry being created. `totalSessions.add` then throws at line 99, the catch at lines 60-61 skips `setExerciseStats`, and the page shows no statistics. The model treats such names like any other and builds the full table.
- `ExerciseLookup.Search`: a `null` or `undefined` name is not modelled; the empty string stands for all falsy names.
- The 100 database entries with their descriptions, equipment, muscles and difficulty: the lookup takes the database as a parameter.
- UI: rendering, the drag-over highlight, `onClose`, `alert` and `window.confirm`. The confirmation is a `confirmed` parameter.
- The template in `Tracker`: the app always runs `DEFAULT_WORKOUT`. The tracker is built with its template as a constructor argument, and `DefaultWorkout` is that constant.
- `Clock.FormatSeconds`: takes a natural number. A negative elapsed time (a clock set back) is not modelled.
- Ids: the new exercise id `ex-${Date.now()}` is a parameter of `AddExercise`, and the `null` drag ids of the reorder are the empty string.
- app/src/ErrorBoundary.js: renders a fallback only; it has no logic.
