/**
 * The statistics of app/src/ProgressStats.jsx. `calculateExerciseStats`
 * joins the completed sets with their sessions' completion dates, fills a
 * table keyed by exercise name in one pass over the sets, then projects the
 * table to a list sorted by volume; the two chart helpers group a history by
 * a date key. Dates are integer timestamps, and the date key (the locale
 * date string in the app) is a parameter.
 */
module ProgressStats {
  import opened Wrappers
  import opened Seqs

  /** A completed session: its id and completion date (`None` for null). */
  datatype SessionRow = SessionRow(id: int, completedAt: Option<int>)

  /** A completed set; `reps` and `weight` are `reps || 0` and `weight || 0`. */
  datatype SetRow = SetRow(sessionId: int, exerciseName: string, reps: int, weight: int)

  /** One history entry of an exercise. */
  datatype Point = Point(date: int, weight: int, reps: int, volume: int)

  /** An exercise's entry of the table while it is being filled. */
  datatype Stat = Stat(
    name: string, sessionIds: set<int>, totalSets: nat, totalReps: int, totalVolume: int,
    maxWeight: int, lastPerformed: Option<int>, history: seq<Point>)

  /** An exercise's entry of the result. */
  datatype ExerciseStat = ExerciseStat(
    name: string, totalSessions: nat, totalSets: nat, totalReps: int, totalVolume: int,
    maxWeight: int, lastPerformed: Option<int>, history: seq<Point>)

  /** The table: the entries by name, and the names in insertion order. */
  datatype Table = Table(stats: map<string, Stat>, order: seq<string>)

  /** `sessionDateMap`: each session id to its completion date; a later
      session with the same id overwrites an earlier one. */
  function SessionDates(sessions: seq<SessionRow>): map<int, Option<int>>
    decreases |sessions|
  {
    if sessions == [] then map[]
    else
      var last := sessions[|sessions| - 1];
      SessionDates(sessions[..|sessions| - 1])[last.id := last.completedAt]
  }

  /** `sessionDateMap[set.session_id]`, with `None` for a missing id. */
  function DateOf(dates: map<int, Option<int>>, sessionId: int): Option<int> {
    if sessionId in dates then dates[sessionId] else None
  }

  /** A set takes part: it names an exercise and its session has a date. */
  function Kept(dates: map<int, Option<int>>): SetRow -> bool {
    (r: SetRow) => r.exerciseName != "" && DateOf(dates, r.sessionId).Some?
  }

  function KeptNamed(dates: map<int, Option<int>>, name: string): SetRow -> bool {
    (r: SetRow) => Kept(dates)(r) && r.exerciseName == name
  }

  /** The date of a kept set's session. */
  function DateOfRow(dates: map<int, Option<int>>, r: SetRow): int {
    match DateOf(dates, r.sessionId)
    case Some(d) => d
    case None => 0
  }

  function RowVolume(r: SetRow): int {
    r.reps * r.weight
  }

  function RowReps(r: SetRow): int {
    r.reps
  }

  function RowName(r: SetRow): string {
    r.exerciseName
  }

  function One(r: SetRow): int {
    1
  }

  function NewStat(name: string): Stat {
    Stat(name, {}, 0, 0, 0, 0, None, [])
  }

  /** The body of the `sets.forEach` for one kept set of date `d`. */
  function Step(s: Stat, r: SetRow, d: int): Stat {
    s.(sessionIds := s.sessionIds + {r.sessionId},
       totalSets := s.totalSets + 1,
       totalReps := s.totalReps + r.reps,
       totalVolume := s.totalVolume + RowVolume(r),
       maxWeight := if r.weight > s.maxWeight then r.weight else s.maxWeight,
       lastPerformed := if s.lastPerformed.None? || d > s.lastPerformed.value then Some(d) else s.lastPerformed,
       history := s.history + [Point(d, r.weight, r.reps, RowVolume(r))])
  }

  /** The table after the sets `rows`, taken in order. */
  function Accumulate(dates: map<int, Option<int>>, rows: seq<SetRow>): (t: Table)
    ensures Distinct(t.order)
    ensures forall k :: k in t.stats <==> k in t.order
    decreases |rows|
  {
    if rows == [] then Table(map[], [])
    else
      var t := Accumulate(dates, rows[..|rows| - 1]);
      var r := rows[|rows| - 1];
      if !Kept(dates)(r) then t
      else
        var d := DateOfRow(dates, r);
        if r.exerciseName in t.stats then
          Table(t.stats[r.exerciseName := Step(t.stats[r.exerciseName], r, d)], t.order)
        else
          Table(t.stats[r.exerciseName := Step(NewStat(r.exerciseName), r, d)], t.order + [r.exerciseName])
  }

  /** One exercise's entry built from its own sets alone. */
  function FoldRows(name: string, dates: map<int, Option<int>>, rs: seq<SetRow>): Stat
    decreases |rs|
  {
    if rs == [] then NewStat(name)
    else Step(FoldRows(name, dates, rs[..|rs| - 1]), rs[|rs| - 1], DateOfRow(dates, rs[|rs| - 1]))
  }

  lemma FilterSnoc<T>(s: seq<T>, x: T, p: T -> bool)
    ensures Filter(s + [x], p) == Filter(s, p) + (if p(x) then [x] else [])
  {
    FilterConcat(s, [x], p);
    assert [x][1..] == [];
  }

  /** The table has one entry per distinct name among the kept sets, its
      names listed once each, and each entry is what that exercise's own kept
      sets build. */
  lemma {:induction false} AccumulateIsFold(dates: map<int, Option<int>>, rows: seq<SetRow>)
    ensures var t := Accumulate(dates, rows);
      && (forall k :: k in t.stats <==> Filter(rows, KeptNamed(dates, k)) != [])
      && (forall k :: k in t.stats ==> t.stats[k] == FoldRows(k, dates, Filter(rows, KeptNamed(dates, k))))
    decreases |rows|
  {
    if rows != [] {
      var init, r := rows[..|rows| - 1], rows[|rows| - 1];
      assert rows == init + [r];
      AccumulateIsFold(dates, init);
      var t := Accumulate(dates, init);
      var t' := Accumulate(dates, rows);
      forall k ensures (k in t'.stats <==> Filter(rows, KeptNamed(dates, k)) != [])
        && (k in t'.stats ==> t'.stats[k] == FoldRows(k, dates, Filter(rows, KeptNamed(dates, k))))
      {
        AccumulateStepAt(dates, init, r, k);
      }
    }
  }

  /** One set's effect on one name's entry. */
  lemma AccumulateStepAt(dates: map<int, Option<int>>, init: seq<SetRow>, r: SetRow, k: string)
    requires var t := Accumulate(dates, init);
      && (k in t.stats <==> Filter(init, KeptNamed(dates, k)) != [])
      && (k in t.stats ==> t.stats[k] == FoldRows(k, dates, Filter(init, KeptNamed(dates, k))))
    ensures var t' := Accumulate(dates, init + [r]);
      && (k in t'.stats <==> Filter(init + [r], KeptNamed(dates, k)) != [])
      && (k in t'.stats ==> t'.stats[k] == FoldRows(k, dates, Filter(init + [r], KeptNamed(dates, k))))
  {
    FilterSnoc(init, r, KeptNamed(dates, k));
    if KeptNamed(dates, k)(r) {
      AccumulateSameName(dates, init, r, k);
    } else {
      var f := Filter(init, KeptNamed(dates, k));
      assert f + [] == f;
      AccumulateOtherName(dates, init, r, k);
    }
  }

  /** A set of another exercise, or one that does not take part, leaves
      the entry of `k` as it was. */
  lemma AccumulateOtherName(dates: map<int, Option<int>>, init: seq<SetRow>, r: SetRow, k: string)
    requires !KeptNamed(dates, k)(r)
    ensures var t, t' := Accumulate(dates, init), Accumulate(dates, init + [r]);
      && (k in t'.stats <==> k in t.stats)
      && (k in t.stats ==> t'.stats[k] == t.stats[k])
  {
    var rows := init + [r];
    assert rows[..|rows| - 1] == init && rows[|rows| - 1] == r;
  }

  /** A kept set of exercise `k` extends its entry by one step. */
  lemma AccumulateSameName(dates: map<int, Option<int>>, init: seq<SetRow>, r: SetRow, k: string)
    requires KeptNamed(dates, k)(r)
    requires var t := Accumulate(dates, init);
      && (k in t.stats <==> Filter(init, KeptNamed(dates, k)) != [])
      && (k in t.stats ==> t.stats[k] == FoldRows(k, dates, Filter(init, KeptNamed(dates, k))))
    ensures var t' := Accumulate(dates, init + [r]);
      k in t'.stats && t'.stats[k] == FoldRows(k, dates, Filter(init, KeptNamed(dates, k)) + [r])
  {
    var rows := init + [r];
    assert rows[..|rows| - 1] == init && rows[|rows| - 1] == r;
    var f := Filter(init, KeptNamed(dates, k));
    assert (f + [r])[..|f + [r]| - 1] == f;
  }

  /** A set that does not take part changes nothing. */
  lemma IgnoredSet(dates: map<int, Option<int>>, rows: seq<SetRow>, r: SetRow)
    requires !Kept(dates)(r)
    ensures Accumulate(dates, rows + [r]) == Accumulate(dates, rows)
  {
    assert (rows + [r])[..|rows|] == rows;
  }

  lemma SumSnoc<T>(s: seq<T>, x: T, f: T -> int)
    ensures Sum(s + [x], f) == Sum(s, f) + f(x)
  {
    SumConcat(s, [x], f);
    assert [x][1..] == [];
  }

  /** Counting, summing and the history of one exercise's entry. */
  lemma FoldTotals(name: string, dates: map<int, Option<int>>, rs: seq<SetRow>)
    ensures var s := FoldRows(name, dates, rs);
      && s.name == name
      && s.totalSets == |rs| && |s.history| == |rs|
      && s.totalReps == Sum(rs, RowReps)
      && s.totalVolume == Sum(rs, RowVolume)
      && (forall i :: 0 <= i < |rs| ==>
            s.history[i] == Point(DateOfRow(dates, rs[i]), rs[i].weight, rs[i].reps, RowVolume(rs[i])))
      && s.sessionIds == set i | 0 <= i < |rs| :: rs[i].sessionId
  {
    FoldHistory(name, dates, rs);
    FoldSums(name, dates, rs);
    FoldSessions(name, dates, rs);
  }

  /** One history point per set, in the sets' order. */
  lemma {:induction false} FoldHistory(name: string, dates: map<int, Option<int>>, rs: seq<SetRow>)
    ensures var s := FoldRows(name, dates, rs);
      && s.name == name
      && s.totalSets == |rs| && |s.history| == |rs|
      && (forall i :: 0 <= i < |rs| ==>
            s.history[i] == Point(DateOfRow(dates, rs[i]), rs[i].weight, rs[i].reps, RowVolume(rs[i])))
    decreases |rs|
  {
    if rs != [] {
      var init := rs[..|rs| - 1];
      FoldHistory(name, dates, init);
      forall i | 0 <= i < |init| ensures rs[i] == init[i] {
      }
    }
  }

  lemma {:induction false} FoldSums(name: string, dates: map<int, Option<int>>, rs: seq<SetRow>)
    ensures var s := FoldRows(name, dates, rs);
      s.totalReps == Sum(rs, RowReps) && s.totalVolume == Sum(rs, RowVolume)
    decreases |rs|
  {
    if rs != [] {
      var init, r := rs[..|rs| - 1], rs[|rs| - 1];
      FoldSums(name, dates, init);
      assert rs == init + [r];
      SumSnoc(init, r, RowReps);
      SumSnoc(init, r, RowVolume);
    }
  }

  lemma {:induction false} FoldSessions(name: string, dates: map<int, Option<int>>, rs: seq<SetRow>)
    ensures FoldRows(name, dates, rs).sessionIds == set i | 0 <= i < |rs| :: rs[i].sessionId
    decreases |rs|
  {
    if rs != [] {
      var init, r := rs[..|rs| - 1], rs[|rs| - 1];
      FoldSessions(name, dates, init);
      var ids := set i | 0 <= i < |rs| :: rs[i].sessionId;
      var initIds := set i | 0 <= i < |init| :: init[i].sessionId;
      assert ids == initIds + {r.sessionId} by {
        forall x | x in ids ensures x in initIds + {r.sessionId} {
          var i :| 0 <= i < |rs| && rs[i].sessionId == x;
          if i < |init| {
            assert init[i] == rs[i];
          }
        }
        forall x | x in initIds ensures x in ids {
          var i :| 0 <= i < |init| && init[i].sessionId == x;
          assert rs[i] == init[i];
        }
        assert rs[|rs| - 1].sessionId in ids;
      }
    }
  }

  /** `maxWeight` starts at 0 and only grows to a larger weight: it is at
      least 0 and every weight, and it is 0 or one of the weights. */
  lemma {:induction false} FoldMaxWeight(name: string, dates: map<int, Option<int>>, rs: seq<SetRow>)
    ensures var m := FoldRows(name, dates, rs).maxWeight;
      && m >= 0
      && (forall i :: 0 <= i < |rs| ==> rs[i].weight <= m)
      && (m == 0 || exists i :: 0 <= i < |rs| && rs[i].weight == m)
    decreases |rs|
  {
    if rs != [] {
      var init := rs[..|rs| - 1];
      FoldMaxWeight(name, dates, init);
      var m0 := FoldRows(name, dates, init).maxWeight;
      if m0 != 0 && FoldRows(name, dates, rs).maxWeight == m0 {
        var i :| 0 <= i < |init| && init[i].weight == m0;
        assert rs[i] == init[i];
      }
      forall i | 0 <= i < |init| ensures rs[i].weight <= FoldRows(name, dates, rs).maxWeight {
        assert rs[i] == init[i];
      }
    }
  }

  /** `lastPerformed` is the latest date among the exercise's sets, and is
      missing only when there are none. */
  lemma {:induction false} FoldLastPerformed(name: string, dates: map<int, Option<int>>, rs: seq<SetRow>)
    ensures var lp := FoldRows(name, dates, rs).lastPerformed;
      && (lp.None? <==> rs == [])
      && (lp.Some? ==> forall i :: 0 <= i < |rs| ==> DateOfRow(dates, rs[i]) <= lp.value)
      && (lp.Some? ==> exists i :: 0 <= i < |rs| && DateOfRow(dates, rs[i]) == lp.value)
    decreases |rs|
  {
    if rs != [] {
      var init := rs[..|rs| - 1];
      FoldLastPerformed(name, dates, init);
      var lp0 := FoldRows(name, dates, init).lastPerformed;
      var lp := FoldRows(name, dates, rs).lastPerformed;
      forall i | 0 <= i < |init| ensures DateOfRow(dates, rs[i]) <= lp.value {
        assert rs[i] == init[i];
      }
      if lp == lp0 && lp0.Some? {
        var i :| 0 <= i < |init| && DateOfRow(dates, init[i]) == lp0.value;
        assert rs[i] == init[i];
      }
    }
  }

  /** The result entry of one table entry; the history is sorted by date. */
  function Project(s: Stat): ExerciseStat {
    ExerciseStat(s.name, |s.sessionIds|, s.totalSets, s.totalReps, s.totalVolume, s.maxWeight,
                 s.lastPerformed, InsertionSort(s.history, KeyBefore(PointDate)))
  }

  function PointDate(p: Point): int {
    p.date
  }

  /** The key of `.sort((a, b) => b.totalVolume - a.totalVolume)`. */
  function NegVolume(s: ExerciseStat): int {
    -s.totalVolume
  }

  function TotalSets(s: ExerciseStat): int {
    s.totalSets
  }

  /** `Object.values(exerciseMap).map(...)`, in insertion order. */
  function Projected(t: Table): (r: seq<ExerciseStat>)
    requires forall k :: k in t.order ==> k in t.stats
    ensures |r| == |t.order|
    ensures forall i :: 0 <= i < |r| ==> r[i] == Project(t.stats[t.order[i]])
  {
    seq(|t.order|, i requires 0 <= i < |t.order| => Project(t.stats[t.order[i]]))
  }

  /** What `calculateExerciseStats` returns. */
  function ExerciseStats(sessions: seq<SessionRow>, sets: seq<SetRow>): seq<ExerciseStat> {
    InsertionSort(Projected(Accumulate(SessionDates(sessions), sets)), KeyBefore(NegVolume))
  }

  /** The output is ordered by volume, largest first, and holds exactly the
      projected table entries. */
  lemma StatsSortedByVolume(sessions: seq<SessionRow>, sets: seq<SetRow>)
    ensures var stats := ExerciseStats(sessions, sets);
      forall i, j :: 0 <= i < j < |stats| ==> stats[i].totalVolume >= stats[j].totalVolume
    ensures multiset(ExerciseStats(sessions, sets)) == multiset(Projected(Accumulate(SessionDates(sessions), sets)))
  {
    var t := Accumulate(SessionDates(sessions), sets);
    AccumulateIsFold(SessionDates(sessions), sets);
    InsertionSortSorted(Projected(t), NegVolume);
  }

  /** Each output entry is the one exercise's entry built from its own kept
      sets. */
  lemma StatOfOwnSets(sessions: seq<SessionRow>, sets: seq<SetRow>, i: nat)
    requires i < |ExerciseStats(sessions, sets)|
    ensures var dates := SessionDates(sessions);
      var st := ExerciseStats(sessions, sets)[i];
      var rs := Filter(sets, KeptNamed(dates, st.name));
      rs != [] && st == Project(FoldRows(st.name, dates, rs))
  {
    var dates := SessionDates(sessions);
    var t := Accumulate(dates, sets);
    AccumulateIsFold(dates, sets);
    var stats := ExerciseStats(sessions, sets);
    assert stats[i] in multiset(Projected(t));
    var j :| 0 <= j < |Projected(t)| && Projected(t)[j] == stats[i];
    var k := t.order[j];
    FoldTotals(k, dates, Filter(sets, KeptNamed(dates, k)));
  }

  /** The history point a kept set contributes. */
  function SetPoint(dates: map<int, Option<int>>, r: SetRow): Point {
    Point(DateOfRow(dates, r), r.weight, r.reps, RowVolume(r))
  }

  /** The points of the sets `rs`, in the sets' order. */
  function Points(dates: map<int, Option<int>>, rs: seq<SetRow>): (ps: seq<Point>)
    ensures |ps| == |rs|
    ensures forall j :: 0 <= j < |rs| ==> ps[j] == SetPoint(dates, rs[j])
  {
    seq(|rs|, j requires 0 <= j < |rs| => SetPoint(dates, rs[j]))
  }

  /** The figures of each output entry, in terms of that exercise's kept
      sets `rs`: counts, sums, the largest weight, the latest date, the
      number of distinct sessions, and the history: sorted by date, and
      holding exactly one point per set. */
  lemma StatFigures(sessions: seq<SessionRow>, sets: seq<SetRow>, i: nat)
    requires i < |ExerciseStats(sessions, sets)|
    ensures var dates := SessionDates(sessions);
      var st := ExerciseStats(sessions, sets)[i];
      var rs := Filter(sets, KeptNamed(dates, st.name));
      && rs != []
      && st.totalSets == |rs| == |st.history|
      && st.totalReps == Sum(rs, RowReps)
      && st.totalVolume == Sum(rs, RowVolume)
      && st.maxWeight >= 0
      && (forall j :: 0 <= j < |rs| ==> rs[j].weight <= st.maxWeight)
      && (st.maxWeight == 0 || exists j :: 0 <= j < |rs| && rs[j].weight == st.maxWeight)
      && st.lastPerformed.Some?
      && (forall j :: 0 <= j < |rs| ==> DateOfRow(dates, rs[j]) <= st.lastPerformed.value)
      && (exists j :: 0 <= j < |rs| && DateOfRow(dates, rs[j]) == st.lastPerformed.value)
      && st.totalSessions == |set j | 0 <= j < |rs| :: rs[j].sessionId|
      && SortedBy(st.history, PointDate)
      && multiset(st.history) == multiset(Points(dates, rs))
  {
    var dates := SessionDates(sessions);
    var st := ExerciseStats(sessions, sets)[i];
    var rs := Filter(sets, KeptNamed(dates, st.name));
    StatOfOwnSets(sessions, sets, i);
    FoldTotals(st.name, dates, rs);
    FoldMaxWeight(st.name, dates, rs);
    FoldLastPerformed(st.name, dates, rs);
    StatHistory(sessions, sets, i);
  }

  /** Each output entry's history holds exactly one point per kept set of
      its exercise, sorted by date. */
  lemma StatHistory(sessions: seq<SessionRow>, sets: seq<SetRow>, i: nat)
    requires i < |ExerciseStats(sessions, sets)|
    ensures var dates := SessionDates(sessions);
      var st := ExerciseStats(sessions, sets)[i];
      var rs := Filter(sets, KeptNamed(dates, st.name));
      && SortedBy(st.history, PointDate)
      && multiset(st.history) == multiset(Points(dates, rs))
      && (forall j :: 0 <= j < |rs| ==> SetPoint(dates, rs[j]) in st.history)
  {
    var dates := SessionDates(sessions);
    var st := ExerciseStats(sessions, sets)[i];
    var rs := Filter(sets, KeptNamed(dates, st.name));
    StatOfOwnSets(sessions, sets, i);
    FoldHistory(st.name, dates, rs);
    var h := FoldRows(st.name, dates, rs).history;
    assert h == Points(dates, rs);
    InsertionSortSorted(h, PointDate);
    assert st.history == InsertionSort(h, KeyBefore(PointDate));
    forall j | 0 <= j < |rs| ensures SetPoint(dates, rs[j]) in st.history {
      assert h[j] in multiset(st.history);
    }
  }

  /** One output entry per distinct exercise name among the kept sets. */
  lemma StatsNames(sessions: seq<SessionRow>, sets: seq<SetRow>)
    ensures var dates := SessionDates(sessions);
      var stats := ExerciseStats(sessions, sets);
      && (forall i, j :: 0 <= i < j < |stats| ==> stats[i].name != stats[j].name)
      && (forall k :: (exists i :: 0 <= i < |stats| && stats[i].name == k) <==>
                      Filter(sets, KeptNamed(dates, k)) != [])
  {
    StatsDistinctNames(sessions, sets);
    forall k ensures var stats := ExerciseStats(sessions, sets);
      (exists i :: 0 <= i < |stats| && stats[i].name == k) <==>
      Filter(sets, KeptNamed(SessionDates(sessions), k)) != []
    {
      StatsCoverName(sessions, sets, k);
    }
  }

  lemma StatsDistinctNames(sessions: seq<SessionRow>, sets: seq<SetRow>)
    ensures var stats := ExerciseStats(sessions, sets);
      forall i, j :: 0 <= i < j < |stats| ==> stats[i].name != stats[j].name
  {
    var t := Accumulate(SessionDates(sessions), sets);
    StatsSortedByVolume(sessions, sets);
    ProjectedNames(SessionDates(sessions), sets);
    DistinctNamesOfPermutation(ExerciseStats(sessions, sets), Projected(t), t.order);
  }

  /** A permutation of entries named after distinct names has distinct names. */
  lemma DistinctNamesOfPermutation(stats: seq<ExerciseStat>, p: seq<ExerciseStat>, order: seq<string>)
    requires multiset(stats) == multiset(p) && |p| == |order| && Distinct(order)
    requires forall j :: 0 <= j < |p| ==> p[j].name == order[j]
    ensures forall i, j :: 0 <= i < j < |stats| ==> stats[i].name != stats[j].name
  {
    assert Distinct(p) by {
      forall a, b | 0 <= a < b < |p| ensures p[a] != p[b] {
        assert p[a].name == order[a] && p[b].name == order[b];
      }
    }
    DistinctOccursOnce(p);
    forall i, j | 0 <= i < j < |stats| ensures stats[i].name != stats[j].name {
      OnceDiffers(stats, i, j);
      assert stats[i] in multiset(p) && stats[j] in multiset(p);
      var a :| 0 <= a < |p| && p[a] == stats[i];
      var b :| 0 <= b < |p| && p[b] == stats[j];
      assert order[a] != order[b];
    }
  }

  lemma StatsCoverName(sessions: seq<SessionRow>, sets: seq<SetRow>, k: string)
    ensures var stats := ExerciseStats(sessions, sets);
      (exists i :: 0 <= i < |stats| && stats[i].name == k) <==>
      Filter(sets, KeptNamed(SessionDates(sessions), k)) != []
  {
    var dates := SessionDates(sessions);
    var t := Accumulate(dates, sets);
    OrderNames(dates, sets, k);
    StatsSortedByVolume(sessions, sets);
    ProjectedNames(dates, sets);
    NamesOfPermutation(ExerciseStats(sessions, sets), Projected(t), t.order, k);
  }

  /** A permutation of entries named after `order` carries the same names. */
  lemma NamesOfPermutation(stats: seq<ExerciseStat>, p: seq<ExerciseStat>, order: seq<string>, k: string)
    requires multiset(stats) == multiset(p) && |p| == |order|
    requires forall j :: 0 <= j < |p| ==> p[j].name == order[j]
    ensures (exists i :: 0 <= i < |stats| && stats[i].name == k) <==> k in order
  {
    if k in order {
      var j :| 0 <= j < |order| && order[j] == k;
      assert p[j] in multiset(stats);
      var i :| 0 <= i < |stats| && stats[i] == p[j];
      assert stats[i].name == k;
    }
    if i :| 0 <= i < |stats| && stats[i].name == k {
      assert stats[i] in multiset(p);
      var j :| 0 <= j < |p| && p[j] == stats[i];
      assert order[j] == k;
    }
  }

  /** The table lists a name exactly when some kept set carries it. */
  lemma OrderNames(dates: map<int, Option<int>>, sets: seq<SetRow>, k: string)
    ensures k in Accumulate(dates, sets).order <==> Filter(sets, KeptNamed(dates, k)) != []
  {
    AccumulateIsFold(dates, sets);
  }

  /** The projected entries carry the table's names, in its order. */
  lemma ProjectedNames(dates: map<int, Option<int>>, sets: seq<SetRow>)
    ensures var t := Accumulate(dates, sets);
      forall j :: 0 <= j < |t.order| ==> Projected(t)[j].name == t.order[j]
  {
    var t := Accumulate(dates, sets);
    AccumulateIsFold(dates, sets);
    forall j | 0 <= j < |t.order| ensures Projected(t)[j].name == t.order[j] {
      FoldTotals(t.order[j], dates, Filter(sets, KeptNamed(dates, t.order[j])));
    }
  }

  lemma {:induction false} SumOne(s: seq<SetRow>)
    ensures Sum(s, One) == |s|
  {
    if s != [] {
      SumOne(s[1..]);
    }
  }

  /** Counting one exercise's kept sets among all kept sets. */
  lemma {:induction false} CountKept(dates: map<int, Option<int>>, sets: seq<SetRow>, k: string)
    ensures SumWhere(Filter(sets, Kept(dates)), RowName, k, One) == |Filter(sets, KeptNamed(dates, k))|
  {
    if sets != [] {
      CountKept(dates, sets[1..], k);
      if Kept(dates)(sets[0]) {
        CountKeptHead(dates, sets, k);
      } else {
        assert Filter(sets, Kept(dates)) == Filter(sets[1..], Kept(dates));
        assert Filter(sets, KeptNamed(dates, k)) == Filter(sets[1..], KeptNamed(dates, k));
      }
    }
  }

  lemma CountKeptHead(dates: map<int, Option<int>>, sets: seq<SetRow>, k: string)
    requires sets != [] && Kept(dates)(sets[0])
    ensures SumWhere(Filter(sets, Kept(dates)), RowName, k, One)
         == (if sets[0].exerciseName == k then 1 else 0) + SumWhere(Filter(sets[1..], Kept(dates)), RowName, k, One)
    ensures |Filter(sets, KeptNamed(dates, k))|
         == (if sets[0].exerciseName == k then 1 else 0) + |Filter(sets[1..], KeptNamed(dates, k))|
  {
    var kept := Filter(sets, Kept(dates));
    assert kept == [sets[0]] + Filter(sets[1..], Kept(dates));
    assert kept[0] == sets[0] && kept[1..] == Filter(sets[1..], Kept(dates));
  }

  function KeyCount(kept: seq<SetRow>): string -> int {
    (k: string) => SumWhere(kept, RowName, k, One)
  }

  lemma {:induction false} SumOverKeysAsSum(keys: seq<string>, kept: seq<SetRow>)
    ensures SumOverKeys(keys, kept, RowName, One) == Sum(keys, KeyCount(kept))
  {
    if keys != [] {
      SumOverKeysAsSum(keys[1..], kept);
    }
  }

  /** The entries' set counts add up to the number of kept sets. */
  lemma TotalSetsAddUp(sessions: seq<SessionRow>, sets: seq<SetRow>)
    ensures Sum(ExerciseStats(sessions, sets), TotalSets) == |Filter(sets, Kept(SessionDates(sessions)))|
  {
    var dates := SessionDates(sessions);
    var t := Accumulate(dates, sets);
    AccumulateIsFold(dates, sets);
    var p := Projected(t);
    var kept := Filter(sets, Kept(dates));
    StatsSortedByVolume(sessions, sets);
    SumPermutation(ExerciseStats(sessions, sets), p, TotalSets);
    forall j | 0 <= j < |p| ensures TotalSets(p[j]) == KeyCount(kept)(t.order[j]) {
      FoldTotals(t.order[j], dates, Filter(sets, KeptNamed(dates, t.order[j])));
      CountKept(dates, sets, t.order[j]);
    }
    SumCongruent(p, TotalSets, t.order, KeyCount(kept));
    SumOverKeysAsSum(t.order, kept);
    forall x | x in kept ensures RowName(x) in t.order {
      var i :| 0 <= i < |kept| && kept[i] == x;
      assert Kept(dates)(x);
      assert x in sets;
      var j :| 0 <= j < |sets| && sets[j] == x;
      assert KeptNamed(dates, x.exerciseName)(sets[j]);
    }
    SumPartition(t.order, kept, RowName, One);
    SumOne(kept);
  }

  /** The `map` over the table's entries in insertion order. */
  method ProjectAll(table: map<string, Stat>, order: seq<string>) returns (projected: seq<ExerciseStat>)
    requires forall k :: k in order ==> k in table
    ensures projected == Projected(Table(table, order))
  {
    projected := [];
    var i := 0;
    while i < |order|
      invariant 0 <= i <= |order|
      invariant |projected| == i
      invariant forall j :: 0 <= j < i ==> projected[j] == Project(table[order[j]])
    {
      projected := projected + [Project(table[order[i]])];
      i := i + 1;
    }
  }

  /** `calculateExerciseStats`: the date map, the pass over the sets that
      fills the table, the projection and the sort by volume. */
  method CalculateExerciseStats(sessions: seq<SessionRow>, sets: seq<SetRow>)
    returns (stats: seq<ExerciseStat>)
    ensures stats == ExerciseStats(sessions, sets)
  {
    var dates: map<int, Option<int>> := map[];
    var i := 0;
    while i < |sessions|
      invariant 0 <= i <= |sessions|
      invariant dates == SessionDates(sessions[..i])
    {
      assert sessions[..i + 1][..i] == sessions[..i];
      dates := dates[sessions[i].id := sessions[i].completedAt];
      i := i + 1;
    }
    assert sessions[..|sessions|] == sessions;

    var table: map<string, Stat> := map[];
    var order: seq<string> := [];
    i := 0;
    while i < |sets|
      invariant 0 <= i <= |sets|
      invariant Table(table, order) == Accumulate(dates, sets[..i])
    {
      var r := sets[i];
      assert sets[..i + 1][..i] == sets[..i];
      var sessionDate := DateOf(dates, r.sessionId);
      if r.exerciseName != "" && sessionDate.Some? {
        if r.exerciseName !in table {
          table := table[r.exerciseName := NewStat(r.exerciseName)];
          order := order + [r.exerciseName];
        }
        table := table[r.exerciseName := Step(table[r.exerciseName], r, sessionDate.value)];
      }
      i := i + 1;
    }
    assert sets[..|sets|] == sets;
    AccumulateIsFold(dates, sets);

    var projected := ProjectAll(table, order);
    stats := InsertionSort(projected, KeyBefore(NegVolume));
  }

  function PointVolume(p: Point): int {
    p.volume
  }

  /** The chart keys in first-appearance order. */
  function Keys(history: seq<Point>, dateKey: int -> string): seq<string>
    decreases |history|
  {
    if history == [] then []
    else
      var init := Keys(history[..|history| - 1], dateKey);
      var k := dateKey(history[|history| - 1].date);
      if k in init then init else init + [k]
  }

  /** Each key present in the history is listed, once. */
  lemma {:induction false} KeysListed(history: seq<Point>, dateKey: int -> string)
    ensures Distinct(Keys(history, dateKey))
    ensures forall k :: k in Keys(history, dateKey) <==>
      exists j :: 0 <= j < |history| && dateKey(history[j].date) == k
    decreases |history|
  {
    if history != [] {
      var init := history[..|history| - 1];
      KeysListed(init, dateKey);
      assert forall j :: 0 <= j < |init| ==> init[j] == history[j];
    }
  }

  function DayOf(dateKey: int -> string): Point -> string {
    (p: Point) => dateKey(p.date)
  }

  lemma {:induction false} SumWhereSnoc(s: seq<Point>, x: Point, key: Point -> string, k: string, f: Point -> int)
    ensures SumWhere(s + [x], key, k, f) == SumWhere(s, key, k, f) + (if key(x) == k then f(x) else 0)
  {
    if s == [] {
      assert [x][1..] == [];
    } else {
      assert (s + [x])[1..] == s[1..] + [x];
      SumWhereSnoc(s[1..], x, key, k, f);
    }
  }

  /** The keys after one more entry. */
  lemma KeysStep(history: seq<Point>, dateKey: int -> string, i: nat)
    requires i < |history|
    ensures var k, keys := dateKey(history[i].date), Keys(history[..i], dateKey);
      Keys(history[..i + 1], dateKey) == if k in keys then keys else keys + [k]
  {
    assert history[..i + 1][..i] == history[..i];
  }

  /** `VolumeChart`'s `volumeByDate`: each date key present in the history
      maps to the sum of its entries' volumes; the keys are listed once each
      in first-appearance order. */
  method GroupVolumeByDate(history: seq<Point>, dateKey: int -> string)
    returns (volumeByDate: map<string, int>, keys: seq<string>)
    ensures keys == Keys(history, dateKey)
    ensures forall k :: k in volumeByDate <==> k in keys
    ensures forall k :: k in volumeByDate ==> volumeByDate[k] == SumWhere(history, DayOf(dateKey), k, PointVolume)
  {
    volumeByDate := map[];
    keys := [];
    var i := 0;
    while i < |history|
      invariant 0 <= i <= |history|
      invariant keys == Keys(history[..i], dateKey)
      invariant forall k :: k in volumeByDate <==> k in keys
      invariant forall k :: k in volumeByDate ==>
        volumeByDate[k] == SumWhere(history[..i], DayOf(dateKey), k, PointVolume)
    {
      var entry := history[i];
      var date := dateKey(entry.date);
      KeysStep(history, dateKey, i);
      if date !in volumeByDate {
        KeysListed(history[..i], dateKey);
        NoEntriesNoSum(history[..i], DayOf(dateKey), date, PointVolume);
        volumeByDate := volumeByDate[date := 0];
        keys := keys + [date];
      }
      volumeByDate := volumeByDate[date := volumeByDate[date] + entry.volume];
      VolumeStep(history, dateKey, i);
      i := i + 1;
    }
    assert history[..|history|] == history;
  }

  /** One more entry adds its volume to its own key's sum only. */
  lemma VolumeStep(history: seq<Point>, dateKey: int -> string, i: nat)
    requires i < |history|
    ensures forall k ::
      SumWhere(history[..i + 1], DayOf(dateKey), k, PointVolume) ==
      SumWhere(history[..i], DayOf(dateKey), k, PointVolume) + (if dateKey(history[i].date) == k then history[i].volume else 0)
  {
    assert history[..i + 1] == history[..i] + [history[i]];
    forall k ensures SumWhere(history[..i + 1], DayOf(dateKey), k, PointVolume) ==
      SumWhere(history[..i], DayOf(dateKey), k, PointVolume)
        + (if dateKey(history[i].date) == k then history[i].volume else 0)
    {
      SumWhereSnoc(history[..i], history[i], DayOf(dateKey), k, PointVolume);
    }
  }

  lemma {:induction false} NoEntriesNoSum(s: seq<Point>, key: Point -> string, k: string, f: Point -> int)
    requires forall j :: 0 <= j < |s| ==> key(s[j]) != k
    ensures SumWhere(s, key, k, f) == 0
  {
    if s != [] {
      NoEntriesNoSum(s[1..], key, k, f);
    }
  }

  /** Grouping by date loses no volume: the per-key sums add up to the
      history's total. */
  lemma GroupedVolumeTotal(history: seq<Point>, dateKey: int -> string)
    ensures SumOverKeys(Keys(history, dateKey), history, DayOf(dateKey), PointVolume) == Sum(history, PointVolume)
  {
    var keys := Keys(history, dateKey);
    KeysListed(history, dateKey);
    forall x | x in history ensures DayOf(dateKey)(x) in keys {
      var j :| 0 <= j < |history| && history[j] == x;
    }
    SumPartition(keys, history, DayOf(dateKey), PointVolume);
  }

  /** What `WeightProgressChart` stores under key `k` after the entries
      `history`: nothing before the key's first entry; after that an entry
      replaces the stored weight when the stored weight is falsy (0) or
      smaller. */
  function StoredMax(history: seq<Point>, dateKey: int -> string, k: string): Option<int>
    decreases |history|
  {
    if history == [] then None
    else
      var stored := StoredMax(history[..|history| - 1], dateKey, k);
      var e := history[|history| - 1];
      if dateKey(e.date) != k then stored
      else if stored.None? || stored.value == 0 || e.weight > stored.value then Some(e.weight)
      else stored
  }

  /** A key has a stored weight exactly when the history has an entry for
      it, and the stored weight is one of that key's weights. */
  lemma {:induction false} StoredMaxAttained(history: seq<Point>, dateKey: int -> string, k: string)
    ensures StoredMax(history, dateKey, k).Some? <==>
      exists j :: 0 <= j < |history| && dateKey(history[j].date) == k
    ensures StoredMax(history, dateKey, k).Some? ==>
      exists j :: 0 <= j < |history| && dateKey(history[j].date) == k &&
        history[j].weight == StoredMax(history, dateKey, k).value
    decreases |history|
  {
    if history != [] {
      var init := history[..|history| - 1];
      StoredMaxAttained(init, dateKey, k);
      assert forall j :: 0 <= j < |init| ==> init[j] == history[j];
    }
  }

  /** With non-negative weights the stored weight is the key's largest. */
  lemma {:induction false} StoredMaxIsMax(history: seq<Point>, dateKey: int -> string, k: string)
    requires forall j :: 0 <= j < |history| ==> history[j].weight >= 0
    ensures forall j :: 0 <= j < |history| && dateKey(history[j].date) == k ==>
      StoredMax(history, dateKey, k).Some? && history[j].weight <= StoredMax(history, dateKey, k).value
    decreases |history|
  {
    if history != [] {
      var init := history[..|history| - 1];
      StoredMaxIsMax(init, dateKey, k);
      assert forall j :: 0 <= j < |init| ==> init[j] == history[j];
    }
  }

  /** The as-written `maxWeightByDate` with a negative weight after a zero:
      the zero is falsy, so the negative weight replaces it. */
  lemma StoredMaxAfterZero(dateKey: int -> string)
    ensures StoredMax([Point(1, 0, 5, 0), Point(1, -5, 5, -25)], dateKey, dateKey(1)) == Some(-5)
  {
    var h := [Point(1, 0, 5, 0), Point(1, -5, 5, -25)];
    assert h[..1] == [Point(1, 0, 5, 0)] && h[..1][..0] == [];
  }

  /** `WeightProgressChart`'s `maxWeightByDate`: each date key present in
      the history maps to the weight the quirky comparison keeps. */
  method MaxWeightByDate(history: seq<Point>, dateKey: int -> string)
    returns (maxWeightByDate: map<string, int>, keys: seq<string>)
    ensures keys == Keys(history, dateKey)
    ensures forall k :: k in maxWeightByDate <==> k in keys
    ensures forall k :: k in maxWeightByDate ==> StoredMax(history, dateKey, k) == Some(maxWeightByDate[k])
  {
    maxWeightByDate := map[];
    keys := [];
    var i := 0;
    while i < |history|
      invariant 0 <= i <= |history|
      invariant keys == Keys(history[..i], dateKey)
      invariant forall k :: k in maxWeightByDate <==> k in keys
      invariant forall k :: k in maxWeightByDate ==> StoredMax(history[..i], dateKey, k) == Some(maxWeightByDate[k])
    {
      var entry := history[i];
      var date := dateKey(entry.date);
      KeysStep(history, dateKey, i);
      assert history[..i + 1][..i] == history[..i];
      if date !in maxWeightByDate {
        keys := keys + [date];
        KeysListed(history[..i], dateKey);
        StoredMaxAttained(history[..i], dateKey, date);
      }
      if date !in maxWeightByDate || maxWeightByDate[date] == 0 || entry.weight > maxWeightByDate[date] {
        maxWeightByDate := maxWeightByDate[date := entry.weight];
      }
      i := i + 1;
    }
    assert history[..|history|] == history;
  }
}
