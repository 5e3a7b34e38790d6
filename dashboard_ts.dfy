/**
 * The training dashboard of `src/Dashboard.tsx`: loading the groups of
 * exercises, the workout dialog with its per-set weights, saving a workout,
 * the "last weights" lookup for exercises measured in kg, and the per-tab
 * completion counter. Backend replies are parameters (None for an error).
 */
module DashboardTs {
  import opened Js
  import opened JsObject
  import StableSort

  datatype ExerciseImage = ExerciseImage(url: string, order: Option<int>)

  datatype Exercise = Exercise(
    id: int,
    title: string,
    active: bool,
    order: Option<int>,
    sets: Option<int>,
    weightUnit: string,
    images: seq<ExerciseImage>)

  /** A group as the dashboard holds it; a missing `exercises` list is the empty one. */
  datatype Group = Group(id: int, name: string, description: string, order: int, active: bool, exercises: seq<Exercise>)

  /** `x.order || 0` */
  function OrderKey(o: Option<int>): int {
    if o.Some? then o.value else 0
  }

  function ImageKey(img: ExerciseImage): int {
    OrderKey(img.order)
  }

  function ExerciseKey(ex: Exercise): int {
    OrderKey(ex.order)
  }

  /** `{ ...ex, exercise_images: (ex.exercise_images || []).sort(byOrder) }` */
  function WithSortedImages(ex: Exercise): (r: Exercise)
    ensures StableSort.SortedBy(r.images, ImageKey)
    ensures multiset(r.images) == multiset(ex.images)
    ensures r.(images := ex.images) == ex
  {
    ex.(images := StableSort.SortBy(ex.images, ImageKey))
  }

  /** `.filter((ex) => ex.active)` */
  function ActiveOf(exs: seq<Exercise>): seq<Exercise>
    decreases |exs|
  {
    if |exs| == 0 then []
    else (if exs[0].active then [exs[0]] else []) + ActiveOf(exs[1..])
  }

  lemma {:induction false} ActiveOfSpec(exs: seq<Exercise>)
    ensures forall x :: x in ActiveOf(exs) <==> x in exs && x.active
    decreases |exs|
  {
    if |exs| > 0 {
      ActiveOfSpec(exs[1..]);
      assert exs == [exs[0]] + exs[1..];
    }
  }

  /** The exercises of a fetched group: the active ones, sorted by order, each with its images sorted. */
  function PreparedExercises(exs: seq<Exercise>): seq<Exercise> {
    var sorted := StableSort.SortBy(ActiveOf(exs), ExerciseKey);
    seq(|sorted|, i requires 0 <= i < |sorted| => WithSortedImages(sorted[i]))
  }

  /** After loading, a group's exercises are active and sorted by order (a missing order counting as 0), each with its images sorted. */
  lemma PreparedExercisesSorted(exs: seq<Exercise>)
    ensures var r := PreparedExercises(exs);
      StableSort.SortedBy(r, ExerciseKey)
      && forall i :: 0 <= i < |r| ==> r[i].active && StableSort.SortedBy(r[i].images, ImageKey)
  {
    var active := ActiveOf(exs);
    var sorted := StableSort.SortBy(active, ExerciseKey);
    var r := PreparedExercises(exs);
    ActiveOfSpec(exs);
    assert forall i :: 0 <= i < |r| ==> ExerciseKey(r[i]) == ExerciseKey(sorted[i]);
    forall i | 0 <= i < |r|
      ensures r[i].active
    {
      assert sorted[i] in multiset(active);
      assert sorted[i] in active;
    }
  }

  /** `exs` with every exercise's images sorted. */
  function WithSortedImagesAll(exs: seq<Exercise>): (r: seq<Exercise>)
    ensures |r| == |exs| && forall i :: 0 <= i < |exs| ==> r[i] == WithSortedImages(exs[i])
  {
    seq(|exs|, i requires 0 <= i < |exs| => WithSortedImages(exs[i]))
  }

  /** Every exercise of a loaded group is a fetched active exercise with its images sorted. */
  lemma PreparedExercisesSound(exs: seq<Exercise>)
    ensures forall y :: y in PreparedExercises(exs) ==> y.active && y in WithSortedImagesAll(exs)
  {
    var active := ActiveOf(exs);
    var sorted := StableSort.SortBy(active, ExerciseKey);
    var r := PreparedExercises(exs);
    var all := WithSortedImagesAll(exs);
    ActiveOfSpec(exs);
    forall y | y in r
      ensures y.active && y in all
    {
      var i :| 0 <= i < |r| && r[i] == y;
      assert sorted[i] in multiset(active);
      assert sorted[i] in exs;
      var j :| 0 <= j < |exs| && exs[j] == sorted[i];
      assert all[j] == y;
    }
  }

  /** No active exercise of a fetched group is lost. */
  lemma PreparedExercisesComplete(exs: seq<Exercise>)
    ensures forall x :: x in exs && x.active ==> WithSortedImages(x) in PreparedExercises(exs)
  {
    var active := ActiveOf(exs);
    var sorted := StableSort.SortBy(active, ExerciseKey);
    var r := PreparedExercises(exs);
    ActiveOfSpec(exs);
    forall x | x in exs && x.active
      ensures WithSortedImages(x) in r
    {
      assert x in active;
      assert x in multiset(sorted);
      var i :| 0 <= i < |sorted| && sorted[i] == x;
      assert r[i] == WithSortedImages(x);
    }
  }

  /** Exercises with the same order keep the order they were fetched in. */
  lemma PreparedExercisesStable(exs: seq<Exercise>, k: int)
    ensures StableSort.WithKey(StableSort.SortBy(ActiveOf(exs), ExerciseKey), ExerciseKey, k)
            == StableSort.WithKey(ActiveOf(exs), ExerciseKey, k)
  {
    StableSort.SortByStable(ActiveOf(exs), ExerciseKey, k);
  }

  function PreparedGroup(g: Group): Group {
    g.(exercises := PreparedExercises(g.exercises))
  }

  const FallbackName := "Alle øvelser"

  /** The single group that wraps the fallback exercises: neither filtered nor reordered. */
  function FallbackGroup(exs: seq<Exercise>): Group {
    Group(0, FallbackName, "", 0, true, WithSortedImagesAll(exs))
  }

  /**
   * The groups `fetchExerciseGroups` stores, given the reply of the group
   * query and of the fallback exercise query (None: the query failed).
   * None: the state is left as it was (no groups and no fallback exercises).
   */
  function LoadedGroups(groupsReply: Option<seq<Group>>, fallbackReply: Option<seq<Exercise>>): Option<seq<Group>> {
    match groupsReply
    case None => Some([])
    case Some(gs) =>
      if |gs| > 0 then Some(seq(|gs|, i requires 0 <= i < |gs| => PreparedGroup(gs[i])))
      else match fallbackReply
        case None => Some([])
        case Some(exs) => if |exs| > 0 then Some([FallbackGroup(exs)]) else None
  }

  /**
   * A failed query leaves no groups; fetched groups keep their fields and
   * order and hold only their prepared exercises; with no groups, a
   * non-empty fallback becomes the one group with id 0 named "Alle øvelser"
   * holding every fallback exercise in the fetched order.
   */
  lemma LoadedGroupsSpec(groupsReply: Option<seq<Group>>, fallbackReply: Option<seq<Exercise>>)
    ensures groupsReply.None? ==> LoadedGroups(groupsReply, fallbackReply) == Some([])
    ensures groupsReply.Some? && |groupsReply.value| > 0 ==>
      var gs := groupsReply.value;
      var r := LoadedGroups(groupsReply, fallbackReply);
      r.Some? && |r.value| == |gs|
      && forall i :: 0 <= i < |gs| ==>
           r.value[i].(exercises := gs[i].exercises) == gs[i]
           && StableSort.SortedBy(r.value[i].exercises, ExerciseKey)
           && (forall j :: 0 <= j < |r.value[i].exercises| ==> r.value[i].exercises[j].active)
           && (forall x :: x in gs[i].exercises && x.active ==> WithSortedImages(x) in r.value[i].exercises)
    ensures groupsReply == Some([]) ==>
      var r := LoadedGroups(groupsReply, fallbackReply);
      match fallbackReply
      case None => r == Some([])
      case Some(exs) =>
        if |exs| == 0 then r.None?
        else r.Some? && |r.value| == 1 && r.value[0].id == 0 && r.value[0].name == "Alle øvelser"
             && |r.value[0].exercises| == |exs|
             && forall j :: 0 <= j < |exs| ==>
                  r.value[0].exercises[j].(images := exs[j].images) == exs[j]
                  && StableSort.SortedBy(r.value[0].exercises[j].images, ImageKey)
  {
    if groupsReply.Some? && |groupsReply.value| > 0 {
      var gs := groupsReply.value;
      forall i | 0 <= i < |gs|
        ensures StableSort.SortedBy(PreparedExercises(gs[i].exercises), ExerciseKey)
        ensures forall j :: 0 <= j < |PreparedExercises(gs[i].exercises)| ==> PreparedExercises(gs[i].exercises)[j].active
        ensures forall x :: x in gs[i].exercises && x.active ==> WithSortedImages(x) in PreparedExercises(gs[i].exercises)
      {
        PreparedExercisesSorted(gs[i].exercises);
        PreparedExercisesComplete(gs[i].exercises);
      }
    }
  }

  // ----- Weights in the workout dialog -----

  /** A set of an earlier workout; the weight is its decimal text, None for `null`. */
  datatype WorkoutSet = WorkoutSet(setNumber: int, weight: Option<string>)

  /** `set.weight?.toString() || ""` */
  function WeightText(s: WorkoutSet): string {
    OrElse(s.weight, "")
  }

  /** `exercise.sets || 1` */
  function NumSets(sets: Option<int>): (n: int)
    ensures TruthyNum(sets) ==> n == sets.value
    ensures !TruthyNum(sets) ==> n == 1
  {
    if TruthyNum(sets) then sets.value else 1
  }

  /** What set `k` starts with: the weight of the (k-1)-th earlier set by position, or "". */
  function PrefillWeight(last: seq<WorkoutSet>, k: int): string {
    if 1 <= k <= |last| then WeightText(last[k - 1]) else ""
  }

  /**
   * The `initialWeights` loop of `toggleExercise`: keys 1 to `sets || 1`,
   * key k holding the (k-1)-th weight of the earlier workout or "".
   */
  method InitialWeights(sets: Option<int>, last: seq<WorkoutSet>) returns (w: seq<(int, string)>)
    ensures Ascending(w)
    ensures forall k :: Get(w, k).Some? <==> 1 <= k <= NumSets(sets)
    ensures forall k :: 1 <= k <= NumSets(sets) ==> Get(w, k) == Some(PrefillWeight(last, k))
  {
    var n := NumSets(sets);
    w := [];
    var i := 1;
    while i <= n
      invariant 1 <= i <= (if n >= 1 then n + 1 else 1)
      invariant |w| == i - 1
      invariant forall j :: 0 <= j < |w| ==> w[j] == (j + 1, PrefillWeight(last, j + 1))
    {
      PutAbove(w, i, PrefillWeight(last, i));
      w := Put(w, i, PrefillWeight(last, i));
      i := i + 1;
    }
    forall k
      ensures Get(w, k) == if 1 <= k <= n then Some(PrefillWeight(last, k)) else None
    {
      GetNumbered(w, k);
    }
  }

  /** The `newWeights` loop of `handleCopyLastWeights`: key index+1 holds the index-th earlier weight. */
  method CopiedWeights(last: seq<WorkoutSet>) returns (w: seq<(int, string)>)
    ensures Ascending(w)
    ensures forall k :: Get(w, k).Some? <==> 1 <= k <= |last|
    ensures forall k :: 1 <= k <= |last| ==> Get(w, k) == Some(WeightText(last[k - 1]))
  {
    w := [];
    var index := 0;
    while index < |last|
      invariant 0 <= index <= |last| && |w| == index
      invariant forall j :: 0 <= j < |w| ==> w[j] == (j + 1, WeightText(last[j]))
    {
      PutAbove(w, index + 1, WeightText(last[index]));
      w := Put(w, index + 1, WeightText(last[index]));
      index := index + 1;
    }
    forall k
      ensures Get(w, k) == if 1 <= k <= |last| then Some(WeightText(last[k - 1])) else None
    {
      GetNumbered(w, k);
    }
  }

  /** `Object.entries(setsData).filter(([_, weight]) => weight !== "")` */
  function NonEmptyEntries(w: seq<(int, string)>): seq<(int, string)>
    decreases |w|
  {
    if |w| == 0 then []
    else (if w[0].1 != "" then [w[0]] else []) + NonEmptyEntries(w[1..])
  }

  lemma {:induction false} NonEmptyEntriesBound(w: seq<(int, string)>, b: int)
    requires forall j :: 0 <= j < |w| ==> b < w[j].0
    ensures forall j :: 0 <= j < |NonEmptyEntries(w)| ==> b < NonEmptyEntries(w)[j].0
    decreases |w|
  {
    if |w| > 0 {
      NonEmptyEntriesBound(w[1..], b);
    }
  }

  /** The saved entries stay in set order. */
  lemma {:induction false} NonEmptyEntriesAscending(w: seq<(int, string)>)
    requires Ascending(w)
    ensures Ascending(NonEmptyEntries(w))
    decreases |w|
  {
    if |w| > 0 {
      NonEmptyEntriesAscending(w[1..]);
      NonEmptyEntriesBound(w[1..], w[0].0);
    }
  }

  /** The saved entries are those of the dialog whose weight is not empty. */
  lemma {:induction false} NonEmptyEntriesGet(w: seq<(int, string)>)
    requires Ascending(w)
    ensures forall k :: Get(NonEmptyEntries(w), k) == if Get(w, k).Some? && Get(w, k).value != "" then Get(w, k) else None
    decreases |w|
  {
    if |w| > 0 {
      var rest := NonEmptyEntries(w[1..]);
      NonEmptyEntriesGet(w[1..]);
      NonEmptyEntriesBound(w[1..], w[0].0);
      assert w == [w[0]] + w[1..];
      GetEntry(w, 0);
      forall k
        ensures Get(NonEmptyEntries(w), k) == if Get(w, k).Some? && Get(w, k).value != "" then Get(w, k) else None
      {
        if k != w[0].0 {
          GetCons(w[0], w[1..], k);
          if w[0].1 != "" {
            assert NonEmptyEntries(w) == [w[0]] + rest;
            GetCons(w[0], rest, k);
          } else {
            assert NonEmptyEntries(w) == rest;
          }
        } else if w[0].1 != "" {
          assert NonEmptyEntries(w) == [w[0]] + rest;
          assert Find([w[0]] + rest, k) == Some(0);
        } else {
          assert NonEmptyEntries(w) == rest;
        }
      }
    }
  }

  // ----- Last weights of the kg exercises -----

  predicate IsKg(ex: Exercise) {
    ex.weightUnit == "kg" && ex.active
  }

  /** The ids of a list's kg exercises, in order. */
  function KgIdsOf(exs: seq<Exercise>): seq<int>
    decreases |exs|
  {
    if |exs| == 0 then []
    else KgIdsOf(exs[..|exs| - 1]) + (if IsKg(exs[|exs| - 1]) then [exs[|exs| - 1].id] else [])
  }

  /** The ids of all kg exercises of all groups, group by group. */
  function KgIds(groups: seq<Group>): seq<int>
    decreases |groups|
  {
    if |groups| == 0 then []
    else KgIds(groups[..|groups| - 1]) + KgIdsOf(groups[|groups| - 1].exercises)
  }

  lemma {:induction false} KgIdsOfSpec(exs: seq<Exercise>)
    ensures forall x :: x in KgIdsOf(exs) <==> exists ex :: ex in exs && IsKg(ex) && ex.id == x
    decreases |exs|
  {
    if |exs| > 0 {
      var init := exs[..|exs| - 1];
      KgIdsOfSpec(init);
      assert exs == init + [exs[|exs| - 1]];
      forall x | x in KgIdsOf(exs)
        ensures exists ex :: ex in exs && IsKg(ex) && ex.id == x
      {
        if x in KgIdsOf(init) {
          var ex :| ex in init && IsKg(ex) && ex.id == x;
          assert ex in exs;
        }
      }
    }
  }

  /** Exactly the active exercises measured in kg, from every group, are looked up. */
  lemma {:induction false} KgIdsSpec(groups: seq<Group>)
    ensures forall x :: x in KgIds(groups) <==>
      exists g :: g in groups && exists ex :: ex in g.exercises && IsKg(ex) && ex.id == x
    decreases |groups|
  {
    if |groups| > 0 {
      var init := groups[..|groups| - 1];
      var g := groups[|groups| - 1];
      KgIdsSpec(init);
      KgIdsOfSpec(g.exercises);
      assert groups == init + [g];
      forall x | x in KgIds(groups)
        ensures exists h :: h in groups && exists ex :: ex in h.exercises && IsKg(ex) && ex.id == x
      {
        if x in KgIds(init) {
          var h :| h in init && exists ex :: ex in h.exercises && IsKg(ex) && ex.id == x;
          assert h in groups;
        } else {
          assert g in groups;
        }
      }
    }
  }

  /** The nested `forEach` that collects `kgExercises`. */
  method KgExerciseIds(groups: seq<Group>) returns (ids: seq<int>)
    ensures ids == KgIds(groups)
  {
    ids := [];
    var i := 0;
    while i < |groups|
      invariant 0 <= i <= |groups| && ids == KgIds(groups[..i])
    {
      var exs := groups[i].exercises;
      var j := 0;
      while j < |exs|
        invariant 0 <= j <= |exs| && ids == KgIds(groups[..i]) + KgIdsOf(exs[..j])
      {
        if exs[j].weightUnit == "kg" && exs[j].active {
          ids := ids + [exs[j].id];
        }
        assert exs[..j + 1][..j] == exs[..j];
        j := j + 1;
      }
      assert exs[..j] == exs;
      assert groups[..i + 1][..i] == groups[..i];
      i := i + 1;
    }
    assert groups[..i] == groups;
  }

  /** A row of the `workouts` reply, newest first. */
  datatype WorkoutRow = WorkoutRow(id: int, exerciseId: int)

  /**
   * `latestWorkoutPerExercise` after the `forEach` over `rows`: a row is
   * stored when its exercise has no entry yet or an entry of 0 (`!map[e]`).
   */
  function LatestOf(rows: seq<WorkoutRow>): seq<(int, int)>
    decreases |rows|
  {
    if |rows| == 0 then []
    else
      var m := LatestOf(rows[..|rows| - 1]);
      var w := rows[|rows| - 1];
      var cur := Get(m, w.exerciseId);
      if cur.None? || cur.value == 0 then Put(m, w.exerciseId, w.id) else m
  }

  /** The first non-zero workout id of exercise `e` among `rows`, 0 when there is none. */
  function FirstNonZero(rows: seq<WorkoutRow>, e: int): int
    decreases |rows|
  {
    if |rows| == 0 then 0
    else
      var p := FirstNonZero(rows[..|rows| - 1], e);
      var w := rows[|rows| - 1];
      if p != 0 then p else if w.exerciseId == e then w.id else 0
  }

  lemma {:induction false} LatestOfAscending(rows: seq<WorkoutRow>)
    ensures Ascending(LatestOf(rows))
    decreases |rows|
  {
    if |rows| > 0 {
      var init := rows[..|rows| - 1];
      var w := rows[|rows| - 1];
      LatestOfAscending(init);
      PutAscending(LatestOf(init), w.exerciseId, w.id);
    }
  }

  /** What `LatestOf` says about exercise `e`. */
  predicate LatestAgrees(rows: seq<WorkoutRow>, e: int) {
    var got := Get(LatestOf(rows), e);
    (got.None? <==> forall i :: 0 <= i < |rows| ==> rows[i].exerciseId != e)
    && (got.Some? ==> got.value == FirstNonZero(rows, e))
  }

  /** One row of the `forEach`, for an exercise other than the row's. */
  lemma LatestOfStepOther(rows: seq<WorkoutRow>, e: int)
    requires |rows| > 0 && rows[|rows| - 1].exerciseId != e && LatestAgrees(rows[..|rows| - 1], e)
    ensures LatestAgrees(rows, e)
  {
    var n := |rows| - 1;
    var init := rows[..n];
    var w := rows[n];
    var m := LatestOf(init);
    LatestOfAscending(init);
    PutGet(m, w.exerciseId, w.id);
    assert Get(LatestOf(rows), e) == Get(m, e);
    assert FirstNonZero(rows, e) == FirstNonZero(init, e);
    assert forall i :: 0 <= i < n ==> init[i] == rows[i];
  }

  /** One row of the `forEach`, for the row's own exercise. */
  lemma LatestOfStepSame(rows: seq<WorkoutRow>)
    requires |rows| > 0 && LatestAgrees(rows[..|rows| - 1], rows[|rows| - 1].exerciseId)
    ensures LatestAgrees(rows, rows[|rows| - 1].exerciseId)
  {
    var n := |rows| - 1;
    var init := rows[..n];
    var w := rows[n];
    var e := w.exerciseId;
    var m := LatestOf(init);
    var cur := Get(m, e);
    LatestOfAscending(init);
    PutGet(m, e, w.id);
    if cur.None? {
      assert forall i :: 0 <= i < n ==> init[i].exerciseId != e;
      FirstNonZeroNone(init, e);
      assert Get(LatestOf(rows), e) == Some(w.id);
    } else if cur.value == 0 {
      assert Get(LatestOf(rows), e) == Some(w.id);
    } else {
      assert Get(LatestOf(rows), e) == cur;
    }
  }

  /**
   * An exercise has an entry iff some row is about it, and the entry is the
   * first non-zero workout id of that exercise (0 if every one is 0).
   */
  lemma {:induction false} LatestOfSpec(rows: seq<WorkoutRow>, e: int)
    ensures Get(LatestOf(rows), e).None? <==> forall i :: 0 <= i < |rows| ==> rows[i].exerciseId != e
    ensures Get(LatestOf(rows), e).Some? ==> Get(LatestOf(rows), e).value == FirstNonZero(rows, e)
    decreases |rows|
  {
    if |rows| > 0 {
      LatestOfSpec(rows[..|rows| - 1], e);
      if rows[|rows| - 1].exerciseId == e {
        LatestOfStepSame(rows);
      } else {
        LatestOfStepOther(rows, e);
      }
    }
  }

  /** Given rows newest first with non-zero ids, the newest row of each exercise is the one kept. */
  lemma {:induction false} FirstNonZeroIsFirst(rows: seq<WorkoutRow>, e: int, i: nat)
    requires i < |rows| && rows[i].exerciseId == e && rows[i].id != 0
    requires forall j :: 0 <= j < i && rows[j].exerciseId == e ==> rows[j].id == 0
    ensures FirstNonZero(rows, e) == rows[i].id
    decreases |rows|
  {
    var init := rows[..|rows| - 1];
    if i == |rows| - 1 {
      FirstNonZeroNone(init, e);
    } else {
      FirstNonZeroIsFirst(init, e, i);
    }
  }

  lemma {:induction false} FirstNonZeroNone(rows: seq<WorkoutRow>, e: int)
    requires forall j :: 0 <= j < |rows| && rows[j].exerciseId == e ==> rows[j].id == 0
    ensures FirstNonZero(rows, e) == 0
    decreases |rows|
  {
    if |rows| > 0 {
      FirstNonZeroNone(rows[..|rows| - 1], e);
    }
  }

  /** A workout with id 0 does not count as stored: a later, older workout replaces it. */
  lemma ZeroIdIsReplaced()
    ensures Get(LatestOf([WorkoutRow(0, 5), WorkoutRow(9, 5)]), 5) == Some(9)
  {
    var rows := [WorkoutRow(0, 5), WorkoutRow(9, 5)];
    assert rows[..1] == [WorkoutRow(0, 5)];
    assert [WorkoutRow(0, 5)][..0] == [];
    PutGet([], 5, 0);
    PutGet([(5, 0)], 5, 9);
  }

  /** The `forEach` that builds `latestWorkoutPerExercise`. */
  method LatestWorkoutPerExercise(rows: seq<WorkoutRow>) returns (latest: seq<(int, int)>)
    ensures latest == LatestOf(rows)
  {
    latest := [];
    var i := 0;
    while i < |rows|
      invariant 0 <= i <= |rows| && latest == LatestOf(rows[..i])
    {
      var w := rows[i];
      var cur := Get(latest, w.exerciseId);
      if cur.None? || cur.value == 0 {
        latest := Put(latest, w.exerciseId, w.id);
      }
      assert rows[..i + 1][..i] == rows[..i];
      i := i + 1;
    }
    assert rows[..i] == rows;
  }

  /** `workoutToExercise`: the entries of `latest` in key order, each writing `[workoutId] = exerciseId`. */
  function InverseOf(latest: seq<(int, int)>): map<int, int>
    decreases |latest|
  {
    if |latest| == 0 then map[]
    else InverseOf(latest[..|latest| - 1])[latest[|latest| - 1].1 := latest[|latest| - 1].0]
  }

  /**
   * Every chosen workout maps back to an exercise that chose it; when two
   * exercises chose the same workout the larger exercise id, written last,
   * wins.
   */
  lemma {:induction false} InverseOfSpec(latest: seq<(int, int)>)
    requires Ascending(latest)
    ensures forall w :: w in InverseOf(latest) <==> w in Values(latest)
    ensures forall w :: w in InverseOf(latest) ==>
      Get(latest, InverseOf(latest)[w]) == Some(w)
      && forall j :: 0 <= j < |latest| && latest[j].1 == w ==> latest[j].0 <= InverseOf(latest)[w]
    decreases |latest|
  {
    if |latest| > 0 {
      var n := |latest| - 1;
      var init := latest[..n];
      InverseOfSpec(init);
      assert forall j :: 0 <= j < n ==> init[j] == latest[j];
      assert forall w :: w in Values(latest) <==> w in Values(init) || w == latest[n].1;
      GetEntry(latest, n);
      forall w | w in InverseOf(latest)
        ensures Get(latest, InverseOf(latest)[w]) == Some(w)
      {
        if w != latest[n].1 {
          var e := InverseOf(init)[w];
          var j :| 0 <= j < |init| && init[j] == (e, w);
          GetEntry(latest, j);
        }
      }
    }
  }

  /** The `forEach` over `Object.entries(latestWorkoutPerExercise)`. */
  method WorkoutToExercise(latest: seq<(int, int)>) returns (inv: map<int, int>)
    ensures inv == InverseOf(latest)
  {
    inv := map[];
    var i := 0;
    while i < |latest|
      invariant 0 <= i <= |latest| && inv == InverseOf(latest[..i])
    {
      inv := inv[latest[i].1 := latest[i].0];
      assert latest[..i + 1][..i] == latest[..i];
      i := i + 1;
    }
    assert latest[..i] == latest;
  }

  /** A row of the `workout_sets` reply, by ascending set number. */
  datatype SetRow = SetRow(workoutId: int, setNumber: int, weight: Option<string>)

  /** `workoutToExercise[set.workout_id]`, 0 standing for both `undefined` and 0. */
  function Owner(inv: map<int, int>, s: SetRow): int {
    if s.workoutId in inv then inv[s.workoutId] else 0
  }

  function AsWorkoutSet(s: SetRow): WorkoutSet {
    WorkoutSet(s.setNumber, s.weight)
  }

  /** The sets whose workout maps to exercise `e`, in reply order. */
  function SetsOf(inv: map<int, int>, sets: seq<SetRow>, e: int): seq<WorkoutSet>
    decreases |sets|
  {
    if |sets| == 0 then []
    else SetsOf(inv, sets[..|sets| - 1], e)
         + (if Owner(inv, sets[|sets| - 1]) == e then [AsWorkoutSet(sets[|sets| - 1])] else [])
  }

  /** The sets of workout `w`, in reply order. */
  function SetsOfWorkout(sets: seq<SetRow>, w: int): seq<WorkoutSet>
    decreases |sets|
  {
    if |sets| == 0 then []
    else SetsOfWorkout(sets[..|sets| - 1], w)
         + (if sets[|sets| - 1].workoutId == w then [AsWorkoutSet(sets[|sets| - 1])] else [])
  }

  /** `weightsByExercise` after the `forEach` over `allSets`; a set whose owner is falsy is skipped. */
  function Attributed(inv: map<int, int>, sets: seq<SetRow>): map<int, seq<WorkoutSet>>
    decreases |sets|
  {
    if |sets| == 0 then map[]
    else
      var grouped := Attributed(inv, sets[..|sets| - 1]);
      var s := sets[|sets| - 1];
      var e := Owner(inv, s);
      if e == 0 then grouped
      else grouped[e := (if e in grouped then grouped[e] else []) + [AsWorkoutSet(s)]]
  }

  /** Each exercise with a set gets the list of its sets, in reply order; exercise 0 and unknown workouts get none. */
  lemma {:induction false} AttributedSpec(inv: map<int, int>, sets: seq<SetRow>)
    ensures forall e :: e in Attributed(inv, sets) <==> e != 0 && exists k :: 0 <= k < |sets| && Owner(inv, sets[k]) == e
    ensures forall e :: e in Attributed(inv, sets) ==> Attributed(inv, sets)[e] == SetsOf(inv, sets, e)
    decreases |sets|
  {
    if |sets| > 0 {
      var n := |sets| - 1;
      var init := sets[..n];
      AttributedSpec(inv, init);
      assert forall k :: 0 <= k < n ==> init[k] == sets[k];
      forall e | e != 0 && e !in Attributed(inv, init) && e in Attributed(inv, sets)
        ensures SetsOf(inv, init, e) == []
      {
        SetsOfEmpty(inv, init, e);
      }
    }
  }

  lemma {:induction false} SetsOfEmpty(inv: map<int, int>, sets: seq<SetRow>, e: int)
    requires forall k :: 0 <= k < |sets| ==> Owner(inv, sets[k]) != e
    ensures SetsOf(inv, sets, e) == []
    decreases |sets|
  {
    if |sets| > 0 {
      SetsOfEmpty(inv, sets[..|sets| - 1], e);
    }
  }

  /** Two filters that select the same rows give the same sets. */
  lemma {:induction false} SetsOfIsSetsOfWorkout(inv: map<int, int>, sets: seq<SetRow>, e: int, w: int)
    requires forall k :: 0 <= k < |sets| ==> (Owner(inv, sets[k]) == e <==> sets[k].workoutId == w)
    ensures SetsOf(inv, sets, e) == SetsOfWorkout(sets, w)
    decreases |sets|
  {
    if |sets| > 0 {
      SetsOfIsSetsOfWorkout(inv, sets[..|sets| - 1], e, w);
    }
  }

  predicate DistinctValues(o: seq<(int, int)>) {
    forall i, j :: 0 <= i < |o| && 0 <= j < |o| && o[i].1 == o[j].1 ==> i == j
  }

  /**
   * When no two exercises chose the same workout, the sets attributed to an
   * exercise with a non-zero id are exactly the sets of its chosen workout,
   * in reply order; sets of any other workout are dropped.
   */
  lemma ChosenWorkoutSets(latest: seq<(int, int)>, sets: seq<SetRow>, e: int, w: int)
    requires Ascending(latest) && DistinctValues(latest)
    requires e != 0 && Get(latest, e) == Some(w)
    ensures SetsOf(InverseOf(latest), sets, e) == SetsOfWorkout(sets, w)
  {
    var inv := InverseOf(latest);
    InverseOfSpec(latest);
    var je :| 0 <= je < |latest| && latest[je] == (e, w);
    assert w in Values(latest);
    forall k | 0 <= k < |sets|
      ensures Owner(inv, sets[k]) == e <==> sets[k].workoutId == w
    {
      var x := sets[k].workoutId;
      if x in inv && inv[x] == e {
        assert Get(latest, e) == Some(x);
      }
      if x == w {
        var f := inv[w];
        var jf :| 0 <= jf < |latest| && latest[jf] == (f, w);
        assert jf == je;
      }
    }
    SetsOfIsSetsOfWorkout(inv, sets, e, w);
  }

  /** The `forEach` over `allSets` that fills `weightsByExercise`. */
  method AttributeSets(inv: map<int, int>, sets: seq<SetRow>) returns (grouped: map<int, seq<WorkoutSet>>)
    ensures grouped == Attributed(inv, sets)
  {
    grouped := map[];
    var i := 0;
    while i < |sets|
      invariant 0 <= i <= |sets| && grouped == Attributed(inv, sets[..i])
    {
      var s := sets[i];
      var e := if s.workoutId in inv then inv[s.workoutId] else 0;
      if e != 0 {
        if e !in grouped {
          grouped := grouped[e := []];
        }
        grouped := grouped[e := grouped[e] + [WorkoutSet(s.setNumber, s.weight)]];
      }
      assert sets[..i + 1][..i] == sets[..i];
      i := i + 1;
    }
    assert sets[..i] == sets;
  }

  // ----- Tabs -----

  /** `groupExercises.filter((ex) => completed.includes(ex.id)).length` */
  function CompletedInGroup(exs: seq<Exercise>, completed: seq<int>): (n: nat)
    ensures n <= |exs|
    decreases |exs|
  {
    if |exs| == 0 then 0
    else (if exs[0].id in completed then 1 else 0) + CompletedInGroup(exs[1..], completed)
  }

  predicate AllCompleted(exs: seq<Exercise>, completed: seq<int>) {
    |exs| > 0 && CompletedInGroup(exs, completed) == |exs|
  }

  /** A tab shows as completed iff it has exercises and every one of them is in `completed`. */
  lemma {:induction false} AllCompletedSpec(exs: seq<Exercise>, completed: seq<int>)
    ensures AllCompleted(exs, completed) <==> |exs| > 0 && forall i :: 0 <= i < |exs| ==> exs[i].id in completed
    ensures CompletedInGroup(exs, completed) == 0 <==> forall i :: 0 <= i < |exs| ==> exs[i].id !in completed
    decreases |exs|
  {
    if |exs| > 0 {
      AllCompletedSpec(exs[1..], completed);
      AllCompletedTail(exs, completed);
      assert forall i :: 1 <= i < |exs| ==> exs[i] == exs[1..][i - 1];
    }
  }

  lemma {:induction false} AllCompletedTail(exs: seq<Exercise>, completed: seq<int>)
    requires |exs| > 0
    ensures CompletedInGroup(exs, completed) == |exs| <==>
      exs[0].id in completed && CompletedInGroup(exs[1..], completed) == |exs| - 1
  {
  }

  // ----- The dashboard -----

  const AlreadyDone := "Allerede registrert i dag! Bra jobba."
  const SaveFailedPrefix := "Klarte ikke lagre: "

  datatype WorkoutModal = WorkoutModal(exercise: Exercise, last: seq<WorkoutSet>)

  /** The earlier sets a dialog shows: fetched only for exercises measured in kg. */
  function LastFor(ex: Exercise, fetched: seq<WorkoutSet>): seq<WorkoutSet> {
    if ex.weightUnit == "kg" then fetched else []
  }

  /** The `workout_sets` rows one save inserts. */
  function SetRows(workoutId: int, entries: seq<(int, string)>): (r: seq<SetRow>)
    ensures |r| == |entries|
    ensures forall i :: 0 <= i < |entries| ==> r[i] == SetRow(workoutId, entries[i].0, Some(entries[i].1))
  {
    seq(|entries|, i requires 0 <= i < |entries| => SetRow(workoutId, entries[i].0, Some(entries[i].1)))
  }

  /** The sets one save records as the exercise's last weights. */
  function SavedSets(entries: seq<(int, string)>): (r: seq<WorkoutSet>)
    ensures |r| == |entries|
    ensures forall i :: 0 <= i < |entries| ==> r[i] == WorkoutSet(entries[i].0, Some(entries[i].1))
  {
    seq(|entries|, i requires 0 <= i < |entries| => WorkoutSet(entries[i].0, Some(entries[i].1)))
  }

  class Dashboard {
    var completed: seq<int>
    var exerciseGroups: seq<Group>
    var selectedGroupId: Option<int>
    var modal: Option<WorkoutModal>
    var weights: seq<(int, string)>
    var lastWeights: map<int, seq<WorkoutSet>>
    var workoutTable: seq<WorkoutRow>
    var setTable: seq<SetRow>

    predicate Valid()
      reads this
    {
      Ascending(weights)
    }

    constructor(workoutTable: seq<WorkoutRow>, setTable: seq<SetRow>)
      ensures Valid()
      ensures completed == [] && exerciseGroups == [] && selectedGroupId == None && modal == None
      ensures weights == [] && lastWeights == map[]
      ensures this.workoutTable == workoutTable && this.setTable == setTable
    {
      completed := [];
      exerciseGroups := [];
      selectedGroupId := None;
      modal := None;
      weights := [];
      lastWeights := map[];
      this.workoutTable := workoutTable;
      this.setTable := setTable;
    }

    /** `fetchTodaysWorkouts`: the exercise ids of today's workouts; a failed query changes nothing. */
    method LoadToday(reply: Option<seq<int>>)
      modifies this`completed
      ensures completed == if reply.Some? then reply.value else old(completed)
    {
      if reply.Some? {
        completed := reply.value;
      }
    }

    /**
     * `fetchExerciseGroups`: store the loaded groups and, when nothing is
     * selected yet, select the first group (or the fallback group 0).
     */
    method Load(groupsReply: Option<seq<Group>>, fallbackReply: Option<seq<Exercise>>)
      modifies this`exerciseGroups, this`selectedGroupId
      ensures var r := LoadedGroups(groupsReply, fallbackReply);
        exerciseGroups == if r.Some? then r.value else old(exerciseGroups)
      ensures selectedGroupId ==
        if old(selectedGroupId).Some? then old(selectedGroupId)
        else if groupsReply.Some? && |groupsReply.value| > 0 then Some(groupsReply.value[0].id)
        else if groupsReply.Some? && fallbackReply.Some? && |fallbackReply.value| > 0 then Some(0)
        else None
    {
      var r := LoadedGroups(groupsReply, fallbackReply);
      if r.Some? {
        exerciseGroups := r.value;
      }
      if groupsReply.Some? && |groupsReply.value| > 0 {
        if selectedGroupId.None? {
          selectedGroupId := Some(exerciseGroups[0].id);
        }
      } else if groupsReply.Some? && fallbackReply.Some? && |fallbackReply.value| > 0 {
        if selectedGroupId.None? {
          selectedGroupId := Some(0);
        }
      }
    }

    /**
     * `toggleExercise(ex)`: an exercise already done today only alerts;
     * otherwise the dialog opens with the earlier sets (fetched for kg
     * exercises only) and the weights prefilled from them by position.
     */
    method Toggle(ex: Exercise, fetched: seq<WorkoutSet>) returns (alert: Option<string>)
      modifies this`modal, this`weights
      ensures Valid()
      ensures ex.id in completed ==> alert == Some(AlreadyDone) && modal == old(modal) && weights == old(weights)
      ensures ex.id !in completed ==>
        alert.None? && modal == Some(WorkoutModal(ex, LastFor(ex, fetched)))
        && (forall k :: Get(weights, k).Some? <==> 1 <= k <= NumSets(ex.sets))
        && (forall k :: 1 <= k <= NumSets(ex.sets) ==> Get(weights, k) == Some(PrefillWeight(LastFor(ex, fetched), k)))
      requires Valid()
    {
      if ex.id in completed {
        return Some(AlreadyDone);
      }
      var last := LastFor(ex, fetched);
      modal := Some(WorkoutModal(ex, last));
      weights := InitialWeights(ex.sets, last);
      return None;
    }

    /** The weight input of set `setNum`: `{ ...workoutWeights, [setNum]: value }`. */
    method SetWeight(setNum: int, value: string)
      requires Valid()
      modifies this`weights
      ensures Valid()
      ensures Get(weights, setNum) == Some(value)
      ensures forall k :: k != setNum ==> Get(weights, k) == Get(old(weights), k)
    {
      PutAscending(weights, setNum, value);
      PutGet(weights, setNum, value);
      weights := Put(weights, setNum, value);
    }

    /** `handleCopyLastWeights`: nothing without a dialog or earlier sets; otherwise the weights become the earlier ones. */
    method CopyLastWeights()
      requires Valid()
      modifies this`weights
      ensures Valid()
      ensures modal.None? || |modal.value.last| == 0 ==> weights == old(weights)
      ensures modal.Some? && |modal.value.last| > 0 ==>
        (forall k :: Get(weights, k).Some? <==> 1 <= k <= |modal.value.last|)
        && forall k :: 1 <= k <= |modal.value.last| ==> Get(weights, k) == Some(WeightText(modal.value.last[k - 1]))
    {
      if modal.None? || |modal.value.last| == 0 {
        return;
      }
      weights := CopiedWeights(modal.value.last);
    }

    /** `handleCloseWorkoutModal` */
    method CloseModal()
      modifies this`modal, this`weights
      ensures Valid() && modal.None? && weights == []
    {
      modal := None;
      weights := [];
    }

    /**
     * `saveWorkoutWithSets(exerciseId, workoutWeights)`: insert the workout,
     * then one set row per non-empty weight (when there are any); any error
     * alerts and leaves the dialog open. On success the exercise is done,
     * the dialog closes and, when the dialog had weights, the saved sets
     * become the exercise's last weights.
     */
    method SaveWorkout(exerciseId: int, workoutError: Option<string>, newWorkoutId: int, setsError: Option<string>)
      returns (alert: Option<string>)
      requires Valid()
      modifies this`workoutTable, this`setTable, this`completed, this`modal, this`weights, this`lastWeights
      ensures Valid()
      ensures workoutError.Some? ==>
        alert == Some(SaveFailedPrefix + workoutError.value) && unchanged(this)
      ensures workoutError.None? ==> workoutTable == old(workoutTable) + [WorkoutRow(newWorkoutId, exerciseId)]
      ensures var entries := NonEmptyEntries(old(weights));
        workoutError.None? && |old(weights)| > 0 && |entries| > 0 && setsError.Some? ==>
          alert == Some(SaveFailedPrefix + setsError.value)
          && setTable == old(setTable) && completed == old(completed) && modal == old(modal)
          && weights == old(weights) && lastWeights == old(lastWeights)
      ensures var entries := NonEmptyEntries(old(weights));
        workoutError.None? && (|old(weights)| == 0 || |entries| == 0 || setsError.None?) ==>
          alert.None?
          && setTable == old(setTable) + (if |old(weights)| > 0 then SetRows(newWorkoutId, entries) else [])
          && completed == old(completed) + [exerciseId] && modal.None? && weights == []
          && lastWeights == if |old(weights)| > 0 then old(lastWeights)[exerciseId := SavedSets(entries)] else old(lastWeights)
    {
      if workoutError.Some? {
        return Some(SaveFailedPrefix + workoutError.value);
      }
      workoutTable := workoutTable + [WorkoutRow(newWorkoutId, exerciseId)];
      var entries := NonEmptyEntries(weights);
      var hadWeights := |weights| > 0;
      if hadWeights && |entries| > 0 {
        if setsError.Some? {
          return Some(SaveFailedPrefix + setsError.value);
        }
        setTable := setTable + SetRows(newWorkoutId, entries);
      }
      completed := completed + [exerciseId];
      modal := None;
      weights := [];
      if hadWeights {
        lastWeights := lastWeights[exerciseId := SavedSets(entries)];
      }
      return None;
    }

    /**
     * `fetchAllLastWeights`: with kg exercises, their workouts before today
     * (newest first) and the sets of the chosen workouts, the last weights
     * become the sets attributed per exercise; any early return or error
     * leaves them as they were.
     */
    method LoadLastWeights(workoutsReply: Option<seq<WorkoutRow>>, setsReply: Option<seq<SetRow>>)
      modifies this`lastWeights
      ensures var stop := |KgIds(exerciseGroups)| == 0 || workoutsReply.None? || |workoutsReply.value| == 0
                          || |LatestOf(workoutsReply.value)| == 0 || setsReply.None?;
        lastWeights == if stop then old(lastWeights)
                       else Attributed(InverseOf(LatestOf(workoutsReply.value)), setsReply.value)
    {
      var kg := KgExerciseIds(exerciseGroups);
      if |kg| == 0 {
        return;
      }
      if workoutsReply.None? || |workoutsReply.value| == 0 {
        return;
      }
      var latest := LatestWorkoutPerExercise(workoutsReply.value);
      if |latest| == 0 {
        return;
      }
      if setsReply.None? {
        return;
      }
      var inv := WorkoutToExercise(latest);
      lastWeights := AttributeSets(inv, setsReply.value);
    }
  }

  /** The early return on an empty `workoutIds` never happens once some workout was fetched. */
  lemma LatestOfNonEmpty(rows: seq<WorkoutRow>)
    requires |rows| > 0
    ensures |LatestOf(rows)| > 0
  {
    LatestOfSpec(rows, rows[0].exerciseId);
  }
}
