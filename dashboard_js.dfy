/**
 * The first dashboard, `src/Dashboard.jsx`: a fixed list of five exercises
 * and the list `completed` of the exercise ids registered today.
 */
module DashboardJs {
  import opened Js

  /** The ids of the fixed exercise list. */
  const ExerciseIds: seq<int> := [1, 2, 3, 4, 5]

  const AlreadyDone := "Allerede registrert i dag! Bra jobba."
  const SaveFailedPrefix := "Klarte ikke lagre: "

  predicate NoDuplicates(s: seq<int>) {
    forall i, j :: 0 <= i < j < |s| ==> s[i] != s[j]
  }

  /** `completed` after `toggleExercise(id)` whose insert failed (`insertError`) or not. */
  function Toggled(completed: seq<int>, id: int, insertOk: bool): seq<int> {
    if id in completed || !insertOk then completed else completed + [id]
  }

  /**
   * Toggling never removes an id and never adds one twice: a list without
   * duplicates keeps none, and afterwards the id is in the list iff it was
   * before or the insert succeeded.
   */
  lemma ToggledNoDuplicates(completed: seq<int>, id: int, insertOk: bool)
    requires NoDuplicates(completed)
    ensures NoDuplicates(Toggled(completed, id, insertOk))
    ensures id in Toggled(completed, id, insertOk) <==> id in completed || insertOk
    ensures forall x :: x in completed ==> x in Toggled(completed, id, insertOk)
    ensures |Toggled(completed, id, insertOk)| <= |completed| + 1
  {
    var r := Toggled(completed, id, insertOk);
    if id !in completed && insertOk {
      forall i, j | 0 <= i < j < |r|
        ensures r[i] != r[j]
      {
        if j == |completed| {
          assert r[i] == completed[i];
        }
      }
    }
  }

  /** A list without duplicates drawn from a set has at most as many elements as the set. */
  lemma {:induction false} DistinctWithin(s: seq<int>, r: set<int>)
    requires NoDuplicates(s)
    requires forall i :: 0 <= i < |s| ==> s[i] in r
    ensures |s| <= |r|
    decreases |s|
  {
    if |s| > 0 {
      var n := |s| - 1;
      var last := s[n];
      DistinctWithin(s[..n], r - {last});
      assert |r - {last}| == |r| - 1;
    }
  }

  /**
   * When `completed` holds only ids of the fixed list and no duplicates (as
   * toggling keeps it), the progress "n av 5" never exceeds five. Loading
   * today's list does not establish the premise: it copies the exercise id of
   * every workout of the day, so two workouts of one exercise (saved from a
   * second tab, say) put a duplicate in `completed`, and the count can pass 5.
   */
  lemma ProgressAtMostFive(completed: seq<int>)
    requires NoDuplicates(completed)
    requires forall i :: 0 <= i < |completed| ==> completed[i] in ExerciseIds
    ensures |completed| <= |ExerciseIds|
  {
    DistinctWithin(completed, {1, 2, 3, 4, 5});
    assert |{1, 2, 3, 4, 5}| == 5;
  }

  /** The text under the progress bar: `${completed.length} av 5 fullført`. */
  function ProgressText(completed: seq<int>): string {
    NatToString(|completed|) + " av 5 fullført"
  }

  /** How a card shows: done (and its button disabled) iff its id is in `completed`. */
  datatype Card = Card(done: bool, disabled: bool, buttonLabel: string)

  function CardOf(completed: seq<int>, id: int): (c: Card)
    ensures c.done <==> id in completed
    ensures c.disabled == c.done
    ensures c.buttonLabel == if c.done then "Utført!" else "Marker som utført"
  {
    var done := id in completed;
    Card(done, done, if done then "Utført!" else "Marker som utført")
  }

  class TodayList {
    var completed: seq<int>

    constructor()
      ensures completed == []
    {
      completed := [];
    }

    /** `fetchTodaysWorkouts`: the ids of today's workouts; a failed query changes nothing. */
    method LoadToday(reply: Option<seq<int>>)
      modifies this
      ensures completed == if reply.Some? then reply.value else old(completed)
    {
      if reply.Some? {
        completed := reply.value;
      }
    }

    /**
     * `toggleExercise(id)`: an exercise already done only alerts; otherwise
     * the workout is inserted and, unless that fails, the id is appended.
     */
    method Toggle(id: int, insertError: Option<string>) returns (alert: Option<string>)
      modifies this
      ensures completed == Toggled(old(completed), id, insertError.None?)
      ensures id in old(completed) ==> alert == Some(AlreadyDone)
      ensures id !in old(completed) && insertError.Some? ==> alert == Some(SaveFailedPrefix + insertError.value)
      ensures id !in old(completed) && insertError.None? ==> alert.None?
    {
      if id in completed {
        return Some(AlreadyDone);
      }
      if insertError.Some? {
        return Some(SaveFailedPrefix + insertError.value);
      }
      completed := completed + [id];
      return None;
    }
  }
}
