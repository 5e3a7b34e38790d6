/**
 * Rows of the `exercises` table as the exercise builder reads and writes them,
 * and the adjacent-swap reordering of `handleMoveUp` / `handleMoveDown`. The
 * two versions of the builder (Admin.tsx and Admin.jsx) share this code
 * unchanged.
 *
 * A handler reads the locally fetched list of the selected group (`list`) to
 * find the neighbour, and then issues two writes against the backend table
 * (`table`): `update({order}).eq("id", ...)` for the moved row and then for
 * the neighbour. The writes are modelled as one step each.
 */
module ExerciseOrder {
  import opened Js

  datatype Exercise = Exercise(
    id: int,
    title: string,
    description: string,
    order: int,
    active: bool,
    groupId: int,
    sets: int,
    reps: Option<int>,
    weightUnit: string)

  function Orders(rows: seq<Exercise>): (r: seq<int>)
    ensures |r| == |rows| && forall i :: 0 <= i < |rows| ==> r[i] == rows[i].order
  {
    seq(|rows|, i requires 0 <= i < |rows| => rows[i].order)
  }

  predicate UniqueIds(rows: seq<Exercise>) {
    forall i, j :: 0 <= i < |rows| && 0 <= j < |rows| && rows[i].id == rows[j].id ==> i == j
  }

  /** The position of `rows.find(ex => ex.order === k)`: the first row whose order is `k`. */
  function FindOrder(rows: seq<Exercise>, k: int): (r: Option<nat>)
    ensures r.Some? ==> r.value < |rows| && rows[r.value].order == k
                        && forall j :: 0 <= j < r.value ==> rows[j].order != k
    ensures r.None? <==> forall j :: 0 <= j < |rows| ==> rows[j].order != k
    decreases |rows|
  {
    if |rows| == 0 then None
    else if rows[0].order == k then Some(0)
    else match FindOrder(rows[1..], k)
      case None => None
      case Some(i) => Some(i + 1)
  }

  /** `Math.max(...rows.map(ex => ex.order))`; None stands for the -Infinity of an empty list. */
  function MaxOrder(rows: seq<Exercise>): (r: Option<int>)
    ensures r.None? <==> |rows| == 0
    ensures r.Some? ==> (exists i :: 0 <= i < |rows| && rows[i].order == r.value)
                        && forall i :: 0 <= i < |rows| ==> rows[i].order <= r.value
    decreases |rows|
  {
    if |rows| == 0 then None
    else match MaxOrder(rows[1..])
      case None => Some(rows[0].order)
      case Some(m) =>
        assert forall i :: 1 <= i < |rows| ==> rows[i] == rows[1..][i - 1];
        Some(if rows[0].order >= m then rows[0].order else m)
  }

  /** `update({ order: o }).eq("id", id)`: every row with that id gets order `o`. */
  function SetOrder(table: seq<Exercise>, id: int, o: int): (r: seq<Exercise>)
    ensures |r| == |table|
    ensures forall i :: 0 <= i < |table| ==>
      r[i] == if table[i].id == id then table[i].(order := o) else table[i]
  {
    seq(|table|, i requires 0 <= i < |table| => if table[i].id == id then table[i].(order := o) else table[i])
  }

  /**
   * Look up the row of `list` whose order is `target`; if there is one, write
   * `target` to row `id` and then `current` to the row found.
   */
  function SwapWith(list: seq<Exercise>, table: seq<Exercise>, id: int, current: int, target: int): seq<Exercise> {
    match FindOrder(list, target)
    case None => table
    case Some(p) => SetOrder(SetOrder(table, id, target), list[p].id, current)
  }

  /** The end state of `handleMoveUp(id, currentOrder)`. */
  function MoveUp(list: seq<Exercise>, table: seq<Exercise>, id: int, current: int): seq<Exercise> {
    if current <= 1 then table else SwapWith(list, table, id, current, current - 1)
  }

  /** The end state of `handleMoveDown(id, currentOrder)`. */
  function MoveDown(list: seq<Exercise>, table: seq<Exercise>, id: int, current: int): seq<Exercise> {
    match MaxOrder(list)
    case None => table
    case Some(m) => if current >= m then table else SwapWith(list, table, id, current, current + 1)
  }

  /** Moving up does nothing at the top (order 1 or less) or when no row of the list holds the order above. */
  lemma MoveUpNoOp(list: seq<Exercise>, table: seq<Exercise>, id: int, current: int)
    requires current <= 1 || forall j :: 0 <= j < |list| ==> list[j].order != current - 1
    ensures MoveUp(list, table, id, current) == table
  {
  }

  /** Moving down does nothing when the list is empty, at the maximum order, or when no row holds the order below. */
  lemma MoveDownNoOp(list: seq<Exercise>, table: seq<Exercise>, id: int, current: int)
    requires MaxOrder(list).None? || current >= MaxOrder(list).value
             || forall j :: 0 <= j < |list| ==> list[j].order != current + 1
    ensures MoveDown(list, table, id, current) == table
  {
  }

  /**
   * The maximum-order guard of `handleMoveDown` never decides anything: when a
   * row with order `current + 1` exists, `current` is below the maximum.
   */
  lemma MoveDownGuardRedundant(list: seq<Exercise>, table: seq<Exercise>, id: int, current: int)
    ensures MoveDown(list, table, id, current) == SwapWith(list, table, id, current, current + 1)
  {
    match FindOrder(list, current + 1)
    case None =>
    case Some(p) =>
      assert MaxOrder(list).Some? && list[p].order <= MaxOrder(list).value;
  }

  lemma MultisetSwap(s: seq<int>, j: int, q: int)
    requires 0 <= j < |s| && 0 <= q < |s| && j != q
    ensures multiset(s[j := s[q]][q := s[j]]) == multiset(s)
  {
    var t := s[j := s[q]];
    assert multiset(t) == multiset(s) - multiset{s[j]} + multiset{s[q]};
    assert t[q] == s[q];
    assert multiset(t[q := s[j]]) == multiset(t) - multiset{s[q]} + multiset{s[j]};
  }

  /**
   * When the list agrees with the table (row `id` is at position `j` with order
   * `current`, and the neighbour that `find` picks is at position `q` with order
   * `target`), the two writes swap exactly those two order values: no other row
   * and no other field changes, so the multiset of order values is preserved.
   */
  lemma SwapWithSwaps(list: seq<Exercise>, table: seq<Exercise>, id: int, current: int, target: int, j: nat, q: nat)
    requires UniqueIds(table) && current != target
    requires FindOrder(list, target).Some?
    requires j < |table| && table[j].id == id && table[j].order == current
    requires q < |table| && table[q].id == list[FindOrder(list, target).value].id && table[q].order == target
    ensures var r := SwapWith(list, table, id, current, target);
      |r| == |table|
      && r[j] == table[j].(order := target)
      && r[q] == table[q].(order := current)
      && (forall i :: 0 <= i < |table| && i != j && i != q ==> r[i] == table[i])
      && Orders(r) == Orders(table)[j := target][q := current]
      && multiset(Orders(r)) == multiset(Orders(table))
  {
    var r := SwapWith(list, table, id, current, target);
    assert j != q;
    var o := Orders(table);
    assert Orders(r) == o[j := target][q := current];
    MultisetSwap(o, j, q);
  }

  /** A move up that is not a no-op swaps the orders of the moved row and the row above. */
  lemma MoveUpSwaps(list: seq<Exercise>, table: seq<Exercise>, id: int, current: int, j: nat, q: nat)
    requires UniqueIds(table) && current > 1
    requires FindOrder(list, current - 1).Some?
    requires j < |table| && table[j].id == id && table[j].order == current
    requires q < |table| && table[q].id == list[FindOrder(list, current - 1).value].id && table[q].order == current - 1
    ensures var r := MoveUp(list, table, id, current);
      |r| == |table|
      && r[j].order == current - 1 && r[q].order == current
      && (forall i :: 0 <= i < |table| && i != j && i != q ==> r[i] == table[i])
      && multiset(Orders(r)) == multiset(Orders(table))
  {
    SwapWithSwaps(list, table, id, current, current - 1, j, q);
  }

  /** A move down that is not a no-op is the mirror image: the orders of the moved row and the row below swap. */
  lemma MoveDownSwaps(list: seq<Exercise>, table: seq<Exercise>, id: int, current: int, j: nat, q: nat)
    requires UniqueIds(table)
    requires FindOrder(list, current + 1).Some?
    requires j < |table| && table[j].id == id && table[j].order == current
    requires q < |table| && table[q].id == list[FindOrder(list, current + 1).value].id && table[q].order == current + 1
    ensures var r := MoveDown(list, table, id, current);
      |r| == |table|
      && r[j].order == current + 1 && r[q].order == current
      && (forall i :: 0 <= i < |table| && i != j && i != q ==> r[i] == table[i])
      && multiset(Orders(r)) == multiset(Orders(table))
  {
    MoveDownGuardRedundant(list, table, id, current);
    SwapWithSwaps(list, table, id, current, current + 1, j, q);
  }
}
