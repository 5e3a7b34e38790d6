/**
 * Plain JavaScript objects used as dictionaries with integer keys
 * (`Record<number, T>`). For keys that are array indices, `Object.keys`,
 * `Object.values` and `Object.entries` visit the keys in ascending numeric
 * order, whatever the order of insertion. An object is modelled by its
 * entries in that order.
 */
module JsObject {
  import opened Js

  predicate Ascending<V>(o: seq<(int, V)>) {
    forall i, j :: 0 <= i < j < |o| ==> o[i].0 < o[j].0
  }

  /** `Object.keys(o)`, as numbers. */
  function Keys<V>(o: seq<(int, V)>): (r: seq<int>)
    ensures |r| == |o| && forall i :: 0 <= i < |o| ==> r[i] == o[i].0
  {
    seq(|o|, i requires 0 <= i < |o| => o[i].0)
  }

  /** `Object.values(o)` */
  function Values<V>(o: seq<(int, V)>): (r: seq<V>)
    ensures |r| == |o| && forall i :: 0 <= i < |o| ==> r[i] == o[i].1
  {
    seq(|o|, i requires 0 <= i < |o| => o[i].1)
  }

  /** The position of key `k` among the entries, if it is there. */
  function Find<V>(o: seq<(int, V)>, k: int): (r: Option<nat>)
    ensures r.Some? ==> r.value < |o| && o[r.value].0 == k
                        && forall j :: 0 <= j < r.value ==> o[j].0 != k
    ensures r.None? <==> forall j :: 0 <= j < |o| ==> o[j].0 != k
    decreases |o|
  {
    if |o| == 0 then None
    else if o[0].0 == k then Some(0)
    else match Find(o[1..], k)
      case None => None
      case Some(i) => Some(i + 1)
  }

  /** `o[k]`; None stands for `undefined`. */
  function Get<V>(o: seq<(int, V)>, k: int): (r: Option<V>)
    ensures r.None? <==> forall j :: 0 <= j < |o| ==> o[j].0 != k
    ensures r.Some? ==> exists j :: 0 <= j < |o| && o[j] == (k, r.value)
  {
    match Find(o, k)
    case None => None
    case Some(i) => Some(o[i].1)
  }

  /** In an object every key occurs once, so `Get` finds the value of each entry. */
  lemma GetEntry<V>(o: seq<(int, V)>, j: nat)
    requires Ascending(o) && j < |o|
    ensures Get(o, o[j].0) == Some(o[j].1)
  {
    var i := Find(o, o[j].0).value;
    assert !(i < j) && !(j < i);
  }

  /** `o[k] = v` */
  function Put<V>(o: seq<(int, V)>, k: int, v: V): seq<(int, V)>
    decreases |o|
  {
    if |o| == 0 || k < o[0].0 then [(k, v)] + o
    else if o[0].0 == k then [(k, v)] + o[1..]
    else [o[0]] + Put(o[1..], k, v)
  }

  /** Every key after an assignment is `k` or a key that was there. */
  lemma {:induction false} PutBound<V>(o: seq<(int, V)>, k: int, v: V, b: int)
    requires b < k && forall j :: 0 <= j < |o| ==> b < o[j].0
    ensures forall j :: 0 <= j < |Put(o, k, v)| ==> b < Put(o, k, v)[j].0
    decreases |o|
  {
    if |o| > 0 && o[0].0 < k {
      PutBound(o[1..], k, v, b);
    }
  }

  /** An assignment keeps the entries in key order. */
  lemma {:induction false} PutAscending<V>(o: seq<(int, V)>, k: int, v: V)
    requires Ascending(o)
    ensures Ascending(Put(o, k, v))
    decreases |o|
  {
    if |o| > 0 && o[0].0 < k {
      var rest := Put(o[1..], k, v);
      PutAscending(o[1..], k, v);
      PutBound(o[1..], k, v, o[0].0);
      assert Put(o, k, v) == [o[0]] + rest;
    }
  }

  lemma GetCons<V>(e: (int, V), o: seq<(int, V)>, x: int)
    requires e.0 != x
    ensures Get([e] + o, x) == Get(o, x)
  {
    assert ([e] + o)[1..] == o;
    assert Find([e] + o, x) == (match Find(o, x) case None => None case Some(i) => Some(i + 1));
  }

  /** After `o[k] = v`, reading `k` gives `v` and every other key reads as before. */
  lemma {:induction false} PutGet<V>(o: seq<(int, V)>, k: int, v: V)
    requires Ascending(o)
    ensures Get(Put(o, k, v), k) == Some(v)
    ensures forall x :: x != k ==> Get(Put(o, k, v), x) == Get(o, x)
    decreases |o|
  {
    if |o| == 0 || k < o[0].0 {
      forall x | x != k
        ensures Get(Put(o, k, v), x) == Get(o, x)
      {
        GetCons((k, v), o, x);
      }
    } else if o[0].0 == k {
      assert o == [o[0]] + o[1..];
      forall x | x != k
        ensures Get(Put(o, k, v), x) == Get(o, x)
      {
        GetCons((k, v), o[1..], x);
        GetCons(o[0], o[1..], x);
      }
    } else {
      var rest := Put(o[1..], k, v);
      PutGet(o[1..], k, v);
      assert Put(o, k, v) == [o[0]] + rest;
      assert o == [o[0]] + o[1..];
      GetCons(o[0], rest, k);
      forall x | x != k
        ensures Get(Put(o, k, v), x) == Get(o, x)
      {
        if x != o[0].0 {
          GetCons(o[0], rest, x);
          GetCons(o[0], o[1..], x);
        }
      }
    }
  }

  /** Assigning a key above every key present appends the entry at the end. */
  lemma {:induction false} PutAbove<V>(o: seq<(int, V)>, k: int, v: V)
    requires forall j :: 0 <= j < |o| ==> o[j].0 < k
    ensures Put(o, k, v) == o + [(k, v)]
    decreases |o|
  {
    if |o| > 0 {
      PutAbove(o[1..], k, v);
      assert o == [o[0]] + o[1..];
    }
  }

  /** Reading an object whose keys are 1, 2, ..., n in that order. */
  lemma GetNumbered<V>(o: seq<(int, V)>, k: int)
    requires forall j :: 0 <= j < |o| ==> o[j].0 == j + 1
    ensures Get(o, k) == if 1 <= k <= |o| then Some(o[k - 1].1) else None
  {
    if 1 <= k <= |o| {
      assert o[k - 1].0 == k;
    }
  }
}
