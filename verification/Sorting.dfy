/** Sorting as the source's library calls leave it: ascending, with the same elements. */
module Sorting {
  ghost predicate Ascending(a: seq<real>) {
    forall i, j :: 0 <= i < j < |a| ==> a[i] <= a[j]
  }

  function Insert(x: real, a: seq<real>): (r: seq<real>)
    requires Ascending(a)
    ensures Ascending(r)
    ensures multiset(r) == multiset(a) + multiset{x}
    ensures |r| == |a| + 1
    ensures r[0] == x || (a != [] && r[0] == a[0])
  {
    if a == [] || x <= a[0] then
      InsertedFirst(x, a);
      [x] + a
    else
      TailAscends(a);
      var rest := Insert(x, a[1..]);
      InsertedLater(x, a, rest);
      [a[0]] + rest
  }

  /** What an insertion leaves. */
  ghost predicate Inserted(x: real, a: seq<real>, r: seq<real>) {
    && Ascending(r) && multiset(r) == multiset(a) + multiset{x}
    && |r| == |a| + 1 && (r[0] == x || (a != [] && r[0] == a[0]))
  }

  lemma InsertedFirst(x: real, a: seq<real>)
    requires Ascending(a) && (a != [] ==> x <= a[0])
    ensures Inserted(x, a, [x] + a)
  {
  }

  lemma TailAscends(a: seq<real>)
    requires Ascending(a) && a != []
    ensures Ascending(a[1..]) && forall k :: 0 <= k < |a| - 1 ==> a[0] <= a[1..][k]
  {
  }

  lemma InsertedLater(x: real, a: seq<real>, rest: seq<real>)
    requires Ascending(a) && a != [] && a[0] < x && Inserted(x, a[1..], rest)
    ensures Inserted(x, a, [a[0]] + rest)
  {
    TailAscends(a);
    assert a == [a[0]] + a[1..];
    Prepend(a[0], rest);
  }

  lemma Prepend(x: real, a: seq<real>)
    requires Ascending(a) && (a != [] ==> x <= a[0])
    ensures Ascending([x] + a)
  {
  }

  function Sorted(a: seq<real>): (r: seq<real>)
    ensures Ascending(r)
    ensures multiset(r) == multiset(a)
    ensures |r| == |a|
  {
    if a == [] then [] else
      assert a == [a[0]] + a[1..];
      Insert(a[0], Sorted(a[1..]))
  }

  // ---------- ranks ----------

  function CountAtMost(a: seq<real>, x: real): (r: nat)
    ensures r <= |a|
  {
    if a == [] then 0 else (if a[0] <= x then 1 else 0) + CountAtMost(a[1..], x)
  }

  lemma {:induction false} CountOfInsert(x: real, a: seq<real>, y: real)
    requires Ascending(a)
    ensures CountAtMost(Insert(x, a), y) == CountAtMost(a, y) + (if x <= y then 1 else 0)
  {
    if a == [] || x <= a[0] {
      assert ([x] + a)[1..] == a;
    } else {
      CountOfInsert(x, a[1..], y);
      assert ([a[0]] + Insert(x, a[1..]))[1..] == Insert(x, a[1..]);
    }
  }

  lemma {:induction false} CountOfSorted(a: seq<real>, y: real)
    ensures CountAtMost(Sorted(a), y) == CountAtMost(a, y)
  {
    if a != [] {
      CountOfSorted(a[1..], y);
      CountOfInsert(a[0], Sorted(a[1..]), y);
    }
  }

  /** In an ascending sequence the element at `k` is at most `y` when more than `k` elements are, and only then. */
  lemma {:induction false} CountPlaces(a: seq<real>, k: nat, y: real)
    requires Ascending(a) && k < |a|
    ensures a[k] <= y <==> CountAtMost(a, y) > k
  {
    if k > 0 {
      CountPlaces(a[1..], k - 1, y);
      assert a[0] <= a[k];
    } else if y < a[0] {
      NoneAtMost(a, y);
    }
  }

  lemma {:induction false} NoneAtMost(a: seq<real>, y: real)
    requires forall i :: 0 <= i < |a| ==> y < a[i]
    ensures CountAtMost(a, y) == 0
  {
    if a != [] {
      NoneAtMost(a[1..], y);
    }
  }

  /** The element at a place of the sorted values is at most `y` exactly when more values than the place are. */
  lemma PlaceOfSorted(a: seq<real>, k: nat, y: real)
    requires k < |a|
    ensures Sorted(a)[k] <= y <==> CountAtMost(a, y) > k
  {
    hide Sorted, CountAtMost;
    CountOfSorted(a, y);
    CountPlaces(Sorted(a), k, y);
  }
}
