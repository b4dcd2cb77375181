/** The stable sort of the source language, and what callers may rely on. */
module Sorting {
  /** A strict order in which items may tie: what a sort key gives. */
  ghost predicate StrictOrder<T(!new)>(before: (T, T) -> bool) {
    (forall a, b :: before(a, b) ==> !before(b, a)) &&
    (forall a, b, c :: before(a, c) ==> before(a, b) || before(b, c))
  }

  function Insert<T>(before: (T, T) -> bool, x: T, sorted: seq<T>): seq<T> {
    if sorted == [] || !before(sorted[0], x) then [x] + sorted
    else [sorted[0]] + Insert(before, x, sorted[1..])
  }

  function Sort<T>(before: (T, T) -> bool, items: seq<T>): seq<T> {
    if items == [] then [] else Insert(before, items[0], Sort(before, items[1..]))
  }

  /** No item stands behind one that comes after it. */
  ghost predicate Ordered<T>(before: (T, T) -> bool, items: seq<T>) {
    forall i, j :: 0 <= i < j < |items| ==> !before(items[j], items[i])
  }

  /** The items that tie with `a`, in their order. */
  function Ties<T>(before: (T, T) -> bool, a: T, items: seq<T>): seq<T> {
    if items == [] then []
    else if before(a, items[0]) || before(items[0], a) then Ties(before, a, items[1..])
    else [items[0]] + Ties(before, a, items[1..])
  }

  lemma {:induction false} InsertKeepsItems<T>(before: (T, T) -> bool, x: T, sorted: seq<T>)
    ensures multiset(Insert(before, x, sorted)) == multiset(sorted) + multiset{x}
  {
    if sorted == [] {
    } else {
      assert sorted == [sorted[0]] + sorted[1..];
      InsertKeepsItems(before, x, sorted[1..]);
    }
  }

  lemma {:induction false} SortKeepsItems<T>(before: (T, T) -> bool, items: seq<T>)
    ensures multiset(Sort(before, items)) == multiset(items)
    ensures |Sort(before, items)| == |items|
    ensures forall x :: x in Sort(before, items) <==> x in items
  {
    if items == [] {
    } else {
      assert items == [items[0]] + items[1..];
      SortKeepsItems(before, items[1..]);
      InsertKeepsItems(before, items[0], Sort(before, items[1..]));
    }
    assert |multiset(Sort(before, items))| == |multiset(items)|;
    forall x
      ensures x in Sort(before, items) <==> x in items
    {
      assert x in multiset(Sort(before, items)) <==> x in multiset(items);
    }
  }

  lemma {:induction false} InsertOrders<T(!new)>(before: (T, T) -> bool, x: T, sorted: seq<T>)
    requires StrictOrder(before) && Ordered(before, sorted)
    ensures Ordered(before, Insert(before, x, sorted))
  {
    if sorted == [] {
    } else {
      var head, tail := sorted[0], sorted[1..];
      if before(head, x) {
        InsertOrders(before, x, tail);
        InsertKeepsItems(before, x, tail);
        var rest := Insert(before, x, tail);
        forall j | 0 <= j < |rest|
          ensures !before(rest[j], head)
        {
          assert rest[j] in multiset(rest);
          if rest[j] != x {
            var k :| 0 <= k < |tail| && tail[k] == rest[j];
            assert sorted[k + 1] == rest[j];
          }
        }
      } else {
        forall j | 0 <= j < |sorted|
          ensures !before(sorted[j], x)
        {
          assert j > 0 ==> !before(sorted[j], head);
        }
      }
    }
  }

  lemma {:induction false} SortOrders<T(!new)>(before: (T, T) -> bool, items: seq<T>)
    requires StrictOrder(before)
    ensures Ordered(before, Sort(before, items))
  {
    if items == [] {
    } else {
      SortOrders(before, items[1..]);
      InsertOrders(before, items[0], Sort(before, items[1..]));
    }
  }

  lemma {:induction false} InsertIsStable<T(!new)>(before: (T, T) -> bool, x: T, sorted: seq<T>, a: T)
    requires StrictOrder(before)
    ensures Ties(before, a, Insert(before, x, sorted)) == Ties(before, a, [x] + sorted)
  {
    if sorted == [] || !before(sorted[0], x) {
    } else {
      var tail := sorted[1..];
      InsertIsStable(before, x, tail, a);
      assert ([x] + tail)[1..] == tail && ([x] + sorted)[1..] == sorted;
      assert Insert(before, x, sorted)[1..] == Insert(before, x, tail);
    }
  }

  /** Items that tie keep their order. */
  lemma {:induction false} SortIsStable<T(!new)>(before: (T, T) -> bool, items: seq<T>, a: T)
    requires StrictOrder(before)
    ensures Ties(before, a, Sort(before, items)) == Ties(before, a, items)
  {
    if items == [] {
    } else {
      SortIsStable(before, items[1..], a);
      InsertIsStable(before, items[0], Sort(before, items[1..]), a);
      assert ([items[0]] + Sort(before, items[1..]))[1..] == Sort(before, items[1..]);
    }
  }

  /** Sorting what is in order already changes nothing. */
  lemma {:induction false} SortKeepsOrdered<T>(before: (T, T) -> bool, items: seq<T>)
    requires Ordered(before, items)
    ensures Sort(before, items) == items
  {
    if items == [] {
    } else {
      SortKeepsOrdered(before, items[1..]);
      assert |items| > 1 ==> !before(items[1], items[0]);
    }
  }

  /** Cutting a sorted list off drops nothing that belongs before an item it keeps. */
  lemma SortedPrefix<T(!new)>(before: (T, T) -> bool, items: seq<T>, k: nat, i: nat, y: T)
    requires StrictOrder(before) && i < k <= |Sort(before, items)|
    requires y in items && y !in Sort(before, items)[..k]
    ensures !before(y, Sort(before, items)[i])
  {
    var sorted := Sort(before, items);
    SortKeepsItems(before, items);
    SortOrders(before, items);
    var j :| 0 <= j < |sorted| && sorted[j] == y;
    assert forall l :: 0 <= l < k ==> sorted[l] in sorted[..k];
  }

  lemma InsertInFront<T>(before: (T, T) -> bool, x: T, sorted: seq<T>)
    requires forall y :: y in sorted ==> !before(y, x)
    ensures Insert(before, x, sorted) == [x] + sorted
  {
    assert sorted != [] ==> sorted[0] in sorted;
  }

  lemma {:induction false} InsertPast<T>(before: (T, T) -> bool, x: T, a: seq<T>, b: seq<T>)
    requires forall y :: y in a ==> before(y, x)
    ensures Insert(before, x, a + b) == a + Insert(before, x, b)
  {
    if a == [] {
      assert a + b == b;
    } else {
      assert a[0] in a && forall y :: y in a[1..] ==> y in a;
      assert (a + b)[1..] == a[1..] + b;
      InsertPast(before, x, a[1..], b);
    }
  }
}
