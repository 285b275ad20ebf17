/** The stable sort of JavaScript's `Array.prototype.sort` by a numeric key, as insertion from the back. */
module StableSort {

  /** An element goes after every earlier one whose key is not greater. */
  function Insert<T>(x: T, sorted: seq<T>, key: T -> int): (r: seq<T>)
    ensures multiset(r) == multiset(sorted) + multiset{x}
  {
    if sorted == [] then [x]
    else
      var last := sorted[|sorted| - 1];
      var front := sorted[..|sorted| - 1];
      assert sorted == front + [last];
      if key(last) <= key(x) then sorted + [x] else Insert(x, front, key) + [last]
  }

  function Sort<T>(s: seq<T>, key: T -> int): (r: seq<T>)
    ensures multiset(r) == multiset(s)
  {
    if s == [] then []
    else
      assert s == s[..|s| - 1] + [s[|s| - 1]];
      Insert(s[|s| - 1], Sort(s[..|s| - 1], key), key)
  }

  predicate Ordered<T>(s: seq<T>, key: T -> int) {
    forall i, j :: 0 <= i < j < |s| ==> key(s[i]) <= key(s[j])
  }

  ghost predicate NoDup<T>(s: seq<T>) {
    forall i, j :: 0 <= i < j < |s| ==> s[i] != s[j]
  }

  lemma {:induction false} InsertedBelow<T>(x: T, sorted: seq<T>, key: T -> int, bound: int)
    requires key(x) <= bound && forall i :: 0 <= i < |sorted| ==> key(sorted[i]) <= bound
    ensures forall i :: 0 <= i < |Insert(x, sorted, key)| ==> key(Insert(x, sorted, key)[i]) <= bound
  {
    if sorted != [] {
      InsertedBelow(x, sorted[..|sorted| - 1], key, bound);
    }
  }

  lemma {:induction false} InsertOrdered<T>(x: T, sorted: seq<T>, key: T -> int)
    requires Ordered(sorted, key)
    ensures Ordered(Insert(x, sorted, key), key)
  {
    if sorted != [] {
      var last := sorted[|sorted| - 1];
      var front := sorted[..|sorted| - 1];
      if key(last) > key(x) {
        InsertOrdered(x, front, key);
        InsertedBelow(x, front, key, key(last));
      }
    }
  }

  /** Sorting orders by key. */
  lemma {:induction false} SortOrdered<T>(s: seq<T>, key: T -> int)
    ensures Ordered(Sort(s, key), key)
  {
    if s != [] {
      hide Ordered;
      SortOrdered(s[..|s| - 1], key);
      InsertOrdered(s[|s| - 1], Sort(s[..|s| - 1], key), key);
    }
  }

  lemma LastGoesLast<T>(front: seq<T>, last: T, key: T -> int)
    requires Ordered(front + [last], key)
    ensures Insert(last, front, key) == front + [last]
  {
    if front != [] {
      assert (front + [last])[|front| - 1] == front[|front| - 1];
      assert (front + [last])[|front|] == last;
    }
  }

  /** Stability at work: what is already in order stays as it is. */
  lemma {:induction false} SortKeepsOrdered<T>(s: seq<T>, key: T -> int)
    requires Ordered(s, key)
    ensures Sort(s, key) == s
  {
    if s != [] {
      var front, last := s[..|s| - 1], s[|s| - 1];
      assert s == front + [last];
      SortKeepsOrdered(front, key);
      hide Ordered, Insert;
      LastGoesLast(front, last, key);
    }
  }

  lemma SameMembers<T>(a: seq<T>, b: seq<T>)
    requires multiset(a) == multiset(b)
    ensures |a| == |b| && forall x :: x in a <==> x in b
  {
    assert |a| == |multiset(a)| == |multiset(b)| == |b|;
    assert forall x :: x in a <==> x in multiset(a);
    assert forall x :: x in b <==> x in multiset(b);
  }

  lemma SortMembers<T>(s: seq<T>, key: T -> int)
    ensures |Sort(s, key)| == |s| && forall x :: x in Sort(s, key) <==> x in s
  {
    SameMembers(Sort(s, key), s);
  }

  lemma {:induction false} NoDupIffOnce<T>(s: seq<T>)
    ensures NoDup(s) <==> forall x :: multiset(s)[x] <= 1
  {
    if s != [] {
      var front, last := s[..|s| - 1], s[|s| - 1];
      assert s == front + [last];
      NoDupIffOnce(front);
      if last in front {
        assert multiset(s)[last] >= 2;
        var i :| 0 <= i < |front| && front[i] == last;
        assert s[i] == s[|front|];
      } else {
        assert multiset(front)[last] == 0;
        assert forall x :: x != last ==> multiset(s)[x] == multiset(front)[x];
        assert forall i :: 0 <= i < |front| ==> s[i] == front[i] && s[i] in front;
      }
    }
  }

  lemma SortNoDup<T>(s: seq<T>, key: T -> int)
    requires NoDup(s)
    ensures NoDup(Sort(s, key))
  {
    NoDupIffOnce(s);
    NoDupIffOnce(Sort(s, key));
  }

  /** The elements with one key, in their order. */
  function WithKey<T>(s: seq<T>, key: T -> int, k: int): seq<T> {
    if s == [] then []
    else WithKey(s[..|s| - 1], key, k) + if key(s[|s| - 1]) == k then [s[|s| - 1]] else []
  }

  lemma WithKeyAppend<T>(front: seq<T>, last: T, key: T -> int, k: int)
    ensures WithKey(front + [last], key, k) == WithKey(front, key, k) + if key(last) == k then [last] else []
  {
    assert (front + [last])[..|front|] == front;
  }

  lemma {:induction false} InsertGoesLast<T>(x: T, sorted: seq<T>, key: T -> int, k: int)
    ensures WithKey(Insert(x, sorted, key), key, k) == WithKey(sorted, key, k) + if key(x) == k then [x] else []
  {
    if sorted == [] {
      WithKeyAppend([], x, key, k);
      assert [] + [x] == [x];
    } else {
      var front, last := sorted[..|sorted| - 1], sorted[|sorted| - 1];
      assert sorted == front + [last];
      if key(last) <= key(x) {
        WithKeyAppend(sorted, x, key, k);
      } else {
        InsertGoesLast(x, front, key, k);
        WithKeyAppend(Insert(x, front, key), last, key, k);
        WithKeyAppend(front, last, key, k);
      }
    }
  }

  /** The sort is stable: elements with the same key keep their order. */
  lemma {:induction false} SortStable<T>(s: seq<T>, key: T -> int, k: int)
    ensures WithKey(Sort(s, key), key, k) == WithKey(s, key, k)
  {
    if s != [] {
      SortStable(s[..|s| - 1], key, k);
      InsertGoesLast(s[|s| - 1], Sort(s[..|s| - 1], key), key, k);
    }
  }
}
