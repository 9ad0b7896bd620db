/**
 * A stable sort by a "may come before" relation. It stands for MongoDB's
 * `.sort(...)` on a query and for `Array.prototype.sort` with a comparator,
 * both of which order by a total preorder on their keys.
 */
module Sorting {

  /** Any two elements are comparable. */
  ghost predicate Total<T(!new)>(before: (T, T) -> bool) {
    forall a, b :: before(a, b) || before(b, a)
  }

  /** `before` is total and transitive: a comparator that never contradicts itself. */
  ghost predicate TotalPreorder<T(!new)>(before: (T, T) -> bool) {
    && Total(before)
    && (forall a, b, c :: before(a, b) && before(b, c) ==> before(a, c))
  }

  predicate SortedBy<T>(s: seq<T>, before: (T, T) -> bool) {
    forall i, j :: 0 <= i < j < |s| ==> before(s[i], s[j])
  }

  /** Puts `x` in front of the first element it may come before. */
  function Insert<T>(x: T, s: seq<T>, before: (T, T) -> bool): (r: seq<T>)
    ensures multiset(r) == multiset(s) + multiset{x}
    ensures |r| == |s| + 1
  {
    if s == [] then [x]
    else if before(x, s[0]) then [x] + s
    else
      assert s == [s[0]] + s[1..];
      [s[0]] + Insert(x, s[1..], before)
  }

  /** Insertion sort; an element never overtakes an earlier one it may come before. */
  function Sort<T>(s: seq<T>, before: (T, T) -> bool): (r: seq<T>)
    ensures multiset(r) == multiset(s)
    ensures |r| == |s|
  {
    if s == [] then []
    else
      assert s == [s[0]] + s[1..];
      Insert(s[0], Sort(s[1..], before), before)
  }

  /** Every element of `Insert(x, s, before)` is `x` or an element of `s`. */
  lemma InsertFrom<T>(x: T, s: seq<T>, before: (T, T) -> bool)
    ensures forall y :: y in Insert(x, s, before) ==> y == x || y in s
  {
    var r := Insert(x, s, before);
    forall y | y in r ensures y == x || y in s {
      assert y in multiset(r);
    }
  }

  /** In a sorted sequence the first element may come before every later one. */
  lemma HeadFirst<T>(s: seq<T>, before: (T, T) -> bool)
    requires s != [] && SortedBy(s, before)
    ensures SortedBy(s[1..], before)
    ensures forall y :: y in s[1..] ==> before(s[0], y)
  {
    var tail := s[1..];
    forall i, j | 0 <= i < j < |tail| ensures before(tail[i], tail[j]) {
      assert tail[i] == s[i + 1] && tail[j] == s[j + 1];
    }
    forall y | y in tail ensures before(s[0], y) {
      var m :| 0 <= m < |tail| && tail[m] == y;
      assert s[m + 1] == y;
    }
  }

  /** An element that may come before the head of a sorted sequence can be put in front. */
  lemma PrependSorted<T(!new)>(x: T, s: seq<T>, before: (T, T) -> bool)
    requires TotalPreorder(before) && SortedBy(s, before)
    requires s != [] && before(x, s[0])
    ensures SortedBy([x] + s, before)
  {
    var r := [x] + s;
    forall i, j | 0 <= i < j < |r| ensures before(r[i], r[j]) {
      if i == 0 {
        assert r[j] == s[j - 1];
        assert j - 1 == 0 || before(s[0], s[j - 1]);
      } else {
        assert r[i] == s[i - 1] && r[j] == s[j - 1];
      }
    }
  }

  /** The head stays in front when `x` goes into the tail. */
  lemma InsertBehindHead<T(!new)>(x: T, s: seq<T>, before: (T, T) -> bool)
    requires Total(before) && SortedBy(s, before)
    requires s != [] && !before(x, s[0])
    requires SortedBy(Insert(x, s[1..], before), before)
    ensures SortedBy(Insert(x, s, before), before)
  {
    var tail := s[1..];
    HeadFirst(s, before);
    var ins := Insert(x, tail, before);
    InsertFrom(x, tail, before);
    assert before(s[0], x);
    var r := Insert(x, s, before);
    assert r == [s[0]] + ins;
    forall i, j | 0 <= i < j < |r| ensures before(r[i], r[j]) {
      if i == 0 {
        assert r[j] == ins[j - 1] && ins[j - 1] in ins;
      } else {
        assert r[i] == ins[i - 1] && r[j] == ins[j - 1];
      }
    }
  }

  lemma {:induction false} InsertSorted<T(!new)>(x: T, s: seq<T>, before: (T, T) -> bool)
    requires TotalPreorder(before)
    requires SortedBy(s, before)
    ensures SortedBy(Insert(x, s, before), before)
    decreases |s|
  {
    if s != [] {
      if before(x, s[0]) {
        PrependSorted(x, s, before);
      } else {
        HeadFirst(s, before);
        InsertSorted(x, s[1..], before);
        InsertBehindHead(x, s, before);
      }
    }
  }

  /** `Sort` orders its result by `before` whenever `before` is a total preorder. */
  lemma {:induction false} SortSorted<T(!new)>(s: seq<T>, before: (T, T) -> bool)
    requires TotalPreorder(before)
    ensures SortedBy(Sort(s, before), before)
    decreases |s|
  {
    if s != [] {
      SortSorted(s[1..], before);
      InsertSorted(s[0], Sort(s[1..], before), before);
    }
  }

  /** An element is in the sorted sequence exactly when it is in the input. */
  lemma SortMembers<T>(s: seq<T>, before: (T, T) -> bool)
    ensures forall x :: x in Sort(s, before) <==> x in s
  {
    var r := Sort(s, before);
    forall x ensures x in r <==> x in s {
      assert x in r <==> x in multiset(r);
      assert x in s <==> x in multiset(s);
    }
  }
}
