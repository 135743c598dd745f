/**
 * `Array.prototype.sort` with a comparator, which ECMAScript requires to be
 * stable: modelled as an insertion sort that places each element after every
 * earlier element it does not compare below.
 */
module Sorting {

  /** `cmp` behaves like a comparator of a total preorder: its sign is antisymmetric and `<= 0` is transitive. */
  ghost predicate IsPreorder<T(!new)>(cmp: (T, T) -> int) {
    && (forall a, b :: cmp(a, b) >= 0 ==> cmp(b, a) <= 0)
    && (forall a, b, c :: cmp(a, b) <= 0 && cmp(b, c) <= 0 ==> cmp(a, c) <= 0)
  }

  /** No element is ordered after a later one. */
  ghost predicate SortedBy<T>(s: seq<T>, cmp: (T, T) -> int) {
    forall i, j :: 0 <= i < j < |s| ==> cmp(s[i], s[j]) <= 0
  }

  /** Put `x` in front of the first element that it compares strictly below. */
  function Insert<T>(x: T, s: seq<T>, cmp: (T, T) -> int): (r: seq<T>)
    ensures |r| == |s| + 1
  {
    if |s| == 0 then [x]
    else if cmp(x, s[0]) < 0 then [x] + s
    else [s[0]] + Insert(x, s[1..], cmp)
  }

  /** The stable sort of `s` under `cmp`. */
  function Sort<T>(s: seq<T>, cmp: (T, T) -> int): (r: seq<T>)
    ensures |r| == |s|
  {
    if |s| == 0 then [] else Insert(s[|s| - 1], Sort(s[..|s| - 1], cmp), cmp)
  }

  lemma {:induction false} InsertPermutes<T>(x: T, s: seq<T>, cmp: (T, T) -> int)
    ensures multiset(Insert(x, s, cmp)) == multiset(s) + multiset{x}
  {
    if |s| > 0 && cmp(x, s[0]) >= 0 {
      InsertPermutes(x, s[1..], cmp);
      assert s == [s[0]] + s[1..];
    }
  }

  /** Sorting only reorders: the result holds the same elements, as often. */
  lemma {:induction false} SortPermutes<T>(s: seq<T>, cmp: (T, T) -> int)
    ensures multiset(Sort(s, cmp)) == multiset(s)
  {
    if |s| > 0 {
      SortPermutes(s[..|s| - 1], cmp);
      InsertPermutes(s[|s| - 1], Sort(s[..|s| - 1], cmp), cmp);
      assert s == s[..|s| - 1] + [s[|s| - 1]];
    }
  }

  lemma {:induction false} InsertMembers<T>(x: T, s: seq<T>, cmp: (T, T) -> int)
    ensures forall j :: 0 <= j < |Insert(x, s, cmp)| ==>
      Insert(x, s, cmp)[j] == x || Insert(x, s, cmp)[j] in s
  {
    if |s| > 0 && cmp(x, s[0]) >= 0 {
      InsertMembers(x, s[1..], cmp);
    }
  }

  lemma InsertSortedFront<T(!new)>(x: T, s: seq<T>, cmp: (T, T) -> int)
    requires IsPreorder(cmp)
    requires SortedBy(s, cmp)
    requires |s| > 0 && cmp(x, s[0]) < 0
    ensures SortedBy([x] + s, cmp)
  {
    var r := [x] + s;
    forall i, j | 0 <= i < j < |r|
      ensures cmp(r[i], r[j]) <= 0
    {
      if i == 0 && j > 1 {
        assert cmp(s[0], s[j - 1]) <= 0;
      }
    }
  }

  lemma {:induction false} InsertSorted<T(!new)>(x: T, s: seq<T>, cmp: (T, T) -> int)
    requires IsPreorder(cmp)
    requires SortedBy(s, cmp)
    ensures SortedBy(Insert(x, s, cmp), cmp)
  {
    if |s| > 0 {
      if cmp(x, s[0]) < 0 {
        InsertSortedFront(x, s, cmp);
      } else {
        InsertSorted(x, s[1..], cmp);
        var t := Insert(x, s[1..], cmp);
        InsertMembers(x, s[1..], cmp);
        assert cmp(s[0], x) <= 0;
        assert forall j :: 0 <= j < |t| ==> cmp(s[0], t[j]) <= 0;
        assert Insert(x, s, cmp) == [s[0]] + t;
      }
    }
  }

  /** Under a preorder comparator the result is ordered. */
  lemma {:induction false} SortSorted<T(!new)>(s: seq<T>, cmp: (T, T) -> int)
    requires IsPreorder(cmp)
    ensures SortedBy(Sort(s, cmp), cmp)
  {
    if |s| > 0 {
      SortSorted(s[..|s| - 1], cmp);
      InsertSorted(s[|s| - 1], Sort(s[..|s| - 1], cmp), cmp);
    }
  }

  lemma {:induction false} InsertAppends<T>(x: T, s: seq<T>, cmp: (T, T) -> int)
    requires forall i :: 0 <= i < |s| ==> cmp(x, s[i]) >= 0
    ensures Insert(x, s, cmp) == s + [x]
  {
    if |s| > 0 {
      InsertAppends(x, s[1..], cmp);
      assert s == [s[0]] + s[1..];
    }
  }

  /** A comparator that never answers "before" leaves the order as it was. */
  lemma {:induction false} SortKeepsOrderWhenNothingPrecedes<T>(s: seq<T>, cmp: (T, T) -> int)
    requires forall i, j :: 0 <= i < |s| && 0 <= j < |s| ==> cmp(s[i], s[j]) >= 0
    ensures Sort(s, cmp) == s
  {
    if |s| > 0 {
      var p := s[..|s| - 1];
      SortKeepsOrderWhenNothingPrecedes(p, cmp);
      InsertAppends(s[|s| - 1], p, cmp);
      assert p + [s[|s| - 1]] == s;
    }
  }
}
