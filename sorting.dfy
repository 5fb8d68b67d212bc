/**
 * Python's `sorted(xs, key=..., reverse=...)` and `list.sort`: a stable sort, modelled as
 * insertion sort by a strict "comes before" relation on elements.
 */
module Sorting {

  /** `before` never holds both ways, as for `key(a) > key(b)` or `key(a) < key(b)`. */
  ghost predicate Asymmetric<T(!new)>(before: (T, T) -> bool) {
    forall a, b :: before(a, b) ==> !before(b, a)
  }

  /** No element comes strictly before its predecessor. */
  predicate InOrder<T>(s: seq<T>, before: (T, T) -> bool) {
    forall i :: 0 < i < |s| ==> !before(s[i], s[i - 1])
  }

  /** Inserts `x` in front of the first element it comes strictly before. */
  function Insert<T>(x: T, s: seq<T>, before: (T, T) -> bool): (r: seq<T>)
    ensures |r| == |s| + 1
  {
    if s == [] then [x]
    else if before(x, s[0]) then [x] + s
    else [s[0]] + Insert(x, s[1..], before)
  }

  /** Stable sort: elements that tie keep their input order. */
  function SortBy<T>(s: seq<T>, before: (T, T) -> bool): (r: seq<T>)
    ensures |r| == |s|
  {
    if s == [] then [] else Insert(s[|s| - 1], SortBy(s[..|s| - 1], before), before)
  }

  lemma {:induction false} InsertPermutes<T>(x: T, s: seq<T>, before: (T, T) -> bool)
    ensures multiset(Insert(x, s, before)) == multiset(s) + multiset{x}
    decreases |s|
  {
    if s != [] && !before(x, s[0]) {
      InsertPermutes(x, s[1..], before);
      assert s == [s[0]] + s[1..];
    }
  }

  lemma {:induction false} InsertInOrder<T(!new)>(x: T, s: seq<T>, before: (T, T) -> bool)
    requires Asymmetric(before)
    requires InOrder(s, before)
    ensures InOrder(Insert(x, s, before), before)
    ensures s != [] ==> Insert(x, s, before)[0] == x || Insert(x, s, before)[0] == s[0]
    decreases |s|
  {
    if s != [] && !before(x, s[0]) {
      InsertInOrder(x, s[1..], before);
    }
  }

  /** Sorting only reorders its input. */
  lemma {:induction false} SortByPermutes<T>(s: seq<T>, before: (T, T) -> bool)
    ensures multiset(SortBy(s, before)) == multiset(s)
    decreases |s|
  {
    if s != [] {
      SortByPermutes(s[..|s| - 1], before);
      InsertPermutes(s[|s| - 1], SortBy(s[..|s| - 1], before), before);
      assert s == s[..|s| - 1] + [s[|s| - 1]];
    }
  }

  /** Sorting puts no element after one it comes strictly before. */
  lemma {:induction false} SortByInOrder<T(!new)>(s: seq<T>, before: (T, T) -> bool)
    requires Asymmetric(before)
    ensures InOrder(SortBy(s, before), before)
    decreases |s|
  {
    if s != [] {
      SortByInOrder(s[..|s| - 1], before);
      InsertInOrder(s[|s| - 1], SortBy(s[..|s| - 1], before), before);
    }
  }

  /** `sorted(s, key=key, reverse=True)`: highest key first, ties in input order. */
  function SortDesc<T>(s: seq<T>, key: T -> real): (r: seq<T>)
    ensures |r| == |s|
  {
    SortBy(s, (a: T, b: T) => key(a) > key(b))
  }

  /** The descending sort is a permutation whose keys never increase. */
  lemma SortDescSpec<T(!new)>(s: seq<T>, key: T -> real)
    ensures multiset(SortDesc(s, key)) == multiset(s)
    ensures forall i, j :: 0 <= i < j < |s| ==> key(SortDesc(s, key)[i]) >= key(SortDesc(s, key)[j])
  {
    var before := (a: T, b: T) => key(a) > key(b);
    SortByPermutes(s, before);
    SortByInOrder(s, before);
    var r := SortBy(s, before);
    forall i, j | 0 <= i < j < |s| ensures key(r[i]) >= key(r[j]) {
      AdjacentToPairwise(r, key, i, j);
    }
  }

  lemma {:induction false} AdjacentToPairwise<T>(r: seq<T>, key: T -> real, i: nat, j: nat)
    requires i <= j < |r|
    requires forall k :: 0 < k < |r| ==> key(r[k]) <= key(r[k - 1])
    ensures key(r[i]) >= key(r[j])
    decreases j - i
  {
    if i < j {
      AdjacentToPairwise(r, key, i, j - 1);
    }
  }
}
