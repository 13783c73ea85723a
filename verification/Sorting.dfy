/** A stable sort by a comparator, and what it guarantees for any strict weak order. */
module Sorting {

  /** Places `x` behind everything it does not sort before. */
  function Insert<T>(before: (T, T) -> bool, x: T, s: seq<T>): seq<T> {
    if s == [] then [x]
    else
      var n := |s| - 1;
      if before(x, s[n]) then Insert(before, x, s[..n]) + [s[n]] else s + [x]
  }

  function Sorted<T>(before: (T, T) -> bool, s: seq<T>): seq<T> {
    if s == [] then [] else Insert(before, s[|s| - 1], Sorted(before, s[..|s| - 1]))
  }

  ghost predicate InOrder<T>(before: (T, T) -> bool, s: seq<T>) {
    forall i, j :: 0 <= i < j < |s| ==> !before(s[j], s[i])
  }

  ghost predicate StrictWeakOrder<T(!new)>(before: (T, T) -> bool) {
    && (forall a, b :: before(a, b) ==> !before(b, a))
    && (forall a, b, c :: before(a, c) ==> before(a, b) || before(b, c))
  }

  lemma NotBefore<T(!new)>(before: (T, T) -> bool, x: T, y: T, z: T)
    requires StrictWeakOrder(before) && !before(x, y) && !before(y, z)
    ensures !before(x, z)
  {
  }

  lemma {:induction false} InsertSorts<T(!new)>(before: (T, T) -> bool, x: T, s: seq<T>)
    requires StrictWeakOrder(before) && InOrder(before, s)
    ensures InOrder(before, Insert(before, x, s))
    ensures multiset(Insert(before, x, s)) == multiset(s) + multiset{x}
  {
    if s != [] {
      var n := |s| - 1;
      assert s == s[..n] + [s[n]];
      if before(x, s[n]) {
        var front := Insert(before, x, s[..n]);
        InsertSorts(before, x, s[..n]);
        forall i | 0 <= i < |front| ensures !before(s[n], front[i]) {
          assert front[i] in multiset(front);
          if front[i] != x { assert front[i] in s[..n]; }
        }
      } else {
        forall i | 0 <= i < |s| ensures !before(x, s[i]) {
          if i < n { NotBefore(before, x, s[n], s[i]); }
        }
      }
    }
  }

  lemma {:induction false} SortedSorts<T(!new)>(before: (T, T) -> bool, s: seq<T>)
    requires StrictWeakOrder(before)
    ensures InOrder(before, Sorted(before, s))
    ensures multiset(Sorted(before, s)) == multiset(s)
  {
    if s != [] {
      SortedSorts(before, s[..|s| - 1]);
      InsertSorts(before, s[|s| - 1], Sorted(before, s[..|s| - 1]));
      assert s == s[..|s| - 1] + [s[|s| - 1]];
    }
  }

  /** Sorting neither loses nor adds anything. */
  lemma SortedMembers<T(!new)>(before: (T, T) -> bool, s: seq<T>)
    requires StrictWeakOrder(before)
    ensures |Sorted(before, s)| == |s|
    ensures forall x :: x in Sorted(before, s) <==> x in s
  {
    SortedSorts(before, s);
    SameMembers(Sorted(before, s), s);
  }

  lemma SameMembers<T>(a: seq<T>, b: seq<T>)
    requires multiset(a) == multiset(b)
    ensures |a| == |b| && forall x :: x in a <==> x in b
  {
    assert |multiset(a)| == |multiset(b)|;
    forall x ensures x in a <==> x in b {
      assert x in multiset(a) <==> x in multiset(b);
    }
  }
}
