/** Insertion sort under a caller-supplied ordering. It stands for Python's `sorted(..., key=...)`
    (country names) and for the database's `ORDER BY ... DESC` (watchlist `added_at`). */
module Sorting {

  /** `before(a, b)`: a may come before b. A total preorder: every pair is comparable
      and the relation is transitive. */
  ghost predicate TotalPreorder<T(!new)>(before: (T, T) -> bool)
  {
    && (forall a, b :: before(a, b) || before(b, a))
    && (forall a, b, c :: before(a, b) && before(b, c) ==> before(a, c))
  }

  ghost predicate SortedBy<T>(s: seq<T>, before: (T, T) -> bool)
  {
    forall i, j :: 0 <= i < j < |s| ==> before(s[i], s[j])
  }

  /** Puts x after every element that may come before it, so equal keys keep their order. */
  function Insert<T>(x: T, s: seq<T>, before: (T, T) -> bool): (r: seq<T>)
    ensures multiset(r) == multiset(s) + multiset{x}
    ensures |r| == |s| + 1
    decreases |s|
  {
    if s == [] then [x]
    else if before(s[0], x) then
      assert s == [s[0]] + s[1..];
      [s[0]] + Insert(x, s[1..], before)
    else [x] + s
  }

  function SortBy<T>(s: seq<T>, before: (T, T) -> bool): (r: seq<T>)
    ensures multiset(r) == multiset(s)
    ensures |r| == |s|
    decreases |s|
  {
    if s == [] then []
    else
      assert s == s[..|s| - 1] + [s[|s| - 1]];
      Insert(s[|s| - 1], SortBy(s[..|s| - 1], before), before)
  }

  /** Every element of the result is the inserted one or an element of s. */
  lemma InsertElements<T>(x: T, s: seq<T>, before: (T, T) -> bool, k: nat)
    requires k < |Insert(x, s, before)|
    ensures Insert(x, s, before)[k] == x || Insert(x, s, before)[k] in s
  {
    var r := Insert(x, s, before);
    assert r[k] in multiset(r);
  }

  lemma {:induction false} InsertSorted<T(!new)>(x: T, s: seq<T>, before: (T, T) -> bool)
    requires TotalPreorder(before)
    requires SortedBy(s, before)
    ensures SortedBy(Insert(x, s, before), before)
    decreases |s|
  {
    var r := Insert(x, s, before);
    if s == [] {
    } else if before(s[0], x) {
      var tail := s[1..];
      assert SortedBy(tail, before) by {
        forall i, j | 0 <= i < j < |tail| ensures before(tail[i], tail[j]) {
          assert tail[i] == s[i + 1] && tail[j] == s[j + 1];
        }
      }
      InsertSorted(x, tail, before);
      var t := Insert(x, tail, before);
      assert r == [s[0]] + t;
      forall i, j | 0 <= i < j < |r| ensures before(r[i], r[j]) {
        assert r[j] == t[j - 1];
        if i == 0 {
          InsertElements(x, tail, before, j - 1);
          if t[j - 1] != x {
            var m :| 0 <= m < |tail| && tail[m] == t[j - 1];
            assert s[m + 1] == t[j - 1];
          }
        } else {
          assert r[i] == t[i - 1];
        }
      }
    } else {
      assert before(x, s[0]);
      assert r == [x] + s;
      forall i, j | 0 <= i < j < |r| ensures before(r[i], r[j]) {
        assert r[j] == s[j - 1];
        if i == 0 {
          assert before(s[0], s[j - 1]) || j - 1 == 0;
        } else {
          assert r[i] == s[i - 1];
        }
      }
    }
  }

  /** The result is ordered (it is a permutation by SortBy's own contract). */
  lemma {:induction false} SortBySorted<T(!new)>(s: seq<T>, before: (T, T) -> bool)
    requires TotalPreorder(before)
    ensures SortedBy(SortBy(s, before), before)
    decreases |s|
  {
    if s != [] {
      SortBySorted(s[..|s| - 1], before);
      InsertSorted(s[|s| - 1], SortBy(s[..|s| - 1], before), before);
    }
  }
}
