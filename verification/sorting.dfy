/** Python's `list.sort(key=..., reverse=...)` as a value-level function.
    Python's sort is stable, also with `reverse=True`: elements whose keys
    compare equal keep their original relative order.  The ordering is given
    as a relation `before(a, b)`: "a may stand before b in the result"
    (`key(a) <= key(b)` for an ascending sort, `key(a) >= key(b)` for a
    descending one).  Stability comes from inserting each element in front
    of the first later element it may precede. */
module Sorting {

  /** `before` is a total preorder: any two elements are comparable and the
      relation is transitive. */
  ghost predicate TotalPreorder<T(!new)>(before: (T, T) -> bool)
  {
    && (forall a, b :: before(a, b) || before(b, a))
    && (forall a, b, c :: before(a, b) && before(b, c) ==> before(a, c))
  }

  /** Every element may stand before every element after it. */
  ghost predicate Sorted<T>(s: seq<T>, before: (T, T) -> bool)
  {
    forall i, j :: 0 <= i < j < |s| ==> before(s[i], s[j])
  }

  /** Places `x`, which came earlier in the input than all of `t`, in front of
      the first element of `t` it may precede. */
  function Insert<T>(x: T, t: seq<T>, before: (T, T) -> bool): (r: seq<T>)
    ensures |r| == |t| + 1
    ensures multiset(r) == multiset(t) + multiset{x}
  {
    if t == [] || before(x, t[0]) then [x] + t
    else
      assert t == [t[0]] + t[1..];
      [t[0]] + Insert(x, t[1..], before)
  }

  /** Stable sort of `s` by `before`. */
  function SortBy<T>(s: seq<T>, before: (T, T) -> bool): seq<T>
  {
    if s == [] then [] else Insert(s[0], SortBy(s[1..], before), before)
  }

  /** Sorting keeps the length and the elements: the result is a permutation. */
  lemma {:induction false} SortByPermutation<T>(s: seq<T>, before: (T, T) -> bool)
    ensures |SortBy(s, before)| == |s|
    ensures multiset(SortBy(s, before)) == multiset(s)
  {
    if s != [] {
      SortByPermutation(s[1..], before);
      assert s == [s[0]] + s[1..];
    }
  }

  lemma {:induction false} InsertSorted<T(!new)>(x: T, t: seq<T>, before: (T, T) -> bool)
    requires TotalPreorder(before)
    requires Sorted(t, before)
    ensures Sorted(Insert(x, t, before), before)
  {
    if t == [] || before(x, t[0]) {
      var r := [x] + t;
      forall i, j | 0 <= i < j < |r| ensures before(r[i], r[j]) {
        if i > 0 {
          assert r[i] == t[i - 1] && r[j] == t[j - 1];
        } else if j > 1 {
          assert before(x, t[0]) && before(t[0], t[j - 1]);
        }
      }
    } else {
      var rest := Insert(x, t[1..], before);
      InsertSorted(x, t[1..], before);
      assert before(t[0], x);
      forall e | e in rest ensures before(t[0], e) {
        assert e in multiset(rest);
        assert e == x || e in multiset(t[1..]);
        if e != x {
          var k :| 0 <= k < |t[1..]| && t[1..][k] == e;
          assert t[k + 1] == e;
        }
      }
      var r := [t[0]] + rest;
      forall i, j | 0 <= i < j < |r| ensures before(r[i], r[j]) {
        if i > 0 {
          assert r[i] == rest[i - 1] && r[j] == rest[j - 1];
        } else {
          assert r[j] in rest;
        }
      }
    }
  }

  /** For a total preorder the result is sorted. */
  lemma {:induction false} SortBySorted<T(!new)>(s: seq<T>, before: (T, T) -> bool)
    requires TotalPreorder(before)
    ensures Sorted(SortBy(s, before), before)
  {
    if s != [] {
      SortBySorted(s[1..], before);
      InsertSorted(s[0], SortBy(s[1..], before), before);
    }
  }
}
