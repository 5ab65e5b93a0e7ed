/**
 * `Array.prototype.sort(compare)`. A comparison result of `NaN` counts as 0,
 * as the language standard prescribes; the model's comparators therefore
 * return a `real`. The sort itself is a stable insertion sort: for a
 * consistent comparator its result is the one stable order the standard
 * requires, and for any comparator it is a permutation of the input.
 */
module Sorting {
  import opened Wrappers
  import Seqs

  /**
   * `x - y` returned by a comparator, where either number may be `NaN`
   * (`None`); a `NaN` result counts as 0.
   */
  function Difference(x: Option<real>, y: Option<real>): (r: real)
    ensures x.Some? && y.Some? ==> r == x.value - y.value
    ensures x.None? || y.None? ==> r == 0.0
  {
    if x.Some? && y.Some? then x.value - y.value else 0.0
  }

  /** Puts `x` before the first element it does not compare greater than. */
  function Insert<T>(cmp: (T, T) -> real, x: T, s: seq<T>): (r: seq<T>)
    ensures |r| == |s| + 1
    decreases |s|
  {
    if s == [] || cmp(x, s[0]) <= 0.0 then [x] + s else [s[0]] + Insert(cmp, x, s[1..])
  }

  function Sort<T>(cmp: (T, T) -> real, s: seq<T>): (r: seq<T>)
    ensures |r| == |s|
    decreases |s|
  {
    if s == [] then [] else Insert(cmp, s[0], Sort(cmp, s[1..]))
  }

  /** Non-decreasing in `key`, for every pair of positions. */
  ghost predicate SortedBy<T>(key: T -> real, s: seq<T>) {
    forall i, j :: 0 <= i < j < |s| ==> key(s[i]) <= key(s[j])
  }

  lemma {:induction false} InsertPermutes<T>(cmp: (T, T) -> real, x: T, s: seq<T>)
    ensures multiset(Insert(cmp, x, s)) == multiset(s) + multiset{x}
    decreases |s|
  {
    if s != [] && cmp(x, s[0]) > 0.0 {
      InsertPermutes(cmp, x, s[1..]);
      assert s == [s[0]] + s[1..];
    }
  }

  /** Whatever the comparator, the result is a rearrangement of the input. */
  lemma {:induction false} SortPermutes<T>(cmp: (T, T) -> real, s: seq<T>)
    ensures multiset(Sort(cmp, s)) == multiset(s)
    decreases |s|
  {
    if s != [] {
      SortPermutes(cmp, s[1..]);
      InsertPermutes(cmp, s[0], Sort(cmp, s[1..]));
      assert s == [s[0]] + s[1..];
    }
  }

  lemma ConsSorted<T>(key: T -> real, h: T, s: seq<T>)
    requires SortedBy(key, s)
    requires forall y :: y in s ==> key(h) <= key(y)
    ensures SortedBy(key, [h] + s)
  {
    var u := [h] + s;
    forall i, j | 0 <= i < j < |u| ensures key(u[i]) <= key(u[j]) {
      assert u[j] == s[j - 1];
      if i > 0 { assert u[i] == s[i - 1]; }
    }
  }

  lemma HeadIsLeast<T>(key: T -> real, s: seq<T>)
    requires s != [] && SortedBy(key, s)
    ensures forall y :: y in s ==> key(s[0]) <= key(y)
  {
    forall y | y in s ensures key(s[0]) <= key(y) {
      var j :| 0 <= j < |s| && s[j] == y;
      if j > 0 { assert key(s[0]) <= key(s[j]); }
    }
  }

  lemma InsertMembers<T>(cmp: (T, T) -> real, x: T, s: seq<T>)
    ensures forall y :: y in Insert(cmp, x, s) ==> y == x || y in s
  {
    InsertPermutes(cmp, x, s);
    forall y | y in Insert(cmp, x, s) ensures y == x || y in s {
      assert y in multiset(Insert(cmp, x, s));
    }
  }

  lemma {:induction false} InsertSorted<T>(cmp: (T, T) -> real, key: T -> real, x: T, s: seq<T>)
    requires forall b :: b in s ==> cmp(x, b) == key(x) - key(b)
    requires SortedBy(key, s)
    ensures SortedBy(key, Insert(cmp, x, s))
    decreases |s|
  {
    if s != [] {
      HeadIsLeast(key, s);
      if cmp(x, s[0]) > 0.0 {
        var t := s[1..];
        assert SortedBy(key, t) by {
          forall i, j | 0 <= i < j < |t| ensures key(t[i]) <= key(t[j]) {
            assert t[i] == s[i + 1] && t[j] == s[j + 1];
          }
        }
        assert forall b :: b in t ==> b in s;
        InsertSorted(cmp, key, x, t);
        InsertMembers(cmp, x, t);
        ConsSorted(key, s[0], Insert(cmp, x, t));
      } else {
        ConsSorted(key, x, s);
      }
    }
  }

  /**
   * When the comparator is the difference of a key on every pair of
   * elements, the result is non-decreasing in that key.
   */
  lemma {:induction false} SortOrdersByKey<T>(cmp: (T, T) -> real, key: T -> real, s: seq<T>)
    requires forall a, b :: a in s && b in s ==> cmp(a, b) == key(a) - key(b)
    ensures SortedBy(key, Sort(cmp, s))
    decreases |s|
  {
    if s != [] {
      var t := s[1..];
      assert forall a :: a in t ==> a in s;
      SortOrdersByKey(cmp, key, t);
      SortPermutes(cmp, t);
      var st := Sort(cmp, t);
      forall b | b in st ensures cmp(s[0], b) == key(s[0]) - key(b) {
        assert b in multiset(st);
      }
      InsertSorted(cmp, key, s[0], st);
    }
  }

  /** A comparator that ties on every pair leaves the order untouched. */
  lemma {:induction false} SortAllTies<T>(cmp: (T, T) -> real, s: seq<T>)
    requires forall a, b :: a in s && b in s ==> cmp(a, b) == 0.0
    ensures Sort(cmp, s) == s
    decreases |s|
  {
    if s != [] {
      var t := s[1..];
      assert forall a :: a in t ==> a in s;
      SortAllTies(cmp, t);
      assert t == [] || t[0] in s;
      assert [s[0]] + t == s;
    }
  }

  function Not<T>(p: T -> bool): T -> bool { x => !p(x) }

  /** The rank of a two-class order: members of `first` go first. */
  function Rank<T>(first: T -> bool, x: T): real { if first(x) then 0.0 else 1.0 }

  /**
   * Inserting an element that goes after every element of `f` and no later
   * than the head of `n` places it between the two.
   */
  lemma {:induction false} InsertBetween<T>(cmp: (T, T) -> real, x: T, f: seq<T>, n: seq<T>)
    requires forall y :: y in f ==> cmp(x, y) > 0.0
    requires n == [] || cmp(x, n[0]) <= 0.0
    ensures Insert(cmp, x, f + n) == f + ([x] + n)
    decreases |f|
  {
    if f != [] {
      var t := f[1..];
      assert forall y :: y in t ==> y in f;
      InsertBetween(cmp, x, t, n);
      assert (f + n)[0] == f[0] && (f + n)[1..] == t + n;
      Regroup([f[0]], t, [x] + n);
    } else {
      assert f + n == n;
    }
  }

  lemma Regroup<T>(a: seq<T>, b: seq<T>, c: seq<T>)
    ensures a + (b + c) == (a + b) + c
  {
  }

  /**
   * Stability for a two-class order: when the comparator puts the members
   * of `first` ahead of the rest and ties within each class, the sort keeps
   * the input order inside each class.
   */
  lemma {:induction false} SortPartitions<T>(cmp: (T, T) -> real, first: T -> bool, s: seq<T>)
    requires forall a, b :: a in s && b in s ==> cmp(a, b) == Rank(first, a) - Rank(first, b)
    ensures Sort(cmp, s) == Seqs.Filter(s, first) + Seqs.Filter(s, Not(first))
    decreases |s|
  {
    if s != [] {
      var h, t := s[0], s[1..];
      assert forall a :: a in t ==> a in s;
      SortPartitions(cmp, first, t);
      var f, n := Seqs.Filter(t, first), Seqs.Filter(t, Not(first));
      assert Sort(cmp, s) == Insert(cmp, h, f + n);
      if first(h) {
        assert f + n == [] || (f + n)[0] in t;
        assert Insert(cmp, h, f + n) == [h] + (f + n);
        Regroup([h], f, n);
      } else {
        forall y | y in f ensures cmp(h, y) > 0.0 {
          var i :| 0 <= i < |f| && f[i] == y;
        }
        assert n == [] || (n[0] in t && !first(n[0]));
        InsertBetween(cmp, h, f, n);
      }
    }
  }
}
