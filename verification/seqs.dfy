/**
 * The two list operations the handlers and components lean on: `filter`
 * (Array.prototype.filter, or a `where` clause of a query) and ordering by an
 * integer key (a query's `orderBy`, or Array.prototype.sort with a key
 * comparator, which is stable).
 */
module Seqs {

  /** The elements of `s` that satisfy `p`, in their original order. */
  function Filter<T>(s: seq<T>, p: T -> bool): (r: seq<T>)
    ensures |r| <= |s|
    ensures forall i :: 0 <= i < |r| ==> p(r[i])
    ensures forall i :: 0 <= i < |r| ==> r[i] in s
    ensures forall i :: 0 <= i < |s| && p(s[i]) ==> s[i] in r
    ensures multiset(r) <= multiset(s)
  {
    if s == [] then []
    else
      assert s == [s[0]] + s[1..];
      if p(s[0]) then [s[0]] + Filter(s[1..], p)
      else Filter(s[1..], p)
  }

  /** Filtering keeps every satisfying element as many times as it occurs. */
  lemma {:induction false} FilterCount<T>(s: seq<T>, p: T -> bool, x: T)
    requires p(x)
    ensures multiset(Filter(s, p))[x] == multiset(s)[x]
  {
    if s != [] {
      FilterCount(s[1..], p, x);
      assert s == [s[0]] + s[1..];
    }
  }

  /** Nothing is dropped when every element already satisfies the test. */
  lemma {:induction false} FilterAll<T>(s: seq<T>, p: T -> bool)
    requires forall i :: 0 <= i < |s| ==> p(s[i])
    ensures Filter(s, p) == s
  {
    if s != [] {
      FilterAll(s[1..], p);
      assert s == [s[0]] + s[1..];
    }
  }

  /** Filtering a concatenation filters each part and keeps them in order. */
  lemma {:induction false} FilterAppend<T>(a: seq<T>, b: seq<T>, p: T -> bool)
    ensures Filter(a + b, p) == Filter(a, p) + Filter(b, p)
  {
    if a != [] {
      FilterAppend(a[1..], b, p);
      assert (a + b)[1..] == a[1..] + b;
    } else {
      assert a + b == b;
    }
  }

  /** A relation that holds between every earlier and later element still holds after filtering. */
  lemma {:induction false} FilterPairwise<T>(s: seq<T>, p: T -> bool, rel: (T, T) -> bool)
    requires forall i, j :: 0 <= i < j < |s| ==> rel(s[i], s[j])
    ensures forall i, j :: 0 <= i < j < |Filter(s, p)| ==> rel(Filter(s, p)[i], Filter(s, p)[j])
  {
    if s != [] {
      FilterPairwise(s[1..], p, rel);
      var t := Filter(s[1..], p);
      if p(s[0]) {
        var r := [s[0]] + t;
        assert Filter(s, p) == r;
        forall i, j | 0 <= i < j < |r| ensures rel(r[i], r[j]) {
          if i == 0 {
            assert r[j] == t[j - 1] && t[j - 1] in s[1..];
            var k :| 0 <= k < |s[1..]| && s[1..][k] == r[j];
            assert s[k + 1] == r[j] && r[0] == s[0];
            assert rel(s[0], s[k + 1]);
          } else {
            assert r[i] == t[i - 1] && r[j] == t[j - 1];
            assert rel(t[i - 1], t[j - 1]);
          }
        }
      }
    }
  }

  /** May `a` stand before `b`: ascending or descending by an integer key. */
  predicate InOrder<T>(a: T, b: T, key: T -> int, descending: bool)
  {
    if descending then key(a) >= key(b) else key(a) <= key(b)
  }

  predicate SortedBy<T>(s: seq<T>, key: T -> int, descending: bool)
  {
    forall i, j :: 0 <= i < j < |s| ==> InOrder(s[i], s[j], key, descending)
  }

  /** Inserts `x` before the first element it may precede. */
  function Insert<T>(x: T, s: seq<T>, key: T -> int, descending: bool): (r: seq<T>)
    ensures |r| == |s| + 1
    ensures multiset(r) == multiset(s) + multiset{x}
    ensures forall i :: 0 <= i < |r| ==> r[i] == x || r[i] in s
  {
    if s == [] || InOrder(x, s[0], key, descending) then [x] + s
    else
      assert s == [s[0]] + s[1..];
      [s[0]] + Insert(x, s[1..], key, descending)
  }

  /** Inserting into an ordered sequence keeps it ordered. */
  lemma {:induction false} InsertSorted<T>(x: T, s: seq<T>, key: T -> int, descending: bool)
    requires SortedBy(s, key, descending)
    ensures SortedBy(Insert(x, s, key, descending), key, descending)
  {
    if s != [] && !InOrder(x, s[0], key, descending) {
      var t := Insert(x, s[1..], key, descending);
      InsertSorted(x, s[1..], key, descending);
      var r := [s[0]] + t;
      forall i, j | 0 <= i < j < |r| ensures InOrder(r[i], r[j], key, descending) {
        if i == 0 {
          if t[j - 1] != x {
            assert t[j - 1] in s[1..];
            var k :| 0 <= k < |s[1..]| && s[1..][k] == t[j - 1];
            assert s[k + 1] == t[j - 1];
          }
        } else {
          assert r[i] == t[i - 1] && r[j] == t[j - 1];
        }
      }
    }
  }

  /** Insertion sort by `key`; elements with equal keys keep their relative order. */
  function SortBy<T>(s: seq<T>, key: T -> int, descending: bool): (r: seq<T>)
  {
    if s == [] then [] else Insert(s[0], SortBy(s[1..], key, descending), key, descending)
  }

  /** Sorting yields an ordered permutation of its input. */
  lemma {:induction false} SortByCorrect<T>(s: seq<T>, key: T -> int, descending: bool)
    ensures SortedBy(SortBy(s, key, descending), key, descending)
    ensures multiset(SortBy(s, key, descending)) == multiset(s)
    ensures |SortBy(s, key, descending)| == |s|
  {
    if s != [] {
      var t := SortBy(s[1..], key, descending);
      SortByCorrect(s[1..], key, descending);
      InsertSorted(s[0], t, key, descending);
      assert SortBy(s, key, descending) == Insert(s[0], t, key, descending);
      assert s == [s[0]] + s[1..];
      assert multiset(s) == multiset(s[1..]) + multiset{s[0]};
    }
  }

  /** An already ordered sequence is left exactly as it is. */
  lemma {:induction false} SortBySorted<T>(s: seq<T>, key: T -> int, descending: bool)
    requires SortedBy(s, key, descending)
    ensures SortBy(s, key, descending) == s
  {
    if s != [] {
      SortBySorted(s[1..], key, descending);
      assert s == [s[0]] + s[1..];
    }
  }

  /**
   * A query with a `where` test and an `orderBy` key: the rows that pass the
   * test, each as often as in the table, ordered by the key.
   */
  lemma FilterSortExact<T>(s: seq<T>, p: T -> bool, key: T -> int, descending: bool)
    ensures var r := SortBy(Filter(s, p), key, descending);
      && SortedBy(r, key, descending)
      && multiset(r) == multiset(Filter(s, p))
      && (forall i :: 0 <= i < |r| ==> p(r[i]) && r[i] in s)
      && (forall x :: x in s && p(x) ==> x in r)
  {
    var f := Filter(s, p);
    var r := SortBy(f, key, descending);
    SortByCorrect(f, key, descending);
    forall i | 0 <= i < |r| ensures p(r[i]) && r[i] in s {
      assert r[i] in multiset(f);
      var k :| 0 <= k < |f| && f[k] == r[i];
    }
    forall x | x in s && p(x) ensures x in r {
      var k :| 0 <= k < |s| && s[k] == x;
      assert x in multiset(f);
    }
  }
}
