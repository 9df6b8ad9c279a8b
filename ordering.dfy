/**
 * A stable sort by an integer key. It stands for `Array.prototype.sort`
 * with a comparator (stable since ECMAScript 2019) and for the `ORDER BY`
 * of the read queries, which may return ties in any order (the stable order
 * is one of the orders it may return).
 */
module Ordering {

  /** Non-decreasing by `key`. */
  predicate SortedBy<T>(s: seq<T>, key: T -> int)
  {
    forall i, j :: 0 <= i < j < |s| ==> key(s[i]) <= key(s[j])
  }

  /** The elements of `s` whose key is `k`, in their order in `s`. */
  function Having<T>(s: seq<T>, key: T -> int, k: int): seq<T>
  {
    if |s| == 0 then [] else (if key(s[0]) == k then [s[0]] else []) + Having(s[1..], key, k)
  }

  /** Puts `x` in front of the first element whose key is at least `x`'s. */
  function Insert<T>(x: T, s: seq<T>, key: T -> int): (r: seq<T>)
    requires SortedBy(s, key)
    ensures SortedBy(r, key)
    ensures multiset(r) == multiset(s) + multiset{x}
  {
    if |s| == 0 || key(x) <= key(s[0]) then [x] + s
    else
      var t := Insert(x, s[1..], key);
      InsertBehindHead(x, s, key, t);
      [s[0]] + t
  }

  /** The step of Insert that keeps the head of `s` in front. */
  lemma InsertBehindHead<T>(x: T, s: seq<T>, key: T -> int, t: seq<T>)
    requires SortedBy(s, key) && |s| > 0 && key(s[0]) < key(x)
    requires SortedBy(t, key) && multiset(t) == multiset(s[1..]) + multiset{x}
    ensures SortedBy([s[0]] + t, key)
    ensures multiset([s[0]] + t) == multiset(s) + multiset{x}
  {
    assert s == [s[0]] + s[1..];
    forall k | 0 <= k < |t| ensures key(s[0]) <= key(t[k]) {
      assert t[k] in multiset(t);
      if t[k] != x {
        assert t[k] in multiset(s[1..]);
        assert t[k] in s[1..];
      }
    }
    var r := [s[0]] + t;
    forall i, j | 0 <= i < j < |r| ensures key(r[i]) <= key(r[j]) {
      if i > 0 {
        assert r[i] == t[i - 1] && r[j] == t[j - 1];
      } else {
        assert r[j] == t[j - 1];
      }
    }
  }

  /** The stable sort of `s` by `key`, ascending. */
  function SortBy<T>(s: seq<T>, key: T -> int): (r: seq<T>)
    ensures SortedBy(r, key)
    ensures multiset(r) == multiset(s)
    ensures |r| == |s|
  {
    if |s| == 0 then []
    else
      assert s == [s[0]] + s[1..];
      var r := Insert(s[0], SortBy(s[1..], key), key);
      assert |r| == |multiset(r)|;
      r
  }

  lemma {:induction false} InsertHaving<T>(x: T, s: seq<T>, key: T -> int, k: int)
    requires SortedBy(s, key)
    ensures Having(Insert(x, s, key), key, k) == (if key(x) == k then [x] else []) + Having(s, key, k)
  {
    var mx: seq<T> := if key(x) == k then [x] else [];
    if |s| == 0 || key(x) <= key(s[0]) {
      assert ([x] + s)[1..] == s;
      assert Having([x] + s, key, k) == mx + Having(s, key, k);
    } else {
      var t := Insert(x, s[1..], key);
      InsertHaving(x, s[1..], key, k);
      var rest := Having(s[1..], key, k);
      assert Having(t, key, k) == mx + rest;
      assert ([s[0]] + t)[1..] == t;
      if key(s[0]) == k {
        assert mx == [];
        assert Having([s[0]] + t, key, k) == [s[0]] + rest;
        assert Having(s, key, k) == [s[0]] + rest;
      } else {
        assert Having([s[0]] + t, key, k) == mx + rest;
        assert Having(s, key, k) == rest;
      }
    }
  }

  /**
   * Stability: for every key, the elements with that key come out in the
   * order they went in. Together with SortedBy and the multiset equality
   * this determines the result of a stable sort.
   */
  lemma {:induction false} SortByStable<T>(s: seq<T>, key: T -> int, k: int)
    ensures Having(SortBy(s, key), key, k) == Having(s, key, k)
  {
    if |s| > 0 {
      SortByStable(s[1..], key, k);
      InsertHaving(s[0], SortBy(s[1..], key), key, k);
    }
  }

  /** SortByStable, for a sequence already known to be the sort of `s`. */
  lemma SortedKeepsTies<T>(s: seq<T>, r: seq<T>, key: T -> int, k: int)
    requires r == SortBy(s, key)
    ensures Having(r, key, k) == Having(s, key, k)
  {
    SortByStable(s, key, k);
  }

  /** A sort has the elements of `s`, each position holding some element of `s`. */
  lemma SortedMembers<T>(s: seq<T>, r: seq<T>, key: T -> int)
    requires r == SortBy(s, key)
    ensures |r| == |s| && multiset(r) == multiset(s)
    ensures forall i :: 0 <= i < |s| ==> s[i] in r
    ensures forall k :: 0 <= k < |r| ==> exists i :: 0 <= i < |s| && r[k] == s[i]
  {
    forall i | 0 <= i < |s| ensures s[i] in r {
      assert s[i] in multiset(s);
    }
    forall k | 0 <= k < |r| ensures exists i :: 0 <= i < |s| && r[k] == s[i] {
      assert r[k] in multiset(r);
      assert r[k] in s;
    }
  }

  /** Sorting what is already in order changes nothing. */
  lemma {:induction false} SortBySorted<T>(s: seq<T>, key: T -> int)
    requires SortedBy(s, key)
    ensures SortBy(s, key) == s
  {
    if |s| > 0 {
      assert SortedBy(s[1..], key);
      SortBySorted(s[1..], key);
      assert s == [s[0]] + s[1..];
    }
  }
}
