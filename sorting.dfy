/** The stable sort behind `Array.prototype.sort` with a two-level comparator
    (`order[a.x] - order[b.x] || ...`), as used for issue summaries and for
    recommendations. A stable sort's output is fully determined by the key,
    so an insertion sort is an exact model of it. */
module Sorting {

  /** A comparator key compared lexicographically: `major`, then `minor`. */
  datatype Key = Key(major: int, minor: int)

  predicate KeyLe(a: Key, b: Key) {
    a.major < b.major || (a.major == b.major && a.minor <= b.minor)
  }

  predicate SortedBy<T>(s: seq<T>, key: T -> Key) {
    forall i, j :: 0 <= i < j < |s| ==> KeyLe(key(s[i]), key(s[j]))
  }

  /** The elements of `s` whose key is `k`, in their order in `s`. */
  function WithKey<T>(s: seq<T>, key: T -> Key, k: Key): seq<T> {
    if s == [] then [] else (if key(s[0]) == k then [s[0]] else []) + WithKey(s[1..], key, k)
  }

  /** Puts `x` in front of the first element whose key is not smaller. */
  function Insert<T>(x: T, s: seq<T>, key: T -> Key): (r: seq<T>)
    ensures multiset(r) == multiset(s) + multiset{x}
    ensures |r| == |s| + 1
  {
    if s == [] || KeyLe(key(x), key(s[0])) then [x] + s
    else
      assert s == [s[0]] + s[1..];
      [s[0]] + Insert(x, s[1..], key)
  }

  function SortBy<T>(s: seq<T>, key: T -> Key): (r: seq<T>)
    ensures |r| == |s|
  {
    if s == [] then [] else Insert(s[0], SortBy(s[1..], key), key)
  }

  /** Putting an element no larger than any other in front keeps a sequence sorted. */
  lemma SortedCons<T>(y: T, t: seq<T>, key: T -> Key)
    requires SortedBy(t, key)
    requires forall z :: z in multiset(t) ==> KeyLe(key(y), key(z))
    ensures SortedBy([y] + t, key)
  {
    forall i, j | 0 <= i < j < |[y] + t|
      ensures KeyLe(key(([y] + t)[i]), key(([y] + t)[j]))
    {
      assert ([y] + t)[j] == t[j - 1];
      if i == 0 {
        assert t[j - 1] in multiset(t);
      } else {
        assert ([y] + t)[i] == t[i - 1];
      }
    }
  }

  lemma {:induction false} InsertSorted<T>(x: T, s: seq<T>, key: T -> Key)
    requires SortedBy(s, key)
    ensures SortedBy(Insert(x, s, key), key)
  {
    if s == [] || KeyLe(key(x), key(s[0])) {
      forall z | z in multiset(s)
        ensures KeyLe(key(x), key(z))
      {
        var j :| 0 <= j < |s| && s[j] == z;
      }
      SortedCons(x, s, key);
    } else {
      var rest := s[1..];
      assert SortedBy(rest, key);
      InsertSorted(x, rest, key);
      var t := Insert(x, rest, key);
      forall z | z in multiset(t)
        ensures KeyLe(key(s[0]), key(z))
      {
        if z in multiset(rest) {
          var j :| 0 <= j < |rest| && rest[j] == z;
          assert s[j + 1] == z;
        }
      }
      SortedCons(s[0], t, key);
    }
  }

  /** The result is ordered by the comparator. */
  lemma {:induction false} SortByIsSorted<T>(s: seq<T>, key: T -> Key)
    ensures SortedBy(SortBy(s, key), key)
  {
    if s != [] {
      SortByIsSorted(s[1..], key);
      InsertSorted(s[0], SortBy(s[1..], key), key);
    }
  }

  /** The result is a permutation of the input. */
  lemma {:induction false} SortByPermutes<T>(s: seq<T>, key: T -> Key)
    ensures multiset(SortBy(s, key)) == multiset(s)
  {
    if s != [] {
      SortByPermutes(s[1..], key);
      assert s == [s[0]] + s[1..];
    }
  }

  lemma WithKeyCons<T>(x: T, s: seq<T>, key: T -> Key, k: Key)
    ensures WithKey([x] + s, key, k) == (if key(x) == k then [x] else []) + WithKey(s, key, k)
  {
    assert ([x] + s)[1..] == s;
  }

  lemma {:induction false} InsertStable<T>(x: T, s: seq<T>, key: T -> Key, k: Key)
    ensures WithKey(Insert(x, s, key), key, k) == WithKey([x] + s, key, k)
  {
    if s != [] && !KeyLe(key(x), key(s[0])) {
      var y, rest := s[0], s[1..];
      assert s == [y] + rest;
      var a: seq<T> := if key(y) == k then [y] else [];
      var b: seq<T> := if key(x) == k then [x] else [];
      assert key(y) != key(x);
      assert a + b == b + a;
      calc {
        WithKey(Insert(x, s, key), key, k);
        { WithKeyCons(y, Insert(x, rest, key), key, k); }
        a + WithKey(Insert(x, rest, key), key, k);
        { InsertStable(x, rest, key, k); WithKeyCons(x, rest, key, k); }
        a + (b + WithKey(rest, key, k));
        (b + a) + WithKey(rest, key, k);
        { WithKeyCons(y, rest, key, k); }
        b + WithKey(s, key, k);
        { WithKeyCons(x, s, key, k); }
        WithKey([x] + s, key, k);
      }
    }
  }

  /** Elements with equal keys keep their relative order (stability). */
  lemma {:induction false} SortByIsStable<T>(s: seq<T>, key: T -> Key, k: Key)
    ensures WithKey(SortBy(s, key), key, k) == WithKey(s, key, k)
  {
    if s != [] {
      SortByIsStable(s[1..], key, k);
      InsertStable(s[0], SortBy(s[1..], key), key, k);
      WithKeyCons(s[0], SortBy(s[1..], key), key, k);
    }
  }

  /** `f` tells any two positions of `s` apart. */
  predicate DistinctBy<T, U(==)>(s: seq<T>, f: T -> U) {
    forall i, j :: 0 <= i < |s| && 0 <= j < |s| && i != j ==> f(s[i]) != f(s[j])
  }

  /** In a sequence without repeats every value occurs at most once. */
  lemma {:induction false} DistinctCountsOnce<T>(s: seq<T>, x: T)
    requires forall i, j :: 0 <= i < j < |s| ==> s[i] != s[j]
    ensures multiset(s)[x] <= 1
  {
    if s != [] {
      var rest := s[1..];
      assert forall i, j :: 0 <= i < j < |rest| ==> rest[i] != rest[j] by {
        forall i, j | 0 <= i < j < |rest|
          ensures rest[i] != rest[j]
        {
          assert rest[i] == s[i + 1] && rest[j] == s[j + 1];
        }
      }
      DistinctCountsOnce(rest, x);
      assert s == [s[0]] + rest;
      forall k | 0 <= k < |rest|
        ensures rest[k] != s[0]
      {
        assert rest[k] == s[k + 1];
      }
      assert s[0] !in multiset(rest);
    }
  }

  /** A value that occurs once cannot sit at two positions. */
  lemma OnceMeansDistinctPositions<T>(s: seq<T>, i: int, j: int)
    requires 0 <= i < j < |s| && multiset(s)[s[i]] <= 1
    ensures s[i] != s[j]
  {
    var a, b := s[..j], s[j..];
    assert s == a + b;
    assert a[i] == s[i];
    assert multiset(a)[s[i]] >= 1;
    assert multiset(b)[s[i]] == 0;
    assert b[0] == s[j];
    assert s[j] in multiset(b);
  }

  /** A permutation of a sequence whose elements `f` tells apart is told
      apart as well. */
  lemma PermutationKeepsDistinctBy<T, U>(s: seq<T>, t: seq<T>, f: T -> U)
    requires multiset(s) == multiset(t) && DistinctBy(s, f)
    ensures DistinctBy(t, f)
  {
    assert forall i, j :: 0 <= i < j < |s| ==> s[i] != s[j];
    forall i, j | 0 <= i < |t| && 0 <= j < |t| && i != j
      ensures f(t[i]) != f(t[j])
    {
      var lo, hi := if i < j then i else j, if i < j then j else i;
      DistinctCountsOnce(s, t[lo]);
      OnceMeansDistinctPositions(t, lo, hi);
      assert t[i] in multiset(s) && t[j] in multiset(s);
      var i' :| 0 <= i' < |s| && s[i'] == t[i];
      var j' :| 0 <= j' < |s| && s[j'] == t[j];
      assert i' != j';
    }
  }

  /** `f` grows strictly along `s`. */
  predicate IncreasingBy<T>(s: seq<T>, f: T -> int) {
    forall i, j :: 0 <= i < j < |s| ==> f(s[i]) < f(s[j])
  }

  /** `f` grows strictly along `s` from any element to a later one of equal key. */
  predicate IncreasingWithinKeys<T>(s: seq<T>, key: T -> Key, f: T -> int) {
    forall i, j :: 0 <= i < j < |s| && key(s[i]) == key(s[j]) ==> f(s[i]) < f(s[j])
  }

  /** An element below every other can go in front. */
  lemma PrependIncreasing<T>(x: T, s: seq<T>, f: T -> int)
    requires IncreasingBy(s, f)
    requires forall z :: z in s ==> f(x) < f(z)
    ensures IncreasingBy([x] + s, f)
  {
    forall i, j | 0 <= i < j < |[x] + s|
      ensures f(([x] + s)[i]) < f(([x] + s)[j])
    {
      assert ([x] + s)[j] == s[j - 1];
      if i == 0 {
        assert s[j - 1] in s;
      } else {
        assert ([x] + s)[i] == s[i - 1];
      }
    }
  }

  lemma IncreasingWithinKeysTail<T>(s: seq<T>, key: T -> Key, f: T -> int)
    requires s != [] && IncreasingWithinKeys(s, key, f)
    ensures IncreasingWithinKeys(s[1..], key, f)
  {
    var rest := s[1..];
    forall i, j | 0 <= i < j < |rest| && key(rest[i]) == key(rest[j])
      ensures f(rest[i]) < f(rest[j])
    {
      assert rest[i] == s[i + 1] && rest[j] == s[j + 1];
    }
  }

  lemma {:induction false} InsertKeepsIncreasingWithinKeys<T>(x: T, s: seq<T>, key: T -> Key, f: T -> int)
    requires IncreasingWithinKeys(s, key, f)
    requires forall z :: z in multiset(s) && key(z) == key(x) ==> f(x) < f(z)
    ensures IncreasingWithinKeys(Insert(x, s, key), key, f)
  {
    if s == [] || KeyLe(key(x), key(s[0])) {
      InFrontKeepsIncreasingWithinKeys(x, s, key, f);
    } else {
      var y, rest := s[0], s[1..];
      assert s == [y] + rest;
      IncreasingWithinKeysTail(s, key, f);
      forall z | z in multiset(rest) && key(z) == key(x)
        ensures f(x) < f(z)
      {
        assert multiset(s) == multiset{y} + multiset(rest);
      }
      InsertKeepsIncreasingWithinKeys(x, rest, key, f);
      BehindKeepsIncreasingWithinKeys(x, s, Insert(x, rest, key), key, f);
    }
  }

  lemma InFrontKeepsIncreasingWithinKeys<T>(x: T, s: seq<T>, key: T -> Key, f: T -> int)
    requires IncreasingWithinKeys(s, key, f)
    requires forall z :: z in multiset(s) && key(z) == key(x) ==> f(x) < f(z)
    ensures IncreasingWithinKeys([x] + s, key, f)
  {
    var r := [x] + s;
    forall i, j | 0 <= i < j < |r| && key(r[i]) == key(r[j])
      ensures f(r[i]) < f(r[j])
    {
      assert r[j] == s[j - 1];
      if i == 0 {
        assert s[j - 1] in multiset(s);
      } else {
        assert r[i] == s[i - 1];
      }
    }
  }

  /** `s[0]` stays in front of `t`, the insertion of `x` into the rest of
      `s`; it shares no key with `x`, which sorts strictly after it. */
  lemma BehindKeepsIncreasingWithinKeys<T>(x: T, s: seq<T>, t: seq<T>, key: T -> Key, f: T -> int)
    requires s != [] && !KeyLe(key(x), key(s[0]))
    requires IncreasingWithinKeys(s, key, f) && IncreasingWithinKeys(t, key, f)
    requires multiset(t) == multiset(s[1..]) + multiset{x}
    ensures IncreasingWithinKeys([s[0]] + t, key, f)
  {
    var r := [s[0]] + t;
    forall i, j | 0 <= i < j < |r| && key(r[i]) == key(r[j])
      ensures f(r[i]) < f(r[j])
    {
      assert r[j] == t[j - 1];
      if i == 0 {
        assert t[j - 1] in multiset(s[1..]) + multiset{x};
        if t[j - 1] != x {
          var m :| 0 <= m < |s[1..]| && s[1..][m] == t[j - 1];
          assert s[m + 1] == t[j - 1];
        }
      } else {
        assert r[i] == t[i - 1];
      }
    }
  }

  /** Sorting keeps the order of elements that share a key: whatever grows
      from one to a later one of the same key still does. */
  lemma {:induction false} SortByKeepsIncreasingWithinKeys<T>(s: seq<T>, key: T -> Key, f: T -> int)
    requires IncreasingWithinKeys(s, key, f)
    ensures IncreasingWithinKeys(SortBy(s, key), key, f)
  {
    if s != [] {
      var rest := s[1..];
      IncreasingWithinKeysTail(s, key, f);
      SortByKeepsIncreasingWithinKeys(rest, key, f);
      SortByPermutes(rest, key);
      forall z | z in multiset(SortBy(rest, key)) && key(z) == key(s[0])
        ensures f(s[0]) < f(z)
      {
        var m :| 0 <= m < |rest| && rest[m] == z;
        assert s[m + 1] == z;
      }
      InsertKeepsIncreasingWithinKeys(s[0], SortBy(rest, key), key, f);
    }
  }
}
