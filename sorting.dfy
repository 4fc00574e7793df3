/**
 * `Array.prototype.sort` with the comparator `(a, b) => key(b).localeCompare(key(a))`:
 * a stable sort, descending by a string key. `localeCompare` is taken as the ordinal
 * order `Text.Le`.
 */
module Sorting {
  import opened Text

  /** `s` is in descending key order. */
  ghost predicate SortedDesc<T>(s: seq<T>, key: T -> string) {
    forall i, j :: 0 <= i < j < |s| ==> Le(key(s[j]), key(s[i]))
  }

  /** Places `x` after every element of the sorted `s` whose key is at least its own. */
  function Insert<T>(x: T, s: seq<T>, key: T -> string): seq<T> {
    if s == [] then [x]
    else if Le(key(x), key(s[0])) then [s[0]] + Insert(x, s[1..], key)
    else [x] + s
  }

  /** The stable descending sort: each element goes after the earlier ones with an equal key. */
  function SortDesc<T>(xs: seq<T>, key: T -> string): seq<T> {
    if xs == [] then []
    else Insert(xs[|xs| - 1], SortDesc(xs[..|xs| - 1], key), key)
  }

  /** The elements of `s` whose key is `k`, in order. */
  function WithKey<T>(s: seq<T>, key: T -> string, k: string): seq<T> {
    if s == [] then []
    else (if key(s[0]) == k then [s[0]] else []) + WithKey(s[1..], key, k)
  }

  lemma SortedTail<T>(s: seq<T>, key: T -> string)
    requires s != [] && SortedDesc(s, key)
    ensures SortedDesc(s[1..], key)
  {
    forall i, j | 0 <= i < j < |s| - 1
      ensures Le(key(s[1..][j]), key(s[1..][i]))
    {
      assert s[1..][j] == s[j + 1] && s[1..][i] == s[i + 1];
    }
  }

  /** An element with a key at least every key of a sorted `r` can go in front of it. */
  lemma SortedCons<T>(a: T, r: seq<T>, key: T -> string)
    requires SortedDesc(r, key) && forall j :: 0 <= j < |r| ==> Le(key(r[j]), key(a))
    ensures SortedDesc([a] + r, key)
  {
    var s := [a] + r;
    forall i, j | 0 <= i < j < |s|
      ensures Le(key(s[j]), key(s[i]))
    {
      assert s[j] == r[j - 1];
      if i > 0 {
        assert s[i] == r[i - 1];
      }
    }
  }

  lemma {:induction false} InsertSorted<T>(x: T, s: seq<T>, key: T -> string)
    requires SortedDesc(s, key)
    ensures SortedDesc(Insert(x, s, key), key)
    ensures multiset(Insert(x, s, key)) == multiset(s) + multiset{x}
  {
    if s == [] {
      assert SortedDesc([x], key);
    } else if Le(key(x), key(s[0])) {
      SortedTail(s, key);
      InsertSorted(x, s[1..], key);
      var r := Insert(x, s[1..], key);
      assert s == [s[0]] + s[1..];
      // Every element of `r` is `x` or comes from `s[1..]`, so none is above `s[0]`.
      forall j | 0 <= j < |r|
        ensures Le(key(r[j]), key(s[0]))
      {
        assert r[j] in multiset(r);
        if r[j] != x {
          assert r[j] in multiset(s[1..]);
          var k :| 0 <= k < |s[1..]| && s[1..][k] == r[j];
          assert s[k + 1] == r[j];
        }
      }
      SortedCons(s[0], r, key);
    } else {
      LeTotal(key(x), key(s[0]));
      forall j | 0 <= j < |s|
        ensures Le(key(s[j]), key(x))
      {
        if j > 0 {
          LeTrans(key(s[j]), key(s[0]), key(x));
        }
      }
      SortedCons(x, s, key);
    }
  }

  /** The result is in descending key order and is a permutation of the input. */
  lemma {:induction false} SortDescSorted<T>(xs: seq<T>, key: T -> string)
    ensures SortedDesc(SortDesc(xs, key), key)
    ensures multiset(SortDesc(xs, key)) == multiset(xs)
  {
    if xs != [] {
      var init := xs[..|xs| - 1];
      SortDescSorted(init, key);
      InsertSorted(xs[|xs| - 1], SortDesc(init, key), key);
      assert xs == init + [xs[|xs| - 1]];
    }
  }

  lemma {:induction false} WithKeyAppend<T>(a: seq<T>, b: seq<T>, key: T -> string, k: string)
    ensures WithKey(a + b, key, k) == WithKey(a, key, k) + WithKey(b, key, k)
  {
    if a == [] {
      assert a + b == b;
    } else {
      assert a + b == [a[0]] + (a[1..] + b);
      assert a == [a[0]] + a[1..];
      WithKeyCons(a[0], a[1..] + b, key, k);
      WithKeyCons(a[0], a[1..], key, k);
      WithKeyAppend(a[1..], b, key, k);
    }
  }

  lemma {:induction false} WithKeyNone<T>(s: seq<T>, key: T -> string, k: string)
    requires forall i :: 0 <= i < |s| ==> key(s[i]) != k
    ensures WithKey(s, key, k) == []
  {
    if s != [] {
      WithKeyNone(s[1..], key, k);
    }
  }

  lemma WithKeyCons<T>(a: T, s: seq<T>, key: T -> string, k: string)
    ensures WithKey([a] + s, key, k) == (if key(a) == k then [a] else []) + WithKey(s, key, k)
  {
    assert ([a] + s)[0] == a && ([a] + s)[1..] == s;
  }

  lemma {:induction false} InsertStable<T>(x: T, s: seq<T>, key: T -> string, k: string)
    requires SortedDesc(s, key)
    ensures WithKey(Insert(x, s, key), key, k) ==
      WithKey(s, key, k) + (if key(x) == k then [x] else [])
  {
    var mine: seq<T> := if key(x) == k then [x] else [];
    if s == [] {
      WithKeyCons(x, [], key, k);
      assert [x] == [x] + [];
    } else if Le(key(x), key(s[0])) {
      SortedTail(s, key);
      InsertStable(x, s[1..], key, k);
      WithKeyCons(s[0], Insert(x, s[1..], key), key, k);
      WithKeyCons(s[0], s[1..], key, k);
      assert s == [s[0]] + s[1..];
    } else {
      WithKeyCons(x, s, key, k);
      if key(x) == k {
        // Every key in `s` is at most `key(s[0])`, which is below `k`.
        forall i | 0 <= i < |s|
          ensures key(s[i]) != k
        {
          if i == 0 {
            LeRefl(key(s[0]));
          }
        }
        WithKeyNone(s, key, k);
      }
    }
  }

  /** The sort is stable: the elements with any one key keep their input order. */
  lemma {:induction false} SortDescStable<T>(xs: seq<T>, key: T -> string, k: string)
    ensures WithKey(SortDesc(xs, key), key, k) == WithKey(xs, key, k)
  {
    if xs != [] {
      var init := xs[..|xs| - 1];
      var x := xs[|xs| - 1];
      SortDescStable(init, key, k);
      SortDescSorted(init, key);
      InsertStable(x, SortDesc(init, key), key, k);
      assert xs == init + [x];
      WithKeyAppend(init, [x], key, k);
    }
  }

  /** The elements with the empty key, the least one, all come last. */
  lemma EmptyKeysLast<T>(xs: seq<T>, key: T -> string, i: int, j: int)
    requires 0 <= i < j < |SortDesc(xs, key)| && key(SortDesc(xs, key)[i]) == ""
    ensures key(SortDesc(xs, key)[j]) == ""
  {
    SortDescSorted(xs, key);
  }
}
