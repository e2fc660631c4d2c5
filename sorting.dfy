/**
 * The two sort orders the endpoints use, written as stable insertion sorts:
 *  - `SortDescBy`: Python's `sorted(xs, key=k, reverse=True)` on an integer key.
 *    Python keeps equal keys in input order even with `reverse=True`.
 *  - `SortAscBy`: Python's `sorted(xs, key=k)` on a string key. Python compares
 *    strings lexicographically by code point (`StrLt`).
 */
module Sorting {

  /** No element occurs twice. */
  ghost predicate NoRepeats<T>(s: seq<T>) {
    forall i, j :: 0 <= i < j < |s| ==> s[i] != s[j]
  }

  // ---------------------------------------------------------------------------
  // Descending, stable, by an integer key
  // ---------------------------------------------------------------------------

  ghost predicate SortedDesc<T>(s: seq<T>, key: T -> int) {
    forall i, j :: 0 <= i < j < |s| ==> key(s[i]) >= key(s[j])
  }

  /** The elements of `s` whose key is `v`, in their order in `s`. */
  function WithKey<T>(s: seq<T>, key: T -> int, v: int): (r: seq<T>)
    ensures |r| <= |s|
  {
    if s == [] then []
    else (if key(s[0]) == v then [s[0]] else []) + WithKey(s[1..], key, v)
  }

  /** Puts `x` in front of the first element whose key is not larger than its own. */
  function InsertDesc<T>(x: T, s: seq<T>, key: T -> int): seq<T> {
    if s == [] || key(s[0]) <= key(x) then [x] + s
    else [s[0]] + InsertDesc(x, s[1..], key)
  }

  function SortDescBy<T>(s: seq<T>, key: T -> int): seq<T> {
    if s == [] then [] else InsertDesc(s[0], SortDescBy(s[1..], key), key)
  }

  lemma {:induction false} InsertDescPerm<T>(x: T, s: seq<T>, key: T -> int)
    ensures multiset(InsertDesc(x, s, key)) == multiset(s) + multiset{x}
  {
    if s != [] && key(s[0]) > key(x) {
      InsertDescPerm(x, s[1..], key);
      assert s == [s[0]] + s[1..];
    }
  }

  lemma {:induction false} InsertDescSorted<T>(x: T, s: seq<T>, key: T -> int)
    requires SortedDesc(s, key)
    ensures SortedDesc(InsertDesc(x, s, key), key)
  {
    if s != [] && key(s[0]) > key(x) {
      var rest := InsertDesc(x, s[1..], key);
      InsertDescSorted(x, s[1..], key);
      InsertDescBounded(x, s[1..], key, key(s[0]));
      var r := [s[0]] + rest;
      forall i, j | 0 <= i < j < |r| ensures key(r[i]) >= key(r[j]) {
        assert r[j] == rest[j - 1];
        if i > 0 { assert r[i] == rest[i - 1]; }
      }
    }
  }

  lemma {:induction false} InsertDescBounded<T>(x: T, s: seq<T>, key: T -> int, b: int)
    requires key(x) <= b
    requires forall k :: 0 <= k < |s| ==> key(s[k]) <= b
    ensures forall k :: 0 <= k < |InsertDesc(x, s, key)| ==> key(InsertDesc(x, s, key)[k]) <= b
  {
    if s != [] && key(s[0]) > key(x) {
      InsertDescBounded(x, s[1..], key, b);
    }
  }

  lemma {:induction false} InsertDescWithKey<T>(x: T, s: seq<T>, key: T -> int, v: int)
    ensures WithKey(InsertDesc(x, s, key), key, v)
         == (if key(x) == v then [x] else []) + WithKey(s, key, v)
  {
    if s == [] || key(s[0]) <= key(x) {
      WithKeyCons(x, s, key, v);
    } else {
      var rest := InsertDesc(x, s[1..], key);
      InsertDescWithKey(x, s[1..], key, v);
      WithKeyCons(s[0], rest, key, v);
      assert s == [s[0]] + s[1..];
      WithKeyCons(s[0], s[1..], key, v);
      if key(s[0]) == v { assert key(x) != v; }
    }
  }

  lemma WithKeyCons<T>(y: T, t: seq<T>, key: T -> int, v: int)
    ensures WithKey([y] + t, key, v) == (if key(y) == v then [y] else []) + WithKey(t, key, v)
  {
    assert ([y] + t)[1..] == t;
  }

  /** The result is ordered from the largest key to the smallest. */
  lemma {:induction false} SortDescSorted<T>(s: seq<T>, key: T -> int)
    ensures SortedDesc(SortDescBy(s, key), key)
  {
    if s != [] {
      SortDescSorted(s[1..], key);
      InsertDescSorted(s[0], SortDescBy(s[1..], key), key);
    }
  }

  /** The result is a permutation of the input. */
  lemma {:induction false} SortDescPerm<T>(s: seq<T>, key: T -> int)
    ensures multiset(SortDescBy(s, key)) == multiset(s)
    ensures |SortDescBy(s, key)| == |s|
  {
    if s != [] {
      SortDescPerm(s[1..], key);
      InsertDescPerm(s[0], SortDescBy(s[1..], key), key);
      assert s == [s[0]] + s[1..];
    }
    assert |multiset(SortDescBy(s, key))| == |SortDescBy(s, key)|;
  }

  /** Stability: the elements sharing any one key value keep their input order. */
  lemma {:induction false} SortDescStable<T>(s: seq<T>, key: T -> int, v: int)
    ensures WithKey(SortDescBy(s, key), key, v) == WithKey(s, key, v)
  {
    if s != [] {
      SortDescStable(s[1..], key, v);
      InsertDescWithKey(s[0], SortDescBy(s[1..], key), key, v);
    }
  }

  // ---------------------------------------------------------------------------
  // Strings compared as Python compares `str`
  // ---------------------------------------------------------------------------

  /** Lexicographic "less than" by code point; a proper prefix is smaller. */
  predicate StrLt(a: string, b: string) {
    if a == [] then b != []
    else if b == [] then false
    else if a[0] == b[0] then StrLt(a[1..], b[1..])
    else a[0] < b[0]
  }

  lemma {:induction false} StrLtIrreflexive(a: string)
    ensures !StrLt(a, a)
  {
    if a != [] { StrLtIrreflexive(a[1..]); }
  }

  lemma {:induction false} StrLtTransitive(a: string, b: string, c: string)
    requires StrLt(a, b) && StrLt(b, c)
    ensures StrLt(a, c)
  {
    if a != [] && b != [] && c != [] && a[0] == b[0] && b[0] == c[0] {
      StrLtTransitive(a[1..], b[1..], c[1..]);
    }
  }

  /** Any two different strings are ordered one way or the other. */
  lemma {:induction false} StrLtTotal(a: string, b: string)
    requires a != b
    ensures StrLt(a, b) || StrLt(b, a)
  {
    if a != [] && b != [] && a[0] == b[0] {
      assert a == [a[0]] + a[1..] && b == [b[0]] + b[1..];
      StrLtTotal(a[1..], b[1..]);
    }
  }

  // ---------------------------------------------------------------------------
  // Ascending, stable, by a string key
  // ---------------------------------------------------------------------------

  ghost predicate StrictlyAscending<T>(s: seq<T>, key: T -> string) {
    forall i, j :: 0 <= i < j < |s| ==> StrLt(key(s[i]), key(s[j]))
  }

  ghost predicate DistinctKeys<T>(s: seq<T>, key: T -> string) {
    forall i, j :: 0 <= i < j < |s| ==> key(s[i]) != key(s[j])
  }

  /** Puts `x` in front of the first element whose key is not smaller than its own. */
  function InsertAsc<T>(x: T, s: seq<T>, key: T -> string): seq<T> {
    if s == [] || !StrLt(key(s[0]), key(x)) then [x] + s
    else [s[0]] + InsertAsc(x, s[1..], key)
  }

  function SortAscBy<T>(s: seq<T>, key: T -> string): seq<T> {
    if s == [] then [] else InsertAsc(s[0], SortAscBy(s[1..], key), key)
  }

  lemma {:induction false} InsertAscPerm<T>(x: T, s: seq<T>, key: T -> string)
    ensures multiset(InsertAsc(x, s, key)) == multiset(s) + multiset{x}
  {
    if s != [] && StrLt(key(s[0]), key(x)) {
      InsertAscPerm(x, s[1..], key);
      assert s == [s[0]] + s[1..];
    }
  }

  lemma {:induction false} InsertAscStrict<T>(x: T, s: seq<T>, key: T -> string)
    requires StrictlyAscending(s, key)
    requires forall k :: 0 <= k < |s| ==> key(s[k]) != key(x)
    ensures StrictlyAscending(InsertAsc(x, s, key), key)
  {
    if s == [] {
    } else if !StrLt(key(s[0]), key(x)) {
      StrLtTotal(key(s[0]), key(x));
      forall j | 0 < j < |s| ensures StrLt(key(x), key(s[j])) {
        StrLtTransitive(key(x), key(s[0]), key(s[j]));
      }
      var r := [x] + s;
      forall i, j | 0 <= i < j < |r| ensures StrLt(key(r[i]), key(r[j])) {
        if i > 0 { assert r[i] == s[i - 1] && r[j] == s[j - 1]; }
      }
    } else {
      var rest := InsertAsc(x, s[1..], key);
      InsertAscStrict(x, s[1..], key);
      InsertAscPerm(x, s[1..], key);
      forall k | 0 <= k < |rest| ensures StrLt(key(s[0]), key(rest[k])) {
        assert rest[k] in multiset(rest);
        assert rest[k] == x || rest[k] in multiset(s[1..]);
        if rest[k] != x {
          var j :| 0 <= j < |s[1..]| && s[1..][j] == rest[k];
          assert s[1 + j] == rest[k];
        }
      }
      var r := [s[0]] + rest;
      forall i, j | 0 <= i < j < |r| ensures StrLt(key(r[i]), key(r[j])) {
        if i > 0 { assert r[i] == rest[i - 1] && r[j] == rest[j - 1]; }
        else { assert r[j] == rest[j - 1]; }
      }
    }
  }

  /** The result is a permutation of the input. */
  lemma {:induction false} SortAscPerm<T>(s: seq<T>, key: T -> string)
    ensures multiset(SortAscBy(s, key)) == multiset(s)
    ensures |SortAscBy(s, key)| == |s|
  {
    if s != [] {
      SortAscPerm(s[1..], key);
      InsertAscPerm(s[0], SortAscBy(s[1..], key), key);
      assert s == [s[0]] + s[1..];
    }
    assert |multiset(SortAscBy(s, key))| == |SortAscBy(s, key)|;
  }

  /** With pairwise different keys, the result is strictly ascending by key. */
  lemma {:induction false} SortAscStrict<T>(s: seq<T>, key: T -> string)
    requires DistinctKeys(s, key)
    ensures StrictlyAscending(SortAscBy(s, key), key)
  {
    if s != [] {
      var tail := SortAscBy(s[1..], key);
      assert DistinctKeys(s[1..], key) by {
        forall i, j | 0 <= i < j < |s[1..]| ensures key(s[1..][i]) != key(s[1..][j]) {
          assert s[1..][i] == s[i + 1] && s[1..][j] == s[j + 1];
        }
      }
      SortAscStrict(s[1..], key);
      SortAscPerm(s[1..], key);
      forall k | 0 <= k < |tail| ensures key(tail[k]) != key(s[0]) {
        assert tail[k] in multiset(tail);
        var j :| 0 <= j < |s[1..]| && s[1..][j] == tail[k];
        assert s[1 + j] == tail[k];
      }
      InsertAscStrict(s[0], tail, key);
    }
  }
}
