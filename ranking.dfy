/** The ranking stage shared by the filter and list routes: a sort key in
    which an unknown distance ranks after every known one, the comparator the
    routes hand to `Array.prototype.sort`, a stable sort by that key, and the
    radius filter. */
module Ranking {
  import opened Wrappers

  /** A distance in metres, or unknown when the venue has no coordinates. */
  datatype Key = Known(v: real) | Unknown

  function KeyOf(d: Option<real>): Key {
    if d.Some? then Known(d.value) else Unknown
  }

  /** `a` may come before `b`: ascending on known values, unknowns last. */
  predicate KeyLe(a: Key, b: Key) {
    b.Unknown? || (a.Known? && a.v <= b.v)
  }

  /** The routes' comparator `(a, b) => ...` on the two distances: `0` for two
      unknowns, `1` when only `a` is unknown, `-1` when only `b` is, otherwise
      `a - b`. */
  function Compare(a: Option<real>, b: Option<real>): real {
    if a.None? && b.None? then 0.0
    else if a.None? then 1.0
    else if b.None? then -1.0
    else a.value - b.value
  }

  /** The comparator agrees with `KeyLe`, so it is a consistent total preorder:
      it says "not after" exactly when `KeyLe` does, and it is antisymmetric in sign. */
  lemma CompareConsistent(a: Option<real>, b: Option<real>)
    ensures Compare(a, b) <= 0.0 <==> KeyLe(KeyOf(a), KeyOf(b))
    ensures Compare(a, b) == -Compare(b, a)
    ensures Compare(a, b) == 0.0 <==> KeyOf(a) == KeyOf(b)
  {
  }

  lemma KeyLeTotal(a: Key, b: Key)
    ensures KeyLe(a, b) || KeyLe(b, a)
    ensures KeyLe(a, b) && KeyLe(b, a) ==> a == b
  {
  }

  lemma KeyLeTransitive(a: Key, b: Key, c: Key)
    requires KeyLe(a, b) && KeyLe(b, c)
    ensures KeyLe(a, c)
  {
  }

  predicate SortedBy<T>(s: seq<T>, key: T -> Key) {
    forall i, j :: 0 <= i < j < |s| ==> KeyLe(key(s[i]), key(s[j]))
  }

  /** The elements of `s` whose key is `k`, in their order in `s`. */
  function WithKey<T>(s: seq<T>, key: T -> Key, k: Key): seq<T> {
    if s == [] then [] else (if key(s[0]) == k then [s[0]] else []) + WithKey(s[1..], key, k)
  }

  lemma {:induction false} WithKeyConcat<T>(a: seq<T>, b: seq<T>, key: T -> Key, k: Key)
    ensures WithKey(a + b, key, k) == WithKey(a, key, k) + WithKey(b, key, k)
    decreases |a|
  {
    if a == [] {
      assert a + b == b;
    } else {
      assert (a + b)[0] == a[0] && (a + b)[1..] == a[1..] + b;
      WithKeyConcat(a[1..], b, key, k);
    }
  }

  /** Insert `x` into the sorted `s` before the first element it may precede,
      so that it stays ahead of every element with an equal key. */
  function Insert<T>(x: T, s: seq<T>, key: T -> Key): (r: seq<T>)
    ensures multiset(r) == multiset(s) + multiset{x}
    ensures |r| == |s| + 1
  {
    if s == [] then [x]
    else if KeyLe(key(x), key(s[0])) then [x] + s
    else
      assert s == [s[0]] + s[1..];
      [s[0]] + Insert(x, s[1..], key)
  }

  lemma {:induction false} InsertSorted<T>(x: T, s: seq<T>, key: T -> Key)
    requires SortedBy(s, key)
    ensures SortedBy(Insert(x, s, key), key)
    decreases |s|
  {
    if s != [] && !KeyLe(key(x), key(s[0])) {
      InsertSorted(x, s[1..], key);
      var r := Insert(x, s, key);
      var t := Insert(x, s[1..], key);
      assert r == [s[0]] + t;
      forall j | 0 < j < |r| ensures KeyLe(key(s[0]), key(r[j])) {
        assert r[j] in multiset(t);
        assert r[j] in multiset(s[1..]) + multiset{x};
        if r[j] in multiset(s[1..]) {
          var m :| 0 <= m < |s[1..]| && s[1..][m] == r[j];
          assert s[m + 1] == r[j];
        }
      }
    }
  }

  lemma WithKeySingle<T>(y: T, key: T -> Key, k: Key)
    ensures WithKey([y], key, k) == if key(y) == k then [y] else []
  {
    assert [y][1..] == [];
  }

  /** Inserting `x` keeps the order of each key class and puts `x` at the
      head of its own class (it is placed before the first element it may
      precede, and `KeyLe` is reflexive, so it never passes an equal key). */
  lemma {:induction false} InsertStable<T>(x: T, s: seq<T>, key: T -> Key, k: Key)
    ensures WithKey(Insert(x, s, key), key, k)
         == (if key(x) == k then [x] else []) + WithKey(s, key, k)
    decreases |s|
  {
    if s == [] {
      WithKeySingle(x, key, k);
    } else if KeyLe(key(x), key(s[0])) {
      WithKeySingle(x, key, k);
      WithKeyConcat([x], s, key, k);
    } else {
      InsertStable(x, s[1..], key, k);
      InsertStablePast(x, s, key, k);
    }
  }

  lemma SwapAroundEmpty<T>(a: seq<T>, b: seq<T>, c: seq<T>)
    requires a == [] || b == []
    ensures a + (b + c) == b + (a + c)
  {
    if a == [] {
      assert a + (b + c) == b + c && a + c == c;
    } else {
      assert b + c == c && b + (a + c) == a + c;
    }
  }

  /** The step of `InsertStable` where `x` moves past the head of `s`. */
  lemma InsertStablePast<T>(x: T, s: seq<T>, key: T -> Key, k: Key)
    requires s != [] && !KeyLe(key(x), key(s[0]))
    requires WithKey(Insert(x, s[1..], key), key, k) == (if key(x) == k then [x] else []) + WithKey(s[1..], key, k)
    ensures WithKey(Insert(x, s, key), key, k) == (if key(x) == k then [x] else []) + WithKey(s, key, k)
  {
    var t := Insert(x, s[1..], key);
    var w := WithKey(s[1..], key, k);
    var hx := if key(x) == k then [x] else [];
    var h0 := if key(s[0]) == k then [s[0]] else [];
    assert key(s[0]) != key(x) by { KeyLeTotal(key(x), key(x)); }
    assert WithKey(Insert(x, s, key), key, k) == h0 + (hx + w) by {
      assert Insert(x, s, key) == [s[0]] + t;
      WithKeySingle(s[0], key, k);
      WithKeyConcat([s[0]], t, key, k);
    }
    assert WithKey(s, key, k) == h0 + w;
    SwapAroundEmpty(h0, hx, w);
  }

  /** The sort `Array.prototype.sort` performs with the routes' comparator (it
      is stable): a permutation, ascending by key, and stable. */
  function SortBy<T>(s: seq<T>, key: T -> Key): (r: seq<T>)
    ensures multiset(r) == multiset(s) && |r| == |s|
  {
    if s == [] then []
    else
      assert s == [s[0]] + s[1..];
      Insert(s[0], SortBy(s[1..], key), key)
  }

  lemma {:induction false} SortSorted<T>(s: seq<T>, key: T -> Key)
    ensures SortedBy(SortBy(s, key), key)
    decreases |s|
  {
    if s != [] {
      SortSorted(s[1..], key);
      InsertSorted(s[0], SortBy(s[1..], key), key);
    }
  }

  /** Stability: for every key value, the elements with that key appear in the
      output in the order they had in the input. */
  lemma {:induction false} SortStable<T>(s: seq<T>, key: T -> Key, k: Key)
    ensures WithKey(SortBy(s, key), key, k) == WithKey(s, key, k)
    decreases |s|
  {
    if s != [] {
      SortStable(s[1..], key, k);
      InsertStable(s[0], SortBy(s[1..], key), key, k);
    }
  }

  /** Sorting an already sorted sequence changes nothing. */
  lemma {:induction false} SortOfSorted<T>(s: seq<T>, key: T -> Key)
    requires SortedBy(s, key)
    ensures SortBy(s, key) == s
    decreases |s|
  {
    if s != [] {
      assert SortedBy(s[1..], key);
      SortOfSorted(s[1..], key);
      assert s == [s[0]] + s[1..];
    }
  }

  /** The elements of `s` that pass the radius test `radius == null ||
      (distance != null && distance <= radius)`, in order. */
  function WithinRadius<T>(s: seq<T>, dist: T -> Option<real>, radius: Option<real>): (r: seq<T>)
    ensures |r| <= |s|
    ensures forall x :: x in r ==> x in s
    ensures radius.Some? ==> forall x :: x in r ==> dist(x).Some? && dist(x).value <= radius.value
    ensures radius.None? ==> r == s
  {
    if s == [] then []
    else
      (if radius.None? || (dist(s[0]).Some? && dist(s[0]).value <= radius.value) then [s[0]] else [])
      + WithinRadius(s[1..], dist, radius)
  }

  /** Nothing that passes the radius test is dropped. */
  lemma {:induction false} WithinRadiusComplete<T>(s: seq<T>, dist: T -> Option<real>, radius: Option<real>, x: T)
    requires x in s
    requires radius.Some? ==> dist(x).Some? && dist(x).value <= radius.value
    ensures x in WithinRadius(s, dist, radius)
    decreases |s|
  {
    if s[0] != x {
      WithinRadiusComplete(s[1..], dist, radius, x);
    }
  }
}
