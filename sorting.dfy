/**
 * Python's `list.sort(key=..., reverse=True)`: a stable sort that puts the
 * largest key first. `above(a, b)` says key `a` ranks strictly before key `b`.
 */
module Sorting {

  /** `above` is a strict weak order: asymmetric and negatively transitive. */
  ghost predicate WeakOrder<K(!new)>(above: (K, K) -> bool) {
    && (forall a, b :: above(a, b) ==> !above(b, a))
    && (forall a, b, c :: above(a, c) ==> above(a, b) || above(b, c))
  }

  /** No element ranks strictly before an element in front of it. */
  predicate SortedDesc<T, K>(s: seq<T>, key: T -> K, above: (K, K) -> bool) {
    forall i, j :: 0 <= i < j < |s| ==> !above(key(s[j]), key(s[i]))
  }

  /** The elements of `s` whose key is `k`, in their order in `s`. */
  function WithKey<T, K(==)>(s: seq<T>, key: T -> K, k: K): (r: seq<T>)
    ensures |r| <= |s|
  {
    if s == [] then [] else (if key(s[0]) == k then [s[0]] else []) + WithKey(s[1..], key, k)
  }

  /** Places `x` in front of the first element that does not rank strictly before it. */
  function Insert<T(==), K>(x: T, s: seq<T>, key: T -> K, above: (K, K) -> bool): (r: seq<T>)
    ensures multiset(r) == multiset(s) + multiset{x}
  {
    if s == [] then [x]
    else if above(key(s[0]), key(x)) then
      assert s == [s[0]] + s[1..];
      [s[0]] + Insert(x, s[1..], key, above)
    else [x] + s
  }

  function SortDesc<T(==), K>(s: seq<T>, key: T -> K, above: (K, K) -> bool): (r: seq<T>)
    ensures multiset(r) == multiset(s) && |r| == |s|
  {
    if s == [] then []
    else
      assert s == [s[0]] + s[1..];
      Insert(s[0], SortDesc(s[1..], key, above), key, above)
  }

  lemma {:induction false} InsertSorted<T, K(!new)>(x: T, s: seq<T>, key: T -> K, above: (K, K) -> bool)
    requires WeakOrder(above) && SortedDesc(s, key, above)
    ensures SortedDesc(Insert(x, s, key, above), key, above)
  {
    if s != [] {
      if above(key(s[0]), key(x)) {
        var t := Insert(x, s[1..], key, above);
        InsertSorted(x, s[1..], key, above);
        var r := [s[0]] + t;
        forall j | 1 <= j < |r| ensures !above(key(r[j]), key(s[0])) {
          assert r[j] in multiset(t);
          if r[j] != x {
            assert r[j] in multiset(s[1..]);
            var m :| 0 <= m < |s[1..]| && s[1..][m] == r[j];
            assert s[m + 1] == r[j];
          }
        }
      } else {
        var r := [x] + s;
        forall j | 1 <= j < |r| ensures !above(key(r[j]), key(x)) {
          assert r[j] == s[j - 1];
          if j > 1 {
            assert !above(key(s[j - 1]), key(s[0]));
          }
        }
      }
    }
  }

  lemma {:induction false} SortDescSorted<T, K(!new)>(s: seq<T>, key: T -> K, above: (K, K) -> bool)
    requires WeakOrder(above)
    ensures SortedDesc(SortDesc(s, key, above), key, above)
  {
    if s != [] {
      SortDescSorted(s[1..], key, above);
      InsertSorted(s[0], SortDesc(s[1..], key, above), key, above);
    }
  }

  lemma {:induction false} InsertWithKey<T, K(!new)>(x: T, s: seq<T>, key: T -> K, above: (K, K) -> bool, k: K)
    requires WeakOrder(above)
    ensures WithKey(Insert(x, s, key, above), key, k) == (if key(x) == k then [x] else []) + WithKey(s, key, k)
  {
    if s != [] {
      if above(key(s[0]), key(x)) {
        var t := Insert(x, s[1..], key, above);
        InsertWithKey(x, s[1..], key, above, k);
        assert ([s[0]] + t)[1..] == t;
        assert key(s[0]) != key(x);
      } else {
        assert ([x] + s)[1..] == s;
      }
    }
  }

  /** Stability: for every key, the elements with that key keep their relative order. */
  lemma {:induction false} SortDescStable<T, K(!new)>(s: seq<T>, key: T -> K, above: (K, K) -> bool, k: K)
    requires WeakOrder(above)
    ensures WithKey(SortDesc(s, key, above), key, k) == WithKey(s, key, k)
  {
    if s != [] {
      SortDescStable(s[1..], key, above, k);
      InsertWithKey(s[0], SortDesc(s[1..], key, above), key, above, k);
    }
  }
}
