/**
 * A stable sort by a descending integer key: the model of Array.prototype.sort
 * with a comparator `(a, b) => key(b) - key(a)`, which ECMAScript 2019 requires to be stable.
 */
module StableSort {

  predicate SortedDesc<T>(s: seq<T>, key: T -> int) {
    forall i, j :: 0 <= i < j < |s| ==> key(s[i]) >= key(s[j])
  }

  /** The elements of s whose key is k, in the order of s. */
  function WithKey<T>(s: seq<T>, key: T -> int, k: int): seq<T> {
    if s == [] then [] else (if key(s[0]) == k then [s[0]] else []) + WithKey(s[1..], key, k)
  }

  /** Inserts x in front of the first element whose key is not larger than x's. */
  function Insert<T>(x: T, s: seq<T>, key: T -> int): seq<T> {
    if s == [] || key(x) >= key(s[0]) then [x] + s else [s[0]] + Insert(x, s[1..], key)
  }

  /** Insertion sort from the back; earlier elements land in front of equal-key ones. */
  function Sort<T>(s: seq<T>, key: T -> int): seq<T> {
    if s == [] then [] else Insert(s[0], Sort(s[1..], key), key)
  }

  lemma {:induction false} InsertPermutation<T>(x: T, s: seq<T>, key: T -> int)
    ensures multiset(Insert(x, s, key)) == multiset(s) + multiset{x}
    decreases |s|
  {
    if s != [] && key(x) < key(s[0]) {
      InsertPermutation(x, s[1..], key);
      assert s == [s[0]] + s[1..];
    }
  }

  lemma {:induction false} InsertSorted<T>(x: T, s: seq<T>, key: T -> int)
    requires SortedDesc(s, key)
    ensures SortedDesc(Insert(x, s, key), key)
    decreases |s|
  {
    if s != [] && key(x) < key(s[0]) {
      var rest := Insert(x, s[1..], key);
      InsertSorted(x, s[1..], key);
      InsertPermutation(x, s[1..], key);
      forall y | y in rest ensures key(y) <= key(s[0]) {
        assert y in multiset(rest);
        assert y == x || y in multiset(s[1..]);
      }
      var r := Insert(x, s, key);
      assert r == [s[0]] + rest;
      forall i, j | 0 <= i < j < |r| ensures key(r[i]) >= key(r[j]) {
        if i > 0 {
          assert r[i] == rest[i - 1] && r[j] == rest[j - 1];
        } else {
          assert r[j] == rest[j - 1];
          assert rest[j - 1] in rest;
        }
      }
    }
  }

  lemma {:induction false} InsertWithKey<T>(x: T, s: seq<T>, key: T -> int, k: int)
    requires SortedDesc(s, key)
    ensures WithKey(Insert(x, s, key), key, k) == (if key(x) == k then [x] else []) + WithKey(s, key, k)
    decreases |s|
  {
    if s == [] || key(x) >= key(s[0]) {
      assert ([x] + s)[1..] == s;
    } else {
      var tail := Insert(x, s[1..], key);
      assert Insert(x, s, key) == [s[0]] + tail;
      assert SortedDesc(s[1..], key);
      InsertWithKey(x, s[1..], key, k);
      var hx: seq<T> := if key(x) == k then [x] else [];
      var h0: seq<T> := if key(s[0]) == k then [s[0]] else [];
      assert WithKey(Insert(x, s, key), key, k) == h0 + WithKey(tail, key, k);
      assert WithKey(s, key, k) == h0 + WithKey(s[1..], key, k);
      assert hx == [] || h0 == [];
    }
  }

  /** The sort orders by non-increasing key, loses and adds nothing, and keeps the input order among equal keys. */
  lemma {:induction false} SortCorrect<T>(s: seq<T>, key: T -> int)
    ensures SortedDesc(Sort(s, key), key)
    ensures multiset(Sort(s, key)) == multiset(s)
    ensures forall k :: WithKey(Sort(s, key), key, k) == WithKey(s, key, k)
    decreases |s|
  {
    if s != [] {
      var r := Sort(s[1..], key);
      SortCorrect(s[1..], key);
      InsertSorted(s[0], r, key);
      InsertPermutation(s[0], r, key);
      assert s == [s[0]] + s[1..];
      forall k ensures WithKey(Sort(s, key), key, k) == WithKey(s, key, k) {
        InsertWithKey(s[0], r, key, k);
      }
    }
  }

  lemma SortedPrefix<T>(s: seq<T>, n: nat, key: T -> int)
    requires SortedDesc(s, key) && n <= |s|
    ensures SortedDesc(s[..n], key)
  {
  }
}
