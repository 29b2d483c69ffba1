/** Sequence operations shared by the filters, the searches and the lookups. */
module Seqs {
  import opened Wrappers

  /** Array.prototype.filter / a loop that push_backs the elements satisfying p. */
  function Filter<T>(s: seq<T>, p: T -> bool): (r: seq<T>)
    ensures |r| <= |s|
    ensures forall x :: x in r ==> x in s && p(x)
    ensures forall i :: 0 <= i < |s| && p(s[i]) ==> s[i] in r
  {
    if s == [] then [] else (if p(s[0]) then [s[0]] else []) + Filter(s[1..], p)
  }

  lemma {:induction false} FilterAppend<T>(a: seq<T>, b: seq<T>, p: T -> bool)
    ensures Filter(a + b, p) == Filter(a, p) + Filter(b, p)
    decreases |a|
  {
    if a == [] {
      assert a + b == b;
    } else {
      assert (a + b)[0] == a[0];
      assert (a + b)[1..] == a[1..] + b;
      FilterAppend(a[1..], b, p);
    }
  }

  /** Filter of a one-step longer prefix, used by the loops that push_back. */
  lemma FilterSnoc<T>(s: seq<T>, x: T, p: T -> bool)
    ensures Filter(s + [x], p) == Filter(s, p) + (if p(x) then [x] else [])
  {
    FilterAppend(s, [x], p);
  }

  /** a can be obtained from b by deleting elements: b's order is kept. */
  predicate IsSubseq<T(==)>(a: seq<T>, b: seq<T>)
    decreases |b|
  {
    if a == [] then true
    else if b == [] then false
    else (a[0] == b[0] && IsSubseq(a[1..], b[1..])) || IsSubseq(a, b[1..])
  }

  lemma {:induction false} FilterIsSubseq<T>(s: seq<T>, p: T -> bool)
    ensures IsSubseq(Filter(s, p), s)
    decreases |s|
  {
    if s != [] {
      FilterIsSubseq(s[1..], p);
      if p(s[0]) {
        assert Filter(s, p) == [s[0]] + Filter(s[1..], p);
        assert Filter(s, p)[1..] == Filter(s[1..], p);
      } else {
        assert Filter(s, p) == Filter(s[1..], p);
      }
    }
  }

  /** pat occurs in s starting at index i. */
  predicate OccursAt<T(==)>(pat: seq<T>, s: seq<T>, i: int) {
    0 <= i && i + |pat| <= |s| && s[i..i + |pat|] == pat
  }

  /** std::string::find / String.prototype.indexOf: the first occurrence at or after from. */
  function IndexOf<T(==)>(s: seq<T>, pat: seq<T>, from: nat): (r: Option<nat>)
    ensures r.Some? ==> from <= r.value && OccursAt(pat, s, r.value)
    ensures r.Some? ==> forall j :: from <= j < r.value ==> !OccursAt(pat, s, j)
    ensures r.None? ==> forall j :: from <= j ==> !OccursAt(pat, s, j)
    decreases |s| - from
  {
    if from + |pat| > |s| then None
    else if s[from..from + |pat|] == pat then Some(from)
    else IndexOf(s, pat, from + 1)
  }

  /** The search finds the first occurrence. */
  lemma IndexOfFirst<T>(s: seq<T>, pat: seq<T>, q: nat)
    requires OccursAt(pat, s, q)
    requires forall p :: 0 <= p < q ==> !OccursAt(pat, s, p)
    ensures IndexOf(s, pat, 0) == Some(q)
  {
  }

  /** String.prototype.includes, and find(...) != npos. */
  predicate Contains<T(==)>(s: seq<T>, pat: seq<T>) {
    IndexOf(s, pat, 0).Some?
  }

  lemma ContainsIff<T>(s: seq<T>, pat: seq<T>)
    ensures Contains(s, pat) <==> exists i :: OccursAt(pat, s, i)
  {
    var r := IndexOf(s, pat, 0);
    if r.Some? {
      assert OccursAt(pat, s, r.value);
    }
  }

  /** Index of the first element satisfying p (std::ranges::find_if, Array.prototype.find). */
  function FindIndex<T>(s: seq<T>, p: T -> bool): (r: Option<nat>)
    ensures r.Some? ==> r.value < |s| && p(s[r.value])
    ensures r.Some? ==> forall j :: 0 <= j < r.value ==> !p(s[j])
    ensures r.None? ==> forall j :: 0 <= j < |s| ==> !p(s[j])
  {
    if s == [] then None
    else if p(s[0]) then Some(0)
    else match FindIndex(s[1..], p)
      case None => None
      case Some(k) => Some(k + 1)
  }

  /** The first element satisfying p, if any. */
  function Find<T>(s: seq<T>, p: T -> bool): (r: Option<T>)
    ensures r.Some? ==> r.value in s && p(r.value)
    ensures r.Some? ==> exists k :: 0 <= k < |s| && s[k] == r.value && forall j :: 0 <= j < k ==> !p(s[j])
    ensures r.None? <==> forall j :: 0 <= j < |s| ==> !p(s[j])
  {
    match FindIndex(s, p)
    case None => None
    case Some(k) => Some(s[k])
  }

  /** Array.prototype.map. */
  function Map<T, U>(s: seq<T>, f: T -> U): (r: seq<U>)
    ensures |r| == |s|
    ensures forall i :: 0 <= i < |s| ==> r[i] == f(s[i])
  {
    if s == [] then [] else [f(s[0])] + Map(s[1..], f)
  }

  /** The first n elements, or all of them when there are fewer (Array.prototype.slice(0, n)). */
  function Take<T>(s: seq<T>, n: nat): (r: seq<T>)
    ensures |r| == if n < |s| then n else |s|
    ensures r <= s
  {
    if n < |s| then s[..n] else s
  }

  predicate NoDuplicates<T(==)>(s: seq<T>) {
    forall i, j :: 0 <= i < j < |s| ==> s[i] != s[j]
  }

  /** Mapping a filtered list gives a subsequence of the mapped list. */
  lemma {:induction false} MapFilterIsSubseq<T, U>(s: seq<T>, p: T -> bool, f: T -> U)
    ensures IsSubseq(Map(Filter(s, p), f), Map(s, f))
    decreases |s|
  {
    if s != [] {
      MapFilterIsSubseq(s[1..], p, f);
      var m := Map(s, f);
      assert m[1..] == Map(s[1..], f);
      if p(s[0]) {
        var r := Map(Filter(s, p), f);
        assert Filter(s, p) == [s[0]] + Filter(s[1..], p);
        assert r[0] == m[0];
        assert r[1..] == Map(Filter(s[1..], p), f);
      } else {
        assert Filter(s, p) == Filter(s[1..], p);
      }
    }
  }

  lemma {:induction false} IsSubseqRefl<T>(s: seq<T>)
    ensures IsSubseq(s, s)
    decreases |s|
  {
    if s != [] {
      IsSubseqRefl(s[1..]);
    }
  }

  lemma {:induction false} IsSubseqTrans<T>(a: seq<T>, b: seq<T>, c: seq<T>)
    requires IsSubseq(a, b) && IsSubseq(b, c)
    ensures IsSubseq(a, c)
    decreases |c|
  {
    if a != [] {
      if b[0] == c[0] && IsSubseq(b[1..], c[1..]) {
        if a[0] == b[0] && IsSubseq(a[1..], b[1..]) {
          IsSubseqTrans(a[1..], b[1..], c[1..]);
        } else {
          IsSubseqTrans(a, b[1..], c[1..]);
        }
      } else {
        IsSubseqTrans(a, b, c[1..]);
      }
    }
  }

  /** Filtering by a predicate every element satisfies changes nothing. */
  lemma {:induction false} FilterAll<T>(s: seq<T>, p: T -> bool)
    requires forall x :: x in s ==> p(x)
    ensures Filter(s, p) == s
    decreases |s|
  {
    if s != [] {
      assert s[0] in s;
      FilterAll(s[1..], p);
      assert s == [s[0]] + s[1..];
    }
  }

  lemma {:induction false} FilterNoDuplicates<T>(s: seq<T>, p: T -> bool)
    requires NoDuplicates(s)
    ensures NoDuplicates(Filter(s, p))
    decreases |s|
  {
    if s != [] {
      FilterNoDuplicates(s[1..], p);
      var rest := Filter(s[1..], p);
      assert s[0] !in s[1..];
      assert s[0] !in rest;
      var r := Filter(s, p);
      if p(s[0]) {
        assert r == [s[0]] + rest;
        forall i, j | 0 <= i < j < |r| ensures r[i] != r[j] {
          if i == 0 {
            assert r[j] == rest[j - 1];
          } else {
            assert r[i] == rest[i - 1] && r[j] == rest[j - 1];
          }
        }
      }
    }
  }
}
