/** Finite sums over integer vectors, and the vectors the allocator works with. */
module Sums {

  function Min(a: int, b: int): int { if a <= b then a else b }

  function Max(a: int, b: int): int { if a <= b then b else a }

  function Sum(v: seq<int>): int {
    if v == [] then 0 else v[0] + Sum(v[1..])
  }

  /** The entries of v at the positions listed in ix, in that order. */
  function Select(v: seq<int>, ix: seq<nat>): seq<int>
    requires forall k :: 0 <= k < |ix| ==> ix[k] < |v|
  {
    seq(|ix|, k requires 0 <= k < |ix| => v[ix[k]])
  }

  /** v with every entry at a position outside ix replaced by zero. */
  function Kept(v: seq<int>, ix: seq<nat>): seq<int> {
    seq(|v|, j requires 0 <= j < |v| => if j in ix then v[j] else 0)
  }

  ghost predicate NonNegative(v: seq<int>) {
    forall k :: 0 <= k < |v| ==> 0 <= v[k]
  }

  ghost predicate Distinct<T>(s: seq<T>) {
    forall a, b :: 0 <= a < b < |s| ==> s[a] != s[b]
  }

  lemma {:induction false} SumAppend(a: seq<int>, b: seq<int>)
    ensures Sum(a + b) == Sum(a) + Sum(b)
  {
    if a == [] {
      assert a + b == b;
    } else {
      assert (a + b)[1..] == a[1..] + b;
      SumAppend(a[1..], b);
    }
  }

  /** Extending a prefix sum by one entry. */
  lemma SumPrefix(v: seq<int>, k: nat)
    requires k < |v|
    ensures Sum(v[..k + 1]) == Sum(v[..k]) + v[k]
  {
    assert v[..k + 1] == v[..k] + [v[k]];
    SumAppend(v[..k], [v[k]]);
  }

  lemma SumSplit(v: seq<int>, k: nat)
    requires k <= |v|
    ensures Sum(v) == Sum(v[..k]) + Sum(v[k..])
  {
    assert v == v[..k] + v[k..];
    SumAppend(v[..k], v[k..]);
  }

  lemma SumUpdate(v: seq<int>, k: nat, x: int)
    requires k < |v|
    ensures Sum(v[k := x]) == Sum(v) - v[k] + x
  {
    var u := v[k := x];
    SumSplit(v, k);
    SumSplit(u, k);
    assert u[..k] == v[..k] && u[k..] == [x] + v[k..][1..];
    assert v[k..][0] == v[k];
  }

  lemma {:induction false} SumNonNegative(v: seq<int>)
    requires NonNegative(v)
    ensures 0 <= Sum(v)
  {
    if v != [] {
      SumNonNegative(v[1..]);
    }
  }

  /** Each entry of a non-negative vector is at most the total. */
  lemma SumBoundsEntry(v: seq<int>, k: nat)
    requires NonNegative(v) && k < |v|
    ensures v[k] <= Sum(v)
  {
    SumUpdate(v, k, 0);
    SumNonNegative(v[k := 0]);
  }

  lemma SumPrefixMonotone(v: seq<int>, j: nat, k: nat)
    requires NonNegative(v) && j <= k <= |v|
    ensures Sum(v[..j]) <= Sum(v[..k])
  {
    assert v[..k][..j] == v[..j];
    SumSplit(v[..k], j);
    SumNonNegative(v[..k][j..]);
  }

  lemma {:induction false} SumPointwise(a: seq<int>, b: seq<int>)
    requires |a| == |b| && forall k :: 0 <= k < |a| ==> a[k] <= b[k]
    ensures Sum(a) <= Sum(b)
  {
    if a != [] {
      SumPointwise(a[1..], b[1..]);
    }
  }

  /** a + x*b - y*c, entry by entry, sums to the same combination of the totals. */
  lemma {:induction false} SumCombine(a: seq<int>, b: seq<int>, c: seq<int>, r: seq<int>)
    requires |a| == |b| == |c| == |r|
    requires forall k :: 0 <= k < |a| ==> r[k] == a[k] - b[k] + c[k]
    ensures Sum(r) == Sum(a) - Sum(b) + Sum(c)
  {
    if a != [] {
      SumCombine(a[1..], b[1..], c[1..], r[1..]);
    }
  }

  lemma {:induction false} SumZero(v: seq<int>)
    requires forall k :: 0 <= k < |v| ==> v[k] == 0
    ensures Sum(v) == 0
  {
    if v != [] {
      SumZero(v[1..]);
    }
  }

  /** Picking distinct positions and summing is summing the vector cut down to those positions. */
  lemma {:induction false} SumSelect(v: seq<int>, ix: seq<nat>)
    requires Distinct(ix) && forall k :: 0 <= k < |ix| ==> ix[k] < |v|
    ensures Sum(Select(v, ix)) == Sum(Kept(v, ix))
  {
    if ix == [] {
      SumZero(Kept(v, ix));
    } else {
      var m := |ix| - 1;
      var i := ix[m];
      SumSelect(v, ix[..m]);
      assert Select(v, ix)[..m] == Select(v, ix[..m]);
      SumPrefix(Select(v, ix), m);
      assert Select(v, ix)[..m + 1] == Select(v, ix);
      var u := Kept(v, ix[..m]);
      assert i !in ix[..m];
      assert Kept(v, ix) == u[i := v[i]];
      SumUpdate(u, i, v[i]);
    }
  }

  /** Summing along a list that holds every non-zero position once is summing the vector. */
  lemma SumAlong(v: seq<int>, ix: seq<nat>)
    requires Distinct(ix) && forall k :: 0 <= k < |ix| ==> ix[k] < |v|
    requires forall j: nat :: j < |v| && j !in ix ==> v[j] == 0
    ensures Sum(Select(v, ix)) == Sum(v)
  {
    SumSelect(v, ix);
    assert Kept(v, ix) == v;
  }

  function Values<T>(s: seq<T>, f: T -> int): seq<int> {
    seq(|s|, k requires 0 <= k < |s| => f(s[k]))
  }

  lemma SumRemoveAt<T>(t: seq<T>, k: nat, f: T -> int)
    requires k < |t|
    ensures Sum(Values(t, f)) == f(t[k]) + Sum(Values(t[..k] + t[k + 1..], f))
  {
    var vt := Values(t, f);
    assert Values(t[..k] + t[k + 1..], f) == vt[..k] + vt[k + 1..];
    SumAppend(vt[..k], vt[k + 1..]);
    SumSplit(vt, k);
    assert vt[k..][1..] == vt[k + 1..];
  }

  lemma RemoveAt<T>(t: seq<T>, k: nat)
    requires k < |t|
    ensures multiset(t[..k] + t[k + 1..]) == multiset(t) - multiset{t[k]}
  {
    assert t == t[..k] + [t[k]] + t[k + 1..];
  }

  /** Two arrangements of the same values have the same total under any valuation. */
  lemma {:induction false} SumPermutation<T>(s: seq<T>, t: seq<T>, f: T -> int)
    requires multiset(s) == multiset(t)
    ensures Sum(Values(s, f)) == Sum(Values(t, f))
    decreases |s|
  {
    if s == [] {
      assert |multiset(t)| == 0;
    } else {
      assert s[0] in multiset(t);
      var k :| 0 <= k < |t| && t[k] == s[0];
      RemoveAt(t, k);
      RemoveAt(s, 0);
      var rest, others := s[..0] + s[1..], t[..k] + t[k + 1..];
      SumPermutation(rest, others, f);
      SumRemoveAt(s, 0, f);
      SumRemoveAt(t, k, f);
    }
  }
}
