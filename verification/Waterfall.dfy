/**
 The closed form behind the one-point-at-a-time transfer loop: t points poured
 into vessels of capacity c, each vessel filled before the next one in line.
 `Poured` works along a list; `Shares` says the same of positions under an order.
 */
module Waterfall {
  import opened Sums
  import opened Ordering

  function Level(c: seq<int>, t: int, k: nat): int
    requires k < |c|
  {
    Min(c[k], Max(0, t - Sum(c[..k])))
  }

  function Poured(c: seq<int>, t: int): seq<int> {
    seq(|c|, k requires 0 <= k < |c| => Level(c, t, k))
  }

  /** What has been poured into the first k vessels is all of it, or all they hold. */
  lemma {:induction false} PouredPrefix(c: seq<int>, t: int, k: nat)
    requires NonNegative(c) && 0 <= t && k <= |c|
    ensures Sum(Poured(c, t)[..k]) == Min(t, Sum(c[..k]))
  {
    if k > 0 {
      PouredPrefix(c, t, k - 1);
      SumPrefix(Poured(c, t), k - 1);
      SumPrefix(c, k - 1);
    }
  }

  lemma PouredTotal(c: seq<int>, t: int)
    requires NonNegative(c) && 0 <= t
    ensures Sum(Poured(c, t)) == Min(t, Sum(c))
  {
    PouredPrefix(c, t, |c|);
    assert Poured(c, t)[..|c|] == Poured(c, t) && c[..|c|] == c;
  }

  /** k is the first vessel of p that is not full. */
  ghost predicate FirstOpen(c: seq<int>, p: seq<int>, k: nat)
    requires |c| == |p|
  {
    k < |c| && p[k] < c[k] && forall j :: 0 <= j < k ==> c[j] <= p[j]
  }

  /** When every vessel before k is full, t covers all of them. */
  lemma {:induction false} FullPrefix(c: seq<int>, t: int, k: nat)
    requires NonNegative(c) && 0 <= t && k <= |c|
    requires forall j :: 0 <= j < k ==> c[j] <= Poured(c, t)[j]
    ensures Sum(c[..k]) <= t
  {
    PouredPrefix(c, t, k);
    SumPointwise(c[..k], Poured(c, t)[..k]);
  }

  lemma PouredElsewhere(c: seq<int>, t: int, k: nat, i: nat)
    requires NonNegative(c) && k < |c| && i < |c| && i != k
    requires Sum(c[..k]) <= t < Sum(c[..k + 1])
    ensures Poured(c, t + 1)[i] == Poured(c, t)[i]
  {
    if i < k {
      SumPrefixMonotone(c, i + 1, k);
      SumPrefix(c, i);
    } else {
      SumPrefixMonotone(c, k + 1, i);
    }
  }

  /** The first vessel that is not full is where the t-th point stopped. */
  lemma OpenMeansRoom(c: seq<int>, t: int, k: nat)
    requires NonNegative(c) && 0 <= t && FirstOpen(c, Poured(c, t), k)
    ensures Sum(c[..k]) <= t < Sum(c[..k + 1]) <= Sum(c)
  {
    FullPrefix(c, t, k);
    SumPrefix(c, k);
    assert Poured(c, t)[k] == Level(c, t, k);
    SumPrefixMonotone(c, k + 1, |c|);
    assert c[..|c|] == c;
  }

  /** The next point goes into the first vessel that is not full. */
  lemma PouredStep(c: seq<int>, t: int, k: nat)
    requires NonNegative(c) && 0 <= t && FirstOpen(c, Poured(c, t), k)
    ensures t < Sum(c)
    ensures Poured(c, t + 1) == Poured(c, t)[k := Poured(c, t)[k] + 1]
  {
    OpenMeansRoom(c, t, k);
    SumPrefix(c, k);
    forall i | 0 <= i < |c| && i != k ensures Poured(c, t + 1)[i] == Poured(c, t)[i] {
      PouredElsewhere(c, t, k, i);
    }
    assert Level(c, t + 1, k) == Level(c, t, k) + 1;
  }

  lemma PouredNothing(c: seq<int>)
    requires NonNegative(c)
    ensures Poured(c, 0) == seq(|c|, _ => 0)
  {
    forall k | 0 <= k < |c| ensures Poured(c, 0)[k] == 0 {
      SumNonNegative(c[..k]);
    }
  }

  /** c with every entry replaced by zero except those that come before i. */
  function Leading(c: seq<int>, less: Less, i: nat): seq<int> {
    seq(|c|, j requires 0 <= j < |c| => if Leads(less, j, i) then c[j] else 0)
  }

  /** Total capacity of the positions that come before i. */
  function Ahead(c: seq<int>, less: Less, i: nat): int {
    Sum(Leading(c, less, i))
  }

  function Quota(c: seq<int>, less: Less, t: int, i: nat): int
    requires i < |c|
  {
    Min(c[i], Max(0, t - Ahead(c, less, i)))
  }

  function Shares(c: seq<int>, less: Less, t: int): seq<int> {
    seq(|c|, i requires 0 <= i < |c| => Quota(c, less, t, i))
  }

  /** ord lists every position that holds anything, each once, in order. */
  ghost predicate Lists(c: seq<int>, less: Less, ord: seq<nat>) {
    && Below(ord, |c|) && Distinct(ord) && InOrder(ord, less)
    && forall j: nat :: j < |c| && j !in ord ==> c[j] == 0
  }

  lemma SortedLists(c: seq<int>, less: Less, ix: seq<nat>)
    requires StrictWeakOrder(less, |c|) && Increasing(ix) && Below(ix, |c|)
    requires forall j: nat :: j < |c| && j !in ix ==> c[j] == 0
    ensures Lists(c, less, StableSort(ix, less)) && |StableSort(ix, less)| == |ix|
  {
    var ord := StableSort(ix, less);
    SortMembers(ix, less);
    SortIsInOrder(ix, less, |c|);
    forall a | 0 <= a < |ord| ensures ord[a] < |c| {
      assert ord[a] in ix;
    }
  }

  /** Along such a list, those before the k-th position are the first k. */
  lemma LeadersArePrefix(c: seq<int>, less: Less, ord: seq<nat>, k: nat, j: nat)
    requires StrictWeakOrder(less, |c|) && Lists(c, less, ord) && k < |ord| && j < |c|
    ensures Leading(c, less, ord[k])[j] == Kept(c, ord[..k])[j]
  {
    if j in ord {
      var a :| 0 <= a < |ord| && ord[a] == j;
      if a < k {
        assert Leads(less, ord[a], ord[k]) && ord[..k][a] == j;
      } else {
        assert j !in ord[..k];
        if a > k {
          assert Leads(less, ord[k], ord[a]);
        }
      }
    }
  }

  /** So what lies ahead of the k-th position is the first k entries. */
  lemma AheadIsPrefix(c: seq<int>, less: Less, ord: seq<nat>, k: nat)
    requires StrictWeakOrder(less, |c|) && Lists(c, less, ord) && k < |ord|
    ensures Ahead(c, less, ord[k]) == Sum(Select(c, ord)[..k])
  {
    assert Select(c, ord)[..k] == Select(c, ord[..k]);
    SumSelect(c, ord[..k]);
    forall j: nat | j < |c| ensures Leading(c, less, ord[k])[j] == Kept(c, ord[..k])[j] {
      LeadersArePrefix(c, less, ord, k, j);
    }
    assert Leading(c, less, ord[k]) == Kept(c, ord[..k]);
  }

  lemma SharesArePoured(c: seq<int>, less: Less, ord: seq<nat>, t: int)
    requires StrictWeakOrder(less, |c|) && Lists(c, less, ord)
    ensures Select(Shares(c, less, t), ord) == Poured(Select(c, ord), t)
    ensures forall j: nat :: j < |c| && j !in ord ==> Shares(c, less, t)[j] == 0
  {
    forall k | 0 <= k < |ord|
      ensures Shares(c, less, t)[ord[k]] == Poured(Select(c, ord), t)[k]
    {
      AheadIsPrefix(c, less, ord, k);
      assert Level(Select(c, ord), t, k) == Quota(c, less, t, ord[k]);
    }
    forall j: nat | j < |c| && j !in ord ensures Shares(c, less, t)[j] == 0 {
      assert Shares(c, less, t)[j] == Quota(c, less, t, j);
    }
  }

  function Positions(n: nat): seq<nat> {
    seq(n, i => i)
  }

  lemma PositionsAreAll(n: nat)
    ensures Increasing(Positions(n)) && Below(Positions(n), n)
    ensures forall i: nat :: i < n ==> i in Positions(n)
  {
    forall i: nat | i < n ensures i in Positions(n) {
      assert Positions(n)[i] == i;
    }
  }

  /** A list of all positions serves every vector of that length. */
  lemma AllInOrder(n: nat, less: Less) returns (ord: seq<nat>)
    requires StrictWeakOrder(less, n)
    ensures |ord| == n && forall i: nat :: i < n ==> i in ord
    ensures forall v: seq<int> :: |v| == n ==> Lists(v, less, ord)
  {
    PositionsAreAll(n);
    SortMembers(Positions(n), less);
    ord := StableSort(Positions(n), less);
    SortedLists(seq(n, _ => 0), less, Positions(n));
  }

  /** The positions before i receive everything, or as much as they can hold. */
  lemma AheadOfShares(c: seq<int>, less: Less, t: int, i: nat)
    requires StrictWeakOrder(less, |c|) && NonNegative(c) && 0 <= t && i < |c|
    ensures Ahead(Shares(c, less, t), less, i) == Min(t, Ahead(c, less, i))
  {
    var ord := AllInOrder(|c|, less);
    assert i in ord;
    var k :| 0 <= k < |ord| && ord[k] == i;
    AheadIsPrefix(c, less, ord, k);
    AheadIsPrefix(Shares(c, less, t), less, ord, k);
    SharesArePoured(c, less, ord, t);
    PouredPrefix(Select(c, ord), t, k);
  }

  lemma SharesTotal(c: seq<int>, less: Less, t: int)
    requires StrictWeakOrder(less, |c|) && NonNegative(c) && 0 <= t
    ensures Sum(Shares(c, less, t)) == Min(t, Sum(c))
  {
    var ord := AllInOrder(|c|, less);
    SharesArePoured(c, less, ord, t);
    SumAlong(c, ord);
    SumAlong(Shares(c, less, t), ord);
    PouredTotal(Select(c, ord), t);
  }

  /** The order decides who is ahead of whom, never a position against itself. */
  lemma AheadPlusOwn(v: seq<int>, less: Less, i: nat)
    requires StrictWeakOrder(less, |v|) && i < |v|
    ensures Sum(Leading(v, less, i)[i := v[i]]) == Ahead(v, less, i) + v[i]
  {
    var m := Leading(v, less, i);
    assert !less(i, i);
    SumUpdate(m, i, v[i]);
  }

  /** Any draw takes from the positions up to i at most what is drawn, and at most what they hold. */
  lemma DrawnUpTo(c: seq<int>, less: Less, v: seq<int>, i: nat)
    requires StrictWeakOrder(less, |c|) && |v| == |c| && i < |c|
    requires forall k :: 0 <= k < |c| ==> 0 <= v[k] <= c[k]
    ensures Ahead(v, less, i) + v[i] <= Min(Sum(v), Ahead(c, less, i) + c[i])
  {
    AheadPlusOwn(v, less, i);
    AheadPlusOwn(c, less, i);
    SumPointwise(Leading(v, less, i)[i := v[i]], Leading(c, less, i)[i := c[i]]);
    SumPointwise(Leading(v, less, i)[i := v[i]], v);
  }

  /**
   Front-loading is optimal: no other way of drawing at most t points within
   the capacities takes more from the positions up to and including any i.
   */
  lemma SharesDominate(c: seq<int>, less: Less, t: int, v: seq<int>, i: nat)
    requires StrictWeakOrder(less, |c|) && NonNegative(c) && |v| == |c| && i < |c|
    requires forall k :: 0 <= k < |c| ==> 0 <= v[k] <= c[k]
    requires Sum(v) <= t
    ensures Ahead(v, less, i) + v[i] <= Ahead(Shares(c, less, t), less, i) + Shares(c, less, t)[i]
  {
    SumNonNegative(v);
    DrawnUpTo(c, less, v, i);
    AheadOfShares(c, less, t, i);
    SumNonNegative(Leading(c, less, i));
    assert Shares(c, less, t)[i] == Quota(c, less, t, i);
  }

  /** Hence the shares are lexicographically greatest in the order. */
  lemma SharesLexGreatest(c: seq<int>, less: Less, t: int, v: seq<int>, i: nat)
    requires StrictWeakOrder(less, |c|) && NonNegative(c) && |v| == |c| && i < |c|
    requires forall k :: 0 <= k < |c| ==> 0 <= v[k] <= c[k]
    requires Sum(v) <= t
    requires forall j: nat :: j < |c| && Leads(less, j, i) ==> v[j] == Shares(c, less, t)[j]
    ensures v[i] <= Shares(c, less, t)[i]
  {
    SharesDominate(c, less, t, v, i);
    assert Leading(v, less, i) == Leading(Shares(c, less, t), less, i);
  }
}
