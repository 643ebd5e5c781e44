/** Spec validation and the starting allocation: largest-remainder apportionment over headroom. */
module Apportionment {
  import opened Sums
  import opened Ordering
  import opened Waterfall
  import opened Api

  datatype SpecError =
    | TooFewBackends(count: nat)
    | EmptyName
    | DuplicateName(name: string)
    | MinAboveMax(name: string)
    | MinSumAbove100(sum: int)
    | MaxSumBelow100(sum: int)

  function Mins(backends: seq<Backend>): seq<int> {
    seq(|backends|, i requires 0 <= i < |backends| => backends[i].minWeight)
  }

  function Maxs(backends: seq<Backend>): seq<int> {
    seq(|backends|, i requires 0 <= i < |backends| => backends[i].maxWeight)
  }

  // ----- validation -----

  /** What is wrong with backend i on its own, in the order the checks are made. */
  function BackendError(backends: seq<Backend>, i: nat): Option<SpecError>
    requires i < |backends|
  {
    var b := backends[i];
    if b.name == "" then Some(EmptyName)
    else if exists j :: 0 <= j < i && backends[j].name == b.name then Some(DuplicateName(b.name))
    else if b.minWeight > b.maxWeight then Some(MinAboveMax(b.name))
    else None
  }

  ghost predicate WellNamed(backends: seq<Backend>) {
    2 <= |backends| && UniqueNames(backends) && forall i :: 0 <= i < |backends| ==> backends[i].name != ""
  }

  /** Everything a spec must meet to be accepted. */
  ghost predicate ValidBackends(backends: seq<Backend>) {
    && WellNamed(backends)
    && (forall i :: 0 <= i < |backends| ==> backends[i].minWeight <= backends[i].maxWeight)
    && Sum(Mins(backends)) <= 100 <= Sum(Maxs(backends))
  }

  /** The reported error is the first that applies: backends in order, then the two sums. */
  ghost predicate Diagnosis(backends: seq<Backend>, e: Option<SpecError>) {
    if |backends| < 2 then e == Some(TooFewBackends(|backends|))
    else if i: nat :| i < |backends| && BackendError(backends, i).Some?
                      && forall j: nat :: j < i ==> BackendError(backends, j).None?
      then e == BackendError(backends, i)
    else if Sum(Mins(backends)) > 100 then e == Some(MinSumAbove100(Sum(Mins(backends))))
    else if Sum(Maxs(backends)) < 100 then e == Some(MaxSumBelow100(Sum(Maxs(backends))))
    else e == None
  }

  method ValidateSpec(backends: seq<Backend>) returns (e: Option<SpecError>)
    ensures Diagnosis(backends, e)
    ensures e == None <==> ValidBackends(backends)
  {
    if |backends| < 2 {
      return Some(TooFewBackends(|backends|));
    }
    var seen: set<string> := {};
    var minSum, maxSum := 0, 0;
    for i := 0 to |backends|
      invariant forall n: string :: n in seen <==> exists j :: 0 <= j < i && backends[j].name == n
      invariant minSum == Sum(Mins(backends)[..i]) && maxSum == Sum(Maxs(backends)[..i])
      invariant forall j: nat :: j < i ==> BackendError(backends, j).None?
    {
      var b := backends[i];
      if b.name == "" {
        e := Some(EmptyName);
        FirstError(backends, i, e);
        return;
      }
      if b.name in seen {
        e := Some(DuplicateName(b.name));
        FirstError(backends, i, e);
        return;
      }
      seen := seen + {b.name};
      if b.minWeight > b.maxWeight {
        e := Some(MinAboveMax(b.name));
        FirstError(backends, i, e);
        return;
      }
      SumPrefix(Mins(backends), i);
      SumPrefix(Maxs(backends), i);
      minSum := minSum + b.minWeight;
      maxSum := maxSum + b.maxWeight;
    }
    assert Mins(backends)[..|backends|] == Mins(backends) && Maxs(backends)[..|backends|] == Maxs(backends);
    NoBackendError(backends);
    if minSum > 100 {
      return Some(MinSumAbove100(minSum));
    }
    if maxSum < 100 {
      return Some(MaxSumBelow100(maxSum));
    }
    return None;
  }

  lemma FirstError(backends: seq<Backend>, i: nat, e: Option<SpecError>)
    requires 2 <= |backends| && i < |backends| && e.Some? && e == BackendError(backends, i)
    requires forall j: nat :: j < i ==> BackendError(backends, j).None?
    ensures Diagnosis(backends, e) && !ValidBackends(backends)
  {
  }

  lemma NoBackendError(backends: seq<Backend>)
    requires 2 <= |backends| && forall j: nat :: j < |backends| ==> BackendError(backends, j).None?
    ensures WellNamed(backends)
    ensures forall i :: 0 <= i < |backends| ==> backends[i].minWeight <= backends[i].maxWeight
  {
    forall i, j | 0 <= i < j < |backends| ensures backends[i].name != backends[j].name {
      assert BackendError(backends, j).None?;
    }
    forall i: nat | i < |backends|
      ensures backends[i].name != "" && backends[i].minWeight <= backends[i].maxWeight
    {
      assert BackendError(backends, i).None?;
    }
  }

  /** Named, unlike every backend before it, and with bounds the right way round. */
  ghost predicate Sane(backends: seq<Backend>, i: nat)
    requires i < |backends|
  {
    && backends[i].name != "" && backends[i].minWeight <= backends[i].maxWeight
    && forall j :: 0 <= j < i ==> backends[j].name != backends[i].name
  }

  ghost predicate FirstInsane(backends: seq<Backend>, i: nat) {
    i < |backends| && !Sane(backends, i) && forall j: nat :: j < i ==> Sane(backends, j)
  }

  /** Reported is: too few, else what is wrong with the first backend that is not sane, else with the sums. */
  lemma DiagnosisOnFields(backends: seq<Backend>, e: Option<SpecError>)
    requires Diagnosis(backends, e)
    ensures |backends| < 2 ==> e == Some(TooFewBackends(|backends|))
    ensures 2 <= |backends| ==> forall i: nat :: FirstInsane(backends, i) ==>
              var name := backends[i].name;
              e == Some(if name == "" then EmptyName
                        else if exists j :: 0 <= j < i && backends[j].name == name then DuplicateName(name)
                        else MinAboveMax(name))
    ensures 2 <= |backends| && (forall i: nat :: i < |backends| ==> Sane(backends, i)) ==>
              e == if Sum(Mins(backends)) > 100 then Some(MinSumAbove100(Sum(Mins(backends))))
                   else if Sum(Maxs(backends)) < 100 then Some(MaxSumBelow100(Sum(Maxs(backends))))
                   else None
  {
    forall i: nat | i < |backends| ensures BackendError(backends, i).None? <==> Sane(backends, i) {
    }
  }

  // ----- allocations -----

  /** w gives every backend a weight within its bounds and totals 100. */
  ghost predicate Allocation(backends: seq<Backend>, w: seq<int>) {
    && |w| == |backends|
    && Sum(w) == 100
    && forall i :: 0 <= i < |w| ==> backends[i].minWeight <= w[i] <= backends[i].maxWeight
  }

  function Head(b: Backend): int {
    b.maxWeight - b.minWeight
  }

  function Heads(backends: seq<Backend>): seq<int> {
    seq(|backends|, i requires 0 <= i < |backends| => Head(backends[i]))
  }

  /** Points left once every backend has its minimum. */
  function Remainder(backends: seq<Backend>): int {
    100 - Sum(Mins(backends))
  }

  function TotalHead(backends: seq<Backend>): int {
    Sum(Heads(backends))
  }

  /** The exact share of a backend is Numerator / TotalHead points. */
  function Numerator(backends: seq<Backend>, i: nat): int
    requires i < |backends|
  {
    Remainder(backends) * Head(backends[i])
  }

  function Whole(backends: seq<Backend>, i: nat): int
    requires i < |backends|
  {
    if TotalHead(backends) <= 0 then 0 else Numerator(backends, i) / TotalHead(backends)
  }

  /** Fractional part of the exact share, over the common denominator TotalHead. */
  function Frac(backends: seq<Backend>, i: nat): int
    requires i < |backends|
  {
    if TotalHead(backends) <= 0 then 0 else Numerator(backends, i) % TotalHead(backends)
  }

  function Wholes(backends: seq<Backend>): seq<int> {
    seq(|backends|, i requires 0 <= i < |backends| => Whole(backends, i))
  }

  function Fracs(backends: seq<Backend>): seq<int> {
    seq(|backends|, i requires 0 <= i < |backends| => Frac(backends, i))
  }

  /** Points the whole parts leave over. */
  function Leftover(backends: seq<Backend>): int {
    Remainder(backends) - Sum(Wholes(backends))
  }

  /** Largest fraction first; how equal fractions are ordered is left open. */
  ghost predicate ShareOrder(backends: seq<Backend>, order: seq<nat>) {
    && |order| == |backends| && Distinct(order)
    && Below(order, |backends|)
    && (forall i: nat :: i < |backends| ==> i in order)
    && forall a, b :: 0 <= a < b < |order| ==> Frac(backends, order[b]) <= Frac(backends, order[a])
  }

  /** Points above its minimum that backend i starts with. */
  ghost function Points(backends: seq<Backend>, order: seq<nat>, i: nat): int
    requires i < |backends| && 0 <= Leftover(backends) <= |order|
  {
    Whole(backends, i) + if i in order[..Leftover(backends)] then 1 else 0
  }

  ghost function InitialSplit(backends: seq<Backend>, order: seq<nat>): seq<int>
    requires 0 <= Leftover(backends) <= |order|
  {
    seq(|backends|, i requires 0 <= i < |backends| => backends[i].minWeight + Points(backends, order, i))
  }

  // ----- the counting argument -----

  lemma {:induction false} SumScale(v: seq<int>, k: int, r: seq<int>)
    requires |r| == |v| && forall i :: 0 <= i < |v| ==> r[i] == k * v[i]
    ensures Sum(r) == k * Sum(v)
  {
    if v != [] {
      SumScale(v[1..], k, r[1..]);
      assert k * (v[0] + Sum(v[1..])) == k * v[0] + k * Sum(v[1..]);
    }
  }

  lemma {:induction false} SumAtMost(v: seq<int>, bound: int)
    requires forall i :: 0 <= i < |v| ==> v[i] <= bound
    ensures Sum(v) <= |v| * bound
  {
    if v != [] {
      SumAtMost(v[1..], bound);
      assert |v| * bound == |v[1..]| * bound + bound;
    }
  }

  /** Enough headroom for the remainder: what the two sum checks amount to. */
  lemma RemainderFits(backends: seq<Backend>)
    requires ValidBackends(backends)
    ensures 0 <= Remainder(backends) <= TotalHead(backends)
    ensures NonNegative(Heads(backends))
  {
    var zero := seq(|backends|, _ => 0);
    SumZero(zero);
    SumCombine(Maxs(backends), Mins(backends), zero, Heads(backends));
  }

  /** A share is its whole part plus a fraction below one, and never beyond the headroom. */
  lemma ShareParts(backends: seq<Backend>, i: nat)
    requires ValidBackends(backends) && i < |backends|
    ensures Numerator(backends, i) == TotalHead(backends) * Whole(backends, i) + Frac(backends, i)
    ensures 0 <= Frac(backends, i) && (0 < TotalHead(backends) ==> Frac(backends, i) < TotalHead(backends))
    ensures 0 <= Whole(backends, i) <= Head(backends[i])
    ensures 0 < Frac(backends, i) ==> Whole(backends, i) < Head(backends[i])
  {
    RemainderFits(backends);
    var r, t, h := Remainder(backends), TotalHead(backends), Head(backends[i]);
    assert Heads(backends)[i] == h;
    ProductFits(r, t, h);
    if t == 0 {
      SumBoundsEntry(Heads(backends), i);
      assert r * h == 0;
    } else {
      DivideShare(r * h, t, h);
    }
  }

  lemma ProductFits(r: int, t: int, h: int)
    requires 0 <= r <= t && 0 <= h
    ensures 0 <= r * h <= t * h
  {
  }

  lemma DivideShare(n: int, t: int, h: int)
    requires 0 < t && 0 <= n <= t * h
    ensures n == t * (n / t) + n % t && 0 <= n % t < t
    ensures 0 <= n / t <= h && (0 < n % t ==> n / t < h)
  {
    var q := n / t;
    assert q > h ==> t * q >= t * (h + 1) == t * h + t;
    assert q == h ==> t * q == t * h;
  }

  /** The fractions add up to exactly the points left over. */
  lemma FractionsMakeLeftover(backends: seq<Backend>)
    requires ValidBackends(backends)
    ensures Sum(Fracs(backends)) == TotalHead(backends) * Leftover(backends)
  {
    var n := |backends|;
    var t, r := TotalHead(backends), Remainder(backends);
    var numerators := seq(n, i requires 0 <= i < n => r * Heads(backends)[i]);
    var scaled := seq(n, i requires 0 <= i < n => t * Wholes(backends)[i]);
    var zero := seq(n, _ => 0);
    SumScale(Heads(backends), r, numerators);
    SumScale(Wholes(backends), t, scaled);
    SumZero(zero);
    forall i: nat | i < n ensures Fracs(backends)[i] == numerators[i] - scaled[i] + zero[i] {
      ShareParts(backends, i);
      assert Heads(backends)[i] == Head(backends[i]);
    }
    SumCombine(numerators, scaled, zero, Fracs(backends));
    assert r * t - t * Sum(Wholes(backends)) == t * Leftover(backends);
  }

  /** Before the leftover runs out there is always a backend with a positive fraction next in line. */
  lemma LeftoverHasTakers(backends: seq<Backend>, order: seq<nat>)
    requires ValidBackends(backends) && ShareOrder(backends, order)
    ensures 0 <= Leftover(backends) <= |backends|
    ensures forall k: nat :: k < Leftover(backends) ==> 0 < Frac(backends, order[k])
  {
    if 0 < TotalHead(backends) {
      FractionsInOrder(backends, order);
      TakersOf(Select(Fracs(backends), order), TotalHead(backends), Leftover(backends));
    } else {
      RemainderFits(backends);
      SumZero(Wholes(backends));
    }
  }

  /** Even once it has run out: more backends have a positive fraction than there are points left over. */
  lemma OneMoreTaker(backends: seq<Backend>, order: seq<nat>)
    requires ValidBackends(backends) && ShareOrder(backends, order) && 0 < Leftover(backends)
    ensures Leftover(backends) < |backends|
    ensures forall k: nat :: k <= Leftover(backends) ==> 0 < Frac(backends, order[k])
  {
    if 0 < TotalHead(backends) {
      FractionsInOrder(backends, order);
      TakersOf(Select(Fracs(backends), order), TotalHead(backends), Leftover(backends));
    } else {
      RemainderFits(backends);
      SumZero(Wholes(backends));
    }
  }

  /** The fractions in order of service, which make up the leftover. */
  lemma FractionsInOrder(backends: seq<Backend>, order: seq<nat>)
    requires ValidBackends(backends) && ShareOrder(backends, order) && 0 < TotalHead(backends)
    ensures var f := Select(Fracs(backends), order);
            && |f| == |backends| && Sum(f) == TotalHead(backends) * Leftover(backends)
            && (forall k: nat :: k < |f| ==> f[k] == Frac(backends, order[k]) && 0 <= f[k] < TotalHead(backends))
            && (forall a, b :: 0 <= a < b < |f| ==> f[b] <= f[a])
  {
    FractionsMakeLeftover(backends);
    SumAlong(Fracs(backends), order);
    forall k: nat | k < |order| ensures 0 <= Frac(backends, order[k]) < TotalHead(backends) {
      ShareParts(backends, order[k]);
    }
  }

  /** left whole units cut into fractions below one, largest first: more than left of them are positive. */
  lemma TakersOf(f: seq<int>, t: int, left: int)
    requires 0 < t && Sum(f) == t * left
    requires forall k :: 0 <= k < |f| ==> 0 <= f[k] < t
    requires forall a, b :: 0 <= a < b < |f| ==> f[b] <= f[a]
    ensures 0 <= left <= |f| && (0 < left ==> left < |f|)
    ensures 0 < left ==> forall k: nat :: k <= left ==> 0 < f[k]
  {
    SumNonNegative(f);
    SumAtMost(f, t - 1);
    FewerThanLeftover(t, left, |f|);
    forall k: nat | 0 < left && k <= left ensures 0 < f[k] {
      if f[k] == 0 {
        SumAtMost(f[..k], t - 1);
        SumSplit(f, k);
        SumZero(f[k..]);
        FewerThanLeftover(t, left, k);
      }
    }
  }

  lemma FewerThanLeftover(t: int, left: int, k: nat)
    requires 0 < t
    ensures 0 <= t * left ==> 0 <= left
    ensures t * left <= k * (t - 1) ==> left <= k
    ensures 0 < left && t * left <= k * (t - 1) ==> left < k
  {
    assert left < 0 ==> t * left < 0;
    assert k < left ==> t * left >= t * (k + 1) == k * (t - 1) + k + t;
    assert k == left ==> t * left == k * (t - 1) + k;
  }

  // ----- what the starting allocation satisfies, however equal fractions are ordered -----

  /** Marks the positions that receive a leftover point. */
  ghost function Extras(backends: seq<Backend>, order: seq<nat>): seq<int>
    requires 0 <= Leftover(backends) <= |order|
  {
    seq(|backends|, i requires 0 <= i < |backends| => if i in order[..Leftover(backends)] then 1 else 0)
  }

  lemma ExtrasTotal(backends: seq<Backend>, order: seq<nat>)
    requires ValidBackends(backends) && ShareOrder(backends, order) && 0 <= Leftover(backends) <= |backends|
    ensures Sum(Extras(backends, order)) == Leftover(backends)
  {
    var taken := order[..Leftover(backends)];
    var ones := seq(|backends|, _ => 1);
    SumSelect(ones, taken);
    assert Kept(ones, taken) == Extras(backends, order);
    SumOnes(Select(ones, taken));
  }

  lemma {:induction false} SumOnes(v: seq<int>)
    requires forall k :: 0 <= k < |v| ==> v[k] == 1
    ensures Sum(v) == |v|
  {
    if v != [] {
      SumOnes(v[1..]);
    }
  }

  /** Where a position sits in the order, and whether that is early enough for a leftover point. */
  lemma PositionOf(order: seq<nat>, left: nat, i: nat) returns (k: nat)
    requires Distinct(order) && i in order && left <= |order|
    ensures k < |order| && order[k] == i
    ensures i in order[..left] <==> k < left
  {
    k :| k < |order| && order[k] == i;
    assert forall a :: 0 <= a < left ==> order[..left][a] == order[a];
  }

  /** A leftover point only ever goes to a backend that is still below its maximum. */
  lemma ExtraHasRoom(backends: seq<Backend>, order: seq<nat>, i: nat)
    requires ValidBackends(backends) && ShareOrder(backends, order) && i < |backends|
    ensures 0 <= Leftover(backends) <= |backends|
    ensures i in order[..Leftover(backends)] ==> 0 < Frac(backends, i) && Whole(backends, i) < Head(backends[i])
    ensures 0 <= Points(backends, order, i) <= Head(backends[i])
  {
    LeftoverHasTakers(backends, order);
    ShareParts(backends, i);
    var k := PositionOf(order, Leftover(backends), i);
  }

  /** On a valid spec the starting weights lie within the bounds and total exactly 100. */
  lemma InitialIsAllocation(backends: seq<Backend>, order: seq<nat>)
    requires ValidBackends(backends) && ShareOrder(backends, order)
    ensures 0 <= Leftover(backends) <= |backends|
    ensures Allocation(backends, InitialSplit(backends, order))
  {
    LeftoverHasTakers(backends, order);
    var zero := seq(|backends|, _ => 0);
    SumZero(zero);
    PointsTotal(backends, order);
    SumCombine(Mins(backends), zero, PointsOf(backends, order), InitialSplit(backends, order));
    forall i: nat | i < |backends| ensures 0 <= Points(backends, order, i) <= Head(backends[i]) {
      ExtraHasRoom(backends, order, i);
    }
  }

  /** Validation decides feasibility exactly: it accepts iff some allocation exists at all. */
  lemma AcceptsIffFeasible(backends: seq<Backend>)
    requires WellNamed(backends)
    ensures ValidBackends(backends) <==> exists w: seq<int> :: Allocation(backends, w)
  {
    if ValidBackends(backends) {
      var order := ShareSort(backends);
      ShareSortIsShareOrder(backends);
      InitialIsAllocation(backends, order);
    }
    if w: seq<int> :| Allocation(backends, w) {
      SumPointwise(Mins(backends), w);
      SumPointwise(w, Maxs(backends));
      forall i: nat | i < |backends| ensures backends[i].minWeight <= backends[i].maxWeight {
        assert backends[i].minWeight <= w[i];
      }
    }
  }

  /** The exact share: of what the minimums leave of 100, the part a backend's headroom is of all headroom. */
  lemma ShareOnFields(backends: seq<Backend>, i: nat)
    requires i < |backends|
    ensures TotalHead(backends) == Sum(Maxs(backends)) - Sum(Mins(backends))
    ensures Remainder(backends) == 100 - Sum(Mins(backends))
    ensures Numerator(backends, i)
            == (100 - Sum(Mins(backends))) * (backends[i].maxWeight - backends[i].minWeight)
  {
    var zero := seq(|backends|, _ => 0);
    SumZero(zero);
    SumCombine(Maxs(backends), Mins(backends), zero, Heads(backends));
  }

  /** On the fields: every starting weight lies strictly within one point of the minimum plus the exact share. */
  lemma StartOnFields(backends: seq<Backend>, order: seq<nat>, i: nat)
    requires ValidBackends(backends) && ShareOrder(backends, order) && i < |backends|
    ensures 0 <= Leftover(backends) <= |backends|
    ensures var left, head := 100 - Sum(Mins(backends)), Sum(Maxs(backends)) - Sum(Mins(backends));
            var b, p := backends[i], InitialSplit(backends, order)[i] - backends[i].minWeight;
            head == 0 || head * (p - 1) < left * (b.maxWeight - b.minWeight) < head * (p + 1)
  {
    FloorOrCeiling(backends, order, i);
    ShareOnFields(backends, i);
  }

  /** Each backend gets the floor or the ceiling of its exact share. */
  lemma FloorOrCeiling(backends: seq<Backend>, order: seq<nat>, i: nat)
    requires ValidBackends(backends) && ShareOrder(backends, order) && i < |backends|
    ensures 0 <= Leftover(backends) <= |backends|
    ensures var t, p := TotalHead(backends), Points(backends, order, i);
            t == 0 || t * (p - 1) < Numerator(backends, i) < t * (p + 1)
  {
    ExtraHasRoom(backends, order, i);
    ShareParts(backends, i);
    RemainderFits(backends);
    var t, p, w := TotalHead(backends), Points(backends, order, i), Whole(backends, i);
    if p == w {
      Distribute(t, w, 1);
      Distribute(t, w, -1);
    } else {
      assert p - 1 == w;
      Distribute(t, w, -1);
      Distribute(t, p, -1);
    }
  }

  /** More headroom never means fewer points. */
  lemma MoreHeadroomMorePoints(backends: seq<Backend>, order: seq<nat>, i: nat, j: nat)
    requires ValidBackends(backends) && ShareOrder(backends, order) && i < |backends| && j < |backends|
    requires Head(backends[i]) > Head(backends[j])
    ensures 0 <= Leftover(backends) <= |backends|
    ensures Points(backends, order, i) >= Points(backends, order, j)
  {
    RemainderFits(backends);
    ExtraHasRoom(backends, order, i);
    ExtraHasRoom(backends, order, j);
    ShareParts(backends, i);
    ShareParts(backends, j);
    var t, r := TotalHead(backends), Remainder(backends);
    if r == 0 {
      NoPointsNoWhole(t, Whole(backends, j), Frac(backends, j), Head(backends[j]), Head(backends[i]));
    } else {
      LargerShare(r, t, Head(backends[i]), Head(backends[j]), Whole(backends, i), Whole(backends, j),
                  Frac(backends, i), Frac(backends, j));
      var a := PositionOf(order, Leftover(backends), i);
      var b := PositionOf(order, Leftover(backends), j);
    }
  }

  lemma NoPointsNoWhole(t: int, w: int, f: int, h: int, other: int)
    requires 0 == t * w + f && 0 <= w <= h < other && 0 <= f && 0 <= t
    ensures f == 0 && (t == 0 || w == 0)
  {
    assert 0 <= t * w;
  }

  lemma LargerShare(r: int, t: int, hi: int, hj: int, wi: int, wj: int, fi: int, fj: int)
    requires 0 < r <= t && hi > hj && r * hi == t * wi + fi && r * hj == t * wj + fj
    requires 0 <= fi < t && 0 <= fj < t
    ensures wi > wj || (wi == wj && fi > fj)
  {
    assert r * hi - r * hj == r * (hi - hj);
    assert 0 < r * (hi - hj);
    assert t * wi - t * wj == t * (wi - wj);
    Multiple(t, wi - wj);
  }

  // ----- optimality -----

  function Square(x: int): int { x * x }

  /** Squared deviation from the exact shares, scaled by TotalHead squared to stay in the integers. */
  ghost function SquaredError(backends: seq<Backend>, points: seq<int>): int
    requires |points| == |backends|
  {
    Sum(Errors(backends, points))
  }

  ghost function Errors(backends: seq<Backend>, points: seq<int>): seq<int>
    requires |points| == |backends|
  {
    seq(|backends|, i requires 0 <= i < |backends| =>
      Square(TotalHead(backends) * points[i] - Numerator(backends, i)))
  }

  ghost function PointsOf(backends: seq<Backend>, order: seq<nat>): seq<int>
    requires 0 <= Leftover(backends) <= |order|
  {
    seq(|backends|, i requires 0 <= i < |backends| => Points(backends, order, i))
  }

  /** The fraction that separates those who got a leftover point from those who did not. */
  ghost function Threshold(backends: seq<Backend>, order: seq<nat>): int
    requires ShareOrder(backends, order) && 0 <= Leftover(backends) <= |backends|
  {
    if Leftover(backends) == 0 then 0 else Frac(backends, order[Leftover(backends) - 1])
  }

  /** The common price, per point, of moving away from the rounded shares. */
  ghost function PricePer(backends: seq<Backend>, order: seq<nat>): int
    requires ShareOrder(backends, order) && 0 <= Leftover(backends) <= |backends|
  {
    TotalHead(backends) * (TotalHead(backends) - 2 * Threshold(backends, order))
  }

  lemma ThresholdSeparates(backends: seq<Backend>, order: seq<nat>, i: nat)
    requires ValidBackends(backends) && ShareOrder(backends, order) && i < |backends|
    ensures 0 <= Leftover(backends) <= |backends|
    ensures 0 < TotalHead(backends) ==> 0 <= Threshold(backends, order) < TotalHead(backends)
    ensures if i in order[..Leftover(backends)] then Threshold(backends, order) <= Frac(backends, i)
            else Frac(backends, i) <= Threshold(backends, order)
  {
    LeftoverHasTakers(backends, order);
    var left := Leftover(backends);
    if left == 0 {
      FractionsMakeLeftover(backends);
      forall k: nat | k < |backends| ensures 0 <= Fracs(backends)[k] {
        ShareParts(backends, k);
      }
      SumBoundsEntry(Fracs(backends), i);
    } else {
      ShareParts(backends, order[left - 1]);
      var k := PositionOf(order, left, i);
    }
  }

  /** Moving away from a rounded share costs at least a fixed price per point. */
  lemma PricePerPoint(t: int, f: int, th: int, x: int, y: int, n: int, up: bool)
    requires 0 < t && 0 <= f < t && 0 <= th < t
    requires n == t * (if up then x - 1 else x) + f
    requires if up then th <= f else f <= th
    ensures Square(t * y - n) - Square(t * x - n) >= t * (t - 2 * th) * (y - x)
  {
    var a := t * (y - x);
    var e := t * x - n;
    assert e == if up then t - f else -f by {
      Distribute(t, x, 1);
    }
    assert t * y - n == a + e by {
      Distribute(t, y, x);
    }
    SquareOfSum(a, e);
    Reorder(t, t - 2 * th, y - x);
    Distribute(a, a + 2 * e, t - 2 * th);
    Multiple(t, y - x);
    SameSign(a, a + 2 * e - (t - 2 * th));
  }

  lemma Distribute(a: int, b: int, c: int)
    ensures a * b - a * c == a * (b - c)
  {
  }

  lemma SquareOfSum(a: int, e: int)
    ensures Square(a + e) - Square(e) == a * (a + 2 * e)
  {
  }

  lemma Reorder(t: int, p: int, d: int)
    ensures t * p * d == (t * d) * p
  {
  }

  lemma Multiple(t: int, d: int)
    requires 0 < t
    ensures (d > 0 ==> t <= t * d) && (d < 0 ==> t * d <= -t) && (d == 0 ==> t * d == 0)
  {
  }

  lemma SameSign(a: int, b: int)
    requires (0 <= a && 0 <= b) || (a <= 0 && b <= 0) || a == 0
    ensures 0 <= a * b
  {
  }

  /**
   Largest remainder is optimal: no integer split of the remainder, bounded or
   not, is closer to the exact headroom-proportional shares in the least-squares sense.
   */
  lemma ClosestToExactShares(backends: seq<Backend>, order: seq<nat>, y: seq<int>)
    requires ValidBackends(backends) && ShareOrder(backends, order)
    requires |y| == |backends| && Sum(y) == Remainder(backends)
    ensures 0 <= Leftover(backends) <= |backends|
    ensures Sum(PointsOf(backends, order)) == Remainder(backends)
    ensures SquaredError(backends, PointsOf(backends, order)) <= SquaredError(backends, y)
  {
    LeftoverHasTakers(backends, order);
    PointsTotal(backends, order);
    var x := PointsOf(backends, order);
    var price := PricePer(backends, order);
    forall i: nat | i < |backends|
      ensures Errors(backends, x)[i] + Paid(x, y, price)[i] <= Errors(backends, y)[i]
    {
      NoCheaperEntry(backends, order, y, i);
    }
    PricedTotals(Errors(backends, x), Errors(backends, y), x, y, price);
  }

  lemma NoCheaperEntry(backends: seq<Backend>, order: seq<nat>, y: seq<int>, i: nat)
    requires ValidBackends(backends) && ShareOrder(backends, order) && i < |backends| == |y|
    requires 0 <= Leftover(backends) <= |backends|
    ensures var x := PointsOf(backends, order);
            Errors(backends, x)[i] + Paid(x, y, PricePer(backends, order))[i] <= Errors(backends, y)[i]
  {
    NoCheaperShare(backends, order, i, y[i]);
  }

  lemma PointsTotal(backends: seq<Backend>, order: seq<nat>)
    requires ValidBackends(backends) && ShareOrder(backends, order) && 0 <= Leftover(backends) <= |backends|
    ensures Sum(PointsOf(backends, order)) == Remainder(backends)
  {
    var zero := seq(|backends|, _ => 0);
    SumZero(zero);
    ExtrasTotal(backends, order);
    SumCombine(Wholes(backends), zero, Extras(backends, order), PointsOf(backends, order));
  }

  function Price(price: int, d: int): int { price * d }

  lemma PriceAdds(price: int, a: int, b: int)
    ensures Price(price, a + b) == Price(price, a) + Price(price, b)
  {
  }

  /** What it costs to move from x to y at a fixed price per point. */
  function Paid(x: seq<int>, y: seq<int>, price: int): seq<int>
    requires |x| == |y|
  {
    seq(|x|, i requires 0 <= i < |x| => Price(price, y[i] - x[i]))
  }

  lemma {:induction false} PaidTotal(x: seq<int>, y: seq<int>, price: int)
    requires |x| == |y|
    ensures Sum(Paid(x, y, price)) == Price(price, Sum(y) - Sum(x))
  {
    if x != [] {
      PaidTotal(x[1..], y[1..], price);
      assert Paid(x, y, price)[1..] == Paid(x[1..], y[1..], price);
      PriceAdds(price, y[0] - x[0], Sum(y[1..]) - Sum(x[1..]));
    }
  }

  lemma {:induction false} PaidSums(a: seq<int>, paid: seq<int>, b: seq<int>)
    requires |a| == |paid| == |b|
    requires forall i: nat :: i < |a| ==> a[i] + paid[i] <= b[i]
    ensures Sum(a) + Sum(paid) <= Sum(b)
  {
    if a != [] {
      PaidSums(a[1..], paid[1..], b[1..]);
    }
  }

  /** With equal totals the price paid cancels out. */
  lemma PricedTotals(a: seq<int>, b: seq<int>, x: seq<int>, y: seq<int>, price: int)
    requires |a| == |b| == |x| == |y| && Sum(x) == Sum(y)
    requires forall i: nat :: i < |x| ==> a[i] + Paid(x, y, price)[i] <= b[i]
    ensures Sum(a) <= Sum(b)
  {
    PaidTotal(x, y, price);
    PaidSums(a, Paid(x, y, price), b);
  }

  lemma NoCheaperShare(backends: seq<Backend>, order: seq<nat>, i: nat, y: int)
    requires ValidBackends(backends) && ShareOrder(backends, order) && i < |backends|
    requires 0 <= Leftover(backends) <= |backends|
    ensures var t, x := TotalHead(backends), Points(backends, order, i);
            Square(t * x - Numerator(backends, i)) + Price(PricePer(backends, order), y - x)
            <= Square(t * y - Numerator(backends, i))
  {
    RemainderFits(backends);
    ShareParts(backends, i);
    ThresholdSeparates(backends, order, i);
    var t := TotalHead(backends);
    if t > 0 {
      PricePerPoint(t, Frac(backends, i), Threshold(backends, order), Points(backends, order, i), y,
                    Numerator(backends, i), i in order[..Leftover(backends)]);
    }
  }

  // ----- the method -----

  function LargerFraction(fracs: seq<int>): Less {
    (i: nat, j: nat) => i < |fracs| && j < |fracs| && fracs[i] > fracs[j]
  }

  function ShareSort(backends: seq<Backend>): seq<nat> {
    StableSort(Positions(|backends|), LargerFraction(Fracs(backends)))
  }

  lemma ShareSortIsShareOrder(backends: seq<Backend>)
    ensures ShareOrder(backends, ShareSort(backends))
  {
    var n := |backends|;
    var less := LargerFraction(Fracs(backends));
    PositionsAreAll(n);
    SortMembers(Positions(n), less);
    SortIsInOrder(Positions(n), less, n);
    var order := ShareSort(backends);
    forall k | 0 <= k < |order| ensures order[k] < n {
      assert order[k] in order;
    }
    forall a, b | 0 <= a < b < |order| ensures Frac(backends, order[b]) <= Frac(backends, order[a]) {
      LargerComesFirst(backends, order[a], order[b]);
    }
  }

  lemma LargerComesFirst(backends: seq<Backend>, i: nat, j: nat)
    requires i < |backends| && j < |backends| && Leads(LargerFraction(Fracs(backends)), i, j)
    ensures Frac(backends, j) <= Frac(backends, i)
  {
    assert Fracs(backends)[i] == Frac(backends, i) && Fracs(backends)[j] == Frac(backends, j);
  }

  lemma NothingToShare(backends: seq<Backend>)
    requires ValidBackends(backends) && (Remainder(backends) <= 0 || TotalHead(backends) <= 0)
    ensures Leftover(backends) == 0
    ensures forall i: nat :: i < |backends| ==> Whole(backends, i) == 0
  {
    RemainderFits(backends);
    forall i: nat | i < |backends| ensures Whole(backends, i) == 0 {
      if TotalHead(backends) > 0 {
        assert Numerator(backends, i) == 0;
      }
    }
    SumZero(Wholes(backends));
  }

  /** Adds each backend's whole share and notes the fraction it is owed. */
  method AddWholeShares(backends: seq<Backend>, w: array<BackendWeight>, remainder: int, totalHead: int)
    returns (fracs: seq<int>, handedOut: int)
    requires remainder == Remainder(backends) && totalHead == TotalHead(backends) > 0
    requires w[..] == Named(backends, Mins(backends))
    modifies w
    ensures fracs == Fracs(backends) && handedOut == Sum(Wholes(backends))
    ensures w[..] == Named(backends, Plus(Mins(backends), Wholes(backends)))
  {
    fracs, handedOut := [], 0;
    for i := 0 to w.Length
      invariant handedOut == Sum(Wholes(backends)[..i])
      invariant fracs == Fracs(backends)[..i]
      invariant forall k :: 0 <= k < i ==>
                  w[k] == BackendWeight(backends[k].name, backends[k].minWeight + Whole(backends, k))
      invariant forall k :: i <= k < w.Length ==> w[k] == BackendWeight(backends[k].name, backends[k].minWeight)
    {
      var head := backends[i].maxWeight - backends[i].minWeight;
      var whole := remainder * head / totalHead;
      w[i] := w[i].(weight := w[i].weight + whole);
      SumPrefix(Wholes(backends), i);
      handedOut := handedOut + whole;
      fracs := fracs + [remainder * head % totalHead];
    }
    assert Wholes(backends)[..w.Length] == Wholes(backends);
  }

  /** The next backend in line has had no point yet, and while points are left it has room for one. */
  lemma NextInLine(backends: seq<Backend>, shares: seq<nat>, k: nat)
    requires ValidBackends(backends) && ShareOrder(backends, shares) && k < |shares|
    ensures forall j :: j in shares[..k + 1] <==> j in shares[..k] || j == shares[k]
    ensures shares[k] !in shares[..k]
    ensures k < Leftover(backends) ==> Whole(backends, shares[k]) < Head(backends[shares[k]])
  {
    assert shares[..k + 1] == shares[..k] + [shares[k]];
    ExtraHasRoom(backends, shares, shares[k]);
    var at := PositionOf(shares, Leftover(backends), shares[k]);
  }

  /** One pass over the shares, one point each, skipping a backend that is at its maximum. */
  method HandOutLeftover(backends: seq<Backend>, w: array<BackendWeight>, shares: seq<nat>, owed: int)
    requires ValidBackends(backends) && ShareOrder(backends, shares) && owed == Leftover(backends)
    requires w[..] == Named(backends, Plus(Mins(backends), Wholes(backends)))
    modifies w
    ensures 0 <= Leftover(backends) <= |shares|
    ensures w[..] == Named(backends, InitialSplit(backends, shares))
  {
    LeftoverHasTakers(backends, shares);
    var leftover := owed;
    for k := 0 to |shares|
      invariant leftover == Max(0, owed - k)
      invariant forall j: nat :: j < w.Length ==>
                  w[j] == BackendWeight(backends[j].name,
                            backends[j].minWeight + Whole(backends, j) + if j in shares[..Min(k, owed)] then 1 else 0)
    {
      if leftover == 0 {
        break;
      }
      var i := shares[k];
      NextInLine(backends, shares, k);
      if w[i].weight < backends[i].maxWeight {
        w[i] := w[i].(weight := w[i].weight + 1);
        leftover := leftover - 1;
      }
    }
  }

  function Plus(a: seq<int>, b: seq<int>): seq<int>
    requires |a| == |b|
  {
    seq(|a|, i requires 0 <= i < |a| => a[i] + b[i])
  }

  /** Every backend starts from its minimum; the minimums and the headrooms are totalled on the way. */
  method AssignMinimums(backends: seq<Backend>) returns (w: array<BackendWeight>, used: int, totalHead: int)
    ensures fresh(w) && w[..] == Named(backends, Mins(backends))
    ensures used == Sum(Mins(backends)) && totalHead == TotalHead(backends)
  {
    var n := |backends|;
    w := new BackendWeight[n];
    used, totalHead := 0, 0;
    for i := 0 to n
      invariant used == Sum(Mins(backends)[..i]) && totalHead == Sum(Heads(backends)[..i])
      invariant forall k :: 0 <= k < i ==> w[k] == BackendWeight(backends[k].name, backends[k].minWeight)
    {
      w[i] := BackendWeight(backends[i].name, backends[i].minWeight);
      SumPrefix(Mins(backends), i);
      SumPrefix(Heads(backends), i);
      used := used + backends[i].minWeight;
      totalHead := totalHead + (backends[i].maxWeight - backends[i].minWeight);
    }
    assert Mins(backends)[..n] == Mins(backends) && Heads(backends)[..n] == Heads(backends);
  }

  /** Each backend's minimum, then its whole share, then one leftover point at a time. */
  method InitialWeights(backends: seq<Backend>) returns (weights: seq<BackendWeight>)
    requires ValidBackends(backends)
    ensures ShareOrder(backends, ShareSort(backends)) && 0 <= Leftover(backends) <= |backends|
    ensures weights == Named(backends, InitialSplit(backends, ShareSort(backends)))
  {
    ShareSortIsShareOrder(backends);
    LeftoverHasTakers(backends, ShareSort(backends));
    var w, used, totalHead := AssignMinimums(backends);
    var remainder := 100 - used;
    if remainder <= 0 || totalHead <= 0 {
      NothingToShare(backends);
      return w[..];
    }
    var fracs, handedOut := AddWholeShares(backends, w, remainder, totalHead);
    var leftover := remainder - handedOut;
    if leftover == 0 {
      return w[..];
    }
    HandOutLeftover(backends, w, StableSort(Positions(|backends|), LargerFraction(fracs)), leftover);
    return w[..];
  }
}
