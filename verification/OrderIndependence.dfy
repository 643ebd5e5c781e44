/** The order in which backends are declared, or weights recorded, does not matter. */
module OrderIndependence {
  import opened Sums
  import opened Ordering
  import opened Waterfall
  import opened Api
  import opened Evaluator
  import opened Decisions

  /** b is a with its backends and recorded weights rearranged. */
  ghost predicate Rearranged(a: Input, b: Input) {
    && multiset(a.backends) == multiset(b.backends)
    && UniqueNames(a.backends) && UniqueNames(b.backends)
    && (forall n: string :: Weight(a.current, n) == Weight(b.current, n))
    && a.signals == b.signals && a.maxStepPercent == b.maxStepPercent
  }

  ghost function RankOf(inp: Input, b: Backend): Rank {
    Rank(b.name, Score(inp.signals, b.name))
  }

  /** What b's worse peers may give up: no positions involved. */
  ghost function WorseCap(inp: Input, than: Backend, b: Backend): int {
    if Worse(RankOf(inp, b), RankOf(inp, than)) then CapOf(inp, b) else 0
  }

  ghost function BetterRoom(inp: Input, than: Backend, b: Backend): int {
    if Better(RankOf(inp, b), RankOf(inp, than)) then RoomOf(inp, b) else 0
  }

  /** Distinct names are never tied, so position plays no part in who comes first. */
  lemma NamesDecide(inp: Input, i: nat, j: nat)
    requires UniqueNames(inp.backends) && i < |inp.backends| && j < |inp.backends|
    ensures Leads(WorstFirst(Ranks(inp)), j, i) <==>
            Worse(RankOf(inp, inp.backends[j]), RankOf(inp, inp.backends[i]))
    ensures Leads(BestFirst(Ranks(inp)), j, i) <==>
            Better(RankOf(inp, inp.backends[j]), RankOf(inp, inp.backends[i]))
  {
    var a, b := RankOf(inp, inp.backends[i]), RankOf(inp, inp.backends[j]);
    RanksAreOrdered(a, b, a);
    RanksAreOrdered(b, a, b);
    NameLessTotal(a.name, b.name);
    assert i != j ==> a.name != b.name;
  }

  lemma AheadByValue(inp: Input, i: nat)
    requires UniqueNames(inp.backends) && i < |inp.backends|
    ensures Ahead(Caps(inp), WorstFirst(Ranks(inp)), i)
            == Sum(Values(inp.backends, b => WorseCap(inp, inp.backends[i], b)))
    ensures Ahead(Rooms(inp), BestFirst(Ranks(inp)), i)
            == Sum(Values(inp.backends, b => BetterRoom(inp, inp.backends[i], b)))
  {
    forall j: nat | j < |inp.backends|
      ensures Leading(Caps(inp), WorstFirst(Ranks(inp)), i)[j] == WorseCap(inp, inp.backends[i], inp.backends[j])
      ensures Leading(Rooms(inp), BestFirst(Ranks(inp)), i)[j] == BetterRoom(inp, inp.backends[i], inp.backends[j])
    {
      NamesDecide(inp, i, j);
    }
    assert Leading(Caps(inp), WorstFirst(Ranks(inp)), i)
        == Values(inp.backends, b => WorseCap(inp, inp.backends[i], b));
    assert Leading(Rooms(inp), BestFirst(Ranks(inp)), i)
        == Values(inp.backends, b => BetterRoom(inp, inp.backends[i], b));
  }

  lemma SameShift(a: Input, b: Input)
    requires Rearranged(a, b)
    ensures Shift(a) == Shift(b)
  {
    var cap, room := x => CapOf(a, x), x => RoomOf(a, x);
    assert Caps(a) == Values(a.backends, cap) && Caps(b) == Values(b.backends, cap);
    assert Rooms(a) == Values(a.backends, room) && Rooms(b) == Values(b.backends, room);
    SumPermutation(a.backends, b.backends, cap);
    SumPermutation(a.backends, b.backends, room);
  }

  lemma SameAhead(a: Input, b: Input, i: nat, j: nat)
    requires Rearranged(a, b) && i < |a.backends| && j < |b.backends| && a.backends[i] == b.backends[j]
    ensures Ahead(Caps(a), WorstFirst(Ranks(a)), i) == Ahead(Caps(b), WorstFirst(Ranks(b)), j)
    ensures Ahead(Rooms(a), BestFirst(Ranks(a)), i) == Ahead(Rooms(b), BestFirst(Ranks(b)), j)
  {
    var x := a.backends[i];
    AheadByValue(a, i);
    AheadByValue(b, j);
    var cap, room := y => WorseCap(a, x, y), y => BetterRoom(a, x, y);
    assert Values(b.backends, cap) == Values(b.backends, y => WorseCap(b, x, y));
    assert Values(b.backends, room) == Values(b.backends, y => BetterRoom(b, x, y));
    SumPermutation(a.backends, b.backends, cap);
    SumPermutation(a.backends, b.backends, room);
  }

  /** Every backend gets the same weight however the input is arranged. */
  lemma SameTarget(a: Input, b: Input, i: nat, j: nat)
    requires Rearranged(a, b) && i < |a.backends| && j < |b.backends| && a.backends[i] == b.backends[j]
    ensures Targets(a)[i] == Targets(b)[j]
  {
    SameShift(a, b);
    SameAhead(a, b, i, j);
    assert Currents(a)[i] == Currents(b)[j];
    assert Caps(a)[i] == CapOf(a, a.backends[i]) == CapOf(b, b.backends[j]) == Caps(b)[j];
    assert Rooms(a)[i] == RoomOf(a, a.backends[i]) == RoomOf(b, b.backends[j]) == Rooms(b)[j];
    assert Losses(a)[i] == Quota(Caps(a), WorstFirst(Ranks(a)), Shift(a), i);
    assert Losses(b)[j] == Quota(Caps(b), WorstFirst(Ranks(b)), Shift(b), j);
    assert Gains(a)[i] == Quota(Rooms(a), BestFirst(Ranks(a)), Shift(a), i);
    assert Gains(b)[j] == Quota(Rooms(b), BestFirst(Ranks(b)), Shift(b), j);
  }

  /** A backend of either arrangement is a backend of the other. */
  lemma SameBackends(a: Input, b: Input, i: nat) returns (j: nat)
    requires Rearranged(a, b) && i < |a.backends|
    ensures j < |b.backends| && b.backends[j] == a.backends[i]
  {
    assert a.backends[i] in multiset(b.backends);
    j :| 0 <= j < |b.backends| && b.backends[j] == a.backends[i];
  }

  /** Whatever health is found in one arrangement is found in the other. */
  lemma SameHealth(a: Input, b: Input)
    requires Rearranged(a, b)
    ensures NoneSampled(a) ==> NoneSampled(b)
    ensures NoneUnhealthy(a) ==> NoneUnhealthy(b)
    ensures NoneHealthy(a) ==> NoneHealthy(b)
  {
    forall j: nat | j < |b.backends| ensures exists i :: 0 <= i < |a.backends| && a.backends[i] == b.backends[j] {
      var i := SameBackends(b, a, j);
    }
  }

  lemma SameReason(a: Input, b: Input)
    requires Rearranged(a, b)
    ensures Decide(a).reason == Decide(b).reason
  {
    SameShift(a, b);
    SameHealth(a, b);
    SameHealth(b, a);
    ReasonOf(a);
    ReasonOf(b);
  }

  lemma ReasonOf(inp: Input)
    ensures Decide(inp).reason ==
            if inp.maxStepPercent <= 0 then StepIsZero
            else if |inp.signals| == 0 then NoSignals
            else if NoneSampled(inp) then NoSamples
            else if NoneUnhealthy(inp) then WithinThresholds
            else if NoneHealthy(inp) then NowhereSafe
            else if Shift(inp) == 0 then NoHeadroom
            else Shifted(Shift(inp))
  {
  }

  /** The decision as a whole: the same reason, changed or held alike, and the same weight for every declared name. */
  lemma SameDecision(a: Input, b: Input, x: Backend)
    requires Rearranged(a, b) && x in a.backends
    ensures Decide(a).reason == Decide(b).reason && Decide(a).changed == Decide(b).changed
    ensures Weight(Decide(a).weights, x.name) == Weight(Decide(b).weights, x.name)
  {
    SameReason(a, b);
    ChangedIffPointsMove(a);
    ChangedIffPointsMove(b);
    SameShift(a, b);
    var i: nat :| i < |a.backends| && a.backends[i] == x;
    var j := SameBackends(a, b, i);
    SameTarget(a, b, i, j);
    NextHasTargets(a);
    NextHasTargets(b);
    assert Currents(Next(a))[i] == Currents(Next(b))[j];
  }
}
