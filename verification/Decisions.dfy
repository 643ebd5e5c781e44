/** What every decision of the evaluator satisfies, for every input. */
module Decisions {
  import opened Sums
  import opened Ordering
  import opened Waterfall
  import opened Api
  import opened Evaluator

  /** A breach is a sample strictly above a positive threshold. */
  lemma BreachIffAbove(sig: Signal, name: string)
    ensures Breaches(sig, name) <==>
            sig.threshold > 0.0 && name in sig.samples && sig.samples[name] > sig.threshold
  {
    if Observes(sig, name) {
      RatioAboveOne(sig.samples[name], sig.threshold);
    }
  }

  lemma RatioAboveOne(v: real, h: real)
    requires h > 0.0
    ensures v / h > 1.0 <==> v > h
  {
    var ratio := v / h;
    assert v - h == (ratio - 1.0) * h;
  }

  /** A backend that breaches nothing scores zero, so recipients are taken in name order. */
  lemma {:induction false} HealthyScoresZero(signals: seq<Signal>, name: string)
    requires !Unhealthy(signals, name)
    ensures Score(signals, name) == 0.0
  {
    if signals != [] {
      var m := |signals| - 1;
      assert !Breaches(signals[m], name);
      assert forall k :: 0 <= k < m ==> signals[..m][k] == signals[k];
      HealthyScoresZero(signals[..m], name);
    }
  }

  lemma RecipientsInNameOrder(inp: Input, i: nat, j: nat)
    requires i < |inp.backends| && j < |inp.backends|
    requires Healthy(inp.signals, inp.backends[i].name) && Healthy(inp.signals, inp.backends[j].name)
    ensures BestFirst(Ranks(inp))(i, j) <==> NameLess(inp.backends[i].name, inp.backends[j].name)
  {
    HealthyScoresZero(inp.signals, inp.backends[i].name);
    HealthyScoresZero(inp.signals, inp.backends[j].name);
  }

  /** Losses and gains stay within what each backend may give up or take on. */
  lemma MovesWithinCaps(inp: Input)
    ensures |Losses(inp)| == |Gains(inp)| == |inp.backends|
    ensures forall i :: 0 <= i < |inp.backends| ==> 0 <= Losses(inp)[i] <= Caps(inp)[i]
    ensures forall i :: 0 <= i < |inp.backends| ==> 0 <= Gains(inp)[i] <= Rooms(inp)[i]
  {
    VectorsAreNonNegative(inp);
    forall i | 0 <= i < |inp.backends|
      ensures 0 <= Losses(inp)[i] <= Caps(inp)[i] && 0 <= Gains(inp)[i] <= Rooms(inp)[i]
    {
      assert Losses(inp)[i] == Quota(Caps(inp), WorstFirst(Ranks(inp)), Shift(inp), i);
      assert Gains(inp)[i] == Quota(Rooms(inp), BestFirst(Ranks(inp)), Shift(inp), i);
    }
  }

  /** As many points are given up as are taken on. */
  lemma MovesBalance(inp: Input)
    ensures Sum(Losses(inp)) == Sum(Gains(inp)) == Shift(inp)
  {
    VectorsAreNonNegative(inp);
    OrdersAreStrictWeak(Ranks(inp));
    SharesTotal(Caps(inp), WorstFirst(Ranks(inp)), Shift(inp));
    SharesTotal(Rooms(inp), BestFirst(Ranks(inp)), Shift(inp));
  }

  /** The total over the declared backends never changes, whatever the current weights are. */
  lemma TotalIsConserved(inp: Input)
    ensures Sum(Targets(inp)) == Sum(Currents(inp))
  {
    MovesBalance(inp);
    SumCombine(Currents(inp), Losses(inp), Gains(inp), Targets(inp));
  }

  /** A decision is a change exactly when some point can move; otherwise the weights are handed back. */
  lemma ChangedIffPointsMove(inp: Input)
    ensures Decide(inp).changed <==> Shift(inp) > 0
    ensures Decide(inp).changed ==> Decide(inp).reason == Shifted(Shift(inp))
    ensures !Decide(inp).changed ==> Decide(inp).weights == inp.current && Targets(inp) == Currents(inp)
  {
    VectorsAreNonNegative(inp);
    if inp.maxStepPercent <= 0 || |inp.signals| == 0
       || (forall i :: 0 <= i < |inp.backends| ==> !Unhealthy(inp.signals, inp.backends[i].name)) {
      SumZero(Caps(inp));
    }
    if forall i :: 0 <= i < |inp.backends| ==> !Sampled(inp.signals, inp.backends[i].name) {
      forall i | 0 <= i < |inp.backends| ensures Caps(inp)[i] == 0 {
        BreachIsSample(inp.signals, inp.backends[i].name);
      }
      SumZero(Caps(inp));
    }
    if forall i :: 0 <= i < |inp.backends| ==> !Healthy(inp.signals, inp.backends[i].name) {
      SumZero(Rooms(inp));
    }
    if Shift(inp) == 0 {
      NothingMoves(inp);
    }
  }

  lemma NothingMoves(inp: Input)
    requires Shift(inp) == 0
    ensures Targets(inp) == Currents(inp)
  {
    MovesWithinCaps(inp);
    MovesBalance(inp);
    forall i | 0 <= i < |inp.backends| ensures Losses(inp)[i] == 0 && Gains(inp)[i] == 0 {
      SumBoundsEntry(Losses(inp), i);
      SumBoundsEntry(Gains(inp), i);
    }
  }

  ghost function Next(inp: Input): Input {
    inp.(current := Decide(inp).weights)
  }

  /** Read back by name, the decision gives every declared backend its closed-form target. */
  lemma NextHasTargets(inp: Input)
    requires UniqueNames(inp.backends)
    ensures Currents(Next(inp)) == Targets(inp)
  {
    ChangedIffPointsMove(inp);
    if Decide(inp).changed {
      var ws := Named(inp.backends, Targets(inp));
      forall i: nat | i < |inp.backends| ensures Weight(ws, inp.backends[i].name) == Targets(inp)[i] {
        WeightOfListed(inp.backends, ws, i);
      }
    }
  }

  /** Backends that breach only lose, healthy ones only gain, by at most the step; unsampled ones stay. */
  lemma MoveDirections(inp: Input, i: nat)
    requires i < |inp.backends|
    ensures Unhealthy(inp.signals, inp.backends[i].name) ==>
              Currents(inp)[i] - Max(0, inp.maxStepPercent) <= Targets(inp)[i] <= Currents(inp)[i]
    ensures Healthy(inp.signals, inp.backends[i].name) ==>
              Currents(inp)[i] <= Targets(inp)[i] <= Currents(inp)[i] + Max(0, inp.maxStepPercent)
    ensures !Sampled(inp.signals, inp.backends[i].name) ==> Targets(inp)[i] == Currents(inp)[i]
  {
    MovesWithinCaps(inp);
    BreachIsSample(inp.signals, inp.backends[i].name);
  }

  function Distance(b: Backend, w: int): int {
    Max(0, Max(b.minWeight - w, w - b.maxWeight))
  }

  /** No decision takes a backend further from its declared interval, even one that starts outside it. */
  lemma NeverFurtherOut(inp: Input, i: nat)
    requires i < |inp.backends| && inp.backends[i].minWeight <= inp.backends[i].maxWeight
    ensures Distance(inp.backends[i], Targets(inp)[i]) <= Distance(inp.backends[i], Currents(inp)[i])
  {
    MovesWithinCaps(inp);
    BreachIsSample(inp.signals, inp.backends[i].name);
  }

  // ----- optimality -----

  /** Backend i only moves the way its health allows, within the step and its bounds. */
  ghost predicate AdmissibleAt(inp: Input, w: seq<int>, i: nat)
    requires |w| == |inp.backends| && i < |w|
  {
    var b, cur := inp.backends[i], Currents(inp)[i];
    if Unhealthy(inp.signals, b.name) then
      0 <= cur - w[i] <= Max(0, inp.maxStepPercent) && (w[i] != cur ==> b.minWeight <= w[i])
    else if Healthy(inp.signals, b.name) then
      0 <= w[i] - cur <= Max(0, inp.maxStepPercent) && (w[i] != cur ==> w[i] <= b.maxWeight)
    else w[i] == cur
  }

  /** A move any decision would be allowed to make: each backend within its limits, the total unchanged. */
  ghost predicate Admissible(inp: Input, w: seq<int>) {
    && |w| == |inp.backends|
    && Sum(w) == Sum(Currents(inp))
    && forall i: nat :: i < |w| ==> AdmissibleAt(inp, w, i)
  }

  ghost function GivenUp(inp: Input, w: seq<int>): seq<int>
    requires |w| == |inp.backends|
  {
    seq(|w|, i requires 0 <= i < |w| => Max(0, Currents(inp)[i] - w[i]))
  }

  ghost function TakenOn(inp: Input, w: seq<int>): seq<int>
    requires |w| == |inp.backends|
  {
    seq(|w|, i requires 0 <= i < |w| => Max(0, w[i] - Currents(inp)[i]))
  }

  /** The decision itself is admissible, and gives up and takes on exactly its losses and gains. */
  lemma DecisionIsAdmissible(inp: Input)
    ensures Admissible(inp, Targets(inp))
    ensures GivenUp(inp, Targets(inp)) == Losses(inp) && TakenOn(inp, Targets(inp)) == Gains(inp)
  {
    TotalIsConserved(inp);
    forall i: nat | i < |inp.backends|
      ensures AdmissibleAt(inp, Targets(inp), i)
      ensures GivenUp(inp, Targets(inp))[i] == Losses(inp)[i] && TakenOn(inp, Targets(inp))[i] == Gains(inp)[i]
    {
      DecisionIsAdmissibleAt(inp, i);
    }
    MovesWithinCaps(inp);
  }

  lemma DecisionIsAdmissibleAt(inp: Input, i: nat)
    requires i < |inp.backends|
    ensures AdmissibleAt(inp, Targets(inp), i)
    ensures GivenUp(inp, Targets(inp))[i] == Losses(inp)[i] && TakenOn(inp, Targets(inp))[i] == Gains(inp)[i]
  {
    MovesWithinCaps(inp);
    BreachIsSample(inp.signals, inp.backends[i].name);
    assert Caps(inp)[i] == CapOf(inp, inp.backends[i]) && Rooms(inp)[i] == RoomOf(inp, inp.backends[i]);
  }

  lemma AdmissibleWithinCaps(inp: Input, w: seq<int>)
    requires Admissible(inp, w)
    ensures forall i :: 0 <= i < |w| ==> 0 <= GivenUp(inp, w)[i] <= Caps(inp)[i]
    ensures forall i :: 0 <= i < |w| ==> 0 <= TakenOn(inp, w)[i] <= Rooms(inp)[i]
    ensures Sum(GivenUp(inp, w)) == Sum(TakenOn(inp, w)) <= Shift(inp)
  {
    forall i: nat | i < |w| ensures GivenUp(inp, w)[i] <= Caps(inp)[i] && TakenOn(inp, w)[i] <= Rooms(inp)[i] {
      assert AdmissibleAt(inp, w, i);
      BreachIsSample(inp.signals, inp.backends[i].name);
    }
    SumCombine(Currents(inp), GivenUp(inp, w), TakenOn(inp, w), w);
    SumPointwise(GivenUp(inp, w), Caps(inp));
    SumPointwise(TakenOn(inp, w), Rooms(inp));
  }

  /** No admissible move shifts more points. */
  lemma MovesMost(inp: Input, w: seq<int>)
    requires Admissible(inp, w)
    ensures Sum(GivenUp(inp, w)) <= Sum(GivenUp(inp, Targets(inp)))
  {
    AdmissibleWithinCaps(inp, w);
    DecisionIsAdmissible(inp);
    MovesBalance(inp);
  }

  /**
   Worst first: against any admissible move, the first backend in donor order
   that the two treat differently gives up more under the decision; likewise in
   recipient order for what is taken on.
   */
  lemma WorstGiveMost(inp: Input, w: seq<int>, i: nat)
    requires Admissible(inp, w) && i < |w|
    ensures (forall j: nat :: j < |w| && Leads(WorstFirst(Ranks(inp)), j, i)
                              ==> GivenUp(inp, w)[j] == GivenUp(inp, Targets(inp))[j])
            ==> GivenUp(inp, w)[i] <= GivenUp(inp, Targets(inp))[i]
    ensures (forall j: nat :: j < |w| && Leads(BestFirst(Ranks(inp)), j, i)
                              ==> TakenOn(inp, w)[j] == TakenOn(inp, Targets(inp))[j])
            ==> TakenOn(inp, w)[i] <= TakenOn(inp, Targets(inp))[i]
  {
    VectorsAreNonNegative(inp);
    AdmissibleWithinCaps(inp, w);
    DecisionIsAdmissible(inp);
    OrdersAreStrictWeak(Ranks(inp));
    if forall j: nat :: j < |w| && Leads(WorstFirst(Ranks(inp)), j, i) ==> GivenUp(inp, w)[j] == Losses(inp)[j] {
      SharesLexGreatest(Caps(inp), WorstFirst(Ranks(inp)), Shift(inp), GivenUp(inp, w), i);
    }
    if forall j: nat :: j < |w| && Leads(BestFirst(Ranks(inp)), j, i) ==> TakenOn(inp, w)[j] == Gains(inp)[j] {
      SharesLexGreatest(Rooms(inp), BestFirst(Ranks(inp)), Shift(inp), TakenOn(inp, w), i);
    }
  }
}
