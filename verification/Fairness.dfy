/** Who gives first and who takes first, told from the samples and the names alone. */
module Fairness {
  import opened Sums
  import opened Ordering
  import opened Waterfall
  import opened Api
  import opened Evaluator
  import opened Decisions

  // ----- one after the other -----

  lemma LeadsTransitive(less: Less, n: nat, i: nat, j: nat, k: nat)
    requires StrictWeakOrder(less, n) && i < n && j < n && k < n
    requires Leads(less, i, j) && Leads(less, j, k)
    ensures Leads(less, i, k)
  {
  }

  /** Whoever comes later is served only once everyone before has all it can hold. */
  lemma EarlierIsFilled(c: seq<int>, less: Less, t: int, i: nat, j: nat)
    requires StrictWeakOrder(less, |c|) && NonNegative(c) && 0 <= t
    requires i < |c| && j < |c| && i != j && Leads(less, i, j) && Shares(c, less, t)[j] > 0
    ensures Shares(c, less, t)[i] == c[i]
  {
    var upTo := Leading(c, less, i)[i := c[i]];
    AheadPlusOwn(c, less, i);
    forall k: nat | k < |c| ensures upTo[k] <= Leading(c, less, j)[k] {
      if Leads(less, k, i) {
        LeadsTransitive(less, |c|, k, i, j);
      }
    }
    SumPointwise(upTo, Leading(c, less, j));
    assert Shares(c, less, t)[j] == Quota(c, less, t, j) && Shares(c, less, t)[i] == Quota(c, less, t, i);
  }

  // ----- how far a backend is over -----

  /** By how much, relative to the threshold, a signal's sample is too high. */
  function Overshoot(sig: Signal, name: string): real {
    if sig.threshold > 0.0 && name in sig.samples && sig.samples[name] > sig.threshold
    then (sig.samples[name] - sig.threshold) / sig.threshold else 0.0
  }

  function TotalOvershoot(signals: seq<Signal>, name: string): real {
    if signals == [] then 0.0 else Overshoot(signals[0], name) + TotalOvershoot(signals[1..], name)
  }

  lemma {:induction false} OvershootOfOneMore(signals: seq<Signal>, sig: Signal, name: string)
    ensures TotalOvershoot(signals + [sig], name) == TotalOvershoot(signals, name) + Overshoot(sig, name)
  {
    if signals == [] {
      assert [sig][1..] == [];
    } else {
      assert (signals + [sig])[1..] == signals[1..] + [sig];
      OvershootOfOneMore(signals[1..], sig, name);
    }
  }

  lemma ExcessIsOvershoot(sig: Signal, name: string)
    ensures Excess(sig, name) == Overshoot(sig, name)
  {
    BreachIffAbove(sig, name);
    if sig.threshold > 0.0 && name in sig.samples {
      var v, h := sig.samples[name], sig.threshold;
      assert (v - h) / h == v / h - h / h;
    }
  }

  /** The score that ranks a backend is the total by which it is over, signal by signal. */
  lemma {:induction false} ScoreIsOvershoot(signals: seq<Signal>, name: string)
    ensures Score(signals, name) == TotalOvershoot(signals, name)
  {
    if signals != [] {
      var m := |signals| - 1;
      ScoreIsOvershoot(signals[..m], name);
      ExcessIsOvershoot(signals[m], name);
      OvershootOfOneMore(signals[..m], signals[m], name);
      assert signals[..m] + [signals[m]] == signals;
    }
  }

  /** Health told from the samples: a threshold that is not positive is no threshold. */
  lemma HealthOnSamples(signals: seq<Signal>, name: string)
    ensures Sampled(signals, name) <==>
            exists k :: 0 <= k < |signals| && signals[k].threshold > 0.0 && name in signals[k].samples
    ensures Unhealthy(signals, name) <==>
            exists k :: 0 <= k < |signals| && signals[k].threshold > 0.0 && name in signals[k].samples
                        && signals[k].samples[name] > signals[k].threshold
  {
    forall k | 0 <= k < |signals| ensures Breaches(signals[k], name) <==>
      signals[k].threshold > 0.0 && name in signals[k].samples && signals[k].samples[name] > signals[k].threshold
    {
      BreachIffAbove(signals[k], name);
    }
    if k :| 0 <= k < |signals| && signals[k].threshold > 0.0 && name in signals[k].samples {
      assert Observes(signals[k], name);
    }
  }

  // ----- donors -----

  /** i is further over than j, or just as far with the lesser name. */
  ghost predicate FurtherOver(inp: Input, i: nat, j: nat)
    requires i < |inp.backends| && j < |inp.backends|
  {
    var a, b := inp.backends[i].name, inp.backends[j].name;
    || TotalOvershoot(inp.signals, a) > TotalOvershoot(inp.signals, b)
    || (TotalOvershoot(inp.signals, a) == TotalOvershoot(inp.signals, b) && NameLess(a, b))
  }

  /** The most one decision may take from a backend. */
  function Givable(inp: Input, i: nat): int
    requires i < |inp.backends|
  {
    Max(0, Min(inp.maxStepPercent, Weight(inp.current, inp.backends[i].name) - inp.backends[i].minWeight))
  }

  /** The most one decision may give to a backend. */
  function Takable(inp: Input, i: nat): int
    requires i < |inp.backends|
  {
    Max(0, Min(inp.maxStepPercent, inp.backends[i].maxWeight - Weight(inp.current, inp.backends[i].name)))
  }

  /** A breaching backend loses a point only when each one further over has given all it may. */
  lemma WorseGivesFirst(inp: Input, i: nat, j: nat)
    requires i < |inp.backends| && j < |inp.backends|
    requires Unhealthy(inp.signals, inp.backends[i].name) && Unhealthy(inp.signals, inp.backends[j].name)
    requires FurtherOver(inp, i, j)
    ensures Losses(inp)[j] > 0 ==> Losses(inp)[i] == Caps(inp)[i]
    ensures Targets(inp)[j] < Currents(inp)[j] ==> Targets(inp)[i] == Currents(inp)[i] - Givable(inp, i)
  {
    ScoreIsOvershoot(inp.signals, inp.backends[i].name);
    ScoreIsOvershoot(inp.signals, inp.backends[j].name);
    NameLessIrreflexive(inp.backends[i].name);
    OrdersAreStrictWeak(Ranks(inp));
    VectorsAreNonNegative(inp);
    MovesWithinCaps(inp);
    if Losses(inp)[j] > 0 {
      EarlierIsFilled(Caps(inp), WorstFirst(Ranks(inp)), Shift(inp), i, j);
    }
  }

  /** The same of the weights decided on, by name. */
  lemma WorseWeightsGoFirst(inp: Input, i: nat, j: nat)
    requires UniqueNames(inp.backends) && i < |inp.backends| && j < |inp.backends|
    requires Unhealthy(inp.signals, inp.backends[i].name) && Unhealthy(inp.signals, inp.backends[j].name)
    requires FurtherOver(inp, i, j)
    ensures var a, b := inp.backends[i].name, inp.backends[j].name;
            Weight(Decide(inp).weights, b) < Weight(inp.current, b) ==>
              Weight(Decide(inp).weights, a) == Weight(inp.current, a) - Givable(inp, i)
  {
    WorseGivesFirst(inp, i, j);
    NextHasTargets(inp);
    assert forall k: nat :: k < |inp.backends| ==>
        Weight(Decide(inp).weights, inp.backends[k].name) == Currents(Next(inp))[k];
  }

  /** With one signal, the higher sample gives first. */
  lemma HigherSampleGivesFirst(inp: Input, sig: Signal, i: nat, j: nat)
    requires UniqueNames(inp.backends) && i < |inp.backends| && j < |inp.backends| && inp.signals == [sig]
    requires inp.backends[i].name in sig.samples && inp.backends[j].name in sig.samples
    requires sig.samples[inp.backends[i].name] > sig.samples[inp.backends[j].name] > sig.threshold > 0.0
    ensures var a, b := inp.backends[i].name, inp.backends[j].name;
            Weight(Decide(inp).weights, b) < Weight(inp.current, b) ==>
              Weight(Decide(inp).weights, a) == Weight(inp.current, a) - Givable(inp, i)
  {
    LargerPart(sig.samples[inp.backends[i].name] - sig.threshold, sig.samples[inp.backends[j].name] - sig.threshold,
               sig.threshold);
    OverIsUnhealthy(inp.signals, inp.backends[j].name, 0);
    HigherEverywhereGivesFirst(inp, i, j, 0);
  }

  lemma LargerPart(v: real, w: real, h: real)
    requires v > w > 0.0 && h > 0.0
    ensures v / h > w / h > 0.0
  {
    var p, q := v / h, w / h;
    assert p * h == v && q * h == w;
    assert (p - q) * h == v - w;
  }

  /** With several, one that is at least as far over on every signal and further on one gives first. */
  lemma HigherEverywhereGivesFirst(inp: Input, i: nat, j: nat, k: nat)
    requires UniqueNames(inp.backends) && i < |inp.backends| && j < |inp.backends| && k < |inp.signals|
    requires forall m :: 0 <= m < |inp.signals| ==>
               Overshoot(inp.signals[m], inp.backends[j].name) <= Overshoot(inp.signals[m], inp.backends[i].name)
    requires Overshoot(inp.signals[k], inp.backends[j].name) < Overshoot(inp.signals[k], inp.backends[i].name)
    requires Unhealthy(inp.signals, inp.backends[j].name)
    ensures var a, b := inp.backends[i].name, inp.backends[j].name;
            Weight(Decide(inp).weights, b) < Weight(inp.current, b) ==>
              Weight(Decide(inp).weights, a) == Weight(inp.current, a) - Givable(inp, i)
  {
    OvershootAddsUp(inp.signals, inp.backends[i].name, inp.backends[j].name, k);
    OverIsUnhealthy(inp.signals, inp.backends[i].name, k);
    WorseWeightsGoFirst(inp, i, j);
  }

  lemma OvershootIsAbove(sig: Signal, name: string)
    ensures Overshoot(sig, name) > 0.0 <==>
            sig.threshold > 0.0 && name in sig.samples && sig.samples[name] > sig.threshold
  {
    if Overshoot(sig, name) != 0.0 {
      var v, h := sig.samples[name], sig.threshold;
      assert (v - h) / h * h == v - h;
    }
  }

  lemma OvershootIsBreach(sig: Signal, name: string)
    ensures Breaches(sig, name) <==> Overshoot(sig, name) > 0.0
  {
    OvershootIsAbove(sig, name);
    BreachIffAbove(sig, name);
  }

  lemma OverIsUnhealthy(signals: seq<Signal>, name: string, k: nat)
    requires k < |signals|
    ensures 0.0 <= Overshoot(signals[k], name)
    ensures Overshoot(signals[k], name) > 0.0 ==> Unhealthy(signals, name)
  {
    OvershootIsAbove(signals[k], name);
    OvershootIsBreach(signals[k], name);
  }

  lemma {:induction false} OvershootAddsUp(signals: seq<Signal>, a: string, b: string, k: nat)
    requires forall m :: 0 <= m < |signals| ==> Overshoot(signals[m], b) <= Overshoot(signals[m], a)
    ensures TotalOvershoot(signals, b) <= TotalOvershoot(signals, a)
    ensures k < |signals| && Overshoot(signals[k], b) < Overshoot(signals[k], a) ==>
              TotalOvershoot(signals, b) < TotalOvershoot(signals, a)
  {
    if signals != [] {
      assert k > 0 && k < |signals| ==> signals[k] == signals[1..][k - 1];
      OvershootAddsUp(signals[1..], a, b, if k > 0 then k - 1 else |signals|);
    }
  }

  // ----- recipients -----

  /** A healthy backend gains a point only when each healthy one with a lesser name has all it may take. */
  lemma LesserNameTakesFirst(inp: Input, i: nat, j: nat)
    requires i < |inp.backends| && j < |inp.backends|
    requires Healthy(inp.signals, inp.backends[i].name) && Healthy(inp.signals, inp.backends[j].name)
    requires NameLess(inp.backends[i].name, inp.backends[j].name)
    ensures Targets(inp)[j] > Currents(inp)[j] ==> Targets(inp)[i] == Currents(inp)[i] + Takable(inp, i)
  {
    RecipientsInNameOrder(inp, i, j);
    NameLessIrreflexive(inp.backends[i].name);
    OrdersAreStrictWeak(Ranks(inp));
    VectorsAreNonNegative(inp);
    MovesWithinCaps(inp);
    if Gains(inp)[j] > 0 {
      EarlierIsFilled(Rooms(inp), BestFirst(Ranks(inp)), Shift(inp), i, j);
    }
  }
}
