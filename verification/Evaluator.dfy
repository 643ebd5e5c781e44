/** The threshold evaluator: which backends give up weight, which take it, and how much moves. */
module Evaluator {
  import opened Sums
  import opened Ordering
  import opened Waterfall
  import opened Api

  datatype Signal = Signal(name: string, samples: map<string, real>, threshold: real)

  datatype Input = Input(
    backends: seq<Backend>,
    current: seq<BackendWeight>,
    signals: seq<Signal>,
    maxStepPercent: int)

  datatype Reason =
    | StepIsZero
    | NoSignals
    | NoSamples
    | WithinThresholds
    | NowhereSafe
    | NoHeadroom
    | Shifted(points: int)

  datatype Decision = Decision(weights: seq<BackendWeight>, reason: Reason, changed: bool)

  // ----- health of one backend -----

  predicate Observes(sig: Signal, name: string) {
    sig.threshold > 0.0 && name in sig.samples
  }

  predicate Breaches(sig: Signal, name: string) {
    Observes(sig, name) && sig.samples[name] / sig.threshold > 1.0
  }

  function Excess(sig: Signal, name: string): real {
    if Breaches(sig, name) then sig.samples[name] / sig.threshold - 1.0 else 0.0
  }

  /** Summed relative excess over the signals that breach. */
  function Score(signals: seq<Signal>, name: string): real {
    if signals == [] then 0.0
    else Score(signals[..|signals| - 1], name) + Excess(signals[|signals| - 1], name)
  }

  ghost predicate Sampled(signals: seq<Signal>, name: string) {
    exists k :: 0 <= k < |signals| && Observes(signals[k], name)
  }

  ghost predicate Unhealthy(signals: seq<Signal>, name: string) {
    exists k :: 0 <= k < |signals| && Breaches(signals[k], name)
  }

  ghost predicate Healthy(signals: seq<Signal>, name: string) {
    Sampled(signals, name) && !Unhealthy(signals, name)
  }

  // ----- ranking -----

  datatype Rank = Rank(name: string, score: real)

  predicate Worse(a: Rank, b: Rank) {
    if a.score != b.score then a.score > b.score else NameLess(a.name, b.name)
  }

  predicate Better(a: Rank, b: Rank) {
    if a.score != b.score then a.score < b.score else NameLess(a.name, b.name)
  }

  function WorstFirst(ranks: seq<Rank>): Less {
    (i: nat, j: nat) => i < |ranks| && j < |ranks| && Worse(ranks[i], ranks[j])
  }

  function BestFirst(ranks: seq<Rank>): Less {
    (i: nat, j: nat) => i < |ranks| && j < |ranks| && Better(ranks[i], ranks[j])
  }

  lemma RanksAreOrdered(a: Rank, b: Rank, c: Rank)
    ensures !Worse(a, a) && !Better(a, a)
    ensures Worse(a, b) && Worse(b, c) ==> Worse(a, c)
    ensures Better(a, b) && Better(b, c) ==> Better(a, c)
    ensures Worse(a, c) ==> Worse(a, b) || Worse(b, c)
    ensures Better(a, c) ==> Better(a, b) || Better(b, c)
  {
    NameLessIrreflexive(a.name);
    NameLessTotal(a.name, b.name);
    if NameLess(a.name, b.name) && NameLess(b.name, c.name) {
      NameLessTransitive(a.name, b.name, c.name);
    }
    if NameLess(b.name, a.name) && NameLess(a.name, c.name) {
      NameLessTransitive(b.name, a.name, c.name);
    }
  }

  lemma OrdersAreStrictWeak(ranks: seq<Rank>)
    ensures StrictWeakOrder(WorstFirst(ranks), |ranks|)
    ensures StrictWeakOrder(BestFirst(ranks), |ranks|)
  {
    forall i: nat, j: nat, k: nat | i < |ranks| && j < |ranks| && k < |ranks|
      ensures var less := WorstFirst(ranks);
              !less(i, i) && (less(i, j) && less(j, k) ==> less(i, k)) && (less(i, k) ==> less(i, j) || less(j, k))
      ensures var less := BestFirst(ranks);
              !less(i, i) && (less(i, j) && less(j, k) ==> less(i, k)) && (less(i, k) ==> less(i, j) || less(j, k))
    {
      RanksAreOrdered(ranks[i], ranks[j], ranks[k]);
    }
  }

  // ----- what one decision does, without any sorting or looping -----

  function Ranks(inp: Input): seq<Rank> {
    seq(|inp.backends|, i requires 0 <= i < |inp.backends| =>
      Rank(inp.backends[i].name, Score(inp.signals, inp.backends[i].name)))
  }

  function Currents(inp: Input): seq<int> {
    seq(|inp.backends|, i requires 0 <= i < |inp.backends| => Weight(inp.current, inp.backends[i].name))
  }

  function Slack(step: int, current: int, min: int): int {
    Max(0, Min(step, current - min))
  }

  /** What a backend may give up in one decision. */
  ghost function CapOf(inp: Input, b: Backend): int {
    if Unhealthy(inp.signals, b.name)
    then Slack(inp.maxStepPercent, Weight(inp.current, b.name), b.minWeight) else 0
  }

  /** What a backend may take on in one decision. */
  ghost function RoomOf(inp: Input, b: Backend): int {
    if Healthy(inp.signals, b.name)
    then Slack(inp.maxStepPercent, b.maxWeight, Weight(inp.current, b.name)) else 0
  }

  ghost function Caps(inp: Input): seq<int> {
    seq(|inp.backends|, i requires 0 <= i < |inp.backends| => CapOf(inp, inp.backends[i]))
  }

  ghost function Rooms(inp: Input): seq<int> {
    seq(|inp.backends|, i requires 0 <= i < |inp.backends| => RoomOf(inp, inp.backends[i]))
  }

  ghost function Shift(inp: Input): int {
    Min(Sum(Caps(inp)), Sum(Rooms(inp)))
  }

  ghost function Losses(inp: Input): seq<int> {
    Shares(Caps(inp), WorstFirst(Ranks(inp)), Shift(inp))
  }

  ghost function Gains(inp: Input): seq<int> {
    Shares(Rooms(inp), BestFirst(Ranks(inp)), Shift(inp))
  }

  ghost function Targets(inp: Input): seq<int> {
    seq(|inp.backends|, i requires 0 <= i < |inp.backends| =>
      Currents(inp)[i] - Losses(inp)[i] + Gains(inp)[i])
  }

  function Hold(current: seq<BackendWeight>, reason: Reason): Decision {
    Decision(current, reason, false)
  }

  ghost predicate NoneSampled(inp: Input) {
    forall i :: 0 <= i < |inp.backends| ==> !Sampled(inp.signals, inp.backends[i].name)
  }

  ghost predicate NoneUnhealthy(inp: Input) {
    forall i :: 0 <= i < |inp.backends| ==> !Unhealthy(inp.signals, inp.backends[i].name)
  }

  ghost predicate NoneHealthy(inp: Input) {
    forall i :: 0 <= i < |inp.backends| ==> !Healthy(inp.signals, inp.backends[i].name)
  }

  ghost function Decide(inp: Input): Decision {
    if inp.maxStepPercent <= 0 then Hold(inp.current, StepIsZero)
    else if |inp.signals| == 0 then Hold(inp.current, NoSignals)
    else if NoneSampled(inp) then Hold(inp.current, NoSamples)
    else if NoneUnhealthy(inp) then Hold(inp.current, WithinThresholds)
    else if NoneHealthy(inp) then Hold(inp.current, NowhereSafe)
    else if Shift(inp) == 0 then Hold(inp.current, NoHeadroom)
    else Decision(Named(inp.backends, Targets(inp)), Shifted(Shift(inp)), true)
  }

  lemma VectorsAreNonNegative(inp: Input)
    ensures NonNegative(Caps(inp)) && NonNegative(Rooms(inp))
    ensures 0 <= Shift(inp)
  {
    SumNonNegative(Caps(inp));
    SumNonNegative(Rooms(inp));
  }

  // ----- the evaluator itself -----

  class BackendState {
    const name: string
    const min: int
    const max: int
    var current: int
    var score: real
    var haveSample: bool
    var breaches: seq<string>
    var stepBudget: int

    constructor (b: Backend, current: int, stepBudget: int)
      ensures this.name == b.name && this.min == b.minWeight && this.max == b.maxWeight
      ensures this.current == current && this.stepBudget == stepBudget
      ensures score == 0.0 && !haveSample && breaches == []
    {
      name := b.name;
      min := b.minWeight;
      max := b.maxWeight;
      this.current := current;
      this.stepBudget := stepBudget;
      score := 0.0;
      haveSample := false;
      breaches := [];
    }

    /** The state agrees with what the signals say about its backend. */
    ghost predicate Assessed(signals: seq<Signal>)
      reads this
    {
      && score == Score(signals, name)
      && haveSample == Sampled(signals, name)
      && (|breaches| > 0 <==> Unhealthy(signals, name))
    }

    method Assess(signals: seq<Signal>)
      requires score == 0.0 && !haveSample && breaches == []
      modifies `score, `haveSample, `breaches
      ensures Assessed(signals)
    {
      for i := 0 to |signals|
        invariant Assessed(signals[..i])
      {
        var sig := signals[i];
        var seen := signals[..i + 1];
        assert seen[..i] == signals[..i] && seen[i] == sig;
        assert forall k :: 0 <= k < i ==> seen[k] == signals[..i][k];
        if sig.threshold <= 0.0 || name !in sig.samples {
          continue;
        }
        haveSample := true;
        var ratio := sig.samples[name] / sig.threshold;
        if ratio > 1.0 {
          score := score + (ratio - 1.0);
          breaches := breaches + [sig.name];
        }
      }
      assert signals[..|signals|] == signals;
    }
  }

  method BuildStates(inp: Input) returns (states: seq<BackendState>)
    ensures |states| == |inp.backends| && fresh(states) && Distinct(states)
    ensures forall i :: 0 <= i < |states| ==>
              && states[i].name == inp.backends[i].name
              && states[i].min == inp.backends[i].minWeight
              && states[i].max == inp.backends[i].maxWeight
              && states[i].current == Weight(inp.current, states[i].name)
              && states[i].stepBudget == inp.maxStepPercent
              && states[i].Assessed(inp.signals)
  {
    var current: map<string, int> := map[];
    for k := 0 to |inp.current|
      invariant forall n: string :: (if n in current then current[n] else 0) == Weight(inp.current[..k], n)
    {
      var w := inp.current[k];
      assert inp.current[..k + 1][..k] == inp.current[..k];
      current := current[w.name := w.weight];
    }
    assert inp.current[..|inp.current|] == inp.current;

    states := [];
    for i := 0 to |inp.backends|
      invariant |states| == i && fresh(states) && Distinct(states)
      invariant forall k :: 0 <= k < i ==>
                  && states[k].name == inp.backends[k].name
                  && states[k].min == inp.backends[k].minWeight
                  && states[k].max == inp.backends[k].maxWeight
                  && states[k].current == Weight(inp.current, states[k].name)
                  && states[k].stepBudget == inp.maxStepPercent
                  && states[k].Assessed(inp.signals)
    {
      var b := inp.backends[i];
      var st := new BackendState(b, if b.name in current then current[b.name] else 0, inp.maxStepPercent);
      st.Assess(inp.signals);
      states := states + [st];
    }
  }

  ghost function Slacks(unhealthy: seq<BackendState>): seq<int>
    reads unhealthy
  {
    seq(|unhealthy|, k requires 0 <= k < |unhealthy| reads unhealthy =>
      Slack(unhealthy[k].stepBudget, unhealthy[k].current, unhealthy[k].min))
  }

  ghost function Headrooms(healthy: seq<BackendState>): seq<int>
    reads healthy
  {
    seq(|healthy|, k requires 0 <= k < |healthy| reads healthy =>
      Slack(healthy[k].stepBudget, healthy[k].max, healthy[k].current))
  }

  /** Position of the first entry with anything left; past the end if there is none. */
  ghost function FirstWithRoom(left: seq<int>): (k: nat)
    ensures k <= |left| && (k < |left| ==> 0 < left[k])
    ensures forall j :: 0 <= j < k ==> left[j] <= 0
  {
    if left == [] || 0 < left[0] then 0 else 1 + FirstWithRoom(left[1..])
  }

  method PickDonor(unhealthy: seq<BackendState>) returns (s: BackendState?)
    ensures s == null <==> FirstWithRoom(Slacks(unhealthy)) == |unhealthy|
    ensures s != null ==> s == unhealthy[FirstWithRoom(Slacks(unhealthy))]
  {
    for k := 0 to |unhealthy|
      invariant forall j :: 0 <= j < k ==> Slacks(unhealthy)[j] <= 0
    {
      if unhealthy[k].stepBudget > 0 && unhealthy[k].current > unhealthy[k].min {
        assert Slacks(unhealthy)[k] > 0;
        return unhealthy[k];
      }
    }
    return null;
  }

  method PickRecipient(healthy: seq<BackendState>) returns (s: BackendState?)
    ensures s == null <==> FirstWithRoom(Headrooms(healthy)) == |healthy|
    ensures s != null ==> s == healthy[FirstWithRoom(Headrooms(healthy))]
  {
    for k := 0 to |healthy|
      invariant forall j :: 0 <= j < k ==> Headrooms(healthy)[j] <= 0
    {
      if healthy[k].stepBudget > 0 && healthy[k].current < healthy[k].max {
        assert Headrooms(healthy)[k] > 0;
        return healthy[k];
      }
    }
    return null;
  }

  ghost function CurrentsOf(states: seq<BackendState>): seq<int>
    reads states
  {
    seq(|states|, k requires 0 <= k < |states| reads states => states[k].current)
  }

  ghost function BudgetsOf(states: seq<BackendState>): seq<int>
    reads states
  {
    seq(|states|, k requires 0 <= k < |states| reads states => states[k].stepBudget)
  }

  /** No backend is listed twice. */
  ghost predicate Separate(unhealthy: seq<BackendState>, healthy: seq<BackendState>) {
    && (forall i, j :: 0 <= i < j < |unhealthy| ==> unhealthy[i] != unhealthy[j])
    && (forall i, j :: 0 <= i < j < |healthy| ==> healthy[i] != healthy[j])
    && (forall i, j :: 0 <= i < |unhealthy| && 0 <= j < |healthy| ==> unhealthy[i] != healthy[j])
  }

  /** Each donor has given up moved[k] of the from[k] points and step[k] budget it started with. */
  ghost predicate Drawn(unhealthy: seq<BackendState>, from: seq<int>, step: seq<int>, moved: seq<int>)
    reads unhealthy
  {
    && |from| == |step| == |moved| == |unhealthy|
    && forall k :: 0 <= k < |unhealthy| ==>
         unhealthy[k].current == from[k] - moved[k] && unhealthy[k].stepBudget == step[k] - moved[k]
  }

  /** Each recipient has taken on moved[k] points. */
  ghost predicate Filled(healthy: seq<BackendState>, from: seq<int>, step: seq<int>, moved: seq<int>)
    reads healthy
  {
    && |from| == |step| == |moved| == |healthy|
    && forall k :: 0 <= k < |healthy| ==>
         healthy[k].current == from[k] + moved[k] && healthy[k].stepBudget == step[k] - moved[k]
  }

  /** What a vessel can still take is its capacity less what was poured. */
  ghost predicate Remaining(left: seq<int>, c: seq<int>, t: int) {
    |left| == |c| && forall k :: 0 <= k < |c| ==> left[k] == c[k] - Poured(c, t)[k]
  }

  lemma PouredWithin(c: seq<int>, t: int)
    requires NonNegative(c)
    ensures forall k :: 0 <= k < |c| ==> 0 <= Poured(c, t)[k] <= c[k]
  {
    forall k | 0 <= k < |c| ensures 0 <= Poured(c, t)[k] <= c[k] {
      assert Poured(c, t)[k] == Level(c, t, k);
    }
  }

  /** The vessel picked is where the next point belongs; with none to pick, all that fits has been poured. */
  lemma PickedIsNext(left: seq<int>, c: seq<int>, t: int)
    requires NonNegative(c) && 0 <= t && Remaining(left, c, t)
    ensures var at := FirstWithRoom(left);
            if at < |c| then t < Sum(c) && Poured(c, t + 1) == Poured(c, t)[at := Poured(c, t)[at] + 1]
            else Sum(c) <= t
  {
    var at := FirstWithRoom(left);
    if at < |c| {
      PouredStep(c, t, at);
    } else {
      FullPrefix(c, t, |c|);
      assert c[..|c|] == c;
    }
  }

  /** What both sides had when the transfer began. */
  datatype Ledger = Ledger(caps: seq<int>, donors: seq<int>, donorSteps: seq<int>,
                           rooms: seq<int>, recipients: seq<int>, recipientSteps: seq<int>)

  ghost function Opening(unhealthy: seq<BackendState>, healthy: seq<BackendState>): Ledger
    reads unhealthy, healthy
  {
    Ledger(Slacks(unhealthy), CurrentsOf(unhealthy), BudgetsOf(unhealthy),
           Headrooms(healthy), CurrentsOf(healthy), BudgetsOf(healthy))
  }

  /** t points have been moved, each from the first donor and to the first recipient that could take part. */
  ghost predicate Standing(unhealthy: seq<BackendState>, healthy: seq<BackendState>, l: Ledger, t: int)
    reads unhealthy, healthy
  {
    && 0 <= t <= Min(Sum(l.caps), Sum(l.rooms))
    && |l.caps| == |unhealthy| && |l.rooms| == |healthy|
    && Drawn(unhealthy, l.donors, l.donorSteps, Poured(l.caps, t))
    && Filled(healthy, l.recipients, l.recipientSteps, Poured(l.rooms, t))
    && (forall k :: 0 <= k < |unhealthy| ==> l.caps[k] == Slack(l.donorSteps[k], l.donors[k], unhealthy[k].min))
    && (forall k :: 0 <= k < |healthy| ==> l.rooms[k] == Slack(l.recipientSteps[k], healthy[k].max, l.recipients[k]))
  }

  lemma StandingAtStart(unhealthy: seq<BackendState>, healthy: seq<BackendState>)
    ensures Standing(unhealthy, healthy, Opening(unhealthy, healthy), 0)
  {
    var l := Opening(unhealthy, healthy);
    PouredNothing(l.caps);
    PouredNothing(l.rooms);
    SumNonNegative(l.caps);
    SumNonNegative(l.rooms);
  }

  lemma DonorsRemain(unhealthy: seq<BackendState>, from: seq<int>, step: seq<int>, c: seq<int>, t: int)
    requires NonNegative(c) && |c| == |unhealthy| && Drawn(unhealthy, from, step, Poured(c, t))
    requires forall k :: 0 <= k < |c| ==> c[k] == Slack(step[k], from[k], unhealthy[k].min)
    ensures Remaining(Slacks(unhealthy), c, t)
  {
    PouredWithin(c, t);
  }

  lemma RecipientsRemain(healthy: seq<BackendState>, from: seq<int>, step: seq<int>, r: seq<int>, t: int)
    requires NonNegative(r) && |r| == |healthy| && Filled(healthy, from, step, Poured(r, t))
    requires forall k :: 0 <= k < |r| ==> r[k] == Slack(step[k], healthy[k].max, from[k])
    ensures Remaining(Headrooms(healthy), r, t)
  {
    PouredWithin(r, t);
  }

  lemma DonorPicked(unhealthy: seq<BackendState>, healthy: seq<BackendState>, l: Ledger, t: int)
    requires Standing(unhealthy, healthy, l, t)
    ensures var at := FirstWithRoom(Slacks(unhealthy));
            if at < |unhealthy|
            then t < Sum(l.caps) && Poured(l.caps, t + 1) == Poured(l.caps, t)[at := Poured(l.caps, t)[at] + 1]
            else Sum(l.caps) <= t
  {
    DonorsRemain(unhealthy, l.donors, l.donorSteps, l.caps, t);
    PickedIsNext(Slacks(unhealthy), l.caps, t);
  }

  lemma RecipientPicked(unhealthy: seq<BackendState>, healthy: seq<BackendState>, l: Ledger, t: int)
    requires Standing(unhealthy, healthy, l, t)
    ensures var at := FirstWithRoom(Headrooms(healthy));
            if at < |healthy|
            then t < Sum(l.rooms) && Poured(l.rooms, t + 1) == Poured(l.rooms, t)[at := Poured(l.rooms, t)[at] + 1]
            else Sum(l.rooms) <= t
  {
    RecipientsRemain(healthy, l.recipients, l.recipientSteps, l.rooms, t);
    PickedIsNext(Headrooms(healthy), l.rooms, t);
  }

  /** A donor is found exactly while points are left to give, a recipient while there is room for them. */
  lemma PointsLeft(unhealthy: seq<BackendState>, healthy: seq<BackendState>, l: Ledger, t: int)
    requires Standing(unhealthy, healthy, l, t)
    ensures FirstWithRoom(Slacks(unhealthy)) < |unhealthy| && FirstWithRoom(Headrooms(healthy)) < |healthy|
            <==> t < Min(Sum(l.caps), Sum(l.rooms))
  {
    DonorPicked(unhealthy, healthy, l, t);
    RecipientPicked(unhealthy, healthy, l, t);
  }

  /** One point goes from a donor to a recipient; nobody else is touched. */
  method Exchange(unhealthy: seq<BackendState>, healthy: seq<BackendState>,
                  donor: BackendState, recipient: BackendState, ghost d: nat, ghost e: nat,
                  ghost l: Ledger, ghost p: seq<int>, ghost q: seq<int>)
    requires Separate(unhealthy, healthy)
    requires d < |unhealthy| && donor == unhealthy[d] && e < |healthy| && recipient == healthy[e]
    requires Drawn(unhealthy, l.donors, l.donorSteps, p) && Filled(healthy, l.recipients, l.recipientSteps, q)
    modifies donor`current, donor`stepBudget, recipient`current, recipient`stepBudget
    ensures Drawn(unhealthy, l.donors, l.donorSteps, p[d := p[d] + 1])
    ensures Filled(healthy, l.recipients, l.recipientSteps, q[e := q[e] + 1])
  {
    donor.current := donor.current - 1;
    donor.stepBudget := donor.stepBudget - 1;
    recipient.current := recipient.current + 1;
    recipient.stepBudget := recipient.stepBudget - 1;
  }

  /** Moving the point between those picked takes the pouring one point further on both sides. */
  method MovePoint(unhealthy: seq<BackendState>, healthy: seq<BackendState>,
                   donor: BackendState, recipient: BackendState, ghost l: Ledger, ghost t: int)
    requires Separate(unhealthy, healthy) && Standing(unhealthy, healthy, l, t)
    requires FirstWithRoom(Slacks(unhealthy)) < |unhealthy| && donor == unhealthy[FirstWithRoom(Slacks(unhealthy))]
    requires FirstWithRoom(Headrooms(healthy)) < |healthy| && recipient == healthy[FirstWithRoom(Headrooms(healthy))]
    modifies donor`current, donor`stepBudget, recipient`current, recipient`stepBudget
    ensures Standing(unhealthy, healthy, l, t + 1)
  {
    DonorPicked(unhealthy, healthy, l, t);
    RecipientPicked(unhealthy, healthy, l, t);
    Exchange(unhealthy, healthy, donor, recipient, FirstWithRoom(Slacks(unhealthy)), FirstWithRoom(Headrooms(healthy)),
             l, Poured(l.caps, t), Poured(l.rooms, t));
  }

  /** One turn of the transfer loop: moves a point unless a donor or a recipient is missing. */
  method TransferOne(unhealthy: seq<BackendState>, healthy: seq<BackendState>, ghost l: Ledger, ghost t: int)
    returns (moved: bool)
    requires Separate(unhealthy, healthy) && Standing(unhealthy, healthy, l, t)
    modifies unhealthy`current, unhealthy`stepBudget, healthy`current, healthy`stepBudget
    ensures moved <==> t < Min(Sum(l.caps), Sum(l.rooms))
    ensures Standing(unhealthy, healthy, l, if moved then t + 1 else t)
  {
    var donor := PickDonor(unhealthy);
    var recipient := PickRecipient(healthy);
    PointsLeft(unhealthy, healthy, l, t);
    if donor == null || recipient == null {
      return false;
    }
    MovePoint(unhealthy, healthy, donor, recipient, l, t);
    return true;
  }

  /** Moves one point at a time until no donor or no recipient is left. */
  method Transfer(unhealthy: seq<BackendState>, healthy: seq<BackendState>) returns (shifted: int)
    requires Separate(unhealthy, healthy)
    modifies unhealthy`current, unhealthy`stepBudget, healthy`current, healthy`stepBudget
    ensures shifted == Min(Sum(old(Slacks(unhealthy))), Sum(old(Headrooms(healthy))))
    ensures Standing(unhealthy, healthy, old(Opening(unhealthy, healthy)), shifted)
  {
    ghost var l := Opening(unhealthy, healthy);
    StandingAtStart(unhealthy, healthy);
    shifted := 0;
    while true
      invariant Standing(unhealthy, healthy, l, shifted)
      decreases Min(Sum(l.caps), Sum(l.rooms)) - shifted
    {
      var moved := TransferOne(unhealthy, healthy, l, shifted);
      if !moved {
        break;
      }
      shifted := shifted + 1;
    }
  }

  /** Splits the sampled backends into those that breach and those that do not. */
  method Classify(inp: Input, states: seq<BackendState>)
    returns (unhealthy: seq<nat>, healthy: seq<nat>, missing: nat)
    requires |states| == |inp.backends|
    requires forall i :: 0 <= i < |states| ==> states[i].name == inp.backends[i].name && states[i].Assessed(inp.signals)
    ensures Increasing(unhealthy) && Below(unhealthy, |states|)
    ensures Increasing(healthy) && Below(healthy, |states|)
    ensures forall i: nat :: i < |states| ==> (i in unhealthy <==> Unhealthy(inp.signals, inp.backends[i].name))
    ensures forall i: nat :: i < |states| ==> (i in healthy <==> Healthy(inp.signals, inp.backends[i].name))
    ensures missing == |states| <==> forall i :: 0 <= i < |states| ==> !Sampled(inp.signals, inp.backends[i].name)
  {
    unhealthy, healthy, missing := [], [], 0;
    for i := 0 to |states|
      invariant Increasing(unhealthy) && Below(unhealthy, i)
      invariant Increasing(healthy) && Below(healthy, i)
      invariant forall j: nat :: j < i ==> (j in unhealthy <==> Unhealthy(inp.signals, inp.backends[j].name))
      invariant forall j: nat :: j < i ==> (j in healthy <==> Healthy(inp.signals, inp.backends[j].name))
      invariant missing <= i
      invariant missing == i <==> forall j :: 0 <= j < i ==> !Sampled(inp.signals, inp.backends[j].name)
    {
      var s := states[i];
      BreachIsSample(inp.signals, s.name);
      if !s.haveSample {
        missing := missing + 1;
        continue;
      }
      if |s.breaches| > 0 {
        unhealthy := unhealthy + [i];
      } else {
        healthy := healthy + [i];
      }
    }
  }

  lemma BreachIsSample(signals: seq<Signal>, name: string)
    ensures Unhealthy(signals, name) ==> Sampled(signals, name)
  {
    if Unhealthy(signals, name) {
      var k :| 0 <= k < |signals| && Breaches(signals[k], name);
      assert Observes(signals[k], name);
    }
  }

  function Pointers(states: seq<BackendState>, ix: seq<nat>): seq<BackendState>
    requires Below(ix, |states|)
  {
    seq(|ix|, k requires 0 <= k < |ix| => states[ix[k]])
  }

  lemma PointersAreSeparate(states: seq<BackendState>, u: seq<nat>, h: seq<nat>)
    requires Distinct(states) && Below(u, |states|) && Below(h, |states|) && Distinct(u) && Distinct(h)
    requires forall i: nat :: i in u ==> i !in h
    ensures Separate(Pointers(states, u), Pointers(states, h))
  {
    forall i, j | 0 <= i < |u| && 0 <= j < |h| ensures states[u[i]] != states[h[j]] {
      assert u[i] in u && h[j] in h;
    }
  }

  lemma NotPointedAt(states: seq<BackendState>, ord: seq<nat>, i: nat)
    requires forall i, j :: 0 <= i < j < |states| ==> states[i] != states[j]
    requires Below(ord, |states|) && i < |states| && i !in ord
    ensures states[i] !in Pointers(states, ord)
  {
    forall k | 0 <= k < |ord| ensures states[ord[k]] != states[i] {
      assert ord[k] in ord;
    }
  }

  /** The backend states carry the input's numbers. */
  ghost predicate Initial(inp: Input, states: seq<BackendState>)
    reads states
  {
    && |states| == |inp.backends|
    && (forall i, j :: 0 <= i < j < |states| ==> states[i] != states[j])
    && forall i :: 0 <= i < |states| ==>
         && states[i].name == inp.backends[i].name
         && states[i].min == inp.backends[i].minWeight
         && states[i].max == inp.backends[i].maxWeight
         && states[i].current == Currents(inp)[i]
         && states[i].stepBudget == inp.maxStepPercent
         && states[i].Assessed(inp.signals)
  }

  /** Going along donors, the closed-form losses are the capacities poured out in turn. */
  ghost predicate DonorSide(inp: Input, states: seq<BackendState>, donors: seq<nat>)
    reads states
  {
    && Below(donors, |states|) && |states| == |inp.backends| && Distinct(donors)
    && Slacks(Pointers(states, donors)) == Select(Caps(inp), donors)
    && Sum(Slacks(Pointers(states, donors))) == Sum(Caps(inp))
    && Select(Losses(inp), donors) == Poured(Select(Caps(inp), donors), Shift(inp))
    && forall j: nat :: j < |states| && j !in donors ==> Losses(inp)[j] == 0
  }

  ghost predicate RecipientSide(inp: Input, states: seq<BackendState>, recipients: seq<nat>)
    reads states
  {
    && Below(recipients, |states|) && |states| == |inp.backends| && Distinct(recipients)
    && Headrooms(Pointers(states, recipients)) == Select(Rooms(inp), recipients)
    && Sum(Headrooms(Pointers(states, recipients))) == Sum(Rooms(inp))
    && Select(Gains(inp), recipients) == Poured(Select(Rooms(inp), recipients), Shift(inp))
    && forall j: nat :: j < |states| && j !in recipients ==> Gains(inp)[j] == 0
  }

  lemma DonorsListed(inp: Input, at: seq<nat>, ord: seq<nat>)
    requires Increasing(at) && Below(at, |inp.backends|) && ord == StableSort(at, WorstFirst(Ranks(inp)))
    requires forall i: nat :: i < |inp.backends| ==> (i in at <==> Unhealthy(inp.signals, inp.backends[i].name))
    ensures Below(ord, |inp.backends|) && Distinct(ord)
    ensures forall k: nat :: k < |ord| ==> Unhealthy(inp.signals, inp.backends[ord[k]].name)
    ensures Sum(Select(Caps(inp), ord)) == Sum(Caps(inp))
    ensures Select(Losses(inp), ord) == Poured(Select(Caps(inp), ord), Shift(inp))
    ensures forall j: nat :: j < |inp.backends| && j !in ord ==> Losses(inp)[j] == 0
  {
    var less := WorstFirst(Ranks(inp));
    OrdersAreStrictWeak(Ranks(inp));
    SortedLists(Caps(inp), less, at);
    SumAlong(Caps(inp), ord);
    SharesArePoured(Caps(inp), less, ord, Shift(inp));
    SortMembers(at, less);
    forall k: nat | k < |ord| ensures Unhealthy(inp.signals, inp.backends[ord[k]].name) {
      assert ord[k] in at;
    }
  }

  lemma DonorsCarryCaps(inp: Input, states: seq<BackendState>, ord: seq<nat>)
    requires Initial(inp, states) && Below(ord, |states|)
    requires forall k: nat :: k < |ord| ==> Unhealthy(inp.signals, inp.backends[ord[k]].name)
    ensures Slacks(Pointers(states, ord)) == Select(Caps(inp), ord)
  {
    forall k: nat | k < |ord| ensures Slacks(Pointers(states, ord))[k] == CapOf(inp, inp.backends[ord[k]]) {
      assert Pointers(states, ord)[k] == states[ord[k]];
    }
  }

  lemma SortedDonors(inp: Input, states: seq<BackendState>, at: seq<nat>)
    requires Initial(inp, states) && Increasing(at) && Below(at, |states|)
    requires forall i: nat :: i < |states| ==> (i in at <==> Unhealthy(inp.signals, inp.backends[i].name))
    ensures DonorSide(inp, states, StableSort(at, WorstFirst(Ranks(inp))))
  {
    var ord := StableSort(at, WorstFirst(Ranks(inp)));
    DonorsListed(inp, at, ord);
    DonorsCarryCaps(inp, states, ord);
  }

  lemma RecipientsListed(inp: Input, at: seq<nat>, ord: seq<nat>)
    requires Increasing(at) && Below(at, |inp.backends|) && ord == StableSort(at, BestFirst(Ranks(inp)))
    requires forall i: nat :: i < |inp.backends| ==> (i in at <==> Healthy(inp.signals, inp.backends[i].name))
    ensures Below(ord, |inp.backends|) && Distinct(ord)
    ensures forall k: nat :: k < |ord| ==> Healthy(inp.signals, inp.backends[ord[k]].name)
    ensures Sum(Select(Rooms(inp), ord)) == Sum(Rooms(inp))
    ensures Select(Gains(inp), ord) == Poured(Select(Rooms(inp), ord), Shift(inp))
    ensures forall j: nat :: j < |inp.backends| && j !in ord ==> Gains(inp)[j] == 0
  {
    var less := BestFirst(Ranks(inp));
    OrdersAreStrictWeak(Ranks(inp));
    SortedLists(Rooms(inp), less, at);
    SumAlong(Rooms(inp), ord);
    SharesArePoured(Rooms(inp), less, ord, Shift(inp));
    SortMembers(at, less);
    forall k: nat | k < |ord| ensures Healthy(inp.signals, inp.backends[ord[k]].name) {
      assert ord[k] in at;
    }
  }

  lemma RecipientsCarryRooms(inp: Input, states: seq<BackendState>, ord: seq<nat>)
    requires Initial(inp, states) && Below(ord, |states|)
    requires forall k: nat :: k < |ord| ==> Healthy(inp.signals, inp.backends[ord[k]].name)
    ensures Headrooms(Pointers(states, ord)) == Select(Rooms(inp), ord)
  {
    forall k: nat | k < |ord| ensures Headrooms(Pointers(states, ord))[k] == RoomOf(inp, inp.backends[ord[k]]) {
      assert Pointers(states, ord)[k] == states[ord[k]];
    }
  }

  lemma SortedRecipients(inp: Input, states: seq<BackendState>, at: seq<nat>)
    requires Initial(inp, states) && Increasing(at) && Below(at, |states|)
    requires forall i: nat :: i < |states| ==> (i in at <==> Healthy(inp.signals, inp.backends[i].name))
    ensures RecipientSide(inp, states, StableSort(at, BestFirst(Ranks(inp))))
  {
    var ord := StableSort(at, BestFirst(Ranks(inp)));
    RecipientsListed(inp, at, ord);
    RecipientsCarryRooms(inp, states, ord);
  }

  /** Sorts both sides and moves the weight: every backend ends at its closed-form target. */
  method Rebalance(inp: Input, states: seq<BackendState>, unhealthyAt: seq<nat>, healthyAt: seq<nat>)
    returns (shifted: int)
    requires Initial(inp, states)
    requires Increasing(unhealthyAt) && Below(unhealthyAt, |states|)
    requires Increasing(healthyAt) && Below(healthyAt, |states|)
    requires forall i: nat :: i < |states| ==> (i in unhealthyAt <==> Unhealthy(inp.signals, inp.backends[i].name))
    requires forall i: nat :: i < |states| ==> (i in healthyAt <==> Healthy(inp.signals, inp.backends[i].name))
    modifies states
    ensures shifted == Shift(inp)
    ensures CurrentsOf(states) == Targets(inp)
  {
    var ranks := seq(|states|, i requires 0 <= i < |states| reads states => Rank(states[i].name, states[i].score));
    assert ranks == Ranks(inp);
    var donors := StableSort(unhealthyAt, WorstFirst(ranks));
    var recipients := StableSort(healthyAt, BestFirst(ranks));
    SortedDonors(inp, states, unhealthyAt);
    SortedRecipients(inp, states, healthyAt);
    SortMembers(unhealthyAt, WorstFirst(ranks));
    SortMembers(healthyAt, BestFirst(ranks));
    shifted := ShiftAlong(inp, states, donors, recipients);
  }

  method ShiftAlong(inp: Input, states: seq<BackendState>, donors: seq<nat>, recipients: seq<nat>)
    returns (shifted: int)
    requires Initial(inp, states)
    requires DonorSide(inp, states, donors) && RecipientSide(inp, states, recipients)
    requires forall i: nat :: i in donors ==> i !in recipients
    modifies states
    ensures shifted == Shift(inp)
    ensures CurrentsOf(states) == Targets(inp)
  {
    var unhealthy, healthy := Pointers(states, donors), Pointers(states, recipients);
    PointersAreSeparate(states, donors, recipients);
    assert CurrentsOf(unhealthy) == Select(Currents(inp), donors);
    assert CurrentsOf(healthy) == Select(Currents(inp), recipients);
    shifted := Transfer(unhealthy, healthy);
    DonorsLanded(inp, states, donors, old(BudgetsOf(Pointers(states, donors))));
    RecipientsLanded(inp, states, recipients, old(BudgetsOf(Pointers(states, recipients))));
    forall i: nat | i < |states| && i !in donors && i !in recipients
      ensures states[i].current == Currents(inp)[i]
    {
      NotPointedAt(states, donors, i);
      NotPointedAt(states, recipients, i);
    }
    TargetsFromLists(inp, CurrentsOf(states), donors, recipients);
  }

  lemma DonorsLanded(inp: Input, states: seq<BackendState>, donors: seq<nat>, steps: seq<int>)
    requires |states| == |inp.backends| && Below(donors, |states|)
    requires Drawn(Pointers(states, donors), Select(Currents(inp), donors), steps, Select(Losses(inp), donors))
    ensures forall k: nat :: k < |donors| ==>
              states[donors[k]].current == Currents(inp)[donors[k]] - Losses(inp)[donors[k]]
  {
    forall k: nat | k < |donors|
      ensures states[donors[k]].current == Currents(inp)[donors[k]] - Losses(inp)[donors[k]]
    {
      assert Pointers(states, donors)[k] == states[donors[k]];
    }
  }

  lemma RecipientsLanded(inp: Input, states: seq<BackendState>, recipients: seq<nat>, steps: seq<int>)
    requires |states| == |inp.backends| && Below(recipients, |states|)
    requires Filled(Pointers(states, recipients), Select(Currents(inp), recipients), steps,
                    Select(Gains(inp), recipients))
    ensures forall k: nat :: k < |recipients| ==>
              states[recipients[k]].current == Currents(inp)[recipients[k]] + Gains(inp)[recipients[k]]
  {
    forall k: nat | k < |recipients|
      ensures states[recipients[k]].current == Currents(inp)[recipients[k]] + Gains(inp)[recipients[k]]
    {
      assert Pointers(states, recipients)[k] == states[recipients[k]];
    }
  }

  lemma TargetsFromLists(inp: Input, final: seq<int>, donors: seq<nat>, recipients: seq<nat>)
    requires |final| == |inp.backends|
    requires forall i: nat :: i in donors ==> i !in recipients
    requires Below(donors, |final|) && Below(recipients, |final|)
    requires forall j: nat :: j < |final| && j !in donors ==> Losses(inp)[j] == 0
    requires forall j: nat :: j < |final| && j !in recipients ==> Gains(inp)[j] == 0
    requires forall k: nat :: k < |donors| ==>
               final[donors[k]] == Currents(inp)[donors[k]] - Losses(inp)[donors[k]]
    requires forall k: nat :: k < |recipients| ==>
               final[recipients[k]] == Currents(inp)[recipients[k]] + Gains(inp)[recipients[k]]
    requires forall i: nat :: i < |final| && i !in donors && i !in recipients ==> final[i] == Currents(inp)[i]
    ensures final == Targets(inp)
  {
    forall i: nat | i < |final| ensures final[i] == Currents(inp)[i] - Losses(inp)[i] + Gains(inp)[i] {
      if i in donors {
        var k :| 0 <= k < |donors| && donors[k] == i;
        assert i !in recipients;
      } else if i in recipients {
        var k :| 0 <= k < |recipients| && recipients[k] == i;
      }
    }
  }

  method Evaluate(inp: Input) returns (d: Decision)
    ensures d == Decide(inp)
  {
    if inp.maxStepPercent <= 0 {
      return Hold(inp.current, StepIsZero);
    }
    if |inp.signals| == 0 {
      return Hold(inp.current, NoSignals);
    }
    var states := BuildStates(inp);
    var unhealthyAt, healthyAt, missing := Classify(inp, states);
    if missing == |states| {
      return Hold(inp.current, NoSamples);
    }
    if |unhealthyAt| == 0 {
      return Hold(inp.current, WithinThresholds);
    }
    if |healthyAt| == 0 {
      return Hold(inp.current, NowhereSafe);
    }
    assert Unhealthy(inp.signals, inp.backends[unhealthyAt[0]].name);
    assert Healthy(inp.signals, inp.backends[healthyAt[0]].name);
    var shifted := Rebalance(inp, states, unhealthyAt, healthyAt);
    if shifted == 0 {
      return Hold(inp.current, NoHeadroom);
    }
    var out := Collect(inp, states);
    return Decision(out, Shifted(shifted), true);
  }

  method Collect(inp: Input, states: seq<BackendState>) returns (out: seq<BackendWeight>)
    requires |states| == |inp.backends|
    requires forall i :: 0 <= i < |states| ==> states[i].name == inp.backends[i].name
    requires CurrentsOf(states) == Targets(inp)
    ensures out == Named(inp.backends, Targets(inp))
  {
    out := [];
    for i := 0 to |states|
      invariant |out| == i
      invariant forall k :: 0 <= k < i ==> out[k] == BackendWeight(states[k].name, states[k].current)
    {
      out := out + [BackendWeight(states[i].name, states[i].current)];
    }
  }
}
