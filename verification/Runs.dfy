/** Properties of every run of the control loop. */
module Runs {
  import opened Sums
  import opened Api
  import opened Reconciling
  import E = Evaluator
  import D = Decisions
  import A = Apportionment
  import S = Smoothing
  import R = Router

  /** One turn of the loop: what the reconcile finds, and how its environment behaves. */
  datatype Round = Round(world: World, env: Env)

  ghost function After(cfg: Config, r: Round): Outcome
    requires Configured(cfg) && Admits(r.env)
  {
    Step(cfg, r.world, r.env)
  }

  /**
   Each reconcile starts from the status the previous one left stored. The
   route and the smoother's buffers may be changed by others in between.
   */
  ghost predicate IsRun(cfg: Config, run: seq<Round>) {
    && Configured(cfg)
    && (forall i :: 0 <= i < |run| ==> Admits(run[i].env))
    && (forall i :: 0 <= i < |run| - 1 ==> run[i + 1].world.status == After(cfg, run[i]).world.status)
  }

  /** The stored status once n rounds have been taken. */
  ghost function StatusAfter(cfg: Config, run: seq<Round>, n: nat): Status
    requires IsRun(cfg, run) && 0 < |run| && n <= |run|
  {
    if n == 0 then run[0].world.status else After(cfg, run[n - 1]).world.status
  }

  /** The reconcile gets as far as looking at metrics. */
  ghost predicate Active(env: Env) {
    env.fetch.Found? && A.ValidBackends(env.fetch.spec.backends) && !env.fetch.spec.paused
  }

  // ----- the weights at rest -----

  /** No weights yet, or one for each declared backend in order, within bounds, totalling 100. */
  ghost predicate Sound(backends: seq<Backend>, ws: seq<BackendWeight>) {
    ws == [] || (ListsBackends(backends, ws) && A.Allocation(backends, R.WeightsOf(ws)))
  }

  lemma CurrentsAreWeights(inp: E.Input)
    requires UniqueNames(inp.backends) && ListsBackends(inp.backends, inp.current)
    ensures E.Currents(inp) == R.WeightsOf(inp.current)
  {
    forall i: nat | i < |inp.backends| ensures E.Currents(inp)[i] == inp.current[i].weight {
      WeightOfListed(inp.backends, inp.current, i);
    }
  }

  lemma DecisionKeepsSound(inp: E.Input)
    requires A.ValidBackends(inp.backends) && inp.current != [] && Sound(inp.backends, inp.current)
    ensures Sound(inp.backends, E.Decide(inp).weights) && E.Decide(inp).weights != []
  {
    D.ChangedIffPointsMove(inp);
    if E.Decide(inp).changed {
      var ws := E.Decide(inp).weights;
      assert R.WeightsOf(ws) == E.Targets(inp);
      CurrentsAreWeights(inp);
      D.TotalIsConserved(inp);
      forall i: nat | i < |inp.backends|
        ensures inp.backends[i].minWeight <= E.Targets(inp)[i] <= inp.backends[i].maxWeight
      {
        D.NeverFurtherOut(inp, i);
      }
    }
  }

  lemma StartIsSound(backends: seq<Backend>, order: seq<nat>)
    requires A.ValidBackends(backends) && A.ShareOrder(backends, order)
    ensures Sound(backends, StartingWeights(backends, order)) && StartingWeights(backends, order) != []
  {
    A.InitialIsAllocation(backends, order);
    assert R.WeightsOf(StartingWeights(backends, order)) == A.InitialSplit(backends, order);
  }

  lemma EvaluationKeepsSound(cfg: Config, spec: PolicySpec, status: Status, w: World, env: Env)
    requires Configured(cfg) && A.ValidBackends(spec.backends)
    requires status.weights != [] && Sound(spec.backends, status.weights)
    ensures var ev := Evaluation(cfg, spec, status, w.data, env);
            Sound(spec.backends, ev.status.weights) && ev.status.weights != []
  {
    var sensed := Sense(cfg, spec, w.data, env, |SignalSpecs(spec)|);
    DecisionKeepsSound(DecisionInput(spec, status, sensed.signals));
  }

  lemma ActiveStepKeepsSound(cfg: Config, w: World, env: Env, spec: PolicySpec)
    requires Configured(cfg) && A.ValidBackends(spec.backends) && A.ShareOrder(spec.backends, env.shareOrder)
    requires Sound(spec.backends, w.status.weights)
    ensures Sound(spec.backends, ActiveStep(cfg, w, env, spec).world.status.weights)
  {
    StartIsSound(spec.backends, env.shareOrder);
    EvaluationKeepsSound(cfg, spec, WithWeights(w.status, spec, env.shareOrder), w, env);
  }

  ghost predicate DeclaresOnly(run: seq<Round>, backends: seq<Backend>) {
    forall i :: 0 <= i < |run| && run[i].env.fetch.Found? ==> run[i].env.fetch.spec.backends == backends
  }

  /**
   While the declared backends stay the same and valid, the stored weights are
   sound after every reconcile, whatever metrics, routes and patches do.
   */
  lemma {:induction false} WeightsStaySound(cfg: Config, run: seq<Round>, backends: seq<Backend>, n: nat)
    requires IsRun(cfg, run) && 0 < |run| && n <= |run|
    requires A.ValidBackends(backends) && DeclaresOnly(run, backends)
    requires Sound(backends, run[0].world.status.weights)
    ensures Sound(backends, StatusAfter(cfg, run, n).weights)
  {
    if n > 0 {
      WeightsStaySound(cfg, run, backends, n - 1);
      var r := run[n - 1];
      assert r.world.status == StatusAfter(cfg, run, n - 1);
      if Active(r.env) {
        ActiveStepKeepsSound(cfg, r.world, r.env, r.env.fetch.spec);
      }
    }
  }

  // ----- the rate of change -----

  /** The stored weights and the time of their last change are both as before. */
  ghost predicate Unmoved(before: Status, after: Status) {
    after.weights == before.weights && after.lastWeightChangeTime == before.lastWeightChangeTime
  }

  /** A cooled-down decision has moved weight, and its time is on record with it. */
  ghost predicate MovedBy(before: Status, after: Status, env: Env, inp: E.Input) {
    && env.fetch.Found? && A.ValidBackends(env.fetch.spec.backends)
    && inp.backends == env.fetch.spec.backends && inp.current == before.weights
    && inp.maxStepPercent == StepOf(env.fetch.spec.strategy)
    && E.Decide(inp).changed && after.weights == E.Decide(inp).weights
    && CooldownElapsed(before, env.fetch.spec.strategy, env.checkedAt)
    && after.lastWeightChangeTime == Some(env.changedAt)
  }

  /** The status an evaluation starts from: an active reconcile first gives weights to a policy without any. */
  ghost function Start(status: Status, env: Env): Status
    requires Admits(env)
  {
    if Active(env) then WithWeights(status, env.fetch.spec, env.shareOrder) else status
  }

  /** What an active reconcile makes of the metrics, and the weights it goes on to write. */
  ghost function Weighed(cfg: Config, r: Round): Evaluated
    requires Configured(cfg) && Admits(r.env) && Active(r.env)
  {
    Evaluation(cfg, r.env.fetch.spec, Start(r.world.status, r.env), r.world.data, r.env)
  }

  /** An active reconcile stores the weights and the change time it arrived at, or leaves both. */
  lemma StoredMove(cfg: Config, r: Round)
    requires Configured(cfg) && Admits(r.env) && Active(r.env)
    ensures Unmoved(if r.env.statusPatchOk then Weighed(cfg, r).status else r.world.status, After(cfg, r).world.status)
  {
  }

  /** An evaluation moves the weights by a cooled-down decision, or leaves them. */
  lemma EvaluationMoves(cfg: Config, r: Round) returns (inp: E.Input)
    requires Configured(cfg) && Admits(r.env) && Active(r.env)
    ensures var start := Start(r.world.status, r.env);
            Unmoved(start, Weighed(cfg, r).status) || MovedBy(start, Weighed(cfg, r).status, r.env, inp)
  {
    var spec := r.env.fetch.spec;
    var sensed := Sense(cfg, spec, r.world.data, r.env, |SignalSpecs(spec)|);
    inp := DecisionInput(spec, Start(r.world.status, r.env), sensed.signals);
  }

  /**
   Stored weights only ever move by a decision whose cooldown had elapsed, or
   from none to the starting weights.
   */
  lemma OnlyDecisionsMove(cfg: Config, r: Round) returns (inp: E.Input)
    requires Configured(cfg) && Admits(r.env)
    ensures var before, after := r.world.status, After(cfg, r).world.status;
            || Unmoved(before, after)
            || Unmoved(Start(before, r.env), after)
            || MovedBy(Start(before, r.env), after, r.env, inp)
  {
    inp := E.Input([], [], [], 0);
    if Active(r.env) {
      StoredMove(cfg, r);
      inp := EvaluationMoves(cfg, r);
    } else {
      IdleKeepsMoves(cfg, r);
    }
  }

  lemma IdleKeepsMoves(cfg: Config, r: Round)
    requires Configured(cfg) && Admits(r.env) && !Active(r.env)
    ensures Unmoved(r.world.status, After(cfg, r).world.status)
  {
  }

  ghost predicate Declares(spec: PolicySpec, name: string) {
    Declared(spec.backends, name)
  }

  /** Step size and cooldown stay the same, and name is declared throughout; the rest of the spec may change. */
  ghost predicate Steady(run: seq<Round>, step: int, cooldown: int, name: string) {
    forall i :: 0 <= i < |run| && run[i].env.fetch.Found? ==>
      var spec := run[i].env.fetch.spec;
      StepOf(spec.strategy) == step && CooldownOf(spec.strategy) == cooldown && Declares(spec, name)
  }

  ghost predicate ClockAdvances(run: seq<Round>) {
    && (forall i :: 0 <= i < |run| ==> run[i].env.checkedAt <= run[i].env.changedAt <= run[i].env.evaluatedAt)
    && (forall i :: 0 <= i < |run| - 1 ==> run[i].env.evaluatedAt <= run[i + 1].env.checkedAt)
  }

  function Abs(x: int): int {
    if x < 0 then -x else x
  }

  /** One decision changes a declared backend's weight by at most the step. */
  lemma DecisionWithinStep(inp: E.Input, name: string)
    requires UniqueNames(inp.backends) && 0 <= inp.maxStepPercent
    requires Declared(inp.backends, name)
    ensures Abs(Weight(E.Decide(inp).weights, name) - Weight(inp.current, name)) <= inp.maxStepPercent
  {
    var i: nat :| i < |inp.backends| && inp.backends[i].name == name;
    D.NextHasTargets(inp);
    D.MoveDirections(inp, i);
    assert Weight(E.Decide(inp).weights, name) == E.Currents(D.Next(inp))[i];
    assert Weight(inp.current, name) == E.Currents(inp)[i];
    E.BreachIsSample(inp.signals, name);
  }

  /** The pace kept since time t0, when name had weight w0: k changes, a cooldown apart, the last on record. */
  datatype Pace = Pace(w0: int, t0: int, step: int, cooldown: int, name: string)

  ghost predicate Keeps(p: Pace, s: Status, now: int, k: nat) {
    && s.weights != []
    && Abs(Weight(s.weights, p.name) - p.w0) <= p.step * k
    && (k > 0 ==> s.lastWeightChangeTime.Some?
                  && p.t0 + (k - 1) * p.cooldown <= s.lastWeightChangeTime.value <= now)
  }

  /** One more change keeps the pace: a whole cooldown after the last, and within one step. */
  lemma ChangeKeepsPace(p: Pace, before: Status, after: Status, env: Env, inp: E.Input, now: int, k: nat)
    requires Keeps(p, before, now, k) && p.t0 <= env.checkedAt <= env.changedAt
    requires MovedBy(before, after, env, inp) && 0 < p.step && StepOf(env.fetch.spec.strategy) == p.step
    requires CooldownOf(env.fetch.spec.strategy) == p.cooldown && Declares(env.fetch.spec, p.name)
    ensures Keeps(p, after, env.changedAt, k + 1)
  {
    DecisionWithinStep(inp, p.name);
    DecisionIsNotEmpty(inp);
    OneMoreChange(p.step, p.cooldown, k);
  }

  lemma DecisionIsNotEmpty(inp: E.Input)
    requires inp.current != [] && inp.backends != []
    ensures E.Decide(inp).weights != []
  {
    D.ChangedIffPointsMove(inp);
  }

  lemma OneMoreChange(step: int, cooldown: int, k: nat)
    ensures step * (k + 1) == step * k + step
    ensures k > 0 ==> k * cooldown == (k - 1) * cooldown + cooldown
  {
  }

  lemma {:induction false} StartsInOrder(run: seq<Round>, n: nat)
    requires ClockAdvances(run) && n < |run|
    ensures run[0].env.checkedAt <= run[n].env.checkedAt
  {
    if n > 0 {
      StartsInOrder(run, n - 1);
    }
  }

  /** Whatever an active reconcile arrives at keeps the pace, be it stored or not. */
  lemma EvaluationKeepsPace(cfg: Config, r: Round, p: Pace, now: int, k: nat) returns (k': nat)
    requires Configured(cfg) && Admits(r.env) && Active(r.env) && Keeps(p, r.world.status, now, k)
    requires TurnOf(p, r, now)
    ensures Keeps(p, Weighed(cfg, r).status, r.env.evaluatedAt, k')
  {
    var before, after := r.world.status, Weighed(cfg, r).status;
    var inp := EvaluationMoves(cfg, r);
    if Unmoved(before, after) {
      k' := k;
      StillKeeps(p, before, after, now, r.env.evaluatedAt, k);
    } else {
      k' := k + 1;
      ChangeKeepsPace(p, before, after, r.env, inp, now, k);
      StillKeeps(p, after, after, r.env.changedAt, r.env.evaluatedAt, k + 1);
    }
  }

  /** A reconcile after now under the step size and the cooldown of the pace. */
  ghost predicate TurnOf(p: Pace, r: Round, now: int) {
    && 0 < p.step && p.t0 <= r.env.checkedAt
    && now <= r.env.checkedAt <= r.env.changedAt <= r.env.evaluatedAt
    && (r.env.fetch.Found? ==>
          var spec := r.env.fetch.spec;
          StepOf(spec.strategy) == p.step && CooldownOf(spec.strategy) == p.cooldown && Declares(spec, p.name))
  }

  lemma RoundKeepsPace(cfg: Config, r: Round, p: Pace, now: int, k: nat) returns (k': nat)
    requires Configured(cfg) && Admits(r.env) && Keeps(p, r.world.status, now, k) && TurnOf(p, r, now)
    ensures Keeps(p, After(cfg, r).world.status, r.env.evaluatedAt, k')
  {
    var before, after := r.world.status, After(cfg, r).world.status;
    if Active(r.env) && r.env.statusPatchOk {
      k' := EvaluationKeepsPace(cfg, r, p, now, k);
      StoredMove(cfg, r);
      StillKeeps(p, Weighed(cfg, r).status, after, r.env.evaluatedAt, r.env.evaluatedAt, k');
    } else {
      k' := k;
      OnlyStoredMoves(cfg, r);
      StillKeeps(p, before, after, now, r.env.evaluatedAt, k);
    }
  }

  lemma OnlyStoredMoves(cfg: Config, r: Round)
    requires Configured(cfg) && Admits(r.env) && !(Active(r.env) && r.env.statusPatchOk)
    ensures Unmoved(r.world.status, After(cfg, r).world.status)
  {
    if Active(r.env) {
      StoredMove(cfg, r);
    } else {
      IdleKeepsMoves(cfg, r);
    }
  }

  lemma StillKeeps(p: Pace, before: Status, after: Status, now: int, later: int, k: nat)
    requires Keeps(p, before, now, k) && Unmoved(before, after) && now <= later
    ensures Keeps(p, after, later, k)
  {
  }

  ghost function PaceOf(run: seq<Round>, step: int, cooldown: int, name: string): Pace
    requires 0 < |run|
  {
    Pace(Weight(run[0].world.status.weights, name), run[0].env.checkedAt, step, cooldown, name)
  }

  lemma {:induction false} RunKeepsPace(cfg: Config, run: seq<Round>, n: nat, step: int, cooldown: int, name: string)
    returns (k: nat)
    requires IsRun(cfg, run) && 0 < n <= |run| && ClockAdvances(run) && Steady(run, step, cooldown, name)
    requires run[0].world.status.weights != [] && 0 < step
    ensures Keeps(PaceOf(run, step, cooldown, name), StatusAfter(cfg, run, n), run[n - 1].env.evaluatedAt, k)
  {
    var p := PaceOf(run, step, cooldown, name);
    var now := run[0].env.checkedAt;
    k := 0;
    if n > 1 {
      k := RunKeepsPace(cfg, run, n - 1, step, cooldown, name);
      now := run[n - 2].env.evaluatedAt;
    }
    StartsInOrder(run, n - 1);
    assert run[n - 1].world.status == StatusAfter(cfg, run, n - 1);
    k := RoundKeepsPace(cfg, run[n - 1], p, now, k);
  }

  /**
   Over any stretch of a run, a backend's stored weight changes by at most one
   step per started cooldown, however often the loop turns and whatever fails.
   */
  lemma {:induction false} RateBound(cfg: Config, run: seq<Round>, step: int, cooldown: int, name: string)
    requires IsRun(cfg, run) && 0 < |run| && ClockAdvances(run) && Steady(run, step, cooldown, name)
    requires run[0].world.status.weights != [] && 0 < step && 0 < cooldown
    ensures var span := run[|run| - 1].env.evaluatedAt - run[0].env.checkedAt;
            Abs(Weight(StatusAfter(cfg, run, |run|).weights, name) - Weight(run[0].world.status.weights, name))
            <= step * (span / cooldown + 1)
  {
    var k := RunKeepsPace(cfg, run, |run|, step, cooldown, name);
    var span := run[|run| - 1].env.evaluatedAt - run[0].env.checkedAt;
    StartsInOrder(run, |run| - 1);
    FitsInSpan(k, cooldown, span);
    MoreSteps(step, k, span / cooldown + 1);
  }

  lemma MoreSteps(step: int, k: int, m: int)
    requires 0 < step && k <= m
    ensures step * k <= step * m
  {
  }

  lemma FitsInSpan(k: nat, cooldown: int, span: int)
    requires 0 < cooldown && 0 <= span && (k > 0 ==> (k - 1) * cooldown <= span)
    ensures k <= span / cooldown + 1
  {
    var q := span / cooldown;
    assert k - 1 > q ==> (k - 1) * cooldown >= (q + 1) * cooldown == q * cooldown + cooldown > span;
  }

  // ----- sensing -----

  /** Every configured signal could be read. */
  ghost predicate AllSampled(cfg: Config, env: Env) {
    && Active(env) && cfg.metricsEnabled && SignalSpecs(env.fetch.spec) != []
    && forall k :: 0 <= k < |SignalSpecs(env.fetch.spec)| ==>
         SampleOf(env, SignalSpecs(env.fetch.spec)[k].name).Sampled?
  }

  lemma {:induction false} SensedAll(cfg: Config, spec: PolicySpec, data: S.Buffers, env: Env, n: nat)
    requires Configured(cfg) && n <= |SignalSpecs(spec)|
    ensures !Sense(cfg, spec, data, env, n).failed
            <==> forall k :: 0 <= k < n ==> SampleOf(env, SignalSpecs(spec)[k].name).Sampled?
  {
    if n > 0 {
      SensedAll(cfg, spec, data, env, n - 1);
    }
  }

  /** The signals, after smoothing, that an active reconcile hands to the evaluator. */
  ghost function SeenSignals(cfg: Config, r: Round): seq<E.Signal>
    requires Configured(cfg) && Active(r.env)
  {
    Sense(cfg, r.env.fetch.spec, r.world.data, r.env, |SignalSpecs(r.env.fetch.spec)|).signals
  }

  /** What the evaluator would be asked by this reconcile. */
  ghost function SeenInput(cfg: Config, r: Round): E.Input
    requires Configured(cfg) && Admits(r.env) && Active(r.env)
  {
    DecisionInput(r.env.fetch.spec, Start(r.world.status, r.env), SeenSignals(cfg, r))
  }

  lemma WeighedIsNotEmpty(cfg: Config, r: Round)
    requires Configured(cfg) && Admits(r.env) && Active(r.env)
    ensures Weighed(cfg, r).status.weights != []
  {
    var spec := r.env.fetch.spec;
    var start := Start(r.world.status, r.env);
    StartIsSound(spec.backends, r.env.shareOrder);
    var sensed := Sense(cfg, spec, r.world.data, r.env, |SignalSpecs(spec)|);
    DecisionIsNotEmpty(DecisionInput(spec, start, sensed.signals));
  }

  // ----- the route -----

  /**
   An active reconcile that finds the route and reports no error leaves it
   carrying exactly the stored weights, and nothing else on it is touched.
   */
  lemma RouteCarriesStoredWeights(cfg: Config, w: World, env: Env)
    requires Configured(cfg) && Admits(env) && Active(env) && w.route.Some?
    requires !Step(cfg, w, env).failed
    ensures var o := Step(cfg, w, env);
            o.world.route == Some(R.RouteAfter(o.world.status.weights, w.route.value))
            && R.RouteAfter(o.world.status.weights, o.world.route.value) == o.world.route.value
  {
    R.WritingTwice(Step(cfg, w, env).world.status.weights, w.route.value);
  }

  /**
   The Ready condition can be trusted where it was just stored: it says
   Reconciled only if the route now carries exactly the stored weights.
   */
  lemma ReconciledMeansRouteAgrees(cfg: Config, w: World, env: Env)
    requires Configured(cfg) && Admits(env) && env.fetch.Found? && env.statusPatchOk
    requires Step(cfg, w, env).world.status.ready == IsTrue(Reconciled)
    ensures var o := Step(cfg, w, env);
            && Active(env) && w.route.Some?
            && o.world.route == Some(R.RouteAfter(o.world.status.weights, w.route.value))
            && o.world.status.routeResolved == IsTrue(WeightsApplied)
            && o.world.status.phase != Degraded && o.requeueAfter.Some?
  {
  }

  /** The rule names every declared backend once. */
  ghost predicate NamesEachOnce(backends: seq<Backend>, ws: seq<BackendWeight>, rule: R.Rule) {
    multiset(R.NamesOf(R.Managed(ws, rule)))
    == multiset(seq(|backends|, i requires 0 <= i < |backends| => backends[i].name))
  }

  /** In each such rule of the route just written, the managed weights total 100. */
  lemma RouteTotalsHundred(cfg: Config, w: World, env: Env, r: nat)
    requires Configured(cfg) && Admits(env) && Active(env) && w.route.Some?
    requires !Step(cfg, w, env).failed && Sound(env.fetch.spec.backends, w.status.weights)
    requires r < |w.route.value|
    requires NamesEachOnce(env.fetch.spec.backends, Step(cfg, w, env).world.status.weights, w.route.value[r])
    ensures var o := Step(cfg, w, env);
            && o.world.route.Some? && r < |o.world.route.value|
            && Sum(R.RefWeights(R.Managed(o.world.status.weights, o.world.route.value[r]))) == 100
  {
    var backends := env.fetch.spec.backends;
    RouteCarriesStoredWeights(cfg, w, env);
    ActiveStepKeepsSound(cfg, w, env, env.fetch.spec);
    ActiveStepHasWeights(cfg, w, env);
    var ws := Step(cfg, w, env).world.status.weights;
    assert R.ListNames(ws) == seq(|backends|, i requires 0 <= i < |backends| => backends[i].name);
    R.ManagedTotal(backends, ws, w.route.value[r]);
  }

  lemma ActiveStepHasWeights(cfg: Config, w: World, env: Env)
    requires Configured(cfg) && Admits(env) && Active(env) && !Step(cfg, w, env).failed
    requires Sound(env.fetch.spec.backends, w.status.weights)
    ensures Step(cfg, w, env).world.status.weights != []
  {
    var spec := env.fetch.spec;
    StartIsSound(spec.backends, env.shareOrder);
    EvaluationKeepsSound(cfg, spec, WithWeights(w.status, spec, env.shareOrder), w, env);
  }
}
