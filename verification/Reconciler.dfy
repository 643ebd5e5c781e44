/** One reconcile of a TrafficPolicy: the controller's step, and the method that takes it. */
module Reconciling {
  import opened Api
  import E = Evaluator
  import A = Apportionment
  import S = Smoothing
  import R = Router

  const DEFAULT_COOLDOWN := 30
  const DEFAULT_MAX_STEP_PERCENT := 20
  const DEFAULT_MOVING_AVERAGE_WINDOW := 3

  const LATENCY := "latency"
  const ERROR_RATE := "errorRate"

  /** Reasons, shared by conditions and events. */
  datatype Cause =
    | InvalidSpec
    | Paused
    | Resumed
    | Reconciled
    | RouteMissing
    | RouteUpdateFailed
    | WeightsApplied
    | WeightsShifted
    | MetricsAvailable
    | MetricsUnavailable

  datatype Phase = Unset | Pending | Stable | Progressing | Frozen | Degraded

  datatype Condition = Absent | IsTrue(reason: Cause) | IsFalse(reason: Cause)

  datatype Transition = NoTransition | Initialized | WithinCooldown | Decided(reason: E.Reason)

  datatype Strategy = Strategy(cooldownSeconds: int, maxStepPercent: int, movingAverageWindow: int)

  datatype PolicySpec = PolicySpec(
    backends: seq<Backend>,
    latencyThresholdMs: Option<int>,
    errorRateThresholdPercent: Option<int>,
    strategy: Strategy,
    paused: bool)

  datatype Status = Status(
    phase: Phase,
    weights: seq<BackendWeight>,
    lastEvaluationTime: Option<int>,
    lastWeightChangeTime: Option<int>,
    lastTransitionReason: Transition,
    ready: Condition,
    routeResolved: Condition,
    metricsAvailable: Condition)

  /** How the controller is set up for one policy; no smoothing means raw samples are used. */
  datatype Config = Config(namespace: string, name: string, metricsEnabled: bool, smoothing: Option<nat>)

  /** What a reconcile finds: the stored status and route, and the smoother's buffers. */
  datatype World = World(status: Status, data: S.Buffers, route: Option<R.Route>)

  datatype Fetch = Gone | FetchFailed | Found(spec: PolicySpec)

  datatype Sample = SampleFailed | Sampled(values: map<string, real>)

  /**
   Everything a reconcile cannot decide for itself: what the API server, the
   metrics source and the clock answer, and how equal fractions are ordered.
   Times are whole seconds, the precision at which they are stored.
   `detailsDiffer` says whether the new status differs from the stored one in
   something not modelled (a message, the generation, a fraction of a second),
   which makes the patch be attempted although all else agrees.
   */
  datatype Env = Env(
    fetch: Fetch,
    latency: Sample,
    errorRate: Sample,
    checkedAt: int,
    changedAt: int,
    evaluatedAt: int,
    routeGetOk: bool,
    routePatchOk: bool,
    statusPatchOk: bool,
    detailsDiffer: bool,
    shareOrder: seq<nat>)

  datatype Outcome = Outcome(world: World, events: seq<Cause>, requeueAfter: Option<int>, failed: bool)

  function StepOf(s: Strategy): int {
    if s.maxStepPercent <= 0 then DEFAULT_MAX_STEP_PERCENT else s.maxStepPercent
  }

  function CooldownOf(s: Strategy): int {
    if s.cooldownSeconds <= 0 then DEFAULT_COOLDOWN else s.cooldownSeconds
  }

  function WindowOf(s: Strategy): int {
    if s.movingAverageWindow <= 0 then DEFAULT_MOVING_AVERAGE_WINDOW else s.movingAverageWindow
  }

  predicate CooldownElapsed(status: Status, s: Strategy, now: int) {
    status.lastWeightChangeTime == None || now - status.lastWeightChangeTime.value >= CooldownOf(s)
  }

  datatype SignalSpec = SignalSpec(name: string, threshold: real)

  function SignalSpecs(spec: PolicySpec): seq<SignalSpec> {
    (if spec.latencyThresholdMs.Some? then [SignalSpec(LATENCY, spec.latencyThresholdMs.value as real)] else [])
    + (if spec.errorRateThresholdPercent.Some?
       then [SignalSpec(ERROR_RATE, spec.errorRateThresholdPercent.value as real)] else [])
  }

  function SampleOf(env: Env, signal: string): Sample {
    if signal == LATENCY then env.latency else env.errorRate
  }

  function KeyOf(cfg: Config, signal: string): string {
    S.SmoothKey(cfg.namespace, cfg.name, signal)
  }

  /** A smoother, where there is one, keeps at least one sample. */
  predicate Configured(cfg: Config) {
    cfg.smoothing.Some? ==> 1 <= cfg.smoothing.value
  }

  // ----- sampling -----

  datatype Sensed = Sensed(data: S.Buffers, signals: seq<E.Signal>, failed: bool)

  /** Samples the first n signals in order, stopping at the first that cannot be read. */
  function Sense(cfg: Config, spec: PolicySpec, data: S.Buffers, env: Env, n: nat): Sensed
    requires Configured(cfg) && n <= |SignalSpecs(spec)|
  {
    if n == 0 then Sensed(data, [], false)
    else
      var before := Sense(cfg, spec, data, env, n - 1);
      if before.failed then before
      else SenseOne(cfg, spec, before, env, SignalSpecs(spec)[n - 1])
  }

  function SenseOne(cfg: Config, spec: PolicySpec, before: Sensed, env: Env, sig: SignalSpec): Sensed
    requires Configured(cfg)
  {
    match SampleOf(env, sig.name)
    case SampleFailed => before.(failed := true)
    case Sampled(values) =>
      var key := KeyOf(cfg, sig.name);
      match cfg.smoothing
      case None => before.(signals := before.signals + [E.Signal(sig.name, values, sig.threshold)])
      case Some(maxWindow) =>
        Sensed(S.SmoothData(before.data, maxWindow, key, values),
               before.signals + [E.Signal(sig.name,
                                          S.SmoothOut(before.data, maxWindow, WindowOf(spec.strategy), key, values),
                                          sig.threshold)],
               false)
  }

  // ----- deciding -----

  datatype Evaluated = Evaluated(status: Status, phase: Phase, data: S.Buffers, events: seq<Cause>)

  ghost function DecisionInput(spec: PolicySpec, status: Status, signals: seq<E.Signal>): E.Input {
    E.Input(spec.backends, status.weights, signals, StepOf(spec.strategy))
  }

  ghost function Evaluation(cfg: Config, spec: PolicySpec, status: Status, data: S.Buffers, env: Env): Evaluated
    requires Configured(cfg)
  {
    if SignalSpecs(spec) == [] || !cfg.metricsEnabled then Evaluated(status, Stable, data, [])
    else
      var sensed := Sense(cfg, spec, data, env, |SignalSpecs(spec)|);
      if sensed.failed then
        Evaluated(status.(metricsAvailable := IsFalse(MetricsUnavailable)), Frozen, sensed.data,
                  if status.metricsAvailable.IsFalse? then [] else [MetricsUnavailable])
      else
        var seen := status.(metricsAvailable := IsTrue(MetricsAvailable));
        if !CooldownElapsed(status, spec.strategy, env.checkedAt) then
          Evaluated(seen.(lastTransitionReason := WithinCooldown), Stable, sensed.data, [])
        else
          var d := E.Decide(DecisionInput(spec, status, sensed.signals));
          var told := seen.(lastTransitionReason := Decided(d.reason));
          if d.changed then
            Evaluated(told.(weights := d.weights, lastWeightChangeTime := Some(env.changedAt)),
                      Progressing, sensed.data, [])
          else Evaluated(told, Stable, sensed.data, [])
  }

  // ----- one reconcile -----

  /** The order in which equal fractions are served is any that puts larger fractions first. */
  ghost predicate Admits(env: Env) {
    env.fetch.Found? && A.ValidBackends(env.fetch.spec.backends)
    ==> A.ShareOrder(env.fetch.spec.backends, env.shareOrder)
  }

  ghost function StartingWeights(backends: seq<Backend>, order: seq<nat>): seq<BackendWeight>
    requires A.ValidBackends(backends) && A.ShareOrder(backends, order)
  {
    A.InitialIsAllocation(backends, order);
    Named(backends, A.InitialSplit(backends, order))
  }

  ghost function WithWeights(status: Status, spec: PolicySpec, order: seq<nat>): Status
    requires A.ValidBackends(spec.backends) && A.ShareOrder(spec.backends, order)
  {
    if status.weights == []
    then status.(weights := StartingWeights(spec.backends, order), lastTransitionReason := Initialized)
    else status
  }

  /** Storing a status that did not change is not attempted, so it cannot fail. */
  function Stored(original: Status, desired: Status, patchOk: bool): Status {
    if patchOk then desired else original
  }

  predicate PatchFails(original: Status, desired: Status, env: Env) {
    (original != desired || env.detailsDiffer) && !env.statusPatchOk
  }

  ghost function Step(cfg: Config, w: World, env: Env): Outcome
    requires Configured(cfg) && Admits(env)
  {
    match env.fetch
    case Gone =>
      var data := if cfg.smoothing.Some? then w.data - {S.PolicyKey(cfg.namespace, cfg.name)} else w.data;
      Outcome(w.(data := data), [], None, false)
    case FetchFailed => Outcome(w, [], None, true)
    case Found(spec) => FoundStep(cfg, w, env, spec)
  }

  ghost function FoundStep(cfg: Config, w: World, env: Env, spec: PolicySpec): Outcome
    requires Configured(cfg)
    requires A.ValidBackends(spec.backends) ==> A.ShareOrder(spec.backends, env.shareOrder)
  {
    if !A.ValidBackends(spec.backends) then RejectStep(w, env)
    else if spec.paused then PausedStep(w, env)
    else ActiveStep(cfg, w, env, spec)
  }

  ghost function RejectStep(w: World, env: Env): Outcome {
    var desired := w.status.(ready := IsFalse(InvalidSpec), phase := Degraded);
    Outcome(w.(status := Stored(w.status, desired, env.statusPatchOk)),
            if w.status.phase != Degraded then [InvalidSpec] else [],
            None, PatchFails(w.status, desired, env))
  }

  ghost function PausedStep(w: World, env: Env): Outcome {
    var desired := w.status.(ready := IsTrue(Paused), phase := Frozen);
    Outcome(w.(status := Stored(w.status, desired, env.statusPatchOk)), [],
            None, PatchFails(w.status, desired, env))
  }

  ghost function ActiveStep(cfg: Config, w: World, env: Env, spec: PolicySpec): Outcome
    requires Configured(cfg) && A.ValidBackends(spec.backends) && A.ShareOrder(spec.backends, env.shareOrder)
  {
    var ev := Evaluation(cfg, spec, WithWeights(w.status, spec, env.shareOrder), w.data, env);
    var o := Finish(w.status, w.route, env, spec, ev);
    o.(events := ev.events + o.events)
  }

  /** Writes the route and records how that went. */
  ghost function Finish(original: Status, found: Option<R.Route>, env: Env, spec: PolicySpec, ev: Evaluated): Outcome {
    var route := R.ApplyRoute(found, ev.status.weights, env.routeGetOk, env.routePatchOk);
    match R.ApplyOutcome(found, ev.status.weights, env.routeGetOk, env.routePatchOk)
    case RouteNotFound =>
      var desired := ev.status.(routeResolved := IsFalse(RouteMissing), ready := IsFalse(RouteMissing),
                                phase := Degraded);
      Outcome(World(Stored(original, desired, env.statusPatchOk), ev.data, route),
              if original.phase != Degraded then [RouteMissing] else [],
              Some(CooldownOf(spec.strategy)), PatchFails(original, desired, env))
    case Failed =>
      var desired := ev.status.(ready := IsFalse(RouteUpdateFailed));
      Outcome(World(Stored(original, desired, env.statusPatchOk), ev.data, route),
              [RouteUpdateFailed], None, true)
    case Applied =>
      var desired := ev.status.(routeResolved := IsTrue(WeightsApplied), ready := IsTrue(Reconciled),
                                phase := ev.phase, lastEvaluationTime := Some(env.evaluatedAt));
      var failed := PatchFails(original, desired, env);
      Outcome(World(Stored(original, desired, env.statusPatchOk), ev.data, route),
              if ev.phase == Progressing then [WeightsShifted] else [],
              if failed then None else Some(CooldownOf(spec.strategy)), failed)
  }

  // ----- the reconciler -----

  /** The policy object as fetched; its status is changed in place and then patched back. */
  class TrafficPolicy {
    var spec: PolicySpec
    var status: Status

    constructor (spec: PolicySpec, status: Status)
      ensures this.spec == spec && this.status == status
    {
      this.spec := spec;
      this.status := status;
    }

    method DeepCopy() returns (copy: TrafficPolicy)
      ensures fresh(copy) && copy.spec == spec && copy.status == status
    {
      copy := new TrafficPolicy(spec, status);
    }
  }

  class Reconciler {
    const cfg: Config
    const smoother: S.Smoother?
    const weighter: R.HTTPRouteWeighter
    var stored: Status
    var events: seq<Cause>

    ghost predicate Valid()
      reads this, smoother
    {
      && Configured(cfg)
      && (smoother == null ==> cfg.smoothing == None)
      && (smoother != null ==> smoother.Valid() && cfg.smoothing == Some(smoother.maxWindow))
    }

    ghost function Data(): S.Buffers
      reads this, smoother
    {
      if smoother == null then map[] else smoother.data
    }

    ghost function Found(): World
      reads this, smoother, weighter
    {
      World(stored, Data(), weighter.route)
    }

    constructor (cfg: Config, smoother: S.Smoother?, weighter: R.HTTPRouteWeighter, stored: Status)
      requires Configured(cfg) && (smoother == null ==> cfg.smoothing == None)
      requires smoother != null ==> smoother.Valid() && cfg.smoothing == Some(smoother.maxWindow)
      ensures Valid() && this.cfg == cfg && this.smoother == smoother && this.weighter == weighter
      ensures this.stored == stored && events == []
    {
      this.cfg := cfg;
      this.smoother := smoother;
      this.weighter := weighter;
      this.stored := stored;
      events := [];
    }

    /** Every emit of the reconciler that stands under a guard of its own. */
    method EmitIf(guard: bool, reason: Cause)
      modifies `events
      ensures events == old(events) + if guard then [reason] else []
    {
      if guard {
        events := events + [reason];
      }
    }

    /** Samples every configured signal and asks the evaluator for a proposal; all failures are non-fatal. */
    method EvaluateMetrics(policy: TrafficPolicy, env: Env) returns (phase: Phase)
      requires Valid()
      modifies policy`status, smoother, `events
      ensures Valid()
      ensures var ev := Evaluation(cfg, policy.spec, old(policy.status), old(Data()), env);
              && policy.status == ev.status && phase == ev.phase && Data() == ev.data
              && events == old(events) + ev.events
    {
      phase := Stable;
      var spec := policy.spec;
      var specs := SignalSpecs(spec);
      if |specs| == 0 || !cfg.metricsEnabled {
        return;
      }
      var ok, signals := SampleSignals(spec, env);
      if !ok {
        EmitIf(!policy.status.metricsAvailable.IsFalse?, MetricsUnavailable);
        policy.status := policy.status.(metricsAvailable := IsFalse(MetricsUnavailable));
        return Frozen;
      }
      policy.status := policy.status.(metricsAvailable := IsTrue(MetricsAvailable));
      if !CooldownElapsed(policy.status, spec.strategy, env.checkedAt) {
        policy.status := policy.status.(lastTransitionReason := WithinCooldown);
        return;
      }
      var decision := E.Evaluate(E.Input(spec.backends, policy.status.weights, signals, StepOf(spec.strategy)));
      policy.status := policy.status.(lastTransitionReason := Decided(decision.reason));
      if decision.changed {
        policy.status := policy.status.(weights := decision.weights, lastWeightChangeTime := Some(env.changedAt));
        phase := Progressing;
      }
    }

    method SampleSignals(spec: PolicySpec, env: Env) returns (ok: bool, signals: seq<E.Signal>)
      requires Valid()
      modifies smoother
      ensures Valid()
      ensures var sensed := Sense(cfg, spec, old(Data()), env, |SignalSpecs(spec)|);
              ok == !sensed.failed && Data() == sensed.data && (ok ==> signals == sensed.signals)
    {
      ok, signals := true, [];
      var specs := SignalSpecs(spec);
      var i := 0;
      while i < |specs|
        invariant 0 <= i <= |specs| && Valid() && ok
        invariant Sensed(Data(), signals, false) == Sense(cfg, spec, old(Data()), env, i)
      {
        assert Sense(cfg, spec, old(Data()), env, i + 1)
            == SenseOne(cfg, spec, Sensed(Data(), signals, false), env, specs[i]);
        match SampleOf(env, specs[i].name)
        case SampleFailed =>
          SenseStopped(cfg, spec, old(Data()), env, i + 1, |specs|);
          ok := false;
          return;
        case Sampled(values) =>
          var samples := values;
          if smoother != null {
            samples := S.Smooth(smoother, KeyOf(cfg, specs[i].name), values, WindowOf(spec.strategy));
          }
          signals := signals + [E.Signal(specs[i].name, samples, specs[i].threshold)];
        i := i + 1;
      }
    }

    method PatchStatusIfChanged(policy: TrafficPolicy, original: TrafficPolicy, env: Env) returns (failed: bool)
      requires stored == original.status
      modifies `stored
      ensures stored == Stored(original.status, policy.status, env.statusPatchOk)
      ensures failed == PatchFails(original.status, policy.status, env)
    {
      if original.status == policy.status && !env.detailsDiffer {
        return false;
      }
      if !env.statusPatchOk {
        return true;
      }
      stored := policy.status;
      return false;
    }

    /** One pass of the control loop. */
    method Reconcile(env: Env) returns (requeueAfter: Option<int>, failed: bool)
      requires Valid() && Admits(env)
      requires env.fetch.Found? && A.ValidBackends(env.fetch.spec.backends)
               ==> env.shareOrder == A.ShareSort(env.fetch.spec.backends)
      modifies this, smoother, weighter
      ensures Valid()
      ensures var o := Step(cfg, old(Found()), env);
              && Found() == o.world && events == old(events) + o.events
              && requeueAfter == o.requeueAfter && failed == o.failed
    {
      match env.fetch
      case Gone =>
        if smoother != null {
          smoother.Forget(S.PolicyKey(cfg.namespace, cfg.name));
        }
        return None, false;
      case FetchFailed =>
        return None, true;
      case Found(spec) =>
        var policy := new TrafficPolicy(spec, stored);
        requeueAfter, failed := ReconcileFetched(policy, env);
    }

    /** The policy as fetched is validated, held while paused, and driven otherwise. */
    method ReconcileFetched(policy: TrafficPolicy, env: Env) returns (requeueAfter: Option<int>, failed: bool)
      requires Valid() && policy.status == stored
      requires A.ValidBackends(policy.spec.backends) ==>
                 && A.ShareOrder(policy.spec.backends, env.shareOrder)
                 && env.shareOrder == A.ShareSort(policy.spec.backends)
      modifies this, policy, smoother, weighter
      ensures Valid()
      ensures var o := FoundStep(cfg, old(Found()), env, old(policy.spec));
              && Found() == o.world && events == old(events) + o.events
              && requeueAfter == o.requeueAfter && failed == o.failed
    {
      var original := policy.DeepCopy();
      var stopped;
      stopped, failed := Screen(policy, original, env);
      if stopped {
        return None, failed;
      }
      requeueAfter, failed := Drive(policy, env, original);
    }

    /**
     Stops at an invalid spec or a paused policy. Both emits about pausing
     compare the flag with that of a copy of the same object; the step function
     has neither, so agreeing with it means that they never happen.
     */
    method Screen(policy: TrafficPolicy, original: TrafficPolicy, env: Env) returns (stopped: bool, failed: bool)
      requires policy != original && policy.spec == original.spec && policy.status == stored == original.status
      modifies policy`status, `stored, `events
      ensures stopped <==> !A.ValidBackends(policy.spec.backends) || policy.spec.paused
      ensures !stopped ==> events == old(events) && stored == old(stored) && policy.status == old(policy.status)
      ensures stopped ==>
                var o := if A.ValidBackends(policy.spec.backends) then PausedStep(World(old(stored), map[], None), env)
                         else RejectStep(World(old(stored), map[], None), env);
                stored == o.world.status && events == old(events) + o.events && failed == o.failed
    {
      var wasPaused := original.spec.paused;
      var prevPhase := original.status.phase;
      var invalid := A.ValidateSpec(policy.spec.backends);
      if invalid != None {
        EmitIf(prevPhase != Degraded, InvalidSpec);
        failed := StopAt(policy, original, IsFalse(InvalidSpec), Degraded, env);
        return true, failed;
      }
      if policy.spec.paused {
        EmitIf(!wasPaused, Paused);
        failed := StopAt(policy, original, IsTrue(Paused), Frozen, env);
        return true, failed;
      }
      EmitIf(wasPaused, Resumed);
      return false, false;
    }

    /** Records why the reconcile goes no further. */
    method StopAt(policy: TrafficPolicy, original: TrafficPolicy, ready: Condition, phase: Phase, env: Env)
      returns (failed: bool)
      requires policy != original && stored == original.status == policy.status
      modifies policy`status, `stored
      ensures var desired := original.status.(ready := ready, phase := phase);
              && stored == Stored(original.status, desired, env.statusPatchOk)
              && failed == PatchFails(original.status, desired, env)
    {
      policy.status := policy.status.(ready := ready, phase := phase);
      failed := PatchStatusIfChanged(policy, original, env);
    }

    /** The active part of a reconcile: initialise, evaluate, apply, record. */
    method Drive(policy: TrafficPolicy, env: Env, original: TrafficPolicy)
      returns (requeueAfter: Option<int>, failed: bool)
      requires Valid() && policy != original && A.ValidBackends(policy.spec.backends)
      requires A.ShareOrder(policy.spec.backends, env.shareOrder) && env.shareOrder == A.ShareSort(policy.spec.backends)
      requires policy.status == stored == original.status
      modifies this, policy, smoother, weighter
      ensures Valid()
      ensures var o := ActiveStep(cfg, old(Found()), env, old(policy.spec));
              && Found() == o.world && events == old(events) + o.events
              && requeueAfter == o.requeueAfter && failed == o.failed
    {
      ghost var spec := policy.spec;
      Initialize(policy, env);
      var phase := EvaluateMetrics(policy, env);
      ghost var ev := Evaluation(cfg, spec, WithWeights(original.status, spec, env.shareOrder), old(Data()), env);
      ghost var o := Finish(original.status, old(weighter.route), env, spec, ev);
      requeueAfter, failed := Conclude(policy, phase, env, original, ev);
      assert events == old(events) + (ev.events + o.events);
    }

    method Initialize(policy: TrafficPolicy, ghost env: Env)
      requires A.ValidBackends(policy.spec.backends)
      requires A.ShareOrder(policy.spec.backends, env.shareOrder) && env.shareOrder == A.ShareSort(policy.spec.backends)
      modifies policy`status
      ensures policy.status == WithWeights(old(policy.status), policy.spec, env.shareOrder)
    {
      if |policy.status.weights| == 0 {
        var initial := A.InitialWeights(policy.spec.backends);
        policy.status := policy.status.(weights := initial, lastTransitionReason := Initialized);
      }
    }

    method Conclude(policy: TrafficPolicy, phase: Phase, env: Env, original: TrafficPolicy, ghost ev: Evaluated)
      returns (requeueAfter: Option<int>, failed: bool)
      requires Valid() && policy != original && stored == original.status
      requires policy.status == ev.status && phase == ev.phase && Data() == ev.data
      modifies this, policy`status, weighter
      ensures Valid()
      ensures var o := Finish(original.status, old(weighter.route), env, policy.spec, ev);
              && Found() == o.world && events == old(events) + o.events
              && requeueAfter == o.requeueAfter && failed == o.failed
    {
      requeueAfter := None;
      var applied := weighter.Apply(policy.status.weights, env.routeGetOk, env.routePatchOk);
      match applied
      case RouteNotFound =>
        EmitIf(original.status.phase != Degraded, RouteMissing);
        policy.status := policy.status.(routeResolved := IsFalse(RouteMissing), ready := IsFalse(RouteMissing),
                                        phase := Degraded);
        requeueAfter := Some(CooldownOf(policy.spec.strategy));
        failed := PatchStatusIfChanged(policy, original, env);
      case Failed =>
        events := events + [RouteUpdateFailed];
        policy.status := policy.status.(ready := IsFalse(RouteUpdateFailed));
        failed := PatchStatusIfChanged(policy, original, env);
        failed := true;
      case Applied =>
        policy.status := policy.status.(routeResolved := IsTrue(WeightsApplied), ready := IsTrue(Reconciled));
        EmitIf(phase == Progressing, WeightsShifted);
        policy.status := policy.status.(lastEvaluationTime := Some(env.evaluatedAt), phase := phase);
        failed := PatchStatusIfChanged(policy, original, env);
        if !failed {
          requeueAfter := Some(CooldownOf(policy.spec.strategy));
        }
    }
  }

  /** Once a signal could not be read, the ones after it are not sampled. */
  lemma {:induction false} SenseStopped(cfg: Config, spec: PolicySpec, data: S.Buffers, env: Env, m: nat, n: nat)
    requires Configured(cfg) && m <= n <= |SignalSpecs(spec)|
    requires Sense(cfg, spec, data, env, m).failed
    ensures Sense(cfg, spec, data, env, n) == Sense(cfg, spec, data, env, m)
  {
    if m < n {
      SenseStopped(cfg, spec, data, env, m, n - 1);
    }
  }
}
