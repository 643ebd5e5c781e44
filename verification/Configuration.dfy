/** What a policy's declared fields mean: which samples count against which thresholds, and how long to wait. */
module Configuration {
  import opened Api
  import opened Reconciling
  import opened Runs
  import opened SmoothedRuns
  import opened SettlingRuns
  import E = Evaluator
  import F = Fairness
  import C = Convergence
  import A = Apportionment
  import S = Smoothing

  // ----- which samples count -----

  /** The policy is found, accepted, not paused and has a signal configured, each of which can be read. */
  ghost predicate FullyRead(cfg: Config, env: Env) {
    && env.fetch.Found? && A.ValidBackends(env.fetch.spec.backends) && !env.fetch.spec.paused && cfg.metricsEnabled
    && (env.fetch.spec.latencyThresholdMs.Some? || env.fetch.spec.errorRateThresholdPercent.Some?)
    && (env.fetch.spec.latencyThresholdMs.Some? ==> env.latency.Sampled?)
    && (env.fetch.spec.errorRateThresholdPercent.Some? ==> env.errorRate.Sampled?)
  }

  lemma FullyReadIff(cfg: Config, env: Env)
    ensures FullyRead(cfg, env) <==> AllSampled(cfg, env)
  {
    if env.fetch.Found? {
      SpecsOnFields(env.fetch.spec);
      var specs := SignalSpecs(env.fetch.spec);
      assert env.fetch.spec.latencyThresholdMs.Some? ==> SampleOf(env, specs[0].name) == env.latency;
      assert env.fetch.spec.errorRateThresholdPercent.Some? ==> SampleOf(env, specs[|specs| - 1].name) == env.errorRate;
    }
  }

  /** Latency comes first where it is configured, error rate last, each with its own threshold, and nothing else. */
  lemma SpecsOnFields(spec: PolicySpec)
    ensures var specs := SignalSpecs(spec);
            && |specs| == (if spec.latencyThresholdMs.Some? then 1 else 0)
                          + (if spec.errorRateThresholdPercent.Some? then 1 else 0)
            && (spec.latencyThresholdMs.Some? ==>
                  specs[0] == SignalSpec("latency", spec.latencyThresholdMs.value as real))
            && (spec.errorRateThresholdPercent.Some? ==>
                  specs[|specs| - 1] == SignalSpec("errorRate", spec.errorRateThresholdPercent.value as real))
  {
  }

  lemma SampleOnFields(env: Env)
    ensures SampleOf(env, "latency") == env.latency && SampleOf(env, "errorRate") == env.errorRate
  {
    assert "latency"[0] != "errorRate"[0];
  }

  /**
   What is read of a backend: its latency where that is configured and
   readable, its error rate where besides no configured latency was unreadable.
   */
  lemma RawValueOnFields(cfg: Config, env: Env, backend: string)
    requires Active(env) && cfg.metricsEnabled
    ensures var spec := env.fetch.spec;
            RawValue(cfg, env, "latency", backend)
            == if spec.latencyThresholdMs.Some? && env.latency.Sampled? && backend in env.latency.values
               then Some(env.latency.values[backend]) else None
    ensures var spec := env.fetch.spec;
            RawValue(cfg, env, "errorRate", backend)
            == if spec.errorRateThresholdPercent.Some? && env.errorRate.Sampled? && backend in env.errorRate.values
                  && (spec.latencyThresholdMs.Some? ==> env.latency.Sampled?)
               then Some(env.errorRate.values[backend]) else None
  {
    var spec := env.fetch.spec;
    var specs := SignalSpecs(spec);
    SpecsOnFields(spec);
    SampleOnFields(env);
    if spec.latencyThresholdMs.Some? && env.latency.Sampled? {
      assert Reads(cfg, env, 0);
    }
    if spec.errorRateThresholdPercent.Some? && env.errorRate.Sampled?
       && (spec.latencyThresholdMs.Some? ==> env.latency.Sampled?) {
      assert Reads(cfg, env, |specs| - 1);
    }
  }

  /** What the evaluator sees of a signal is, for every backend just read, an average over its raw values. */
  ghost predicate SeesAverages(seen: map<string, real>, cfg: Config, run: seq<Round>, i: nat, signal: string,
                               values: map<string, real>)
    requires i < |run| && run[i].env.fetch.Found?
  {
    && seen.Keys == values.Keys
    && forall b: string :: b in values ==> IsAverage(seen[b], cfg, run, i, signal, b)
  }

  /** n times the mean is the total of the last n raw values, n being the declared window or all there are. */
  ghost predicate IsAverage(mean: real, cfg: Config, run: seq<Round>, i: nat, signal: string, backend: string)
    requires i < |run| && run[i].env.fetch.Found?
  {
    var declared := run[i].env.fetch.spec.strategy.movingAverageWindow;
    S.AveragesLast(mean, RawHistory(cfg, run, i + 1, signal, backend),
                   if cfg.smoothing == None then 1 else if declared <= 0 then 3 else declared,
                   if cfg.smoothing == None then 1 else cfg.smoothing.value)
  }

  lemma {:induction false} WindowAverages(cfg: Config, run: seq<Round>, i: nat, signal: string, backend: string)
    requires Configured(cfg) && i < |run| && run[i].env.fetch.Found? && Window(cfg, run, i, signal, backend) != []
    ensures IsAverage(S.Mean(Window(cfg, run, i, signal, backend)), cfg, run, i, signal, backend)
  {
    var h := RawHistory(cfg, run, i + 1, signal, backend);
    match cfg.smoothing {
      case None => S.MeanOfLast(h, 1, 1);
      case Some(m) => S.MeanOfLast(h, WindowOf(run[i].env.fetch.spec.strategy), m);
    }
  }

  /** The signals seen by a reconcile that reads all: those configured, over averages of what their sources say. */
  lemma {:induction false} SeenOnFields(cfg: Config, run: seq<Round>, i: nat)
    requires AveragesOwn(cfg, run) && i < |run| && FullyRead(cfg, run[i].env)
    ensures Active(run[i].env)
    ensures var env := run[i].env;
            var spec := env.fetch.spec;
            var seen := SeenSignals(cfg, run[i]);
            && |seen| == |SignalSpecs(spec)|
            && (spec.latencyThresholdMs.Some? ==>
                  && seen[0].name == "latency" && seen[0].threshold == spec.latencyThresholdMs.value as real
                  && SeesAverages(seen[0].samples, cfg, run, i, "latency", env.latency.values))
            && (spec.errorRateThresholdPercent.Some? ==>
                  var last := seen[|seen| - 1];
                  && last.name == "errorRate" && last.threshold == spec.errorRateThresholdPercent.value as real
                  && SeesAverages(last.samples, cfg, run, i, "errorRate", env.errorRate.values))
  {
    var env := run[i].env;
    var specs := SignalSpecs(env.fetch.spec);
    FullyReadIff(cfg, env);
    SpecsOnFields(env.fetch.spec);
    SampleOnFields(env);
    SensedAll(cfg, env.fetch.spec, run[i].world.data, env, |specs|);
    SensedCount(cfg, env.fetch.spec, run[i].world.data, env, |specs|);
    if env.fetch.spec.latencyThresholdMs.Some? {
      SeenSignal(cfg, run, i, 0);
    }
    if env.fetch.spec.errorRateThresholdPercent.Some? {
      SeenSignal(cfg, run, i, |specs| - 1);
    }
  }

  lemma {:induction false} SeenSignal(cfg: Config, run: seq<Round>, i: nat, k: nat)
    requires AveragesOwn(cfg, run) && i < |run| && AllSampled(cfg, run[i].env)
    requires k < |SignalSpecs(run[i].env.fetch.spec)| == |SeenSignals(cfg, run[i])|
    ensures var sig := SignalSpecs(run[i].env.fetch.spec)[k];
            var seen := SeenSignals(cfg, run[i])[k];
            && seen.name == sig.name && seen.threshold == sig.threshold && SampleOf(run[i].env, sig.name).Sampled?
            && SeesAverages(seen.samples, cfg, run, i, sig.name, SampleOf(run[i].env, sig.name).values)
  {
    var env, data := run[i].env, run[i].world.data;
    var spec := env.fetch.spec;
    var sig := SignalSpecs(spec)[k];
    SensedAll(cfg, spec, data, env, |SignalSpecs(spec)|);
    SensedSignal(cfg, spec, data, env, |SignalSpecs(spec)|, k);
    var values := SampleOf(env, sig.name).values;
    var seen := SeenSignals(cfg, run[i])[k].samples;
    assert seen.Keys == values.Keys;
    forall b: string | b in values ensures IsAverage(seen[b], cfg, run, i, sig.name, b) {
      SensedIsWindowMean(cfg, run, i, k, b);
      WindowAverages(cfg, run, i, sig.name, b);
    }
  }

  /** A sample of the backend counts against a positive threshold. */
  ghost predicate Counts(threshold: Option<int>, sample: Sample, backend: string) {
    threshold.Some? && 0 < threshold.value && sample.Sampled? && backend in sample.values
  }

  /** It counts, and its average is above. */
  ghost predicate AveragesAbove(threshold: Option<int>, sample: Sample, cfg: Config, run: seq<Round>, i: nat,
                                signal: string, backend: string)
    requires i < |run| && run[i].env.fetch.Found?
  {
    && Counts(threshold, sample, backend)
    && exists mean: real :: IsAverage(mean, cfg, run, i, signal, backend) && mean > threshold.value as real
  }

  lemma {:induction false} OneAverage(a: real, b: real, cfg: Config, run: seq<Round>, i: nat, signal: string,
                                      backend: string)
    requires i < |run| && run[i].env.fetch.Found?
    requires IsAverage(a, cfg, run, i, signal, backend) && IsAverage(b, cfg, run, i, signal, backend)
    ensures a == b
  {
  }

  lemma {:induction false} SeenAbove(seen: E.Signal, threshold: Option<int>, sample: Sample, cfg: Config,
                                     run: seq<Round>, i: nat, signal: string, backend: string)
    requires i < |run| && run[i].env.fetch.Found? && threshold.Some? && sample.Sampled?
    requires seen.threshold == threshold.value as real
    requires SeesAverages(seen.samples, cfg, run, i, signal, sample.values)
    ensures E.Observes(seen, backend) <==> Counts(threshold, sample, backend)
    ensures F.Overshoot(seen, backend) > 0.0 <==> AveragesAbove(threshold, sample, cfg, run, i, signal, backend)
  {
    F.OvershootIsAbove(seen, backend);
    if AveragesAbove(threshold, sample, cfg, run, i, signal, backend) {
      var mean :| IsAverage(mean, cfg, run, i, signal, backend) && mean > threshold.value as real;
      OneAverage(mean, seen.samples[backend], cfg, run, i, signal, backend);
    }
  }

  /**
   Where all is read, the evaluator takes a backend for breaching if and only
   if its average latency is above the latency threshold or its average error
   rate above the error rate threshold, and for sampled if and only if one of
   them has a sample of it.
   */
  lemma {:induction false} HealthOnFields(cfg: Config, run: seq<Round>, i: nat, backend: string)
    requires AveragesOwn(cfg, run) && i < |run| && FullyRead(cfg, run[i].env)
    ensures Active(run[i].env)
    ensures var env := run[i].env;
            E.Sampled(SeenSignals(cfg, run[i]), backend) <==>
            || Counts(env.fetch.spec.latencyThresholdMs, env.latency, backend)
            || Counts(env.fetch.spec.errorRateThresholdPercent, env.errorRate, backend)
    ensures var env := run[i].env;
            E.Unhealthy(SeenSignals(cfg, run[i]), backend) <==>
            || AveragesAbove(env.fetch.spec.latencyThresholdMs, env.latency, cfg, run, i, "latency", backend)
            || AveragesAbove(env.fetch.spec.errorRateThresholdPercent, env.errorRate, cfg, run, i, "errorRate", backend)
  {
    var env := run[i].env;
    var spec := env.fetch.spec;
    var seen := SeenSignals(cfg, run[i]);
    SeenOnFields(cfg, run, i);
    SpecsOnFields(spec);
    if spec.latencyThresholdMs.Some? {
      SeenAbove(seen[0], spec.latencyThresholdMs, env.latency, cfg, run, i, "latency", backend);
    }
    if spec.errorRateThresholdPercent.Some? {
      SeenAbove(seen[|seen| - 1], spec.errorRateThresholdPercent, env.errorRate, cfg, run, i, "errorRate", backend);
    }
    AnySignal(seen, spec, backend);
  }

  /** Of one or two signals, first is the one and last the other. */
  lemma AnySignal(seen: seq<E.Signal>, spec: PolicySpec, backend: string)
    requires |seen| == (if spec.latencyThresholdMs.Some? then 1 else 0)
                       + (if spec.errorRateThresholdPercent.Some? then 1 else 0)
    ensures E.Sampled(seen, backend) <==>
            || (spec.latencyThresholdMs.Some? && E.Observes(seen[0], backend))
            || (spec.errorRateThresholdPercent.Some? && E.Observes(seen[|seen| - 1], backend))
    ensures E.Unhealthy(seen, backend) <==>
            || (spec.latencyThresholdMs.Some? && F.Overshoot(seen[0], backend) > 0.0)
            || (spec.errorRateThresholdPercent.Some? && F.Overshoot(seen[|seen| - 1], backend) > 0.0)
  {
    forall k | 0 <= k < |seen| ensures E.Breaches(seen[k], backend) <==> F.Overshoot(seen[k], backend) > 0.0 {
      F.OvershootIsBreach(seen[k], backend);
    }
  }

  /** The raw value read now is above. */
  ghost predicate Above(threshold: Option<int>, sample: Sample, backend: string) {
    Counts(threshold, sample, backend) && sample.values[backend] > threshold.value as real
  }

  /** Without smoothing the raw values themselves decide. */
  lemma RawHealthOnFields(cfg: Config, r: Round, backend: string)
    requires cfg.smoothing == None && Admits(r.env) && FullyRead(cfg, r.env)
    ensures Active(r.env)
    ensures var env := r.env;
            E.Sampled(SeenSignals(cfg, r), backend) <==>
            || Counts(env.fetch.spec.latencyThresholdMs, env.latency, backend)
            || Counts(env.fetch.spec.errorRateThresholdPercent, env.errorRate, backend)
    ensures var env := r.env;
            E.Unhealthy(SeenSignals(cfg, r), backend) <==>
            || Above(env.fetch.spec.latencyThresholdMs, env.latency, backend)
            || Above(env.fetch.spec.errorRateThresholdPercent, env.errorRate, backend)
  {
    var run := [r];
    var spec := r.env.fetch.spec;
    assert IsRun(cfg, run);
    HealthOnFields(cfg, run, 0, backend);
    RawValueOnFields(cfg, r.env, backend);
    if Counts(spec.latencyThresholdMs, r.env.latency, backend) {
      LoneAverage(cfg, r, "latency", backend, r.env.latency.values[backend]);
    }
    if Counts(spec.errorRateThresholdPercent, r.env.errorRate, backend) {
      LoneAverage(cfg, r, "errorRate", backend, r.env.errorRate.values[backend]);
    }
  }

  lemma LoneAverage(cfg: Config, r: Round, signal: string, backend: string, v: real)
    requires cfg.smoothing == None && r.env.fetch.Found? && RawValue(cfg, r.env, signal, backend) == Some(v)
    ensures IsAverage(v, cfg, [r], 0, signal, backend)
    ensures forall mean: real :: IsAverage(mean, cfg, [r], 0, signal, backend) ==> mean == v
  {
    assert RawHistory(cfg, [r], 0, signal, backend) == [];
    assert RawHistory(cfg, [r], 1, signal, backend) == [v];
    S.TotalOfOne(v);
    assert [v][0..] == [v];
  }

  // ----- how long to wait and how far to go -----

  /** The last recorded change, if any, is as long ago as declared; 30 seconds where nothing positive is. */
  ghost predicate Waited(s: Strategy, last: Option<int>, now: int) {
    last.Some? ==> now - last.value >= if s.cooldownSeconds > 0 then s.cooldownSeconds else 30
  }

  /** What the evaluator is asked: to move at most the declared step, 20 points where nothing positive is declared. */
  ghost function AskedOf(spec: PolicySpec, weights: seq<BackendWeight>, signals: seq<E.Signal>): E.Input {
    E.Input(spec.backends, weights, signals,
            if spec.strategy.maxStepPercent > 0 then spec.strategy.maxStepPercent else 20)
  }

  /** A reconcile that reads all and stores its status decides as soon as it has waited, and not before. */
  lemma WaitDecides(cfg: Config, r: Round)
    requires Configured(cfg) && Admits(r.env) && FullyRead(cfg, r.env) && r.env.statusPatchOk
    requires r.world.status.weights != []
    ensures Active(r.env)
    ensures After(cfg, r).world.status.weights
            == if Waited(r.env.fetch.spec.strategy, r.world.status.lastWeightChangeTime, r.env.checkedAt)
               then E.Decide(AskedOf(r.env.fetch.spec, r.world.status.weights, SeenSignals(cfg, r))).weights
               else r.world.status.weights
  {
    FullyReadIff(cfg, r.env);
    WaitedIff(r.world.status, r.env.fetch.spec.strategy, r.env.checkedAt);
    if Presses(cfg, r) {
      PressingDecides(cfg, r);
    } else {
      OthersDoNotMove(cfg, r);
    }
  }

  lemma WaitedIff(status: Status, s: Strategy, now: int)
    ensures Waited(s, status.lastWeightChangeTime, now) <==> CooldownElapsed(status, s, now)
  {
  }

  /** How many of the first n reconciles have read all, waited and stored their status. */
  ghost function Due(cfg: Config, run: seq<Round>, n: nat): nat
    requires n <= |run|
  {
    if n == 0 then 0 else Due(cfg, run, n - 1) + if IsDue(cfg, run[n - 1]) then 1 else 0
  }

  ghost predicate IsDue(cfg: Config, r: Round) {
    && FullyRead(cfg, r.env) && r.env.statusPatchOk
    && Waited(r.env.fetch.spec.strategy, r.world.status.lastWeightChangeTime, r.env.checkedAt)
  }

  lemma DuePresses(cfg: Config, r: Round)
    ensures IsDue(cfg, r) <==> Presses(cfg, r)
  {
    FullyReadIff(cfg, r.env);
    if r.env.fetch.Found? {
      WaitedIff(r.world.status, r.env.fetch.spec.strategy, r.env.checkedAt);
    }
  }

  lemma {:induction false} DueIsPressed(cfg: Config, run: seq<Round>, n: nat)
    requires n <= |run|
    ensures Due(cfg, run, n) == Pressed(cfg, run, n)
  {
    if n > 0 {
      DueIsPressed(cfg, run, n - 1);
      DuePresses(cfg, run[n - 1]);
    }
  }

  /** Over a run under steady signals there are exactly as many decisions in a row as reconciles were due. */
  lemma {:induction false} DueRunDecides(cfg: Config, run: seq<Round>, spec: PolicySpec, signals: seq<E.Signal>, n: nat)
    requires SteadySignals(cfg, run, spec, signals) && run[0].world.status.weights != [] && n <= |run|
    ensures var start := AskedOf(spec, run[0].world.status.weights, signals);
            C.Iterate(start, Due(cfg, run, n)) == start.(current := StatusAfter(cfg, run, n).weights)
  {
    DueIsPressed(cfg, run, n);
    RunIterates(cfg, run, spec, signals, n);
  }

  /** Reconciles that all read and store, each as long as declared after what came before it. */
  ghost predicate Spaced(cfg: Config, run: seq<Round>, spec: PolicySpec) {
    && (forall i :: 0 <= i < |run| ==>
          FullyRead(cfg, run[i].env) && run[i].env.statusPatchOk && run[i].env.fetch.spec == spec)
    && (forall i :: 0 < i < |run| ==> Waited(spec.strategy, Some(run[i - 1].env.changedAt), run[i].env.checkedAt))
    && (0 < |run| ==> Waited(spec.strategy, run[0].world.status.lastWeightChangeTime, run[0].env.checkedAt))
  }

  /** What a reconcile that stores its status leaves as the time of the last change: its own, or the one it found. */
  lemma ChangeTimes(cfg: Config, r: Round)
    requires Configured(cfg) && Admits(r.env)
    ensures var last := After(cfg, r).world.status.lastWeightChangeTime;
            last == r.world.status.lastWeightChangeTime || last == Some(r.env.changedAt)
  {
    var inp := OnlyDecisionsMove(cfg, r);
  }

  /** Each of them is due: no change is too recent, its own predecessor's least of all. */
  lemma {:induction false} SpacedIsDue(cfg: Config, run: seq<Round>, spec: PolicySpec, n: nat)
    requires IsRun(cfg, run) && Spaced(cfg, run, spec) && ClockAdvances(run) && n < |run|
    ensures Waited(spec.strategy, run[n].world.status.lastWeightChangeTime, run[n].env.checkedAt)
    ensures Due(cfg, run, n + 1) == n + 1
  {
    if n > 0 {
      SpacedIsDue(cfg, run, spec, n - 1);
      assert run[n - 1 + 1].world.status == After(cfg, run[n - 1]).world.status;
      ChangeTimes(cfg, run[n - 1]);
    } else {
      assert Due(cfg, run, 0) == 0;
    }
    assert IsDue(cfg, run[n]);
  }

  /** So each makes a decision. */
  lemma {:induction false} SpacedRunDecides(cfg: Config, run: seq<Round>, spec: PolicySpec, signals: seq<E.Signal>)
    requires SteadySignals(cfg, run, spec, signals) && run[0].world.status.weights != []
    requires Spaced(cfg, run, spec) && ClockAdvances(run)
    ensures var start := AskedOf(spec, run[0].world.status.weights, signals);
            C.Iterate(start, |run|) == start.(current := StatusAfter(cfg, run, |run|).weights)
  {
    SpacedIsDue(cfg, run, spec, |run| - 1);
    DueRunDecides(cfg, run, spec, signals, |run|);
  }

  /** As many decisions as the movable points take full steps bring the weights to rest. */
  lemma RestsInTime(inp: E.Input, m: nat)
    requires UniqueNames(inp.backends) && 1 <= inp.maxStepPercent && C.Movable(inp) <= m * inp.maxStepPercent
    ensures C.Exhausted(C.Iterate(inp, m))
  {
    C.Converges(inp);
    var n: nat :| C.SettlesIn(inp, n);
    EnoughRounds(inp.maxStepPercent, m, n, C.Movable(inp));
    HoldsFromThenOn(inp, n, m);
  }

  lemma EnoughRounds(step: int, m: nat, n: nat, points: int)
    requires 1 <= step && (n == 0 || (n - 1) * step < points) && points <= m * step
    ensures n <= m
  {
    if m < n {
      MoreSteps(step, m, n - 1);
    }
  }

  /** After so many, every breaching backend is at its minimum or every healthy one at its maximum. */
  lemma {:induction false} SpacedRunSettles(cfg: Config, run: seq<Round>, spec: PolicySpec, signals: seq<E.Signal>)
    requires SteadySignals(cfg, run, spec, signals) && run[0].world.status.weights != []
    requires Spaced(cfg, run, spec) && ClockAdvances(run)
    requires var start := AskedOf(spec, run[0].world.status.weights, signals);
             C.Movable(start) <= |run| * start.maxStepPercent
    ensures C.Exhausted(AskedOf(spec, StatusAfter(cfg, run, |run|).weights, signals))
  {
    SpacedRunDecides(cfg, run, spec, signals);
    RestsInTime(AskedOf(spec, run[0].world.status.weights, signals), |run|);
  }
}
