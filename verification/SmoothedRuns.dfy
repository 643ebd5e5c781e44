/** From raw samples to weights: what the moving average guarantees over whole runs. */
module SmoothedRuns {
  import opened Api
  import opened Reconciling
  import opened Runs
  import E = Evaluator
  import D = Decisions
  import S = Smoothing
  import R = Router

  /** Position of a configured signal that this reconcile gets to read. */
  ghost predicate Reads(cfg: Config, env: Env, k: nat) {
    && Active(env) && cfg.metricsEnabled && k < |SignalSpecs(env.fetch.spec)|
    && forall m :: 0 <= m <= k ==> SampleOf(env, SignalSpecs(env.fetch.spec)[m].name).Sampled?
  }

  /** The raw value, if any, that one reconcile feeds the smoother for a signal and a backend. */
  ghost function RawValue(cfg: Config, env: Env, signal: string, backend: string): Option<real> {
    if k: nat :| Reads(cfg, env, k) && SignalSpecs(env.fetch.spec)[k].name == signal
                 && backend in SampleOf(env, signal).values
    then Some(SampleOf(env, signal).values[backend])
    else None
  }

  ghost function Appended(h: seq<real>, v: Option<real>): seq<real> {
    if v.Some? then h + [v.value] else h
  }

  /** All raw values of the first n rounds. */
  ghost function RawHistory(cfg: Config, run: seq<Round>, n: nat, signal: string, backend: string): seq<real>
    requires n <= |run|
  {
    if n == 0 then []
    else Appended(RawHistory(cfg, run, n - 1, signal, backend), RawValue(cfg, run[n - 1].env, signal, backend))
  }

  lemma SameKeySameSignal(cfg: Config, s: string, t: string)
    ensures KeyOf(cfg, s) == KeyOf(cfg, t) <==> s == t
  {
    var prefix := cfg.namespace + "/" + cfg.name + "#";
    assert KeyOf(cfg, s) == prefix + s && KeyOf(cfg, t) == prefix + t;
    assert (prefix + s)[|prefix|..] == s && (prefix + t)[|prefix|..] == t;
  }

  lemma SignalNamesDiffer(spec: PolicySpec, i: nat, j: nat)
    requires i < |SignalSpecs(spec)| && j < |SignalSpecs(spec)|
    ensures SignalSpecs(spec)[i].name == SignalSpecs(spec)[j].name ==> i == j
  {
    assert LATENCY[0] != ERROR_RATE[0];
  }

  /** The value read for a signal and a backend among the first n signals. */
  ghost function ReadAmong(spec: PolicySpec, env: Env, n: nat, signal: string, backend: string): Option<real>
    requires n <= |SignalSpecs(spec)|
  {
    if n == 0 then None
    else
      var sig := SignalSpecs(spec)[n - 1].name;
      if sig == signal && SampleOf(env, sig).Sampled? && backend in SampleOf(env, sig).values
         && (forall m :: 0 <= m < n ==> SampleOf(env, SignalSpecs(spec)[m].name).Sampled?)
      then Some(SampleOf(env, sig).values[backend])
      else ReadAmong(spec, env, n - 1, signal, backend)
  }

  ghost function BufferWith(data: S.Buffers, maxWindow: nat, key: string, backend: string, v: Option<real>): seq<real> {
    if v.Some? then S.Extended(data, maxWindow, key, backend, v.value) else S.Buffer(data, key, backend)
  }

  lemma {:induction false} UnreadYet(spec: PolicySpec, env: Env, n: nat, signal: string, backend: string)
    requires n <= |SignalSpecs(spec)|
    requires forall m: nat :: m < n ==> SignalSpecs(spec)[m].name != signal
    ensures ReadAmong(spec, env, n, signal, backend) == None
  {
    if n > 0 {
      UnreadYet(spec, env, n - 1, signal, backend);
    }
  }

  /** Sampling n signals extends the buffer of the one read, and no other buffer of this policy. */
  lemma {:induction false} SensedBuffer(cfg: Config, spec: PolicySpec, data: S.Buffers, env: Env, n: nat,
                                        signal: string, backend: string)
    requires Configured(cfg) && cfg.smoothing.Some? && n <= |SignalSpecs(spec)|
    ensures S.Buffer(Sense(cfg, spec, data, env, n).data, KeyOf(cfg, signal), backend)
            == BufferWith(data, cfg.smoothing.value, KeyOf(cfg, signal), backend,
                          ReadAmong(spec, env, n, signal, backend))
  {
    if n > 0 {
      SensedBuffer(cfg, spec, data, env, n - 1, signal, backend);
      SensedAll(cfg, spec, data, env, n - 1);
      var before := Sense(cfg, spec, data, env, n - 1);
      var sig := SignalSpecs(spec)[n - 1].name;
      if !before.failed && SampleOf(env, sig).Sampled? {
        var values := SampleOf(env, sig).values;
        SameKeySameSignal(cfg, sig, signal);
        S.SmoothedBuffer(before.data, cfg.smoothing.value, KeyOf(cfg, sig), values, KeyOf(cfg, signal), backend);
        if sig == signal {
          forall m: nat | m < n - 1 ensures SignalSpecs(spec)[m].name != signal {
            SignalNamesDiffer(spec, m, n - 1);
          }
          UnreadYet(spec, env, n - 1, signal, backend);
        }
      }
    }
  }

  lemma {:induction false} ReadAmongIsRaw(cfg: Config, env: Env, n: nat, signal: string, backend: string)
    requires Active(env) && cfg.metricsEnabled && n <= |SignalSpecs(env.fetch.spec)|
    requires forall k: nat :: n <= k && Reads(cfg, env, k) && SignalSpecs(env.fetch.spec)[k].name == signal ==>
               backend !in SampleOf(env, signal).values
    ensures ReadAmong(env.fetch.spec, env, n, signal, backend) == RawValue(cfg, env, signal, backend)
  {
    if n > 0 {
      var spec := env.fetch.spec;
      var sig := SignalSpecs(spec)[n - 1].name;
      if sig == signal && SampleOf(env, sig).Sampled? && backend in SampleOf(env, sig).values
         && (forall m :: 0 <= m < n ==> SampleOf(env, SignalSpecs(spec)[m].name).Sampled?) {
        assert Reads(cfg, env, n - 1);
      } else {
        ReadAmongIsRaw(cfg, env, n - 1, signal, backend);
      }
    }
  }

  /** The policy's name in its keys cannot be confused with a signal's. */
  ghost predicate PlainNames(cfg: Config) {
    '#' !in cfg.namespace && '#' !in cfg.name
  }

  lemma ActiveData(cfg: Config, w: World, env: Env)
    requires Configured(cfg) && Admits(env) && Active(env)
    ensures var spec := env.fetch.spec;
            Step(cfg, w, env).world.data
            == if SignalSpecs(spec) == [] || !cfg.metricsEnabled then w.data
               else Sense(cfg, spec, w.data, env, |SignalSpecs(spec)|).data
  {
    FinishKeepsData(w.status, w.route, env, env.fetch.spec, Weighed(cfg, Round(w, env)));
  }

  lemma FinishKeepsData(original: Status, found: Option<R.Route>, env: Env, spec: PolicySpec, ev: Evaluated)
    ensures Finish(original, found, env, spec, ev).world.data == ev.data
  {
  }

  /** One reconcile, even one that finds the policy gone, appends just what it read. */
  lemma StepBuffer(cfg: Config, w: World, env: Env, signal: string, backend: string)
    requires Configured(cfg) && Admits(env) && cfg.smoothing.Some? && PlainNames(cfg)
    ensures S.Buffer(Step(cfg, w, env).world.data, KeyOf(cfg, signal), backend)
            == BufferWith(w.data, cfg.smoothing.value, KeyOf(cfg, signal), backend,
                          RawValue(cfg, env, signal, backend))
  {
    if Active(env) {
      var spec := env.fetch.spec;
      var n := |SignalSpecs(spec)|;
      ActiveData(cfg, w, env);
      if n > 0 && cfg.metricsEnabled {
        SensedBuffer(cfg, spec, w.data, env, n, signal, backend);
        ReadAmongIsRaw(cfg, env, n, signal, backend);
      }
    } else if env.fetch.Gone? {
      S.PolicyKeyIsNoSmoothKey(w.data, cfg.namespace, cfg.name, cfg.namespace, cfg.name, signal, backend);
    }
  }

  /** The controller starts with no samples of this policy, and nobody else touches its buffers. */
  ghost predicate OwnBuffers(cfg: Config, run: seq<Round>)
    requires IsRun(cfg, run)
  {
    && (0 < |run| ==> forall s: string, b: string :: S.Buffer(run[0].world.data, KeyOf(cfg, s), b) == [])
    && (forall i, s: string, b: string :: 0 <= i < |run| - 1 ==>
          S.Buffer(run[i + 1].world.data, KeyOf(cfg, s), b)
          == S.Buffer(After(cfg, run[i]).world.data, KeyOf(cfg, s), b))
  }

  /** At every round the buffers hold the latest part of everything read so far. */
  lemma {:induction false} BuffersFollowRun(cfg: Config, run: seq<Round>, n: nat, signal: string, backend: string)
    requires IsRun(cfg, run) && OwnBuffers(cfg, run) && cfg.smoothing.Some? && PlainNames(cfg) && n < |run|
    ensures S.Buffer(run[n].world.data, KeyOf(cfg, signal), backend)
            == S.LastN(RawHistory(cfg, run, n, signal, backend), cfg.smoothing.value)
  {
    if n > 0 {
      BuffersFollowRun(cfg, run, n - 1, signal, backend);
      var r := run[n - 1];
      StepBuffer(cfg, r.world, r.env, signal, backend);
      AppendedBuffer(r.world.data, cfg.smoothing.value, KeyOf(cfg, signal), backend,
                     RawHistory(cfg, run, n - 1, signal, backend), RawValue(cfg, r.env, signal, backend));
      assert run[n - 1 + 1] == run[n];
    }
  }

  lemma AppendedBuffer(data: S.Buffers, maxWindow: nat, key: string, backend: string, h: seq<real>, v: Option<real>)
    requires S.Buffer(data, key, backend) == S.LastN(h, maxWindow)
    ensures BufferWith(data, maxWindow, key, backend, v) == S.LastN(Appended(h, v), maxWindow)
  {
    if v.Some? {
      S.LastNExtends(h, maxWindow, v.value);
    }
  }

  /** What becomes of the values read for a signal: averages over its buffers, or themselves without a smoother. */
  ghost function Averages(cfg: Config, spec: PolicySpec, data: S.Buffers, signal: string, values: map<string, real>)
    : map<string, real>
    requires Configured(cfg)
  {
    match cfg.smoothing
    case None => values
    case Some(maxWindow) => S.SmoothOut(data, maxWindow, WindowOf(spec.strategy), KeyOf(cfg, signal), values)
  }

  /** Each signal handed to the evaluator carries the averages over its own buffers. */
  lemma {:induction false} SensedSignal(cfg: Config, spec: PolicySpec, data: S.Buffers, env: Env, n: nat, k: nat)
    requires Configured(cfg) && k < n <= |SignalSpecs(spec)|
    requires !Sense(cfg, spec, data, env, n).failed
    ensures |Sense(cfg, spec, data, env, n).signals| == n
    ensures SampleOf(env, SignalSpecs(spec)[k].name).Sampled?
    ensures Sense(cfg, spec, data, env, n).signals[k]
            == E.Signal(SignalSpecs(spec)[k].name,
                        Averages(cfg, spec, Sense(cfg, spec, data, env, k).data, SignalSpecs(spec)[k].name,
                                 SampleOf(env, SignalSpecs(spec)[k].name).values),
                        SignalSpecs(spec)[k].threshold)
    decreases n
  {
    SensedCount(cfg, spec, data, env, n - 1);
    if k < n - 1 {
      SensedSignal(cfg, spec, data, env, n - 1, k);
    }
  }

  lemma {:induction false} SensedCount(cfg: Config, spec: PolicySpec, data: S.Buffers, env: Env, n: nat)
    requires Configured(cfg) && n <= |SignalSpecs(spec)|
    ensures !Sense(cfg, spec, data, env, n).failed ==> |Sense(cfg, spec, data, env, n).signals| == n
  {
    if n > 0 {
      SensedCount(cfg, spec, data, env, n - 1);
    }
  }

  /** How many values an average is over: the clamped window, or the one just read where there is no smoother. */
  ghost function Reach(cfg: Config, spec: PolicySpec): nat
    requires Configured(cfg)
  {
    match cfg.smoothing
    case None => 1
    case Some(maxWindow) => S.Clamp(WindowOf(spec.strategy), maxWindow)
  }

  /** The raw values that count for a signal's average at round i: the last of them, as far as it reaches. */
  ghost function Window(cfg: Config, run: seq<Round>, i: nat, signal: string, backend: string): seq<real>
    requires Configured(cfg) && i < |run| && run[i].env.fetch.Found?
  {
    S.LastN(RawHistory(cfg, run, i + 1, signal, backend), Reach(cfg, run[i].env.fetch.spec))
  }

  /** A run whose averages are over this policy's own values: a smoother, where there is one, keeps them apart. */
  ghost predicate AveragesOwn(cfg: Config, run: seq<Round>) {
    IsRun(cfg, run) && (cfg.smoothing.Some? ==> OwnBuffers(cfg, run) && PlainNames(cfg))
  }

  /**
   Neither the latencies nor the error rates in the backend's windows exceed the
   thresholds declared for them; a signal without a sample of it now does not matter.
   */
  ghost predicate Calm(cfg: Config, run: seq<Round>, i: nat, backend: string)
    requires Configured(cfg) && i < |run| && run[i].env.fetch.Found?
  {
    var spec := run[i].env.fetch.spec;
    && (spec.latencyThresholdMs.Some? ==>
          NoneAbove(cfg, run, i, "latency", backend, spec.latencyThresholdMs.value as real))
    && (spec.errorRateThresholdPercent.Some? ==>
          NoneAbove(cfg, run, i, "errorRate", backend, spec.errorRateThresholdPercent.value as real))
  }

  ghost predicate NoneAbove(cfg: Config, run: seq<Round>, i: nat, signal: string, backend: string, threshold: real)
    requires Configured(cfg) && i < |run| && run[i].env.fetch.Found?
  {
    RawValue(cfg, run[i].env, signal, backend).Some? ==>
      forall v :: v in Window(cfg, run, i, signal, backend) ==> v <= threshold
  }

  /** A calm backend breaches none of the signals the evaluator sees. */
  lemma {:induction false} CalmIsHealthy(cfg: Config, run: seq<Round>, i: nat, backend: string, k: nat)
    requires AveragesOwn(cfg, run) && i < |run|
    requires AllSampled(cfg, run[i].env) && Calm(cfg, run, i, backend)
    requires k < |SignalSpecs(run[i].env.fetch.spec)|
    ensures var spec := run[i].env.fetch.spec;
            var sensed := Sense(cfg, spec, run[i].world.data, run[i].env, |SignalSpecs(spec)|);
            k < |sensed.signals| && !E.Breaches(sensed.signals[k], backend)
  {
    var env, data := run[i].env, run[i].world.data;
    var spec := env.fetch.spec;
    var n := |SignalSpecs(spec)|;
    var sig := SignalSpecs(spec)[k];
    SensedAll(cfg, spec, data, env, n);
    SensedSignal(cfg, spec, data, env, n, k);
    var seen := Sense(cfg, spec, data, env, n).signals[k];
    if backend in SampleOf(env, sig.name).values {
      SensedIsWindowMean(cfg, run, i, k, backend);
      var window := Window(cfg, run, i, sig.name, backend);
      assert forall j :: 0 <= j < |window| ==> window[j] in window;
      S.MeanBound(window, sig.threshold);
      D.BreachIffAbove(seen, backend);
    }
  }

  /** The average reported for a value read now is the mean of its window. */
  lemma {:induction false} AverageIsWindowMean(cfg: Config, run: seq<Round>, i: nat, signal: string,
                                               values: map<string, real>, backend: string, data: S.Buffers)
    requires AveragesOwn(cfg, run) && i < |run| && run[i].env.fetch.Found? && backend in values
    requires RawValue(cfg, run[i].env, signal, backend) == Some(values[backend])
    requires S.Buffer(data, KeyOf(cfg, signal), backend) == S.Buffer(run[i].world.data, KeyOf(cfg, signal), backend)
    ensures Window(cfg, run, i, signal, backend) != []
    ensures Averages(cfg, run[i].env.fetch.spec, data, signal, values)[backend]
            == S.Mean(Window(cfg, run, i, signal, backend))
  {
    var h, v := RawHistory(cfg, run, i, signal, backend), values[backend];
    var window := Window(cfg, run, i, signal, backend);
    match cfg.smoothing {
      case None =>
        assert window == [v];
        S.MeanOfConstant(window, v);
      case Some(m) =>
        var w := Reach(cfg, run[i].env.fetch.spec);
        BuffersFollowRun(cfg, run, i, signal, backend);
        S.LastNExtends(h, m, v);
        S.LastNOfLastN(h + [v], m, w);
        assert window == S.LastN(S.Extended(data, m, KeyOf(cfg, signal), backend, v), w);
    }
  }

  /** A value read now is averaged over its window, whatever signals were sampled before it in the same round. */
  lemma {:induction false} SensedIsWindowMean(cfg: Config, run: seq<Round>, i: nat, k: nat, backend: string)
    requires AveragesOwn(cfg, run) && i < |run|
    requires AllSampled(cfg, run[i].env) && k < |SignalSpecs(run[i].env.fetch.spec)|
    requires backend in SampleOf(run[i].env, SignalSpecs(run[i].env.fetch.spec)[k].name).values
    ensures var spec := run[i].env.fetch.spec;
            var sig := SignalSpecs(spec)[k].name;
            var values := SampleOf(run[i].env, sig).values;
            && RawValue(cfg, run[i].env, sig, backend) == Some(values[backend])
            && Window(cfg, run, i, sig, backend) != []
            && Averages(cfg, spec, Sense(cfg, spec, run[i].world.data, run[i].env, k).data, sig, values)[backend]
               == S.Mean(Window(cfg, run, i, sig, backend))
  {
    var env, data := run[i].env, run[i].world.data;
    var spec := env.fetch.spec;
    var sig := SignalSpecs(spec)[k].name;
    assert Reads(cfg, env, k);
    assert RawValue(cfg, env, sig, backend) == Some(SampleOf(env, sig).values[backend]);
    UntouchedYet(cfg, spec, data, env, k, backend);
    AverageIsWindowMean(cfg, run, i, sig, SampleOf(env, sig).values, backend, Sense(cfg, spec, data, env, k).data);
  }

  /** The signals before it leave a signal's buffers alone. */
  lemma UntouchedYet(cfg: Config, spec: PolicySpec, data: S.Buffers, env: Env, k: nat, backend: string)
    requires Configured(cfg) && k < |SignalSpecs(spec)|
    ensures var key := KeyOf(cfg, SignalSpecs(spec)[k].name);
            S.Buffer(Sense(cfg, spec, data, env, k).data, key, backend) == S.Buffer(data, key, backend)
  {
    var sig := SignalSpecs(spec)[k].name;
    forall m: nat | m < k ensures SignalSpecs(spec)[m].name != sig {
      SignalNamesDiffer(spec, m, k);
    }
    if cfg.smoothing.Some? {
      UnreadYet(spec, env, k, sig, backend);
      SensedBuffer(cfg, spec, data, env, k, sig, backend);
    } else {
      UnsmoothedKeepsData(cfg, spec, data, env, k);
    }
  }

  lemma {:induction false} UnsmoothedKeepsData(cfg: Config, spec: PolicySpec, data: S.Buffers, env: Env, n: nat)
    requires cfg.smoothing == None && n <= |SignalSpecs(spec)|
    ensures Sense(cfg, spec, data, env, n).data == data
  {
    if n > 0 {
      UnsmoothedKeepsData(cfg, spec, data, env, n - 1);
    }
  }

  /** Whatever weights an active reconcile starts from, just given or long recorded, a calm backend keeps its own. */
  lemma {:induction false} CalmKeepsStart(cfg: Config, run: seq<Round>, i: nat, backend: string)
    requires AveragesOwn(cfg, run) && i < |run|
    requires Active(run[i].env) && Declares(run[i].env.fetch.spec, backend) && Calm(cfg, run, i, backend)
    ensures Weight(Start(run[i].world.status, run[i].env).weights, backend)
            <= Weight(Weighed(cfg, run[i]).status.weights, backend)
  {
    var w, env := run[i].world, run[i].env;
    var spec := env.fetch.spec;
    var start := Start(w.status, env);
    var n := |SignalSpecs(spec)|;
    var sensed := Sense(cfg, spec, w.data, env, n);
    if n > 0 && cfg.metricsEnabled && !sensed.failed {
      SensedCount(cfg, spec, w.data, env, n);
      SensedAll(cfg, spec, w.data, env, n);
      forall k: nat | k < n ensures !E.Breaches(sensed.signals[k], backend) {
        CalmIsHealthy(cfg, run, i, backend, k);
      }
      HealthyKeepsWeight(DecisionInput(spec, start, sensed.signals), backend);
    }
    EvaluationWeights(cfg, spec, start, w.data, env);
  }

  /**
   End to end: a backend whose raw samples lie at or below the threshold over
   each signal's averaging window never loses weight in that round, not even
   in the one that gives the policy its first weights.
   */
  lemma {:induction false} CalmBackendKeepsWeight(cfg: Config, run: seq<Round>, i: nat, backend: string)
    requires AveragesOwn(cfg, run) && i < |run|
    requires run[i].env.fetch.Found? && Declares(run[i].env.fetch.spec, backend) && Calm(cfg, run, i, backend)
    ensures var before, after := run[i].world.status, After(cfg, run[i]).world.status;
            && (run[i].env.statusPatchOk ==>
                  Weight(Start(before, run[i].env).weights, backend) <= Weight(after.weights, backend))
            && (before.weights != [] ==> Weight(before.weights, backend) <= Weight(after.weights, backend))
  {
    var r := run[i];
    if Active(r.env) {
      CalmKeepsStart(cfg, run, i, backend);
      StoredMove(cfg, r);
    }
  }

  /** An evaluation leaves the weights alone or takes those of the decision. */
  lemma EvaluationWeights(cfg: Config, spec: PolicySpec, status: Status, data: S.Buffers, env: Env)
    requires Configured(cfg)
    ensures var sensed := Sense(cfg, spec, data, env, |SignalSpecs(spec)|);
            var after := Evaluation(cfg, spec, status, data, env).status.weights;
            after == status.weights
            || (|SignalSpecs(spec)| > 0 && cfg.metricsEnabled && !sensed.failed
                && after == E.Decide(DecisionInput(spec, status, sensed.signals)).weights)
  {
  }

  lemma HealthyKeepsWeight(inp: E.Input, name: string)
    requires UniqueNames(inp.backends) && !E.Unhealthy(inp.signals, name)
    requires Declared(inp.backends, name)
    ensures Weight(inp.current, name) <= Weight(E.Decide(inp).weights, name)
  {
    var i: nat :| i < |inp.backends| && inp.backends[i].name == name;
    D.NextHasTargets(inp);
    D.MoveDirections(inp, i);
    assert Weight(E.Decide(inp).weights, name) == E.Currents(D.Next(inp))[i];
    assert Weight(inp.current, name) == E.Currents(inp)[i];
  }
}
