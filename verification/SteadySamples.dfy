/** Steady raw samples make steady signals once the windows are full, so the loop settles on them. */
module SteadySamples {
  import opened Reconciling
  import opened Runs
  import opened SmoothedRuns
  import opened SettlingRuns
  import E = Evaluator
  import A = Apportionment
  import S = Smoothing

  /** The signals that unsmoothed samples, one map for each configured signal, would make. */
  function RawSignals(spec: PolicySpec, raw: seq<map<string, real>>): seq<E.Signal>
    requires |raw| == |SignalSpecs(spec)|
  {
    seq(|raw|, k requires 0 <= k < |raw| => E.Signal(SignalSpecs(spec)[k].name, raw[k], SignalSpecs(spec)[k].threshold))
  }

  /** How often a signal is read for a backend in rounds j to n. */
  ghost function ReadCount(cfg: Config, run: seq<Round>, j: nat, n: nat, signal: string, backend: string): nat
    requires j <= n <= |run|
    decreases n
  {
    if n == j then 0
    else ReadCount(cfg, run, j, n - 1, signal, backend)
         + if RawValue(cfg, run[n - 1].env, signal, backend).Some? then 1 else 0
  }

  lemma {:induction false} ReadCountGrows(cfg: Config, run: seq<Round>, j: nat, m: nat, n: nat, signal: string,
                                          backend: string)
    requires j <= m <= n <= |run|
    ensures ReadCount(cfg, run, j, m, signal, backend) <= ReadCount(cfg, run, j, n, signal, backend)
    decreases n
  {
    if m < n {
      ReadCountGrows(cfg, run, j, m, n - 1, signal, backend);
    }
  }

  /** From round j on, whatever is read for the signal and the backend is c. */
  ghost predicate ReadsOnly(cfg: Config, run: seq<Round>, j: nat, signal: string, backend: string, c: real) {
    forall i: nat :: j <= i < |run| && RawValue(cfg, run[i].env, signal, backend).Some? ==>
      RawValue(cfg, run[i].env, signal, backend).value == c
  }

  /** What was read since round j is the end of the history, and all of it is c. */
  lemma {:induction false} HistoryEndsIn(cfg: Config, run: seq<Round>, j: nat, n: nat, signal: string,
                                         backend: string, c: real)
    requires j <= n <= |run| && ReadsOnly(cfg, run, j, signal, backend, c)
    ensures var h := RawHistory(cfg, run, n, signal, backend);
            var count := ReadCount(cfg, run, j, n, signal, backend);
            count <= |h| && forall x :: |h| - count <= x < |h| ==> h[x] == c
    decreases n
  {
    if j < n {
      HistoryEndsIn(cfg, run, j, n - 1, signal, backend, c);
    }
  }

  /** A window no longer than what was read since round j holds nothing but c. */
  lemma {:induction false} WindowIsConstant(cfg: Config, run: seq<Round>, j: nat, i: nat, signal: string,
                                            backend: string, c: real)
    requires Configured(cfg) && j <= i < |run| && run[i].env.fetch.Found?
    requires ReadsOnly(cfg, run, j, signal, backend, c)
    requires Reach(cfg, run[i].env.fetch.spec) <= ReadCount(cfg, run, j, i + 1, signal, backend)
    ensures var window := Window(cfg, run, i, signal, backend);
            forall x :: 0 <= x < |window| ==> window[x] == c
  {
    HistoryEndsIn(cfg, run, j, i + 1, signal, backend, c);
  }

  /** At round i every configured signal is read as raw says, over windows filled with just that. */
  ghost predicate SteadyWindows(cfg: Config, run: seq<Round>, i: nat, raw: seq<map<string, real>>)
    requires Configured(cfg) && i < |run| && run[i].env.fetch.Found?
  {
    var specs := SignalSpecs(run[i].env.fetch.spec);
    && |raw| == |specs|
    && forall k: nat :: k < |specs| ==>
         && SampleOf(run[i].env, specs[k].name) == Sampled(raw[k])
         && forall b :: b in raw[k] ==>
              var window := Window(cfg, run, i, specs[k].name, b);
              forall x :: 0 <= x < |window| ==> window[x] == raw[k][b]
  }

  /** Then smoothing changes nothing: the evaluator sees the raw samples. */
  lemma {:induction false} SteadyWindowsShowRaw(cfg: Config, run: seq<Round>, i: nat, raw: seq<map<string, real>>)
    requires AveragesOwn(cfg, run) && i < |run|
    requires AllSampled(cfg, run[i].env) && SteadyWindows(cfg, run, i, raw)
    ensures SeenSignals(cfg, run[i]) == RawSignals(run[i].env.fetch.spec, raw)
  {
    var env, data := run[i].env, run[i].world.data;
    var spec := env.fetch.spec;
    var n := |SignalSpecs(spec)|;
    SensedAll(cfg, spec, data, env, n);
    SensedCount(cfg, spec, data, env, n);
    forall k: nat | k < n ensures SeenSignals(cfg, run[i])[k] == RawSignals(spec, raw)[k] {
      SensedSignal(cfg, spec, data, env, n, k);
      SmoothedIsRaw(cfg, run, i, raw, k);
    }
  }

  lemma {:induction false} SmoothedIsRaw(cfg: Config, run: seq<Round>, i: nat, raw: seq<map<string, real>>, k: nat)
    requires AveragesOwn(cfg, run) && i < |run|
    requires AllSampled(cfg, run[i].env) && SteadyWindows(cfg, run, i, raw) && k < |raw|
    ensures var spec := run[i].env.fetch.spec;
            Averages(cfg, spec, Sense(cfg, spec, run[i].world.data, run[i].env, k).data, SignalSpecs(spec)[k].name,
                     raw[k])
            == raw[k]
  {
    var spec := run[i].env.fetch.spec;
    var sig := SignalSpecs(spec)[k].name;
    var before := Sense(cfg, spec, run[i].world.data, run[i].env, k).data;
    var out := Averages(cfg, spec, before, sig, raw[k]);
    forall b | b in raw[k] ensures out[b] == raw[k][b] {
      SensedIsWindowMean(cfg, run, i, k, b);
      S.MeanOfConstant(Window(cfg, run, i, sig, b), raw[k][b]);
    }
    assert out.Keys == raw[k].Keys;
  }

  /** From round j on active reconciles see one spec, and each signal is either read as raw says or not at all. */
  ghost predicate SteadyReads(cfg: Config, run: seq<Round>, j: nat, spec: PolicySpec, raw: seq<map<string, real>>) {
    && |raw| == |SignalSpecs(spec)|
    && forall i: nat :: j <= i < |run| && Active(run[i].env) ==>
         && run[i].env.fetch.spec == spec
         && forall k: nat :: k < |raw| ==>
              SampleOf(run[i].env, SignalSpecs(spec)[k].name).Sampled? ==>
                SampleOf(run[i].env, SignalSpecs(spec)[k].name).values == raw[k]
  }

  /** By round p every backend has been read often enough, since round j, to fill each signal's window. */
  ghost predicate WindowsFilled(cfg: Config, run: seq<Round>, j: nat, p: nat, spec: PolicySpec,
                                raw: seq<map<string, real>>)
    requires Configured(cfg) && j <= p <= |run| && |raw| == |SignalSpecs(spec)|
  {
    forall k: nat, b: string :: k < |raw| && b in raw[k] ==>
      Reach(cfg, spec) <= ReadCount(cfg, run, j, p, SignalSpecs(spec)[k].name, b)
  }

  lemma {:induction false} SteadyReadsReadOnly(cfg: Config, run: seq<Round>, j: nat, spec: PolicySpec,
                                               raw: seq<map<string, real>>, k: nat, backend: string)
    requires SteadyReads(cfg, run, j, spec, raw) && k < |raw| && backend in raw[k]
    ensures ReadsOnly(cfg, run, j, SignalSpecs(spec)[k].name, backend, raw[k][backend])
  {
    var sig := SignalSpecs(spec)[k].name;
    forall i: nat | j <= i < |run| && RawValue(cfg, run[i].env, sig, backend).Some?
      ensures RawValue(cfg, run[i].env, sig, backend).value == raw[k][backend]
    {
      var m: nat :| Reads(cfg, run[i].env, m) && SignalSpecs(run[i].env.fetch.spec)[m].name == sig
                    && backend in SampleOf(run[i].env, sig).values;
      assert SampleOf(run[i].env, sig).Sampled?;
    }
  }

  /** After that, every fully sampled reconcile shows the evaluator the raw samples. */
  lemma {:induction false} FilledWindowsAreSteady(cfg: Config, run: seq<Round>, j: nat, p: nat, i: nat,
                                                  spec: PolicySpec, raw: seq<map<string, real>>)
    requires IsRun(cfg, run) && j <= p <= i < |run|
    requires SteadyReads(cfg, run, j, spec, raw) && WindowsFilled(cfg, run, j, p, spec, raw)
    requires AllSampled(cfg, run[i].env)
    ensures SteadyWindows(cfg, run, i, raw)
  {
    forall k: nat, b: string | k < |raw| && b in raw[k]
      ensures var window := Window(cfg, run, i, SignalSpecs(spec)[k].name, b);
              forall x :: 0 <= x < |window| ==> window[x] == raw[k][b]
    {
      var sig := SignalSpecs(spec)[k].name;
      SteadyReadsReadOnly(cfg, run, j, spec, raw, k, b);
      ReadCountGrows(cfg, run, j, p, i + 1, sig, b);
      WindowIsConstant(cfg, run, j, i, sig, b, raw[k][b]);
    }
  }

  lemma {:induction false} PressingSeesRaw(cfg: Config, run: seq<Round>, j: nat, p: nat, i: nat, spec: PolicySpec,
                                           raw: seq<map<string, real>>)
    requires AveragesOwn(cfg, run)
    requires j <= p <= i < |run| && SteadyReads(cfg, run, j, spec, raw) && WindowsFilled(cfg, run, j, p, spec, raw)
    requires Presses(cfg, run[i])
    ensures SeenSignals(cfg, run[i]) == RawSignals(spec, raw)
  {
    FilledWindowsAreSteady(cfg, run, j, p, i, spec, raw);
    SteadyWindowsShowRaw(cfg, run, i, raw);
  }

  /**
   From raw samples to rest: once steady samples have filled every averaging
   window, the loop settles as the evaluator would on the raw samples themselves.
   */
  lemma {:induction false} LoopSettlesOnSteadySamples(cfg: Config, run: seq<Round>, j: nat, p: nat, spec: PolicySpec,
                                                      raw: seq<map<string, real>>)
    requires AveragesOwn(cfg, run)
    requires j <= p < |run| && A.ValidBackends(spec.backends)
    requires SteadyReads(cfg, run, j, spec, raw) && WindowsFilled(cfg, run, j, p, spec, raw)
    requires run[p].world.status.weights != [] || (0 < p && Active(run[p - 1].env) && run[p - 1].env.statusPatchOk)
    ensures IsRun(cfg, run[p..])
    ensures exists n: nat ::
              SettledAfter(cfg, run[p..], DecisionInput(spec, run[p].world.status, RawSignals(spec, raw)), n)
  {
    RestOfRun(cfg, run, p);
    var rest := run[p..];
    forall i: nat | i < |rest| && Presses(cfg, rest[i]) ensures SeenSignals(cfg, rest[i]) == RawSignals(spec, raw) {
      assert rest[i] == run[p + i];
      PressingSeesRaw(cfg, run, j, p, p + i, spec, raw);
    }
    LoopSettlesFrom(cfg, run, p, spec, RawSignals(spec, raw));
  }
}
