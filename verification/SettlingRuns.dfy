/** Under steady signals the whole control loop settles, not just the evaluator. */
module SettlingRuns {
  import opened Reconciling
  import opened Runs
  import E = Evaluator
  import D = Decisions
  import C = Convergence
  import A = Apportionment

  /** A reconcile whose decision counts: every signal read, the cooldown over, the status stored. */
  ghost predicate Presses(cfg: Config, r: Round) {
    && AllSampled(cfg, r.env) && r.env.statusPatchOk
    && CooldownElapsed(r.world.status, r.env.fetch.spec.strategy, r.env.checkedAt)
  }

  /**
   Active reconciles see one spec, and those whose decision counts see the same
   signals. All else is free: reconciles within the cooldown, failed samples,
   routes and patches, pauses, rejected specs, a policy that cannot be fetched or is gone.
   */
  ghost predicate SteadySignals(cfg: Config, run: seq<Round>, spec: PolicySpec, signals: seq<E.Signal>) {
    && IsRun(cfg, run) && 0 < |run| && A.ValidBackends(spec.backends)
    && (forall i :: 0 <= i < |run| && Active(run[i].env) ==> run[i].env.fetch.spec == spec)
    && (forall i :: 0 <= i < |run| && Presses(cfg, run[i]) ==> SeenSignals(cfg, run[i]) == signals)
  }

  /** How many of the first n reconciles count. */
  ghost function Pressed(cfg: Config, run: seq<Round>, n: nat): nat
    requires n <= |run|
  {
    if n == 0 then 0 else Pressed(cfg, run, n - 1) + if Presses(cfg, run[n - 1]) then 1 else 0
  }

  /** One that counts is one decision. */
  lemma PressingDecides(cfg: Config, r: Round)
    requires Configured(cfg) && Admits(r.env) && Presses(cfg, r) && r.world.status.weights != []
    ensures After(cfg, r).world.status.weights
            == E.Decide(DecisionInput(r.env.fetch.spec, r.world.status, SeenSignals(cfg, r))).weights
    ensures After(cfg, r).world.status.weights != []
  {
    var spec := r.env.fetch.spec;
    SensedAll(cfg, spec, r.world.data, r.env, |SignalSpecs(spec)|);
    DecisionIsNotEmpty(DecisionInput(spec, r.world.status, SeenSignals(cfg, r)));
  }

  /** One that does not leaves recorded weights alone. */
  lemma OthersDoNotMove(cfg: Config, r: Round)
    requires Configured(cfg) && Admits(r.env) && !Presses(cfg, r) && r.world.status.weights != []
    ensures After(cfg, r).world.status.weights == r.world.status.weights
  {
    if Active(r.env) {
      var spec := r.env.fetch.spec;
      SensedAll(cfg, spec, r.world.data, r.env, |SignalSpecs(spec)|);
    }
  }

  lemma {:induction false} IterateOnce(inp: E.Input, n: nat)
    ensures C.Iterate(inp, n + 1) == D.Next(C.Iterate(inp, n))
    decreases n
  {
    if n > 0 {
      IterateOnce(D.Next(inp), n - 1);
    }
  }

  /** The stored weights are those of as many decisions in a row as reconciles counted. */
  ghost predicate Iterates(cfg: Config, run: seq<Round>, start: E.Input, n: nat)
    requires IsRun(cfg, run) && 0 < |run| && n <= |run|
  {
    && C.Iterate(start, Pressed(cfg, run, n)) == start.(current := StatusAfter(cfg, run, n).weights)
    && StatusAfter(cfg, run, n).weights != []
  }

  lemma {:induction false} RunIterates(cfg: Config, run: seq<Round>, spec: PolicySpec, signals: seq<E.Signal>, n: nat)
    requires SteadySignals(cfg, run, spec, signals) && run[0].world.status.weights != [] && n <= |run|
    ensures Iterates(cfg, run, DecisionInput(spec, run[0].world.status, signals), n)
  {
    if n > 0 {
      RunIterates(cfg, run, spec, signals, n - 1);
      OneRoundFurther(cfg, run, spec, signals, DecisionInput(spec, run[0].world.status, signals), n);
    }
  }

  lemma {:induction false} OneRoundFurther(cfg: Config, run: seq<Round>, spec: PolicySpec, signals: seq<E.Signal>,
                                           start: E.Input, n: nat)
    requires SteadySignals(cfg, run, spec, signals) && 0 < n <= |run| && Iterates(cfg, run, start, n - 1)
    requires start == DecisionInput(spec, run[0].world.status, signals)
    ensures Iterates(cfg, run, start, n)
  {
    var r, count := run[n - 1], Pressed(cfg, run, n - 1);
    FoundAsStored(cfg, run, n - 1);
    SeesSteady(cfg, run, spec, signals, n - 1);
    RoundIterates(cfg, r, spec, signals, start, count);
    StoredByRound(cfg, run, n);
    assert Pressed(cfg, run, n) == if Presses(cfg, r) then count + 1 else count;
  }

  lemma {:induction false} StoredByRound(cfg: Config, run: seq<Round>, n: nat)
    requires IsRun(cfg, run) && 0 < n <= |run|
    ensures StatusAfter(cfg, run, n).weights == After(cfg, run[n - 1]).world.status.weights
  {
  }

  lemma {:induction false} FoundAsStored(cfg: Config, run: seq<Round>, i: nat)
    requires IsRun(cfg, run) && i < |run|
    ensures run[i].world.status == StatusAfter(cfg, run, i)
  {
  }

  lemma {:induction false} SeesSteady(cfg: Config, run: seq<Round>, spec: PolicySpec, signals: seq<E.Signal>, i: nat)
    requires SteadySignals(cfg, run, spec, signals) && i < |run|
    ensures Admits(run[i].env)
    ensures Presses(cfg, run[i]) ==> run[i].env.fetch.spec == spec && SeenSignals(cfg, run[i]) == signals
  {
  }

  lemma RoundIterates(cfg: Config, r: Round, spec: PolicySpec, signals: seq<E.Signal>, start: E.Input, count: nat)
    requires Configured(cfg) && Admits(r.env) && r.world.status.weights != []
    requires Presses(cfg, r) ==> r.env.fetch.spec == spec && SeenSignals(cfg, r) == signals
    requires start == E.Input(spec.backends, start.current, signals, StepOf(spec.strategy))
    requires C.Iterate(start, count) == start.(current := r.world.status.weights)
    ensures C.Iterate(start, if Presses(cfg, r) then count + 1 else count)
            == start.(current := After(cfg, r).world.status.weights)
    ensures After(cfg, r).world.status.weights != []
  {
    if Presses(cfg, r) {
      PressingDecides(cfg, r);
      IterateOnce(start, count);
      assert C.Iterate(start, count) == DecisionInput(spec, r.world.status, signals);
    } else {
      OthersDoNotMove(cfg, r);
    }
  }

  /** A hold repeats for ever. */
  lemma {:induction false} HoldsFromThenOn(inp: E.Input, m: nat, n: nat)
    requires m <= n && !E.Decide(C.Iterate(inp, m)).changed
    ensures C.Iterate(inp, n) == C.Iterate(inp, m)
    decreases n - m
  {
    if m < n {
      HoldsFromThenOn(inp, m, n - 1);
      IterateOnce(inp, n - 1);
      D.ChangedIffPointsMove(C.Iterate(inp, m));
    }
  }

  /**
   The loop settles: once n reconciles have counted, n being at most what the
   movable points take in full steps, the stored weights never change again,
   with every breaching backend at its minimum or every healthy one at its maximum.
   */
  ghost predicate SettledAfter(cfg: Config, run: seq<Round>, start: E.Input, n: nat)
    requires IsRun(cfg, run) && 0 < |run|
  {
    && (n == 0 || (n - 1) * start.maxStepPercent < C.Movable(start))
    && C.Exhausted(C.Iterate(start, n))
    && (forall m: nat :: m <= |run| && n <= Pressed(cfg, run, m) ==>
          StatusAfter(cfg, run, m).weights == C.Iterate(start, n).current)
  }

  lemma {:induction false} LoopSettles(cfg: Config, run: seq<Round>, spec: PolicySpec, signals: seq<E.Signal>)
    requires SteadySignals(cfg, run, spec, signals) && run[0].world.status.weights != []
    ensures exists n: nat :: SettledAfter(cfg, run, DecisionInput(spec, run[0].world.status, signals), n)
  {
    var start := DecisionInput(spec, run[0].world.status, signals);
    C.Converges(start);
    var n: nat :| C.SettlesIn(start, n);
    forall m: nat | m <= |run| && n <= Pressed(cfg, run, m)
      ensures StatusAfter(cfg, run, m).weights == C.Iterate(start, n).current
    {
      RunIterates(cfg, run, spec, signals, m);
      HoldsFromThenOn(start, n, Pressed(cfg, run, m));
    }
    assert SettledAfter(cfg, run, start, n);
  }

  /** A policy without weights has some from its first active reconcile whose status is stored. */
  lemma FirstWeights(cfg: Config, r: Round)
    requires Configured(cfg) && Admits(r.env) && Active(r.env) && r.env.statusPatchOk
    ensures After(cfg, r).world.status.weights != []
  {
    WeighedIsNotEmpty(cfg, r);
  }

  /** Whatever is left of a run is a run. */
  lemma {:induction false} RestOfRun(cfg: Config, run: seq<Round>, k: nat)
    requires IsRun(cfg, run) && k <= |run|
    ensures IsRun(cfg, run[k..])
  {
    forall i | 0 <= i < |run[k..]| - 1
      ensures run[k..][i + 1].world.status == After(cfg, run[k..][i]).world.status
    {
      assert run[k + i + 1].world.status == After(cfg, run[k + i]).world.status;
    }
  }

  /** The same from any round on at which there are weights, be they the first ever. */
  lemma {:induction false} LoopSettlesFrom(cfg: Config, run: seq<Round>, k: nat, spec: PolicySpec,
                                           signals: seq<E.Signal>)
    requires IsRun(cfg, run) && k < |run| && SteadySignals(cfg, run[k..], spec, signals)
    requires run[k].world.status.weights != [] || (0 < k && Active(run[k - 1].env) && run[k - 1].env.statusPatchOk)
    ensures IsRun(cfg, run[k..])
    ensures exists n: nat :: SettledAfter(cfg, run[k..], DecisionInput(spec, run[k].world.status, signals), n)
  {
    if 0 < k && Active(run[k - 1].env) && run[k - 1].env.statusPatchOk {
      FirstWeights(cfg, run[k - 1]);
      assert run[k - 1 + 1].world.status == After(cfg, run[k - 1]).world.status;
    }
    RestOfRun(cfg, run, k);
    LoopSettles(cfg, run[k..], spec, signals);
  }
}
