/** What one reconcile reports and records: its error, when it wants to run again, its phase and its conditions. */
module Outcomes {
  import opened Api
  import opened Reconciling
  import opened Runs
  import opened Announcements
  import opened SettlingRuns
  import opened Configuration
  import E = Evaluator
  import A = Apportionment
  import R = Router

  /** The same reconcile with its status patch going through. */
  ghost function Storing(r: Round): Round {
    r.(env := r.env.(statusPatchOk := true))
  }

  /** The route is there, or absent for certain, and what has to be written to it can be. */
  ghost predicate Applies(cfg: Config, r: Round)
    requires Configured(cfg) && Admits(r.env) && Active(r.env)
  {
    r.env.routeGetOk && (Differs(Weighed(cfg, r).status.weights, r.world.route) ==> r.env.routePatchOk)
  }

  /**
   A reconcile reports an error exactly when the policy cannot be fetched, the
   route cannot be read or written, or a status that is to change in anything
   cannot be stored. A policy that is gone is no error.
   */
  lemma ErrorIff(cfg: Config, r: Round)
    requires Configured(cfg) && Admits(r.env)
    ensures After(cfg, r).failed <==>
            || r.env.fetch == FetchFailed
            || (Active(r.env) && !Applies(cfg, r))
            || (r.env.fetch.Found? && !r.env.statusPatchOk
                && (r.env.detailsDiffer || After(cfg, Storing(r)).world.status != r.world.status))
  {
    if Active(r.env) {
      SameWeighed(cfg, r);
      FinishFails(r.world.status, r.world.route, r.env, r.env.fetch.spec, Weighed(cfg, r));
    }
  }

  lemma SameWeighed(cfg: Config, r: Round)
    requires Configured(cfg) && Admits(r.env) && Active(r.env)
    ensures Weighed(cfg, Storing(r)) == Weighed(cfg, r)
  {
    var spec := r.env.fetch.spec;
    SameSense(cfg, spec, r, |SignalSpecs(spec)|);
  }

  lemma {:induction false} SameSense(cfg: Config, spec: PolicySpec, r: Round, n: nat)
    requires Configured(cfg) && n <= |SignalSpecs(spec)|
    ensures Sense(cfg, spec, r.world.data, Storing(r).env, n) == Sense(cfg, spec, r.world.data, r.env, n)
  {
    if n > 0 {
      SameSense(cfg, spec, r, n - 1);
    }
  }

  lemma FinishFails(original: Status, found: Option<R.Route>, env: Env, spec: PolicySpec, ev: Evaluated)
    ensures var o := Finish(original, found, env, spec, ev);
            var stored := Finish(original, found, env.(statusPatchOk := true), spec, ev).world.status;
            o.failed <==>
            || !env.routeGetOk
            || (Differs(ev.status.weights, found) && !env.routePatchOk)
            || (!env.statusPatchOk && (env.detailsDiffer || stored != original))
  {
  }

  /**
   It asks to run again after the declared cooldown, 30 seconds where nothing
   positive is declared, exactly when it is active and the route turns out
   missing, or is as it should be and no error is reported.
   */
  lemma RequeueIff(cfg: Config, r: Round)
    requires Configured(cfg) && Admits(r.env)
    ensures After(cfg, r).requeueAfter
            == if Active(r.env) && r.env.routeGetOk
                  && (r.world.route == None || (Applies(cfg, r) && !After(cfg, r).failed))
               then Some(if r.env.fetch.spec.strategy.cooldownSeconds > 0
                         then r.env.fetch.spec.strategy.cooldownSeconds else 30)
               else None
  {
  }

  /** Where no policy is found, or it is not driven, route and requeue are left alone. */
  lemma IdleLeavesRoute(cfg: Config, r: Round)
    requires Configured(cfg) && Admits(r.env) && !Active(r.env)
    ensures After(cfg, r).world.route == r.world.route && After(cfg, r).requeueAfter == None
    ensures !r.env.fetch.Found? ==> After(cfg, r).world.status == r.world.status && After(cfg, r).events == []
  {
  }

  /** A signal is configured and there is a source to read it from. */
  ghost predicate Measured(cfg: Config, spec: PolicySpec) {
    cfg.metricsEnabled && (spec.latencyThresholdMs.Some? || spec.errorRateThresholdPercent.Some?)
  }

  /** All is read, the cooldown is over and the evaluator moves something. */
  ghost predicate Moves(cfg: Config, r: Round)
    requires Configured(cfg) && Admits(r.env)
  {
    && FullyRead(cfg, r.env)
    && Waited(r.env.fetch.spec.strategy, r.world.status.lastWeightChangeTime, r.env.checkedAt)
    && E.Decide(AskedOf(r.env.fetch.spec, Start(r.world.status, r.env).weights, SeenSignals(cfg, r))).changed
  }

  lemma MovesIff(cfg: Config, r: Round)
    requires Configured(cfg) && Admits(r.env) && Active(r.env)
    ensures Moves(cfg, r) <==> Weighed(cfg, r).phase == Progressing
    ensures Moves(cfg, r) ==>
              && Weighed(cfg, r).status.lastWeightChangeTime == Some(r.env.changedAt)
              && Weighed(cfg, r).status.weights
                 == E.Decide(AskedOf(r.env.fetch.spec, Start(r.world.status, r.env).weights,
                                     SeenSignals(cfg, r))).weights
    ensures !Moves(cfg, r) ==> Weighed(cfg, r).status.weights == Start(r.world.status, r.env).weights
  {
    FullyReadIff(cfg, r.env);
    WaitedIff(r.world.status, r.env.fetch.spec.strategy, r.env.checkedAt);
    ProgressIff(cfg, r);
    if !Moves(cfg, r) {
      WeighedWeights(cfg, r);
    }
  }

  /** The phase stored by a reconcile that finds the policy. */
  lemma PhaseOnFields(cfg: Config, r: Round)
    requires Configured(cfg) && Admits(r.env) && r.env.fetch.Found? && r.env.statusPatchOk
    ensures After(cfg, r).world.status.phase
            == if !A.ValidBackends(r.env.fetch.spec.backends) then Degraded
               else if r.env.fetch.spec.paused then Frozen
               else if r.env.routeGetOk && r.world.route == None then Degraded
               else if !Applies(cfg, r) then r.world.status.phase
               else if Measured(cfg, r.env.fetch.spec) && !FullyRead(cfg, r.env) then Frozen
               else if Moves(cfg, r) then Progressing
               else Stable
  {
    if Active(r.env) {
      MovesIff(cfg, r);
      FullyReadIff(cfg, r.env);
      EvaluationPhase(cfg, r);
      EvaluationPhases(cfg, r);
    }
  }

  lemma EvaluationPhase(cfg: Config, r: Round)
    requires Configured(cfg) && Admits(r.env) && Active(r.env)
    ensures Weighed(cfg, r).phase == Frozen <==> Measured(cfg, r.env.fetch.spec) && !AllSampled(cfg, r.env)
  {
    var spec := r.env.fetch.spec;
    SpecsOnFields(spec);
    SensedAll(cfg, spec, r.world.data, r.env, |SignalSpecs(spec)|);
  }

  lemma EvaluationPhases(cfg: Config, r: Round)
    requires Configured(cfg) && Admits(r.env) && Active(r.env)
    ensures Weighed(cfg, r).phase == Frozen || Weighed(cfg, r).phase == Stable || Weighed(cfg, r).phase == Progressing
    ensures Weighed(cfg, r).status.phase == r.world.status.phase
  {
  }

  lemma EvaluationMetrics(cfg: Config, r: Round)
    requires Configured(cfg) && Admits(r.env) && Active(r.env)
    ensures Weighed(cfg, r).status.metricsAvailable
            == if !Measured(cfg, r.env.fetch.spec) then r.world.status.metricsAvailable
               else if AllSampled(cfg, r.env) then IsTrue(MetricsAvailable) else IsFalse(MetricsUnavailable)
  {
    var spec := r.env.fetch.spec;
    SpecsOnFields(spec);
    SensedAll(cfg, spec, r.world.data, r.env, |SignalSpecs(spec)|);
  }

  /** The conditions stored by a reconcile that finds the policy. */
  lemma ConditionsOnFields(cfg: Config, r: Round)
    requires Configured(cfg) && Admits(r.env) && r.env.fetch.Found? && r.env.statusPatchOk
    ensures var before, after := r.world.status, After(cfg, r).world.status;
            && after.metricsAvailable
               == (if !Active(r.env) || !Measured(cfg, r.env.fetch.spec) then before.metricsAvailable
                   else if FullyRead(cfg, r.env) then IsTrue(MetricsAvailable) else IsFalse(MetricsUnavailable))
            && after.routeResolved
               == (if Active(r.env) && r.env.routeGetOk && r.world.route == None then IsFalse(RouteMissing)
                   else if Active(r.env) && Applies(cfg, r) then IsTrue(WeightsApplied) else before.routeResolved)
            && after.ready
               == (if !A.ValidBackends(r.env.fetch.spec.backends) then IsFalse(InvalidSpec)
                   else if r.env.fetch.spec.paused then IsTrue(Paused)
                   else if r.env.routeGetOk && r.world.route == None then IsFalse(RouteMissing)
                   else if Applies(cfg, r) then IsTrue(Reconciled) else IsFalse(RouteUpdateFailed))
  {
    if Active(r.env) {
      FullyReadIff(cfg, r.env);
      EvaluationMetrics(cfg, r);
    }
  }

  /** The times stored: an evaluation is dated when the route is as it should be, a change when it is made. */
  lemma TimesOnFields(cfg: Config, r: Round)
    requires Configured(cfg) && Admits(r.env) && r.env.fetch.Found? && r.env.statusPatchOk
    ensures var before, after := r.world.status, After(cfg, r).world.status;
            && after.lastEvaluationTime
               == (if Active(r.env) && r.world.route.Some? && Applies(cfg, r) then Some(r.env.evaluatedAt)
                   else before.lastEvaluationTime)
            && after.lastWeightChangeTime
               == (if Moves(cfg, r) then Some(r.env.changedAt) else before.lastWeightChangeTime)
  {
    if Active(r.env) {
      MovesIff(cfg, r);
      EvaluationTimes(cfg, r);
    }
  }

  lemma EvaluationTimes(cfg: Config, r: Round)
    requires Configured(cfg) && Admits(r.env) && Active(r.env)
    ensures Weighed(cfg, r).status.lastEvaluationTime == r.world.status.lastEvaluationTime
    ensures Weighed(cfg, r).phase != Progressing ==>
              Weighed(cfg, r).status.lastWeightChangeTime == r.world.status.lastWeightChangeTime
  {
  }

  /** The reason given for the last transition. */
  lemma ReasonOnFields(cfg: Config, r: Round)
    requires Configured(cfg) && Admits(r.env) && Active(r.env) && r.env.statusPatchOk
    ensures After(cfg, r).world.status.lastTransitionReason
            == if FullyRead(cfg, r.env) then
                 if Waited(r.env.fetch.spec.strategy, r.world.status.lastWeightChangeTime, r.env.checkedAt)
                 then Decided(E.Decide(AskedOf(r.env.fetch.spec, Start(r.world.status, r.env).weights,
                                               SeenSignals(cfg, r))).reason)
                 else WithinCooldown
               else if r.world.status.weights == [] then Initialized
               else r.world.status.lastTransitionReason
  {
    var spec := r.env.fetch.spec;
    FullyReadIff(cfg, r.env);
    WaitedIff(r.world.status, spec.strategy, r.env.checkedAt);
    SensedAll(cfg, spec, r.world.data, r.env, |SignalSpecs(spec)|);
  }
}
