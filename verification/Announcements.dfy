/** Which events a reconcile emits, and what they tell of a run. */
module Announcements {
  import opened Api
  import opened Reconciling
  import opened Runs
  import E = Evaluator
  import A = Apportionment
  import S = Smoothing
  import R = Router

  // ----- pausing and metrics -----

  /** Neither a pause nor its end is ever announced, although both are documented. */
  lemma PauseIsNeverAnnounced(cfg: Config, w: World, env: Env)
    requires Configured(cfg) && Admits(env)
    ensures Paused !in Step(cfg, w, env).events && Resumed !in Step(cfg, w, env).events
  {
  }

  /** An evaluation warns only on entering False, ends there on a failure, and leaves it only when all is read. */
  lemma EvaluationCondition(cfg: Config, spec: PolicySpec, status: Status, data: S.Buffers, env: Env)
    requires Configured(cfg) && Active(env) && spec == env.fetch.spec
    ensures var ev := Evaluation(cfg, spec, status, data, env);
            && (ev.events == [] || (ev.events == [MetricsUnavailable] && !status.metricsAvailable.IsFalse?
                                    && ev.status.metricsAvailable.IsFalse?))
            && (status.metricsAvailable.IsFalse? && !ev.status.metricsAvailable.IsFalse? ==> AllSampled(cfg, env))
  {
    SensedAll(cfg, spec, data, env, |SignalSpecs(spec)|);
  }

  /** How one reconcile moves the MetricsAvailable condition, and when it warns. */
  lemma MetricsConditionStep(cfg: Config, w: World, env: Env)
    requires Configured(cfg) && Admits(env)
    ensures var o := Step(cfg, w, env);
            var before, after := w.status.metricsAvailable, o.world.status.metricsAvailable;
            && (MetricsUnavailable in o.events ==> !before.IsFalse? && (env.statusPatchOk ==> after.IsFalse?))
            && (before.IsFalse? && !after.IsFalse? ==> AllSampled(cfg, env) && env.statusPatchOk)
  {
    if Active(env) {
      var spec := env.fetch.spec;
      var start := WithWeights(w.status, spec, env.shareOrder);
      EvaluationCondition(cfg, spec, start, w.data, env);
      var ev := Evaluation(cfg, spec, start, w.data, env);
      FinishKeepsCondition(w.status, w.route, env, spec, ev);
    }
  }

  lemma FinishKeepsCondition(original: Status, found: Option<R.Route>, env: Env, spec: PolicySpec, ev: Evaluated)
    ensures var o := Finish(original, found, env, spec, ev);
            && MetricsUnavailable !in o.events
            && o.world.status.metricsAvailable
               == if env.statusPatchOk then ev.status.metricsAvailable else original.metricsAvailable
  {
  }

  /** The reconcile emits an event with this cause. */
  ghost predicate Emits(cfg: Config, r: Round, cause: Cause)
    requires Configured(cfg) && Admits(r.env)
  {
    cause in After(cfg, r).events
  }

  /** From a False condition to one that is not, some reconcile in between read every signal. */
  lemma {:induction false} RecoveryNeedsSamples(cfg: Config, run: seq<Round>, i: nat, j: nat) returns (k: nat)
    requires IsRun(cfg, run) && i <= j < |run|
    requires run[i].world.status.metricsAvailable.IsFalse? && !run[j].world.status.metricsAvailable.IsFalse?
    ensures i <= k < j && AllSampled(cfg, run[k].env) && run[k].env.statusPatchOk
    decreases j - i
  {
    MetricsConditionStep(cfg, run[i].world, run[i].env);
    assert run[i + 1].world.status == After(cfg, run[i]).world.status;
    if run[i + 1].world.status.metricsAvailable.IsFalse? {
      k := RecoveryNeedsSamples(cfg, run, i + 1, j);
    } else {
      k := i;
    }
  }

  /**
   A MetricsUnavailable warning that was recorded is only repeated after a
   reconcile in between has read every signal.
   */
  lemma {:induction false} MetricsWarningsAreTransitions(cfg: Config, run: seq<Round>, i: nat, j: nat) returns (k: nat)
    requires IsRun(cfg, run) && i < j < |run|
    requires Emits(cfg, run[i], MetricsUnavailable) && run[i].env.statusPatchOk
    requires Emits(cfg, run[j], MetricsUnavailable)
    ensures i < k < j && AllSampled(cfg, run[k].env)
  {
    MetricsConditionStep(cfg, run[i].world, run[i].env);
    MetricsConditionStep(cfg, run[j].world, run[j].env);
    assert run[i + 1].world.status == After(cfg, run[i]).world.status;
    k := RecoveryNeedsSamples(cfg, run, i + 1, j);
  }

  /** A warning of either kind means the policy was not Degraded, and is once the status is stored. */
  lemma DegradedStep(cfg: Config, w: World, env: Env)
    requires Configured(cfg) && Admits(env)
    ensures var o := Step(cfg, w, env);
            InvalidSpec in o.events || RouteMissing in o.events ==>
              w.status.phase != Degraded && (env.statusPatchOk ==> o.world.status.phase == Degraded)
  {
  }

  /**
   Between two warnings about an invalid spec or a missing route, the first of
   them recorded, some reconcile left the policy in another phase.
   */
  lemma {:induction false} DegradedWarningsAreTransitions(cfg: Config, run: seq<Round>, i: nat, j: nat)
    requires IsRun(cfg, run) && i < j < |run|
    requires Emits(cfg, run[i], InvalidSpec) || Emits(cfg, run[i], RouteMissing)
    requires Emits(cfg, run[j], InvalidSpec) || Emits(cfg, run[j], RouteMissing)
    requires run[i].env.statusPatchOk
    ensures i + 1 < j && After(cfg, run[j - 1]).world.status.phase != Degraded
  {
    DegradedStep(cfg, run[i].world, run[i].env);
    DegradedStep(cfg, run[j].world, run[j].env);
    assert run[j - 1 + 1].world.status == After(cfg, run[j - 1]).world.status;
  }

  /** What each guarded warning is about, on its own: no status is consulted. */
  ghost predicate Trouble(cfg: Config, w: World, env: Env, cause: Cause) {
    match cause
    case InvalidSpec => env.fetch.Found? && !A.ValidBackends(env.fetch.spec.backends)
    case RouteMissing => Active(env) && env.routeGetOk && w.route == None
    case MetricsUnavailable =>
      Active(env) && cfg.metricsEnabled && SignalSpecs(env.fetch.spec) != [] && !AllSampled(cfg, env)
    case _ => false
  }

  /**
   What keeps a guarded warning back: for metrics, their own condition; for the
   other two the Degraded phase, whichever trouble brought it about.
   */
  ghost predicate Muted(s: Status, cause: Cause) {
    if cause == MetricsUnavailable then s.metricsAvailable.IsFalse? else s.phase == Degraded
  }

  ghost predicate Guarded(cause: Cause) {
    cause == InvalidSpec || cause == RouteMissing || cause == MetricsUnavailable
  }

  /** The events of an active reconcile: those of the evaluation, then what came of the route. */
  lemma ActiveEvents(cfg: Config, r: Round)
    requires Configured(cfg) && Admits(r.env) && Active(r.env)
    ensures After(cfg, r).events == Weighed(cfg, r).events
            + Finish(r.world.status, r.world.route, r.env, r.env.fetch.spec, Weighed(cfg, r)).events
  {
  }

  lemma MetricsWarningIff(cfg: Config, r: Round)
    requires Configured(cfg) && Admits(r.env) && Active(r.env)
    ensures Weighed(cfg, r).events == [] || Weighed(cfg, r).events == [MetricsUnavailable]
    ensures MetricsUnavailable in Weighed(cfg, r).events <==>
            Trouble(cfg, r.world, r.env, MetricsUnavailable) && !Muted(r.world.status, MetricsUnavailable)
  {
    SensedAll(cfg, r.env.fetch.spec, r.world.data, r.env, |SignalSpecs(r.env.fetch.spec)|);
  }

  lemma RouteWarningIff(cfg: Config, r: Round, ev: Evaluated)
    requires Configured(cfg) && Admits(r.env) && Active(r.env)
    ensures var events := Finish(r.world.status, r.world.route, r.env, r.env.fetch.spec, ev).events;
            && InvalidSpec !in events && MetricsUnavailable !in events
            && (RouteMissing in events <==>
                Trouble(cfg, r.world, r.env, RouteMissing) && !Muted(r.world.status, RouteMissing))
  {
  }

  /** A guarded warning is emitted exactly when there is trouble and its guard does not keep it back. */
  lemma WarnsIffNotMuted(cfg: Config, r: Round, cause: Cause)
    requires Configured(cfg) && Admits(r.env) && Guarded(cause)
    ensures Emits(cfg, r, cause) <==> Trouble(cfg, r.world, r.env, cause) && !Muted(r.world.status, cause)
  {
    if Active(r.env) {
      ActiveEvents(cfg, r);
      MetricsWarningIff(cfg, r);
      RouteWarningIff(cfg, r, Weighed(cfg, r));
    }
  }

  /**
   When the trouble persists, a guarded warning is repeated by the next
   reconcile if and only if the status of the first could not be stored.
   */
  lemma WarningRepeatsIffUnrecorded(cfg: Config, r: Round, next: Round, cause: Cause)
    requires Configured(cfg) && Admits(r.env) && Admits(next.env) && Guarded(cause)
    requires Emits(cfg, r, cause) && Trouble(cfg, next.world, next.env, cause)
    requires next.world.status == After(cfg, r).world.status
    ensures Emits(cfg, next, cause) <==> !r.env.statusPatchOk
  {
    WarnsIffNotMuted(cfg, r, cause);
    WarnsIffNotMuted(cfg, next, cause);
    MetricsConditionStep(cfg, r.world, r.env);
    DegradedStep(cfg, r.world, r.env);
    UnstoredStatusStays(cfg, r);
  }

  lemma UnstoredStatusStays(cfg: Config, r: Round)
    requires Configured(cfg) && Admits(r.env)
    ensures !r.env.statusPatchOk ==> After(cfg, r).world.status == r.world.status
  {
  }

  /** Left alone, the world a warning reconcile leaves is still in the same trouble. */
  lemma TroublePersists(cfg: Config, r: Round, next: Round, cause: Cause)
    requires Configured(cfg) && Admits(r.env) && Guarded(cause) && Emits(cfg, r, cause)
    requires next.env == r.env && next.world == After(cfg, r).world
    ensures Emits(cfg, next, cause) <==> !r.env.statusPatchOk
  {
    WarnsIffNotMuted(cfg, r, cause);
    MissingRouteStaysMissing(cfg, r);
    WarningRepeatsIffUnrecorded(cfg, r, next, cause);
  }

  lemma MissingRouteStaysMissing(cfg: Config, r: Round)
    requires Configured(cfg) && Admits(r.env)
    ensures r.world.route == None ==> After(cfg, r).world.route == None
  {
  }

  /** The two troubles that share a phase, and so a guard. */
  ghost predicate Degrading(cause: Cause) {
    cause == InvalidSpec || cause == RouteMissing
  }

  /** Either trouble, where recorded, goes with Degraded, which goes with no reason but these and a write error. */
  ghost predicate PhaseMatchesReady(s: Status) {
    && (forall c :: Degrading(c) && s.ready == IsFalse(c) ==> s.phase == Degraded)
    && (s.phase == Degraded ==> s.ready.IsFalse? && (Degrading(s.ready.reason) || s.ready.reason == RouteUpdateFailed))
  }

  lemma StepMatchesPhase(cfg: Config, r: Round)
    requires Configured(cfg) && Admits(r.env) && PhaseMatchesReady(r.world.status)
    ensures PhaseMatchesReady(After(cfg, r).world.status)
  {
    if Active(r.env) {
      EvaluationKeepsReady(cfg, r);
      FinishMatchesPhase(r.world.status, r.world.route, r.env, r.env.fetch.spec, Weighed(cfg, r));
    }
  }

  lemma EvaluationKeepsReady(cfg: Config, r: Round)
    requires Configured(cfg) && Admits(r.env) && Active(r.env)
    ensures Weighed(cfg, r).status.ready == r.world.status.ready
    ensures Weighed(cfg, r).status.phase == r.world.status.phase && Weighed(cfg, r).phase != Degraded
  {
  }

  lemma FinishMatchesPhase(original: Status, found: Option<R.Route>, env: Env, spec: PolicySpec, ev: Evaluated)
    requires PhaseMatchesReady(original)
    requires ev.status.ready == original.ready && ev.status.phase == original.phase && ev.phase != Degraded
    ensures PhaseMatchesReady(Finish(original, found, env, spec, ev).world.status)
  {
  }

  /** A policy that starts out matched stays so over every run. */
  lemma {:induction false} PhaseStaysMatched(cfg: Config, run: seq<Round>, n: nat)
    requires IsRun(cfg, run) && 0 < |run| && n <= |run| && PhaseMatchesReady(run[0].world.status)
    ensures PhaseMatchesReady(StatusAfter(cfg, run, n))
  {
    if n > 0 {
      PhaseStaysMatched(cfg, run, n - 1);
      assert run[n - 1].world.status == StatusAfter(cfg, run, n - 1);
      StepMatchesPhase(cfg, run[n - 1]);
    }
  }

  /** Either trouble, once stored, is the reason given for not being ready. */
  lemma TroubleIsRecorded(cfg: Config, r: Round, cause: Cause)
    requires Configured(cfg) && Admits(r.env) && Degrading(cause) && Trouble(cfg, r.world, r.env, cause)
    requires r.env.statusPatchOk
    ensures After(cfg, r).world.status.ready == IsFalse(cause) && After(cfg, r).world.status.phase == Degraded
  {
  }

  /** Trouble the status gives as its reason is never announced again. */
  lemma KnownTroubleIsQuiet(cfg: Config, r: Round, cause: Cause)
    requires Configured(cfg) && Admits(r.env) && Degrading(cause) && PhaseMatchesReady(r.world.status)
    requires r.world.status.ready == IsFalse(cause)
    ensures !Emits(cfg, r, cause)
  {
    WarnsIffNotMuted(cfg, r, cause);
  }

  /**
   Trouble the status does not give as its reason is announced unless the
   policy is Degraded for the other trouble, or was for either when a write
   error overwrote the reason.
   */
  lemma NewTroubleAnnouncedIff(cfg: Config, r: Round, cause: Cause, other: Cause)
    requires Configured(cfg) && Admits(r.env) && PhaseMatchesReady(r.world.status)
    requires Degrading(cause) && Degrading(other) && cause != other
    requires Trouble(cfg, r.world, r.env, cause) && r.world.status.ready != IsFalse(cause)
    ensures var s := r.world.status;
            Emits(cfg, r, cause) <==>
            s.ready != IsFalse(other) && !(s.ready == IsFalse(RouteUpdateFailed) && s.phase == Degraded)
  {
    WarnsIffNotMuted(cfg, r, cause);
  }

  /** So of two different troubles in a row, the first one stored, the second is recorded in silence. */
  lemma SecondTroubleIsSilent(cfg: Config, first: Round, second: Round, cause: Cause, other: Cause)
    requires Configured(cfg) && Admits(first.env) && Admits(second.env)
    requires Degrading(cause) && Degrading(other) && cause != other
    requires Trouble(cfg, first.world, first.env, other) && first.env.statusPatchOk
    requires second.world.status == After(cfg, first).world.status && Trouble(cfg, second.world, second.env, cause)
    ensures second.world.status.ready == IsFalse(other) && !Emits(cfg, second, cause)
    ensures second.env.statusPatchOk ==> After(cfg, second).world.status.ready == IsFalse(cause)
  {
    TroubleIsRecorded(cfg, first, other);
    WarnsIffNotMuted(cfg, second, cause);
    if second.env.statusPatchOk {
      TroubleIsRecorded(cfg, second, cause);
    }
  }

  /** Writing a route would change it. */
  ghost predicate Differs(ws: seq<BackendWeight>, route: Option<R.Route>) {
    route.Some? && R.RouteAfter(ws, route.value) != route.value
  }

  /** A write error is announced whenever it happens; no record of it is ever consulted. */
  lemma WriteErrorIff(cfg: Config, r: Round)
    requires Configured(cfg) && Admits(r.env)
    ensures Emits(cfg, r, RouteUpdateFailed) <==>
            && Active(r.env)
            && (!r.env.routeGetOk || (Differs(Weighed(cfg, r).status.weights, r.world.route) && !r.env.routePatchOk))
  {
    if Active(r.env) {
      EvaluationCondition(cfg, r.env.fetch.spec, Start(r.world.status, r.env), r.world.data, r.env);
    }
  }

  /**
   So this warning is not confined to transitions: from any world, an
   unreadable route makes two reconciles in a row announce it, whether or not
   the status of the first is stored.
   */
  lemma WriteErrorsRepeat(cfg: Config, w: World, env: Env) returns (run: seq<Round>)
    requires Configured(cfg) && Admits(env) && Active(env) && !env.routeGetOk
    ensures |run| == 2 && IsRun(cfg, run) && run[0] == Round(w, env)
    ensures run[1] == Round(After(cfg, run[0]).world, env)
    ensures Emits(cfg, run[0], RouteUpdateFailed) && Emits(cfg, run[1], RouteUpdateFailed)
  {
    var first := Round(w, env);
    run := [first, Round(After(cfg, first).world, env)];
    WriteErrorIff(cfg, run[0]);
    WriteErrorIff(cfg, run[1]);
  }

  // ----- shifts -----

  /** The route has been written by this reconcile. */
  ghost predicate Wrote(cfg: Config, r: Round)
    requires Configured(cfg) && Admits(r.env)
  {
    After(cfg, r).world.route != r.world.route
  }

  /** The write goes through, or there is nothing to write. */
  ghost predicate Writable(cfg: Config, r: Round)
    requires Configured(cfg) && Admits(r.env) && Active(r.env)
  {
    && r.world.route.Some? && r.env.routeGetOk
    && (r.env.routePatchOk || !Differs(Weighed(cfg, r).status.weights, r.world.route))
  }

  /** A shift is announced exactly when the evaluator changed the weights and the route took them. */
  lemma ShiftAnnouncedIff(cfg: Config, r: Round)
    requires Configured(cfg) && Admits(r.env)
    ensures Emits(cfg, r, WeightsShifted) <==>
            Active(r.env) && Weighed(cfg, r).phase == Progressing && Writable(cfg, r)
  {
    if Active(r.env) {
      EvaluationCondition(cfg, r.env.fetch.spec, Start(r.world.status, r.env), r.world.data, r.env);
    }
  }

  /** Without a decision the weights written are those the reconcile started from. */
  lemma WeighedWeights(cfg: Config, r: Round)
    requires Configured(cfg) && Admits(r.env) && Active(r.env) && Weighed(cfg, r).phase != Progressing
    ensures Weighed(cfg, r).status.weights == Start(r.world.status, r.env).weights
  {
  }

  /**
   A change of the weights on the route goes unannounced exactly when the
   evaluator made no decision but the route did not carry the recorded weights.
   */
  lemma SilentWriteIff(cfg: Config, r: Round)
    requires Configured(cfg) && Admits(r.env)
    ensures Wrote(cfg, r) && !Emits(cfg, r, WeightsShifted) <==>
            && Active(r.env) && Weighed(cfg, r).phase != Progressing
            && Differs(Start(r.world.status, r.env).weights, r.world.route)
            && r.env.routeGetOk && r.env.routePatchOk
  {
    ShiftAnnouncedIff(cfg, r);
    if Active(r.env) {
      WrittenIff(cfg, r);
      if Weighed(cfg, r).phase != Progressing {
        WeighedWeights(cfg, r);
      }
    }
  }

  lemma WrittenIff(cfg: Config, r: Round)
    requires Configured(cfg) && Admits(r.env) && Active(r.env)
    ensures Wrote(cfg, r) <==>
            Differs(Weighed(cfg, r).status.weights, r.world.route) && r.env.routeGetOk && r.env.routePatchOk
  {
  }

  /**
   The other way round, a shift is announced although the route stays as it is
   exactly when the route already carries the weights decided on.
   */
  lemma ShiftWithoutWriteIff(cfg: Config, r: Round)
    requires Configured(cfg) && Admits(r.env)
    ensures Emits(cfg, r, WeightsShifted) && !Wrote(cfg, r) <==>
            && Active(r.env) && Weighed(cfg, r).phase == Progressing
            && r.world.route.Some? && r.env.routeGetOk
            && !Differs(Weighed(cfg, r).status.weights, r.world.route)
  {
    ShiftAnnouncedIff(cfg, r);
    if Active(r.env) {
      WrittenIff(cfg, r);
    }
  }

  /** When the evaluator moves weight: everything read, the recorded change long enough ago, and something to move. */
  lemma ProgressIff(cfg: Config, r: Round)
    requires Configured(cfg) && Admits(r.env) && Active(r.env)
    ensures Weighed(cfg, r).phase == Progressing <==>
            && AllSampled(cfg, r.env)
            && CooldownElapsed(r.world.status, r.env.fetch.spec.strategy, r.env.checkedAt)
            && E.Decide(SeenInput(cfg, r)).changed
    ensures Weighed(cfg, r).phase == Progressing ==>
              Weighed(cfg, r).status.weights == E.Decide(SeenInput(cfg, r)).weights
  {
    var spec := r.env.fetch.spec;
    SensedAll(cfg, spec, r.world.data, r.env, |SignalSpecs(spec)|);
  }

  /**
   Within the cooldown of an announced shift the next one is announced exactly
   when the first was not stored and the evaluator, which therefore knows
   nothing of it, shifts again onto a route that can be read and takes it.
   */
  lemma ShiftRepeatsIff(cfg: Config, r: Round, next: Round)
    requires Configured(cfg) && Admits(r.env) && Admits(next.env) && Emits(cfg, r, WeightsShifted)
    requires Active(next.env) && next.world.status == After(cfg, r).world.status
    requires next.env.checkedAt - r.env.changedAt < CooldownOf(next.env.fetch.spec.strategy)
    ensures Emits(cfg, next, WeightsShifted) <==>
            && !r.env.statusPatchOk
            && AllSampled(cfg, next.env)
            && CooldownElapsed(r.world.status, next.env.fetch.spec.strategy, next.env.checkedAt)
            && E.Decide(SeenInput(cfg, next)).changed
            && Writable(cfg, next)
  {
    ShiftAnnouncedIff(cfg, r);
    ShiftAnnouncedIff(cfg, next);
    ProgressIff(cfg, next);
    UnstoredStatusStays(cfg, r);
    if r.env.statusPatchOk {
      ShiftIsRecorded(cfg, r);
    }
  }

  /** Seeing the same again after a shift that was not stored, the controller tells of it again and writes nothing. */
  lemma SameShiftToldAgain(cfg: Config, r: Round, next: Round)
    requires Configured(cfg) && Admits(r.env) && Admits(next.env)
    requires Emits(cfg, r, WeightsShifted) && !r.env.statusPatchOk
    requires next.world.status == After(cfg, r).world.status && next.world.route == After(cfg, r).world.route
    requires next.env.fetch == r.env.fetch && AllSampled(cfg, next.env) && next.env.routeGetOk
    requires SeenSignals(cfg, next) == SeenSignals(cfg, r) && r.env.checkedAt <= next.env.checkedAt
    requires r.world.status.weights != [] || next.env.shareOrder == r.env.shareOrder
    ensures Emits(cfg, next, WeightsShifted) && !Wrote(cfg, next)
    ensures Weighed(cfg, next).status.weights == Weighed(cfg, r).status.weights
  {
    ShiftAnnouncedIff(cfg, r);
    ProgressIff(cfg, r);
    ProgressIff(cfg, next);
    UnstoredStatusStays(cfg, r);
    TakenRouteIsSettled(cfg, r);
    ShiftWithoutWriteIff(cfg, next);
  }

  lemma TakenRouteIsSettled(cfg: Config, r: Round)
    requires Configured(cfg) && Admits(r.env) && Active(r.env) && Writable(cfg, r)
    ensures After(cfg, r).world.route.Some? && !Differs(Weighed(cfg, r).status.weights, After(cfg, r).world.route)
  {
    R.WritingTwice(Weighed(cfg, r).status.weights, r.world.route.value);
  }

  lemma {:induction false} UnsmoothedSenseIgnoresData(cfg: Config, spec: PolicySpec, a: S.Buffers, b: S.Buffers,
                                                      env: Env, n: nat)
    requires cfg.smoothing == None && n <= |SignalSpecs(spec)|
    ensures Sense(cfg, spec, a, env, n).signals == Sense(cfg, spec, b, env, n).signals
    ensures Sense(cfg, spec, a, env, n).failed == Sense(cfg, spec, b, env, n).failed
  {
    if n > 0 {
      UnsmoothedSenseIgnoresData(cfg, spec, a, b, env, n - 1);
    }
  }

  /**
   Without smoothing, and left alone in the world the first reconcile leaves,
   the next one repeats the announcement if and only if the first was not stored.
   */
  lemma ShiftRepeatsIffUnrecorded(cfg: Config, r: Round, next: Round)
    requires cfg.smoothing == None && Admits(r.env) && Emits(cfg, r, WeightsShifted)
    requires next == Round(After(cfg, r).world, r.env) && r.env.checkedAt <= r.env.changedAt
    ensures Emits(cfg, next, WeightsShifted) <==> !r.env.statusPatchOk
    ensures !Wrote(cfg, next)
  {
    ShiftAnnouncedIff(cfg, r);
    ProgressIff(cfg, r);
    if r.env.statusPatchOk {
      ShiftRepeatsIff(cfg, r, next);
      ShiftIsRecorded(cfg, r);
      WeighedIsNotEmpty(cfg, r);
      CoolingMakesNoDecision(cfg, next);
      WeighedWeights(cfg, next);
      TakenRouteIsSettled(cfg, r);
      WrittenIff(cfg, next);
    } else {
      var spec := r.env.fetch.spec;
      UnsmoothedSenseIgnoresData(cfg, spec, r.world.data, next.world.data, r.env, |SignalSpecs(spec)|);
      SameShiftToldAgain(cfg, r, next);
    }
  }

  /** A stored decision is on record with its time, whatever the route did. */
  lemma ShiftIsRecorded(cfg: Config, r: Round)
    requires Configured(cfg) && Admits(r.env) && Active(r.env) && Weighed(cfg, r).phase == Progressing
    requires r.env.statusPatchOk
    ensures After(cfg, r).world.status.weights == Weighed(cfg, r).status.weights
    ensures After(cfg, r).world.status.lastWeightChangeTime == Some(r.env.changedAt)
  {
  }

  /**
   Hence a shift whose first write fails is never announced if the write
   succeeds within the cooldown.
   */
  lemma LateShiftIsSilent(cfg: Config, first: Round, second: Round)
    requires Configured(cfg) && Admits(first.env) && Admits(second.env) && Active(first.env) && Active(second.env)
    requires second.world.status == After(cfg, first).world.status
    requires Weighed(cfg, first).phase == Progressing && first.env.statusPatchOk
    requires !first.env.routeGetOk
             || (Differs(Weighed(cfg, first).status.weights, first.world.route) && !first.env.routePatchOk)
    requires second.env.checkedAt - first.env.changedAt < CooldownOf(second.env.fetch.spec.strategy)
    requires second.env.routeGetOk && second.env.routePatchOk
    requires Differs(Weighed(cfg, first).status.weights, second.world.route)
    ensures !Emits(cfg, first, WeightsShifted) && !Emits(cfg, second, WeightsShifted)
    ensures After(cfg, second).world.route
            == Some(R.RouteAfter(Weighed(cfg, first).status.weights, second.world.route.value))
  {
    ShiftIsRecorded(cfg, first);
    WeighedIsNotEmpty(cfg, first);
    ShiftAnnouncedIff(cfg, first);
    ShiftAnnouncedIff(cfg, second);
    CoolingMakesNoDecision(cfg, second);
    WeighedWeights(cfg, second);
  }

  lemma CoolingMakesNoDecision(cfg: Config, r: Round)
    requires Configured(cfg) && Admits(r.env) && Active(r.env)
    requires !CooldownElapsed(r.world.status, r.env.fetch.spec.strategy, r.env.checkedAt)
    ensures Weighed(cfg, r).phase != Progressing
  {
  }
}
