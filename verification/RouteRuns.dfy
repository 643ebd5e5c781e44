/** How fast the weights on the route itself may change. */
module RouteRuns {
  import opened Api
  import opened Reconciling
  import opened Runs
  import E = Evaluator
  import R = Router

  /** Nobody but the reconciler edits the route. */
  ghost predicate OwnRoute(cfg: Config, run: seq<Round>)
    requires IsRun(cfg, run)
  {
    forall i :: 0 <= i < |run| - 1 ==> run[i + 1].world.route == After(cfg, run[i]).world.route
  }

  ghost function RouteAfterRounds(cfg: Config, run: seq<Round>, n: nat): Option<R.Route>
    requires IsRun(cfg, run) && 0 < |run| && n <= |run|
  {
    if n == 0 then run[0].world.route else After(cfg, run[n - 1]).world.route
  }

  /** The k-th reference of rule r is to the backend with this name. */
  ghost predicate Refers(route: Option<R.Route>, r: nat, k: nat, name: string) {
    route.Some? && r < |route.value| && k < |route.value[r]| && route.value[r][k].name == name
  }

  /** The weight the route gives that reference. */
  ghost function OnRoute(route: Option<R.Route>, r: nat, k: nat): int
    requires route.Some? && r < |route.value| && k < |route.value[r]|
  {
    R.RefWeights(route.value[r])[k]
  }

  /** A reconcile leaves a reference as it was, or gives it the weight that an active one arrived at. */
  lemma RoundWrites(cfg: Config, r: Round, rule: nat, k: nat, name: string)
    requires Configured(cfg) && Admits(r.env) && Refers(r.world.route, rule, k, name)
    ensures var route := After(cfg, r).world.route;
            && Refers(route, rule, k, name)
            && (|| OnRoute(route, rule, k) == OnRoute(r.world.route, rule, k)
                || (Active(r.env) && OnRoute(route, rule, k) == Weight(Weighed(cfg, r).status.weights, name)))
  {
    if Active(r.env) {
      var ws := Weighed(cfg, r).status.weights;
      assert After(cfg, r).world.route == R.ApplyRoute(r.world.route, ws, r.env.routeGetOk, r.env.routePatchOk);
      assert R.RouteAfter(ws, r.world.route.value)[rule][k] == R.RefAfter(ws, r.world.route.value[rule][k]);
    }
  }

  /** The reference is as at the start, or within one step per started cooldown of what was then on record. */
  ghost predicate RouteKeeps(cfg: Config, run: seq<Round>, n: nat, step: int, cooldown: int,
                             r: nat, k: nat, name: string)
    requires IsRun(cfg, run) && 0 < n <= |run| && 0 < cooldown
  {
    && Refers(run[0].world.route, r, k, name) && Refers(RouteAfterRounds(cfg, run, n), r, k, name)
    && (|| OnRoute(RouteAfterRounds(cfg, run, n), r, k) == OnRoute(run[0].world.route, r, k)
        || Abs(OnRoute(RouteAfterRounds(cfg, run, n), r, k) - Weight(run[0].world.status.weights, name))
           <= step * ((run[n - 1].env.evaluatedAt - run[0].env.checkedAt) / cooldown + 1))
  }

  lemma LaterIsLooser(step: int, cooldown: int, span: int, later: int)
    requires 0 < step && 0 < cooldown && span <= later
    ensures step * (span / cooldown + 1) <= step * (later / cooldown + 1)
  {
    QuotientGrows(cooldown, span, later);
    MoreSteps(step, span / cooldown + 1, later / cooldown + 1);
  }

  lemma QuotientGrows(cooldown: int, span: int, later: int)
    requires 0 < cooldown && span <= later
    ensures span / cooldown <= later / cooldown
  {
    var a, b := span / cooldown, later / cooldown;
    assert cooldown * (b + 1) == cooldown * b + cooldown;
    if b < a {
      MoreSteps(cooldown, b + 1, a);
    }
  }

  lemma {:induction false} RouteKeepsPace(cfg: Config, run: seq<Round>, n: nat, step: int, cooldown: int, r: nat,
                                          k: nat, name: string)
    requires IsRun(cfg, run) && OwnRoute(cfg, run) && 0 < n <= |run|
    requires ClockAdvances(run) && Steady(run, step, cooldown, name)
    requires run[0].world.status.weights != [] && 0 < step && 0 < cooldown
    requires Refers(run[0].world.route, r, k, name)
    ensures RouteKeeps(cfg, run, n, step, cooldown, r, k, name)
  {
    if n > 1 {
      RouteKeepsPace(cfg, run, n - 1, step, cooldown, r, k, name);
      assert run[n - 1].world.route == RouteAfterRounds(cfg, run, n - 1);
      var t0 := run[0].env.checkedAt;
      LaterIsLooser(step, cooldown, run[n - 2].env.evaluatedAt - t0, run[n - 1].env.evaluatedAt - t0);
    }
    RoundWritesInPace(cfg, run, n, step, cooldown, r, k, name);
  }

  /** One reconcile of the run leaves the reference alone or within the pace. */
  lemma {:induction false} RoundWritesInPace(cfg: Config, run: seq<Round>, n: nat, step: int, cooldown: int, r: nat,
                                             k: nat, name: string)
    requires IsRun(cfg, run) && 0 < n <= |run| && ClockAdvances(run) && Steady(run, step, cooldown, name)
    requires run[0].world.status.weights != [] && 0 < step && 0 < cooldown
    requires Refers(run[n - 1].world.route, r, k, name)
    ensures Refers(RouteAfterRounds(cfg, run, n), r, k, name)
    ensures var after := OnRoute(RouteAfterRounds(cfg, run, n), r, k);
            || after == OnRoute(run[n - 1].world.route, r, k)
            || Abs(after - Weight(run[0].world.status.weights, name))
               <= step * ((run[n - 1].env.evaluatedAt - run[0].env.checkedAt) / cooldown + 1)
  {
    RoundWrites(cfg, run[n - 1], r, k, name);
    if Active(run[n - 1].env) {
      WeighedKeepsPace(cfg, run, n, step, cooldown, name);
    }
  }

  /** What a reconcile goes on to write keeps the pace of the record, whether or not it is then recorded. */
  lemma {:induction false} WeighedKeepsPace(cfg: Config, run: seq<Round>, n: nat, step: int, cooldown: int,
                                            name: string)
    requires IsRun(cfg, run) && 0 < n <= |run| && Active(run[n - 1].env)
    requires ClockAdvances(run) && Steady(run, step, cooldown, name)
    requires run[0].world.status.weights != [] && 0 < step && 0 < cooldown
    ensures Abs(Weight(Weighed(cfg, run[n - 1]).status.weights, name) - Weight(run[0].world.status.weights, name))
            <= step * ((run[n - 1].env.evaluatedAt - run[0].env.checkedAt) / cooldown + 1)
  {
    var p := PaceOf(run, step, cooldown, name);
    var last := run[n - 1];
    var k: nat, now := 0, p.t0;
    if n > 1 {
      k := RunKeepsPace(cfg, run, n - 1, step, cooldown, name);
      now := run[n - 2].env.evaluatedAt;
    }
    StartsInOrder(run, n - 1);
    assert last.world.status == StatusAfter(cfg, run, n - 1);
    k := EvaluationKeepsPace(cfg, last, p, now, k);
    var span := last.env.evaluatedAt - p.t0;
    FitsInSpan(k, cooldown, span);
    MoreSteps(step, k, span / cooldown + 1);
  }

  /**
   Over any stretch of a run in which nobody else edits the route, a managed
   reference changes by at most one step per started cooldown, on top of what
   route and record were apart at the start.
   */
  lemma {:induction false} RouteRateBound(cfg: Config, run: seq<Round>, step: int, cooldown: int, r: nat, k: nat,
                                          name: string)
    requires IsRun(cfg, run) && 0 < |run| && OwnRoute(cfg, run)
    requires ClockAdvances(run) && Steady(run, step, cooldown, name)
    requires run[0].world.status.weights != [] && 0 < step && 0 < cooldown
    requires Refers(run[0].world.route, r, k, name)
    ensures Refers(RouteAfterRounds(cfg, run, |run|), r, k, name)
    ensures var before, after := run[0].world.route, RouteAfterRounds(cfg, run, |run|);
            var apart := Abs(OnRoute(before, r, k) - Weight(run[0].world.status.weights, name));
            var span := run[|run| - 1].env.evaluatedAt - run[0].env.checkedAt;
            Abs(OnRoute(after, r, k) - OnRoute(before, r, k)) <= apart + step * (span / cooldown + 1)
  {
    RouteKeepsPace(cfg, run, |run|, step, cooldown, r, k, name);
    StartsInOrder(run, |run| - 1);
    var span := run[|run| - 1].env.evaluatedAt - run[0].env.checkedAt;
    MoreSteps(step, 0, span / cooldown + 1);
  }

  /**
   What a write leaves route and record apart: nothing if the status is stored,
   and at most one step from the recorded or starting weights if it is not.
   */
  lemma WrittenIsNear(cfg: Config, r: Round, rule: nat, k: nat, name: string)
    requires Configured(cfg) && Admits(r.env) && Active(r.env)
    requires r.env.routeGetOk && r.env.routePatchOk && Refers(r.world.route, rule, k, name)
    requires Declares(r.env.fetch.spec, name) && R.Listed(Weighed(cfg, r).status.weights, name)
    ensures Refers(After(cfg, r).world.route, rule, k, name)
    ensures var written := OnRoute(After(cfg, r).world.route, rule, k);
            && (r.env.statusPatchOk ==> written == Weight(After(cfg, r).world.status.weights, name))
            && Abs(written - Weight(Start(r.world.status, r.env).weights, name)) <= StepOf(r.env.fetch.spec.strategy)
  {
    RoundWritesListed(cfg, r, rule, k, name);
    StoredMove(cfg, r);
    WeighedIsNear(cfg, r, name);
  }

  lemma RoundWritesListed(cfg: Config, r: Round, rule: nat, k: nat, name: string)
    requires Configured(cfg) && Admits(r.env) && Active(r.env) && r.env.routeGetOk && r.env.routePatchOk
    requires Refers(r.world.route, rule, k, name) && R.Listed(Weighed(cfg, r).status.weights, name)
    ensures Refers(After(cfg, r).world.route, rule, k, name)
    ensures OnRoute(After(cfg, r).world.route, rule, k) == Weight(Weighed(cfg, r).status.weights, name)
  {
    var ws := Weighed(cfg, r).status.weights;
    assert After(cfg, r).world.route == Some(R.RouteAfter(ws, r.world.route.value));
    assert R.RouteAfter(ws, r.world.route.value)[rule][k] == R.RefAfter(ws, r.world.route.value[rule][k]);
  }

  /** The name's weight is within a step of what it was. */
  ghost predicate Near(before: Status, after: Status, step: int, name: string) {
    Abs(Weight(after.weights, name) - Weight(before.weights, name)) <= step
  }

  lemma WeighedIsNear(cfg: Config, r: Round, name: string)
    requires Configured(cfg) && Admits(r.env) && Active(r.env) && Declares(r.env.fetch.spec, name)
    ensures Near(Start(r.world.status, r.env), Weighed(cfg, r).status, StepOf(r.env.fetch.spec.strategy), name)
  {
    var inp := EvaluationMoves(cfg, r);
    MoveIsNear(Start(r.world.status, r.env), Weighed(cfg, r).status, r.env, inp, name);
  }

  lemma MoveIsNear(before: Status, after: Status, env: Env, inp: E.Input, name: string)
    requires env.fetch.Found? && Declares(env.fetch.spec, name)
    requires Unmoved(before, after) || MovedBy(before, after, env, inp)
    ensures Near(before, after, StepOf(env.fetch.spec.strategy), name)
  {
    if !Unmoved(before, after) {
      DecisionWithinStep(inp, name);
    }
  }

  // ----- references to others -----

  /** Weights decided on are for backends that already had one or are declared. */
  lemma NobodyNewListed(cfg: Config, r: Round, name: string)
    requires Configured(cfg) && Admits(r.env) && !R.Listed(r.world.status.weights, name)
    requires r.env.fetch.Found? ==> !Declared(r.env.fetch.spec.backends, name)
    ensures Active(r.env) ==> !R.Listed(Weighed(cfg, r).status.weights, name)
    ensures !R.Listed(After(cfg, r).world.status.weights, name)
  {
    if Active(r.env) {
      var inp := EvaluationMoves(cfg, r);
      StoredMove(cfg, r);
      StartListsDeclared(r.world.status, r.env, name);
      if !Unmoved(Start(r.world.status, r.env), Weighed(cfg, r).status) {
        DecisionListsDeclared(inp, name);
      }
    } else {
      IdleKeepsMoves(cfg, r);
    }
  }

  lemma StartListsDeclared(status: Status, env: Env, name: string)
    requires Admits(env) && Active(env) && !R.Listed(status.weights, name)
    requires !Declared(env.fetch.spec.backends, name)
    ensures !R.Listed(Start(status, env).weights, name)
  {
    StartIsSound(env.fetch.spec.backends, env.shareOrder);
  }

  lemma DecisionListsDeclared(inp: E.Input, name: string)
    requires !R.Listed(inp.current, name) && !Declared(inp.backends, name)
    ensures !R.Listed(E.Decide(inp).weights, name)
  {
  }

  /**
   A reference to a backend that is neither declared nor on record keeps what
   it has, weight included, set or not, whatever one reconcile does.
   */
  lemma OtherRefStays(cfg: Config, r: Round, rule: nat, k: nat, name: string)
    requires Configured(cfg) && Admits(r.env) && Refers(r.world.route, rule, k, name)
    requires forall i :: 0 <= i < |r.world.status.weights| ==> r.world.status.weights[i].name != name
    requires r.env.fetch.Found? ==> !Declared(r.env.fetch.spec.backends, name)
    ensures var route := After(cfg, r).world.route;
            && Refers(route, rule, k, name)
            && route.value[rule][k] == r.world.route.value[rule][k]
  {
    NobodyNewListed(cfg, r, name);
    if Active(r.env) {
      ActiveWrites(cfg, r);
      R.RewrittenAt(Weighed(cfg, r).status.weights, r.world.route.value, rule, k);
    }
  }

  lemma ActiveWrites(cfg: Config, r: Round)
    requires Configured(cfg) && Admits(r.env) && Active(r.env) && r.world.route.Some?
    ensures After(cfg, r).world.route == r.world.route
            || After(cfg, r).world.route == Some(R.RouteAfter(Weighed(cfg, r).status.weights, r.world.route.value))
  {
  }

  /** And whatever a whole run does, as long as nobody else edits the route. */
  lemma {:induction false} OtherRefStaysInRuns(cfg: Config, run: seq<Round>, n: nat, rule: nat, k: nat, name: string)
    requires IsRun(cfg, run) && OwnRoute(cfg, run) && 0 < |run| && n <= |run|
    requires Refers(run[0].world.route, rule, k, name)
    requires forall i :: 0 <= i < |run[0].world.status.weights| ==> run[0].world.status.weights[i].name != name
    requires forall i :: 0 <= i < |run| && run[i].env.fetch.Found? ==>
               !Declared(run[i].env.fetch.spec.backends, name)
    ensures !R.Listed(StatusAfter(cfg, run, n).weights, name)
    ensures Refers(RouteAfterRounds(cfg, run, n), rule, k, name)
    ensures RouteAfterRounds(cfg, run, n).value[rule][k] == run[0].world.route.value[rule][k]
  {
    if n > 0 {
      OtherRefStaysInRuns(cfg, run, n - 1, rule, k, name);
      assert run[n - 1].world.status == StatusAfter(cfg, run, n - 1);
      assert run[n - 1].world.route == RouteAfterRounds(cfg, run, n - 1);
      NobodyNewListed(cfg, run[n - 1], name);
      OtherRefStays(cfg, run[n - 1], rule, k, name);
    }
  }

  /** A reference to a backend on record says, after an error-free active reconcile, what is then on record. */
  lemma ManagedRefFollows(cfg: Config, r: Round, rule: nat, k: nat, name: string)
    requires Configured(cfg) && Admits(r.env) && Active(r.env) && Refers(r.world.route, rule, k, name)
    requires !After(cfg, r).failed
    requires exists i :: 0 <= i < |After(cfg, r).world.status.weights|
                         && After(cfg, r).world.status.weights[i].name == name
    ensures var o := After(cfg, r).world;
            && Refers(o.route, rule, k, name)
            && o.route.value[rule][k] == R.BackendRef(name, Some(Weight(o.status.weights, name)))
  {
    RouteCarriesStoredWeights(cfg, r.world, r.env);
    R.RewrittenAt(After(cfg, r).world.status.weights, r.world.route.value, rule, k);
  }
}
