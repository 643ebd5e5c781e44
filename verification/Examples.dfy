/** Inputs at which the documented behaviour is not met, so that no exact condition holds of nothing. */
module Examples {
  import opened Sums
  import opened Api
  import opened Reconciling
  import opened Runs
  import opened Announcements
  import opened RouteRuns
  import opened EditedRuns
  import opened SettlingRuns
  import opened Configuration
  import E = Evaluator
  import D = Decisions
  import A = Apportionment
  import R = Router

  const Left := Backend("a", 0, 100)
  const Right := Backend("b", 0, 100)
  const Pair := [Left, Right]

  /** Metrics are read and not smoothed. */
  const Plain := Config("team", "checkout", true, None)

  /** Latency limited to 100 ms, everything else at its default. */
  const Spec := PolicySpec(Pair, Some(100), None, Strategy(0, 0, 0), false)

  function Split(a: int): seq<BackendWeight> {
    [BackendWeight("a", a), BackendWeight("b", 100 - a)]
  }

  function RouteOf(a: int): R.Route {
    [[R.BackendRef("a", Some(a)), R.BackendRef("b", Some(100 - a))]]
  }

  /** A policy at rest, with a on record for its first backend. */
  function Resting(a: int): Status {
    Status(Stable, Split(a), None, None, NoTransition, IsTrue(Reconciled), Absent, Absent)
  }

  /** Latency at twice the limit for the first backend or for the second, at half of it for the other. */
  function Latency(first: bool): map<string, real> {
    if first then map["a" := 200.0, "b" := 50.0] else map["a" := 50.0, "b" := 200.0]
  }

  /** At second zero the spec is found, latency read as given, and every write goes through. */
  function Clear(spec: PolicySpec, slow: bool): Env {
    Env(Found(spec), Sampled(Latency(slow)), SampleFailed, 0, 0, 0, true, true, true, false, A.ShareSort(spec.backends))
  }

  lemma ClearIsAdmitted(spec: PolicySpec, slow: bool)
    ensures Admits(Clear(spec, slow))
  {
    A.ShareSortIsShareOrder(spec.backends);
  }

  lemma PairIsValid()
    ensures A.ValidBackends(Pair)
  {
    assert A.Mins(Pair) == [0, 0] && A.Maxs(Pair) == [100, 100];
    assert Sum([0, 0]) == 0 + Sum([0]) && Sum([100, 100]) == 100 + Sum([100]);
  }

  function Asked(a: int, slow: bool): E.Input {
    E.Input(Pair, Split(a), [E.Signal(LATENCY, Latency(slow), 100.0)], StepOf(Spec.strategy))
  }

  function Moved(a: int, slow: bool): int {
    if slow then a - 20 else a + 20
  }

  /** One backend is too slow, the other fast, so 20 points may go from one to the other. */
  lemma PairMoves(a: int, slow: bool)
    requires 0 <= Moved(a, slow) <= 100
    ensures var inp := Asked(a, slow);
            var from, to := if slow then 0 else 1, if slow then 1 else 0;
            && E.Caps(inp)[from] >= 20 && E.Caps(inp)[to] == 0 && E.Rooms(inp)[to] >= 20 && E.Rooms(inp)[from] == 0
            && E.Shift(inp) == 20
  {
    var inp := Asked(a, slow);
    var from, to := if slow then 0 else 1, if slow then 1 else 0;
    assert E.Breaches(inp.signals[0], Pair[from].name) && E.Observes(inp.signals[0], Pair[to].name);
    assert E.Unhealthy(inp.signals, Pair[from].name) && E.Healthy(inp.signals, Pair[to].name);
    PairWeights(a);
    SumOfTwo(E.Caps(inp));
    SumOfTwo(E.Rooms(inp));
  }

  /** That is what the evaluator decides. */
  lemma {:induction false} PairDecides(a: int, slow: bool)
    requires 0 <= Moved(a, slow) <= 100
    ensures E.Decide(Asked(a, slow)).changed
    ensures E.Decide(Asked(a, slow)).weights == Split(Moved(a, slow))
  {
    var inp := Asked(a, slow);
    PairMoves(a, slow);
    D.MovesBalance(inp);
    D.MovesWithinCaps(inp);
    SumOfTwo(E.Losses(inp));
    SumOfTwo(E.Gains(inp));
    D.ChangedIffPointsMove(inp);
    PairWeights(a);
    assert E.Currents(inp) == [a, 100 - a];
    assert E.Targets(inp) == [Moved(a, slow), 100 - Moved(a, slow)];
  }

  lemma PairWeights(a: int)
    ensures Weight(Split(a), "a") == a && Weight(Split(a), "b") == 100 - a
  {
    assert Split(a)[..1] == [BackendWeight("a", a)];
  }

  lemma SumOfTwo(v: seq<int>)
    requires |v| == 2
    ensures Sum(v) == v[0] + v[1]
  {
    assert Sum(v[1..]) == v[1..][0] + Sum(v[1..][1..]);
  }

  /** A reconcile that finds a recorded and no change before, and reads the latency of both backends. */
  ghost predicate Poised(r: Round, a: int, slow: bool) {
    && r.env.fetch == Found(Spec) && r.env.latency == Sampled(Latency(slow)) && Admits(r.env)
    && r.world.status.weights == Split(a) && r.world.status.lastWeightChangeTime == None
  }

  lemma Shifts(r: Round, a: int, slow: bool)
    requires Poised(r, a, slow) && 0 <= Moved(a, slow) <= 100
    ensures Active(r.env) && AllSampled(Plain, r.env)
    ensures Weighed(Plain, r).phase == Progressing && Weighed(Plain, r).status.weights == Split(Moved(a, slow))
  {
    Sees(r, slow);
    PairDecides(a, slow);
    ProgressIff(Plain, r);
  }

  lemma Sees(r: Round, slow: bool)
    requires r.env.fetch == Found(Spec) && r.env.latency == Sampled(Latency(slow)) && Admits(r.env)
    ensures Active(r.env) && AllSampled(Plain, r.env)
    ensures SeenSignals(Plain, r) == [E.Signal(LATENCY, Latency(slow), 100.0)]
  {
    PairIsValid();
    assert SignalSpecs(Spec) == [SignalSpec(LATENCY, 100.0)];
    assert SampleOf(r.env, LATENCY) == Sampled(Latency(slow));
    assert Sense(Plain, Spec, r.world.data, r.env, 0).signals == [];
  }

  lemma Written(a: int, b: int)
    ensures R.RouteAfter(Split(a), RouteOf(b)) == RouteOf(a)
    ensures Differs(Split(a), Some(RouteOf(b))) <==> a != b
  {
    PairWeights(a);
    var rule := RouteOf(b)[0];
    assert Split(a)[0].name == "a" && Split(a)[1].name == "b";
    assert R.RefAfter(Split(a), rule[0]) == RouteOf(a)[0][0] && R.RefAfter(Split(a), rule[1]) == RouteOf(a)[0][1];
    assert R.RuleAfter(Split(a), rule) == RouteOf(a)[0];
    assert a != b ==> RouteOf(a)[0][0] != RouteOf(b)[0][0];
  }

  function AtRest(a: int): World {
    World(Resting(a), map[], Some(RouteOf(a)))
  }

  /** The second reconcile finds the world just as the first one leaves it. */
  ghost predicate InARow(first: Round, second: Round) {
    Admits(first.env) && Admits(second.env) && second.world == After(Plain, first).world
  }

  lemma InARowIsRun(first: Round, second: Round)
    requires InARow(first, second)
    ensures IsRun(Plain, [first, second]) && OwnRoute(Plain, [first, second])
  {
  }

  /** A shift that is not stored is announced twice, the second time without anything being written. */
  lemma ToldTwice() returns (first: Round, second: Round)
    ensures InARow(first, second)
    ensures Emits(Plain, first, WeightsShifted) && Emits(Plain, second, WeightsShifted)
    ensures Wrote(Plain, first) && !Wrote(Plain, second)
  {
    var env := Clear(Spec, true).(statusPatchOk := false);
    ClearIsAdmitted(Spec, true);
    first := Round(AtRest(50), env);
    Lands(first, 50, 50, true);
    second := Round(After(Plain, first).world, env);
    ShiftRepeatsIffUnrecorded(Plain, first, second);
  }

  /** A shift the route refuses at first is recorded, then written within the cooldown, and never announced. */
  lemma NeverTold() returns (first: Round, second: Round)
    ensures InARow(first, second)
    ensures After(Plain, first).world.status.weights == Split(30) && !Wrote(Plain, first)
    ensures Wrote(Plain, second) && After(Plain, second).world.route == Some(RouteOf(30))
    ensures !Emits(Plain, first, WeightsShifted) && !Emits(Plain, second, WeightsShifted)
  {
    ClearIsAdmitted(Spec, true);
    first := Round(AtRest(50), Clear(Spec, true).(routePatchOk := false));
    Shifts(first, 50, true);
    Written(30, 50);
    WrittenIff(Plain, first);
    ShiftIsRecorded(Plain, first);
    second := Round(After(Plain, first).world, Clear(Spec, true));
    LateShiftIsSilent(Plain, first, second);
  }

  /**
   A shift that is not stored starts no cooldown: within one second the route
   goes a step one way and two the other. The second reconcile alone takes it
   as far as route and record were apart, and one step more.
   */
  lemma TwoStepsAtOnce() returns (first: Round, second: Round)
    ensures InARow(first, second) && ClockAdvances([first, second])
    ensures Emits(Plain, first, WeightsShifted) && Emits(Plain, second, WeightsShifted)
    ensures first.world.route == Some(RouteOf(50)) && second.world.route == Some(RouteOf(30))
    ensures After(Plain, second).world.route == Some(RouteOf(70))
    ensures first.env.checkedAt == second.env.evaluatedAt && second.env.fetch == Found(Spec)
    ensures var before, after := second.world.route, After(Plain, second).world.route;
            var apart := Abs(OnRoute(before, 0, 0) - Weight(second.world.status.weights, "a"));
            0 < apart && Abs(OnRoute(after, 0, 0) - OnRoute(before, 0, 0)) == apart + StepOf(Spec.strategy)
  {
    first := Unrecorded();
    second := Back(After(Plain, first).world);
    Tight(second);
  }

  lemma Unrecorded() returns (r: Round)
    ensures Admits(r.env) && r.world == AtRest(50) && Emits(Plain, r, WeightsShifted)
    ensures After(Plain, r).world.route == Some(RouteOf(30)) && After(Plain, r).world.status == Resting(50)
    ensures r.env.checkedAt == r.env.changedAt == r.env.evaluatedAt == 0
  {
    ClearIsAdmitted(Spec, true);
    r := Round(AtRest(50), Clear(Spec, true).(statusPatchOk := false));
    Lands(r, 50, 50, true);
    UnstoredStatusStays(Plain, r);
  }

  lemma Back(w: World) returns (r: Round)
    requires w.route == Some(RouteOf(30)) && w.status == Resting(50)
    ensures Admits(r.env) && r.world == w && Emits(Plain, r, WeightsShifted) && r.env.fetch == Found(Spec)
    ensures After(Plain, r).world.route == Some(RouteOf(70))
    ensures r.env.checkedAt == r.env.changedAt == r.env.evaluatedAt == 0
  {
    ClearIsAdmitted(Spec, false);
    r := Round(w, Clear(Spec, false));
    Lands(r, 50, 30, false);
  }

  /** From 30 to 70 against a record of 50: as far as they were apart, and one step more. */
  lemma Tight(r: Round)
    requires Admits(r.env) && r.world.status.weights == Split(50)
    requires r.world.route == Some(RouteOf(30)) && After(Plain, r).world.route == Some(RouteOf(70))
    ensures var before, after := r.world.route, After(Plain, r).world.route;
            var apart := Abs(OnRoute(before, 0, 0) - Weight(r.world.status.weights, "a"));
            apart == 20 && Abs(OnRoute(after, 0, 0) - OnRoute(before, 0, 0)) == apart + 20
  {
    Apart(50, 30);
    Apart(50, 70);
  }

  /** With every write of the route going through, it is told of the shift, which the route then carries. */
  lemma Lands(r: Round, a: int, found: int, slow: bool)
    requires Poised(r, a, slow) && 0 <= Moved(a, slow) <= 100 && r.world.route == Some(RouteOf(found))
    requires r.env.routeGetOk && r.env.routePatchOk
    ensures Emits(Plain, r, WeightsShifted) && After(Plain, r).world.route == Some(RouteOf(Moved(a, slow)))
  {
    Shifts(r, a, slow);
    Written(Moved(a, slow), found);
    ShiftAnnouncedIff(Plain, r);
    WrittenIff(Plain, r);
    LandsOnRoute(r);
  }

  lemma LandsOnRoute(r: Round)
    requires Admits(r.env) && Active(r.env) && r.world.route.Some? && r.env.routeGetOk && r.env.routePatchOk
    ensures After(Plain, r).world.route
            == Some(R.RouteAfter(Weighed(Plain, r).status.weights, r.world.route.value))
  {
  }

  lemma Apart(a: int, b: int)
    ensures OnRoute(Some(RouteOf(b)), 0, 0) == b && Weight(Split(a), "a") == a
  {
    PairWeights(a);
  }

  /** A reconcile that has waited, stores and finds one backend too slow records the shift. */
  lemma Lowers(r: Round, a: int)
    requires r.env.fetch == Found(Spec) && r.env.latency == Sampled(Latency(true)) && Admits(r.env)
    requires r.world.status.weights == Split(a) && 20 <= a <= 100 && r.env.statusPatchOk
    requires r.world.status.lastWeightChangeTime.Some? ==>
               r.env.checkedAt - r.world.status.lastWeightChangeTime.value >= 30
    ensures After(Plain, r).world.status.weights == Split(a - 20)
  {
    Sees(r, true);
    FullyReadIff(Plain, r.env);
    WaitDecides(Plain, r);
    PairDecides(a, true);
    assert AskedOf(Spec, Split(a), SeenSignals(Plain, r)) == Asked(a, true);
  }

  /** One that finds the latency of both backends and stores its status at the given second. */
  ghost predicate LowersAt(r: Round, now: int) {
    && r.env.fetch == Found(Spec) && r.env.latency == Sampled(Latency(true)) && Admits(r.env) && r.env.statusPatchOk
    && r.env.checkedAt == r.env.changedAt == r.env.evaluatedAt == now
  }

  /** Two such, half a minute apart, each move a step. */
  lemma LoweredTwice() returns (first: Round, second: Round)
    ensures LowersAt(first, 0) && LowersAt(second, 30) && InARow(first, second)
    ensures first.world.status == Resting(50) && second.world.status.weights == Split(30)
    ensures After(Plain, second).world.status.weights == Split(10)
  {
    ClearIsAdmitted(Spec, true);
    first := Round(AtRest(50), Clear(Spec, true));
    Lowers(first, 50);
    ChangeTimes(Plain, first);
    second := Round(After(Plain, first).world,
                    first.env.(checkedAt := 30, changedAt := 30, evaluatedAt := 30));
    Lowers(second, 30);
  }

  /** They make a run of the kind that is proved to settle. */
  lemma LoweringIsSpaced(first: Round, second: Round)
    requires LowersAt(first, 0) && LowersAt(second, 30) && InARow(first, second)
    requires first.world.status == Resting(50)
    ensures ClockAdvances([first, second]) && Spaced(Plain, [first, second], Spec)
    ensures SteadySignals(Plain, [first, second], Spec, [E.Signal(LATENCY, Latency(true), 100.0)])
  {
    PairIsValid();
    InARowIsRun(first, second);
    Sees(first, true);
    Sees(second, true);
    FullyReadIff(Plain, first.env);
    FullyReadIff(Plain, second.env);
  }

  /** An invalid spec right after a missing route, or the other way round, is recorded without a warning. */
  lemma MaskedTrouble(specFirst: bool) returns (first: Round, second: Round, cause: Cause)
    ensures InARow(first, second) && PhaseMatchesReady(first.world.status)
    ensures cause == if specFirst then RouteMissing else InvalidSpec
    ensures Emits(Plain, first, if specFirst then InvalidSpec else RouteMissing)
    ensures second.world.status.ready != IsFalse(cause) && After(Plain, second).world.status.ready == IsFalse(cause)
    ensures !Emits(Plain, second, cause)
  {
    PairIsValid();
    var bad := Spec.(backends := []);
    var missing, invalid := Clear(Spec, true), Clear(bad, true);
    ClearIsAdmitted(Spec, true);
    ClearIsAdmitted(bad, true);
    var other := if specFirst then InvalidSpec else RouteMissing;
    cause := if specFirst then RouteMissing else InvalidSpec;
    first := Round(AtRest(50).(route := None), if specFirst then invalid else missing);
    WarnsIffNotMuted(Plain, first, other);
    MissingRouteStaysMissing(Plain, first);
    second := Round(After(Plain, first).world, if specFirst then missing else invalid);
    SecondTroubleIsSilent(Plain, first, second, cause, other);
  }

  /** A backend that an edit removes takes its points with it. */
  lemma PointsLost() returns (backends: seq<Backend>)
    ensures A.ValidBackends(backends) && Sound(Pair, Split(50))
    ensures Sum(Dropped(Split(50), backends)) == 50 && Sum(DeclaredWeights(backends, Split(50))) == 50
  {
    var c := Backend("c", 0, 100);
    backends := [Left, c];
    assert A.Mins(backends) == [0, 0] && A.Maxs(backends) == [100, 100];
    SumOfTwo(A.Mins(backends));
    SumOfTwo(A.Maxs(backends));
    assert backends[0].name == "a" && backends[1].name == "c";
    assert Declared(backends, "a") && !Declared(backends, "b");
    SumOfTwo(Dropped(Split(50), backends));
    assert Sound(Pair, Split(50)) by {
      PairWeights(50);
      SumOfTwo(R.WeightsOf(Split(50)));
    }
    PairIsValid();
    DeclaredIsRetained(Pair, Split(50), backends);
    SumOfTwo(Retained(Split(50), backends));
  }
}
