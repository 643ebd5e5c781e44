/** Reconciles of several policies, one after the other, over one smoother. */
module SharedSmoother {
  import opened Reconciling
  import opened Runs
  import opened SmoothedRuns
  import S = Smoothing

  /** One reconcile of the controller's queue, and the policy it is for. */
  datatype Turn = Turn(cfg: Config, round: Round)

  /** Namespaces hold no '/', and neither they nor policy names hold '#'. */
  ghost predicate ResourceNames(cfg: Config) {
    '/' !in cfg.namespace && PlainNames(cfg)
  }

  /**
   The smoother starts empty and every reconcile finds its buffers as the one
   before it, of whatever policy, has left them. Configurations differ in the policy alone.
   */
  ghost predicate SharedRun(turns: seq<Turn>) {
    && (forall i :: 0 <= i < |turns| ==>
          && Configured(turns[i].cfg) && turns[i].cfg.smoothing.Some? && ResourceNames(turns[i].cfg)
          && Admits(turns[i].round.env)
          && turns[i].cfg == turns[0].cfg.(namespace := turns[i].cfg.namespace, name := turns[i].cfg.name))
    && (0 < |turns| ==> turns[0].round.world.data == map[])
    && (forall i :: 0 < i < |turns| ==> turns[i].round.world.data == DataAfter(turns[i - 1]))
  }

  ghost function DataAfter(turn: Turn): S.Buffers
    requires Configured(turn.cfg) && Admits(turn.round.env)
  {
    After(turn.cfg, turn.round).world.data
  }

  /** The reconciles of one policy. */
  ghost function Own(turns: seq<Turn>, cfg: Config): seq<Round> {
    if turns == [] then []
    else
      var last := turns[|turns| - 1];
      Own(turns[..|turns| - 1], cfg) + if last.cfg == cfg then [last.round] else []
  }

  /** Sampling for one policy leaves every buffer of another alone. */
  lemma {:induction false} SensedElsewhere(cfg: Config, other: Config, spec: PolicySpec, data: S.Buffers, env: Env,
                                           n: nat, signal: string, backend: string)
    requires Configured(other) && n <= |SignalSpecs(spec)| && ResourceNames(cfg) && ResourceNames(other)
    requires cfg.namespace != other.namespace || cfg.name != other.name
    ensures S.Buffer(Sense(other, spec, data, env, n).data, KeyOf(cfg, signal), backend)
            == S.Buffer(data, KeyOf(cfg, signal), backend)
  {
    if n > 0 {
      SensedElsewhere(cfg, other, spec, data, env, n - 1, signal, backend);
      var before := Sense(other, spec, data, env, n - 1);
      var sig := SignalSpecs(spec)[n - 1].name;
      if !before.failed && SampleOf(env, sig).Sampled? && other.smoothing.Some? {
        OtherKey(cfg, other, signal, sig);
        S.SmoothedBuffer(before.data, other.smoothing.value, KeyOf(other, sig), SampleOf(env, sig).values,
                         KeyOf(cfg, signal), backend);
      }
    }
  }

  lemma OtherKey(cfg: Config, other: Config, signal: string, sig: string)
    requires ResourceNames(cfg) && ResourceNames(other)
    requires cfg.namespace != other.namespace || cfg.name != other.name
    ensures KeyOf(cfg, signal) != KeyOf(other, sig)
  {
    if KeyOf(cfg, signal) == KeyOf(other, sig) {
      S.KeysSeparate(cfg.namespace, cfg.name, signal, other.namespace, other.name, sig);
    }
  }

  /** So does a whole reconcile, be the other policy active, idle or gone. */
  lemma ElsewhereKeepsBuffers(cfg: Config, other: Config, r: Round, signal: string, backend: string)
    requires Configured(other) && Admits(r.env) && ResourceNames(cfg) && ResourceNames(other)
    requires cfg.namespace != other.namespace || cfg.name != other.name
    ensures S.Buffer(After(other, r).world.data, KeyOf(cfg, signal), backend)
            == S.Buffer(r.world.data, KeyOf(cfg, signal), backend)
  {
    if Active(r.env) {
      var spec := r.env.fetch.spec;
      ActiveData(other, r.world, r.env);
      SensedElsewhere(cfg, other, spec, r.world.data, r.env, |SignalSpecs(spec)|, signal, backend);
    } else if r.env.fetch.Gone? {
      S.PolicyKeyIsNoSmoothKey(r.world.data, other.namespace, other.name, cfg.namespace, cfg.name, signal, backend);
    }
  }

  /** The policy's buffers are as its own last reconcile left them, or still empty. */
  ghost predicate LeftAlone(turns: seq<Turn>, cfg: Config, signal: string, backend: string)
    requires SharedRun(turns) && turns != [] && IsRun(cfg, Own(turns, cfg))
  {
    var own := Own(turns, cfg);
    S.Buffer(DataAfter(turns[|turns| - 1]), KeyOf(cfg, signal), backend)
    == if own == [] then [] else S.Buffer(After(cfg, own[|own| - 1]).world.data, KeyOf(cfg, signal), backend)
  }

  lemma {:induction false} RunOfBegin(cfg: Config, run: seq<Round>, n: nat)
    requires IsRun(cfg, run) && n <= |run|
    ensures IsRun(cfg, run[..n])
  {
  }

  /** What one more reconcile of the queue finds and leaves in this policy's buffers. */
  lemma {:induction false} BuffersLeftAlone(turns: seq<Turn>, cfg: Config, signal: string, backend: string)
    requires SharedRun(turns) && turns != [] && IsRun(cfg, Own(turns, cfg))
    requires ResourceNames(cfg) && cfg == turns[0].cfg.(namespace := cfg.namespace, name := cfg.name)
    ensures LeftAlone(turns, cfg, signal, backend)
    decreases |turns|, 1
  {
    var n := |turns| - 1;
    if turns[n].cfg != cfg {
      FoundAsLeft(turns, cfg, signal, backend);
      ElsewhereKeepsBuffers(cfg, turns[n].cfg, turns[n].round, signal, backend);
      assert Own(turns, cfg) == Own(turns[..n], cfg);
    }
  }

  /** The last reconcile finds this policy's buffers as the reconciles before it leave them. */
  lemma {:induction false} FoundAsLeft(turns: seq<Turn>, cfg: Config, signal: string, backend: string)
    requires SharedRun(turns) && turns != [] && IsRun(cfg, Own(turns, cfg))
    requires ResourceNames(cfg) && cfg == turns[0].cfg.(namespace := cfg.namespace, name := cfg.name)
    ensures var n := |turns| - 1;
            var own := Own(turns[..n], cfg);
            && IsRun(cfg, own)
            && S.Buffer(turns[n].round.world.data, KeyOf(cfg, signal), backend)
               == if own == [] then [] else S.Buffer(After(cfg, own[|own| - 1]).world.data, KeyOf(cfg, signal), backend)
    decreases |turns|, 0
  {
    var n := |turns| - 1;
    var own := Own(turns[..n], cfg);
    assert own == Own(turns, cfg)[..|own|];
    RunOfBegin(cfg, Own(turns, cfg), |own|);
    if n > 0 {
      BuffersLeftAlone(turns[..n], cfg, signal, backend);
    }
  }

  /**
   However the reconciles of other policies come in between, to each policy
   its buffers are its own.
   */
  lemma {:induction false} BuffersAreOwn(turns: seq<Turn>, cfg: Config)
    requires SharedRun(turns) && IsRun(cfg, Own(turns, cfg)) && ResourceNames(cfg)
    requires turns != [] ==> cfg == turns[0].cfg.(namespace := cfg.namespace, name := cfg.name)
    ensures OwnBuffers(cfg, Own(turns, cfg))
  {
    if turns != [] {
      var n := |turns| - 1;
      var own := Own(turns[..n], cfg);
      assert own == Own(turns, cfg)[..|own|];
      RunOfBegin(cfg, Own(turns, cfg), |own|);
      BuffersAreOwn(turns[..n], cfg);
      if turns[n].cfg == cfg {
        OwnExtends(turns, cfg, own);
      }
    }
  }

  lemma {:induction false} OwnExtends(turns: seq<Turn>, cfg: Config, own: seq<Round>)
    requires SharedRun(turns) && turns != [] && IsRun(cfg, Own(turns, cfg)) && ResourceNames(cfg)
    requires cfg == turns[0].cfg.(namespace := cfg.namespace, name := cfg.name)
    requires turns[|turns| - 1].cfg == cfg && own == Own(turns[..|turns| - 1], cfg)
    requires IsRun(cfg, own) && OwnBuffers(cfg, own)
    ensures OwnBuffers(cfg, Own(turns, cfg))
  {
    var all := Own(turns, cfg);
    assert all == own + [turns[|turns| - 1].round];
    forall s: string, b: string
      ensures S.Buffer(all[|own|].world.data, KeyOf(cfg, s), b)
              == if own == [] then [] else S.Buffer(After(cfg, own[|own| - 1]).world.data, KeyOf(cfg, s), b)
    {
      FoundAsLeft(turns, cfg, s, b);
    }
    forall i, s: string, b: string | 0 <= i < |all| - 1
      ensures S.Buffer(all[i + 1].world.data, KeyOf(cfg, s), b)
              == S.Buffer(After(cfg, all[i]).world.data, KeyOf(cfg, s), b)
    {
      assert all[i] == own[i];
      if i < |own| - 1 {
        assert all[i + 1] == own[i + 1];
      } else {
        assert all[i + 1] == all[|own|] && own[i] == own[|own| - 1];
      }
    }
  }
}
