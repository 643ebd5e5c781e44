/** Runs from weights that do not fit what is declared, as an edit of the bounds or of the list may leave them. */
module EditedRuns {
  import opened Sums
  import opened Api
  import opened Reconciling
  import opened Runs
  import E = Evaluator
  import D = Decisions
  import A = Apportionment
  import R = Router

  /** What the weights give each declared backend. */
  ghost function DeclaredWeights(backends: seq<Backend>, ws: seq<BackendWeight>): seq<int> {
    seq(|backends|, i requires 0 <= i < |backends| => Weight(ws, backends[i].name))
  }

  /** No declared backend is further from its interval under after than under before. */
  ghost predicate NoneFurtherOut(backends: seq<Backend>, before: seq<BackendWeight>, after: seq<BackendWeight>) {
    forall i :: 0 <= i < |backends| ==>
      D.Distance(backends[i], DeclaredWeights(backends, after)[i])
      <= D.Distance(backends[i], DeclaredWeights(backends, before)[i])
  }

  lemma DecisionKeepsTotal(inp: E.Input)
    requires A.ValidBackends(inp.backends)
    ensures Sum(DeclaredWeights(inp.backends, E.Decide(inp).weights)) == Sum(DeclaredWeights(inp.backends, inp.current))
    ensures NoneFurtherOut(inp.backends, inp.current, E.Decide(inp).weights)
  {
    assert DeclaredWeights(inp.backends, inp.current) == E.Currents(inp);
    assert DeclaredWeights(inp.backends, E.Decide(inp).weights) == E.Currents(D.Next(inp));
    D.NextHasTargets(inp);
    D.TotalIsConserved(inp);
    forall i: nat | i < |inp.backends|
      ensures D.Distance(inp.backends[i], E.Targets(inp)[i]) <= D.Distance(inp.backends[i], E.Currents(inp)[i])
    {
      D.NeverFurtherOut(inp, i);
    }
  }

  lemma RoundKeepsTotal(cfg: Config, r: Round, backends: seq<Backend>)
    requires Configured(cfg) && Admits(r.env) && r.world.status.weights != []
    requires r.env.fetch.Found? ==> r.env.fetch.spec.backends == backends
    ensures var before, after := r.world.status.weights, After(cfg, r).world.status.weights;
            && after != []
            && Sum(DeclaredWeights(backends, after)) == Sum(DeclaredWeights(backends, before))
            && NoneFurtherOut(backends, before, after)
  {
    var inp := OnlyDecisionsMove(cfg, r);
    if !Unmoved(r.world.status, After(cfg, r).world.status) {
      DecisionKeepsTotal(inp);
      DecisionIsNotEmpty(inp);
    }
  }

  /**
   Whatever weights a run starts from, the declared backends keep their total
   for ever, and none ever moves further out of its interval.
   */
  lemma {:induction false} TotalStays(cfg: Config, run: seq<Round>, backends: seq<Backend>, m: nat, n: nat)
    requires IsRun(cfg, run) && 0 < |run| && m <= n <= |run| && DeclaresOnly(run, backends)
    requires StatusAfter(cfg, run, m).weights != []
    ensures var before, after := StatusAfter(cfg, run, m).weights, StatusAfter(cfg, run, n).weights;
            && after != []
            && Sum(DeclaredWeights(backends, after)) == Sum(DeclaredWeights(backends, before))
            && NoneFurtherOut(backends, before, after)
    decreases n
  {
    if m < n {
      TotalStays(cfg, run, backends, m, n - 1);
      assert run[n - 1].world.status == StatusAfter(cfg, run, n - 1);
      RoundKeepsTotal(cfg, run[n - 1], backends);
    }
  }

  /** Weights listed as declared are sound exactly when they total 100 and nobody is out of its interval. */
  lemma SoundIff(backends: seq<Backend>, ws: seq<BackendWeight>)
    requires UniqueNames(backends) && ws != [] && ListsBackends(backends, ws)
    ensures Sound(backends, ws) <==>
            && Sum(DeclaredWeights(backends, ws)) == 100
            && forall i :: 0 <= i < |backends| ==> D.Distance(backends[i], DeclaredWeights(backends, ws)[i]) == 0
  {
    var inp := E.Input(backends, ws, [], 0);
    CurrentsAreWeights(inp);
    assert DeclaredWeights(backends, ws) == E.Currents(inp) == R.WeightsOf(ws);
  }

  /** So an edit that leaves the declared backends at another total than 100 is never made good. */
  lemma {:induction false} WrongTotalIsNeverRepaired(cfg: Config, run: seq<Round>, backends: seq<Backend>, n: nat)
    requires IsRun(cfg, run) && 0 < |run| && n <= |run| && DeclaresOnly(run, backends) && UniqueNames(backends)
    requires run[0].world.status.weights != []
    requires Sum(DeclaredWeights(backends, run[0].world.status.weights)) != 100
    ensures !Sound(backends, StatusAfter(cfg, run, n).weights)
  {
    TotalStays(cfg, run, backends, 0, n);
    var ws := StatusAfter(cfg, run, n).weights;
    if ListsBackends(backends, ws) {
      SoundIff(backends, ws);
    }
  }

  // ----- edits of the list -----

  /** The weights of those that the list still declares; the others count as zero. */
  ghost function Retained(ws: seq<BackendWeight>, backends: seq<Backend>): seq<int> {
    seq(|ws|, i requires 0 <= i < |ws| => if Declared(backends, ws[i].name) then ws[i].weight else 0)
  }

  /** The weights of those that it no longer declares. */
  ghost function Dropped(ws: seq<BackendWeight>, backends: seq<Backend>): seq<int> {
    seq(|ws|, i requires 0 <= i < |ws| => if Declared(backends, ws[i].name) then 0 else ws[i].weight)
  }

  /** What the recorded weights give the new list is what they give those retained; newcomers have none. */
  lemma {:induction false} DeclaredIsRetained(former: seq<Backend>, ws: seq<BackendWeight>, backends: seq<Backend>)
    requires UniqueNames(former) && ListsBackends(former, ws) && UniqueNames(backends)
    ensures Sum(DeclaredWeights(backends, ws)) == Sum(Retained(ws, backends))
  {
    if backends == [] {
      SumZero(Retained(ws, backends));
    } else {
      var m := |backends| - 1;
      var begin, name := backends[..m], backends[m].name;
      DeclaredIsRetained(former, ws, begin);
      assert DeclaredWeights(backends, ws) == DeclaredWeights(begin, ws) + [Weight(ws, name)];
      SumAppend(DeclaredWeights(begin, ws), [Weight(ws, name)]);
      assert forall n :: Declared(backends, n) <==> Declared(begin, n) || n == name by {
        assert forall i :: 0 <= i < m ==> backends[i] == begin[i];
      }
      if i: nat :| i < |ws| && ws[i].name == name {
        WeightOfListed(former, ws, i);
        assert Retained(ws, backends) == Retained(ws, begin)[i := ws[i].weight];
        SumUpdate(Retained(ws, begin), i, ws[i].weight);
      } else {
        WeightOfUnlisted(ws, name);
        assert Retained(ws, backends) == Retained(ws, begin);
      }
    }
  }

  /**
   After an edit of the list, the declared backends total 100, at once and as
   long as the list stays, exactly when those no longer declared had no weight
   between them.
   */
  lemma {:induction false} HundredAfterEditIff(cfg: Config, run: seq<Round>, former: seq<Backend>,
                                               backends: seq<Backend>, n: nat)
    requires IsRun(cfg, run) && 0 < |run| && n <= |run| && DeclaresOnly(run, backends)
    requires UniqueNames(former) && UniqueNames(backends)
    requires run[0].world.status.weights != [] && Sound(former, run[0].world.status.weights)
    ensures Sum(DeclaredWeights(backends, StatusAfter(cfg, run, n).weights)) == 100
            <==> Sum(Dropped(run[0].world.status.weights, backends)) == 0
  {
    var ws := run[0].world.status.weights;
    TotalStays(cfg, run, backends, 0, n);
    DeclaredIsRetained(former, ws, backends);
    var zero := seq(|ws|, _ => 0);
    SumZero(zero);
    SumCombine(R.WeightsOf(ws), Dropped(ws, backends), zero, Retained(ws, backends));
  }
}
