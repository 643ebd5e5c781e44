/** Writing weights onto the backend references of an HTTPRoute. */
module Router {
  import opened Sums
  import opened Api

  datatype BackendRef = BackendRef(name: string, weight: Option<int>)

  type Rule = seq<BackendRef>
  type Route = seq<Rule>

  datatype ApplyResult = Applied | RouteNotFound | Failed

  ghost predicate Listed(ws: seq<BackendWeight>, name: string) {
    exists k :: 0 <= k < |ws| && ws[k].name == name
  }

  /** What one reference should say; references to other backends are out of scope. */
  ghost function RefAfter(ws: seq<BackendWeight>, ref: BackendRef): BackendRef {
    if Listed(ws, ref.name) then ref.(weight := Some(Weight(ws, ref.name))) else ref
  }

  ghost function RuleAfter(ws: seq<BackendWeight>, rule: Rule): Rule {
    seq(|rule|, i requires 0 <= i < |rule| => RefAfter(ws, rule[i]))
  }

  ghost function RouteAfter(ws: seq<BackendWeight>, route: Route): Route {
    seq(|route|, i requires 0 <= i < |route| => RuleAfter(ws, route[i]))
  }

  /** A second write has nothing left to do. */
  lemma WritingTwice(ws: seq<BackendWeight>, route: Route)
    ensures RouteAfter(ws, RouteAfter(ws, route)) == RouteAfter(ws, route)
  {
    forall i | 0 <= i < |route|
      ensures RuleAfter(ws, RuleAfter(ws, route[i])) == RuleAfter(ws, route[i])
    {
    }
  }

  /** Place by place: listed names get their weight, every other reference stays what it is. */
  lemma RewrittenAt(ws: seq<BackendWeight>, route: Route, r: nat, k: nat)
    requires r < |route| && k < |route[r]|
    ensures |RouteAfter(ws, route)| == |route| && |RouteAfter(ws, route)[r]| == |route[r]|
    ensures var before, after := route[r][k], RouteAfter(ws, route)[r][k];
            if exists i :: 0 <= i < |ws| && ws[i].name == before.name
            then after == BackendRef(before.name, Some(Weight(ws, before.name))) else after == before
  {
  }

  /** The rule as it stands in an array of references. */
  ghost function Contents(rules: seq<array<BackendRef>>): Route
    reads rules
  {
    seq(|rules|, i requires 0 <= i < |rules| reads rules => rules[i][..])
  }

  ghost predicate Separate(rules: seq<array<BackendRef>>) {
    forall i, j :: 0 <= i < j < |rules| ==> rules[i] != rules[j]
  }

  /** Overwrites the weights of one rule in place; reports whether any of them differed. */
  method RewriteRule(rule: array<BackendRef>, desired: map<string, int>, ghost ws: seq<BackendWeight>)
    returns (changed: bool)
    requires forall n: string :: n in desired <==> Listed(ws, n)
    requires forall n: string :: n in desired ==> desired[n] == Weight(ws, n)
    modifies rule
    ensures rule[..] == RuleAfter(ws, old(rule[..]))
    ensures forall k :: 0 <= k < rule.Length ==>
              rule[k] == if old(rule[k]).name in desired
                         then BackendRef(old(rule[k]).name, Some(desired[old(rule[k]).name])) else old(rule[k])
    ensures changed <==> rule[..] != old(rule[..])
  {
    changed := false;
    for b := 0 to rule.Length
      invariant forall k :: 0 <= k < b ==> rule[k] == RefAfter(ws, old(rule[k]))
      invariant forall k :: b <= k < rule.Length ==> rule[k] == old(rule[k])
      invariant changed <==> exists k :: 0 <= k < b && rule[k] != old(rule[k])
    {
      var ref := rule[b];
      if ref.name !in desired {
        continue;
      }
      var weight := desired[ref.name];
      if ref.weight == None || ref.weight.value != weight {
        rule[b] := ref.(weight := Some(weight));
        changed := true;
      }
    }
    if changed {
      ghost var k :| 0 <= k < rule.Length && rule[k] != old(rule[k]);
      assert rule[..][k] != old(rule[..])[k];
    }
  }

  method RewriteRules(rules: seq<array<BackendRef>>, weights: seq<BackendWeight>) returns (changed: bool)
    requires Separate(rules)
    modifies rules
    ensures Contents(rules) == RouteAfter(weights, old(Contents(rules)))
    ensures changed <==> Contents(rules) != old(Contents(rules))
  {
    var desired: map<string, int> := map[];
    for k := 0 to |weights|
      invariant forall n: string :: n in desired <==> Listed(weights[..k], n)
      invariant forall n: string :: n in desired ==> desired[n] == Weight(weights[..k], n)
    {
      var seen := weights[..k + 1];
      assert seen[..k] == weights[..k] && seen[k] == weights[k];
      assert forall n: string :: Listed(seen, n) <==> Listed(weights[..k], n) || n == weights[k].name by {
        assert forall j :: 0 <= j < k ==> seen[j] == weights[..k][j];
      }
      desired := desired[weights[k].name := weights[k].weight];
    }
    assert weights[..|weights|] == weights;
    changed := false;
    for r := 0 to |rules|
      invariant forall k :: 0 <= k < r ==> rules[k][..] == RuleAfter(weights, old(rules[k][..]))
      invariant forall k :: r <= k < |rules| ==> rules[k][..] == old(rules[k][..])
      invariant changed <==> exists k :: 0 <= k < r && rules[k][..] != old(rules[k][..])
    {
      label before:
      var c := RewriteRule(rules[r], desired, weights);
      changed := changed || c;
      assert forall k :: 0 <= k < |rules| && k != r ==> rules[k][..] == old@before(rules[k][..]);
    }
    if changed {
      ghost var k :| 0 <= k < |rules| && rules[k][..] != old(rules[k][..]);
      assert Contents(rules)[k] != old(Contents(rules))[k];
    }
  }

  /** The route as the API server stores it, and how often it has been written. */
  class HTTPRouteWeighter {
    var route: Option<Route>
    var writes: nat

    constructor (route: Option<Route>)
      ensures this.route == route && writes == 0
    {
      this.route := route;
      writes := 0;
    }

    method Apply(weights: seq<BackendWeight>, getOk: bool, patchOk: bool) returns (r: ApplyResult)
      modifies this
      ensures r == ApplyOutcome(old(route), weights, getOk, patchOk)
      ensures route == ApplyRoute(old(route), weights, getOk, patchOk)
      ensures writes == old(writes) + if route != old(route) then 1 else 0
    {
      if !getOk {
        return Failed;
      }
      if route == None {
        return RouteNotFound;
      }
      var rules := Fetch(route.value);
      var changed := RewriteRules(rules, weights);
      if !changed {
        return Applied;
      }
      if !patchOk {
        return Failed;
      }
      var written := Read(rules);
      route := Some(written);
      writes := writes + 1;
      return Applied;
    }
  }

  /** A private copy of the stored route, to be changed in place. */
  method Fetch(route: Route) returns (rules: seq<array<BackendRef>>)
    ensures fresh(rules) && Separate(rules) && Contents(rules) == route
  {
    rules := [];
    for i := 0 to |route|
      invariant |rules| == i && fresh(rules) && Separate(rules)
      invariant forall k :: 0 <= k < i ==> rules[k][..] == route[k]
    {
      var rule := new BackendRef[|route[i]|](j requires 0 <= j < |route[i]| => route[i][j]);
      assert rule[..] == route[i];
      rules := rules + [rule];
    }
  }

  method Read(rules: seq<array<BackendRef>>) returns (route: Route)
    ensures route == Contents(rules)
  {
    route := [];
    for i := 0 to |rules|
      invariant |route| == i && forall k :: 0 <= k < i ==> route[k] == rules[k][..]
    {
      route := route + [rules[i][..]];
    }
  }

  ghost function ApplyOutcome(route: Option<Route>, ws: seq<BackendWeight>, getOk: bool, patchOk: bool): ApplyResult {
    if !getOk then Failed
    else if route == None then RouteNotFound
    else if RouteAfter(ws, route.value) == route.value || patchOk then Applied
    else Failed
  }

  ghost function ApplyRoute(route: Option<Route>, ws: seq<BackendWeight>, getOk: bool, patchOk: bool): Option<Route> {
    if ApplyOutcome(route, ws, getOk, patchOk) == Applied then Some(RouteAfter(ws, route.value)) else route
  }

  // ----- totals on the route -----

  /** The references of a rule that a weight list manages, in order. */
  ghost function Managed(ws: seq<BackendWeight>, rule: Rule): seq<BackendRef> {
    if rule == [] then []
    else (if Listed(ws, rule[0].name) then [rule[0]] else []) + Managed(ws, rule[1..])
  }

  ghost function NamesOf(refs: seq<BackendRef>): seq<string> {
    seq(|refs|, k requires 0 <= k < |refs| => refs[k].name)
  }

  function ListNames(ws: seq<BackendWeight>): seq<string> {
    seq(|ws|, k requires 0 <= k < |ws| => ws[k].name)
  }

  function WeightsOf(ws: seq<BackendWeight>): seq<int> {
    seq(|ws|, k requires 0 <= k < |ws| => ws[k].weight)
  }

  /** The weights written on references; a reference without one counts as the default of 1. */
  ghost function RefWeights(refs: seq<BackendRef>): seq<int> {
    seq(|refs|, k requires 0 <= k < |refs| => if refs[k].weight.Some? then refs[k].weight.value else 1)
  }

  lemma ConsManaged(ws: seq<BackendWeight>, ref: BackendRef, refs: seq<BackendRef>)
    ensures NamesOf([ref] + refs) == [ref.name] + NamesOf(refs)
    ensures RefWeights([ref] + refs) == RefWeights([ref]) + RefWeights(refs)
    ensures Values([ref.name] + NamesOf(refs), n => Weight(ws, n))
            == [Weight(ws, ref.name)] + Values(NamesOf(refs), n => Weight(ws, n))
  {
  }

  /** Rewriting leaves the names alone and gives every managed reference its listed weight. */
  lemma {:induction false} ManagedAfter(ws: seq<BackendWeight>, rule: Rule)
    ensures NamesOf(Managed(ws, RuleAfter(ws, rule))) == NamesOf(Managed(ws, rule))
    ensures RefWeights(Managed(ws, RuleAfter(ws, rule))) == Values(NamesOf(Managed(ws, rule)), n => Weight(ws, n))
  {
    if rule != [] {
      ManagedAfter(ws, rule[1..]);
      assert RuleAfter(ws, rule)[1..] == RuleAfter(ws, rule[1..]);
      var first := RefAfter(ws, rule[0]);
      assert RuleAfter(ws, rule)[0] == first && first.name == rule[0].name;
      if Listed(ws, first.name) {
        assert Managed(ws, rule) == [rule[0]] + Managed(ws, rule[1..]);
        assert Managed(ws, RuleAfter(ws, rule)) == [first] + Managed(ws, RuleAfter(ws, rule[1..]));
        ConsManaged(ws, rule[0], Managed(ws, rule[1..]));
        ConsManaged(ws, first, Managed(ws, RuleAfter(ws, rule[1..])));
      } else {
        assert Managed(ws, rule) == Managed(ws, rule[1..]);
        assert Managed(ws, RuleAfter(ws, rule)) == Managed(ws, RuleAfter(ws, rule[1..]));
      }
    }
  }

  /** A rule that names each listed backend once carries the total of the list. */
  lemma ManagedTotal(backends: seq<Backend>, ws: seq<BackendWeight>, rule: Rule)
    requires UniqueNames(backends) && ListsBackends(backends, ws)
    requires multiset(NamesOf(Managed(ws, rule))) == multiset(ListNames(ws))
    ensures Sum(RefWeights(Managed(ws, RuleAfter(ws, rule)))) == Sum(WeightsOf(ws))
  {
    ManagedAfter(ws, rule);
    SumPermutation(NamesOf(Managed(ws, rule)), ListNames(ws), n => Weight(ws, n));
    forall k: nat | k < |ws| ensures Weight(ws, ListNames(ws)[k]) == ws[k].weight {
      WeightOfListed(backends, ws, k);
    }
    assert Values(ListNames(ws), n => Weight(ws, n)) == WeightsOf(ws);
  }
}
