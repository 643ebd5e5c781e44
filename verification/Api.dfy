/** The TrafficPolicy resource: what is declared and what is recorded about it. */
module Api {

  datatype Option<+T> = None | Some(value: T)

  datatype Backend = Backend(name: string, minWeight: int, maxWeight: int)

  datatype BackendWeight = BackendWeight(name: string, weight: int)

  /** The weight recorded for a name; a later entry overrides an earlier one, an unknown name has weight 0. */
  function Weight(ws: seq<BackendWeight>, name: string): int {
    if ws == [] then 0
    else if ws[|ws| - 1].name == name then ws[|ws| - 1].weight
    else Weight(ws[..|ws| - 1], name)
  }

  /** Of several entries for a name the last counts. */
  lemma LaterOverrides(ws: seq<BackendWeight>, entry: BackendWeight, name: string)
    ensures Weight(ws + [entry], name) == if entry.name == name then entry.weight else Weight(ws, name)
    ensures Weight([], name) == 0
  {
    assert (ws + [entry])[..|ws|] == ws;
  }

  /** One weight per declared backend, in declaration order. */
  function Named(backends: seq<Backend>, values: seq<int>): seq<BackendWeight>
    requires |values| == |backends|
  {
    seq(|backends|, i requires 0 <= i < |backends| => BackendWeight(backends[i].name, values[i]))
  }

  ghost predicate UniqueNames(backends: seq<Backend>) {
    forall i, j :: 0 <= i < j < |backends| ==> backends[i].name != backends[j].name
  }

  ghost predicate Declared(backends: seq<Backend>, name: string) {
    exists i :: 0 <= i < |backends| && backends[i].name == name
  }

  /** The weights of ws line up with the declared backends. */
  ghost predicate ListsBackends(backends: seq<Backend>, ws: seq<BackendWeight>) {
    |ws| == |backends| && forall i :: 0 <= i < |ws| ==> ws[i].name == backends[i].name
  }

  lemma {:induction false} WeightOfListed(backends: seq<Backend>, ws: seq<BackendWeight>, i: nat)
    requires UniqueNames(backends) && ListsBackends(backends, ws) && i < |ws|
    ensures Weight(ws, backends[i].name) == ws[i].weight
    decreases |ws|
  {
    var m := |ws| - 1;
    if i < m {
      assert ws[m].name == backends[m].name != backends[i].name;
      WeightOfListed(backends[..m], ws[..m], i);
    }
  }

  lemma {:induction false} WeightOfUnlisted(ws: seq<BackendWeight>, name: string)
    requires forall k :: 0 <= k < |ws| ==> ws[k].name != name
    ensures Weight(ws, name) == 0
  {
    if ws != [] {
      WeightOfUnlisted(ws[..|ws| - 1], name);
    }
  }
}
