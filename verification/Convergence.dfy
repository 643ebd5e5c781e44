/** Repeated decisions under unchanged signals settle, and in how many rounds. */
module Convergence {
  import opened Sums
  import opened Api
  import opened Evaluator
  import opened Decisions

  /** Weight an unhealthy backend holds above its minimum. */
  ghost function SurplusOf(inp: Input, b: Backend): int {
    if Unhealthy(inp.signals, b.name) then Max(0, Weight(inp.current, b.name) - b.minWeight) else 0
  }

  /** Weight a healthy backend could still take before its maximum. */
  ghost function SpaceOf(inp: Input, b: Backend): int {
    if Healthy(inp.signals, b.name) then Max(0, b.maxWeight - Weight(inp.current, b.name)) else 0
  }

  ghost function Surplus(inp: Input): seq<int> {
    seq(|inp.backends|, i requires 0 <= i < |inp.backends| => SurplusOf(inp, inp.backends[i]))
  }

  ghost function Space(inp: Input): seq<int> {
    seq(|inp.backends|, i requires 0 <= i < |inp.backends| => SpaceOf(inp, inp.backends[i]))
  }

  /** Points that can ever move. */
  ghost function Movable(inp: Input): int {
    Min(Sum(Surplus(inp)), Sum(Space(inp)))
  }

  /** Capping each entry at the step leaves the total alone or at least a whole step of it. */
  lemma CappedSum(full: seq<int>, capped: seq<int>, step: int)
    requires |full| == |capped| && NonNegative(full) && 1 <= step
    requires forall k :: 0 <= k < |full| ==> capped[k] == Min(step, full[k])
    ensures Min(step, Sum(full)) <= Sum(capped) <= Sum(full)
  {
    SumPointwise(capped, full);
    if k :| 0 <= k < |full| && capped[k] == step {
      SumBoundsEntry(capped, k);
    } else {
      assert capped == full;
    }
  }

  /** One decision moves everything that is left, or at least a full step. */
  lemma ShiftIsSubstantial(inp: Input)
    requires 1 <= inp.maxStepPercent
    ensures Min(inp.maxStepPercent, Movable(inp)) <= Shift(inp) <= Movable(inp)
  {
    CappedSum(Surplus(inp), Caps(inp), inp.maxStepPercent);
    CappedSum(Space(inp), Rooms(inp), inp.maxStepPercent);
  }

  /** What moves is exactly what is no longer movable. */
  lemma NextMovable(inp: Input)
    requires UniqueNames(inp.backends)
    ensures Sum(Surplus(Next(inp))) == Sum(Surplus(inp)) - Shift(inp)
    ensures Sum(Space(Next(inp))) == Sum(Space(inp)) - Shift(inp)
  {
    NextHasTargets(inp);
    MovesBalance(inp);
    var n := |inp.backends|;
    var zero := seq(n, _ => 0);
    forall i: nat | i < n
      ensures Surplus(Next(inp))[i] == Surplus(inp)[i] - Losses(inp)[i] + zero[i]
      ensures Space(Next(inp))[i] == Space(inp)[i] - Gains(inp)[i] + zero[i]
    {
      MovableAt(inp, Next(inp), i);
    }
    MovesWithinCaps(inp);
    SumCombine(Surplus(inp), Losses(inp), zero, Surplus(Next(inp)));
    SumCombine(Space(inp), Gains(inp), zero, Space(Next(inp)));
    SumZero(zero);
  }

  lemma MovableAt(inp: Input, next: Input, i: nat)
    requires i < |inp.backends| && next == inp.(current := next.current)
    requires Currents(next) == Targets(inp)
    ensures Surplus(next)[i] == Surplus(inp)[i] - Losses(inp)[i]
    ensures Space(next)[i] == Space(inp)[i] - Gains(inp)[i]
  {
    MovesWithinCaps(inp);
    var b := inp.backends[i];
    assert Weight(inp.current, b.name) == Currents(inp)[i];
    assert Weight(next.current, b.name) == Currents(next)[i] == Targets(inp)[i];
    MovableOf(inp, next, b, Losses(inp)[i], Gains(inp)[i]);
  }

  lemma MovableOf(inp: Input, next: Input, b: Backend, loss: int, gain: int)
    requires next == inp.(current := next.current)
    requires 0 <= loss <= CapOf(inp, b) && 0 <= gain <= RoomOf(inp, b)
    requires Weight(next.current, b.name) == Weight(inp.current, b.name) - loss + gain
    ensures SurplusOf(next, b) == SurplusOf(inp, b) - loss
    ensures SpaceOf(next, b) == SpaceOf(inp, b) - gain
  {
  }

  ghost function Iterate(inp: Input, n: nat): Input
    decreases n
  {
    if n == 0 then inp else Iterate(Next(inp), n - 1)
  }

  /** Points moved by the first n decisions. */
  ghost function TotalShift(inp: Input, n: nat): int
    decreases n
  {
    if n == 0 then 0 else Shift(inp) + TotalShift(Next(inp), n - 1)
  }

  /** Each of the first n decisions changes the weights. */
  ghost predicate ChangesEachRound(inp: Input, n: nat)
    decreases n
  {
    n == 0 || (Decide(inp).changed && ChangesEachRound(Next(inp), n - 1))
  }

  /** Every donor is down to its minimum, or every recipient up to its maximum. */
  ghost predicate Exhausted(inp: Input) {
    || (forall i :: 0 <= i < |inp.backends| && Unhealthy(inp.signals, inp.backends[i].name)
                    ==> Weight(inp.current, inp.backends[i].name) <= inp.backends[i].minWeight)
    || (forall i :: 0 <= i < |inp.backends| && Healthy(inp.signals, inp.backends[i].name)
                    ==> inp.backends[i].maxWeight <= Weight(inp.current, inp.backends[i].name))
  }

  lemma NothingMovable(inp: Input)
    requires 1 <= inp.maxStepPercent && Movable(inp) <= 0
    ensures !Decide(inp).changed && Movable(inp) == 0 && Exhausted(inp)
  {
    ChangedIffPointsMove(inp);
    ShiftIsSubstantial(inp);
    SumNonNegative(Surplus(inp));
    SumNonNegative(Space(inp));
    forall i: nat | i < |inp.backends|
      ensures Sum(Surplus(inp)) == 0 ==> SurplusOf(inp, inp.backends[i]) <= 0
      ensures Sum(Space(inp)) == 0 ==> SpaceOf(inp, inp.backends[i]) <= 0
    {
      SumBoundsEntry(Surplus(inp), i);
      SumBoundsEntry(Space(inp), i);
    }
  }

  /** A changed decision moves a full step, or everything that was left to move. */
  lemma OneRound(inp: Input)
    requires UniqueNames(inp.backends) && 1 <= inp.maxStepPercent && 0 < Movable(inp)
    ensures Decide(inp).changed
    ensures Movable(Next(inp)) == Movable(inp) - Shift(inp)
    ensures 0 < Shift(inp) && (inp.maxStepPercent <= Shift(inp) || Shift(inp) == Movable(inp))
  {
    ChangedIffPointsMove(inp);
    ShiftIsSubstantial(inp);
    NextMovable(inp);
  }

  lemma RoundsFit(step: int, left: int, moved: int, rest: nat)
    requires 1 <= step && 0 < left && (step <= moved || moved == left)
    requires rest == 0 || (rest - 1) * step < left - moved
    ensures rest * step < left
  {
    if rest > 0 {
      assert rest * step == (rest - 1) * step + step;
      assert 0 <= (rest - 1) * step;
    }
  }

  /**
   Fed its own output, the evaluator changes the weights in each of n rounds and
   then holds. n is at most the number of full steps it takes to cover the
   movable points (the last one possibly short); by then exactly those points
   have moved and one side is exhausted.
   */
  ghost predicate SettlesIn(inp: Input, n: nat) {
    && (n == 0 || (n - 1) * inp.maxStepPercent < Movable(inp))
    && ChangesEachRound(inp, n)
    && !Decide(Iterate(inp, n)).changed
    && TotalShift(inp, n) == Movable(inp)
    && Exhausted(Iterate(inp, n))
  }

  lemma OneMoreRound(inp: Input, rest: nat)
    requires UniqueNames(inp.backends) && 1 <= inp.maxStepPercent && 0 < Movable(inp)
    requires SettlesIn(Next(inp), rest)
    ensures SettlesIn(inp, rest + 1)
  {
    OneRound(inp);
    RoundsFit(inp.maxStepPercent, Movable(inp), Shift(inp), rest);
    assert Iterate(inp, rest + 1) == Iterate(Next(inp), rest);
  }

  lemma {:induction false} Converges(inp: Input)
    requires UniqueNames(inp.backends) && 1 <= inp.maxStepPercent
    ensures exists n: nat :: SettlesIn(inp, n)
    decreases Movable(inp)
  {
    if Movable(inp) <= 0 {
      NothingMovable(inp);
      assert SettlesIn(inp, 0);
    } else {
      OneRound(inp);
      Converges(Next(inp));
      var rest: nat :| SettlesIn(Next(inp), rest);
      OneMoreRound(inp, rest);
    }
  }
}
