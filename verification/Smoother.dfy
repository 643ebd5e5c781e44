/** The moving-average buffers, and the unbounded history each of them stands for. */
module Smoothing {

  const DEFAULT_MAX_WINDOW := 60

  type Buffers = map<string, map<string, seq<real>>>

  /** What has been asked of a smoother. */
  datatype Op = Observed(key: string, backend: string, value: real) | Forgot(key: string)

  /** Everything ever observed for one backend under one key since the key was last forgotten. */
  function History(trace: seq<Op>, key: string, backend: string): seq<real> {
    if trace == [] then [] else
      var h := History(trace[..|trace| - 1], key, backend);
      match trace[|trace| - 1]
      case Observed(k, b, v) => if k == key && b == backend then h + [v] else h
      case Forgot(k) => if k == key then [] else h
  }

  function LastN(h: seq<real>, n: nat): seq<real> {
    if |h| <= n then h else h[|h| - n..]
  }

  function Total(h: seq<real>): real {
    if h == [] then 0.0 else Total(h[..|h| - 1]) + h[|h| - 1]
  }

  function Mean(h: seq<real>): real
    requires h != []
  {
    Total(h) / |h| as real
  }

  /** Totals add up, so that a total is that of its values one by one. */
  lemma {:induction false} TotalAppend(a: seq<real>, b: seq<real>)
    ensures Total(a + b) == Total(a) + Total(b)
  {
    if b == [] {
      assert a + b == a;
    } else {
      assert (a + b)[..|a + b| - 1] == a + b[..|b| - 1];
      TotalAppend(a, b[..|b| - 1]);
    }
  }

  lemma TotalOfOne(v: real)
    ensures Total([v]) == v
  {
    assert [v][..0] == [];
  }

  /** An average is that of its values: each new one enters with the weight of one among all. */
  lemma MeanOfOneMore(h: seq<real>, v: real)
    ensures Mean([v]) == v
    ensures h != [] ==> Mean(h + [v]) * (|h| + 1) as real == Mean(h) * |h| as real + v
  {
    TotalOfOne(v);
    if h != [] {
      TotalAppend(h, [v]);
      assert Mean(h) * |h| as real == Total(h);
      assert Mean(h + [v]) * |h + [v]| as real == Total(h + [v]);
    }
  }

  /** What lies beyond the average and what falls short of it are the same. */
  lemma {:induction false} DeviationsCancel(h: seq<real>)
    requires h != []
    ensures Total(seq(|h|, k requires 0 <= k < |h| => h[k] - Mean(h))) == 0.0
  {
    DeviationsFrom(h, Mean(h));
    assert Mean(h) * |h| as real == Total(h);
  }

  lemma {:induction false} DeviationsFrom(h: seq<real>, m: real)
    ensures Total(seq(|h|, k requires 0 <= k < |h| => h[k] - m)) == Total(h) - |h| as real * m
  {
    if h != [] {
      var n := |h| - 1;
      var d := seq(|h|, k requires 0 <= k < |h| => h[k] - m);
      assert d[..n] == seq(n, k requires 0 <= k < n => h[..n][k] - m);
      DeviationsFrom(h[..n], m);
    }
  }

  /** How many values an average over a window is over: at least one, at most all there are and the buffer holds. */
  function Span(count: nat, window: int, maxWindow: nat): nat
    requires 1 <= maxWindow && 1 <= count
  {
    var w := if window < 1 then 1 else window;
    if w <= count && w <= maxWindow then w else if count <= maxWindow then count else maxWindow
  }

  /** n times the mean is the total of the last n values, n being what the window spans of them. */
  ghost predicate AveragesLast(mean: real, h: seq<real>, window: int, maxWindow: nat) {
    && 1 <= maxWindow && h != []
    && var n := Span(|h|, window, maxWindow); n <= |h| && n as real * mean == Total(h[|h| - n..])
  }

  lemma MeanOfLast(h: seq<real>, window: int, maxWindow: nat)
    requires h != [] && 1 <= maxWindow
    ensures AveragesLast(Mean(LastN(h, Clamp(window, maxWindow))), h, window, maxWindow)
  {
    var n := Span(|h|, window, maxWindow);
    assert LastN(h, Clamp(window, maxWindow)) == h[|h| - n..];
    MeanTimesCount(h[|h| - n..]);
  }

  lemma MeanTimesCount(h: seq<real>)
    requires h != []
    ensures |h| as real * Mean(h) == Total(h)
  {
  }

  function Clamp(window: int, maxWindow: nat): nat
    requires 1 <= maxWindow
  {
    if window < 1 then 1 else if window > maxWindow then maxWindow else window
  }

  function Inner(data: Buffers, key: string): map<string, seq<real>> {
    if key in data then data[key] else map[]
  }

  function Buffer(data: Buffers, key: string, backend: string): seq<real> {
    if backend in Inner(data, key) then Inner(data, key)[backend] else []
  }

  /** The buffer once another value has been recorded. */
  function Extended(data: Buffers, maxWindow: nat, key: string, backend: string, value: real): seq<real> {
    LastN(Buffer(data, key, backend) + [value], maxWindow)
  }

  /** The average reported when value is recorded. */
  function SmoothedValue(data: Buffers, maxWindow: nat, window: int, key: string, backend: string, value: real): real
    requires 1 <= maxWindow
  {
    Mean(LastN(Extended(data, maxWindow, key, backend, value), Clamp(window, maxWindow)))
  }

  /** Cutting twice is cutting once to the smaller size, also when a value arrives in between. */
  lemma LastNOfLastN(h: seq<real>, m: nat, n: nat)
    requires n <= m
    ensures LastN(LastN(h, m), n) == LastN(h, n)
  {
  }

  lemma LastNExtends(h: seq<real>, n: nat, v: real)
    ensures LastN(LastN(h, n) + [v], n) == LastN(h + [v], n)
  {
  }

  lemma {:induction false} TotalBound(h: seq<real>, bound: real)
    requires forall k :: 0 <= k < |h| ==> h[k] <= bound
    ensures Total(h) <= |h| as real * bound
  {
    if h != [] {
      TotalBound(h[..|h| - 1], bound);
    }
  }

  /** An average of values at or below a bound is at or below it. */
  lemma MeanBound(h: seq<real>, bound: real)
    requires h != [] && forall k :: 0 <= k < |h| ==> h[k] <= bound
    ensures Mean(h) <= bound
  {
    TotalBound(h, bound);
    var n := |h| as real;
    assert Total(h) == Mean(h) * n;
    assert Total(h) - bound * n == (Mean(h) - bound) * n;
  }

  lemma {:induction false} TotalOfConstant(h: seq<real>, c: real)
    requires forall k :: 0 <= k < |h| ==> h[k] == c
    ensures Total(h) == |h| as real * c
  {
    if h != [] {
      TotalOfConstant(h[..|h| - 1], c);
    }
  }

  /** The average of one value repeated is that value. */
  lemma MeanOfConstant(h: seq<real>, c: real)
    requires h != [] && forall k :: 0 <= k < |h| ==> h[k] == c
    ensures Mean(h) == c
  {
    TotalOfConstant(h, c);
    var n := |h| as real;
    assert Total(h) == n * c;
    assert n * c / n == c;
  }

  /** Every buffer is the most recent part of the history it stands for. */
  ghost predicate Follows(data: Buffers, trace: seq<Op>, maxWindow: nat) {
    forall key: string, backend: string ::
      Buffer(data, key, backend) == LastN(History(trace, key, backend), maxWindow)
  }

  class Smoother {
    const maxWindow: nat
    var data: Buffers
    ghost var trace: seq<Op>

    ghost predicate Valid()
      reads this
    {
      1 <= maxWindow && Follows(data, trace, maxWindow)
    }

    constructor (maxWindow: int)
      ensures Valid() && trace == [] && data == map[]
      ensures this.maxWindow == if maxWindow < 1 then 60 else maxWindow
    {
      this.maxWindow := if maxWindow < 1 then DEFAULT_MAX_WINDOW else maxWindow;
      data := map[];
      trace := [];
    }

    method Observe(policyKey: string, backend: string, value: real, window: int) returns (mean: real)
      requires Valid()
      modifies this
      ensures Valid() && trace == old(trace) + [Observed(policyKey, backend, value)]
      ensures AveragesLast(mean, History(trace, policyKey, backend), window, maxWindow)
      ensures mean == SmoothedValue(old(data), maxWindow, window, policyKey, backend, value)
      ensures data == Recorded(old(data), maxWindow, policyKey, backend, value)
    {
      var w := window;
      if w < 1 {
        w := 1;
      }
      if w > maxWindow {
        w := maxWindow;
      }
      var buf := Append(policyKey, backend, value);
      trace := trace + [Observed(policyKey, backend, value)];
      var start := if |buf| - w > 0 then |buf| - w else 0;
      assert buf[start..] == LastN(buf, Clamp(window, maxWindow));
      mean := Average(buf[start..]);
      RecordingIsHistory(old(data), data, old(trace), policyKey, backend, value, maxWindow);
      ObservedMean(old(data), old(trace), policyKey, backend, value, maxWindow, window);
    }

    method Append(policyKey: string, backend: string, value: real) returns (buf: seq<real>)
      modifies `data
      ensures data == Recorded(old(data), maxWindow, policyKey, backend, value)
      ensures buf == Extended(old(data), maxWindow, policyKey, backend, value)
    {
      if policyKey !in data {
        data := data[policyKey := map[]];
      }
      buf := (if backend in data[policyKey] then data[policyKey][backend] else []) + [value];
      if |buf| > maxWindow {
        buf := buf[|buf| - maxWindow..];
      }
      data := data[policyKey := data[policyKey][backend := buf]];
    }

    method Forget(policyKey: string)
      requires Valid()
      modifies this
      ensures Valid() && trace == old(trace) + [Forgot(policyKey)]
      ensures data == old(data) - {policyKey}
    {
      data := data - {policyKey};
      trace := trace + [Forgot(policyKey)];
      assert trace[..|trace| - 1] == old(trace);
    }
  }

  method Average(slice: seq<real>) returns (mean: real)
    requires slice != []
    ensures mean == Mean(slice)
  {
    var sum := 0.0;
    for k := 0 to |slice|
      invariant sum == Total(slice[..k])
    {
      assert slice[..k + 1][..k] == slice[..k];
      sum := sum + slice[k];
    }
    assert slice[..|slice|] == slice;
    mean := sum / |slice| as real;
  }

  /** The buffers once one value has been recorded. */
  function Recorded(data: Buffers, maxWindow: nat, key: string, backend: string, value: real): Buffers {
    data[key := Inner(data, key)[backend := Extended(data, maxWindow, key, backend, value)]]
  }

  /** Recording touches one buffer and no other. */
  lemma RecordedBuffer(data: Buffers, maxWindow: nat, key: string, backend: string, value: real, k: string, b: string)
    ensures Buffer(Recorded(data, maxWindow, key, backend, value), k, b)
            == if k == key && b == backend then Extended(data, maxWindow, key, backend, value) else Buffer(data, k, b)
  {
  }

  lemma LastObserved(trace: seq<Op>, key: string, backend: string, value: real)
    ensures History(trace + [Observed(key, backend, value)], key, backend) == History(trace, key, backend) + [value]
  {
    var after := trace + [Observed(key, backend, value)];
    assert after[..|after| - 1] == trace;
  }

  lemma RecordingIsHistory(data: Buffers, data': Buffers, trace: seq<Op>, key: string, backend: string,
                           value: real, maxWindow: nat)
    requires Follows(data, trace, maxWindow)
    requires data' == Recorded(data, maxWindow, key, backend, value)
    ensures Follows(data', trace + [Observed(key, backend, value)], maxWindow)
  {
    var after := trace + [Observed(key, backend, value)];
    assert after[..|after| - 1] == trace;
    forall k: string, b: string ensures Buffer(data', k, b) == LastN(History(after, k, b), maxWindow) {
      RecordedBuffer(data, maxWindow, key, backend, value, k, b);
      LastNExtends(History(trace, key, backend), maxWindow, value);
    }
  }

  /** The average reported is over the last values of the whole history, though only the buffer is consulted. */
  lemma ObservedMean(data: Buffers, trace: seq<Op>, key: string, backend: string, value: real,
                     maxWindow: nat, window: int)
    requires 1 <= maxWindow && Follows(data, trace, maxWindow)
    ensures AveragesLast(SmoothedValue(data, maxWindow, window, key, backend, value),
                         History(trace + [Observed(key, backend, value)], key, backend), window, maxWindow)
  {
    var h := History(trace, key, backend);
    LastObserved(trace, key, backend, value);
    LastNExtends(h, maxWindow, value);
    LastNOfLastN(h + [value], maxWindow, Clamp(window, maxWindow));
    MeanOfLast(h + [value], window, maxWindow);
  }

  // ----- smoothing a whole sample -----

  function MapEach(samples: map<string, real>, f: (string, real) -> real): map<string, real> {
    map n | n in samples :: f(n, samples[n])
  }

  lemma MapEachOneMore(samples: map<string, real>, f: (string, real) -> real, n: string, v: real)
    requires n !in samples
    ensures MapEach(samples[n := v], f) == MapEach(samples, f)[n := f(n, v)]
  {
    assert MapEach(samples[n := v], f).Keys == MapEach(samples, f)[n := f(n, v)].Keys;
  }

  lemma WithoutOneLess(samples: map<string, real>, todo: set<string>, n: string)
    requires n in todo && n in samples
    ensures n !in Without(samples, todo)
    ensures Without(samples, todo - {n}) == Without(samples, todo)[n := samples[n]]
  {
  }

  /** Every sampled backend replaced by its moving average; no order of evaluation involved. */
  function SmoothOut(data: Buffers, maxWindow: nat, window: int, key: string, samples: map<string, real>)
    : map<string, real>
    requires 1 <= maxWindow
  {
    MapEach(samples, (n, v) => SmoothedValue(data, maxWindow, window, key, n, v))
  }

  function ExtendedAll(data: Buffers, maxWindow: nat, key: string, samples: map<string, real>): map<string, seq<real>> {
    Inner(data, key) + map n | n in samples :: Extended(data, maxWindow, key, n, samples[n])
  }

  function SmoothData(data: Buffers, maxWindow: nat, key: string, samples: map<string, real>): Buffers {
    if samples == map[] then data else data[key := ExtendedAll(data, maxWindow, key, samples)]
  }

  /** After smoothing, each sampled backend's buffer is extended and every other buffer is as before. */
  lemma SmoothedBuffer(data: Buffers, maxWindow: nat, key: string, samples: map<string, real>, k: string, b: string)
    ensures Buffer(SmoothData(data, maxWindow, key, samples), k, b)
            == if k == key && b in samples then Extended(data, maxWindow, key, b, samples[b]) else Buffer(data, k, b)
  {
  }

  function Without(samples: map<string, real>, todo: set<string>): map<string, real> {
    samples - todo
  }

  lemma ExtendOneMore(data: Buffers, maxWindow: nat, key: string, part: map<string, real>, n: string, v: real)
    requires n !in part
    ensures ExtendedAll(data, maxWindow, key, part[n := v])
            == ExtendedAll(data, maxWindow, key, part)[n := Extended(data, maxWindow, key, n, v)]
  {
    var whole := ExtendedAll(data, maxWindow, key, part[n := v]);
    var step := ExtendedAll(data, maxWindow, key, part)[n := Extended(data, maxWindow, key, n, v)];
    assert whole.Keys == step.Keys;
    forall m | m in whole ensures whole[m] == step[m] {
    }
  }

  /** One more observation takes the buffers of a part of the sample to those of a larger part. */
  lemma SmoothOneMore(data: Buffers, maxWindow: nat, key: string, part: map<string, real>, n: string, v: real)
    requires n !in part
    ensures Extended(SmoothData(data, maxWindow, key, part), maxWindow, key, n, v)
            == Extended(data, maxWindow, key, n, v)
    ensures Recorded(SmoothData(data, maxWindow, key, part), maxWindow, key, n, v)
            == SmoothData(data, maxWindow, key, part[n := v])
  {
    SmoothedBuffer(data, maxWindow, key, part, key, n);
    ExtendOneMore(data, maxWindow, key, part, n, v);
    assert ExtendedAll(data, maxWindow, key, map[]) == Inner(data, key);
    assert Inner(SmoothData(data, maxWindow, key, part), key) == ExtendedAll(data, maxWindow, key, part);
    assert n in part[n := v];
  }

  /** Observes the sampled backends one by one, in whatever order the map yields them. */
  method Smooth(s: Smoother, key: string, samples: map<string, real>, window: int) returns (out: map<string, real>)
    requires s.Valid()
    modifies s
    ensures s.Valid()
    ensures s.data == SmoothData(old(s.data), s.maxWindow, key, samples)
    ensures out == SmoothOut(old(s.data), s.maxWindow, window, key, samples)
  {
    out := map[];
    var todo := samples.Keys;
    ghost var part: map<string, real> := map[];
    while todo != {}
      invariant todo <= samples.Keys && s.Valid() && part == Without(samples, todo)
      invariant s.data == SmoothData(old(s.data), s.maxWindow, key, part)
      invariant out == SmoothOut(old(s.data), s.maxWindow, window, key, part)
      decreases todo
    {
      var n :| n in todo;
      SmoothOneMore(old(s.data), s.maxWindow, key, part, n, samples[n]);
      MapEachOneMore(part, (m, v) => SmoothedValue(old(s.data), s.maxWindow, window, key, m, v), n, samples[n]);
      WithoutOneLess(samples, todo, n);
      var mean := s.Observe(key, n, samples[n], window);
      assert mean == SmoothedValue(old(s.data), s.maxWindow, window, key, n, samples[n]);
      out := out[n := mean];
      todo := todo - {n};
      part := part[n := samples[n]];
    }
    assert Without(samples, {}) == samples;
  }

  // ----- keys -----

  function SmoothKey(namespace: string, name: string, signal: string): string {
    namespace + "/" + name + "#" + signal
  }

  function PolicyKey(namespace: string, name: string): string {
    namespace + "/" + name
  }

  /** A separator that occurs in neither prefix splits a string in one way only. */
  lemma SplitOnce(a: string, b: string, x: string, y: string, sep: char)
    requires sep !in a && sep !in b && a + [sep] + x == b + [sep] + y
    ensures a == b && x == y
  {
    var s := a + [sep] + x;
    assert s[|a|] == sep && s[|b|] == sep;
    assert forall i :: 0 <= i < |a| ==> s[i] == a[i] != sep;
    assert forall i :: 0 <= i < |b| ==> s[i] == b[i] != sep;
    assert |a| == |b|;
    assert a == s[..|a|] == s[..|b|] == b;
    assert x == s[|a| + 1..] == y;
  }

  /** Different policies or signals never share a buffer. */
  lemma KeysSeparate(ns: string, name: string, sig: string, ns': string, name': string, sig': string)
    requires '/' !in ns && '/' !in ns' && '#' !in name && '#' !in name'
    requires SmoothKey(ns, name, sig) == SmoothKey(ns', name', sig')
    ensures ns == ns' && name == name' && sig == sig'
  {
    assert SmoothKey(ns, name, sig) == ns + ['/'] + (name + ['#'] + sig);
    assert SmoothKey(ns', name', sig') == ns' + ['/'] + (name' + ['#'] + sig');
    SplitOnce(ns, ns', name + ['#'] + sig, name' + ['#'] + sig', '/');
    SplitOnce(name, name', sig, sig', '#');
  }

  /**
   Forgetting a policy by its own name clears none of its buffers: they are
   kept under the name followed by '#' and a signal.
   */
  lemma PolicyKeyIsNoSmoothKey(data: Buffers, ns: string, name: string, ns': string, name': string,
                               sig: string, backend: string)
    requires '#' !in ns && '#' !in name
    ensures Buffer(data - {PolicyKey(ns, name)}, SmoothKey(ns', name', sig), backend)
            == Buffer(data, SmoothKey(ns', name', sig), backend)
  {
    var key := SmoothKey(ns', name', sig);
    assert key[|ns'| + 1 + |name'|] == '#';
    assert '#' in key && '#' !in PolicyKey(ns, name);
  }
}
