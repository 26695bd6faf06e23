/** pkg/scheduler/strategy_pressure_rebalance.go: one decision moves some weight from the
    pool under most pressure to the pool under least.  `float64` is idealised as `real`. */
module Rebalance {
  import opened Sequences
  import opened RoutingTable
  import opened RoutingService

  datatype PoolStat = PoolStat(queueDepth: nat, workerCount: nat, ratePerSecond: real)

  type Snapshot = map<string, PoolStat>

  datatype Policy = Policy(enabled: bool, strategyName: string, cooldown: int, params: map<string, real>)

  datatype Plan = Plan(
    stream: string,
    oldWeights: seq<int>,
    newWeights: seq<int>,
    fromPool: string,
    toPool: string,
    delta: int)

  datatype Params = Params(
    epsRate: real, minPressureDelta: real, baseStep: real, maxStep: real,
    minWeight: real, maxFrac: real, paceRate: real)

  const DEFAULTS: map<string, real> :=
    map["epsRate" := 1.0, "minPressureDelta" := 2.0, "baseStep" := 1.0, "maxStep" := 5.0,
        "minWeight" := 1.0, "maxFrac" := 0.2, "paceRate" := 5.0]

  /** `getParam`: the policy's value, else the default, else 0. */
  function GetParam(policy: Policy, key: string): real {
    if key in policy.params then policy.params[key]
    else if key in DEFAULTS then DEFAULTS[key]
    else 0.0
  }

  function ParamsOf(policy: Policy): Params {
    Params(GetParam(policy, "epsRate"), GetParam(policy, "minPressureDelta"), GetParam(policy, "baseStep"),
           GetParam(policy, "maxStep"), GetParam(policy, "minWeight"), GetParam(policy, "maxFrac"),
           GetParam(policy, "paceRate"))
  }

  /** No division by zero and no negative step size. */
  predicate Sane(p: Params) { p.epsRate > 0.0 && p.paceRate > 0.0 && p.baseStep >= 0.0 }

  // ----- arithmetic -----

  /** Go's `int(x)`: truncation towards zero. */
  function Trunc(x: real): int { if x >= 0.0 then x.Floor else -((-x).Floor) }

  function MaxReal(a: real, b: real): real { if a > b then a else b }

  /** `Pressure`: queue depth over the processing rate, which is at least `eps`. */
  function Pressure(s: PoolStat, eps: real): real
    requires eps > 0.0
  {
    s.queueDepth as real / MaxReal(s.ratePerSecond, eps)
  }

  function Square(x: real): real { x * x }

  lemma SquareGrows(x: real, y: real)
    requires 0.0 <= x <= y
    ensures 0.0 <= Square(x) <= Square(y)
  {
  }

  /** The largest `k` with k*k <= x: what truncating a square root gives. */
  function FloorSqrt(x: real): (k: nat)
    requires x >= 0.0
    ensures Square(k as real) <= x < Square((k + 1) as real)
  {
    assert x < Square((x.Floor + 1) as real) by {
      SquareGrows(1.0, (x.Floor + 1) as real);
      assert ((x.Floor + 1) as real) <= Square((x.Floor + 1) as real);
    }
    SqrtBelow(x, x.Floor)
  }

  function SqrtBelow(x: real, k: nat): (r: nat)
    requires x >= 0.0 && x < Square((k + 1) as real)
    ensures Square(r as real) <= x < Square((r + 1) as real)
  {
    if Square(k as real) <= x then k
    else
      assert k > 0 by { assert Square(0.0) == 0.0; }
      SqrtBelow(x, k - 1)
  }

  lemma SqrtIsLargest(x: real, k: nat)
    requires x >= 0.0
    ensures k <= FloorSqrt(x) <==> Square(k as real) <= x
  {
    var r := FloorSqrt(x);
    if k <= r {
      SquareGrows(k as real, r as real);
    } else {
      SquareGrows((r + 1) as real, k as real);
    }
  }

  // ----- what a decision is -----

  function PressureAt(snap: Snapshot, name: string, eps: real): Option<real>
    requires eps > 0.0
  {
    if name in snap then Some(Pressure(snap[name], eps)) else None
  }

  function Pressures(snap: Snapshot, names: seq<string>, eps: real): (ps: seq<Option<real>>)
    requires eps > 0.0
    ensures |ps| == |names|
  {
    seq(|names|, i requires 0 <= i < |names| => PressureAt(snap, names[i], eps))
  }

  const HIGHEST: real := 1000000000000000000.0

  /** The first sampled pool of maximal pressure. */
  ghost predicate FirstMax(ps: seq<Option<real>>, i: nat) {
    && i < |ps| && ps[i].Some?
    && (forall j :: 0 <= j < |ps| && ps[j].Some? ==> ps[j].value <= ps[i].value)
    && (forall j :: 0 <= j < i && ps[j].Some? ==> ps[j].value < ps[i].value)
  }

  /** The first sampled pool of minimal pressure; pressures of 1e18 and above never count. */
  ghost predicate FirstMin(ps: seq<Option<real>>, i: nat) {
    && i < |ps| && ps[i].Some? && ps[i].value < HIGHEST
    && (forall j :: 0 <= j < |ps| && ps[j].Some? ==> ps[j].value >= ps[i].value)
    && (forall j :: 0 <= j < i && ps[j].Some? ==> ps[j].value > ps[i].value)
  }

  /** Everything about a decision that does not depend on the weights. */
  datatype Gap = Gap(from: nat, to: nat, pressure: real, fromWorkers: nat, toWorkers: nat)

  ghost predicate IsGap(snap: Snapshot, names: seq<string>, p: Params, g: Gap)
    requires p.epsRate > 0.0
  {
    var ps := Pressures(snap, names, p.epsRate);
    && FirstMax(ps, g.from) && FirstMin(ps, g.to) && g.from != g.to
    && g.pressure == ps[g.from].value - ps[g.to].value >= p.minPressureDelta
    && g.fromWorkers == snap[names[g.from]].workerCount
    && g.toWorkers == snap[names[g.to]].workerCount
  }

  /** (mult * baseStep)^2 * minWorkers / max(1, maxWorkers), whose truncated root is the
      candidate step. */
  function StepSquare(p: Params, g: Gap): (x: real)
    requires Sane(p) && g.pressure >= p.minPressureDelta
    ensures x >= 0.0
  {
    Scaled(Multiple(g.pressure - p.minPressureDelta, p.paceRate), p.baseStep, WorkerShare(g))
  }

  /** One step more for every `rate` of pressure in excess. */
  function Multiple(excess: real, rate: real): (m: int)
    requires excess >= 0.0 && rate > 0.0
    ensures m >= 1
  {
    1 + (excess / rate).Floor
  }

  function WorkerShare(g: Gap): (r: real)
    ensures r >= 0.0
  {
    g.toWorkers as real / MaxReal(1.0, g.fromWorkers as real)
  }

  function Scaled(m: int, baseStep: real, share: real): (x: real)
    requires m >= 1 && baseStep >= 0.0 && share >= 0.0
    ensures x >= 0.0
  {
    SquareGrows(0.0, m as real * baseStep);
    Square(m as real * baseStep) * share
  }

  ghost function Total(weights: seq<int>): int { Sum(weights, (w: int) => w) }

  /** The four bounds on a step of `k`: the scaled candidate (as a square), the largest
      step, what the donor can spare, and a share of the total weight. */
  ghost predicate FourBounds(square: real, maxStep: real, spare: int, share: real, k: int) {
    && k >= 1
    && Square(k as real) <= square
    && k as real <= maxStep
    && k <= spare
    && k as real <= MaxReal(1.0, share)
  }

  function ShareOf(p: Params, total: int): real { total as real * p.maxFrac }

  ghost predicate WithinBounds(p: Params, g: Gap, weights: seq<int>, k: int)
    requires Sane(p) && g.pressure >= p.minPressureDelta && g.from < |weights|
  {
    FourBounds(StepSquare(p, g), p.maxStep, weights[g.from] - Trunc(p.minWeight), ShareOf(p, Total(weights)), k)
  }

  ghost predicate IsStep(p: Params, g: Gap, weights: seq<int>, k: int)
    requires Sane(p) && g.pressure >= p.minPressureDelta && g.from < |weights|
  {
    WithinBounds(p, g, weights, k) && forall m :: m > k ==> !WithinBounds(p, g, weights, m)
  }

  /** `k` is the step to take from the donor to the receiver of `g`. */
  ghost predicate Calls(snap: Snapshot, names: seq<string>, weights: seq<int>, policy: Policy, g: Gap, k: int)
    requires Sane(ParamsOf(policy))
  {
    var p := ParamsOf(policy);
    && policy.enabled && |names| == |weights|
    && IsGap(snap, names, p, g)
    && weights[g.from] as real > p.minWeight
    && IsStep(p, g, weights, k)
  }

  ghost function PlanFor(stream: string, names: seq<string>, weights: seq<int>, g: Gap, k: int): Plan
    requires |names| == |weights| && g.from < |names| && g.to < |names| && g.from != g.to
  {
    Plan(stream, weights, Moved(weights, g.from, g.to, k), names[g.from], names[g.to], k)
  }

  /** The decision exactly: a plan moves the largest step within all four bounds from the
      first pool of maximal pressure to the first of minimal pressure, and no plan means
      that there is no such step. */
  ghost predicate Decides(snap: Snapshot, stream: string, names: seq<string>, weights: seq<int>, policy: Policy,
                          r: Option<Plan>)
    requires Sane(ParamsOf(policy))
  {
    match r
    case Some(plan) =>
      exists g, k :: Calls(snap, names, weights, policy, g, k) && plan == PlanFor(stream, names, weights, g, k)
    case None =>
      forall g, k :: !Calls(snap, names, weights, policy, g, k)
  }

  lemma GapIsUnique(snap: Snapshot, names: seq<string>, p: Params, g: Gap, h: Gap)
    requires p.epsRate > 0.0 && IsGap(snap, names, p, g) && IsGap(snap, names, p, h)
    ensures g == h
  {
  }

  lemma CallIsUnique(snap: Snapshot, names: seq<string>, weights: seq<int>, policy: Policy,
                     g: Gap, k: int, h: Gap, m: int)
    requires Sane(ParamsOf(policy))
    requires Calls(snap, names, weights, policy, g, k) && Calls(snap, names, weights, policy, h, m)
    ensures g == h && k == m
  {
    GapIsUnique(snap, names, ParamsOf(policy), g, h);
  }

  lemma DecisionIsUnique(snap: Snapshot, stream: string, names: seq<string>, weights: seq<int>, policy: Policy,
                         r: Option<Plan>, r': Option<Plan>)
    requires Sane(ParamsOf(policy))
    requires Decides(snap, stream, names, weights, policy, r) && Decides(snap, stream, names, weights, policy, r')
    ensures r == r'
  {
    if r.Some? && r'.Some? {
      var g, k :| Calls(snap, names, weights, policy, g, k) && r.value == PlanFor(stream, names, weights, g, k);
      var h, m :| Calls(snap, names, weights, policy, h, m) && r'.value == PlanFor(stream, names, weights, h, m);
      CallIsUnique(snap, names, weights, policy, g, k, h, m);
    }
  }

  // ----- the code -----

  /** `minInt`. */
  method MinInt(vals: seq<int>) returns (m: int)
    ensures vals == [] ==> m == 0
    ensures vals != [] ==> m in vals && forall v :: v in vals ==> m <= v
  {
    if |vals| == 0 {
      return 0;
    }
    m := vals[0];
    for i := 1 to |vals|
      invariant m in vals[..i] && forall v :: v in vals[..i] ==> m <= v
    {
      if vals[i] < m {
        m := vals[i];
      }
      assert vals[..i + 1] == vals[..i] + [vals[i]];
    }
    assert vals[..|vals|] == vals;
  }

  /** The running maximum and minimum of the scan; -1 stands for "none". */
  method FindExtremes(ps: seq<Option<real>>) returns (maxIdx: int, minIdx: int, maxP: real, minP: real)
    requires forall i :: 0 <= i < |ps| && ps[i].Some? ==> ps[i].value >= 0.0
    ensures if maxIdx < 0 then forall i :: !FirstMax(ps, i) else FirstMax(ps, maxIdx) && maxP == ps[maxIdx].value
    ensures if minIdx < 0 then forall i :: !FirstMin(ps, i) else FirstMin(ps, minIdx) && minP == ps[minIdx].value
  {
    maxIdx, minIdx, maxP, minP := -1, -1, -1.0, HIGHEST;
    for i := 0 to |ps|
      invariant maxIdx < i && minIdx < i
      invariant maxIdx < 0 ==> maxP == -1.0 && forall j :: 0 <= j < i ==> ps[j].None?
      invariant maxIdx >= 0 ==> FirstMax(ps[..i], maxIdx) && maxP == ps[maxIdx].value
      invariant minIdx < 0 ==> minP == HIGHEST && forall j :: 0 <= j < i && ps[j].Some? ==> ps[j].value >= HIGHEST
      invariant minIdx >= 0 ==> FirstMin(ps[..i], minIdx) && minP == ps[minIdx].value
    {
      if ps[i].Some? {
        var p := ps[i].value;
        if p > maxP {
          maxP, maxIdx := p, i;
        }
        if p < minP {
          minP, minIdx := p, i;
        }
      }
    }
    assert ps[..|ps|] == ps;
  }

  method SumWeights(weights: seq<int>) returns (sum: int)
    ensures sum == Total(weights)
  {
    sum := 0;
    for i := 0 to |weights|
      invariant sum == Total(weights[..i])
    {
      assert weights[..i + 1][..i] == weights[..i];
      sum := sum + weights[i];
    }
    assert weights[..|weights|] == weights;
  }

  lemma TruncBounds(k: int, x: real)
    requires k >= 1
    ensures k as real <= x <==> k <= Trunc(x)
  {
  }

  lemma PortionBounds(k: int, y: real)
    requires k >= 1
    ensures k as real <= MaxReal(1.0, y) <==> k <= Trunc(MaxReal(1.0, y.Floor as real))
  {
    TruncBounds(k, MaxReal(1.0, y.Floor as real));
  }

  lemma FourBoundsAsIntegers(square: real, maxStep: real, spare: int, share: real, k: int)
    requires square >= 0.0
    ensures FourBounds(square, maxStep, spare, share, k) <==>
            1 <= k <= FloorSqrt(square) && k <= Trunc(maxStep) && k <= spare
            && k <= Trunc(MaxReal(1.0, share.Floor as real))
  {
    if k >= 1 {
      SqrtIsLargest(square, k);
      TruncBounds(k, maxStep);
      PortionBounds(k, share);
    }
  }

  lemma PairMembers(a: int, b: int)
    ensures a in [a, b] && b in [a, b]
  {
    assert [a, b][0] == a && [a, b][1] == b;
  }

  /** The smallest of the four integer bounds, in the order the code takes them. */
  method SmallestBound(square: real, maxStep: real, spare: int, share: real) returns (step: int)
    requires square >= 0.0
    ensures forall k :: FourBounds(square, maxStep, spare, share, k) <==> 1 <= k <= step
  {
    var candidate, portion := FloorSqrt(square), Trunc(MaxReal(1.0, share.Floor as real));
    step := MinInt([candidate, Trunc(maxStep)]);
    assert step <= candidate && step <= Trunc(maxStep) by { PairMembers(candidate, Trunc(maxStep)); }
    assert step == candidate || step == Trunc(maxStep);
    ghost var first := step;
    step := MinInt([step, spare]);
    assert step <= first && step <= spare by { PairMembers(first, spare); }
    ghost var second := step;
    step := MinInt([step, portion]);
    assert step <= second && step <= portion by { PairMembers(second, portion); }
    forall k ensures FourBounds(square, maxStep, spare, share, k) <==> 1 <= k <= step {
      FourBoundsAsIntegers(square, maxStep, spare, share, k);
    }
  }

  /** The step the code computes is the largest within the four bounds, or not positive. */
  method ComputeStep(p: Params, g: Gap, weights: seq<int>) returns (step: int)
    requires Sane(p) && g.pressure >= p.minPressureDelta && g.from < |weights|
    ensures forall k :: WithinBounds(p, g, weights, k) <==> 1 <= k <= step
  {
    var sum := SumWeights(weights);
    step := SmallestBound(StepSquare(p, g), p.maxStep, weights[g.from] - Trunc(p.minWeight), ShareOf(p, sum));
  }

  lemma NoCall(snap: Snapshot, names: seq<string>, weights: seq<int>, policy: Policy, g: Gap)
    requires Sane(ParamsOf(policy)) && |names| == |weights| && IsGap(snap, names, ParamsOf(policy), g)
    requires weights[g.from] as real <= ParamsOf(policy).minWeight || !WithinBounds(ParamsOf(policy), g, weights, 1)
    ensures forall h, k :: !Calls(snap, names, weights, policy, h, k)
  {
    var p := ParamsOf(policy);
    forall h, k ensures !Calls(snap, names, weights, policy, h, k) {
      if Calls(snap, names, weights, policy, h, k) {
        GapIsUnique(snap, names, p, g, h);
        SmallerFits(p, g, weights, k, 1);
      }
    }
  }

  lemma SmallerFits(p: Params, g: Gap, weights: seq<int>, k: int, m: int)
    requires Sane(p) && g.pressure >= p.minPressureDelta && g.from < |weights|
    requires WithinBounds(p, g, weights, k) && 1 <= m <= k
    ensures WithinBounds(p, g, weights, m)
  {
    SquareGrows(m as real, k as real);
  }

  method DecideStream(snap: Snapshot, stream: string, names: seq<string>, weights: seq<int>, policy: Policy)
    returns (r: Option<Plan>)
    requires Sane(ParamsOf(policy))
    ensures Decides(snap, stream, names, weights, policy, r)
  {
    if !policy.enabled {
      return None;
    }
    if |names| == 0 || |names| != |weights| {
      return None;
    }
    var p := ParamsOf(policy);
    var ps := Pressures(snap, names, p.epsRate);
    var maxIdx, minIdx, maxP, minP := FindExtremes(ps);
    if maxIdx < 0 || minIdx < 0 || maxIdx == minIdx {
      return None;
    }
    if maxP - minP < p.minPressureDelta {
      return None;
    }
    var g := Gap(maxIdx, minIdx, maxP - minP, snap[names[maxIdx]].workerCount, snap[names[minIdx]].workerCount);
    assert IsGap(snap, names, p, g);
    if weights[maxIdx] as real <= p.minWeight {
      NoCall(snap, names, weights, policy, g);
      return None;
    }
    var step := ComputeStep(p, g, weights);
    if step <= 0 {
      NoCall(snap, names, weights, policy, g);
      return None;
    }
    var newW := weights;
    newW := newW[maxIdx := newW[maxIdx] - step];
    newW := newW[minIdx := newW[minIdx] + step];
    r := Some(Plan(stream, weights, newW, names[maxIdx], names[minIdx], step));
    assert Calls(snap, names, weights, policy, g, step);
    assert r.value == PlanFor(stream, names, weights, g, step);
  }

  // ----- what decisions guarantee -----

  lemma MovedTotal(weights: seq<int>, a: nat, b: nat, k: int)
    requires a < |weights| && b < |weights| && a != b
    ensures Total(Moved(weights, a, b, k)) == Total(weights)
  {
    var f := (w: int) => w;
    SumUpdate(weights, a, weights[a] - k, f);
    SumUpdate(weights[a := weights[a] - k], b, weights[b] + k, f);
  }

  lemma LargestStep(p: Params, g: Gap, weights: seq<int>, k: int) returns (m: int)
    requires Sane(p) && g.pressure >= p.minPressureDelta && g.from < |weights|
    requires WithinBounds(p, g, weights, k)
    ensures IsStep(p, g, weights, m) && m >= k
  {
    m := k;
    while exists n :: n > m && WithinBounds(p, g, weights, n)
      invariant m >= k && WithinBounds(p, g, weights, m)
      decreases weights[g.from] - Trunc(p.minWeight) - m
    {
      var n :| n > m && WithinBounds(p, g, weights, n);
      m := n;
    }
  }
}
