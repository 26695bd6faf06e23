/** What the pressure-rebalance decision guarantees: conservation and floors of one plan,
    monotonicity in the pressure gap, and convergence of repeated plans. */
module RebalanceTheorems {
  import opened Sequences
  import opened Tasks
  import opened Divisors
  import opened RoutingTable
  import opened RoutingService
  import opened Rebalance

  // ----- one plan -----

  /** A plan keeps the total, takes at least one unit from the donor, and never takes it
      below the truncated minimum weight; no other weight falls. */
  lemma PlanKeepsTotalAndFloor(snap: Snapshot, stream: string, names: seq<string>, weights: seq<int>,
                               policy: Policy, plan: Plan)
    requires Sane(ParamsOf(policy)) && Decides(snap, stream, names, weights, policy, Some(plan))
    ensures plan.oldWeights == weights && |plan.newWeights| == |weights| && plan.stream == stream && plan.delta >= 1
    ensures Total(plan.newWeights) == Total(weights)
    ensures exists g: Gap ::
              && IsGap(snap, names, ParamsOf(policy), g) && g.from < |weights|
              && plan.newWeights[g.from] == weights[g.from] - plan.delta >= Trunc(ParamsOf(policy).minWeight)
              && forall i :: 0 <= i < |weights| && i != g.from ==> plan.newWeights[i] >= weights[i]
  {
    var g, k :| Calls(snap, names, weights, policy, g, k) && plan == PlanFor(stream, names, weights, g, k);
    MovedTotal(weights, g.from, g.to, k);
  }

  /** With a truncated minimum weight of at least 1, positive weights stay positive and no weight falls
      below the smaller of its old value and the truncated minimum. */
  lemma PlanKeepsFloors(snap: Snapshot, stream: string, names: seq<string>, weights: seq<int>,
                        policy: Policy, plan: Plan, minWeight: int)
    requires Sane(ParamsOf(policy)) && Decides(snap, stream, names, weights, policy, Some(plan))
    requires Trunc(ParamsOf(policy).minWeight) == minWeight >= 1 && Positive(weights)
    ensures |plan.newWeights| == |weights| && Positive(plan.newWeights)
    ensures forall i :: 0 <= i < |weights| ==>
              plan.newWeights[i] >= (if weights[i] < minWeight then weights[i] else minWeight)
  {
    PlanKeepsTotalAndFloor(snap, stream, names, weights, policy, plan);
  }

  /** The minimum weight is documented as a floor, but it is truncated before use.  The
      decision takes the donor below it exactly when the minimum is a positive non-integer
      and the step down to its integer part meets the three other bounds. */
  lemma FloorIsMissedExactly(snap: Snapshot, names: seq<string>, weights: seq<int>, policy: Policy, g: Gap)
    requires Sane(ParamsOf(policy)) && policy.enabled && |names| == |weights| && IsGap(snap, names, ParamsOf(policy), g)
    requires weights[g.from] as real > ParamsOf(policy).minWeight
    ensures var p := ParamsOf(policy);
            var spare := weights[g.from] - p.minWeight.Floor;
            (exists k :: Calls(snap, names, weights, policy, g, k)
                         && Moved(weights, g.from, g.to, k)[g.from] as real < p.minWeight) <==>
            && p.minWeight > 0.0 && p.minWeight.Floor as real != p.minWeight
            && FourBounds(StepSquare(p, g), p.maxStep, spare, ShareOf(p, Total(weights)), spare)
  {
    var p := ParamsOf(policy);
    var spare := weights[g.from] - p.minWeight.Floor;
    if p.minWeight > 0.0 && FourBounds(StepSquare(p, g), p.maxStep, spare, ShareOf(p, Total(weights)), spare) {
      SpareIsStep(p, g, weights);
      assert Calls(snap, names, weights, policy, g, spare);
    }
    if k :| Calls(snap, names, weights, policy, g, k) && Moved(weights, g.from, g.to, k)[g.from] as real < p.minWeight {
      UndercutTakesAll(p, g, weights, k);
    }
  }

  /** A step within the bounds that undercuts the minimum is all the integer part spares. */
  lemma UndercutTakesAll(p: Params, g: Gap, weights: seq<int>, k: int)
    requires Sane(p) && g.pressure >= p.minPressureDelta && g.from < |weights| && WithinBounds(p, g, weights, k)
    requires weights[g.from] as real > p.minWeight && (weights[g.from] - k) as real < p.minWeight
    ensures p.minWeight > 0.0 && p.minWeight.Floor as real != p.minWeight && k == weights[g.from] - p.minWeight.Floor
    ensures FourBounds(StepSquare(p, g), p.maxStep, k, ShareOf(p, Total(weights)), k)
  {
  }

  /** All there is to spare is the largest step, if it is within the bounds at all. */
  lemma SpareIsStep(p: Params, g: Gap, weights: seq<int>)
    requires Sane(p) && g.pressure >= p.minPressureDelta && g.from < |weights|
    requires WithinBounds(p, g, weights, weights[g.from] - Trunc(p.minWeight))
    ensures IsStep(p, g, weights, weights[g.from] - Trunc(p.minWeight))
  {
  }

  // ----- a sample -----

  /** The default policy but for the minimum weight. */
  function SamplePolicy(minWeight: real): (policy: Policy)
    ensures ParamsOf(policy) == Params(1.0, 2.0, 1.0, 5.0, minWeight, 0.2, 5.0)
  {
    assert "epsRate"[0] != "maxStep"[0] && "epsRate"[0] != "maxFrac"[0] && "maxStep"[3] != "maxFrac"[3];
    assert "baseStep"[0] != "paceRate"[0];
    Policy(true, "", 0, map["minWeight" := minWeight])
  }

  /** Pool "a" has ten tasks queued, pool "b" none. */
  lemma SampleGap(g: Gap) returns (snap: Snapshot)
    requires g == Gap(0, 1, 10.0, 1, 1)
    ensures forall m :: IsGap(snap, ["a", "b"], ParamsOf(SamplePolicy(m)), g)
  {
    snap := map["a" := PoolStat(10, 1, 1.0), "b" := PoolStat(0, 1, 1.0)];
    assert "a"[0] != "b"[0];
    assert Pressures(snap, ["a", "b"], 1.0) == [Some(10.0), Some(0.0)];
  }

  lemma TotalOfTwo(weights: seq<int>)
    requires |weights| == 2
    ensures Total(weights) == weights[0] + weights[1]
  {
    assert weights[..1][..0] == [];
    assert Total(weights) == Total(weights[..1]) + weights[1];
    assert Total(weights[..1]) == Total(weights[..1][..0]) + weights[0];
  }

  /** With one unit to spare and less than ten in all, the sample moves 1. */
  lemma SamplePlan(weights: seq<int>, minWeight: real) returns (snap: Snapshot, plan: Plan)
    requires |weights| == 2 && weights[0] + weights[1] <= 9
    requires weights[0] - Trunc(minWeight) == 1 && weights[0] as real > minWeight
    ensures Decides(snap, "s", ["a", "b"], weights, SamplePolicy(minWeight), Some(plan))
    ensures plan.newWeights == [weights[0] - 1, weights[1] + 1]
  {
    var g, policy := Gap(0, 1, 10.0, 1, 1), SamplePolicy(minWeight);
    snap := SampleGap(g);
    TotalOfTwo(weights);
    assert StepSquare(ParamsOf(policy), g) == 4.0;
    assert IsStep(ParamsOf(policy), g, weights, 1);
    assert Calls(snap, ["a", "b"], weights, policy, g, 1);
    plan := PlanFor("s", ["a", "b"], weights, g, 1);
  }

  /** A positive weight that the default policy with a minimum of 1.5 takes to 1. */
  lemma MissedFloor() returns (snap: Snapshot, weights: seq<int>, policy: Policy, plan: Plan)
    ensures Sane(ParamsOf(policy)) && Positive(weights) && Decides(snap, "s", ["a", "b"], weights, policy, Some(plan))
    ensures |plan.newWeights| == 2 && plan.newWeights[0] as real < ParamsOf(policy).minWeight < weights[0] as real
  {
    policy, weights := SamplePolicy(1.5), [2, 1];
    snap, plan := SamplePlan(weights, 1.5);
  }

  // ----- what a plan does to keyed routing -----

  lemma {:induction false} SumOfScaled(m: nat, vs: seq<nat>)
    ensures Sum(Scale(m, vs), Value) == Times(m, Sum(vs, Value))
  {
    if vs != [] {
      var k := |vs| - 1;
      SumOfScaled(m, vs[..k]);
      assert Scale(m, vs)[..k] == Scale(m, vs[..k]);
    }
  }

  /** The ring has one slot for each common divisor's worth of weight. */
  lemma RingLength(pools: seq<Option<string>>, ws: seq<int>, e: Entry)
    requires Positive(ws) && Builds(pools, ws, Ok(e))
    ensures ws != [] && GcdAll(ws) > 0 && |e.ring| > 0 && Times(GcdAll(ws), |e.ring|) == Total(ws)
  {
    var vs: seq<nat> := ws;
    BuiltFromPositive(pools, ws, e);
    ReducedTimesGcd(vs);
    ExpandLength(0, Reduced(vs));
    SumOfScaled(GcdAll(vs), Reduced(vs));
    TotalIsSum(vs);
    TableIsFaithful(pools, ws, e);
  }

  lemma {:induction false} TotalIsSum(vs: seq<nat>)
    ensures Total(vs) == Sum(vs, Value)
  {
    if vs != [] { TotalIsSum(vs[..|vs| - 1]); }
  }

  lemma SameProduct(g: int, x: int, h: int, y: int)
    requires g > 0 && h > 0 && x > 0 && y > 0 && Times(g, x) == Times(h, y)
    ensures x == y <==> g == h
  {
    assert x == y ==> (g - h) * x == 0;
    assert g == h ==> g * (x - y) == 0;
  }

  lemma MoreTimes(q: int, m: nat, n: nat)
    requires m <= n && q >= 0
    ensures Times(q, m) <= Times(q, n)
  {
  }

  lemma MoveDisturbs(pools: seq<Option<string>>, ws: seq<nat>, ws': seq<nat>, a: nat, b: nat, k: nat,
                     e: Entry, e': Entry, hash: Key -> nat)
    requires EvenMove(ws, ws', a, b, k) && RingFor(pools, ws, e) && RingFor(pools, ws', e') && e.ring != []
    ensures GcdAll(ws) > 0 && Disturbs(e, e', hash, Times(Quotient(k, GcdAll(ws)), |ws| - 1))
  {
    RingsDiffer(ws, ws', a, b, k);
    assert e'.targets == e.targets;
    RingsAnswer(e, e', hash);
    MoreTimes(Quotient(k, GcdAll(ws)), if a < b then b - a else a - b, |ws| - 1);
  }

  /** A plan leaves the ring length as it is exactly when it leaves the common divisor of
      the weights as it is; then it relabels at most delta/g slots for each position of the
      pool list (the bound of `StickinessLossIsBounded`), and every other key stays put. */
  lemma PlanDisturbsFewKeys(snap: Snapshot, stream: string, names: seq<string>, weights: seq<int>, policy: Policy,
                            plan: Plan, pools: seq<Option<string>>, e: Entry, e': Entry, hash: Key -> nat)
    requires Sane(ParamsOf(policy)) && Decides(snap, stream, names, weights, policy, Some(plan))
    requires Positive(weights) && Positive(plan.newWeights)
    requires Builds(pools, weights, Ok(e)) && Builds(pools, plan.newWeights, Ok(e'))
    ensures |e'.ring| == |e.ring| <==> GcdAll(weights) == GcdAll(plan.newWeights)
    ensures GcdAll(weights) == GcdAll(plan.newWeights) ==>
              GcdAll(weights) > 0 && plan.delta >= 0
              && Disturbs(e, e', hash, Times(Quotient(plan.delta, GcdAll(weights)), |weights| - 1))
  {
    PlanKeepsTotalAndFloor(snap, stream, names, weights, policy, plan);
    RingLength(pools, weights, e);
    RingLength(pools, plan.newWeights, e');
    SameProduct(GcdAll(weights), |e.ring|, GcdAll(plan.newWeights), |e'.ring|);
    if GcdAll(weights) == GcdAll(plan.newWeights) {
      var g, k :| Calls(snap, names, weights, policy, g, k) && plan == PlanFor(stream, names, weights, g, k);
      BuiltFromPositive(pools, weights, e);
      BuiltFromPositive(pools, plan.newWeights, e');
      MoveDisturbs(pools, weights, plan.newWeights, g.from, g.to, k, e, e', hash);
    }
  }

  // ----- monotonicity -----

  lemma CandidateGrows(p: Params, g: Gap, h: Gap)
    requires Sane(p) && p.minPressureDelta <= g.pressure <= h.pressure
    requires g.fromWorkers == h.fromWorkers && g.toWorkers == h.toWorkers
    ensures StepSquare(p, g) <= StepSquare(p, h)
  {
    MultipleGrows(g.pressure - p.minPressureDelta, h.pressure - p.minPressureDelta, p.paceRate);
    ScaledGrows(Multiple(g.pressure - p.minPressureDelta, p.paceRate),
                Multiple(h.pressure - p.minPressureDelta, p.paceRate), p.baseStep, WorkerShare(g));
  }

  lemma MultipleGrows(a: real, b: real, rate: real)
    requires 0.0 <= a <= b && rate > 0.0
    ensures Multiple(a, rate) <= Multiple(b, rate)
  {
    assert 0.0 <= a / rate <= b / rate;
  }

  lemma ScaledGrows(m: int, n: int, baseStep: real, share: real)
    requires 1 <= m <= n && baseStep >= 0.0 && share >= 0.0
    ensures Scaled(m, baseStep, share) <= Scaled(n, baseStep, share)
  {
    ProductGrows(m as real, n as real, baseStep);
    SquareGrows(m as real * baseStep, n as real * baseStep);
    ProductGrows(Square(m as real * baseStep), Square(n as real * baseStep), share);
  }

  lemma ProductGrows(a: real, b: real, c: real)
    requires 0.0 <= a <= b && 0.0 <= c
    ensures 0.0 <= a * c <= b * c
  {
  }

  /** Same pools, workers, weights and parameters: a larger pressure gap still yields a
      plan, and never one with a smaller step. */
  lemma LargerGapNeverMovesLess(snap: Snapshot, snap': Snapshot, names: seq<string>, weights: seq<int>,
                                policy: Policy, g: Gap, h: Gap, k: int)
    requires Sane(ParamsOf(policy)) && Calls(snap, names, weights, policy, g, k)
    requires IsGap(snap', names, ParamsOf(policy), h)
    requires h == g.(pressure := h.pressure) && g.pressure <= h.pressure
    ensures exists m :: m >= k && Calls(snap', names, weights, policy, h, m)
    ensures forall m :: Calls(snap', names, weights, policy, h, m) ==> m >= k
  {
    var p := ParamsOf(policy);
    CandidateGrows(p, g, h);
    assert WithinBounds(p, h, weights, k);
    var m := LargestStep(p, h, weights, k);
    assert Calls(snap', names, weights, policy, h, m);
    forall n | Calls(snap', names, weights, policy, h, n) ensures n >= k {
      CallIsUnique(snap', names, weights, policy, h, m, h, n);
    }
  }

  // ----- convergence -----

  /** From `w`, `n` rounds of `next` lead to `last`, where `next` stops. */
  ghost predicate Chain(next: (seq<int>, Option<seq<int>>) -> bool, w: seq<int>, n: nat, last: seq<int>)
    decreases n
  {
    if n == 0 then next(w, None) && last == w
    else exists w' :: next(w, Some(w')) && Chain(next, w', n - 1, last)
  }

  lemma {:induction false} ChainIsUnique(next: (seq<int>, Option<seq<int>>) -> bool, w: seq<int>,
                                         n: nat, last: seq<int>, n': nat, last': seq<int>)
    requires forall w, r, r' :: next(w, r) && next(w, r') ==> r == r'
    requires Chain(next, w, n, last) && Chain(next, w, n', last')
    ensures n == n' && last == last'
    decreases n
  {
    if n > 0 && n' > 0 {
      var u :| next(w, Some(u)) && Chain(next, u, n - 1, last);
      var u' :| next(w, Some(u')) && Chain(next, u', n' - 1, last');
      assert Some(u) == Some(u');
      ChainIsUnique(next, u, n - 1, last, n' - 1, last');
    }
  }

  /** What deciding on weights `w` leads to: a refusal, or the plan's new weights. */
  ghost function Outcomes(snap: Snapshot, stream: string, names: seq<string>, policy: Policy)
    : (seq<int>, Option<seq<int>>) -> bool
    requires Sane(ParamsOf(policy))
  {
    (w: seq<int>, r: Option<seq<int>>) =>
      match r
      case None => Decides(snap, stream, names, w, policy, None)
      case Some(w') => exists plan :: Decides(snap, stream, names, w, policy, Some(plan)) && plan.newWeights == w'
  }

  /** Repeating decide-then-apply on the same snapshot takes `n` plans, then refuses, and
      leaves the weights at `last`. */
  ghost predicate TakesPlans(snap: Snapshot, stream: string, names: seq<string>, weights: seq<int>,
                             policy: Policy, n: nat, last: seq<int>)
    requires Sane(ParamsOf(policy))
  {
    Chain(Outcomes(snap, stream, names, policy), weights, n, last)
  }

  lemma OutcomesAreUnique(snap: Snapshot, stream: string, names: seq<string>, policy: Policy,
                          w: seq<int>, r: Option<seq<int>>, r': Option<seq<int>>)
    requires Sane(ParamsOf(policy))
    requires Outcomes(snap, stream, names, policy)(w, r) && Outcomes(snap, stream, names, policy)(w, r')
    ensures r == r'
  {
    var p := PlanBehind(snap, stream, names, policy, w, r);
    var p' := PlanBehind(snap, stream, names, policy, w, r');
    DecisionIsUnique(snap, stream, names, w, policy, p, p');
  }

  lemma PlanBehind(snap: Snapshot, stream: string, names: seq<string>, policy: Policy,
                   w: seq<int>, r: Option<seq<int>>) returns (p: Option<Plan>)
    requires Sane(ParamsOf(policy)) && Outcomes(snap, stream, names, policy)(w, r)
    ensures Decides(snap, stream, names, w, policy, p)
    ensures r == if p.Some? then Some(p.value.newWeights) else None
  {
    if r.None? {
      p := None;
    } else {
      var plan :| Decides(snap, stream, names, w, policy, Some(plan)) && plan.newWeights == r.value;
      p := Some(plan);
    }
  }

  /** The largest step that the bounds other than the donor's spare weight allow. */
  ghost predicate IsPace(p: Params, g: Gap, total: int, d: int)
    requires Sane(p) && g.pressure >= p.minPressureDelta
  {
    && d >= 1
    && FourBounds(StepSquare(p, g), p.maxStep, d, ShareOf(p, total), d)
    && forall k :: k > d ==> !FourBounds(StepSquare(p, g), p.maxStep, k, ShareOf(p, total), k)
  }

  lemma StepIsPaceOrSpare(p: Params, g: Gap, weights: seq<int>, d: int, minWeight: int)
    requires Sane(p) && g.pressure >= p.minPressureDelta && g.from < |weights|
    requires IsPace(p, g, Total(weights), d) && Trunc(p.minWeight) == minWeight < weights[g.from]
    ensures IsStep(p, g, weights, if weights[g.from] - minWeight < d then weights[g.from] - minWeight else d)
  {
    var spare := weights[g.from] - minWeight;
    var k := if spare < d then spare else d;
    SquareGrows(k as real, d as real);
    assert WithinBounds(p, g, weights, k);
    forall m ensures m > k ==> !WithinBounds(p, g, weights, m) {
      if WithinBounds(p, g, weights, m) {
        NotBeyondPace(p, g, weights, d, m);
      }
    }
  }

  lemma NotBeyondPace(p: Params, g: Gap, weights: seq<int>, d: int, m: int)
    requires Sane(p) && g.pressure >= p.minPressureDelta && g.from < |weights|
    requires IsPace(p, g, Total(weights), d) && WithinBounds(p, g, weights, m)
    ensures m <= d && m <= weights[g.from] - Trunc(p.minWeight)
  {
    assert FourBounds(StepSquare(p, g), p.maxStep, m, ShareOf(p, Total(weights)), m);
  }

  /** What stays the same while a donor is being drained. */
  ghost predicate Draining(snap: Snapshot, names: seq<string>, weights: seq<int>, policy: Policy,
                           g: Gap, d: int, minWeight: int)
    requires Sane(ParamsOf(policy))
  {
    var p := ParamsOf(policy);
    && policy.enabled && |names| == |weights| && IsGap(snap, names, p, g)
    && Trunc(p.minWeight) == minWeight <= weights[g.from]
    && IsPace(p, g, Total(weights), d)
  }

  /** One round with weight to spare: the pace, or what is left. */
  ghost function Round(weights: seq<int>, g: Gap, d: int, minWeight: int): (r: seq<int>)
    requires g.from < |weights| && g.to < |weights| && g.from != g.to
    ensures |r| == |weights|
  {
    var spare := weights[g.from] - minWeight;
    Moved(weights, g.from, g.to, if spare < d then spare else d)
  }

  lemma DrainedRefuses(snap: Snapshot, stream: string, names: seq<string>, weights: seq<int>, policy: Policy,
                       g: Gap, d: int, minWeight: int)
    requires Sane(ParamsOf(policy)) && Draining(snap, names, weights, policy, g, d, minWeight)
    requires weights[g.from] == minWeight
    ensures Outcomes(snap, stream, names, policy)(weights, None)
  {
    NoCall(snap, names, weights, policy, g);
  }

  lemma DrainedOnce(snap: Snapshot, stream: string, names: seq<string>, weights: seq<int>, policy: Policy,
                    g: Gap, d: int, minWeight: int)
    requires Sane(ParamsOf(policy)) && Draining(snap, names, weights, policy, g, d, minWeight)
    requires weights[g.from] > minWeight
    ensures Outcomes(snap, stream, names, policy)(weights, Some(Round(weights, g, d, minWeight)))
  {
    var spare := weights[g.from] - minWeight;
    var k := if spare < d then spare else d;
    StepIsPaceOrSpare(ParamsOf(policy), g, weights, d, minWeight);
    assert Calls(snap, names, weights, policy, g, k);
    var plan := PlanFor(stream, names, weights, g, k);
    assert Decides(snap, stream, names, weights, policy, Some(plan))
           && plan.newWeights == Round(weights, g, d, minWeight);
  }

  lemma RoundKeepsDraining(snap: Snapshot, names: seq<string>, weights: seq<int>, policy: Policy,
                           g: Gap, d: int, minWeight: int)
    requires Sane(ParamsOf(policy)) && Draining(snap, names, weights, policy, g, d, minWeight)
    ensures Draining(snap, names, Round(weights, g, d, minWeight), policy, g, d, minWeight)
  {
    var spare := weights[g.from] - minWeight;
    MovedTotal(weights, g.from, g.to, if spare < d then spare else d);
  }

  /** One round, then all the rest, is all at once. */
  lemma RoundThenRest(w: seq<int>, g: Gap, d: int, minWeight: int)
    requires g.from < |w| && g.to < |w| && g.from != g.to && d >= 1
    ensures var u := Round(w, g, d, minWeight);
            && u[g.from] - minWeight
                == w[g.from] - minWeight - (if w[g.from] - minWeight < d then w[g.from] - minWeight else d)
            && Moved(u, g.from, g.to, u[g.from] - minWeight) == Moved(w, g.from, g.to, w[g.from] - minWeight)
  {
  }

  /** Draining weights either have nothing to spare and are refused, or go on to a round
      that leaves them draining. */
  ghost predicate GoesOn(next: (seq<int>, Option<seq<int>>) -> bool, draining: seq<int> -> bool,
                         g: Gap, d: int, minWeight: int, u: seq<int>) {
    draining(u) ==>
      && g.from < |u| && g.to < |u| && g.from != g.to && u[g.from] >= minWeight
      && (u[g.from] == minWeight ==> next(u, None))
      && (u[g.from] > minWeight ==>
            next(u, Some(Round(u, g, d, minWeight))) && draining(Round(u, g, d, minWeight)))
  }

  /** The rounds alone: `draining` weights go on until the donor has nothing to spare. */
  lemma {:induction false} Rounds(next: (seq<int>, Option<seq<int>>) -> bool, draining: seq<int> -> bool,
                                  g: Gap, d: int, minWeight: int, w: seq<int>, n: nat)
    requires forall u :: GoesOn(next, draining, g, d, minWeight, u)
    requires d >= 1 && draining(w) && g.from < |w| && g.to < |w| && g.from != g.to
    requires Times(n - 1, d) < w[g.from] - minWeight <= Times(n, d)
    ensures Chain(next, w, n, Moved(w, g.from, g.to, w[g.from] - minWeight))
    decreases n
  {
    var spare := w[g.from] - minWeight;
    assert GoesOn(next, draining, g, d, minWeight, w);
    if n == 0 {
      assert Moved(w, g.from, g.to, 0) == w;
    } else {
      OneStepLess(n, d, spare);
      RoundThenRest(w, g, d, minWeight);
      Rounds(next, draining, g, d, minWeight, Round(w, g, d, minWeight), n - 1);
    }
  }

  lemma OneStepLess(n: nat, d: int, spare: int)
    requires n >= 1 && d >= 1 && Times(n - 1, d) < spare <= Times(n, d)
    ensures spare > 0
    ensures var rest := spare - (if spare < d then spare else d);
            Times(n - 1 - 1, d) < rest <= Times(n - 1, d)
  {
    assert Times(n, d) == Times(n - 1, d) + d;
    assert Times(n - 1, d) == Times(n - 2, d) + d;
    if n >= 2 {
      assert Times(n - 1, d) >= d by { TimesGrows(n - 1, d); }
    }
  }

  ghost function CeilDiv(x: nat, d: nat): nat
    requires d > 0
  {
    (x + d - 1) / d
  }

  lemma CeilDivBounds(x: nat, d: nat)
    requires d > 0
    ensures Times(CeilDiv(x, d) - 1, d) < x <= Times(CeilDiv(x, d), d)
  {
    var n: int := CeilDiv(x, d);
    DivMod(x + d - 1, d);
    assert Times(n, d) == Times(n - 1, d) + d;
  }

  lemma DrainsInRounds(snap: Snapshot, stream: string, names: seq<string>, weights: seq<int>, policy: Policy,
                       g: Gap, d: int, minWeight: int, n: nat)
    requires Sane(ParamsOf(policy)) && Draining(snap, names, weights, policy, g, d, minWeight)
    requires Times(n - 1, d) < weights[g.from] - minWeight <= Times(n, d)
    ensures TakesPlans(snap, stream, names, weights, policy, n,
                       Moved(weights, g.from, g.to, weights[g.from] - minWeight))
  {
    var next := Outcomes(snap, stream, names, policy);
    var draining := (u: seq<int>) => Draining(snap, names, u, policy, g, d, minWeight);
    forall u ensures GoesOn(next, draining, g, d, minWeight, u) {
      if draining(u) {
        if u[g.from] == minWeight {
          DrainedRefuses(snap, stream, names, u, policy, g, d, minWeight);
        } else {
          DrainedOnce(snap, stream, names, u, policy, g, d, minWeight);
          RoundKeepsDraining(snap, names, u, policy, g, d, minWeight);
        }
      }
    }
    Rounds(next, draining, g, d, minWeight, weights, n);
  }

  lemma PlansAreUnique(snap: Snapshot, stream: string, names: seq<string>, weights: seq<int>, policy: Policy,
                       n: nat, last: seq<int>, n': nat, last': seq<int>)
    requires Sane(ParamsOf(policy))
    requires TakesPlans(snap, stream, names, weights, policy, n, last)
    requires TakesPlans(snap, stream, names, weights, policy, n', last')
    ensures n == n' && last == last'
  {
    var next := Outcomes(snap, stream, names, policy);
    forall w, r, r' | next(w, r) && next(w, r') ensures r == r' {
      OutcomesAreUnique(snap, stream, names, policy, w, r, r');
    }
    ChainIsUnique(next, weights, n, last, n', last');
  }

  /** Convergence with an exact count: on a fixed snapshot with an eligible gap, a truncated
      minimum weight `minWeight` and a pace of `d`, repeated plans number exactly
      ceil((w - minWeight) / d), after which the strategy refuses, with the donor exactly
      at `minWeight` and everything it gave up at the receiver. */
  lemma ConvergesExactly(snap: Snapshot, stream: string, names: seq<string>, weights: seq<int>, policy: Policy,
                         g: Gap, d: int, minWeight: int)
    requires Sane(ParamsOf(policy)) && Draining(snap, names, weights, policy, g, d, minWeight)
    ensures forall n: nat, last ::
              TakesPlans(snap, stream, names, weights, policy, n, last) <==>
              && n == CeilDiv(weights[g.from] - minWeight, d)
              && last == Moved(weights, g.from, g.to, weights[g.from] - minWeight)
  {
    var n := CeilDiv(weights[g.from] - minWeight, d);
    var last := Moved(weights, g.from, g.to, weights[g.from] - minWeight);
    CeilDivBounds(weights[g.from] - minWeight, d);
    DrainsInRounds(snap, stream, names, weights, policy, g, d, minWeight, n);
    forall n': nat, last' | TakesPlans(snap, stream, names, weights, policy, n', last')
      ensures n' == n && last' == last
    {
      PlansAreUnique(snap, stream, names, weights, policy, n, last, n', last');
    }
  }

  /** So on a fixed snapshot a donor that starts above the documented floor ends below it
      exactly when the floor is a positive non-integer. */
  lemma DrainsBelowFloorExactly(snap: Snapshot, stream: string, names: seq<string>, weights: seq<int>, policy: Policy,
                                g: Gap, d: int, n: nat, last: seq<int>)
    requires Sane(ParamsOf(policy))
    requires Draining(snap, names, weights, policy, g, d, Trunc(ParamsOf(policy).minWeight))
    requires TakesPlans(snap, stream, names, weights, policy, n, last)
    ensures var m := ParamsOf(policy).minWeight;
            && g.from < |last| && last[g.from] == Trunc(m)
            && (last[g.from] as real < m <==> m > 0.0 && m.Floor as real != m)
  {
    ConvergesExactly(snap, stream, names, weights, policy, g, d, Trunc(ParamsOf(policy).minWeight));
  }
}
