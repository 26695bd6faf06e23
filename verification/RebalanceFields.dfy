/** The rebalancing decision said of the fields of the snapshot and the policy alone
    (pkg/scheduler/strategy_pressure_rebalance.go, pkg/scheduler/types.go). */
module RebalanceFields {
  import opened Sequences
  import opened RoutingTable
  import opened RoutingService
  import opened Rebalance
  import opened RebalanceTheorems

  // ----- pressure -----

  /** Pressure times rate is the queue depth, where a rate below `eps` counts as `eps`. */
  lemma PressureInFields(s: PoolStat, eps: real)
    requires eps > 0.0
    ensures Pressure(s, eps) * (if s.ratePerSecond < eps then eps else s.ratePerSecond) == s.queueDepth as real
    ensures Pressure(s, eps) >= 0.0
  {
  }

  /** Truncation drops the fraction, towards zero. */
  lemma TruncTowardsZero(x: real)
    ensures x >= 0.0 ==> 0.0 <= Trunc(x) as real <= x < Trunc(x) as real + 1.0
    ensures x <= 0.0 ==> Trunc(x) as real - 1.0 < x <= Trunc(x) as real <= 0.0
  {
  }

  // ----- donor and receiver -----

  lemma {:induction false} SomeMax(ps: seq<Option<real>>) returns (i: nat)
    requires exists j :: 0 <= j < |ps| && ps[j].Some?
    ensures FirstMax(ps, i)
    decreases |ps|
  {
    var k := |ps| - 1;
    if exists j :: 0 <= j < k && ps[..k][j].Some? {
      var j := SomeMax(ps[..k]);
      assert ps[..k][j] == ps[j];
      i := if ps[k].Some? && ps[k].value > ps[j].value then k else j;
      assert forall m :: 0 <= m < k ==> ps[..k][m] == ps[m];
    } else {
      assert forall m :: 0 <= m < k ==> ps[..k][m] == ps[m];
      i := k;
    }
  }

  lemma {:induction false} SomeMin(ps: seq<Option<real>>) returns (i: nat)
    requires exists j :: 0 <= j < |ps| && ps[j].Some? && ps[j].value < 1000000000000000000.0
    ensures FirstMin(ps, i)
    decreases |ps|
  {
    var k := |ps| - 1;
    if exists j :: 0 <= j < k && ps[..k][j].Some? && ps[..k][j].value < 1000000000000000000.0 {
      var j := SomeMin(ps[..k]);
      assert ps[..k][j] == ps[j];
      i := if ps[k].Some? && ps[k].value < ps[j].value then k else j;
      assert forall m :: 0 <= m < k ==> ps[..k][m] == ps[m];
    } else {
      assert forall m :: 0 <= m < k ==> ps[..k][m] == ps[m];
      i := k;
    }
  }

  /** There is a donor exactly when some pool is sampled, and a receiver exactly when some
      sampled pool has a pressure below 1e18. */
  lemma DonorAndReceiverExist(ps: seq<Option<real>>)
    ensures (exists i :: FirstMax(ps, i)) <==> exists i :: 0 <= i < |ps| && ps[i].Some?
    ensures (exists i :: FirstMin(ps, i)) <==>
            exists i :: 0 <= i < |ps| && ps[i].Some? && ps[i].value < 1000000000000000000.0
  {
    if exists i :: 0 <= i < |ps| && ps[i].Some? { var i := SomeMax(ps); }
    if exists i :: 0 <= i < |ps| && ps[i].Some? && ps[i].value < 1000000000000000000.0 { var i := SomeMin(ps); }
  }

  // ----- the step -----

  /** How many base steps the candidate is made of: one, and one more for each full
      `paceRate` of pressure above the threshold. */
  ghost predicate IsMultiple(p: Params, pressureGap: real, m: int) {
    var excess := pressureGap - p.minPressureDelta;
    m >= 1 && (m - 1) as real * p.paceRate <= excess < m as real * p.paceRate
  }

  /** Whether a step of `k` is allowed: its square, times the donor's workers, is at most
      (m * baseStep)^2 times the receiver's; it is at most `maxStep`, at most what the donor
      has above the truncated minimum, and 1 or at most `maxFrac` of the total weight. */
  ghost predicate StepAllowed(p: Params, donor: PoolStat, receiver: PoolStat, m: int, donorWeight: int, total: int,
                              k: int) {
    && k >= 1
    && CandidateAllowed(m, p.baseStep, donor.workerCount, receiver.workerCount, k)
    && k as real <= p.maxStep
    && k <= donorWeight - Trunc(p.minWeight)
    && (k == 1 || k as real <= total as real * p.maxFrac)
  }

  ghost predicate CandidateAllowed(m: int, baseStep: real, donorWorkers: nat, receiverWorkers: nat, k: int) {
    (k * k) as real * (if donorWorkers < 1 then 1 else donorWorkers) as real
    <= m as real * baseStep * (m as real * baseStep) * receiverWorkers as real
  }

  lemma MultipleIs(excess: real, rate: real, m: int)
    requires excess >= 0.0 && rate > 0.0 && (m - 1) as real * rate <= excess < m as real * rate
    ensures Multiple(excess, rate) == m
  {
    QuotientOrder((m - 1) as real, excess, rate);
    QuotientOrder(m as real, excess, rate);
  }

  lemma QuotientOrder(a: real, x: real, rate: real)
    requires rate > 0.0
    ensures a * rate <= x <==> a <= x / rate
  {
    var q := x / rate;
    assert q * rate == x;
    FactorOrder(a, q, rate);
  }

  lemma FactorOrder(a: real, b: real, c: real)
    requires c > 0.0
    ensures a * c <= b * c <==> a <= b
  {
    assert (b - a) * c == b * c - a * c;
  }

  lemma ShareCleared(k2: real, square: real, workers: real, least: real)
    requires least > 0.0
    ensures k2 <= square * (workers / least) <==> k2 * least <= square * workers
  {
    var share := workers / least;
    assert share * least == workers;
    assert (square * share) * least == square * workers;
    FactorOrder(k2, square * share, least);
  }

  /** The candidate, without roots and quotients. */
  lemma CandidateInFields(p: Params, g: Gap, m: int, k: int)
    requires Sane(p) && g.pressure >= p.minPressureDelta && IsMultiple(p, g.pressure, m)
    ensures Square(k as real) <= StepSquare(p, g) <==>
            CandidateAllowed(m, p.baseStep, g.fromWorkers, g.toWorkers, k)
  {
    MultipleIs(g.pressure - p.minPressureDelta, p.paceRate, m);
    ShareCleared(Square(k as real), Square(m as real * p.baseStep), g.toWorkers as real,
                 MaxReal(1.0, g.fromWorkers as real));
    assert Square(k as real) == (k * k) as real;
  }

  lemma BoundsInFields(p: Params, g: Gap, weights: seq<int>, donor: PoolStat, receiver: PoolStat, m: int, k: int)
    requires Sane(p) && g.pressure >= p.minPressureDelta && IsMultiple(p, g.pressure, m) && g.from < |weights|
    requires g.fromWorkers == donor.workerCount && g.toWorkers == receiver.workerCount
    ensures WithinBounds(p, g, weights, k) <==>
            StepAllowed(p, donor, receiver, m, weights[g.from], Total(weights), k)
  {
    CandidateInFields(p, g, m, k);
    if k >= 1 { ShareBound(ShareOf(p, Total(weights)), k); }
  }

  lemma ShareBound(share: real, k: int)
    requires k >= 1
    ensures k as real <= MaxReal(1.0, share) <==> k == 1 || k as real <= share
  {
  }

  /** Pool `i` is the first of the sampled pools under most pressure, pool `j` the first under
      least, and that is below 1e18. */
  ghost predicate DonorAndReceiver(snap: Snapshot, names: seq<string>, p: Params, i: nat, j: nat)
    requires p.epsRate > 0.0
  {
    && i < |names| && j < |names| && i != j && names[i] in snap && names[j] in snap
    && Pressure(snap[names[j]], p.epsRate) < 1000000000000000000.0
    && forall n :: 0 <= n < |names| && names[n] in snap ==>
         var x := Pressure(snap[names[n]], p.epsRate);
         && Pressure(snap[names[j]], p.epsRate) <= x <= Pressure(snap[names[i]], p.epsRate)
         && (n < i ==> x < Pressure(snap[names[i]], p.epsRate))
         && (n < j ==> x > Pressure(snap[names[j]], p.epsRate))
  }

  lemma PairInFields(snap: Snapshot, names: seq<string>, p: Params, i: nat, j: nat)
    requires p.epsRate > 0.0
    ensures DonorAndReceiver(snap, names, p, i, j) <==>
            i != j && FirstMax(Pressures(snap, names, p.epsRate), i) && FirstMin(Pressures(snap, names, p.epsRate), j)
  {
    var ps := Pressures(snap, names, p.epsRate);
    assert forall n :: 0 <= n < |names| ==> ps[n] == PressureAt(snap, names[n], p.epsRate);
  }

  /** The decision in full: with donor `i`, receiver `j` and the multiple `m` there is a plan
      exactly when the policy is enabled, the pressures are far enough apart, the donor is
      above the minimum and a step of 1 is allowed; and then it moves the largest allowed
      step from `i` to `j` and says so. */
  lemma DecisionInFields(snap: Snapshot, stream: string, names: seq<string>, weights: seq<int>, policy: Policy,
                         i: nat, j: nat, m: int, r: Option<Plan>)
    requires Sane(ParamsOf(policy)) && |names| == |weights| && DonorAndReceiver(snap, names, ParamsOf(policy), i, j)
    requires Decides(snap, stream, names, weights, policy, r)
    requires var p := ParamsOf(policy);
             var gap := Pressure(snap[names[i]], p.epsRate) - Pressure(snap[names[j]], p.epsRate);
             gap >= p.minPressureDelta ==> IsMultiple(p, gap, m)
    ensures var p, donor, receiver := ParamsOf(policy), snap[names[i]], snap[names[j]];
            && (r.Some? <==>
                  && policy.enabled
                  && Pressure(donor, p.epsRate) - Pressure(receiver, p.epsRate) >= p.minPressureDelta
                  && weights[i] as real > p.minWeight
                  && StepAllowed(p, donor, receiver, m, weights[i], Total(weights), 1))
            && (r.Some? ==>
                  var k := r.value.delta;
                  && (forall n :: StepAllowed(p, donor, receiver, m, weights[i], Total(weights), n) <==> 1 <= n <= k)
                  && r.value.newWeights == weights[i := weights[i] - k][j := weights[j] + k]
                  && r.value.oldWeights == weights && r.value.stream == stream
                  && r.value.fromPool == names[i] && r.value.toPool == names[j])
  {
    var p, donor, receiver := ParamsOf(policy), snap[names[i]], snap[names[j]];
    var gap := Pressure(donor, p.epsRate) - Pressure(receiver, p.epsRate);
    var g := Gap(i, j, gap, donor.workerCount, receiver.workerCount);
    PairInFields(snap, names, p, i, j);
    if gap >= p.minPressureDelta {
      assert IsGap(snap, names, p, g);
      forall n
        ensures WithinBounds(p, g, weights, n) <==> StepAllowed(p, donor, receiver, m, weights[i], Total(weights), n)
      {
        BoundsInFields(p, g, weights, donor, receiver, m, n);
      }
      PlanForGap(snap, stream, names, weights, policy, g, r);
    } else {
      NoGapNoPlan(snap, stream, names, weights, policy, g, r);
    }
  }

  /** With a gap there is a plan exactly when a step of 1 is within the bounds and the donor
      is above the minimum. */
  lemma PlanForGap(snap: Snapshot, stream: string, names: seq<string>, weights: seq<int>, policy: Policy,
                   g: Gap, r: Option<Plan>)
    requires Sane(ParamsOf(policy)) && |names| == |weights| && IsGap(snap, names, ParamsOf(policy), g)
    requires Decides(snap, stream, names, weights, policy, r)
    ensures r.Some? <==> policy.enabled && weights[g.from] as real > ParamsOf(policy).minWeight
                         && WithinBounds(ParamsOf(policy), g, weights, 1)
    ensures r.Some? ==>
              && (forall n :: WithinBounds(ParamsOf(policy), g, weights, n) <==> 1 <= n <= r.value.delta)
              && r.value == PlanFor(stream, names, weights, g, r.value.delta)
  {
    var p := ParamsOf(policy);
    if r.Some? {
      var h, k :| Calls(snap, names, weights, policy, h, k) && r.value == PlanFor(stream, names, weights, h, k);
      GapIsUnique(snap, names, p, g, h);
      forall n | 1 <= n <= k ensures WithinBounds(p, g, weights, n) { SmallerFits(p, g, weights, k, n); }
    } else if policy.enabled && weights[g.from] as real > p.minWeight && WithinBounds(p, g, weights, 1) {
      var k := LargestStep(p, g, weights, 1);
      assert Calls(snap, names, weights, policy, g, k);
    }
  }

  lemma NoGapNoPlan(snap: Snapshot, stream: string, names: seq<string>, weights: seq<int>, policy: Policy,
                    g: Gap, r: Option<Plan>)
    requires Sane(ParamsOf(policy)) && Decides(snap, stream, names, weights, policy, r)
    requires FirstMax(Pressures(snap, names, ParamsOf(policy).epsRate), g.from)
    requires FirstMin(Pressures(snap, names, ParamsOf(policy).epsRate), g.to)
    requires var ps := Pressures(snap, names, ParamsOf(policy).epsRate);
             ps[g.from].value - ps[g.to].value < ParamsOf(policy).minPressureDelta
    ensures r.None?
  {
  }

  /** No two pools sampled apart in pressure, or lists that do not fit: no plan. */
  lemma NoPairNoPlan(snap: Snapshot, stream: string, names: seq<string>, weights: seq<int>, policy: Policy,
                     r: Option<Plan>)
    requires Sane(ParamsOf(policy)) && Decides(snap, stream, names, weights, policy, r)
    requires |names| != |weights| || forall i, j :: !DonorAndReceiver(snap, names, ParamsOf(policy), i, j)
    ensures r.None?
  {
    if r.Some? {
      var h, k :| Calls(snap, names, weights, policy, h, k) && r.value == PlanFor(stream, names, weights, h, k);
      PairInFields(snap, names, ParamsOf(policy), h.from, h.to);
    }
  }

  // ----- more workers -----

  lemma SquareKeeps(p: Params, g: Gap, h: Gap)
    requires Sane(p) && g.pressure >= p.minPressureDelta && h.pressure == g.pressure
    requires h.fromWorkers <= g.fromWorkers && g.toWorkers <= h.toWorkers
    ensures StepSquare(p, g) <= StepSquare(p, h)
  {
    ShareGrows(g, h);
    ScaledKeeps(Multiple(g.pressure - p.minPressureDelta, p.paceRate), p.baseStep, WorkerShare(g), WorkerShare(h));
  }

  lemma ScaledKeeps(m: int, baseStep: real, share: real, share': real)
    requires m >= 1 && baseStep >= 0.0 && 0.0 <= share <= share'
    ensures Scaled(m, baseStep, share) <= Scaled(m, baseStep, share')
  {
    SquareGrows(0.0, m as real * baseStep);
    ProductGrows(share, share', Square(m as real * baseStep));
  }

  lemma ShareGrows(g: Gap, h: Gap)
    requires h.fromWorkers <= g.fromWorkers && g.toWorkers <= h.toWorkers
    ensures 0.0 <= WorkerShare(g) <= WorkerShare(h)
  {
    var a, b := MaxReal(1.0, g.fromWorkers as real), MaxReal(1.0, h.fromWorkers as real);
    QuotientFalls(g.toWorkers as real, h.toWorkers as real, a, b);
  }

  lemma QuotientFalls(x: real, y: real, a: real, b: real)
    requires 0.0 <= x <= y && 0.0 < b <= a
    ensures x / a <= y / b
  {
    var q, r := x / a, y / b;
    assert q * a == x && r * b == y && r >= 0.0;
    assert r * b <= r * a by { assert r * (a - b) >= 0.0; }
    FactorOrder(q, r, a);
  }

  /** More workers at the receiver, or fewer at the donor, with all else the same, still
      yield a plan, and never one with a smaller step. */
  lemma BetterWorkersNeverMoveLess(snap: Snapshot, snap': Snapshot, names: seq<string>, weights: seq<int>,
                                   policy: Policy, g: Gap, h: Gap, k: int)
    requires Sane(ParamsOf(policy)) && Calls(snap, names, weights, policy, g, k)
    requires IsGap(snap', names, ParamsOf(policy), h)
    requires h == g.(fromWorkers := h.fromWorkers, toWorkers := h.toWorkers)
    requires h.fromWorkers <= g.fromWorkers && g.toWorkers <= h.toWorkers
    ensures exists m :: m >= k && Calls(snap', names, weights, policy, h, m)
    ensures forall m :: Calls(snap', names, weights, policy, h, m) ==> m >= k
  {
    var p := ParamsOf(policy);
    SquareKeeps(p, g, h);
    assert WithinBounds(p, h, weights, k);
    var m := LargestStep(p, h, weights, k);
    assert Calls(snap', names, weights, policy, h, m);
    forall n | Calls(snap', names, weights, policy, h, n) ensures n >= k {
      CallIsUnique(snap', names, weights, policy, h, m, h, n);
    }
  }

  /** The default policy on two pools of weight 20, the donor with one worker and ten tasks
      queued, the receiver with four workers and none: 4 units move. */
  lemma FourUnits() returns (snap: Snapshot, plan: Plan)
    ensures snap == map["a" := PoolStat(10, 1, 1.0), "b" := PoolStat(0, 4, 1.0)]
    ensures Decides(snap, "s", ["a", "b"], [20, 20], Policy(true, "", 0, map[]), Some(plan))
    ensures plan.newWeights == [16, 24] && plan.fromPool == "a" && plan.toPool == "b"
  {
    var policy, g, weights := Policy(true, "", 0, map[]), Gap(0, 1, 10.0, 1, 4), [20, 20];
    snap := map["a" := PoolStat(10, 1, 1.0), "b" := PoolStat(0, 4, 1.0)];
    DefaultParams(policy);
    var p := ParamsOf(policy);
    assert "a"[0] != "b"[0];
    assert Pressures(snap, ["a", "b"], 1.0) == [Some(10.0), Some(0.0)];
    TotalOfTwo(weights);
    assert StepSquare(p, g) == 16.0;
    assert IsStep(p, g, weights, 4);
    assert Calls(snap, ["a", "b"], weights, policy, g, 4);
    plan := PlanFor("s", ["a", "b"], weights, g, 4);
  }

  lemma DefaultParams(policy: Policy)
    requires policy.params == map[]
    ensures ParamsOf(policy) == Params(1.0, 2.0, 1.0, 5.0, 1.0, 0.2, 5.0)
  {
    assert "epsRate"[0] != "maxStep"[0] && "epsRate"[0] != "maxFrac"[0] && "maxStep"[3] != "maxFrac"[3];
    assert "baseStep"[0] != "paceRate"[0];
  }
}
