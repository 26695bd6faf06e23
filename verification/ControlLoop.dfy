/** The rebalancing loop (pkg/scheduler/controller.go and applier_router.go) as a function of
    its inputs: samples, clock readings and the order in which a tick visits the streams.
    Per stream it keeps two copies of the weights, in the registry and in the router. */
module ControlLoop {
  import opened Sequences
  import opened RoutingTable
  import opened RoutingService
  import opened Rebalance
  import opened RebalanceTheorems

  datatype Binding = Binding(names: seq<string>, pools: seq<Option<string>>, weights: seq<int>)

  /** Policies are constant per stream; `cooldown` is the controller's default. */
  datatype Config = Config(policies: string -> Policy, cooldown: int)

  const STRATEGY := "pressure_rebalance"

  ghost predicate ValidConfig(c: Config) {
    c.cooldown > 0 && forall s :: Sane(ParamsOf(c.policies(s)))
  }

  /** Everything the loop knows of one stream. */
  datatype Slice = Slice(binding: Option<Binding>, route: Option<Entry>, lastApply: Option<int>)

  /** `applied` lists the successful applications with the clock reading that
      `markApplied` stored, `failures` counts failed ones; both are history. */
  datatype Loop = Loop(
    bindings: map<string, Binding>,
    routes: map<string, Entry>,
    lastApply: map<string, int>,
    applied: seq<(string, int)>,
    failures: nat)

  // ----- the two functions the relations `Decides` and `Builds` determine -----

  lemma DecisionExists(snap: Snapshot, stream: string, names: seq<string>, weights: seq<int>, policy: Policy)
    requires Sane(ParamsOf(policy))
    ensures exists r :: Decides(snap, stream, names, weights, policy, r)
  {
    if g, k :| Calls(snap, names, weights, policy, g, k) {
      assert Decides(snap, stream, names, weights, policy, Some(PlanFor(stream, names, weights, g, k)));
    } else {
      assert Decides(snap, stream, names, weights, policy, None);
    }
  }

  ghost function Decision(snap: Snapshot, stream: string, names: seq<string>, weights: seq<int>, policy: Policy)
    : (r: Option<Plan>)
    requires Sane(ParamsOf(policy))
    ensures Decides(snap, stream, names, weights, policy, r)
  {
    DecisionExists(snap, stream, names, weights, policy);
    var r :| Decides(snap, stream, names, weights, policy, r);
    r
  }

  lemma BuildExists(pools: seq<Option<string>>, weights: seq<int>)
    ensures exists r :: Builds(pools, weights, r)
  {
    if pools == [] {
      assert Builds(pools, weights, Err(EmptyPools));
    } else if |pools| != |weights| {
      assert Builds(pools, weights, Err(LengthMismatch));
    } else if i :| FirstNil(pools, i) {
      assert Builds(pools, weights, Err(NilPool(i)));
    } else if KeptWeights(weights) == [] {
      assert Builds(pools, weights, Err(NoPositiveWeight));
    } else {
      NoFirstNil(pools);
      var t := Expand(Reduced(KeptWeights(weights)));
      assert Builds(pools, weights, Ok(Entry(KeptPools(pools, weights), t, t)));
    }
  }

  ghost function Build(pools: seq<Option<string>>, weights: seq<int>): (r: Result<Entry>)
    ensures Builds(pools, weights, r)
  {
    BuildExists(pools, weights);
    var r :| Builds(pools, weights, r);
    r
  }

  // ----- one visit of one stream -----

  /** `RouterApplier.Apply`: the registry takes the new weights whenever their number fits,
      the router only when an entry can be built from them. */
  ghost function ApplyTo(sl: Slice, newWeights: seq<int>): (Slice, bool) {
    if sl.binding.None? || |newWeights| != |sl.binding.value.pools| then (sl, false)
    else
      var b := sl.binding.value.(weights := newWeights);
      match Build(b.pools, newWeights)
      case Ok(e) => (Slice(Some(b), Some(e), sl.lastApply), true)
      case Err(_) => (sl.(binding := Some(b)), false)
  }

  datatype Effect = Nothing | Applied | Failed

  ghost function CooldownOf(c: Config, s: string): int {
    if c.policies(s).cooldown <= 0 then c.cooldown else c.policies(s).cooldown
  }

  ghost predicate InCooldown(c: Config, s: string, sl: Slice, now: int) {
    sl.lastApply.Some? && now - sl.lastApply.value < CooldownOf(c, s)
  }

  ghost predicate Known(policy: Policy) { policy.strategyName == "" || policy.strategyName == STRATEGY }

  /** The plan a visit would apply, cooldown aside. */
  ghost function Proposal(c: Config, s: string, sl: Slice, snap: Snapshot): Option<Plan>
    requires ValidConfig(c)
  {
    var policy := c.policies(s);
    if !policy.enabled || !Known(policy) || sl.binding.None? then None
    else Decision(snap, s, sl.binding.value.names, sl.binding.value.weights, policy)
  }

  /** One stream's turn in a tick; `check` and `mark` are the clock readings of
      `inCooldown` and `markApplied`. */
  ghost function Turn(c: Config, s: string, sl: Slice, snap: Snapshot, check: int, mark: int): (Slice, Effect)
    requires ValidConfig(c)
  {
    var plan := Proposal(c, s, sl, snap);
    if plan.None? || InCooldown(c, s, sl, check) then (sl, Nothing)
    else
      var (sl', ok) := ApplyTo(sl, plan.value.newWeights);
      if ok then (sl'.(lastApply := Some(mark)), Applied) else (sl', Failed)
  }

  ghost function Lookup<V>(m: map<string, V>, s: string): Option<V> { if s in m then Some(m[s]) else None }

  ghost function SliceOf(l: Loop, s: string): Slice {
    Slice(Lookup(l.bindings, s), Lookup(l.routes, s), Lookup(l.lastApply, s))
  }

  ghost function Store<V>(m: map<string, V>, s: string, v: Option<V>): map<string, V> {
    if v.Some? then m[s := v.value] else m
  }

  ghost function Visit(c: Config, l: Loop, s: string, snap: Snapshot, check: int, mark: int): Loop
    requires ValidConfig(c)
  {
    var (sl, effect) := Turn(c, s, SliceOf(l, s), snap, check, mark);
    Loop(Store(l.bindings, s, sl.binding), Store(l.routes, s, sl.route), Store(l.lastApply, s, sl.lastApply),
         if effect.Applied? then l.applied + [(s, mark)] else l.applied,
         if effect.Failed? then l.failures + 1 else l.failures)
  }

  // ----- ticks and runs -----

  /** One visit of a tick: the stream and the two clock readings. */
  datatype Stop = Stop(stream: string, check: int, mark: int)

  ghost function Visits(c: Config, l: Loop, snap: Snapshot, stops: seq<Stop>): Loop
    requires ValidConfig(c)
  {
    if stops == [] then l else
      var k := |stops| - 1;
      Visit(c, Visits(c, l, snap, stops[..k]), stops[k].stream, snap, stops[k].check, stops[k].mark)
  }

  /** A tick either fails to sample or visits the bound streams, each once, in some order. */
  datatype Tick = SampleError | Sampled(snap: Snapshot, stops: seq<Stop>)

  ghost predicate IsTick(l: Loop, t: Tick) {
    t.Sampled? ==>
      && (forall i, j :: 0 <= i < j < |t.stops| ==> t.stops[i].stream != t.stops[j].stream)
      && (set st | st in t.stops :: st.stream) == l.bindings.Keys
  }

  ghost function DoTick(c: Config, l: Loop, t: Tick): Loop
    requires ValidConfig(c)
  {
    if t.SampleError? then l else Visits(c, l, t.snap, t.stops)
  }

  ghost function Run(c: Config, l: Loop, ticks: seq<Tick>): Loop
    requires ValidConfig(c)
  {
    if ticks == [] then l else DoTick(c, Run(c, l, ticks[..|ticks| - 1]), ticks[|ticks| - 1])
  }

  // ----- the weight invariant -----

  ghost function Least(a: int, b: int): int { if a < b then a else b }

  /** Every policy's minimum weight, truncated as the strategy does, is at least one. */
  ghost predicate TruncatedFloors(c: Config, floors: string -> int) {
    forall s :: floors(s) == Trunc(ParamsOf(c.policies(s)).minWeight) >= 1
  }

  /** A binding of positive weights, installed identically in the router. */
  ghost predicate Installed(sl: Slice) {
    && sl.binding.Some? && Positive(sl.binding.value.weights)
    && var b := sl.binding.value;
       |b.names| == |b.pools| == |b.weights| && sl.route.Some? && Builds(b.pools, b.weights, Ok(sl.route.value))
  }

  /** `now` has the pools of `start` and its total weight, respects the floors, and the two
      copies of the weights agree. */
  ghost predicate Kept(start: Slice, now: Slice, minWeight: int)
    requires Installed(start)
  {
    && Installed(now)
    && var b0, b := start.binding.value, now.binding.value;
       && b.names == b0.names && b.pools == b0.pools
       && Total(b.weights) == Total(b0.weights)
       && |b.weights| == |b0.weights|
       && forall i :: 0 <= i < |b.weights| ==> b.weights[i] >= Least(b0.weights[i], minWeight)
  }

  lemma BuildOfPositive(pools: seq<Option<string>>, weights: seq<int>, newWeights: seq<int>, e: Entry)
    requires Builds(pools, weights, Ok(e)) && |newWeights| == |weights| && Positive(newWeights)
    ensures Build(pools, newWeights).Ok?
  {
    NoFirstNil(pools);
    AllWeightsKept(newWeights);
  }

  lemma TurnKeeps(c: Config, s: string, start: Slice, now: Slice, snap: Snapshot, check: int, mark: int, minWeight: int)
    requires ValidConfig(c) && Installed(start) && Kept(start, now, minWeight)
    requires Trunc(ParamsOf(c.policies(s)).minWeight) == minWeight >= 1
    ensures Kept(start, Turn(c, s, now, snap, check, mark).0, minWeight)
    ensures Turn(c, s, now, snap, check, mark).1 != Failed
  {
    var plan := Proposal(c, s, now, snap);
    if plan.Some? && !InCooldown(c, s, now, check) {
      var b, w := now.binding.value, plan.value.newWeights;
      var policy := c.policies(s);
      PlanKeepsTotalAndFloor(snap, s, b.names, b.weights, policy, plan.value);
      PlanKeepsFloors(snap, s, b.names, b.weights, policy, plan.value, minWeight);
      BuildOfPositive(b.pools, b.weights, w, now.route.value);
    }
  }

  /** What the loop keeps for all streams, relative to where it started. */
  ghost predicate LoopKept(start: Loop, l: Loop, floors: string -> int)
    requires forall s :: s in start.bindings ==> Installed(SliceOf(start, s))
  {
    && l.bindings.Keys == start.bindings.Keys
    && l.failures == start.failures
    && forall s :: s in start.bindings ==> Kept(SliceOf(start, s), SliceOf(l, s), floors(s))
  }

  lemma OtherSlices(c: Config, l: Loop, s: string, snap: Snapshot, check: int, mark: int, other: string)
    requires ValidConfig(c)
    ensures SliceOf(Visit(c, l, s, snap, check, mark), other) ==
            if other == s then Turn(c, s, SliceOf(l, s), snap, check, mark).0 else SliceOf(l, other)
  {
  }

  lemma VisitKeeps(c: Config, start: Loop, l: Loop, st: Stop, snap: Snapshot, floors: string -> int)
    requires ValidConfig(c) && TruncatedFloors(c, floors)
    requires forall s :: s in start.bindings ==> Installed(SliceOf(start, s))
    requires LoopKept(start, l, floors) && st.stream in start.bindings
    ensures LoopKept(start, Visit(c, l, st.stream, snap, st.check, st.mark), floors)
  {
    var l' := Visit(c, l, st.stream, snap, st.check, st.mark);
    TurnKeeps(c, st.stream, SliceOf(start, st.stream), SliceOf(l, st.stream), snap, st.check, st.mark,
        floors(st.stream));
    forall s | s in start.bindings ensures Kept(SliceOf(start, s), SliceOf(l', s), floors(s)) {
      OtherSlices(c, l, st.stream, snap, st.check, st.mark, s);
    }
    SameNames(c, l, st.stream, snap, st.check, st.mark);
  }

  lemma SameNames(c: Config, l: Loop, s: string, snap: Snapshot, check: int, mark: int)
    requires ValidConfig(c) && s in l.bindings
    ensures var l' := Visit(c, l, s, snap, check, mark);
            && l'.bindings.Keys == l.bindings.Keys
            && (Turn(c, s, SliceOf(l, s), snap, check, mark).1 != Failed ==> l'.failures == l.failures)
  {
  }

  lemma {:induction false} VisitsKeep(c: Config, start: Loop, l: Loop, stops: seq<Stop>, snap: Snapshot,
      floors: string -> int)
    requires ValidConfig(c) && TruncatedFloors(c, floors)
    requires forall s :: s in start.bindings ==> Installed(SliceOf(start, s))
    requires LoopKept(start, l, floors) && forall st :: st in stops ==> st.stream in start.bindings
    ensures LoopKept(start, Visits(c, l, snap, stops), floors)
  {
    if stops != [] {
      var k := |stops| - 1;
      VisitsKeep(c, start, l, stops[..k], snap, floors);
      VisitKeeps(c, start, Visits(c, l, snap, stops[..k]), stops[k], snap, floors);
    }
  }

  /** The ticks of a run, each made of the streams bound at its time. */
  ghost predicate IsRun(c: Config, l: Loop, ticks: seq<Tick>)
    requires ValidConfig(c)
  {
    ticks == [] ||
    var k := |ticks| - 1;
    IsRun(c, l, ticks[..k]) && IsTick(Run(c, l, ticks[..k]), ticks[k])
  }

  /** Whole-run weight invariant: from positive bindings installed identically in registry
      and router, with integer minimum weights of at least one, every run (any snapshots,
      any clock, any visiting order) keeps each stream's pools and weight total and each
      weight at least the smaller of its start and the minimum; no application fails; and
      the router's entry is always the one built from the registry's weights. */
  lemma {:induction false} RunKeepsWeights(c: Config, start: Loop, ticks: seq<Tick>, floors: string -> int)
    requires ValidConfig(c) && TruncatedFloors(c, floors) && IsRun(c, start, ticks)
    requires forall s :: s in start.bindings ==> Installed(SliceOf(start, s))
    ensures LoopKept(start, Run(c, start, ticks), floors)
  {
    if ticks != [] {
      var k := |ticks| - 1;
      RunKeepsWeights(c, start, ticks[..k], floors);
      if ticks[k].Sampled? {
        forall st | st in ticks[k].stops ensures st.stream in start.bindings {
          assert st.stream in (set st | st in ticks[k].stops :: st.stream);
        }
        VisitsKeep(c, start, Run(c, start, ticks[..k]), ticks[k].stops, ticks[k].snap, floors);
      }
    }
  }

  /** The router takes new weights that fit the pools exactly when no pool is nil and some
      weight is positive. */
  ghost predicate RouterTakes(pools: seq<Option<string>>, newWeights: seq<int>) {
    && (forall i :: 0 <= i < |pools| ==> pools[i].Some?)
    && exists i :: 0 <= i < |newWeights| && newWeights[i] > 0
  }

  lemma BuildsExactly(pools: seq<Option<string>>, newWeights: seq<int>)
    requires |newWeights| == |pools|
    ensures Build(pools, newWeights).Ok? <==> RouterTakes(pools, newWeights)
  {
    SomeWeightKept(newWeights);
    NoFirstNil(pools);
  }

  /** Registry and router can part company, because the registry is updated first.  After
      `Apply` they agree exactly when the new weights fit in number and the router takes
      them, or do not fit (so nothing is stored) and the two agreed before. */
  lemma ApplyAgreesExactly(sl: Slice, newWeights: seq<int>)
    requires sl.binding.Some? && sl.route.Some?
    ensures var sl', b := ApplyTo(sl, newWeights).0, sl.binding.value;
            var b' := sl'.binding.value;
            Builds(b'.pools, b'.weights, Ok(sl'.route.value)) <==>
            if |newWeights| == |b.pools| then RouterTakes(b.pools, newWeights)
            else Builds(b.pools, b.weights, Ok(sl.route.value))
  {
    var b := sl.binding.value;
    if |newWeights| == |b.pools| {
      BuildsExactly(b.pools, newWeights);
      var r := Build(b.pools, newWeights);
      if r.Err? && Builds(b.pools, newWeights, Ok(sl.route.value)) {
        BuildsOnce(b.pools, newWeights, r, Ok(sl.route.value));
      }
    }
  }

  /** The strategy itself can propose such weights, when a binding with a weight that is
      not positive was installed. */
  lemma RefusedPlan() returns (sl: Slice, snap: Snapshot, policy: Policy, plan: Plan)
    ensures Sane(ParamsOf(policy)) && sl.binding.Some? && sl.route.Some?
    ensures var b := sl.binding.value;
            && Builds(b.pools, b.weights, Ok(sl.route.value))
            && Decides(snap, "s", b.names, b.weights, policy, Some(plan))
            && |plan.newWeights| == |b.pools| && !RouterTakes(b.pools, plan.newWeights)
    ensures !ApplyTo(sl, plan.newWeights).1
  {
    var pools, weights := [Some("a"), Some("b")], [1, -1];
    policy := SamplePolicy(0.0);
    snap, plan := SamplePlan(weights, 0.0);
    BuildsExactly(pools, weights);
    BuildsExactly(pools, plan.newWeights);
    sl := Slice(Some(Binding(["a", "b"], pools, weights)), Some(Build(pools, weights).value), None);
  }

  // ----- tick confluence -----

  ghost function AtOnce(streams: seq<string>, now: int): seq<Stop> {
    seq(|streams|, i requires 0 <= i < |streams| => Stop(streams[i], now, now))
  }

  /** A tick treats every stream it visits as if it came first. */
  lemma {:induction false} VisitsAreIndependent(c: Config, l: Loop, snap: Snapshot, streams: seq<string>,
      now: int, s: string)
    requires ValidConfig(c) && NoDup(streams)
    ensures SliceOf(Visits(c, l, snap, AtOnce(streams, now)), s) ==
            if s in streams then Turn(c, s, SliceOf(l, s), snap, now, now).0 else SliceOf(l, s)
  {
    if streams != [] {
      var k := |streams| - 1;
      assert AtOnce(streams, now)[..k] == AtOnce(streams[..k], now);
      assert streams == streams[..k] + [streams[k]];
      VisitsAreIndependent(c, l, snap, streams[..k], now, s);
      VisitsAreIndependent(c, l, snap, streams[..k], now, streams[k]);
      OtherSlices(c, Visits(c, l, snap, AtOnce(streams[..k], now)), streams[k], snap, now, now, s);
    }
  }

  lemma SameMap<V>(m: map<string, V>, n: map<string, V>)
    requires forall s :: Lookup(m, s) == Lookup(n, s)
    ensures m == n
  {
    forall s ensures s in m <==> s in n {
      assert Lookup(m, s) == Lookup(n, s);
    }
    forall s | s in m ensures m[s] == n[s] {
      assert Lookup(m, s) == Lookup(n, s);
    }
  }

  /** Tick confluence: with the snapshot and the tick's clock fixed, every order of visiting
      the same streams leaves the same weights, last-apply times and router entries, so
      the iteration order of Go's maps does not matter. */
  lemma TickIsConfluent(c: Config, l: Loop, snap: Snapshot, streams: seq<string>, others: seq<string>, now: int)
    requires ValidConfig(c) && NoDup(streams) && NoDup(others)
    requires forall s :: s in streams <==> s in others
    ensures var a, b := Visits(c, l, snap, AtOnce(streams, now)), Visits(c, l, snap, AtOnce(others, now));
            a.bindings == b.bindings && a.routes == b.routes && a.lastApply == b.lastApply
  {
    var a, b := Visits(c, l, snap, AtOnce(streams, now)), Visits(c, l, snap, AtOnce(others, now));
    forall s ensures SliceOf(a, s) == SliceOf(b, s) {
      VisitsAreIndependent(c, l, snap, streams, now, s);
      VisitsAreIndependent(c, l, snap, others, now, s);
    }
    forall s ensures Lookup(a.bindings, s) == Lookup(b.bindings, s) { assert SliceOf(a, s) == SliceOf(b, s); }
    forall s ensures Lookup(a.routes, s) == Lookup(b.routes, s) { assert SliceOf(a, s) == SliceOf(b, s); }
    forall s ensures Lookup(a.lastApply, s) == Lookup(b.lastApply, s) { assert SliceOf(a, s) == SliceOf(b, s); }
    SameMap(a.bindings, b.bindings);
    SameMap(a.routes, b.routes);
    SameMap(a.lastApply, b.lastApply);
  }
}
