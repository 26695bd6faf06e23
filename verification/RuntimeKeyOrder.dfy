/** End-to-end key order: what becomes of the messages of a stream with one key, from receipt
    to execution, while no change of routes sends the key elsewhere. */
module RuntimeKeyOrder {
  import opened Sequences
  import opened Tasks
  import opened RoutingTable
  import opened RoutingService
  import opened Divisors
  import opened Rebalance
  import opened RebalanceTheorems
  import DT = DispatcherTable
  import FP = FixedPool
  import opened Runtime
  import opened RuntimeMessages
  import opened RuntimeOrder

  lemma PickedIsHome(s: State, m: Task, ticket: nat)
    requires m.key != []
    ensures Picked(s, m, ticket) == Home(s, m.stream, m.key)
  {
  }

  ghost predicate PinnedOk(s: State) {
    forall x, key :: (x, key) in s.pinned ==> key != [] && Home(s, x, key).Some?
  }

  lemma HomeExists(s: State, stream: string, key: Key)
    requires Named(s) && PinnedOk(s) && (stream, key) in s.pinned
    ensures Home(s, stream, key).Some? && Home(s, stream, key).value in s.pools
  {
    assert GoodEntry(s, s.routes[stream]);
  }

  // ----- fates of keyed messages -----

  /** No fate takes a message to another pool than `home`, and none drops it at routing. */
  ghost predicate Via(f: Fate, home: string) {
    f == QueueFull || f == SubmitFailed(home) || Bound(f, home)
  }

  ghost predicate KeyedOk(s: State, m: Task)
    requires m in s.fate
  {
    (m.stream, m.key) in s.pinned ==>
      Home(s, m.stream, m.key).Some? && Via(s.fate[m], Home(s, m.stream, m.key).value)
  }

  ghost predicate SourceHomed(s: State, x: string)
    requires x in s.sources
  {
    var src := s.sources[x];
    (src.Looking? || src.Creating? || src.Offering?) && (src.m.stream, src.m.key) in s.pinned ==>
      Some(src.pool) == Home(s, src.m.stream, src.m.key)
  }

  /** A failed submission has a cause. */
  ghost predicate FailureOk(s: State, m: Task)
    requires m in s.fate
  {
    s.fate[m].SubmitFailed? ==> s.fate[m].pool in s.pools && (s.contextDone || s.pools[s.fate[m].pool].stopped)
  }

  ghost predicate Homed(s: State) {
    && PinnedOk(s)
    && (forall m :: m in s.fate ==> KeyedOk(s, m) && FailureOk(s, m))
    && (forall x :: x in s.sources ==> SourceHomed(s, x))
  }

  lemma HomeSame(s: State, a: Action)
    requires Enabled(s, a) && PinnedOk(s)
    ensures PinnedOk(Step(s, a)) && Step(s, a).pinned == s.pinned && Step(s, a).hash == s.hash
    ensures forall stream, key :: (stream, key) in s.pinned ==> Home(Step(s, a), stream, key) == Home(s, stream, key)
  {
    forall x, key | (x, key) in s.pinned ensures Home(Step(s, a), x, key) == Home(s, x, key) {
      if a.Rebind? && a.stream == x { assert Respects(s, x, a.e); }
    }
  }

  lemma SourceKeyed(s: State, x: string, step: SourceStep, m: Task)
    requires Named(s) && ClearNames(s) && PinnedOk(s) && SourceEnabled(s, x, step)
    requires SourceOk(s, x) && SourceHomed(s, x)
    requires m in s.fate ==> KeyedOk(s, m) && FailureOk(s, m)
    requires m in DoSource(s, x, step).fate
    ensures KeyedOk(DoSource(s, x, step), m) && FailureOk(DoSource(s, x, step), m)
  {
    HomeSame(s, ForSource(x, step));
    var s' := DoSource(s, x, step);
    assert s' == Step(s, ForSource(x, step));
    if (m.stream, m.key) in s.pinned { HomeExists(s, m.stream, m.key); }
    match step
    case RouteIt(ticket) => if m.key != [] { PickedIsHome(s, m, ticket); }
    case Offer => KeyOwner(s, x, s.sources[x].pool);
    case _ =>
  }

  lemma SourceStaysHomed(s: State, x: string, step: SourceStep, y: string)
    requires PinnedOk(s) && SourceEnabled(s, x, step) && y in s.sources && SourceHomed(s, y)
    ensures SourceHomed(DoSource(s, x, step), y)
  {
    HomeSame(s, ForSource(x, step));
    var s' := DoSource(s, x, step);
    assert s' == Step(s, ForSource(x, step));
    if step.RouteIt? && s.sources[x].m.key != [] { PickedIsHome(s, s.sources[x].m, step.ticket); }
  }

  lemma SourceStepHomed(s: State, x: string, step: SourceStep)
    requires Located(s) && ClearNames(s) && Homed(s) && SourceEnabled(s, x, step)
    ensures Homed(DoSource(s, x, step))
  {
    var s' := DoSource(s, x, step);
    HomeSame(s, ForSource(x, step));
    assert SourceOk(s, x);
    forall m | m in s'.fate ensures KeyedOk(s', m) && FailureOk(s', m) { SourceKeyed(s, x, step, m); }
    forall y | y in s'.sources ensures SourceHomed(s', y) { SourceStaysHomed(s, x, step, y); }
  }

  lemma DispatchKeyed(s: State, key: string, step: DispatchStep, m: Task)
    requires PinnedOk(s) && DispatchEnabled(s, key, step) && DispatcherOk(s, key)
    requires m in s.fate && KeyedOk(s, m)
    ensures m in DoDispatch(s, key, step).fate && KeyedOk(DoDispatch(s, key, step), m)
  {
    HomeSame(s, ForDispatcher(key, step));
    var s' := DoDispatch(s, key, step);
    assert s' == Step(s, ForDispatcher(key, step));
    if step.TakeTask? { assert s.dispatchers[key].buffer[0] in s.dispatchers[key].buffer; }
  }

  lemma DispatchFailure(s: State, key: string, step: DispatchStep, m: Task)
    requires DispatchEnabled(s, key, step) && DispatcherOk(s, key) && FP.Inv(s.pools[s.dispatchers[key].pool])
    requires m in s.fate && FailureOk(s, m)
    ensures m in DoDispatch(s, key, step).fate && FailureOk(DoDispatch(s, key, step), m)
  {
    var d := s.dispatchers[key];
    if step.Attempt? { StepKeepsPool(s.pools[d.pool], step.a); }
  }

  lemma DispatchStepHomed(s: State, key: string, step: DispatchStep)
    requires Located(s) && Homed(s) && DispatchEnabled(s, key, step)
    ensures Homed(DoDispatch(s, key, step))
  {
    var s' := DoDispatch(s, key, step);
    HomeSame(s, ForDispatcher(key, step));
    assert DispatcherOk(s, key);
    assert PoolOk(s, s.dispatchers[key].pool);
    DispatchKeepsSet(s, key, step);
    forall m | m in s'.fate ensures KeyedOk(s', m) && FailureOk(s', m) {
      DispatchKeyed(s, key, step, m);
      DispatchFailure(s, key, step, m);
    }
    forall y | y in s'.sources ensures SourceHomed(s', y) { assert SourceHomed(s, y); }
  }

  lemma OtherStepHomed(s: State, a: Action)
    requires Homed(s) && Enabled(s, a) && !a.ForSource? && !a.ForDispatcher?
    ensures Homed(Step(s, a))
  {
    var s' := Step(s, a);
    HomeSame(s, a);
    MovesNothing(s, a);
    forall m | m in s'.fate ensures KeyedOk(s', m) && FailureOk(s', m) {
      assert KeyedOk(s, m) && FailureOk(s, m);
      if s.fate[m].SubmitFailed? { PoolsKeep(s, a, s.fate[m].pool); }
    }
    forall y | y in s'.sources ensures SourceHomed(s', y) { assert SourceHomed(s, y); }
  }

  lemma StepHomed(s: State, a: Action)
    requires Located(s) && ClearNames(s) && Homed(s) && Enabled(s, a)
    ensures Homed(Step(s, a))
  {
    if a.ForSource? {
      SourceStepHomed(s, a.stream, a.s);
    } else if a.ForDispatcher? {
      DispatchStepHomed(s, a.key, a.d);
    } else {
      OtherStepHomed(s, a);
    }
  }

  ghost predicate Inv(s: State) {
    Located(s) && Keyed(s) && Recorded(s) && Ordered(s) && Homed(s)
  }

  lemma SpawnedInv(s: State)
    requires Spawned(s)
    ensures Inv(s)
  {
    SpawnedLocated(s);
    SpawnedOrdered(s);
  }

  lemma StepInv(s: State, a: Action)
    requires Inv(s) && Enabled(s, a)
    ensures Inv(Step(s, a)) && Step(s, a).pinned == s.pinned && Step(s, a).sources.Keys == s.sources.Keys
  {
    StepLocated(s, a);
    StepKeyed(s, a);
    StepRecorded(s, a);
    StepOrdered(s, a);
    StepHomed(s, a);
    HomeSame(s, a);
    SameNames(s, a);
  }

  lemma {:induction false} RunInv(s: State, run: seq<Action>)
    requires Inv(s) && Feasible(s, run)
    ensures Inv(After(s, run)) && After(s, run).pinned == s.pinned && After(s, run).sources.Keys == s.sources.Keys
    decreases |run|
  {
    if run != [] {
      StepInv(s, run[0]);
      RunInv(Step(s, run[0]), run[1..]);
    }
  }

  lemma {:induction false} RunKeepsHome(s: State, run: seq<Action>, stream: string, key: Key)
    requires PinnedOk(s) && Feasible(s, run) && (stream, key) in s.pinned
    ensures Home(After(s, run), stream, key) == Home(s, stream, key)
    decreases |run|
  {
    if run != [] {
      HomeSame(s, run[0]);
      RunKeepsHome(Step(s, run[0]), run[1..], stream, key);
    }
  }

  lemma {:induction false} RunKeepsSize(s: State, run: seq<Action>, p: string)
    requires Feasible(s, run) && p in s.pools
    ensures p in After(s, run).pools && |After(s, run).pools[p].workers| == |s.pools[p].workers|
    decreases |run|
  {
    if run != [] {
      PoolsKeep(s, run[0], p);
      RunKeepsSize(Step(s, run[0]), run[1..], p);
    }
  }

  // ----- what the runtime promises a key -----

  /** The messages of a stream that carry a key. */
  ghost function Mine(stream: string, key: Key): Task -> bool {
    (m: Task) => m.stream == stream && m.key == key
  }

  /** Those that have been neither dropped by a full queue nor refused by the pool. */
  ghost function MineNotLost(fate: map<Task, Fate>, stream: string, key: Key): Task -> bool {
    (m: Task) => m.stream == stream && m.key == key && m in fate && !fate[m].QueueFull? && !fate[m].SubmitFailed?
  }

  ghost function MineNotDropped(fate: map<Task, Fate>, stream: string, key: Key): Task -> bool {
    (m: Task) => m.stream == stream && m.key == key && m in fate && !fate[m].QueueFull?
  }

  lemma KeyOfLine(s: State, stream: string, key: Key, home: string)
    requires stream in s.sources && home in s.pools && InOrder(s, stream, home)
    ensures Select(Select(s.received, Heading(s.fate, stream, home)), Mine(stream, key))
            == Select(s.pools[home].accepted, Mine(stream, key))
               + Select(Pending(s, stream, home) + InHands(s.sources[stream]), Mine(stream, key))
  {
    var mine := Mine(stream, key);
    var rest := Pending(s, stream, home) + InHands(s.sources[stream]);
    assert AcceptedOf(s, stream, home) + Pending(s, stream, home) + InHands(s.sources[stream])
        == AcceptedOf(s, stream, home) + rest;
    SelectConcat(AcceptedOf(s, stream, home), rest, mine);
    SelectTwice(s.pools[home].accepted, OfStream(stream), mine, mine);
  }

  /** In receive order: what a key has in its pool, in the dispatcher, in the source. */
  lemma KeyLine(s: State, stream: string, key: Key, home: string)
    requires Inv(s) && stream in s.sources && (stream, key) in s.pinned
    requires Home(s, stream, key) == Some(home) && home in s.pools
    ensures Select(s.received, MineNotLost(s.fate, stream, key))
            == Select(s.pools[home].accepted, Mine(stream, key))
               + Select(Pending(s, stream, home) + InHands(s.sources[stream]), Mine(stream, key))
  {
    NotLostIsHeading(s, stream, key, home);
    SelectTwice(s.received, Heading(s.fate, stream, home), Mine(stream, key), MineNotLost(s.fate, stream, key));
    assert InOrder(s, stream, home);
    KeyOfLine(s, stream, key, home);
  }

  /** For a pinned key, not lost means on the way to its pool or in it. */
  lemma NotLostIsHeading(s: State, stream: string, key: Key, home: string)
    requires Recorded(s) && Homed(s) && (stream, key) in s.pinned && Home(s, stream, key) == Some(home)
    ensures forall m :: m in s.received ==>
              MineNotLost(s.fate, stream, key)(m) == (Heading(s.fate, stream, home)(m) && Mine(stream, key)(m))
  {
    forall m | m in s.received
      ensures MineNotLost(s.fate, stream, key)(m) == (Heading(s.fate, stream, home)(m) && Mine(stream, key)(m))
    {
      assert m in s.fate && KeyedOk(s, m);
    }
  }

  lemma OnlyAtHome(s: State, stream: string, key: Key, p: string, m: Task)
    requires PoolsOk(s) && Homed(s) && stream in s.sources && (stream, key) in s.pinned && p in s.pools
    requires m in s.pools[p].accepted && Mine(stream, key)(m)
    ensures Home(s, stream, key) == Some(p)
  {
    assert PoolOk(s, p);
    assert KeyedOk(s, m);
  }

  lemma KeyRun(s0: State, run: seq<Action>, stream: string, key: Key)
    requires Spawned(s0) && Feasible(s0, run) && stream in s0.sources && (stream, key) in s0.pinned
    ensures var s := After(s0, run);
            && Inv(s) && stream in s.sources && (stream, key) in s.pinned
            && Home(s, stream, key) == Home(s0, stream, key) && Home(s0, stream, key).Some?
            && Home(s0, stream, key).value in s.pools && Home(s0, stream, key).value in s0.pools
  {
    SpawnedInv(s0);
    RunInv(s0, run);
    RunKeepsHome(s0, run, stream, key);
    HomeExists(s0, stream, key);
    HomeExists(After(s0, run), stream, key);
  }

  /** End-to-end key order.  Over any run whose changes of the stream's route, if any, keep
      the pool of the key, the messages
      of the stream with one non-empty key reach one pool only; those accepted there are, in
      order, among those received, and those begun are a prefix of those accepted. */
  lemma SameKeyInReceiveOrder(s0: State, run: seq<Action>, stream: string, key: Key)
    requires Spawned(s0) && Feasible(s0, run) && stream in s0.sources && (stream, key) in s0.pinned
    ensures var s, mine, home := After(s0, run), Mine(stream, key), Home(s0, stream, key);
            && home.Some? && home.value in s.pools
            && (forall p :: p in s.pools && p != home.value ==> Select(s.pools[p].accepted, mine) == [])
            && var pool := s.pools[home.value];
               && Select(pool.begun, mine) <= Select(pool.accepted, mine)
               && IsSubsequence(Select(pool.accepted, mine), Select(s.received, mine))
               && IsSubsequence(Select(pool.begun, mine), Select(s.received, mine))
  {
    KeyRun(s0, run, stream, key);
    var s, mine := After(s0, run), Mine(stream, key);
    var home := Home(s0, stream, key).value;
    forall p | p in s.pools && p != home ensures Select(s.pools[p].accepted, mine) == [] {
      forall m | m in s.pools[p].accepted ensures !mine(m) {
        if mine(m) { OnlyAtHome(s, stream, key, p, m); }
      }
      SelectNone(s.pools[p].accepted, mine);
    }
    HomeInOrder(s, stream, key, home);
  }

  lemma HomeInOrder(s: State, stream: string, key: Key, home: string)
    requires Inv(s) && stream in s.sources && (stream, key) in s.pinned
    requires Home(s, stream, key) == Some(home) && home in s.pools
    ensures var mine := Mine(stream, key);
            && Select(s.pools[home].begun, mine) <= Select(s.pools[home].accepted, mine)
            && IsSubsequence(Select(s.pools[home].accepted, mine), Select(s.received, mine))
            && IsSubsequence(Select(s.pools[home].begun, mine), Select(s.received, mine))
  {
    var mine, kept := Mine(stream, key), MineNotLost(s.fate, stream, key);
    KeyLine(s, stream, key, home);
    SelectTwice(s.received, mine, kept, kept);
    SelectIsSubsequence(Select(s.received, mine), kept);
    assert PoolOk(s, home);
    SelectPrefix(s.pools[home].begun, s.pools[home].accepted, mine);
    PrefixOfSubsequence(Select(s.pools[home].accepted, mine), Select(s.received, kept), Select(s.received, mine));
    PrefixOfSubsequence(Select(s.pools[home].begun, mine), Select(s.received, kept), Select(s.received, mine));
  }

  /** And serially, when the pool has one worker: of what has begun everything has finished,
      in the same order, but for the one task in the worker's hands. */
  lemma SameKeySerial(s0: State, run: seq<Action>, stream: string, key: Key)
    requires Spawned(s0) && Feasible(s0, run) && stream in s0.sources && (stream, key) in s0.pinned
    requires forall p :: Home(s0, stream, key) == Some(p) && p in s0.pools ==> |s0.pools[p].workers| == 1
    ensures var s, mine, home := After(s0, run), Mine(stream, key), Home(s0, stream, key);
            && home.Some? && home.value in s.pools && |s.pools[home.value].workers| == 1
            && var pool, w := s.pools[home.value], s.pools[home.value].workers[0];
               Select(pool.begun, mine) == Select(pool.finished, mine) + if w.Running?
                   && mine(w.task) then [w.task] else []
  {
    KeyRun(s0, run, stream, key);
    var s, mine := After(s0, run), Mine(stream, key);
    var home := Home(s0, stream, key).value;
    RunKeepsSize(s0, run, home);
    assert PoolOk(s, home);
    var ps := s.pools[home];
    if ps.workers[0].Running? {
      SelectAppend(ps.finished, ps.workers[0].task, mine);
    } else {
      assert ps.begun == ps.finished;
    }
  }

  /** Until the runtime's context ends or the pool is being stopped, queue-full drops are the
      only losses: what a key has received and not lost to a full queue is, in order, what
      its pool accepted, then what its dispatcher holds, then what its source holds. */
  lemma OnlyQueueFullIsMissing(s0: State, run: seq<Action>, stream: string, key: Key)
    requires Spawned(s0) && Feasible(s0, run) && stream in s0.sources && (stream, key) in s0.pinned
    ensures var s, home := After(s0, run), Home(s0, stream, key);
            && home.Some? && home.value in s.pools && stream in s.sources
            && (!s.contextDone && !s.pools[home.value].stopped ==>
                  Select(s.received, MineNotDropped(s.fate, stream, key))
                  == Select(s.pools[home.value].accepted, Mine(stream, key))
                     + Select(Pending(s, stream, home.value) + InHands(s.sources[stream]), Mine(stream, key)))
  {
    KeyRun(s0, run, stream, key);
    var s := After(s0, run);
    var home := Home(s0, stream, key).value;
    if !s.contextDone && !s.pools[home].stopped {
      KeyLine(s, stream, key, home);
      NothingElseLost(s, stream, key, home);
    }
  }

  lemma NothingElseLost(s: State, stream: string, key: Key, home: string)
    requires Recorded(s) && Homed(s) && (stream, key) in s.pinned
    requires Home(s, stream, key) == Some(home) && home in s.pools
    requires !s.contextDone && !s.pools[home].stopped
    ensures Select(s.received, MineNotDropped(s.fate, stream, key))
            == Select(s.received, MineNotLost(s.fate, stream, key))
  {
    forall m | m in s.received
      ensures MineNotDropped(s.fate, stream, key)(m) == MineNotLost(s.fate, stream, key)(m)
    {
      assert m in s.fate && KeyedOk(s, m) && FailureOk(s, m);
    }
    SelectAgree(s.received, MineNotDropped(s.fate, stream, key), MineNotLost(s.fate, stream, key));
  }

  // ----- what a rebalancing plan may change -----

  lemma SameSlotSamePool(e: Entry, e': Entry, hash: Key -> nat, bound: int, key: Key)
    requires Disturbs(e, e', hash, bound) && key != []
    requires Slot(e.ring, hash(key)) == Slot(e'.ring, hash(key))
    ensures PickedFrom(e', hash, key, 0) == PickedFrom(e, hash, key, 0)
  {
    assert Route(e, hash, 0, key).0 == Route(e', hash, 0, key).0;
  }

  /** Installing a plan's weights is a change of route that the key-order theorems allow for
      every key whose ring slot the plan does not relabel; a plan that keeps the common
      divisor relabels at most delta/g slots for each position of the pool list. */
  lemma PlanMayBeInstalled(s: State, stream: string, snap: Snapshot, names: seq<string>, weights: seq<int>,
                           policy: Policy, plan: Plan, pools: seq<Option<string>>, e': Entry)
    requires Named(s) && PinnedOk(s) && stream in s.routes
    requires Sane(ParamsOf(policy)) && Decides(snap, stream, names, weights, policy, Some(plan))
    requires Positive(weights) && Positive(plan.newWeights) && GcdAll(weights) == GcdAll(plan.newWeights)
    requires Builds(pools, weights, Ok(s.routes[stream])) && Builds(pools, plan.newWeights, Ok(e'))
    requires s.routes[stream].ring != [] && e'.ring != []
    requires forall key :: (stream, key) in s.pinned ==>
               Slot(s.routes[stream].ring, s.hash(key)) == Slot(e'.ring, s.hash(key))
    ensures Enabled(s, Rebind(stream, e'))
    ensures GcdAll(weights) > 0 && plan.delta >= 0 && |e'.ring| == |s.routes[stream].ring|
    ensures Differences(s.routes[stream].ring, e'.ring) <= Times(Quotient(plan.delta, GcdAll(weights)), |weights| - 1)
  {
    var e := s.routes[stream];
    PlanDisturbsFewKeys(snap, stream, names, weights, policy, plan, pools, e, e', s.hash);
    var bound := Times(Quotient(plan.delta, GcdAll(weights)), |weights| - 1);
    assert GoodEntry(s, e);
    assert e'.table == e'.ring by { BuiltTableIsRing(pools, plan.newWeights, e'); }
    forall key | (stream, key) in s.pinned ensures PickedFrom(e', s.hash, key, 0) == Home(s, stream, key) {
      SameSlotSamePool(e, e', s.hash, bound, key);
    }
  }

  lemma BuiltTableIsRing(pools: seq<Option<string>>, weights: seq<int>, e: Entry)
    requires Builds(pools, weights, Ok(e))
    ensures e.table == e.ring
  {
  }
}
