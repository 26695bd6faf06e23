/** pkg/runtime/runtime.go and dispatcher.go as one step system: source goroutines route
    received messages to dispatchers, dispatchers submit them to pools, and `Stop` shuts
    everything down in phases.  Each pool is a whole `FixedPool` step system of its own. */
module Runtime {
  import opened Sequences
  import opened Tasks
  import opened RoutingTable
  import opened RoutingService
  import DT = DispatcherTable
  import FP = FixedPool

  /** A source goroutine: in `Recv`, holding a message before or after routing, with the
      dispatcher lookup missed, or holding its dispatcher; or returned. */
  datatype Source =
    | Receiving
    | Routing(m: Task)
    | Looking(m: Task, pool: string)
    | Creating(m: Task, pool: string)
    | Offering(m: Task, pool: string)
    | SourceGone

  /** A dispatcher goroutine: at its select, inside `pool.Submit`, or returned. */
  datatype Worker = Waiting | Submitting(m: Task) | DispatcherGone

  datatype Dispatcher = Dispatcher(stream: string, pool: string, buffer: seq<Task>, worker: Worker)

  /** What has become of a received message. */
  datatype Fate =
    | InSource
    | NoRoute
    | QueueFull
    | Buffered(key: string, pool: string)   // by the dispatcher under `key`
    | Held(key: string, pool: string)
    | SubmitFailed(pool: string)
    | Accepted(pool: string)

  /** One `Stop` call: waiting for the sources, for each dispatcher, or for the drain of
      each pool (`current` names the pool and its `DrainAndStop` call). */
  datatype Stop =
    | NotCalled
    | AwaitingSources
    | StoppingDispatchers(rest: set<string>)
    | Draining(rest: set<string>, current: Option<(string, nat)>)
    | Returned(clean: bool)

  /** `pools` are all pools there are, `registered` those `Stop` drains.  `pinned` are
      (stream, key) pairs that no change of routes sends elsewhere.  `received` and `fate`
      are history. */
  datatype State = State(
    hash: Key -> nat,
    bufferSize: nat,
    registered: set<string>,
    pinned: iset<(string, Key)>,
    contextDone: bool,
    routes: map<string, Entry>,
    sources: map<string, Source>,
    dispatchers: map<string, Dispatcher>,
    pools: map<string, FP.State>,
    stop: Stop,
    received: seq<Task>,
    fate: map<Task, Fate>)

  datatype SourceStep =
    | Recv(m: Task)
    | RecvError
    | RouteIt(ticket: nat)   // the ticket matters for keyless messages only
    | LookUp                 // getOrCreateDispatcher, read lock
    | Create                 // getOrCreateDispatcher, write lock
    | Offer                  // TrySubmit

  datatype DispatchStep =
    | TakeTask
    | Attempt(a: FP.Action)  // how the Submit call ends
    | Leave

  datatype Action =
    | ForSource(stream: string, s: SourceStep)
    | ForDispatcher(key: string, d: DispatchStep)
    | ForPool(pool: string, a: FP.Action)    // workers, other submitters, other drains
    | Rebind(stream: string, e: Entry)
    | ContextEnds
    | StopCall
    | SourcesExited
    | DispatcherExited(key: string)
    | DispatchersExited
    | DrainPool(pool: string, call: nat)
    | DrainReturned
    | StopReturns

  // ----- routing -----

  /** `RouteWithKey`, with the atomic ticket left open. */
  ghost function Picked(s: State, m: Task, ticket: nat): Option<string> {
    if m.stream !in s.routes then None else PickedFrom(s.routes[m.stream], s.hash, m.key, ticket)
  }

  /** The pool a key of a stream is sent to. */
  ghost function Home(s: State, stream: string, key: Key): Option<string> {
    Picked(s, Task(0, stream, key), 0)
  }

  /** The tasks a goroutine has in its hands. */
  ghost function InHands(src: Source): seq<Task> {
    if src.Receiving? || src.SourceGone? then [] else [src.m]
  }

  ghost function Holding(d: Dispatcher): seq<Task> {
    if d.worker.Submitting? then [d.worker.m] else []
  }

  ghost predicate SubmitEnds(a: FP.Action, m: Task, contextDone: bool) {
    match a
    case Send(t) => t == m
    case HandOff(t, _) => t == m
    case SendOnClosed(t) => t == m
    case SeeStopped(t) => t == m
    case SeeContext(t) => t == m && contextDone
    case _ => false
  }

  ghost predicate Accepting(a: FP.Action) { a.Send? || a.HandOff? }

  /** Pool steps that are not the runtime's own submissions. */
  ghost predicate Foreign(s: State, a: FP.Action) {
    match a
    case Begin(t) => t.stream !in s.sources
    case Send(t) => t.stream !in s.sources
    case HandOff(t, _) => t.stream !in s.sources
    case SendOnClosed(t) => t.stream !in s.sources
    case SeeStopped(t) => t.stream !in s.sources
    case SeeContext(t) => t.stream !in s.sources
    case _ => true
  }

  // ----- steps -----

  ghost predicate SourceEnabled(s: State, stream: string, step: SourceStep) {
    && stream in s.sources
    && var src := s.sources[stream];
       match step
       case Recv(m) => src.Receiving? && m.stream == stream && m !in s.fate
                       && forall p :: p in s.pools ==> m !in s.pools[p].calls
       case RecvError => src.Receiving?
       case RouteIt(_) => src.Routing?
       case LookUp => src.Looking?
       case Create => src.Creating?
       case Offer => src.Offering? && DT.RouteKey(stream, src.pool) in s.dispatchers
  }

  ghost function NextSource(s: State, stream: string, step: SourceStep): Source
    requires SourceEnabled(s, stream, step)
  {
    var src := s.sources[stream];
    match step
    case Recv(m) => Routing(m)
    case RecvError => SourceGone
    case RouteIt(ticket) =>
      var p := Picked(s, src.m, ticket);
      if p.Some? then Looking(src.m, p.value) else Receiving
    case LookUp =>
      if DT.RouteKey(stream, src.pool) in s.dispatchers then Offering(src.m, src.pool) else Creating(src.m, src.pool)
    case Create => Offering(src.m, src.pool)
    case Offer => Receiving
  }

  ghost function DispatchersAfter(s: State, stream: string, step: SourceStep): map<string, Dispatcher>
    requires SourceEnabled(s, stream, step)
  {
    var src := s.sources[stream];
    if step.Create? && DT.RouteKey(stream, src.pool) !in s.dispatchers then
      s.dispatchers[DT.RouteKey(stream, src.pool) := Dispatcher(stream, src.pool, [], Waiting)]
    else if step.Offer? && |s.dispatchers[DT.RouteKey(stream, src.pool)].buffer| < s.bufferSize then
      var d := s.dispatchers[DT.RouteKey(stream, src.pool)];
      s.dispatchers[DT.RouteKey(stream, src.pool) := d.(buffer := d.buffer + [src.m])]
    else s.dispatchers
  }

  ghost function FateAfter(s: State, stream: string, step: SourceStep): map<Task, Fate>
    requires SourceEnabled(s, stream, step)
  {
    var src := s.sources[stream];
    match step
    case Recv(m) => s.fate[m := InSource]
    case RouteIt(ticket) => if Picked(s, src.m, ticket).Some? then s.fate else s.fate[src.m := NoRoute]
    case Offer =>
      var d := s.dispatchers[DT.RouteKey(stream, src.pool)];
      s.fate[src.m := if |d.buffer| < s.bufferSize then Buffered(DT.RouteKey(stream, src.pool), d.pool) else QueueFull]
    case _ => s.fate
  }

  ghost function DoSource(s: State, stream: string, step: SourceStep): State
    requires SourceEnabled(s, stream, step)
  {
    s.(sources := s.sources[stream := NextSource(s, stream, step)],
       dispatchers := DispatchersAfter(s, stream, step),
       received := if step.Recv? then s.received + [step.m] else s.received,
       fate := FateAfter(s, stream, step))
  }

  ghost predicate DispatchEnabled(s: State, key: string, step: DispatchStep) {
    && key in s.dispatchers
    && var d := s.dispatchers[key];
       && d.pool in s.pools
       && match step
          case TakeTask => d.worker.Waiting? && d.buffer != [] && FP.Enabled(s.pools[d.pool], FP.Begin(d.buffer[0]))
          case Attempt(a) =>
            && d.worker.Submitting? && SubmitEnds(a, d.worker.m, s.contextDone)
            && FP.Enabled(s.pools[d.pool], a)
          case Leave => d.worker.Waiting? && s.contextDone
  }

  ghost function NextDispatcher(d: Dispatcher, step: DispatchStep): Dispatcher
    requires step.TakeTask? ==> d.buffer != []
  {
    match step
    case TakeTask => d.(buffer := d.buffer[1..], worker := Submitting(d.buffer[0]))
    case Attempt(_) => d.(worker := Waiting)
    case Leave => d.(worker := DispatcherGone)
  }

  ghost function DoDispatch(s: State, key: string, step: DispatchStep): State
    requires DispatchEnabled(s, key, step)
  {
    var d := s.dispatchers[key];
    s.(dispatchers := s.dispatchers[key := NextDispatcher(d, step)],
       pools :=
         if step.TakeTask? then s.pools[d.pool := FP.Step(s.pools[d.pool], FP.Begin(d.buffer[0]))]
         else if step.Attempt? then s.pools[d.pool := FP.Step(s.pools[d.pool], step.a)]
         else s.pools,
       fate :=
         if step.TakeTask? then s.fate[d.buffer[0] := Held(key, d.pool)]
         else if step.Attempt? then s.fate[d.worker.m :=
             if Accepting(step.a) then Accepted(d.pool) else SubmitFailed(d.pool)]
         else s.fate)
  }

  ghost predicate PoolEnabled(s: State, pool: string, a: FP.Action) {
    pool in s.pools && Foreign(s, a) && FP.Enabled(s.pools[pool], a)
  }

  ghost function DoPool(s: State, pool: string, a: FP.Action): State
    requires pool in s.pools && FP.Enabled(s.pools[pool], a)
  {
    s.(pools := s.pools[pool := FP.Step(s.pools[pool], a)])
  }

  /** The targets of an entry are pools, and its slots are targets. */
  ghost predicate GoodEntry(s: State, e: Entry) {
    && (forall i :: 0 <= i < |e.targets| ==> e.targets[i] in s.pools)
    && (forall t :: t in e.table || t in e.ring ==> t < |e.targets|)
  }

  /** The new entry sends the pinned keys of the stream where they go already. */
  ghost predicate Respects(s: State, stream: string, e: Entry) {
    forall key :: (stream, key) in s.pinned ==> PickedFrom(e, s.hash, key, 0) == Home(s, stream, key)
  }

  ghost predicate Enabled(s: State, a: Action) {
    match a
    case ForSource(stream, step) => SourceEnabled(s, stream, step)
    case ForDispatcher(key, step) => DispatchEnabled(s, key, step)
    case ForPool(pool, pa) => PoolEnabled(s, pool, pa)
    case Rebind(stream, e) => GoodEntry(s, e) && Respects(s, stream, e)
    case ContextEnds => true
    case StopCall => s.stop.NotCalled?
    case SourcesExited => s.stop.AwaitingSources? && forall x :: x in s.sources ==> s.sources[x].SourceGone?
    case DispatcherExited(key) =>
      s.stop.StoppingDispatchers? && key in s.stop.rest && key in s.dispatchers
          && s.dispatchers[key].worker.DispatcherGone?
    case DispatchersExited => s.stop == StoppingDispatchers({})
    case DrainPool(pool, d) =>
      && s.stop.Draining? && s.stop.current.None? && pool in s.stop.rest && pool in s.pools
      && d !in s.pools[pool].drains
    case DrainReturned =>
      && s.stop.Draining? && s.stop.current.Some? && s.stop.current.value.0 in s.pools
      && var (pool, d) := s.stop.current.value; d in s.pools[pool].drains && s.pools[pool].drains[d].Returned?
    case StopReturns => s.stop == Draining({}, None)
  }

  ghost function Step(s: State, a: Action): State
    requires Enabled(s, a)
  {
    match a
    case ForSource(stream, step) => DoSource(s, stream, step)
    case ForDispatcher(key, step) => DoDispatch(s, key, step)
    case ForPool(pool, pa) => DoPool(s, pool, pa)
    case Rebind(stream, e) => s.(routes := s.routes[stream := e])
    case ContextEnds => s.(contextDone := true)
    case StopCall => s.(contextDone := true, stop := AwaitingSources)
    case SourcesExited => s.(stop := StoppingDispatchers(s.dispatchers.Keys))
    case DispatcherExited(key) => s.(stop := StoppingDispatchers(s.stop.rest - {key}))
    case DispatchersExited => s.(stop := Draining(s.registered, None))
    case DrainPool(pool, d) =>
      DoPool(s, pool, FP.DrainCall(d)).(stop := Draining(s.stop.rest, Some((pool, d))))
    case DrainReturned =>
      var (pool, d) := s.stop.current.value;
      s.(stop := if s.pools[pool].drains[d].clean then Draining(s.stop.rest - {pool}, None) else Returned(false))
    case StopReturns => s.(stop := Returned(true))
  }

  ghost predicate Feasible(s: State, run: seq<Action>)
    decreases |run|
  {
    run == [] || (Enabled(s, run[0]) && Feasible(Step(s, run[0]), run[1..]))
  }

  ghost function After(s: State, run: seq<Action>): State
    requires Feasible(s, run)
    decreases |run|
  {
    if run == [] then s else After(Step(s, run[0]), run[1..])
  }

  lemma {:induction false} RunsCompose(s: State, a: seq<Action>, b: seq<Action>)
    requires Feasible(s, a) && Feasible(After(s, a), b)
    ensures Feasible(s, a + b) && After(s, a + b) == After(After(s, a), b)
    decreases |a|
  {
    if a == [] {
      assert a + b == b;
    } else {
      RunsCompose(Step(s, a[0]), a[1..], b);
      assert (a + b)[1..] == a[1..] + b;
    }
  }

  lemma OneStep(s: State, a: Action)
    requires Enabled(s, a)
    ensures Feasible(s, [a]) && After(s, [a]) == Step(s, a)
  {
    assert [a][1..] == [];
  }

  lemma OneMoreStep(s: State, run: seq<Action>, a: Action)
    requires Feasible(s, run) && Enabled(After(s, run), a)
    ensures Feasible(s, run + [a]) && After(s, run + [a]) == Step(After(s, run), a)
  {
    OneStep(After(s, run), a);
    RunsCompose(s, run, [a]);
  }

  /** No stream's name is another's followed by a colon and more, so that dispatcher keys are
      unambiguous (`DispatcherTable.KeysCollideExactly`). */
  ghost predicate ClearNames(s: State) {
    forall x, y :: x in s.sources && y in s.sources && x != y ==> !DT.Extends(x, y)
  }

  /** A runtime whose sources have just been spawned: no dispatcher yet, no message, pools
      of any kind of past their own. */
  ghost predicate JustSpawned(s: State) {
    && s.bufferSize > 0 && s.registered <= s.pools.Keys
    && s.stop.NotCalled? && s.received == [] && s.fate == map[] && s.dispatchers == map[]
    && (forall x :: x in s.sources ==> s.sources[x].Receiving?)
    && (forall x :: x in s.routes ==> GoodEntry(s, s.routes[x]))
    && (forall x, key :: (x, key) in s.pinned ==> key != [] && Home(s, x, key).Some?)
    && (forall p :: p in s.pools ==> FP.Inv(s.pools[p]))
    && (forall p, m :: p in s.pools && m in s.pools[p].calls ==> m.stream !in s.sources)
  }

  ghost predicate Spawned(s: State) { JustSpawned(s) && ClearNames(s) }

  // ----- where messages are -----

  ghost predicate Named(s: State) {
    && s.bufferSize > 0 && s.registered <= s.pools.Keys
    && (forall x :: x in s.routes ==> GoodEntry(s, s.routes[x]))
    && (forall k :: k in s.dispatchers ==>
         var d := s.dispatchers[k];
         k == DT.RouteKey(d.stream, d.pool) && d.stream in s.sources && d.pool in s.pools && |d.buffer| <= s.bufferSize)
  }

  /** A source goroutine is on a message of its own stream that is its own to place. */
  ghost predicate SourceOk(s: State, stream: string)
    requires stream in s.sources
  {
    var src := s.sources[stream];
    && (InHands(src) != [] ==> src.m in s.fate && s.fate[src.m] == InSource && src.m.stream == stream)
    && (src.Looking? || src.Creating? || src.Offering? ==> src.pool in s.pools)
    && (src.Offering? ==> DT.RouteKey(stream, src.pool) in s.dispatchers)
  }

  ghost predicate DispatcherOk(s: State, k: string)
    requires k in s.dispatchers
  {
    var d := s.dispatchers[k];
    && NoDup(d.buffer)
    && (forall m :: m in d.buffer ==> m in s.fate && s.fate[m] == Buffered(k, d.pool))
    && (d.worker.Submitting? ==>
          d.worker.m in s.fate && s.fate[d.worker.m] == Held(k, d.pool))
  }

  ghost predicate PoolOk(s: State, p: string)
    requires p in s.pools
  {
    && FP.Inv(s.pools[p])
    && forall m :: m in s.pools[p].calls && m.stream in s.sources ==>
         m in s.fate &&
         match s.pools[p].calls[m]
         case Selecting => s.fate[m].Held? && s.fate[m].pool == p
         case Accepted => s.fate[m] == Fate.Accepted(p)
         case Refused(_) => s.fate[m] == SubmitFailed(p)
  }

  /** A received message is where its fate says. */
  ghost predicate MessageOk(s: State, m: Task)
    requires m in s.fate
  {
    && m.stream in s.sources
    && match s.fate[m]
       case InSource => InHands(s.sources[m.stream]) == [m]
       case NoRoute => true
       case QueueFull => true
       case Buffered(k, p) =>
         p in s.pools && m !in s.pools[p].calls
         && k in s.dispatchers && s.dispatchers[k].pool == p && m in s.dispatchers[k].buffer
       case Held(k, p) =>
         p in s.pools && FP.Calling(s.pools[p], m)
         && k in s.dispatchers && s.dispatchers[k].pool == p && Holding(s.dispatchers[k]) == [m]
       case SubmitFailed(p) => p in s.pools && m in s.pools[p].calls && s.pools[p].calls[m].Refused?
       case Accepted(p) => p in s.pools && m in s.pools[p].calls && s.pools[p].calls[m] == FP.Accepted
  }

  ghost predicate SourcesOk(s: State) { forall x :: x in s.sources ==> SourceOk(s, x) }

  ghost predicate DispatchersOk(s: State) { forall k :: k in s.dispatchers ==> DispatcherOk(s, k) }

  ghost predicate PoolsOk(s: State) { forall p :: p in s.pools ==> PoolOk(s, p) }

  ghost predicate MessagesOk(s: State) { forall m :: m in s.fate ==> MessageOk(s, m) }

  ghost predicate Located(s: State) {
    Named(s) && SourcesOk(s) && DispatchersOk(s) && PoolsOk(s) && MessagesOk(s)
  }

  lemma SpawnedLocated(s: State)
    requires JustSpawned(s)
    ensures Located(s)
  {
  }
}
