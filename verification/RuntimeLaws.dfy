/** Why a message is dropped, and when sources, dispatchers and `Stop` wait
    (pkg/runtime/runtime.go, dispatcher.go): said of buffers, routes and goroutines alone. */
module RuntimeLaws {
  import opened Sequences
  import opened Tasks
  import opened RoutingTable
  import opened RoutingService
  import DT = DispatcherTable
  import FP = FixedPool
  import FB = FixedPoolBlocking
  import opened Runtime
  import opened RuntimeMessages
  import opened RuntimeStop

  // ----- drops -----

  /** The two ways a message is dropped, as the step and the state it happens in. */
  ghost predicate Drops(s: State, a: Action, m: Task, f: Fate) {
    && a.ForSource? && a.stream == m.stream && m.stream in s.sources
    && match f
       case QueueFull =>
         && a.s.Offer? && s.sources[m.stream].Offering? && s.sources[m.stream].m == m
         && var key := DT.RouteKey(m.stream, s.sources[m.stream].pool);
            key in s.dispatchers && |s.dispatchers[key].buffer| == s.bufferSize
       case NoRoute =>
         && a.s.RouteIt? && s.sources[m.stream] == Routing(m)
         && (m.stream !in s.routes
             || (var e := s.routes[m.stream]; if m.key == [] then e.table == [] else e.ring == []))
       case _ => false
  }

  lemma NothingPicked(s: State, m: Task, ticket: nat)
    requires Named(s) && m.stream in s.routes
    ensures Picked(s, m, ticket).None? <==>
            var e := s.routes[m.stream]; if m.key == [] then e.table == [] else e.ring == []
  {
    var e := s.routes[m.stream];
    assert GoodEntry(s, e);
    var slots, n := if m.key == [] then e.table else e.ring, if m.key == [] then ticket else s.hash(m.key);
    if slots != [] {
      SlotInRange(slots, n);
      assert slots[n % |slots|] in slots;
    }
  }

  lemma SourceDrops(s: State, x: string, step: SourceStep, m: Task, f: Fate)
    requires Located(s) && SourceEnabled(s, x, step) && (f == QueueFull || f == NoRoute)
    requires m in DoSource(s, x, step).fate && DoSource(s, x, step).fate[m] == f && (m in s.fate ==> s.fate[m] != f)
    ensures Drops(s, ForSource(x, step), m, f)
  {
    assert SourceOk(s, x);
    if step.RouteIt? {
      if m.stream in s.routes { NothingPicked(s, m, step.ticket); }
    }
  }

  lemma StepDrops(s: State, a: Action, m: Task, f: Fate)
    requires Located(s) && Enabled(s, a) && (f == QueueFull || f == NoRoute)
    requires m in Step(s, a).fate && Step(s, a).fate[m] == f && (m in s.fate ==> s.fate[m] != f)
    ensures Drops(s, a, m, f)
  {
    if a.ForSource? {
      SourceDrops(s, a.stream, a.s, m, f);
    } else {
      OthersDropNothing(s, a, m, f);
    }
  }

  lemma OthersDropNothing(s: State, a: Action, m: Task, f: Fate)
    requires Enabled(s, a) && !a.ForSource? && (f == QueueFull || f == NoRoute)
    ensures m in Step(s, a).fate && Step(s, a).fate[m] == f ==> m in s.fate && s.fate[m] == f
  {
    if !a.ForDispatcher? { MovesNothing(s, a); }
  }

  /** The moment a message was dropped. */
  ghost predicate DroppedAt(s: State, run: seq<Action>, i: nat, m: Task, f: Fate) {
    i < |run| && Feasible(s, run[..i]) && Drops(After(s, run[..i]), run[i], m, f)
  }

  lemma {:induction false} DropIsExplained(s: State, run: seq<Action>, m: Task, f: Fate) returns (i: nat)
    requires Located(s) && Feasible(s, run) && (f == QueueFull || f == NoRoute)
    requires m in After(s, run).fate && After(s, run).fate[m] == f && (m in s.fate ==> s.fate[m] != f)
    ensures DroppedAt(s, run, i, m, f)
    decreases |run|
  {
    var s1 := Step(s, run[0]);
    if m in s1.fate && s1.fate[m] == f {
      i := 0;
      StepDrops(s, run[0], m, f);
      assert run[..0] == [];
    } else {
      StepLocated(s, run[0]);
      var j := DropIsExplained(s1, run[1..], m, f);
      i := j + 1;
      assert run[..i][1..] == run[1..][..j];
    }
  }

  /** In every run, a message dropped as queue-full was offered to a dispatcher whose buffer
      held exactly its capacity, and one dropped for want of a route came when its stream
      had no entry, or one without slots for it. */
  lemma DropsHaveACause(s0: State, run: seq<Action>, m: Task)
    requires JustSpawned(s0) && Feasible(s0, run) && m in After(s0, run).received
    ensures m in After(s0, run).fate
    ensures var f := After(s0, run).fate[m];
            f == QueueFull || f == NoRoute ==> exists i :: DroppedAt(s0, run, i, m, f)
  {
    SpawnedLocated(s0);
    RunRecorded(s0, run);
    var f := After(s0, run).fate[m];
    if f == QueueFull || f == NoRoute { var i := DropIsExplained(s0, run, m, f); }
  }

  /** `TrySubmit`: an offered message is dropped exactly when the buffer is full, and else is
      the last in it. */
  lemma OfferDropsExactly(s: State, x: string)
    requires Located(s) && SourceEnabled(s, x, Offer)
    ensures var m, key := s.sources[x].m, DT.RouteKey(x, s.sources[x].pool);
            var before, s' := s.dispatchers[key].buffer, Step(s, ForSource(x, Offer));
            && key in s'.dispatchers && m in s'.fate
            && (s'.fate[m] == QueueFull <==> |before| == s.bufferSize)
            && s'.dispatchers[key].buffer == (if |before| == s.bufferSize then before else before + [m])
  {
  }

  // ----- waiting -----

  /** A source goroutine that has a message can always go on: it never waits for a pool. */
  lemma SourceNeverWaits(s: State, x: string)
    requires Located(s) && x in s.sources && InHands(s.sources[x]) != []
    ensures exists step :: SourceEnabled(s, x, step)
  {
    assert SourceOk(s, x);
    var step := match s.sources[x]
      case Routing(_) => RouteIt(0)
      case Looking(_, _) => LookUp
      case Creating(_, _) => Create
      case _ => Offer;
    assert SourceEnabled(s, x, step);
  }

  /** A dispatcher waits exactly when it has returned, or, the context not having ended, has
      an empty buffer, or is in a `Submit` to a pool that is open and full with no worker
      waiting. */
  lemma DispatcherWaitsExactly(s: State, k: string)
    requires Located(s) && k in s.dispatchers
    ensures var d := s.dispatchers[k];
            d.pool in s.pools &&
            var pool := s.pools[d.pool];
            (forall step :: !DispatchEnabled(s, k, step)) <==>
            || d.worker.DispatcherGone?
            || (!s.contextDone && d.worker.Waiting? && d.buffer == [])
            || (!s.contextDone && d.worker.Submitting?
                && !pool.stopped && !pool.closed && |pool.queue| == pool.capacity
                && (pool.queue != [] || forall w :: 0 <= w < |pool.workers| ==> !pool.workers[w].Idle?))
  {
    var d := s.dispatchers[k];
    assert DispatcherOk(s, k) && PoolOk(s, d.pool);
    if d.worker.Waiting? {
      if d.buffer != [] { CanTake(s, k); }
      if s.contextDone { assert DispatchEnabled(s, k, Leave); }
    } else if d.worker.Submitting? {
      SubmittingWaits(s, k);
    }
  }

  lemma CanTake(s: State, k: string)
    requires Located(s) && k in s.dispatchers && s.dispatchers[k].worker.Waiting? && s.dispatchers[k].buffer != []
    ensures DispatchEnabled(s, k, TakeTask)
  {
    var m := s.dispatchers[k].buffer[0];
    assert DispatcherOk(s, k) && m in s.dispatchers[k].buffer;
    assert MessageOk(s, m);
  }

  lemma SubmittingWaits(s: State, k: string)
    requires Located(s) && k in s.dispatchers && s.dispatchers[k].worker.Submitting?
    ensures s.dispatchers[k].pool in s.pools
    ensures (forall step :: !DispatchEnabled(s, k, step)) <==>
            !s.contextDone && FB.SubmitBlocked(s.pools[s.dispatchers[k].pool], s.dispatchers[k].worker.m)
    ensures var pool := s.pools[s.dispatchers[k].pool];
            FB.SubmitBlocked(pool, s.dispatchers[k].worker.m) <==>
            && !pool.stopped && !pool.closed && |pool.queue| == pool.capacity
            && (pool.queue != [] || forall w :: 0 <= w < |pool.workers| ==> !pool.workers[w].Idle?)
  {
    SubmittingCalls(s, k);
    AttemptsWait(s, k);
    FB.InvBlocksExactly(s.pools[s.dispatchers[k].pool], s.dispatchers[k].worker.m);
  }

  lemma SubmittingCalls(s: State, k: string)
    requires Located(s) && k in s.dispatchers && s.dispatchers[k].worker.Submitting?
    ensures s.dispatchers[k].pool in s.pools && FP.Fifo(s.pools[s.dispatchers[k].pool])
    ensures FP.Calling(s.pools[s.dispatchers[k].pool], s.dispatchers[k].worker.m)
  {
    var d := s.dispatchers[k];
    assert DispatcherOk(s, k) && PoolOk(s, d.pool) && MessageOk(s, d.worker.m);
  }

  lemma AttemptsWait(s: State, k: string)
    requires k in s.dispatchers && s.dispatchers[k].worker.Submitting? && s.dispatchers[k].pool in s.pools
    requires FP.Calling(s.pools[s.dispatchers[k].pool], s.dispatchers[k].worker.m)
    ensures (forall step :: !DispatchEnabled(s, k, step)) <==>
            !s.contextDone && FB.SubmitBlocked(s.pools[s.dispatchers[k].pool], s.dispatchers[k].worker.m)
  {
    var m, ps := s.dispatchers[k].worker.m, s.pools[s.dispatchers[k].pool];
    if s.contextDone { assert DispatchEnabled(s, k, Attempt(FP.SeeContext(m))); }
    if a :| FB.OfCall(a, m) && FP.Enabled(ps, a) { assert DispatchEnabled(s, k, Attempt(a)); }
  }

  /** A source goroutine at its `Recv` takes any new message of its stream, and any error. */
  lemma ReceivesAnything(s: State, x: string, m: Task)
    requires x in s.sources && s.sources[x].Receiving?
    ensures SourceEnabled(s, x, RecvError)
    ensures m.stream == x && m !in s.fate && (forall p :: p in s.pools ==> m !in s.pools[p].calls) ==>
              SourceEnabled(s, x, Recv(m))
  {
  }

  // ----- what ends goroutines, contexts and routes -----

  lemma StepEndsSource(s: State, a: Action, x: string)
    requires Enabled(s, a) && x in s.sources
    ensures x in Step(s, a).sources
    ensures Step(s, a).sources[x].SourceGone? <==> s.sources[x].SourceGone? || a == ForSource(x, RecvError)
  {
    if !a.ForSource? && !a.ForDispatcher? { MovesNothing(s, a); }
  }

  /** A source goroutine has returned exactly when its `Recv` has failed: no drop, no full
      buffer and no stopped pool ends it. */
  lemma {:induction false} SourceReturnsExactly(s: State, run: seq<Action>, x: string)
    requires Feasible(s, run) && x in s.sources
    ensures x in After(s, run).sources
    ensures After(s, run).sources[x].SourceGone? <==> s.sources[x].SourceGone? || ForSource(x, RecvError) in run
    decreases |run|
  {
    if run != [] {
      StepEndsSource(s, run[0], x);
      SourceReturnsExactly(Step(s, run[0]), run[1..], x);
      assert run == [run[0]] + run[1..];
    }
  }

  ghost predicate ReturnedAtTheEnd(s: State) {
    forall k :: k in s.dispatchers && s.dispatchers[k].worker.DispatcherGone? ==> s.contextDone
  }

  lemma StepReturnsAtTheEnd(s: State, a: Action)
    requires Enabled(s, a) && ReturnedAtTheEnd(s)
    ensures ReturnedAtTheEnd(Step(s, a))
  {
    if !a.ForSource? && !a.ForDispatcher? { MovesNothing(s, a); }
  }

  /** No dispatcher returns before the context has ended, whatever its pool answers. */
  lemma {:induction false} DispatchersReturnAtTheEnd(s: State, run: seq<Action>)
    requires Feasible(s, run) && ReturnedAtTheEnd(s)
    ensures ReturnedAtTheEnd(After(s, run))
    decreases |run|
  {
    if run != [] {
      StepReturnsAtTheEnd(s, run[0]);
      DispatchersReturnAtTheEnd(Step(s, run[0]), run[1..]);
    }
  }

  ghost predicate EndsContext(a: Action) { a.ContextEnds? || a.StopCall? }

  lemma StepEndsContext(s: State, a: Action)
    requires Enabled(s, a)
    ensures Step(s, a).contextDone <==> s.contextDone || EndsContext(a)
  {
  }

  /** The context has ended exactly when its parent's has or `Stop` was called. */
  lemma {:induction false} ContextEndsExactly(s: State, run: seq<Action>)
    requires Feasible(s, run)
    ensures After(s, run).contextDone <==> s.contextDone || exists a :: a in run && EndsContext(a)
    decreases |run|
  {
    if run != [] {
      StepEndsContext(s, run[0]);
      ContextEndsExactly(Step(s, run[0]), run[1..]);
      assert run == [run[0]] + run[1..];
    }
  }

  /** The entry a run leaves for a stream: the last one bound, else the one there was. */
  ghost function LastBound(run: seq<Action>, x: string, was: Option<Entry>): Option<Entry> {
    if run == [] then was
    else LastBound(run[1..], x, if run[0].Rebind? && run[0].stream == x then Some(run[0].e) else was)
  }

  ghost function RouteOf(s: State, x: string): Option<Entry> { if x in s.routes then Some(s.routes[x]) else None }

  lemma StepBinds(s: State, a: Action, x: string)
    requires Enabled(s, a)
    ensures RouteOf(Step(s, a), x) == if a.Rebind? && a.stream == x then Some(a.e) else RouteOf(s, x)
  {
  }

  lemma {:induction false} RoutesAreLastBound(s: State, run: seq<Action>, x: string)
    requires Feasible(s, run)
    ensures RouteOf(After(s, run), x) == LastBound(run, x, RouteOf(s, x))
    decreases |run|
  {
    if run != [] {
      StepBinds(s, run[0], x);
      RoutesAreLastBound(Step(s, run[0]), run[1..], x);
    }
  }

  // ----- what Stop waits for -----

  /** The bookkeeping of `Stop` names dispatchers, pools and calls that exist. */
  ghost predicate StopShape(s: State) {
    && s.registered <= s.pools.Keys
    && match s.stop
       case StoppingDispatchers(rest) => rest <= s.dispatchers.Keys
       case Draining(rest, current) =>
         && rest <= s.registered
         && (current.Some? ==>
               var (p, d) := current.value; p in rest && p in s.pools && d in s.pools[p].drains)
       case _ => true
  }

  lemma DispatchersGrow(s: State, a: Action)
    requires Enabled(s, a)
    ensures s.dispatchers.Keys <= Step(s, a).dispatchers.Keys
  {
  }

  lemma DrainsGrow(s: State, a: Action, p: string)
    requires Enabled(s, a) && p in s.pools
    ensures p in Step(s, a).pools && s.pools[p].drains.Keys <= Step(s, a).pools[p].drains.Keys
  {
    PoolStepsOnly(s, a, p);
    if Step(s, a).pools[p] != s.pools[p] {
      var pa :| FP.Enabled(s.pools[p], pa) && Step(s, a).pools[p] == FP.Step(s.pools[p], pa);
      CallsGrow(s.pools[p], pa);
    }
  }

  lemma CallsGrow(ps: FP.State, a: FP.Action)
    requires FP.Enabled(ps, a)
    ensures ps.drains.Keys <= FP.Step(ps, a).drains.Keys
  {
  }

  lemma StepStopShape(s: State, a: Action)
    requires StopShape(s) && Enabled(s, a)
    ensures StopShape(Step(s, a))
  {
    SameNames(s, a);
    DispatchersGrow(s, a);
    if s.stop.Draining? && s.stop.current.Some? { DrainsGrow(s, a, s.stop.current.value.0); }
    StopMoves(s, a);
  }

  /** How a step changes the phase of `Stop`. */
  lemma StopMoves(s: State, a: Action)
    requires Enabled(s, a)
    ensures Step(s, a).registered == s.registered
    ensures Step(s, a).stop == s.stop || Step(s, a).stop.AwaitingSources? || Step(s, a).stop.Returned?
            || (a.SourcesExited? && Step(s, a).stop == StoppingDispatchers(s.dispatchers.Keys))
            || (a.DispatcherExited? && Step(s, a).stop == StoppingDispatchers(s.stop.rest - {a.key}))
            || (a.DispatchersExited? && Step(s, a).stop == Draining(s.registered, None))
            || (a.DrainPool? && Step(s, a).stop == Draining(s.stop.rest, Some((a.pool, a.call)))
                && a.pool in s.stop.rest && a.pool in Step(s, a).pools && a.call in Step(s, a).pools[a.pool].drains)
            || (a.DrainReturned? && Step(s, a).stop == Draining(s.stop.rest - {s.stop.current.value.0}, None))
    ensures a.DispatcherExited? ==> s.stop.StoppingDispatchers?
    ensures a.DrainPool? || a.DrainReturned? ==> s.stop.Draining?
  {
  }

  lemma {:induction false} RunStopShape(s: State, run: seq<Action>)
    requires StopShape(s) && Feasible(s, run)
    ensures StopShape(After(s, run))
    decreases |run|
  {
    if run != [] {
      StepStopShape(s, run[0]);
      RunStopShape(Step(s, run[0]), run[1..]);
    }
  }

  ghost predicate OfStop(a: Action) {
    || a.SourcesExited? || a.DispatcherExited? || a.DispatchersExited?
    || a.DrainPool? || a.DrainReturned? || a.StopReturns?
  }

  lemma {:induction false} UnusedNumber(used: set<nat>) returns (n: nat)
    ensures forall d :: d in used ==> d < n
    decreases used
  {
    if used == {} {
      n := 0;
    } else {
      var d :| d in used;
      n := UnusedNumber(used - {d});
      if n <= d { n := d + 1; }
      assert forall x :: x in used ==> x == d || x in used - {d};
    }
  }

  /** A `Stop` that has been called and has not returned waits exactly for sources that have
      not returned, for dispatchers that have not returned, or for the drain it has begun. */
  lemma StopWaitsExactly(s0: State, run: seq<Action>)
    requires JustSpawned(s0) && Feasible(s0, run)
    requires !After(s0, run).stop.NotCalled? && !After(s0, run).stop.Returned?
    ensures var s := After(s0, run);
            (forall a :: OfStop(a) ==> !Enabled(s, a)) <==>
            match s.stop
            case AwaitingSources => exists x :: x in s.sources && !s.sources[x].SourceGone?
            case StoppingDispatchers(rest) =>
              rest != {} && forall k :: k in rest ==> k in s.dispatchers && !s.dispatchers[k].worker.DispatcherGone?
            case Draining(_, current) =>
              current.Some? && var (p, d) := current.value;
              p in s.pools && d in s.pools[p].drains && !s.pools[p].drains[d].Returned?
            case _ => false
  {
    RunStopShape(s0, run);
    WaitsInPhase(After(s0, run));
  }

  lemma WaitsInPhase(s: State)
    requires StopShape(s) && !s.stop.NotCalled? && !s.stop.Returned?
    ensures (forall a :: OfStop(a) ==> !Enabled(s, a)) <==>
            match s.stop
            case AwaitingSources => exists x :: x in s.sources && !s.sources[x].SourceGone?
            case StoppingDispatchers(rest) =>
              rest != {} && forall k :: k in rest ==> k in s.dispatchers && !s.dispatchers[k].worker.DispatcherGone?
            case Draining(_, current) =>
              current.Some? && var (p, d) := current.value;
              p in s.pools && d in s.pools[p].drains && !s.pools[p].drains[d].Returned?
            case _ => false
  {
    match s.stop
    case AwaitingSources =>
      assert OfStop(SourcesExited);
    case StoppingDispatchers(rest) =>
      if rest == {} { assert OfStop(DispatchersExited) && Enabled(s, DispatchersExited); }
      if k :| k in rest && s.dispatchers[k].worker.DispatcherGone? {
        assert OfStop(DispatcherExited(k)) && Enabled(s, DispatcherExited(k));
      }
    case Draining(rest, current) =>
      if current.Some? {
        assert OfStop(DrainReturned);
      } else if rest == {} {
        assert OfStop(StopReturns) && Enabled(s, StopReturns);
      } else {
        var p :| p in rest;
        var d := UnusedNumber(s.pools[p].drains.Keys);
        assert OfStop(DrainPool(p, d)) && Enabled(s, DrainPool(p, d));
      }
    case _ =>
  }
}
