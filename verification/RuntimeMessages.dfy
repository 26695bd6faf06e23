/** Message conservation in the runtime: every step keeps each received message in exactly
    the place its fate names, and no dispatcher buffer exceeds its capacity. */
module RuntimeMessages {
  import opened Sequences
  import opened Tasks
  import DT = DispatcherTable
  import FP = FixedPool
  import opened Runtime

  lemma PickedIsPool(s: State, m: Task, ticket: nat)
    requires Named(s) && Picked(s, m, ticket).Some?
    ensures Picked(s, m, ticket).value in s.pools
  {
  }

  // ----- source steps -----

  lemma SourceNamed(s: State, stream: string, step: SourceStep)
    requires Named(s) && SourceEnabled(s, stream, step) && SourceOk(s, stream)
    ensures Named(DoSource(s, stream, step))
  {
  }

  lemma SourceSources(s: State, stream: string, step: SourceStep, x: string)
    requires Named(s) && SourceEnabled(s, stream, step) && x in s.sources
    requires SourceOk(s, x) && SourceOk(s, stream)
    ensures SourceOk(DoSource(s, stream, step), x)
  {
    if step.RouteIt? && Picked(s, s.sources[stream].m, step.ticket).Some? {
      PickedIsPool(s, s.sources[stream].m, step.ticket);
    }
  }

  lemma SourceDispatchers(s: State, stream: string, step: SourceStep, k: string)
    requires Named(s) && SourceEnabled(s, stream, step) && SourceOk(s, stream)
    requires k in s.dispatchers ==> DispatcherOk(s, k)
    requires k in DoSource(s, stream, step).dispatchers
    ensures DispatcherOk(DoSource(s, stream, step), k)
  {
    if step.Offer? {
      var src := s.sources[stream];
      if k == DT.RouteKey(stream, src.pool) {
        assert src.m !in s.dispatchers[k].buffer;
        NoDupAppend(s.dispatchers[k].buffer, src.m);
      }
    }
  }

  lemma SourcePools(s: State, stream: string, step: SourceStep, p: string)
    requires SourceEnabled(s, stream, step) && SourceOk(s, stream) && p in s.pools && PoolOk(s, p)
    requires InNoPool(s, stream)
    ensures PoolOk(DoSource(s, stream, step), p)
  {
  }

  /** The message a source holds is in no pool yet. */
  ghost predicate InNoPool(s: State, stream: string)
    requires stream in s.sources
  {
    InHands(s.sources[stream]) != [] ==>
      forall p :: p in s.pools ==> s.sources[stream].m !in s.pools[p].calls
  }

  lemma HeldByNoPool(s: State, stream: string)
    requires Located(s) && stream in s.sources
    ensures InNoPool(s, stream)
  {
    assert SourceOk(s, stream);
    forall p | p in s.pools && InHands(s.sources[stream]) != [] ensures s.sources[stream].m !in s.pools[p].calls {
      assert PoolOk(s, p);
    }
  }

  lemma SourceMessages(s: State, stream: string, step: SourceStep, m: Task)
    requires Named(s) && SourceEnabled(s, stream, step) && SourceOk(s, stream) && InNoPool(s, stream)
    requires m in s.fate ==> MessageOk(s, m)
    requires m in DoSource(s, stream, step).fate
    ensures MessageOk(DoSource(s, stream, step), m)
  {
  }

  lemma SourceLocated(s: State, stream: string, step: SourceStep)
    requires Located(s) && SourceEnabled(s, stream, step)
    ensures Located(DoSource(s, stream, step))
  {
    var s' := DoSource(s, stream, step);
    assert SourceOk(s, stream);
    HeldByNoPool(s, stream);
    SourceNamed(s, stream, step);
    forall x | x in s'.sources ensures SourceOk(s', x) { SourceSources(s, stream, step, x); }
    forall k | k in s'.dispatchers ensures DispatcherOk(s', k) { SourceDispatchers(s, stream, step, k); }
    forall p | p in s'.pools ensures PoolOk(s', p) { SourcePools(s, stream, step, p); }
    forall m | m in s'.fate ensures MessageOk(s', m) { SourceMessages(s, stream, step, m); }
  }

  // ----- dispatcher steps -----

  /** How a submission that ends changes the calls of its pool. */
  ghost function EndOf(a: FP.Action): FP.Call {
    if Accepting(a) then FP.Accepted
    else if a.SeeContext? then FP.Refused(FP.ContextEnded)
    else FP.Refused(FP.PoolClosed)
  }

  lemma AttemptCalls(ps: FP.State, a: FP.Action, m: Task, contextDone: bool)
    requires SubmitEnds(a, m, contextDone) && FP.Enabled(ps, a)
    ensures m in ps.calls && ps.calls[m].Selecting?
    ensures FP.Step(ps, a).calls == ps.calls[m := EndOf(a)]
  {
  }

  lemma DispatchSources(s: State, key: string, step: DispatchStep)
    requires DispatchEnabled(s, key, step) && DispatcherOk(s, key) && SourcesOk(s)
    ensures SourcesOk(DoDispatch(s, key, step))
  {
    if step.TakeTask? {
      assert s.dispatchers[key].buffer[0] in s.dispatchers[key].buffer;
    }
    forall x | x in s.sources ensures SourceOk(DoDispatch(s, key, step), x) { assert SourceOk(s, x); }
  }

  lemma DispatchDispatcher(s: State, key: string, step: DispatchStep, k: string)
    requires Named(s) && DispatchEnabled(s, key, step) && DispatcherOk(s, key)
    requires k in s.dispatchers && DispatcherOk(s, k)
    ensures DispatcherOk(DoDispatch(s, key, step), k)
  {
    var d := s.dispatchers[key];
    if step.TakeTask? {
      assert d.buffer[0] in d.buffer;
      if k == key {
        assert forall m :: m in d.buffer[1..] ==> m in d.buffer && m != d.buffer[0];
      }
    }
  }

  lemma TakePool(s: State, key: string)
    requires DispatchEnabled(s, key, TakeTask) && DispatcherOk(s, key) && PoolOk(s, s.dispatchers[key].pool)
    ensures PoolOk(DoDispatch(s, key, TakeTask), s.dispatchers[key].pool)
  {
    var d := s.dispatchers[key];
    assert d.buffer[0] in d.buffer;
    FP.StepInv(s.pools[d.pool], FP.Begin(d.buffer[0]));
  }

  lemma AttemptPool(s: State, key: string, a: FP.Action)
    requires DispatchEnabled(s, key, Attempt(a)) && DispatcherOk(s, key) && PoolOk(s, s.dispatchers[key].pool)
    ensures PoolOk(DoDispatch(s, key, Attempt(a)), s.dispatchers[key].pool)
  {
    var d := s.dispatchers[key];
    var ps' := DoDispatch(s, key, Attempt(a)).pools[d.pool];
    FP.StepInv(s.pools[d.pool], a);
    AttemptCalls(s.pools[d.pool], a, d.worker.m, s.contextDone);
    assert ps'.calls == s.pools[d.pool].calls[d.worker.m := EndOf(a)];
  }

  lemma OtherPool(s: State, key: string, step: DispatchStep, p: string)
    requires DispatchEnabled(s, key, step) && DispatcherOk(s, key) && p in s.pools && PoolOk(s, p)
    requires p != s.dispatchers[key].pool
    ensures PoolOk(DoDispatch(s, key, step), p)
  {
    if step.TakeTask? { assert s.dispatchers[key].buffer[0] in s.dispatchers[key].buffer; }
  }

  lemma DispatchPool(s: State, key: string, step: DispatchStep, p: string)
    requires DispatchEnabled(s, key, step) && DispatcherOk(s, key) && p in s.pools && PoolOk(s, p)
    ensures PoolOk(DoDispatch(s, key, step), p)
  {
    if p != s.dispatchers[key].pool {
      OtherPool(s, key, step, p);
    } else if step.TakeTask? {
      TakePool(s, key);
    } else if step.Attempt? {
      AttemptPool(s, key, step.a);
    }
  }

  lemma TakeMessage(s: State, key: string, m: Task)
    requires Named(s) && DispatchEnabled(s, key, TakeTask) && DispatcherOk(s, key)
    requires m in s.fate && MessageOk(s, m) && MessageOk(s, s.dispatchers[key].buffer[0])
    ensures MessageOk(DoDispatch(s, key, TakeTask), m)
  {
    var d := s.dispatchers[key];
    assert d.buffer[0] in d.buffer;
    assert d.buffer == [d.buffer[0]] + d.buffer[1..];
  }

  lemma AttemptMessage(s: State, key: string, a: FP.Action, m: Task)
    requires Named(s) && DispatchEnabled(s, key, Attempt(a)) && DispatcherOk(s, key)
    requires m in s.fate && MessageOk(s, m) && MessageOk(s, s.dispatchers[key].worker.m)
    ensures MessageOk(DoDispatch(s, key, Attempt(a)), m)
  {
    var d := s.dispatchers[key];
    AttemptCalls(s.pools[d.pool], a, d.worker.m, s.contextDone);
  }

  lemma DispatchMessage(s: State, key: string, step: DispatchStep, m: Task)
    requires Named(s) && DispatchEnabled(s, key, step) && DispatcherOk(s, key) && MessagesOk(s)
    requires m in s.fate
    ensures MessageOk(DoDispatch(s, key, step), m)
  {
    var d := s.dispatchers[key];
    assert MessageOk(s, m);
    if step.TakeTask? {
      assert d.buffer[0] in d.buffer;
      TakeMessage(s, key, m);
    } else if step.Attempt? {
      AttemptMessage(s, key, step.a, m);
    }
  }

  lemma DispatchNamed(s: State, key: string, step: DispatchStep)
    requires Named(s) && DispatchEnabled(s, key, step)
    ensures Named(DoDispatch(s, key, step))
  {
  }

  lemma DispatchDispatchers(s: State, key: string, step: DispatchStep)
    requires Named(s) && DispatchersOk(s) && DispatchEnabled(s, key, step)
    ensures DispatchersOk(DoDispatch(s, key, step))
  {
    var s' := DoDispatch(s, key, step);
    assert DispatcherOk(s, key);
    forall k | k in s'.dispatchers ensures DispatcherOk(s', k) {
      assert DispatcherOk(s, k);
      DispatchDispatcher(s, key, step, k);
    }
  }

  lemma DispatchPools(s: State, key: string, step: DispatchStep)
    requires DispatchersOk(s) && PoolsOk(s) && DispatchEnabled(s, key, step)
    ensures PoolsOk(DoDispatch(s, key, step))
  {
    var s' := DoDispatch(s, key, step);
    assert DispatcherOk(s, key);
    forall p | p in s'.pools ensures PoolOk(s', p) {
      assert PoolOk(s, p);
      DispatchPool(s, key, step, p);
    }
  }

  /** A dispatcher moves messages on; it neither receives nor forgets one. */
  lemma DispatchKeepsSet(s: State, key: string, step: DispatchStep)
    requires DispatchEnabled(s, key, step) && DispatchersOk(s)
    ensures DoDispatch(s, key, step).fate.Keys == s.fate.Keys
  {
    assert DispatcherOk(s, key);
    if step.TakeTask? { assert s.dispatchers[key].buffer[0] in s.dispatchers[key].buffer; }
  }

  lemma DispatchMessages(s: State, key: string, step: DispatchStep)
    requires Named(s) && DispatchersOk(s) && MessagesOk(s) && DispatchEnabled(s, key, step)
    ensures MessagesOk(DoDispatch(s, key, step))
  {
    var s' := DoDispatch(s, key, step);
    assert DispatcherOk(s, key);
    DispatchKeepsSet(s, key, step);
    forall m | m in s'.fate ensures MessageOk(s', m) { DispatchMessage(s, key, step, m); }
  }

  lemma DispatchLocated(s: State, key: string, step: DispatchStep)
    requires Located(s) && DispatchEnabled(s, key, step)
    ensures Located(DoDispatch(s, key, step))
  {
    assert DispatcherOk(s, key);
    DispatchNamed(s, key, step);
    DispatchSources(s, key, step);
    DispatchDispatchers(s, key, step);
    DispatchPools(s, key, step);
    DispatchMessages(s, key, step);
  }

  // ----- pool steps -----

  /** A foreign step leaves the calls of the runtime's own messages alone. */
  lemma ForeignCalls(s: State, pool: string, a: FP.Action, m: Task)
    requires PoolEnabled(s, pool, a) && m.stream in s.sources
    ensures var calls, calls' := s.pools[pool].calls, FP.Step(s.pools[pool], a).calls;
            (m in calls <==> m in calls') && (m in calls ==> calls[m] == calls'[m])
  {
  }

  lemma ForeignPool(s: State, pool: string, a: FP.Action)
    requires PoolEnabled(s, pool, a) && PoolOk(s, pool)
    ensures PoolOk(DoPool(s, pool, a), pool)
  {
    var ps' := FP.Step(s.pools[pool], a);
    FP.StepInv(s.pools[pool], a);
    forall m | m in ps'.calls && m.stream in s.sources
      ensures m in s.pools[pool].calls && ps'.calls[m] == s.pools[pool].calls[m]
    {
      ForeignCalls(s, pool, a, m);
    }
  }

  /** Same calls in the pools, same messages everywhere else. */
  ghost predicate SameCalls(s: State, s': State) {
    && s'.sources == s.sources && s'.dispatchers == s.dispatchers && s'.fate == s.fate
    && s'.pools.Keys == s.pools.Keys
    && forall p: string, m: Task :: p in s.pools && m.stream in s.sources ==>
         (m in s.pools[p].calls <==> m in s'.pools[p].calls)
         && (m in s.pools[p].calls ==> s'.pools[p].calls[m] == s.pools[p].calls[m])
  }

  lemma SameCallsMessage(s: State, s': State, m: Task)
    requires SameCalls(s, s') && m in s.fate && MessageOk(s, m)
    ensures MessageOk(s', m)
  {
  }

  lemma SameCallsKeep(s: State, s': State)
    requires SameCalls(s, s') && SourcesOk(s) && DispatchersOk(s) && MessagesOk(s)
    ensures SourcesOk(s') && DispatchersOk(s') && MessagesOk(s')
  {
    forall x | x in s'.sources ensures SourceOk(s', x) { assert SourceOk(s, x); }
    forall k | k in s'.dispatchers ensures DispatcherOk(s', k) { assert DispatcherOk(s, k); }
    forall m | m in s'.fate ensures MessageOk(s', m) {
      assert MessageOk(s, m);
      SameCallsMessage(s, s', m);
    }
  }

  lemma PoolSameCalls(s: State, pool: string, a: FP.Action)
    requires PoolEnabled(s, pool, a)
    ensures SameCalls(s, DoPool(s, pool, a))
  {
    var s' := DoPool(s, pool, a);
    forall p: string, m: Task | p in s.pools && m.stream in s.sources
      ensures m in s.pools[p].calls <==> m in s'.pools[p].calls
      ensures m in s.pools[p].calls ==> s'.pools[p].calls[m] == s.pools[p].calls[m]
    {
      if p == pool { ForeignCalls(s, pool, a, m); }
    }
  }

  lemma PoolPools(s: State, pool: string, a: FP.Action)
    requires PoolsOk(s) && PoolEnabled(s, pool, a)
    ensures PoolsOk(DoPool(s, pool, a))
  {
    var s' := DoPool(s, pool, a);
    assert PoolOk(s, pool);
    ForeignPool(s, pool, a);
    forall p | p in s'.pools ensures PoolOk(s', p) { assert PoolOk(s, p); }
  }

  lemma PoolNamed(s: State, pool: string, a: FP.Action)
    requires Named(s) && PoolEnabled(s, pool, a)
    ensures Named(DoPool(s, pool, a))
  {
    var s' := DoPool(s, pool, a);
    forall x | x in s'.routes ensures GoodEntry(s', s'.routes[x]) { assert GoodEntry(s, s'.routes[x]); }
  }

  lemma PoolLocated(s: State, pool: string, a: FP.Action)
    requires Located(s) && PoolEnabled(s, pool, a)
    ensures Located(DoPool(s, pool, a))
  {
    PoolSameCalls(s, pool, a);
    SameCallsKeep(s, DoPool(s, pool, a));
    PoolPools(s, pool, a);
    PoolNamed(s, pool, a);
  }

  // ----- the rest -----

  /** Steps that move no message and touch no pool. */
  ghost predicate SamePlaces(s: State, s': State) {
    && s'.sources == s.sources && s'.dispatchers == s.dispatchers && s'.fate == s.fate && s'.pools == s.pools
    && s'.bufferSize == s.bufferSize && s'.registered == s.registered
  }

  lemma SamePlacesLocated(s: State, s': State)
    requires Located(s) && SamePlaces(s, s')
    requires forall x :: x in s'.routes ==> GoodEntry(s, s'.routes[x])
    ensures Located(s')
  {
    SameCallsKeep(s, s');
    forall p | p in s'.pools ensures PoolOk(s', p) { assert PoolOk(s, p); }
    forall x | x in s'.routes ensures GoodEntry(s', s'.routes[x]) { assert GoodEntry(s, s'.routes[x]); }
  }

  ghost predicate Control(a: Action) {
    !a.ForSource? && !a.ForDispatcher? && !a.ForPool? && !a.DrainPool?
  }

  lemma ControlSamePlaces(s: State, a: Action)
    requires Enabled(s, a) && Control(a)
    ensures SamePlaces(s, Step(s, a))
    ensures Step(s, a).routes == if a.Rebind? then s.routes[a.stream := a.e] else s.routes
  {
  }

  lemma ControlLocated(s: State, a: Action)
    requires Located(s) && Enabled(s, a) && Control(a)
    ensures Located(Step(s, a))
  {
    ControlSamePlaces(s, a);
    SamePlacesLocated(s, Step(s, a));
  }

  lemma DrainCallLocated(s: State, pool: string, call: nat)
    requires Located(s) && Enabled(s, DrainPool(pool, call))
    ensures Located(Step(s, DrainPool(pool, call)))
  {
    var t := DoPool(s, pool, FP.DrainCall(call));
    PoolLocated(s, pool, FP.DrainCall(call));
    SamePlacesLocated(t, Step(s, DrainPool(pool, call)));
  }

  lemma StepLocated(s: State, a: Action)
    requires Located(s) && Enabled(s, a)
    ensures Located(Step(s, a))
  {
    if a.ForSource? {
      SourceLocated(s, a.stream, a.s);
    } else if a.ForDispatcher? {
      DispatchLocated(s, a.key, a.d);
    } else if a.ForPool? {
      PoolLocated(s, a.pool, a.a);
    } else if a.DrainPool? {
      DrainCallLocated(s, a.pool, a.call);
    } else {
      ControlLocated(s, a);
    }
  }

  // ----- what no step changes -----

  lemma SameNames(s: State, a: Action)
    requires Enabled(s, a)
    ensures Step(s, a).sources.Keys == s.sources.Keys && Step(s, a).pools.Keys == s.pools.Keys
  {
  }

  /** Whatever happens to a pool, it is some step of the pool. */
  lemma PoolStepsOnly(s: State, a: Action, p: string)
    requires Enabled(s, a) && p in s.pools
    ensures p in Step(s, a).pools
    ensures || Step(s, a).pools[p] == s.pools[p]
            || exists pa :: FP.Enabled(s.pools[p], pa) && Step(s, a).pools[p] == FP.Step(s.pools[p], pa)
  {
    if a.ForDispatcher? {
      var d := s.dispatchers[a.key];
      if a.d.TakeTask? {
        assert FP.Enabled(s.pools[d.pool], FP.Begin(d.buffer[0]));
      } else if a.d.Attempt? {
        assert FP.Enabled(s.pools[d.pool], a.d.a);
      }
    } else if a.ForPool? {
      assert FP.Enabled(s.pools[a.pool], a.a);
    } else if a.DrainPool? {
      assert FP.Enabled(s.pools[a.pool], FP.DrainCall(a.call));
    }
  }

  lemma StepKeepsPool(ps: FP.State, a: FP.Action)
    requires FP.Enabled(ps, a)
    ensures ps.stopped ==> FP.Step(ps, a).stopped
    ensures |FP.Step(ps, a).workers| == |ps.workers|
  {
  }

  lemma PoolsKeep(s: State, a: Action, p: string)
    requires Enabled(s, a) && p in s.pools
    ensures p in Step(s, a).pools && (s.pools[p].stopped ==> Step(s, a).pools[p].stopped)
    ensures |Step(s, a).pools[p].workers| == |s.pools[p].workers|
  {
    PoolStepsOnly(s, a, p);
    if Step(s, a).pools[p] != s.pools[p] {
      var pa :| FP.Enabled(s.pools[p], pa) && Step(s, a).pools[p] == FP.Step(s.pools[p], pa);
      StepKeepsPool(s.pools[p], pa);
    }
  }

  // ----- every message has exactly one fate -----

  ghost predicate Recorded(s: State) {
    && NoDup(s.received)
    && forall m: Task :: m in s.received <==> m in s.fate
  }

  lemma DispatchRecorded(s: State, key: string, step: DispatchStep)
    requires Recorded(s) && DispatchersOk(s) && DispatchEnabled(s, key, step)
    ensures Recorded(DoDispatch(s, key, step))
  {
    DispatchKeepsSet(s, key, step);
    assert forall m: Task :: m in DoDispatch(s, key, step).fate <==> m in DoDispatch(s, key, step).fate.Keys;
  }

  lemma SourceRecorded(s: State, stream: string, step: SourceStep)
    requires Recorded(s) && SourcesOk(s) && SourceEnabled(s, stream, step)
    ensures Recorded(DoSource(s, stream, step))
  {
    assert SourceOk(s, stream);
    if step.Recv? { NoDupAppend(s.received, step.m); }
  }

  /** Only goroutines of the runtime itself move messages. */
  lemma MovesNothing(s: State, a: Action)
    requires Enabled(s, a) && !a.ForSource? && !a.ForDispatcher?
    ensures Step(s, a).received == s.received && Step(s, a).fate == s.fate
    ensures Step(s, a).sources == s.sources && Step(s, a).dispatchers == s.dispatchers
  {
    if Control(a) { ControlSamePlaces(s, a); }
  }

  lemma StepRecorded(s: State, a: Action)
    requires Located(s) && Recorded(s) && Enabled(s, a)
    ensures Recorded(Step(s, a))
  {
    if a.ForSource? {
      SourceRecorded(s, a.stream, a.s);
    } else if a.ForDispatcher? {
      DispatchRecorded(s, a.key, a.d);
    } else {
      MovesNothing(s, a);
    }
  }

  lemma {:induction false} RunRecorded(s: State, run: seq<Action>)
    requires Located(s) && Recorded(s) && Feasible(s, run)
    ensures Located(After(s, run)) && Recorded(After(s, run))
    decreases |run|
  {
    if run != [] {
      StepLocated(s, run[0]);
      StepRecorded(s, run[0]);
      RunRecorded(Step(s, run[0]), run[1..]);
    }
  }

  /** The fates that leave a message somewhere, read off the goroutines and pools. */
  ghost predicate IsAt(s: State, m: Task, f: Fate) {
    match f
    case InSource => m.stream in s.sources && InHands(s.sources[m.stream]) == [m]
    case NoRoute => false
    case QueueFull => false
    case Buffered(k, p) => k in s.dispatchers && s.dispatchers[k].pool == p && m in s.dispatchers[k].buffer
    case Held(k, p) => k in s.dispatchers && s.dispatchers[k].pool == p && Holding(s.dispatchers[k]) == [m]
    case SubmitFailed(p) => p in s.pools && m in s.pools[p].calls && s.pools[p].calls[m].Refused?
    case Accepted(p) => p in s.pools && m in s.pools[p].accepted
  }

  lemma PlaceIsFate(s: State, m: Task, f: Fate)
    requires Located(s) && m in s.fate && !f.NoRoute? && !f.QueueFull?
    ensures IsAt(s, m, f) <==> s.fate[m] == f
  {
    assert MessageOk(s, m);
    assert SourceOk(s, m.stream);
    match f
    case InSource =>
    case Buffered(k, p) => PlaceInDispatcher(s, m, k, p);
    case Held(k, p) => PlaceInDispatcher(s, m, k, p);
    case SubmitFailed(p) => if p in s.pools { assert PoolOk(s, p); }
    case Accepted(p) => if p in s.pools { assert PoolOk(s, p); }
  }

  lemma PlaceInDispatcher(s: State, m: Task, k: string, p: string)
    requires Located(s) && m in s.fate
    ensures IsAt(s, m, Buffered(k, p)) <==> s.fate[m] == Buffered(k, p)
    ensures IsAt(s, m, Held(k, p)) <==> s.fate[m] == Held(k, p)
  {
    assert MessageOk(s, m);
    if k in s.dispatchers {
      assert DispatcherOk(s, k);
    }
  }

  /** Message conservation: in every state of every run, `Stop` included, the messages that
      have a fate are exactly those received, each received once; a message is in a source
      goroutine, in the buffer (once) or the hands of one dispatcher, or among a pool's
      accepted or refused calls exactly when that is its fate, and nowhere at all when it was
      dropped; no dispatcher buffer exceeds its capacity. */
  lemma MessagesAreConserved(s: State, run: seq<Action>)
    requires JustSpawned(s) && Feasible(s, run)
    ensures var t := After(s, run);
            && NoDup(t.received) && (forall m: Task :: m in t.received <==> m in t.fate)
            && (forall m: Task, f: Fate :: m in t.received && !f.NoRoute? && !f.QueueFull? ==>
                  (IsAt(t, m, f) <==> t.fate[m] == f))
            && (forall k :: k in t.dispatchers ==>
                NoDup(t.dispatchers[k].buffer) && |t.dispatchers[k].buffer| <= t.bufferSize)
  {
    SpawnedLocated(s);
    RunRecorded(s, run);
    var t := After(s, run);
    forall m: Task, f: Fate | m in t.received && !f.NoRoute? && !f.QueueFull?
      ensures IsAt(t, m, f) <==> t.fate[m] == f
    {
      PlaceIsFate(t, m, f);
    }
    forall k | k in t.dispatchers ensures NoDup(t.dispatchers[k].buffer) { assert DispatcherOk(t, k); }
  }
}
