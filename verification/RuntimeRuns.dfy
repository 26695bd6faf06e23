/** Concrete runs of the runtime: what ambiguous stream names and a stopped dispatcher do to
    messages, and that each of these happens. */
module RuntimeRuns {
  import opened Tasks
  import opened RoutingTable
  import DT = DispatcherTable
  import FP = FixedPool
  import opened Runtime
  import opened RuntimeMessages
  import opened RuntimeOrder

  // ----- one message on its way -----

  /** A stream routed to one pool only. */
  ghost predicate RoutedTo(s: State, stream: string, pool: string) {
    && stream in s.sources && stream in s.routes && s.routes[stream] == Entry([pool], [0], [0])
  }

  ghost predicate Unseen(s: State, m: Task) {
    m !in s.fate && m.key == [] && forall p :: p in s.pools ==> m !in s.pools[p].calls
  }

  /** The dispatchers after a lookup of the stream's dispatcher for `pool`. */
  ghost function WithDispatcher(s: State, stream: string, pool: string): map<string, Dispatcher> {
    var k := DT.RouteKey(stream, pool);
    if k in s.dispatchers then s.dispatchers else s.dispatchers[k := Dispatcher(stream, pool, [], Waiting)]
  }

  /** Received and routed. */
  lemma ReceiveAndRoute(s: State, m: Task, pool: string) returns (run: seq<Action>)
    requires RoutedTo(s, m.stream, pool) && s.sources[m.stream].Receiving? && Unseen(s, m)
    ensures Feasible(s, run)
    ensures After(s, run) == s.(sources := s.sources[m.stream := Looking(m, pool)],
                                received := s.received + [m], fate := s.fate[m := InSource])
  {
    var a, b := ForSource(m.stream, Recv(m)), ForSource(m.stream, RouteIt(0));
    var s1 := DoSource(s, m.stream, Recv(m));
    PickedAlways(s1, m, pool, 0);
    OneStep(s, a);
    OneMoreStep(s, [a], b);
    run := [a] + [b];
  }

  /** And with its dispatcher looked up. */
  lemma UpToOffer(s: State, m: Task, pool: string) returns (run: seq<Action>)
    requires RoutedTo(s, m.stream, pool) && s.sources[m.stream].Receiving? && Unseen(s, m)
    ensures Feasible(s, run)
    ensures After(s, run) == s.(sources := s.sources[m.stream := Offering(m, pool)],
                                dispatchers := WithDispatcher(s, m.stream, pool),
                                received := s.received + [m], fate := s.fate[m := InSource])
  {
    var first := ReceiveAndRoute(s, m, pool);
    var rest := LookedUp(After(s, first), m, pool);
    RunsCompose(s, first, rest);
    run := first + rest;
  }

  lemma LookedUp(s: State, m: Task, pool: string) returns (run: seq<Action>)
    requires m.stream in s.sources && s.sources[m.stream] == Looking(m, pool)
    ensures Feasible(s, run)
    ensures After(s, run) == s.(sources := s.sources[m.stream := Offering(m, pool)],
                                dispatchers := WithDispatcher(s, m.stream, pool))
  {
    var a, b := ForSource(m.stream, LookUp), ForSource(m.stream, Create);
    OneStep(s, a);
    if DT.RouteKey(m.stream, pool) in s.dispatchers {
      run := [a];
    } else {
      OneMoreStep(s, [a], b);
      run := [a] + [b];
    }
  }

  // ----- ambiguous names -----

  /** A source is about to hand a message to the dispatcher of another pool than the one the
      router picked. */
  ghost predicate Astray(s: State) {
    exists x :: x in s.sources && OnWrongDispatcher(s, x)
  }

  ghost predicate OnWrongDispatcher(s: State, x: string)
    requires x in s.sources
  {
    var src := s.sources[x];
    src.Offering? && DT.RouteKey(x, src.pool) in s.dispatchers
        && s.dispatchers[DT.RouteKey(x, src.pool)].pool != src.pool
  }

  ghost predicate Clear(names: set<string>) {
    forall x, y :: x in names && y in names && x != y ==> !DT.Extends(x, y)
  }

  lemma ClearIsClear(s: State)
    ensures ClearNames(s) <==> Clear(s.sources.Keys)
  {
  }

  lemma NeverAstray(s: State, run: seq<Action>)
    requires Spawned(s) && Feasible(s, run)
    ensures !Astray(After(s, run))
  {
    SpawnedLocated(s);
    SpawnedOrdered(s);
    RunKeyed(s, run);
    var t := After(s, run);
    forall x | x in t.sources ensures !OnWrongDispatcher(t, x) {
      if t.sources[x].Offering? && DT.RouteKey(x, t.sources[x].pool) in t.dispatchers {
        KeyOwner(t, x, t.sources[x].pool);
      }
    }
  }

  /** Whatever the routes, the pools and the interleaving, every message is handed to the
      dispatcher of the pool it was routed to. */
  ghost predicate NoneAstray(names: set<string>) {
    forall s, run :: JustSpawned(s) && s.sources.Keys == names && Feasible(s, run) ==> !Astray(After(s, run))
  }

  lemma ClearNoneAstray(names: set<string>)
    requires Clear(names)
    ensures NoneAstray(names)
  {
    forall s, run | JustSpawned(s) && s.sources.Keys == names && Feasible(s, run) ensures !Astray(After(s, run)) {
      ClearIsClear(s);
      NeverAstray(s, run);
    }
  }

  /** That holds exactly when no stream's name is another's followed by a colon and more. */
  lemma MessagesReachTheirPoolExactly(names: set<string>)
    ensures NoneAstray(names) <==> Clear(names)
  {
    if Clear(names) {
      ClearNoneAstray(names);
    } else {
      var x, y :| x in names && y in names && x != y && DT.Extends(x, y);
      var run := Collision(names, x, y);
      assert !NoneAstray(names) by { assert CollidingState(names, x, y).sources.Keys == names; }
    }
  }

  /** The streams' routes: `x` to the twin of "p", `y` to "p", all others nowhere. */
  ghost function CollidingState(names: set<string>, x: string, y: string): State
    requires |x| < |y|
  {
    var twin := DT.Twin(x, y, "p");
    State(_ => 0, 1, {}, iset{}, false, map[x := Entry([twin], [0], [0]), y := Entry(["p"], [0], [0])],
          map z | z in names :: Receiving, map[], map["p" := FP.New(1, 0), twin := FP.New(1, 0)],
          NotCalled, [], map[])
  }

  lemma CollidingIsSpawned(names: set<string>, x: string, y: string)
    requires x in names && y in names && DT.Extends(x, y)
    ensures |x| < |y| && JustSpawned(CollidingState(names, x, y))
  {
    FP.NewInv(1, 0);
  }

  /** First `y` gets its dispatcher for "p"; then `x`, routed to the twin, finds it under its
      own key. */
  lemma Collision(names: set<string>, x: string, y: string) returns (run: seq<Action>)
    requires x in names && y in names && DT.Extends(x, y)
    ensures |x| < |y| && JustSpawned(CollidingState(names, x, y)) && Feasible(CollidingState(names, x, y), run)
    ensures var s := CollidingState(names, x, y);
            var t, twin := After(s, run), DT.Twin(x, y, "p");
            && Astray(t) && x in t.sources && t.sources[x] == Offering(Task(1, x, []), twin)
            && t.dispatchers == map[DT.RouteKey(x, twin) := Dispatcher(y, "p", [], Waiting)]
            && t.pools == s.pools && t.routes == s.routes && t.bufferSize == 1
  {
    CollidingIsSpawned(names, x, y);
    var s := CollidingState(names, x, y);
    var twin := DT.Twin(x, y, "p");
    DT.CollisionOf(x, y, "p");
    var m, n := Task(0, y, []), Task(1, x, []);
    var first := UpToOffer(s, m, "p");
    var s1 := After(s, first);
    var second := UpToOffer(s1, n, twin);
    RunsCompose(s, first, second);
    run := first + second;
    assert OnWrongDispatcher(After(s, run), x);
  }

  /** A new pool of one worker and no buffer. */
  ghost predicate Idle(ps: FP.State) { ps == FP.New(1, 0) }

  /** Offered to an idle dispatcher, a message is accepted by that dispatcher's pool. */
  lemma Submitted(s: State, m: Task, k: string, pool: string) returns (run: seq<Action>)
    requires m.stream in s.sources && s.sources[m.stream] == Offering(m, pool) && k == DT.RouteKey(m.stream, pool)
    requires k in s.dispatchers && s.dispatchers[k].buffer == [] && s.dispatchers[k].worker.Waiting?
    requires s.dispatchers[k].pool in s.pools && Idle(s.pools[s.dispatchers[k].pool]) && s.bufferSize > 0
    ensures Feasible(s, run)
    ensures var t, p := After(s, run), s.dispatchers[k].pool;
            && t.routes == s.routes && t.hash == s.hash && p in t.pools
            && m in t.fate && t.fate[m] == Accepted(p) && t.pools[p].accepted == [m]
  {
    var offer, take := ForSource(m.stream, Offer), ForDispatcher(k, TakeTask);
    OneStep(s, offer);
    var s1 := DoSource(s, m.stream, Offer);
    assert s1.dispatchers[k] == s.dispatchers[k].(buffer := [m]) by { assert [] + [m] == [m]; }
    OneMoreStep(s, [offer], take);
    var s2 := DoDispatch(s1, k, TakeTask);
    Accepts(s2, m, k);
    var hand := ForDispatcher(k, Attempt(FP.HandOff(m, 0)));
    OneMoreStep(s, [offer] + [take], hand);
    run := [offer] + [take] + [hand];
  }

  lemma Accepts(s: State, m: Task, k: string)
    requires k in s.dispatchers && s.dispatchers[k].worker == Submitting(m) && s.dispatchers[k].pool in s.pools
    requires s.pools[s.dispatchers[k].pool] == FP.Step(FP.New(1, 0), FP.Begin(m))
    ensures var a, p := Attempt(FP.HandOff(m, 0)), s.dispatchers[k].pool;
            && DispatchEnabled(s, k, a)
            && var t := DoDispatch(s, k, a);
               t.routes == s.routes && t.hash == s.hash && p in t.pools
               && m in t.fate && t.fate[m] == Accepted(p) && t.pools[p].accepted == [m]
  {
    assert [] + [m] == [m];
  }

  /** So with ambiguous names a message can be accepted by a pool that the router never
      picks for it. */
  lemma WrongPoolAccepts(names: set<string>, x: string, y: string) returns (s: State, run: seq<Action>, m: Task)
    requires x in names && y in names && DT.Extends(x, y)
    ensures JustSpawned(s) && s.sources.Keys == names && Feasible(s, run)
    ensures var t := After(s, run);
            && "p" in t.pools && m in t.pools["p"].accepted && m in t.fate && t.fate[m] == Accepted("p")
            && m.stream == x && t.routes == s.routes
            && forall ticket :: Picked(s, m, ticket).Some? && Picked(s, m, ticket) != Some("p")
  {
    var first := Collision(names, x, y);
    s, m := CollidingState(names, x, y), Task(1, x, []);
    var twin := DT.Twin(x, y, "p");
    DT.CollisionOf(x, y, "p");
    var s1 := After(s, first);
    var rest := Submitted(s1, m, DT.RouteKey(x, twin), twin);
    RunsCompose(s, first, rest);
    run := first + rest;
    forall ticket ensures Picked(s, m, ticket) == Some(twin) { PickedAlways(s, m, twin, ticket); }
  }

  lemma PickedAlways(s: State, m: Task, pool: string, ticket: nat)
    requires RoutedTo(s, m.stream, pool) && m.key == []
    ensures Picked(s, m, ticket) == Some(pool)
  {
  }

  // ----- a stopped dispatcher -----

  ghost predicate AllForeign(s: State, acts: seq<FP.Action>) {
    forall a :: a in acts ==> Foreign(s, a)
  }

  /** The steps of a pool on its own, as steps of the runtime. */
  ghost function Lifted(pool: string, acts: seq<FP.Action>): (run: seq<Action>)
    ensures |run| == |acts|
  {
    if acts == [] then [] else [ForPool(pool, acts[0])] + Lifted(pool, acts[1..])
  }

  lemma {:induction false} PoolRun(s: State, pool: string, acts: seq<FP.Action>)
    requires pool in s.pools && AllForeign(s, acts) && FP.Feasible(s.pools[pool], acts)
    ensures Feasible(s, Lifted(pool, acts))
    ensures After(s, Lifted(pool, acts)) == s.(pools := s.pools[pool := FP.After(s.pools[pool], acts)])
    decreases |acts|
  {
    if acts == [] {
      assert s.pools[pool := s.pools[pool]] == s.pools;
    } else {
      var s1 := DoPool(s, pool, acts[0]);
      assert AllForeign(s1, acts[1..]) by {
        forall a | a in acts[1..] ensures Foreign(s1, a) { assert a in acts && Foreign(s, a); }
      }
      PoolRun(s1, pool, acts[1..]);
      OneStep(s, ForPool(pool, acts[0]));
      RunsCompose(s, [ForPool(pool, acts[0])], Lifted(pool, acts[1..]));
    }
  }

  lemma {:induction false} OneMorePoolStep(ps: FP.State, acts: seq<FP.Action>, a: FP.Action)
    requires FP.Feasible(ps, acts) && FP.Enabled(FP.After(ps, acts), a)
    ensures FP.Feasible(ps, acts + [a]) && FP.After(ps, acts + [a]) == FP.Step(FP.After(ps, acts), a)
    decreases |acts|
  {
    if acts == [] {
      assert [] + [a] == [a] && [a][1..] == [];
    } else {
      OneMorePoolStep(FP.Step(ps, acts[0]), acts[1..], a);
      assert (acts + [a])[1..] == acts[1..] + [a];
    }
  }

  ghost predicate NotSubmission(a: FP.Action) {
    a.OnceWin? || a.CloseStopped? || a.CloseTasks? || a.Exit? || a.DrainDone?
  }

  ghost function IdleClosed(): FP.State {
    FP.New(1, 0).(stopped := true, closed := true, once := FP.Finished, drains := map[0 := FP.Waiting])
  }

  /** A drain call closes both channels of an idle pool. */
  lemma IdleCloses() returns (acts: seq<FP.Action>)
    ensures FP.Enabled(FP.New(1, 0), FP.DrainCall(0))
    ensures var ps := FP.Step(FP.New(1, 0), FP.DrainCall(0));
            FP.Feasible(ps, acts) && FP.After(ps, acts) == IdleClosed()
    ensures forall a :: a in acts ==> NotSubmission(a)
  {
    var ps := FP.Step(FP.New(1, 0), FP.DrainCall(0));
    OneMorePoolStep(ps, [], FP.OnceWin(0));
    OneMorePoolStep(ps, [] + [FP.OnceWin(0)], FP.CloseStopped(0));
    acts := [] + [FP.OnceWin(0)] + [FP.CloseStopped(0)];
    OneMorePoolStep(ps, acts, FP.CloseTasks(0));
    acts := acts + [FP.CloseTasks(0)];
  }

  /** Then its worker leaves and the call returns nil. */
  lemma IdleDrains() returns (acts: seq<FP.Action>)
    ensures FP.Enabled(FP.New(1, 0), FP.DrainCall(0))
    ensures var ps := FP.Step(FP.New(1, 0), FP.DrainCall(0));
            FP.Feasible(ps, acts) && FP.At(FP.After(ps, acts), 0, FP.Drain.Returned(true))
    ensures forall a :: a in acts ==> NotSubmission(a)
  {
    var ps := FP.Step(FP.New(1, 0), FP.DrainCall(0));
    acts := IdleCloses();
    OneMorePoolStep(ps, acts, FP.Exit(0));
    acts := acts + [FP.Exit(0)];
    OneMorePoolStep(ps, acts, FP.DrainDone(0));
    acts := acts + [FP.DrainDone(0)];
  }

  /** One stream, one registered pool of one worker, a dispatcher buffer of one. */
  ghost function SmallState(): State {
    State(_ => 0, 1, {"p"}, iset{}, false, map["s" := Entry(["p"], [0], [0])], map["s" := Receiving], map[],
          map["p" := FP.New(1, 0)], NotCalled, [], map[])
  }

  lemma SmallIsSpawned()
    ensures Spawned(SmallState())
  {
    FP.NewInv(1, 0);
  }

  ghost function Loaded(m: Task): map<string, Dispatcher> {
    map[DT.RouteKey("s", "p") := Dispatcher("s", "p", [m], Waiting)]
  }

  /** A message is buffered. */
  lemma UpToBuffer(m: Task) returns (run: seq<Action>)
    requires m.stream == "s" && m.key == []
    ensures Feasible(SmallState(), run)
    ensures After(SmallState(), run) ==
            SmallState().(dispatchers := Loaded(m), received := [m],
                          fate := map[m := Buffered(DT.RouteKey("s", "p"), "p")])
  {
    var s := SmallState();
    run := UpToOffer(s, m, "p");
    BufferFirst(After(s, run), m);
    OneMoreStep(s, run, ForSource("s", Offer));
    run := run + [ForSource("s", Offer)];
    assert [] + [m] == [m];
  }

  lemma BufferFirst(s: State, m: Task)
    requires s.sources == map["s" := Offering(m, "p")] && s.bufferSize > 0
    requires s.dispatchers == map[DT.RouteKey("s", "p") := Dispatcher("s", "p", [], Waiting)]
    ensures SourceEnabled(s, "s", Offer)
    ensures DoSource(s, "s", Offer) ==
            s.(sources := map["s" := Receiving], dispatchers := Loaded(m),
               fate := s.fate[m := Buffered(DT.RouteKey("s", "p"), "p")])
  {
    assert [] + [m] == [m];
  }

  /** `Stop` is called, and the source returns. */
  lemma UpToDispatchers(s: State) returns (run: seq<Action>)
    requires s.sources == map["s" := Receiving] && s.stop.NotCalled?
    ensures Feasible(s, run)
    ensures After(s, run) == s.(contextDone := true, sources := map["s" := SourceGone],
                                stop := StoppingDispatchers(s.dispatchers.Keys))
  {
    OneStep(s, StopCall);
    OneMoreStep(s, [StopCall], ForSource("s", RecvError));
    run := [StopCall] + [ForSource("s", RecvError)];
    assert After(s, run).sources == map["s" := SourceGone];
    OneMoreStep(s, run, SourcesExited);
    run := run + [SourcesExited];
  }

  /** Then the dispatcher leaves, the pool drains, and `Stop` returns nil. */
  lemma UpToNil(s: State) returns (run: seq<Action>)
    requires s.contextDone && s.stop == StoppingDispatchers({DT.RouteKey("s", "p")}) && s.registered == {"p"}
    requires s.pools == map["p" := FP.New(1, 0)]
    requires var k := DT.RouteKey("s", "p");
             k in s.dispatchers && s.dispatchers[k].worker.Waiting? && s.dispatchers[k].pool == "p"
    ensures Feasible(s, run) && After(s, run).stop == Returned(true)
    ensures After(s, run).fate == s.fate && After(s, run).received == s.received
  {
    var k := DT.RouteKey("s", "p");
    var leave := LeaveAndDrain(s, k);
    var s1 := After(s, leave);
    var acts := IdleDrains();
    PoolRun(s1, "p", acts);
    var drain := Lifted("p", acts);
    var s2 := After(s1, drain);
    var finish := ReturnNil(s2);
    RunsCompose(s1, drain, finish);
    RunsCompose(s, leave, drain + finish);
    run := leave + (drain + finish);
  }

  lemma LeaveAndDrain(s: State, k: string) returns (run: seq<Action>)
    requires s.contextDone && s.stop == StoppingDispatchers({k}) && s.registered == {"p"}
    requires s.pools == map["p" := FP.New(1, 0)]
    requires k in s.dispatchers && s.dispatchers[k].worker.Waiting? && s.dispatchers[k].pool == "p"
    ensures Feasible(s, run)
    ensures After(s, run) == s.(dispatchers := s.dispatchers[k := s.dispatchers[k].(worker := DispatcherGone)],
                                pools := map["p" := FP.Step(FP.New(1, 0), FP.DrainCall(0))],
                                stop := Draining({"p"}, Some(("p", 0))))
  {
    var a, b := ForDispatcher(k, Leave), DispatcherExited(k);
    OneStep(s, a);
    OneMoreStep(s, [a], b);
    OneMoreStep(s, [a] + [b], DispatchersExited);
    OneMoreStep(s, [a] + [b] + [DispatchersExited], DrainPool("p", 0));
    run := [a] + [b] + [DispatchersExited] + [DrainPool("p", 0)];
  }

  lemma ReturnNil(s: State) returns (run: seq<Action>)
    requires s.stop == Draining({"p"}, Some(("p", 0))) && "p" in s.pools
    requires FP.At(s.pools["p"], 0, FP.Drain.Returned(true))
    ensures Feasible(s, run) && After(s, run) == s.(stop := Returned(true))
  {
    OneStep(s, DrainReturned);
    assert Step(s, DrainReturned).stop == Draining({}, None);
    OneMoreStep(s, [DrainReturned], StopReturns);
    run := [DrainReturned] + [StopReturns];
  }

  /** `Stop` can return nil with a message still in a dispatcher's buffer, where by
      `FatesAfterStop` it stays for good. */
  lemma StopLosesAMessage() returns (run: seq<Action>, m: Task)
    ensures Spawned(SmallState()) && Feasible(SmallState(), run)
    ensures After(SmallState(), run).stop == Returned(true)
    ensures var t := After(SmallState(), run);
            m in t.received && m in t.fate && t.fate[m] == Buffered(DT.RouteKey("s", "p"), "p")
  {
    var s := SmallState();
    m := Task(0, "s", []);
    SmallIsSpawned();
    var buffer := UpToBuffer(m);
    var s1 := After(s, buffer);
    var stop := UpToDispatchers(s1);
    assert s1.dispatchers.Keys == {DT.RouteKey("s", "p")};
    var rest := UpToNil(After(s1, stop));
    RunsCompose(s1, stop, rest);
    RunsCompose(s, buffer, stop + rest);
    run := buffer + (stop + rest);
  }
}
