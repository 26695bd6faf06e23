/** pkg/runtime/runtime.go and dispatcher.go in their own, imperative form, over the router
    and pool objects.  Each method is what one goroutine does between two points at which
    others may run, and is proved to be exactly one step of the `Runtime` step system. */
module RuntimeObject {
  import opened Tasks
  import opened RoutingTable
  import DT = DispatcherTable
  import FP = FixedPool
  import FO = FixedPoolObject
  import WR = WeightedRouter
  import RT = Runtime

  class RouteDispatcher {
    const streamName: string
    const poolName: string
    const bufferSize: nat
    var taskQueue: seq<Task>
    var worker: RT.Worker

    ghost function View(): RT.Dispatcher
      reads this
    {
      RT.Dispatcher(streamName, poolName, taskQueue, worker)
    }

    /** `NewRouteDispatcher`, started. */
    constructor (streamName: string, poolName: string, bufferSize: nat)
      ensures View() == RT.Dispatcher(streamName, poolName, [], RT.Waiting) && this.bufferSize == bufferSize
    {
      this.streamName, this.poolName, this.bufferSize := streamName, poolName, bufferSize;
      taskQueue, worker := [], RT.Waiting;
    }

    /** Never blocks: a full queue drops the task and changes nothing. */
    method TrySubmit(task: Task) returns (ok: bool)
      modifies this
      ensures ok <==> old(|taskQueue|) < bufferSize
      ensures View() == if ok then old(View()).(buffer := old(taskQueue) + [task]) else old(View())
    {
      ok := |taskQueue| < bufferSize;
      if ok { taskQueue := taskQueue + [task]; }
    }
  }

  class Runtime {
    const router: WR.WeightedRRRouter
    const bufferSize: nat
    const pools: map<string, FO.Pool>
    const registered: set<string>
    ghost const pinned: iset<(string, Key)>
    var contextDone: bool
    var dispatchers: map<string, RouteDispatcher>
    var stop: RT.Stop

    // where each source goroutine stands
    var sources: map<string, RT.Source>

    ghost var received: seq<Task>
    ghost var fate: map<Task, RT.Fate>

    ghost predicate Valid()
      reads this`dispatchers, dispatchers.Values
    {
      && (forall k :: k in dispatchers ==> dispatchers[k].bufferSize == bufferSize)
      && (forall k, l :: k in dispatchers && l in dispatchers && k != l ==> dispatchers[k] != dispatchers[l])
      && (forall p, q :: p in pools && q in pools && p != q ==> pools[p] != pools[q])
    }

    ghost function Dispatchers(): map<string, RT.Dispatcher>
      reads this`dispatchers, dispatchers.Values
    {
      map k | k in dispatchers :: dispatchers[k].View()
    }

    ghost function Pools(): map<string, FP.State>
      reads pools.Values
    {
      map p | p in pools :: pools[p].View()
    }

    ghost function View(): RT.State
      reads this, router, dispatchers.Values, pools.Values
    {
      RT.State(router.hash, bufferSize, registered, pinned, contextDone, router.Entries(), sources,
               Dispatchers(), Pools(), stop, received, fate)
    }

    /** Registration and `Start`: one goroutine a source, no dispatcher yet.  A buffer size
        that is not positive becomes 100. */
    constructor (router: WR.WeightedRRRouter, pools: map<string, FO.Pool>, registered: set<string>,
                 names: set<string>, bufferSize: int, ghost pinned: iset<(string, Key)>)
      requires router.Valid() && forall p, q :: p in pools && q in pools && p != q ==> pools[p] != pools[q]
      ensures Valid() && this.router == router && this.pools == pools && dispatchers == map[]
      ensures View() == RT.State(router.hash, if bufferSize <= 0 then 100 else bufferSize, registered, pinned, false,
                                 router.Entries(), map x | x in names :: RT.Receiving, map[], Pools(),
                                 RT.NotCalled, [], map[])
    {
      this.router, this.pools, this.registered, this.pinned := router, pools, registered, pinned;
      this.bufferSize := if bufferSize <= 0 then 100 else bufferSize;
      contextDone, dispatchers, stop, received, fate := false, map[], RT.NotCalled, [], map[];
      sources := map x | x in names :: RT.Receiving;
    }

    // ----- the pieces of state a step can touch -----

    /** A source goroutine moves on. */
    method Advance(stream: string, next: RT.Source)
      requires stream in sources
      modifies this`sources
      ensures View() == old(View()).(sources := old(sources)[stream := next])
    {
      sources := sources[stream := next];
    }

    ghost method Settle(m: Task, f: RT.Fate)
      modifies this`fate
      ensures View() == old(View()).(fate := old(fate)[m := f])
    {
      fate := fate[m := f];
    }

    /** The second half of `getOrCreateDispatcher`, under the write lock: check again,
        create if still absent. */
    method CreateIfAbsent(stream: string, pool: string)
      requires Valid()
      modifies this`dispatchers
      ensures Valid() && forall k :: k in dispatchers ==>
              dispatchers[k] in old(dispatchers.Values) || fresh(dispatchers[k])
      ensures View() == old(View()).(dispatchers :=
                if DT.RouteKey(stream, pool) in old(dispatchers) then old(Dispatchers())
                else old(Dispatchers())[DT.RouteKey(stream, pool) := RT.Dispatcher(stream, pool, [], RT.Waiting)])
    {
      var key := DT.RouteKey(stream, pool);
      if key !in dispatchers {
        var d := new RouteDispatcher(stream, pool, bufferSize);
        dispatchers := dispatchers[key := d];
        assert Dispatchers() == old(Dispatchers())[key := d.View()];
      }
    }

    /** `TrySubmit` on the dispatcher under `key`. */
    method Enqueue(key: string, m: Task) returns (ok: bool)
      requires Valid() && key in dispatchers
      modifies dispatchers.Values
      ensures Valid() && dispatchers == old(dispatchers)
      ensures var d := old(Dispatchers())[key];
              && (ok <==> |d.buffer| < bufferSize)
              && View() == old(View()).(dispatchers :=
                   old(Dispatchers())[key := if ok then d.(buffer := d.buffer + [m]) else d])
    {
      ok := dispatchers[key].TrySubmit(m);
      assert Dispatchers() == old(Dispatchers())[key := dispatchers[key].View()];
    }

    /** The dispatcher goroutine takes the oldest task off its buffer. */
    method Dequeue(key: string) returns (m: Task)
      requires Valid() && key in dispatchers && dispatchers[key].taskQueue != []
      modifies dispatchers.Values
      ensures Valid() && dispatchers == old(dispatchers)
      ensures var d := old(Dispatchers())[key];
              && m == d.buffer[0]
              && View() == old(View()).(dispatchers := old(Dispatchers())[key := RT.NextDispatcher(d, RT.TakeTask)])
    {
      var d := dispatchers[key];
      m := d.taskQueue[0];
      d.taskQueue, d.worker := d.taskQueue[1..], RT.Submitting(m);
      assert Dispatchers() == old(Dispatchers())[key := d.View()];
    }

    method SetWorker(key: string, w: RT.Worker)
      requires Valid() && key in dispatchers
      modifies dispatchers.Values
      ensures Valid() && dispatchers == old(dispatchers)
      ensures View() == old(View()).(dispatchers := old(Dispatchers())[key := old(Dispatchers())[key].(worker := w)])
    {
      dispatchers[key].worker := w;
      assert Dispatchers() == old(Dispatchers())[key := dispatchers[key].View()];
    }

    /** The start of a pool's `Submit`. */
    method SubmitTo(p: string, m: Task)
      requires Valid() && p in pools && FP.Enabled(Pools()[p], FP.Begin(m))
      modifies pools.Values
      ensures Valid()
      ensures View() == old(View()).(pools := old(Pools())[p := FP.Step(old(Pools())[p], FP.Begin(m))])
    {
      var error := pools[p].Submit(Some(m));
      assert Pools() == old(Pools())[p := pools[p].View()];
    }

    /** The select of a pool's `Submit`; a pool is the only one to change. */
    method SelectPool(p: string, m: Task, c: FO.Case) returns (answer: Option<FO.Answer>, ghost a: FP.Action)
      requires Valid() && p in pools && FP.Calling(pools[p].View(), m)
      modifies pools.Values
      ensures answer.Some? <==> RT.SubmitEnds(a, m, contextDone) && FP.Enabled(old(Pools())[p], a)
      ensures answer.Some? ==> (answer.value == FO.Sent <==> RT.Accepting(a))
      ensures Pools()
              == old(Pools())[p := if answer.Some? then FP.Step(old(pools[p].View()), a) else old(pools[p].View())]
    {
      a := pools[p].Chosen(m, c);
      answer := pools[p].Select(m, c, contextDone);
      assert Pools() == old(Pools())[p := pools[p].View()];
    }

    method SelectIn(p: string, m: Task, c: FO.Case) returns (answer: Option<FO.Answer>, ghost a: FP.Action)
      requires Valid() && p in pools && FP.Calling(Pools()[p], m)
      modifies pools.Values
      ensures Valid()
      ensures answer.Some? <==> RT.SubmitEnds(a, m, contextDone) && FP.Enabled(old(Pools())[p], a)
      ensures answer.Some? ==> (answer.value == FO.Sent <==> RT.Accepting(a))
      ensures View() ==
              if answer.Some? then old(View()).(pools := old(Pools())[p := FP.Step(old(Pools())[p], a)])
              else old(View())
    {
      answer, a := SelectPool(p, m, c);
    }

    // ----- the loop of a source goroutine -----

    /** `Recv` delivers a message, or an error that ends the goroutine. */
    method Receive(stream: string, got: Option<Task>)
      requires Valid()
      requires RT.SourceEnabled(View(), stream, if got.Some? then RT.Recv(got.value) else RT.RecvError)
      modifies this
      ensures Valid() && dispatchers == old(dispatchers)
      ensures View() == RT.DoSource(old(View()), stream, if got.Some? then RT.Recv(got.value) else RT.RecvError)
    {
      if got.None? {
        sources := sources[stream := RT.SourceGone];
        return;
      }
      sources := sources[stream := RT.Routing(got.value)];
      received, fate := received + [got.value], fate[got.value := RT.InSource];
    }

    /** Asks the router for a pool. */
    method AskRouter(m: Task) returns (pool: Option<string>, ghost ticket: nat)
      requires router.Valid()
      modifies router.routes.Values
      ensures router.Valid() && router.routes == old(router.routes) && View() == old(View())
      ensures pool == RT.Picked(View(), m, ticket)
    {
      ticket := if m.stream in router.routes then router.routes[m.stream].cursor else 0;
      pool := router.RouteWithKey(m.stream, m.key);
    }

    /** Without a route the message is dropped. */
    method RouteMessage(stream: string) returns (ghost ticket: nat)
      requires Valid() && router.Valid() && RT.SourceEnabled(View(), stream, RT.RouteIt(0))
      modifies this, router.routes.Values
      ensures Valid() && router.Valid() && dispatchers == old(dispatchers) && router.routes == old(router.routes)
      ensures View() == RT.DoSource(old(View()), stream, RT.RouteIt(ticket))
    {
      var pool, m := None, sources[stream].m;
      pool, ticket := AskRouter(m);
      if pool.None? {
        Settle(m, RT.NoRoute);
        Advance(stream, RT.Receiving);
      } else {
        Advance(stream, RT.Looking(m, pool.value));
      }
    }

    /** The read-locked lookup of `getOrCreateDispatcher`. */
    method LookUp(stream: string)
      requires Valid() && RT.SourceEnabled(View(), stream, RT.LookUp)
      modifies this
      ensures Valid() && dispatchers == old(dispatchers)
      ensures View() == RT.DoSource(old(View()), stream, RT.LookUp)
    {
      var src := sources[stream];
      if DT.RouteKey(stream, src.pool) in dispatchers {
        Advance(stream, RT.Offering(src.m, src.pool));
      } else {
        Advance(stream, RT.Creating(src.m, src.pool));
      }
    }

    method Create(stream: string)
      requires Valid() && RT.SourceEnabled(View(), stream, RT.Create)
      modifies this
      ensures Valid() && forall k :: k in dispatchers ==>
              dispatchers[k] in old(dispatchers.Values) || fresh(dispatchers[k])
      ensures View() == RT.DoSource(old(View()), stream, RT.Create)
    {
      var src := sources[stream];
      CreateIfAbsent(stream, src.pool);
      Advance(stream, RT.Offering(src.m, src.pool));
    }

    /** Into the dispatcher's buffer, or dropped when that is full. */
    method Offer(stream: string)
      requires Valid() && RT.SourceEnabled(View(), stream, RT.Offer)
      modifies this, dispatchers.Values
      ensures Valid() && dispatchers == old(dispatchers)
      ensures View() == RT.DoSource(old(View()), stream, RT.Offer)
    {
      var src := sources[stream];
      var key := DT.RouteKey(stream, src.pool);
      OfferEffect(View(), stream);
      var ok := Enqueue(key, src.m);
      Settle(src.m, if ok then RT.Buffered(key, Dispatchers()[key].pool) else RT.QueueFull);
      Advance(stream, RT.Receiving);
    }

    /** `getOrCreateDispatcher`, undisturbed. */
    method FindDispatcher(stream: string) returns (ghost run: seq<RT.Action>)
      requires Valid() && stream in sources && sources[stream].Looking?
      modifies this
      ensures Valid() && forall k :: k in dispatchers ==>
              dispatchers[k] in old(dispatchers.Values) || fresh(dispatchers[k])
      ensures RT.Feasible(old(View()), run) && View() == RT.After(old(View()), run)
      ensures Found(old(View()), View(), stream)
    {
      ghost var s := View();
      LookUp(stream);
      RT.OneStep(s, RT.ForSource(stream, RT.LookUp));
      run := [RT.ForSource(stream, RT.LookUp)];
      if sources[stream].Creating? {
        ghost var s1 := View();
        Create(stream);
        Extend(s, run, s1, stream, RT.Create);
        run := run + [RT.ForSource(stream, RT.Create)];
        CreateFinds(s, stream);
      }
    }

    /** One iteration of the source loop, undisturbed, for a message that arrives. */
    method HandleMessage(stream: string, m: Task, ghost before: RT.State, ghost done: seq<RT.Action>)
      returns (ghost run: seq<RT.Action>)
      requires Valid() && router.Valid() && RT.SourceEnabled(View(), stream, RT.Recv(m))
      requires RT.Feasible(before, done) && View() == RT.After(before, done)
      modifies this, dispatchers.Values, router.routes.Values
      ensures Valid() && router.Valid() && router.routes == old(router.routes)
      ensures forall k :: k in dispatchers ==> dispatchers[k] in old(dispatchers.Values) || fresh(dispatchers[k])
      ensures RT.Feasible(before, run) && View() == RT.After(before, run)
      ensures Handled(old(View()), View(), stream, m)
    {
      ghost var start := View();
      run := ReceiveOne(stream, m, before, done);
      run := PlaceMessage(stream, start, before, run);
    }

    method PlaceMessage(stream: string, ghost start: RT.State, ghost before: RT.State, ghost done: seq<RT.Action>)
      returns (ghost run: seq<RT.Action>)
      requires Valid() && router.Valid() && stream in sources && sources[stream].Routing?
      requires RT.Feasible(before, done) && View() == RT.After(before, done) && Handling(start, View(), stream)
      modifies this, dispatchers.Values, router.routes.Values
      ensures Valid() && router.Valid() && router.routes == old(router.routes)
      ensures forall k :: k in dispatchers ==> dispatchers[k] in old(dispatchers.Values) || fresh(dispatchers[k])
      ensures RT.Feasible(before, run) && View() == RT.After(before, run)
      ensures Handled(start, View(), stream, old(sources)[stream].m)
    {
      var dropped;
      dropped, run := RouteOrDrop(stream, start, before, done);
      if !dropped {
        run := DeliverMessage(stream, start, before, run);
      }
    }

    /** Nothing but the router's own methods changes the router. */
    twostate lemma RouterStays()
      requires old(router.Valid()) && router.routes == old(router.routes)
      requires forall e: WR.RREntry :: old(allocated(e)) ==> e.cursor == old(e.cursor)
      ensures router.Valid()
    {
    }

    method ReceiveOne(stream: string, m: Task, ghost before: RT.State, ghost done: seq<RT.Action>)
      returns (ghost run: seq<RT.Action>)
      requires Valid() && RT.SourceEnabled(View(), stream, RT.Recv(m))
      requires RT.Feasible(before, done) && View() == RT.After(before, done)
      modifies this
      ensures Valid() && dispatchers == old(dispatchers)
      ensures RT.Feasible(before, run) && View() == RT.After(before, run)
      ensures Handling(old(View()), View(), stream) && sources[stream].m == m
      ensures stream in sources && sources[stream].Routing?
    {
      ghost var s := View();
      Receive(stream, Some(m));
      Extend(before, done, s, stream, RT.Recv(m));
      run := done + [RT.ForSource(stream, RT.Recv(m))];
    }

    method RouteOrDrop(stream: string, ghost start: RT.State, ghost before: RT.State, ghost done: seq<RT.Action>)
      returns (dropped: bool, ghost run: seq<RT.Action>)
      requires Valid() && router.Valid() && stream in sources && sources[stream].Routing?
      requires RT.Feasible(before, done) && View() == RT.After(before, done) && Handling(start, View(), stream)
      modifies this, router.routes.Values
      ensures Valid() && router.Valid() && router.routes == old(router.routes) && dispatchers == old(dispatchers)
      ensures RT.Feasible(before, run) && View() == RT.After(before, run)
      ensures if dropped then Handled(start, View(), stream, old(sources)[stream].m)
              else Handling(start, View(), stream) && stream in sources && sources[stream].Looking?
                   && sources[stream].m == old(sources)[stream].m
    {
      ghost var s := View();
      ghost var ticket := RouteMessage(stream);
      Extend(before, done, s, stream, RT.RouteIt(ticket));
      run := done + [RT.ForSource(stream, RT.RouteIt(ticket))];
      dropped := sources[stream].Receiving?;
      if dropped { SettledIsHandled(start, s, stream, RT.RouteIt(ticket)); }
    }

    method DeliverMessage(stream: string, ghost start: RT.State, ghost before: RT.State, ghost done: seq<RT.Action>)
      returns (ghost run: seq<RT.Action>)
      requires Valid() && stream in sources && sources[stream].Looking?
      requires RT.Feasible(before, done) && View() == RT.After(before, done) && Handling(start, View(), stream)
      modifies this, dispatchers.Values
      ensures Valid() && forall k :: k in dispatchers ==>
              dispatchers[k] in old(dispatchers.Values) || fresh(dispatchers[k])
      ensures RT.Feasible(before, run) && View() == RT.After(before, run)
      ensures Handled(start, View(), stream, old(sources)[stream].m)
      ensures router.routes == old(router.routes) && (old(router.Valid()) ==> router.Valid())
    {
      ghost var at := View();
      ghost var found := FindDispatcher(stream);
      ghost var s := View();
      Offer(stream);
      Extend(at, found, s, stream, RT.Offer);
      found := found + [RT.ForSource(stream, RT.Offer)];
      RT.RunsCompose(before, done, found);
      run := done + found;
      HandlingTogether(start, at, s, stream);
      SettledIsHandled(start, s, stream, RT.Offer);
      if old(router.Valid()) { RouterStays(); }
    }

    /** The loop of a source goroutine, undisturbed: it handles what arrives, in order, and
        returns at the first error.  All of it is one run of the step system. */
    method SourceLoop(stream: string, inbox: seq<Task>) returns (ghost run: seq<RT.Action>)
      requires Valid() && router.Valid() && stream in sources && sources[stream].Receiving?
      requires forall i, j :: 0 <= i < j < |inbox| ==> inbox[i] != inbox[j]
      requires forall m :: m in inbox ==> RT.SourceEnabled(View(), stream, RT.Recv(m))
      modifies this, dispatchers.Values, router.routes.Values
      ensures Valid() && router.Valid() && RT.Feasible(old(View()), run) && View() == RT.After(old(View()), run)
      ensures stream in sources && sources[stream].SourceGone?
      ensures forall m :: m in inbox ==> m in fate && !fate[m].InSource?
    {
      ghost var before := View();
      run := [];
      for i := 0 to |inbox|
        invariant Valid() && router.Valid() && router.routes == old(router.routes)
        invariant forall k :: k in dispatchers ==> dispatchers[k] in old(dispatchers.Values) || fresh(dispatchers[k])
        invariant RT.Feasible(before, run) && View() == RT.After(before, run)
        invariant AllHandled(before, View(), stream, inbox, i)
      {
        ghost var s := View();
        NextArrives(before, s, stream, inbox, i);
        run := HandleMessage(stream, inbox[i], before, run);
        OneMoreHandled(before, s, View(), stream, inbox, i);
      }
      run := FinishSource(stream, before, run);
    }

    method FinishSource(stream: string, ghost before: RT.State, ghost done: seq<RT.Action>)
      returns (ghost run: seq<RT.Action>)
      requires Valid() && stream in sources && sources[stream].Receiving?
      requires RT.Feasible(before, done) && View() == RT.After(before, done)
      modifies this
      ensures Valid() && RT.Feasible(before, run) && View() == RT.After(before, run)
      ensures stream in sources && sources[stream].SourceGone? && fate == old(fate)
      ensures router.routes == old(router.routes) && (old(router.Valid()) ==> router.Valid())
    {
      ghost var s := View();
      Receive(stream, None);
      Extend(before, done, s, stream, RT.RecvError);
      run := done + [RT.ForSource(stream, RT.RecvError)];
      if old(router.Valid()) { RouterStays(); }
    }

    // ----- the loop of a dispatcher goroutine -----

    /** Takes the oldest task off the buffer and calls the pool's `Submit` with it. */
    method TakeTask(key: string)
      requires Valid() && RT.DispatchEnabled(View(), key, RT.TakeTask)
      modifies this, dispatchers.Values, pools.Values
      ensures Valid() && dispatchers == old(dispatchers)
      ensures View() == RT.DoDispatch(old(View()), key, RT.TakeTask)
    {
      var p := dispatchers[key].poolName;
      var m := Dequeue(key);
      SubmitTo(p, m);
      Settle(m, RT.Held(key, p));
    }

    /** The select inside that `Submit`, when it picks `c`; the dispatcher stays blocked
        when the case is not ready. */
    method Attempt(key: string, c: FO.Case) returns (ended: bool, ghost a: FP.Action)
      requires Valid() && key in dispatchers && dispatchers[key].worker.Submitting?
               && dispatchers[key].poolName in pools
      requires FP.Calling(Pools()[dispatchers[key].poolName], dispatchers[key].worker.m)
      modifies this, dispatchers.Values, pools.Values
      ensures Valid() && dispatchers == old(dispatchers)
      ensures ended <==>
                var d := old(Dispatchers())[key];
                RT.SubmitEnds(a, d.worker.m, contextDone) && FP.Enabled(old(Pools())[d.pool], a)
      ensures ended ==> RT.DispatchEnabled(old(View()), key, RT.Attempt(a))
      ensures View() == if ended then RT.DoDispatch(old(View()), key, RT.Attempt(a)) else old(View())
    {
      var p, m := dispatchers[key].poolName, dispatchers[key].worker.m;
      var answer;
      answer, a := SelectIn(p, m, c);
      ended := answer.Some?;
      if ended {
        SetWorker(key, RT.Waiting);
        Settle(m, if answer.value == FO.Sent then RT.Accepted(p) else RT.SubmitFailed(p));
      }
    }

    /** The context has ended and the select sees it: what is buffered stays there. */
    method Leave(key: string)
      requires Valid() && RT.DispatchEnabled(View(), key, RT.Leave)
      modifies this, dispatchers.Values
      ensures Valid() && dispatchers == old(dispatchers)
      ensures View() == RT.DoDispatch(old(View()), key, RT.Leave)
    {
      SetWorker(key, RT.DispatcherGone);
    }

    // ----- Stop -----

    method MoveStop(next: RT.Stop)
      modifies this`stop
      ensures View() == old(View()).(stop := next)
    {
      stop := next;
    }

    /** Phase 1: cancel the context. */
    method BeginStop()
      requires Valid() && stop.NotCalled?
      modifies this
      ensures Valid() && dispatchers == old(dispatchers)
      ensures View() == RT.Step(old(View()), RT.StopCall)
    {
      contextDone, stop := true, RT.AwaitingSources;
    }

    /** Phase 2: wait for every source goroutine, then list the dispatchers there are. */
    method AwaitSources() returns (done: bool)
      requires Valid() && stop.AwaitingSources?
      modifies this
      ensures Valid() && dispatchers == old(dispatchers)
      ensures done <==> RT.Enabled(old(View()), RT.SourcesExited)
      ensures View() == if done then old(View()).(stop := RT.StoppingDispatchers(dispatchers.Keys)) else old(View())
    {
      var rest := sources.Keys;
      while rest != {}
        invariant rest <= sources.Keys && forall x :: x in sources && x !in rest ==> sources[x].SourceGone?
        decreases rest
      {
        var x :| x in rest;
        if !sources[x].SourceGone? {
          return false;
        }
        rest := rest - {x};
      }
      MoveStop(RT.StoppingDispatchers(dispatchers.Keys));
      done := true;
    }

    /** Phase 3: wait for the listed dispatchers one after the other, then turn to the
        pools; stops at one that has not returned yet. */
    method AwaitDispatchers() returns (done: bool)
      requires Valid() && stop.StoppingDispatchers? && stop.rest <= dispatchers.Keys
      modifies this
      ensures Valid() && dispatchers == old(dispatchers)
      ensures View() == old(View()).(stop := stop)
      ensures done <==> forall k :: k in old(stop.rest) ==> dispatchers[k].worker.DispatcherGone?
      ensures done ==> stop == RT.Draining(registered, None)
      ensures !done ==> stop.StoppingDispatchers? && stop.rest <= old(stop.rest)
      ensures !done ==> forall k :: k in old(stop.rest) && k !in stop.rest ==> dispatchers[k].worker.DispatcherGone?
    {
      while stop.rest != {}
        invariant Valid() && dispatchers == old(dispatchers) && View() == old(View()).(stop := stop)
        invariant stop.StoppingDispatchers? && stop.rest <= old(stop.rest)
        invariant forall k :: k in old(stop.rest) && k !in stop.rest ==> dispatchers[k].worker.DispatcherGone?
        decreases stop.rest
      {
        var k :| k in stop.rest;
        if !dispatchers[k].worker.DispatcherGone? {
          return false;
        }
        MoveStop(RT.StoppingDispatchers(stop.rest - {k}));
      }
      MoveStop(RT.Draining(registered, None));
      done := true;
    }

    /** Phase 4: `DrainAndStop` on the next pool. */
    method DrainNextPool(p: string, call: nat)
      requires Valid() && RT.Enabled(View(), RT.DrainPool(p, call))
      modifies this, pools.Values
      ensures Valid() && dispatchers == old(dispatchers)
      ensures View() == RT.Step(old(View()), RT.DrainPool(p, call))
    {
      CallDrain(p, call);
      MoveStop(RT.Draining(stop.rest, Some((p, call))));
    }

    method CallDrain(p: string, call: nat)
      requires Valid() && p in pools && FP.Enabled(Pools()[p], FP.DrainCall(call))
      modifies pools.Values
      ensures Valid()
      ensures View() == old(View()).(pools := old(Pools())[p := FP.Step(old(Pools())[p], FP.DrainCall(call))])
    {
      var moved := pools[p].DrainStep(call, false);
      assert Pools() == old(Pools())[p := pools[p].View()];
    }

    /** That call has returned: go on to the next pool, fail with its error, or return nil
        after the last one. */
    method AfterDrain()
      requires Valid() && RT.Enabled(View(), RT.DrainReturned)
      modifies this
      ensures Valid() && dispatchers == old(dispatchers)
      ensures View() == RT.Step(old(View()), RT.DrainReturned)
    {
      var (p, call) := stop.current.value;
      assert Pools()[p] == pools[p].View();
      if pools[p].drains[call].clean {
        MoveStop(RT.Draining(stop.rest - {p}, None));
      } else {
        MoveStop(RT.Returned(false));
      }
    }

    method ReturnNil()
      requires Valid() && stop == RT.Draining({}, None)
      modifies this
      ensures Valid() && dispatchers == old(dispatchers)
      ensures View() == RT.Step(old(View()), RT.StopReturns)
    {
      MoveStop(RT.Returned(true));
    }
  }

  /** The source goroutine is on a message that was new in `s0`; nothing else has happened. */
  ghost predicate Handling(s0: RT.State, s: RT.State, stream: string) {
    && stream in s0.sources && stream in s.sources && RT.InHands(s.sources[stream]) != [] && s.pools == s0.pools
    && s.sources == s0.sources[stream := s.sources[stream]]
    && s.sources[stream].m.stream == stream && s.sources[stream].m in s.fate
    && s.fate == s0.fate[s.sources[stream].m := s.fate[s.sources[stream].m]]
  }

  /** It has placed the message and is receiving again. */
  ghost predicate Handled(s0: RT.State, s: RT.State, stream: string, m: Task) {
    && stream in s0.sources && s.sources == s0.sources[stream := RT.Receiving] && s.pools == s0.pools
    && m in s.fate && !s.fate[m].InSource? && s.fate == s0.fate[m := s.fate[m]]
  }

  /** From `s` the source goroutine has got to its dispatcher, and nothing else has happened. */
  ghost predicate Found(s: RT.State, s': RT.State, stream: string) {
    && RT.SourceEnabled(s, stream, RT.LookUp) && RT.SourceEnabled(s', stream, RT.Offer)
    && s'.sources == s.sources[stream := RT.Offering(s.sources[stream].m, s.sources[stream].pool)]
    && s'.pools == s.pools && s'.fate == s.fate
  }

  lemma CreateFinds(s: RT.State, stream: string)
    requires RT.SourceEnabled(s, stream, RT.LookUp)
    ensures var s1 := RT.DoSource(s, stream, RT.LookUp);
            s1.sources[stream].Creating? ==> Found(s, RT.DoSource(s1, stream, RT.Create), stream)
  {
  }

  lemma SettledIsHandled(s0: RT.State, s: RT.State, stream: string, step: RT.SourceStep)
    requires Handling(s0, s, stream) && RT.SourceEnabled(s, stream, step) && (step.Offer? || step.RouteIt?)
    requires RT.NextSource(s, stream, step).Receiving?
    ensures Handled(s0, RT.DoSource(s, stream, step), stream, s.sources[stream].m)
  {
  }

  lemma HandlingTogether(s0: RT.State, s1: RT.State, s2: RT.State, stream: string)
    requires Handling(s0, s1, stream) && Found(s1, s2, stream)
    ensures Handling(s0, s2, stream)
  {
  }

  /** The first `n` messages have been placed, one after the other. */
  ghost predicate AllHandled(s0: RT.State, s: RT.State, stream: string, inbox: seq<Task>, n: nat)
    requires n <= |inbox|
  {
    && stream in s0.sources && s.sources == s0.sources[stream := RT.Receiving] && s.pools == s0.pools
    && (forall m :: m in s.fate <==> m in s0.fate || m in inbox[..n])
    && forall m :: m in inbox[..n] ==> !s.fate[m].InSource?
  }

  lemma NextArrives(s0: RT.State, s: RT.State, stream: string, inbox: seq<Task>, n: nat)
    requires n < |inbox| && AllHandled(s0, s, stream, inbox, n) && RT.SourceEnabled(s0, stream, RT.Recv(inbox[n]))
    requires forall i, j :: 0 <= i < j < |inbox| ==> inbox[i] != inbox[j]
    ensures RT.SourceEnabled(s, stream, RT.Recv(inbox[n]))
  {
  }

  lemma OneMoreHandled(s0: RT.State, s: RT.State, s': RT.State, stream: string, inbox: seq<Task>, n: nat)
    requires n < |inbox| && AllHandled(s0, s, stream, inbox, n) && Handled(s, s', stream, inbox[n])
    requires forall i, j :: 0 <= i < j < |inbox| ==> inbox[i] != inbox[j]
    ensures AllHandled(s0, s', stream, inbox, n + 1)
  {
    assert inbox[..n + 1] == inbox[..n] + [inbox[n]];
  }

  lemma OfferEffect(s: RT.State, stream: string)
    requires RT.SourceEnabled(s, stream, RT.Offer)
    ensures var src, key := s.sources[stream], DT.RouteKey(stream, s.sources[stream].pool);
            var d := s.dispatchers[key];
            var ok := |d.buffer| < s.bufferSize;
            RT.DoSource(s, stream, RT.Offer) == s.(
              sources := s.sources[stream := RT.Receiving],
              dispatchers := s.dispatchers[key := if ok then d.(buffer := d.buffer + [src.m]) else d],
              fate := s.fate[src.m := if ok then RT.Buffered(key, d.pool) else RT.QueueFull])
  {
    var key := DT.RouteKey(stream, s.sources[stream].pool);
    assert s.dispatchers[key := s.dispatchers[key]] == s.dispatchers;
  }

  /** A run goes on with one more source step. */
  lemma Extend(s0: RT.State, run: seq<RT.Action>, s: RT.State, stream: string, step: RT.SourceStep)
    requires RT.Feasible(s0, run) && RT.After(s0, run) == s && RT.SourceEnabled(s, stream, step)
    ensures var a := RT.ForSource(stream, step);
            RT.Feasible(s0, run + [a]) && RT.After(s0, run + [a]) == RT.DoSource(s, stream, step)
  {
    RT.OneMoreStep(s0, run, RT.ForSource(stream, step));
  }
}
