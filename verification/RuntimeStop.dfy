/** The phases of `Stop`: sources exited, dispatchers exited, pools drained; and what its
    returning nil means for every task and every message. */
module RuntimeStop {
  import opened Tasks
  import DT = DispatcherTable
  import FP = FixedPool
  import opened Runtime
  import opened RuntimeMessages
  import opened RuntimeOrder

  ghost predicate SourcesGone(s: State) { forall x :: x in s.sources ==> s.sources[x].SourceGone? }

  /** The dispatchers outside `rest` have returned. */
  ghost predicate GoneBut(s: State, rest: set<string>) {
    forall k :: k in s.dispatchers && k !in rest ==> s.dispatchers[k].worker.DispatcherGone?
  }

  /** Some `DrainAndStop` of the pool has returned nil. */
  ghost predicate Drained(ps: FP.State) { exists d: nat :: FP.At(ps, d, FP.Drain.Returned(true)) }

  /** The registered pools outside `rest` have been drained. */
  ghost predicate DrainedBut(s: State, rest: set<string>) {
    && s.registered <= s.pools.Keys
    && forall p :: p in s.registered && p !in rest ==> Drained(s.pools[p])
  }

  /** What each phase of `Stop` may rely on. */
  ghost predicate Phase(s: State) {
    match s.stop
    case NotCalled => true
    case AwaitingSources => s.contextDone
    case StoppingDispatchers(rest) => SourcesGone(s) && GoneBut(s, rest)
    case Draining(rest, _) => SourcesGone(s) && GoneBut(s, {}) && DrainedBut(s, rest)
    case Returned(clean) => clean ==> SourcesGone(s) && GoneBut(s, {}) && DrainedBut(s, {})
  }

  ghost predicate PastSources(stop: Stop) {
    stop.StoppingDispatchers? || stop.Draining? || (stop.Returned? && stop.clean)
  }

  // ----- each phase keeps what the earlier ones achieved -----

  lemma DrainedStays(ps: FP.State, a: FP.Action)
    requires Drained(ps) && FP.Enabled(ps, a)
    ensures Drained(FP.Step(ps, a))
  {
    var d: nat :| FP.At(ps, d, FP.Drain.Returned(true));
    assert FP.At(FP.Step(ps, a), d, FP.Drain.Returned(true));
  }

  lemma DrainedButStays(s: State, a: Action, rest: set<string>)
    requires Enabled(s, a) && DrainedBut(s, rest)
    ensures DrainedBut(Step(s, a), rest)
  {
    var s' := Step(s, a);
    forall p | p in s.registered && p !in rest ensures Drained(s'.pools[p]) {
      PoolStepsOnly(s, a, p);
      if s'.pools[p] != s.pools[p] {
        var pa :| FP.Enabled(s.pools[p], pa) && s'.pools[p] == FP.Step(s.pools[p], pa);
        DrainedStays(s.pools[p], pa);
      }
    }
    assert s'.pools.Keys == s.pools.Keys by { SameNames(s, a); }
  }

  lemma SourcesStayGone(s: State, a: Action)
    requires Enabled(s, a) && SourcesGone(s)
    ensures !a.ForSource? && Step(s, a).sources == s.sources
  {
  }

  lemma GoneButStays(s: State, a: Action, rest: set<string>)
    requires Enabled(s, a) && SourcesGone(s) && GoneBut(s, rest)
    ensures GoneBut(Step(s, a), rest)
  {
    SourcesStayGone(s, a);
    if !a.ForDispatcher? { MovesNothing(s, a); }
  }

  lemma WorkPhase(s: State, a: Action)
    requires Enabled(s, a) && Phase(s)
             && (a.ForSource? || a.ForDispatcher? || a.ForPool? || a.Rebind? || a.ContextEnds?)
    ensures Phase(Step(s, a))
  {
    assert Step(s, a).stop == s.stop && (s.contextDone ==> Step(s, a).contextDone);
    if PastSources(s.stop) {
      SourcesStayGone(s, a);
      var rest := if s.stop.StoppingDispatchers? then s.stop.rest else {};
      GoneButStays(s, a, rest);
      if !s.stop.StoppingDispatchers? {
        DrainedButStays(s, a, if s.stop.Draining? then s.stop.rest else {});
      }
    }
  }

  lemma DrainPhase(s: State, a: Action)
    requires Enabled(s, a) && Phase(s) && a.DrainPool?
    ensures Phase(Step(s, a))
  {
    SourcesStayGone(s, a);
    GoneButStays(s, a, {});
    DrainedButStays(s, a, s.stop.rest);
  }

  lemma DrainReturnedPhase(s: State)
    requires Enabled(s, DrainReturned) && Phase(s)
    ensures Phase(Step(s, DrainReturned))
  {
    var (p, d) := s.stop.current.value;
    if s.pools[p].drains[d].clean {
      assert FP.At(s.pools[p], d, FP.Drain.Returned(true));
      assert Drained(s.pools[p]);
    }
  }

  lemma StepPhase(s: State, a: Action)
    requires Named(s) && Phase(s) && Enabled(s, a)
    ensures Phase(Step(s, a))
  {
    if a.DrainPool? {
      DrainPhase(s, a);
    } else if a.DrainReturned? {
      DrainReturnedPhase(s);
    } else if a.ForSource? || a.ForDispatcher? || a.ForPool? || a.Rebind? || a.ContextEnds? {
      WorkPhase(s, a);
    }
  }

  lemma {:induction false} RunPhase(s: State, run: seq<Action>)
    requires Located(s) && Recorded(s) && Phase(s) && Feasible(s, run)
    ensures Located(After(s, run)) && Recorded(After(s, run)) && Phase(After(s, run))
    decreases |run|
  {
    if run != [] {
      StepLocated(s, run[0]);
      StepRecorded(s, run[0]);
      StepPhase(s, run[0]);
      RunPhase(Step(s, run[0]), run[1..]);
    }
  }

  // ----- what a nil return means -----

  /** When `Stop` returns nil, every registered pool is closed and empty, and every task any
      of them ever accepted, from the runtime or from elsewhere, has run exactly once. */
  lemma StopDrainsRegisteredPools(s0: State, run: seq<Action>)
    requires JustSpawned(s0) && Feasible(s0, run) && After(s0, run).stop == Returned(true)
    ensures var s := After(s0, run);
            forall p :: p in s.registered ==>
              p in s.pools && var pool := s.pools[p];
              pool.closed && pool.queue == []
              && forall t :: t in pool.accepted ==> multiset(pool.begun)[t] == 1 && multiset(pool.finished)[t] == 1
  {
    SpawnedLocated(s0);
    RunPhase(s0, run);
    var s := After(s0, run);
    forall p | p in s.registered
      ensures p in s.pools && s.pools[p].closed && s.pools[p].queue == []
      ensures forall t :: t in s.pools[p].accepted ==>
                multiset(s.pools[p].begun)[t] == 1 && multiset(s.pools[p].finished)[t] == 1
    {
      assert PoolOk(s, p);
      DrainedIsExact(s.pools[p]);
    }
  }

  lemma DrainedIsExact(ps: FP.State)
    requires FP.Inv(ps) && Drained(ps)
    ensures ps.closed && ps.queue == []
    ensures forall t :: t in ps.accepted ==> multiset(ps.begun)[t] == 1 && multiset(ps.finished)[t] == 1
  {
    var d: nat :| FP.At(ps, d, FP.Drain.Returned(true));
    FP.InvDrained(ps, d);
  }

  /** A closed pool accepts nothing. */
  lemma ClosedStays(ps: FP.State, a: FP.Action)
    requires FP.Enabled(ps, a) && ps.closed
    ensures FP.Step(ps, a).closed && FP.Step(ps, a).accepted == ps.accepted
  {
  }

  lemma {:induction false} RunKeepsClosed(s: State, run: seq<Action>, p: string)
    requires Feasible(s, run) && p in s.pools && s.pools[p].closed
    ensures p in After(s, run).pools && After(s, run).pools[p].accepted == s.pools[p].accepted
    decreases |run|
  {
    if run != [] {
      PoolStepsOnly(s, run[0], p);
      if Step(s, run[0]).pools[p] != s.pools[p] {
        var pa :| FP.Enabled(s.pools[p], pa) && Step(s, run[0]).pools[p] == FP.Step(s.pools[p], pa);
        ClosedStays(s.pools[p], pa);
      }
      RunKeepsClosed(Step(s, run[0]), run[1..], p);
    }
  }

  /** With sources and dispatchers gone no message moves any more. */
  lemma {:induction false} RunMovesNothing(s: State, run: seq<Action>)
    requires Feasible(s, run) && SourcesGone(s) && GoneBut(s, {})
    ensures After(s, run).received == s.received && After(s, run).fate == s.fate
    decreases |run|
  {
    if run != [] {
      SourcesStayGone(s, run[0]);
      GoneButStays(s, run[0], {});
      MovesNothing(s, run[0]);
      RunMovesNothing(Step(s, run[0]), run[1..]);
    }
  }

  /** Once `Stop` has returned nil nothing is accepted any more, however the run goes on:
      registered pools accept no task from anyone, and no pool accepts a message. */
  lemma NothingAcceptedAfterStop(s0: State, run: seq<Action>, more: seq<Action>)
    requires JustSpawned(s0) && Feasible(s0, run) && After(s0, run).stop == Returned(true)
    requires Feasible(After(s0, run), more)
    ensures var s, s' := After(s0, run), After(After(s0, run), more);
            && s'.received == s.received && s'.fate == s.fate
            && (forall p :: p in s.registered ==>
                p in s.pools && p in s'.pools && s'.pools[p].accepted == s.pools[p].accepted)
            && (forall p: string, m: Task :: p in s.pools && p in s'.pools && m in s.received ==>
                  (m in s'.pools[p].accepted <==> m in s.pools[p].accepted))
  {
    SpawnedLocated(s0);
    RunPhase(s0, run);
    var s := After(s0, run);
    RunPhase(s, more);
    RunMovesNothing(s, more);
    forall p | p in s.registered
      ensures p in s.pools && p in After(s, more).pools && After(s, more).pools[p].accepted == s.pools[p].accepted
    {
      RegisteredIsFixed(s, more, p);
    }
    forall p: string, m: Task | p in s.pools && p in After(s, more).pools && m in s.received
      ensures m in After(s, more).pools[p].accepted <==> m in s.pools[p].accepted
    {
      SameFateSamePool(s, After(s, more), m, p);
    }
  }

  lemma SameFateSamePool(s: State, s': State, m: Task, p: string)
    requires Located(s) && Located(s') && s'.fate == s.fate && m in s.fate && p in s.pools && p in s'.pools
    ensures m in s'.pools[p].accepted <==> m in s.pools[p].accepted
  {
    PlaceIsFate(s, m, Accepted(p));
    PlaceIsFate(s', m, Accepted(p));
  }

  lemma RegisteredIsFixed(s: State, more: seq<Action>, p: string)
    requires PoolsOk(s) && DrainedBut(s, {}) && p in s.registered && Feasible(s, more)
    ensures p in s.pools && p in After(s, more).pools && After(s, more).pools[p].accepted == s.pools[p].accepted
  {
    assert PoolOk(s, p);
    DrainedIsExact(s.pools[p]);
    RunKeepsClosed(s, more, p);
  }

  /** The fates a message can be left with when `Stop` returns nil.  A message that has run
      or will ever run was accepted; one still in a dispatcher's buffer never runs. */
  lemma FatesAfterStop(s0: State, run: seq<Action>, more: seq<Action>, m: Task)
    requires JustSpawned(s0) && Feasible(s0, run) && After(s0, run).stop == Returned(true)
    requires Feasible(After(s0, run), more) && m in After(s0, run).received
    ensures var s, s' := After(s0, run), After(After(s0, run), more);
            && m in s.fate && !s.fate[m].InSource? && !s.fate[m].Held?
            && (forall p :: p in s'.pools && (m in s'.pools[p].begun || m in s'.pools[p].finished) ==>
                s.fate[m] == Accepted(p))
            && (forall p :: p in s.registered && s.fate[m] == Accepted(p) ==> p in s.pools && m in s.pools[p].finished)
  {
    SpawnedLocated(s0);
    RunPhase(s0, run);
    var s := After(s0, run);
    var s' := After(s, more);
    RunPhase(s, more);
    RunMovesNothing(s, more);
    NoneInFlight(s, m);
    assert m.stream in s'.sources by { assert MessageOk(s', m); }
    forall p | p in s'.pools && (m in s'.pools[p].begun || m in s'.pools[p].finished) ensures s.fate[m] == Accepted(p) {
      RanHasFate(s', m, p);
    }
    forall p | p in s.registered && s.fate[m] == Accepted(p) ensures p in s.pools && m in s.pools[p].finished {
      AcceptedHasFinished(s, m, p);
    }
  }

  lemma RanHasFate(s: State, m: Task, p: string)
    requires PoolsOk(s) && p in s.pools && m.stream in s.sources
    requires m in s.pools[p].begun || m in s.pools[p].finished
    ensures m in s.fate && s.fate[m] == Accepted(p)
  {
    assert PoolOk(s, p);
    RanWasAccepted(s.pools[p], m);
  }

  lemma AcceptedHasFinished(s: State, m: Task, p: string)
    requires Located(s) && DrainedBut(s, {}) && p in s.registered && m in s.fate && s.fate[m] == Accepted(p)
    ensures p in s.pools && m in s.pools[p].finished
  {
    assert PoolOk(s, p);
    PlaceIsFate(s, m, Accepted(p));
    DrainedIsExact(s.pools[p]);
    assert m in multiset(s.pools[p].finished);
  }

  lemma NoneInFlight(s: State, m: Task)
    requires Located(s) && SourcesGone(s) && GoneBut(s, {}) && m in s.fate
    ensures !s.fate[m].InSource? && !s.fate[m].Held?
  {
    assert MessageOk(s, m);
  }

  lemma RanWasAccepted(ps: FP.State, m: Task)
    requires FP.Inv(ps) && (m in ps.begun || m in ps.finished)
    ensures m in ps.accepted
  {
    assert m in ps.begun ==> m in ps.accepted;
    assert m in multiset(ps.finished) ==> m in multiset(ps.begun);
  }

  // ----- buffered messages -----

  lemma BufferStaysEmpty(s: State, a: Action, k: string)
    requires Enabled(s, a) && SourcesGone(s) && k in s.dispatchers && s.dispatchers[k].buffer == []
    ensures k in Step(s, a).dispatchers && Step(s, a).dispatchers[k].buffer == []
  {
    SourcesStayGone(s, a);
    if !a.ForDispatcher? { MovesNothing(s, a); }
  }

  lemma {:induction false} RunKeepsBufferEmpty(s: State, run: seq<Action>, k: string)
    requires Feasible(s, run) && SourcesGone(s) && k in s.dispatchers && s.dispatchers[k].buffer == []
    ensures k in After(s, run).dispatchers && After(s, run).dispatchers[k].buffer == []
    decreases |run|
  {
    if run != [] {
      SourcesStayGone(s, run[0]);
      BufferStaysEmpty(s, run[0], k);
      RunKeepsBufferEmpty(Step(s, run[0]), run[1..], k);
    }
  }

  lemma GiveUpEnabled(s: State, k: string)
    requires Located(s) && s.contextDone && k in s.dispatchers && s.dispatchers[k].worker.Submitting?
    ensures DispatchEnabled(s, k, Attempt(FP.SeeContext(s.dispatchers[k].worker.m)))
  {
    assert DispatcherOk(s, k);
    assert MessageOk(s, s.dispatchers[k].worker.m);
  }

  lemma GiveUpEffect(s: State, k: string)
    requires k in s.dispatchers && s.dispatchers[k].worker.Submitting?
    requires DispatchEnabled(s, k, Attempt(FP.SeeContext(s.dispatchers[k].worker.m)))
    ensures var after := DoDispatch(s, k, Attempt(FP.SeeContext(s.dispatchers[k].worker.m)));
            && after.contextDone == s.contextDone && after.pools.Keys == s.pools.Keys
            && after.dispatchers == s.dispatchers[k := s.dispatchers[k].(worker := Waiting)]
  {
  }

  lemma CanGiveUp(s: State, k: string)
    requires Located(s) && s.contextDone && k in s.dispatchers && s.dispatchers[k].worker.Submitting?
    ensures var giveUp := Attempt(FP.SeeContext(s.dispatchers[k].worker.m));
            && DispatchEnabled(s, k, giveUp) && DoDispatch(s, k, giveUp).contextDone
            && DoDispatch(s, k, giveUp).dispatchers == s.dispatchers[k := s.dispatchers[k].(worker := Waiting)]
            && DoDispatch(s, k, giveUp).pools.Keys == s.pools.Keys
  {
    GiveUpEnabled(s, k);
    GiveUpEffect(s, k);
  }

  lemma CanLeave(s: State, k: string)
    requires s.contextDone && k in s.dispatchers && s.dispatchers[k].worker.Waiting? && s.dispatchers[k].pool in s.pools
    ensures Enabled(s, ForDispatcher(k, Leave))
    ensures Step(s, ForDispatcher(k, Leave)).dispatchers
            == s.dispatchers[k := s.dispatchers[k].(worker := DispatcherGone)]
    ensures Step(s, ForDispatcher(k, Leave)).fate == s.fate
  {
  }

  /** A dispatcher whose context has ended can return at once, giving up on the task in its
      hands and leaving its buffer as it is. */
  lemma CanLeaveNow(s: State, k: string) returns (run: seq<Action>)
    requires Located(s) && s.contextDone && k in s.dispatchers && !s.dispatchers[k].worker.DispatcherGone?
    ensures Feasible(s, run) && k in After(s, run).dispatchers
    ensures After(s, run).dispatchers[k] == s.dispatchers[k].(worker := DispatcherGone)
  {
    var leave := ForDispatcher(k, Leave);
    if s.dispatchers[k].worker.Waiting? {
      CanLeave(s, k);
      OneStep(s, leave);
      run := [leave];
    } else {
      CanGiveUp(s, k);
      var giveUp := ForDispatcher(k, Attempt(FP.SeeContext(s.dispatchers[k].worker.m)));
      CanLeave(Step(s, giveUp), k);
      OneStep(Step(s, giveUp), leave);
      run := [giveUp, leave];
      assert run[1..] == [leave];
    }
  }

  /** `RouteDispatcher.Stop` leaves an empty buffer behind, whatever the interleaving, exactly
      when it was empty already when `Stop` came to the dispatchers. */
  lemma BufferIsWorkedOffExactly(s: State, k: string)
    requires Located(s) && s.contextDone && SourcesGone(s)
    requires k in s.dispatchers && !s.dispatchers[k].worker.DispatcherGone?
    ensures (forall run :: Feasible(s, run) && k in After(s, run).dispatchers
                           && After(s, run).dispatchers[k].worker.DispatcherGone?
               ==> After(s, run).dispatchers[k].buffer == [])
            <==> s.dispatchers[k].buffer == []
  {
    if s.dispatchers[k].buffer == [] {
      forall run | Feasible(s, run) ensures k in After(s, run).dispatchers
          && After(s, run).dispatchers[k].buffer == [] {
        RunKeepsBufferEmpty(s, run, k);
      }
    } else {
      var run := CanLeaveNow(s, k);
      assert After(s, run).dispatchers[k].buffer != [];
    }
  }

  /** A dispatcher whose context has ended can lose everything it has before it: the task in
      its hands by giving up on it, the buffered ones by leaving. */
  lemma CanLosePending(s: State, k: string) returns (run: seq<Action>)
    requires Located(s) && s.contextDone && k in s.dispatchers
    ensures Feasible(s, run) && k in After(s, run).dispatchers && After(s, run).dispatchers[k].worker.DispatcherGone?
    ensures forall m :: m in Holding(s.dispatchers[k]) + s.dispatchers[k].buffer ==>
              m in After(s, run).fate && !After(s, run).fate[m].Accepted?
  {
    assert DispatcherOk(s, k);
    if s.dispatchers[k].worker.DispatcherGone? {
      run := [];
    } else if s.dispatchers[k].worker.Waiting? {
      CanLeave(s, k);
      OneStep(s, ForDispatcher(k, Leave));
      run := [ForDispatcher(k, Leave)];
    } else {
      run := GiveUpAndLeave(s, k);
    }
  }

  lemma GiveUpAndLeave(s: State, k: string) returns (run: seq<Action>)
    requires Located(s) && s.contextDone && k in s.dispatchers && s.dispatchers[k].worker.Submitting?
    ensures Feasible(s, run) && k in After(s, run).dispatchers && After(s, run).dispatchers[k].worker.DispatcherGone?
    ensures forall m :: m in Holding(s.dispatchers[k]) + s.dispatchers[k].buffer ==>
              m in After(s, run).fate && !After(s, run).fate[m].Accepted?
  {
    var d := s.dispatchers[k];
    CanGiveUp(s, k);
    GiveUpFates(s, k);
    var giveUp, leave := ForDispatcher(k, Attempt(FP.SeeContext(d.worker.m))), ForDispatcher(k, Leave);
    CanLeave(DoDispatch(s, k, giveUp.d), k);
    OneStep(s, giveUp);
    OneMoreStep(s, [giveUp], leave);
    run := [giveUp] + [leave];
  }

  lemma GiveUpFates(s: State, k: string)
    requires k in s.dispatchers && DispatcherOk(s, k) && s.dispatchers[k].worker.Submitting?
    requires DispatchEnabled(s, k, Attempt(FP.SeeContext(s.dispatchers[k].worker.m)))
    ensures var d := s.dispatchers[k];
            var fate := DoDispatch(s, k, Attempt(FP.SeeContext(d.worker.m))).fate;
            forall m :: m in Holding(d) + d.buffer ==> m in fate && !fate[m].Accepted?
  {
  }

  /** Pool `p` has accepted all of `messages`. */
  ghost predicate AllAccepted(s: State, messages: seq<Task>, p: string) {
    forall m :: m in messages ==> m in s.fate && s.fate[m] == Accepted(p)
  }

  lemma PendingCanBeLost(s: State, stream: string, p: string) returns (run: seq<Action>)
    requires Located(s) && s.contextDone && DT.RouteKey(stream, p) in s.dispatchers
    requires Pending(s, stream, p) != []
    ensures var k := DT.RouteKey(stream, p);
            Feasible(s, run) && k in After(s, run).dispatchers && After(s, run).dispatchers[k].worker.DispatcherGone?
    ensures !AllAccepted(After(s, run), Pending(s, stream, p), p)
  {
    run := CanLosePending(s, DT.RouteKey(stream, p));
    ghost var first := Pending(s, stream, p)[0];
    assert first in Pending(s, stream, p);
  }

  /** The promise over messages: once the context has ended, every interleaving submits all
      that a stream's dispatcher had before it, in its hands or buffered, exactly when it
      had nothing. */
  lemma PendingIsSubmittedExactly(s: State, stream: string, p: string)
    requires Located(s) && s.contextDone && DT.RouteKey(stream, p) in s.dispatchers
    ensures var k := DT.RouteKey(stream, p);
            (forall run :: Feasible(s, run) && k in After(s, run).dispatchers
                           && After(s, run).dispatchers[k].worker.DispatcherGone?
               ==> AllAccepted(After(s, run), Pending(s, stream, p), p))
            <==> Pending(s, stream, p) == []
  {
    if Pending(s, stream, p) != [] {
      var run := PendingCanBeLost(s, stream, p);
    }
  }
}
