/** End-to-end order in the runtime: from a source's `Recv` through its dispatchers to the
    queues of the pools, the messages of one stream for one pool stay in receive order. */
module RuntimeOrder {
  import opened Sequences
  import opened Tasks
  import DT = DispatcherTable
  import FP = FixedPool
  import opened Runtime
  import opened RuntimeMessages

  /** A fate that keeps a message on its way to pool `p`, or in it. */
  ghost predicate Bound(f: Fate, p: string) {
    f == InSource || ((f.Buffered? || f.Held? || f.Accepted?) && f.pool == p)
  }

  /** The messages of a stream that are on their way to `p`, or in it. */
  ghost function Heading(fate: map<Task, Fate>, stream: string, p: string): Task -> bool {
    (m: Task) => m.stream == stream && m in fate && Bound(fate[m], p)
  }

  ghost function OfStream(stream: string): Task -> bool { (m: Task) => m.stream == stream }

  /** What a stream's dispatcher for a pool still has to submit, oldest first. */
  ghost function Pending(s: State, stream: string, p: string): seq<Task> {
    var k := DT.RouteKey(stream, p);
    if k in s.dispatchers then Holding(s.dispatchers[k]) + s.dispatchers[k].buffer else []
  }

  ghost function AcceptedOf(s: State, stream: string, p: string): seq<Task>
    requires p in s.pools
  {
    Select(s.pools[p].accepted, OfStream(stream))
  }

  /** Receive order is the order in the pool, then in the dispatcher, then in the source. */
  ghost predicate InOrder(s: State, stream: string, p: string)
    requires stream in s.sources && p in s.pools
  {
    Select(s.received, Heading(s.fate, stream, p))
    == AcceptedOf(s, stream, p) + Pending(s, stream, p) + InHands(s.sources[stream])
  }

  ghost predicate Ordered(s: State) {
    forall stream, p :: stream in s.sources && p in s.pools ==> InOrder(s, stream, p)
  }

  // ----- each dispatcher serves one stream -----

  /** The dispatcher under a stream's key for a pool is the dispatcher of that pair. */
  lemma KeyOwner(s: State, stream: string, pool: string)
    requires Named(s) && ClearNames(s) && stream in s.sources && DT.RouteKey(stream, pool) in s.dispatchers
    ensures s.dispatchers[DT.RouteKey(stream, pool)].stream == stream
    ensures s.dispatchers[DT.RouteKey(stream, pool)].pool == pool
  {
    var d := s.dispatchers[DT.RouteKey(stream, pool)];
    DT.KeyDeterminesPair(d.stream, d.pool, stream, pool);
  }

  /** A dispatcher has messages of its own stream only. */
  ghost predicate OwnOnly(s: State, k: string)
    requires k in s.dispatchers
  {
    var d := s.dispatchers[k];
    && (forall m :: m in d.buffer ==> m.stream == d.stream)
    && (d.worker.Submitting? ==> d.worker.m.stream == d.stream)
  }

  ghost predicate Keyed(s: State) {
    ClearNames(s) && forall k :: k in s.dispatchers ==> OwnOnly(s, k)
  }

  lemma SourceOwnOnly(s: State, x: string, step: SourceStep, k: string)
    requires Named(s) && ClearNames(s) && SourceEnabled(s, x, step) && SourceOk(s, x)
    requires k in s.dispatchers ==> OwnOnly(s, k)
    requires k in DoSource(s, x, step).dispatchers
    ensures OwnOnly(DoSource(s, x, step), k)
  {
    if step.Offer? { KeyOwner(s, x, s.sources[x].pool); }
  }

  lemma DispatchOwnOnly(s: State, key: string, step: DispatchStep, k: string)
    requires DispatchEnabled(s, key, step) && k in s.dispatchers && OwnOnly(s, k) && OwnOnly(s, key)
    ensures OwnOnly(DoDispatch(s, key, step), k)
  {
    if step.TakeTask? {
      var buffer := s.dispatchers[key].buffer;
      assert buffer[0] in buffer && forall m :: m in buffer[1..] ==> m in buffer;
    }
  }

  lemma StepKeyed(s: State, a: Action)
    requires Named(s) && SourcesOk(s) && Keyed(s) && Enabled(s, a)
    ensures Keyed(Step(s, a))
  {
    SameNames(s, a);
    if a.ForSource? {
      assert SourceOk(s, a.stream);
      forall k | k in Step(s, a).dispatchers ensures OwnOnly(Step(s, a), k) {
        if k in s.dispatchers { assert OwnOnly(s, k); }
        SourceOwnOnly(s, a.stream, a.s, k);
      }
    } else if a.ForDispatcher? {
      forall k | k in Step(s, a).dispatchers ensures OwnOnly(Step(s, a), k) {
        assert OwnOnly(s, k) && OwnOnly(s, a.key);
        DispatchOwnOnly(s, a.key, a.d, k);
      }
    } else {
      MovesNothing(s, a);
      forall k | k in Step(s, a).dispatchers ensures OwnOnly(Step(s, a), k) { assert OwnOnly(s, k); }
    }
  }

  lemma {:induction false} RunKeyed(s: State, run: seq<Action>)
    requires Located(s) && Keyed(s) && Feasible(s, run)
    ensures Located(After(s, run)) && Keyed(After(s, run))
    decreases |run|
  {
    if run != [] {
      StepLocated(s, run[0]);
      StepKeyed(s, run[0]);
      RunKeyed(Step(s, run[0]), run[1..]);
    }
  }

  // ----- how a change of fate changes the selection -----

  lemma NoDupSplit<T>(a: seq<T>, m: T, b: seq<T>)
    requires NoDup(a + [m] + b)
    ensures m !in a && m !in b
  {
    var log := a + [m] + b;
    assert log[|a|] == m;
    assert forall i :: 0 <= i < |a| ==> a[i] == log[i];
    assert forall i :: 0 <= i < |b| ==> b[i] == log[|a| + 1 + i];
  }

  lemma SelectWithout(log: seq<Task>, p: Task -> bool, q: Task -> bool, a: seq<Task>, m: Task, b: seq<Task>)
    requires NoDup(log) && Select(log, p) == a + [m] + b
    requires forall x :: x in log ==> q(x) == (p(x) && x != m)
    ensures Select(log, q) == a + b
  {
    var other := (x: Task) => x != m;
    NoDupSelect(log, p);
    SelectTwice(log, p, other, q);
    NoDupSplit(a, m, b);
    SelectConcat(a + [m], b, other);
    SelectAppend(a, m, other);
    SelectAll(a, other);
    SelectAll(b, other);
  }

  /** A message leaves its place in the line for good. */
  lemma FateLeaves(log: seq<Task>, fate: map<Task, Fate>, m: Task, f: Fate, stream: string, p: string,
      a: seq<Task>, b: seq<Task>)
    requires NoDup(log) && !Bound(f, p)
    requires Select(log, Heading(fate, stream, p)) == a + [m] + b
    ensures Select(log, Heading(fate[m := f], stream, p)) == a + b
  {
    SelectWithout(log, Heading(fate, stream, p), Heading(fate[m := f], stream, p), a, m, b);
  }

  /** A message keeps its place, or never had one. */
  lemma FateStays(log: seq<Task>, fate: map<Task, Fate>, m: Task, f: Fate, stream: string, p: string)
    requires m.stream != stream || (m in fate && Bound(fate[m], p) == Bound(f, p))
    ensures Select(log, Heading(fate[m := f], stream, p)) == Select(log, Heading(fate, stream, p))
  {
    SelectAgree(log, Heading(fate[m := f], stream, p), Heading(fate, stream, p));
  }

  lemma FateArrives(log: seq<Task>, fate: map<Task, Fate>, m: Task, stream: string, p: string)
    requires m !in log
    ensures Select(log + [m], Heading(fate[m := InSource], stream, p)) ==
            Select(log, Heading(fate, stream, p)) + (if m.stream == stream then [m] else [])
  {
    SelectAppend(log, m, Heading(fate[m := InSource], stream, p));
    SelectAgree(log, Heading(fate[m := InSource], stream, p), Heading(fate, stream, p));
  }

  // ----- source steps -----

  lemma KeysDiffer(s: State, x: string, q: string, stream: string, p: string)
    requires Named(s) && ClearNames(s) && x in s.sources && stream in s.sources && (x != stream || q != p)
    ensures DT.RouteKey(x, q) != DT.RouteKey(stream, p)
  {
    if DT.RouteKey(x, q) == DT.RouteKey(stream, p) { DT.KeyDeterminesPair(x, q, stream, p); }
  }

  /** A dispatcher's work grows only when its own source offers it a message. */
  ghost predicate Grows(s: State, x: string, step: SourceStep, stream: string, p: string)
    requires SourceEnabled(s, x, step)
  {
    && step.Offer? && x == stream && s.sources[x].pool == p
    && |s.dispatchers[DT.RouteKey(x, p)].buffer| < s.bufferSize
  }

  lemma OfferPending(s: State, stream: string)
    requires Named(s) && ClearNames(s) && SourceEnabled(s, stream, Offer)
    ensures var src := s.sources[stream];
            Pending(DoSource(s, stream, Offer), stream, src.pool)
            == Pending(s, stream, src.pool) + if Grows(s, stream, Offer, stream, src.pool) then [src.m] else []
  {
  }

  lemma SourcePending(s: State, x: string, step: SourceStep, stream: string, p: string)
    requires Named(s) && ClearNames(s) && SourceEnabled(s, x, step) && stream in s.sources
    ensures Pending(DoSource(s, x, step), stream, p)
            == Pending(s, stream, p) + if Grows(s, x, step, stream, p) then [s.sources[x].m] else []
  {
    if step.Create? || step.Offer? {
      var q := s.sources[x].pool;
      if x != stream || q != p {
        KeysDiffer(s, x, q, stream, p);
      } else if step.Offer? {
        OfferPending(s, stream);
      }
    }
  }

  lemma SourceFate(s: State, x: string, step: SourceStep, stream: string, p: string)
    requires Named(s) && ClearNames(s) && Recorded(s) && SourceEnabled(s, x, step) && SourceOk(s, x)
    requires stream in s.sources && p in s.pools && x != stream
    ensures var s' := DoSource(s, x, step);
            Select(s'.received, Heading(s'.fate, stream, p)) == Select(s.received, Heading(s.fate, stream, p))
  {
    var src := s.sources[x];
    if step.Recv? {
      FateArrives(s.received, s.fate, step.m, stream, p);
    } else if InHands(src) != [] && DoSource(s, x, step).fate != s.fate {
      FateStays(s.received, s.fate, src.m, DoSource(s, x, step).fate[src.m], stream, p);
    }
  }

  lemma OtherSourceInOrder(s: State, x: string, step: SourceStep, stream: string, p: string)
    requires Named(s) && ClearNames(s) && Recorded(s) && SourceEnabled(s, x, step) && SourceOk(s, x)
    requires stream in s.sources && p in s.pools && InOrder(s, stream, p) && x != stream
    ensures InOrder(DoSource(s, x, step), stream, p)
  {
    SourceFate(s, x, step, stream, p);
    SourcePending(s, x, step, stream, p);
  }

  lemma RecvInOrder(s: State, stream: string, m: Task, p: string)
    requires Named(s) && ClearNames(s) && Recorded(s) && SourceEnabled(s, stream, Recv(m)) && p in s.pools
    requires InOrder(s, stream, p)
    ensures InOrder(DoSource(s, stream, Recv(m)), stream, p)
  {
    FateArrives(s.received, s.fate, m, stream, p);
    SourcePending(s, stream, Recv(m), stream, p);
  }

  lemma RouteInOrder(s: State, stream: string, ticket: nat, p: string)
    requires Named(s) && ClearNames(s) && Recorded(s) && SourceEnabled(s, stream, RouteIt(ticket)) && p in s.pools
             && InOrder(s, stream, p)
    ensures InOrder(DoSource(s, stream, RouteIt(ticket)), stream, p)
  {
    var m := s.sources[stream].m;
    SourcePending(s, stream, RouteIt(ticket), stream, p);
    if Picked(s, m, ticket).None? {
      FateLeaves(s.received, s.fate, m, NoRoute, stream, p, AcceptedOf(s, stream, p) + Pending(s, stream, p), []);
    }
  }

  lemma OfferInOrder(s: State, stream: string, p: string)
    requires Named(s) && ClearNames(s) && Recorded(s) && SourceEnabled(s, stream, Offer) && SourceOk(s, stream)
    requires p in s.pools && InOrder(s, stream, p)
    ensures InOrder(DoSource(s, stream, Offer), stream, p)
  {
    var src := s.sources[stream];
    var s' := DoSource(s, stream, Offer);
    var f := s'.fate[src.m];
    SourcePending(s, stream, Offer, stream, p);
    KeyOwner(s, stream, src.pool);
    assert AcceptedOf(s', stream, p) == AcceptedOf(s, stream, p) && s'.received == s.received;
    assert s'.fate == s.fate[src.m := f] && InHands(s'.sources[stream]) == [];
    if Bound(f, p) {
      FateStays(s.received, s.fate, src.m, f, stream, p);
    } else {
      FateLeaves(s.received, s.fate, src.m, f, stream, p, AcceptedOf(s, stream, p) + Pending(s, stream, p), []);
    }
  }

  lemma SourceInOrder(s: State, x: string, step: SourceStep, stream: string, p: string)
    requires Named(s) && ClearNames(s) && Recorded(s) && SourceEnabled(s, x, step) && SourceOk(s, x)
    requires stream in s.sources && p in s.pools && InOrder(s, stream, p)
    ensures InOrder(DoSource(s, x, step), stream, p)
  {
    if x != stream {
      OtherSourceInOrder(s, x, step, stream, p);
    } else {
      match step
      case Recv(m) => RecvInOrder(s, stream, m, p);
      case RouteIt(ticket) => RouteInOrder(s, stream, ticket, p);
      case Offer => OfferInOrder(s, stream, p);
      case _ => SourcePending(s, stream, step, stream, p);
    }
  }

  // ----- dispatcher steps -----

  lemma DispatchElsewhere(s: State, key: string, step: DispatchStep, stream: string, p: string)
    requires Named(s) && ClearNames(s) && Recorded(s) && DispatchEnabled(s, key, step)
    requires DispatcherOk(s, key) && OwnOnly(s, key)
    requires stream in s.sources && p in s.pools && InOrder(s, stream, p)
    requires key != DT.RouteKey(stream, p)
    ensures InOrder(DoDispatch(s, key, step), stream, p)
  {
    var d, s' := s.dispatchers[key], DoDispatch(s, key, step);
    assert d.stream != stream || d.pool != p;
    assert Pending(s', stream, p) == Pending(s, stream, p);
    if step.TakeTask? {
      assert d.buffer[0] in d.buffer;
      FateStays(s.received, s.fate, d.buffer[0], Held(key, d.pool), stream, p);
      assert AcceptedOf(s', stream, p) == AcceptedOf(s, stream, p);
    } else if step.Attempt? {
      FateStays(s.received, s.fate, d.worker.m, s'.fate[d.worker.m], stream, p);
      AttemptElsewhere(s, key, step.a, stream, p);
    }
  }

  lemma AttemptElsewhere(s: State, key: string, a: FP.Action, stream: string, p: string)
    requires DispatchEnabled(s, key, Attempt(a)) && DispatcherOk(s, key) && OwnOnly(s, key) && p in s.pools
    requires s.dispatchers[key].stream != stream || s.dispatchers[key].pool != p
    ensures AcceptedOf(DoDispatch(s, key, Attempt(a)), stream, p) == AcceptedOf(s, stream, p)
  {
    var d := s.dispatchers[key];
    AttemptAccepts(s.pools[d.pool], a, d.worker.m, s.contextDone);
    SelectAppend(s.pools[d.pool].accepted, d.worker.m, OfStream(stream));
  }

  lemma AttemptAccepts(ps: FP.State, a: FP.Action, m: Task, contextDone: bool)
    requires SubmitEnds(a, m, contextDone) && FP.Enabled(ps, a)
    ensures FP.Step(ps, a).accepted == ps.accepted + if Accepting(a) then [m] else []
  {
  }

  /** What a dispatcher step takes off the dispatcher's own work. */
  lemma DispatchPending(s: State, key: string, step: DispatchStep, stream: string, p: string)
    requires DispatchEnabled(s, key, step) && key == DT.RouteKey(stream, p)
    ensures Pending(s, stream, p)
            == (if step.Attempt? then [s.dispatchers[key].worker.m] else [])
               + Pending(DoDispatch(s, key, step), stream, p)
  {
    PendingOf(s.dispatchers[key], step);
  }

  lemma PendingOf(d: Dispatcher, step: DispatchStep)
    requires step.TakeTask? ==> d.worker.Waiting? && d.buffer != []
    requires step.Attempt? ==> d.worker.Submitting?
    requires step.Leave? ==> d.worker.Waiting?
    ensures var d' := NextDispatcher(d, step);
            Holding(d) + d.buffer == (if step.Attempt? then [d.worker.m] else []) + (Holding(d') + d'.buffer)
  {
    if step.TakeTask? { assert d.buffer == [d.buffer[0]] + d.buffer[1..]; }
  }

  lemma TakeInOrder(s: State, stream: string, p: string)
    requires stream in s.sources && p in s.pools && InOrder(s, stream, p)
    requires var key := DT.RouteKey(stream, p);
             DispatchEnabled(s, key, TakeTask) && DispatcherOk(s, key) && s.dispatchers[key].pool == p
    ensures InOrder(DoDispatch(s, DT.RouteKey(stream, p), TakeTask), stream, p)
  {
    var key := DT.RouteKey(stream, p);
    var d, s' := s.dispatchers[key], DoDispatch(s, key, TakeTask);
    assert d.buffer[0] in d.buffer;
    assert s'.fate == s.fate[d.buffer[0] := Held(key, p)] && s'.received == s.received && s'.sources == s.sources;
    FateStays(s.received, s.fate, d.buffer[0], Held(key, p), stream, p);
    assert AcceptedOf(s', stream, p) == AcceptedOf(s, stream, p);
    DispatchPending(s, key, TakeTask, stream, p);
    assert Pending(s', stream, p) == Pending(s, stream, p);
  }

  lemma AttemptAcceptedOf(s: State, key: string, a: FP.Action)
    requires DispatchEnabled(s, key, Attempt(a)) && DispatcherOk(s, key) && OwnOnly(s, key)
    ensures var d := s.dispatchers[key];
            d.pool in s.pools
            && AcceptedOf(DoDispatch(s, key, Attempt(a)), d.stream, d.pool)
               == AcceptedOf(s, d.stream, d.pool) + if Accepting(a) then [d.worker.m] else []
  {
    var d := s.dispatchers[key];
    AttemptAccepts(s.pools[d.pool], a, d.worker.m, s.contextDone);
    SelectAppend(s.pools[d.pool].accepted, d.worker.m, OfStream(d.stream));
  }

  /** How the outcome of a submission moves the message in the line. */
  lemma AttemptFate(s: State, key: string, a: FP.Action, was: seq<Task>, rest: seq<Task>)
    requires NoDup(s.received) && DispatchEnabled(s, key, Attempt(a)) && DispatcherOk(s, key) && OwnOnly(s, key)
    requires var d := s.dispatchers[key];
             Select(s.received, Heading(s.fate, d.stream, d.pool)) == was + [d.worker.m] + rest
    ensures var d, s' := s.dispatchers[key], DoDispatch(s, key, Attempt(a));
            Select(s'.received, Heading(s'.fate, d.stream, d.pool))
            == was + (if Accepting(a) then [d.worker.m] else []) + rest
  {
    var d := s.dispatchers[key];
    if Accepting(a) {
      FateStays(s.received, s.fate, d.worker.m, Accepted(d.pool), d.stream, d.pool);
    } else {
      FateLeaves(s.received, s.fate, d.worker.m, SubmitFailed(d.pool), d.stream, d.pool, was, rest);
    }
  }

  lemma AttemptInOrder(s: State, stream: string, p: string, a: FP.Action)
    requires NoDup(s.received) && stream in s.sources && p in s.pools && InOrder(s, stream, p)
    requires var key := DT.RouteKey(stream, p);
             DispatchEnabled(s, key, Attempt(a)) && DispatcherOk(s, key) && OwnOnly(s, key)
             && s.dispatchers[key].pool == p && s.dispatchers[key].stream == stream
    ensures InOrder(DoDispatch(s, DT.RouteKey(stream, p), Attempt(a)), stream, p)
  {
    var key := DT.RouteKey(stream, p);
    var m := s.dispatchers[key].worker.m;
    var s' := DoDispatch(s, key, Attempt(a));
    DispatchPending(s, key, Attempt(a), stream, p);
    AttemptAcceptedOf(s, key, a);
    var was, left, hands := AcceptedOf(s, stream, p), Pending(s', stream, p), InHands(s.sources[stream]);
    Regroup(was, [m], left, hands);
    AttemptFate(s, key, a, was, left + hands);
    Regroup(was, if Accepting(a) then [m] else [], left, hands);
    assert was + [] == was && was + [] + left == was + left;
  }

  lemma Regroup(a: seq<Task>, b: seq<Task>, c: seq<Task>, d: seq<Task>)
    ensures a + (b + c) + d == a + b + (c + d) == a + b + c + d
  {
  }

  lemma DispatchInOrder(s: State, key: string, step: DispatchStep, stream: string, p: string)
    requires Named(s) && ClearNames(s) && Recorded(s) && DispatchEnabled(s, key, step)
    requires DispatcherOk(s, key) && OwnOnly(s, key)
    requires stream in s.sources && p in s.pools && InOrder(s, stream, p)
    ensures InOrder(DoDispatch(s, key, step), stream, p)
  {
    if key != DT.RouteKey(stream, p) {
      DispatchElsewhere(s, key, step, stream, p);
    } else {
      KeyOwner(s, stream, p);
      if step.TakeTask? {
        TakeInOrder(s, stream, p);
      } else if step.Attempt? {
        AttemptInOrder(s, stream, p, step.a);
      }
    }
  }

  // ----- the rest -----

  lemma PoolInOrder(s: State, pool: string, a: FP.Action, stream: string, p: string)
    requires PoolEnabled(s, pool, a) && stream in s.sources && p in s.pools && InOrder(s, stream, p)
    ensures InOrder(DoPool(s, pool, a), stream, p)
  {
    ForeignAccepted(s, pool, a, stream);
    assert Pending(DoPool(s, pool, a), stream, p) == Pending(s, stream, p);
    if p != pool { assert DoPool(s, pool, a).pools[p] == s.pools[p]; }
  }

  /** A foreign step accepts no message of a stream of the runtime. */
  lemma ForeignAccepted(s: State, pool: string, a: FP.Action, stream: string)
    requires PoolEnabled(s, pool, a) && stream in s.sources
    ensures Select(FP.Step(s.pools[pool], a).accepted, OfStream(stream))
            == Select(s.pools[pool].accepted, OfStream(stream))
  {
    if Accepting(a) {
      SelectAppend(s.pools[pool].accepted, a.t, OfStream(stream));
    } else {
      NothingAccepted(s.pools[pool], a);
    }
  }

  lemma NothingAccepted(ps: FP.State, a: FP.Action)
    requires FP.Enabled(ps, a) && !Accepting(a)
    ensures FP.Step(ps, a).accepted == ps.accepted
  {
  }

  lemma StepInOrder(s: State, a: Action, stream: string, p: string)
    requires Located(s) && Keyed(s) && Recorded(s) && Enabled(s, a)
    requires stream in s.sources && p in s.pools && InOrder(s, stream, p)
    ensures stream in Step(s, a).sources && p in Step(s, a).pools && InOrder(Step(s, a), stream, p)
  {
    if a.ForSource? {
      assert SourceOk(s, a.stream);
      SourceInOrder(s, a.stream, a.s, stream, p);
    } else if a.ForDispatcher? {
      assert DispatcherOk(s, a.key) && OwnOnly(s, a.key);
      DispatchInOrder(s, a.key, a.d, stream, p);
    } else {
      OtherInOrder(s, a, stream, p);
    }
  }

  lemma OtherInOrder(s: State, a: Action, stream: string, p: string)
    requires Enabled(s, a) && !a.ForSource? && !a.ForDispatcher?
    requires stream in s.sources && p in s.pools && InOrder(s, stream, p)
    ensures stream in Step(s, a).sources && p in Step(s, a).pools && InOrder(Step(s, a), stream, p)
  {
    if a.ForPool? {
      PoolInOrder(s, a.pool, a.a, stream, p);
    } else if a.DrainPool? {
      PoolInOrder(s, a.pool, FP.DrainCall(a.call), stream, p);
    } else {
      ControlSamePlaces(s, a);
    }
  }

  lemma StepOrdered(s: State, a: Action)
    requires Located(s) && Keyed(s) && Recorded(s) && Ordered(s) && Enabled(s, a)
    ensures Ordered(Step(s, a))
  {
    forall stream, p | stream in Step(s, a).sources && p in Step(s, a).pools ensures InOrder(Step(s, a), stream, p) {
      SameNames(s, a);
      StepInOrder(s, a, stream, p);
    }
  }

  lemma SpawnedOrdered(s: State)
    requires Spawned(s)
    ensures Keyed(s) && Ordered(s)
  {
    forall stream, p | stream in s.sources && p in s.pools ensures InOrder(s, stream, p) {
      assert FP.Inv(s.pools[p]);
      SelectNone(s.pools[p].accepted, OfStream(stream));
    }
  }
}
