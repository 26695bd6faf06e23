/** pkg/pool/striped_pool.go as a step system: N stripes, each a queue with one worker;
    any number of concurrent submitters; tasks that may panic; one effective
    `DrainAndStop`.  Each lock section, atomic access and channel operation is one step. */
module StripedPool {
  import opened Sequences
  import opened Tasks

  /** A task together with the stripe it was sent to. */
  datatype Entry = Entry(task: Task, stripe: nat)

  datatype Outcome = Accepted | ContextEnded | PoolClosed | SentOnClosed

  /** A `Submit`/`SubmitWithKey` call (the former is the latter with an empty key). */
  datatype Caller =
    | TurnedAway                 // the closed check failed
    | Choosing                   // past the closed check, before `selectStripe`
    | AddingStripe(e: Entry)     // before the increment of `s.submitted`
    | AddingTotal(e: Entry)      // before the increment of `sp.totalSubmitted`
    | Selecting(e: Entry)        // at the select
    | Done(e: Entry, outcome: Outcome)

  /** The goroutine of a stripe: not spawned, at its select, inside `task()`, or before one
      of the two increments that follow a normal return or a recovered panic. */
  datatype Worker =
    | Unborn
    | Idle
    | Running(e: Entry)
    | AddingProcessed | AddingTotalProcessed
    | AddingPanic | AddingTotalPanic
    | Exited

  datatype Stripe = Stripe(
    queue: seq<Entry>,
    closed: bool,
    cancelled: bool,
    submitted: nat,
    processed: nat,
    panics: nat,
    worker: Worker)

  /** The `DrainAndStop` call that finds the pool open.  A call that finds it closed returns
      nil at once (`DrainAgain`), however far the first one has come. */
  datatype Drain =
    | NotCalled
    | Scanning(j: nat)
    | Closing(j: nat)
    | Cancelling(j: nat)
    | Awaiting(j: nat)
    | Returned(clean: bool)

  /** `hash` stands for the FNV-1a hash: some fixed total function.  `accepted`, `begun`
      and `ended` record history in the order it happened; `lateReturns` counts the calls of
      `DrainAndStop` that found the pool closed and returned nil. */
  datatype State = State(
    hash: Key -> nat,
    capacity: nat,
    stripes: seq<Stripe>,
    started: bool,
    closed: bool,
    startContextDone: bool,
    stopContextDone: bool,
    totalSubmitted: nat,
    totalProcessed: nat,
    totalPanics: nat,
    calls: map<Task, Caller>,
    drain: Drain,
    lateReturns: nat,
    accepted: seq<Entry>,
    begun: seq<Entry>,
    ended: seq<Entry>)

  /** The steps of a call after its closed check. */
  datatype CallStep =
    | Choose | AddStripe | AddTotal
    | Send
    | HandOff        // send straight to the blocked worker
    | SendOnClosed   // panics in the caller
    | SeeContext | SeeStopped

  /** The steps of a stripe's worker. */
  datatype WorkStep =
    | Take | Return | Panic
    | AddOutcome       // s.processed or s.panics
    | AddTotalOutcome  // sp.totalProcessed or sp.totalPanics
    | LeaveOnContext | LeaveOnClosed

  datatype Action =
    | Begin(t: Task)
    | Call(t: Task, c: CallStep)
    | Work(i: nat, w: WorkStep)
    | Start
    | StartContextEnds
    | StopContextEnds
    | DrainCall
    | DrainAgain
    | DrainNext
    | DrainForce     // the stop context ended while scanning
    | DrainGiveUp    // the stop context ended while waiting for the workers

  /** `NewStripedPool`: at least one stripe, no negative buffer. */
  ghost function New(hash: Key -> nat, stripeCount: int, queueSize: int): State {
    State(hash, if queueSize < 0 then 0 else queueSize,
          seq(if stripeCount <= 0 then 1 else stripeCount, _ => Stripe([], false, false, 0, 0, 0, Unborn)),
          false, false, false, false, 0, 0, 0, map[], NotCalled, 0, [], [], [])
  }

  ghost predicate SelectingNow(s: State, t: Task) {
    t in s.calls && s.calls[t].Selecting? && s.calls[t].e.stripe < |s.stripes|
  }

  ghost predicate Gone(w: Worker) { w.Unborn? || w.Exited? }

  ghost predicate CallEnabled(s: State, t: Task, c: CallStep) {
    && t in s.calls
    && s.stripes != []
    && match c
       case Choose => s.calls[t].Choosing?
       case AddStripe => s.calls[t].AddingStripe? && s.calls[t].e.stripe < |s.stripes|
       case AddTotal => s.calls[t].AddingTotal?
       case Send =>
         SelectingNow(s, t) &&
         var p := s.stripes[s.calls[t].e.stripe]; !p.closed && |p.queue| < s.capacity
       case HandOff =>
         SelectingNow(s, t) &&
         var p := s.stripes[s.calls[t].e.stripe]; !p.closed && p.queue == [] && p.worker.Idle?
       case SendOnClosed => SelectingNow(s, t) && s.stripes[s.calls[t].e.stripe].closed
       case SeeContext => SelectingNow(s, t)
       case SeeStopped => SelectingNow(s, t) && s.closed
  }

  ghost predicate WorkEnabled(s: State, i: nat, w: WorkStep) {
    && i < |s.stripes|
    && var p := s.stripes[i];
       match w
       case Take => p.worker.Idle? && p.queue != []
       case Return => p.worker.Running?
       case Panic => p.worker.Running?
       case AddOutcome => p.worker.AddingProcessed? || p.worker.AddingPanic?
       case AddTotalOutcome => p.worker.AddingTotalProcessed? || p.worker.AddingTotalPanic?
       case LeaveOnContext => p.worker.Idle? && (p.cancelled || s.startContextDone)
       case LeaveOnClosed => p.worker.Idle? && p.closed && p.queue == []
  }

  ghost predicate Enabled(s: State, a: Action) {
    match a
    case Begin(t) => t !in s.calls
    case Call(t, c) => CallEnabled(s, t, c)
    case Work(i, w) => WorkEnabled(s, i, w)
    case Start => !s.started && !s.closed
    case StartContextEnds => true
    case StopContextEnds => true
    case DrainCall => s.drain.NotCalled? && !s.closed
    case DrainAgain => s.closed
    case DrainNext =>
      && !s.drain.NotCalled? && !s.drain.Returned?
      && (s.drain.Awaiting? && s.drain.j < |s.stripes| ==> Gone(s.stripes[s.drain.j].worker))
    case DrainForce => s.drain.Scanning? && s.stopContextDone
    case DrainGiveUp => s.drain.Awaiting? && s.stopContextDone
  }

  ghost function StripeFor(s: State, t: Task): nat
    requires s.stripes != []
  {
    (if t.key == [] then s.totalSubmitted else s.hash(t.key)) % |s.stripes|
  }

  // --- submitters ---

  ghost function NextCaller(s: State, t: Task, c: CallStep): Caller
    requires CallEnabled(s, t, c)
  {
    match c
    case Choose => AddingStripe(Entry(t, StripeFor(s, t)))
    case AddStripe => AddingTotal(s.calls[t].e)
    case AddTotal => Selecting(s.calls[t].e)
    case Send => Done(s.calls[t].e, Accepted)
    case HandOff => Done(s.calls[t].e, Accepted)
    case SendOnClosed => Done(s.calls[t].e, SentOnClosed)
    case SeeContext => Done(s.calls[t].e, ContextEnded)
    case SeeStopped => Done(s.calls[t].e, PoolClosed)
  }

  ghost predicate Accepts(c: CallStep) { c.Send? || c.HandOff? }

  /** What a call step does to the stripe it was sent to. */
  ghost function Touch(p: Stripe, c: CallStep, e: Entry): Stripe {
    match c
    case AddStripe => p.(submitted := p.submitted + 1)
    case Send => p.(queue := p.queue + [e])
    case HandOff => p.(worker := Running(e))
    case _ => p
  }

  ghost function DoCall(s: State, t: Task, c: CallStep): State
    requires CallEnabled(s, t, c)
  {
    var next := NextCaller(s, t, c);
    s.(calls := s.calls[t := next],
       stripes := if Accepts(c) || c.AddStripe?
                  then s.stripes[next.e.stripe := Touch(s.stripes[next.e.stripe], c, next.e)] else s.stripes,
       totalSubmitted := if c.AddTotal? then s.totalSubmitted + 1 else s.totalSubmitted,
       accepted := if Accepts(c) then s.accepted + [next.e] else s.accepted,
       begun := if c.HandOff? then s.begun + [next.e] else s.begun)
  }

  // --- workers ---

  ghost function Labour(p: Stripe, w: WorkStep): Stripe
    requires w.Take? ==> p.queue != []
  {
    match w
    case Take => p.(queue := p.queue[1..], worker := Running(p.queue[0]))
    case Return => p.(worker := AddingProcessed)
    case Panic => p.(worker := AddingPanic)
    case AddOutcome =>
      if p.worker.AddingProcessed? then p.(processed := p.processed + 1, worker := AddingTotalProcessed)
      else p.(panics := p.panics + 1, worker := AddingTotalPanic)
    case AddTotalOutcome => p.(worker := Idle)
    case LeaveOnContext => p.(worker := Exited)
    case LeaveOnClosed => p.(worker := Exited)
  }

  ghost function DoWork(s: State, i: nat, w: WorkStep): State
    requires WorkEnabled(s, i, w)
  {
    var p := s.stripes[i];
    s.(stripes := s.stripes[i := Labour(p, w)],
       begun := if w.Take? then s.begun + [p.queue[0]] else s.begun,
       ended := if w.Return? || w.Panic? then s.ended + [p.worker.e] else s.ended,
       totalProcessed :=
         if w.AddTotalOutcome? && p.worker.AddingTotalProcessed? then s.totalProcessed + 1 else s.totalProcessed,
       totalPanics :=
         if w.AddTotalOutcome? && p.worker.AddingTotalPanic? then s.totalPanics + 1 else s.totalPanics)
  }

  // --- the drain ---

  /** One step of the drain: scan the queues one at a time (starting over at the first
      non-empty one), close every queue, cancel every stripe, await every worker. */
  ghost function NextDrain(s: State): Drain
    requires Enabled(s, DrainNext)
  {
    var n := |s.stripes|;
    match s.drain
    case Scanning(j) =>
      if j >= n then Closing(0) else if s.stripes[j].queue == [] then Scanning(j + 1) else Scanning(0)
    case Closing(j) => if j >= n then Cancelling(0) else Closing(j + 1)
    case Cancelling(j) => if j >= n then Awaiting(0) else Cancelling(j + 1)
    case Awaiting(j) => if j >= n then Returned(true) else Awaiting(j + 1)
  }

  ghost function DoDrain(s: State): State
    requires Enabled(s, DrainNext)
  {
    var d := s.drain;
    var stripes :=
      if d.Closing? && d.j < |s.stripes| then s.stripes[d.j := s.stripes[d.j].(closed := true)]
      else if d.Cancelling? && d.j < |s.stripes| then s.stripes[d.j := s.stripes[d.j].(cancelled := s.started)]
      else s.stripes;
    s.(drain := NextDrain(s), stripes := stripes)
  }

  ghost function Spawned(stripes: seq<Stripe>): seq<Stripe> {
    seq(|stripes|, i requires 0 <= i < |stripes| => stripes[i].(worker := Idle))
  }

  ghost function Step(s: State, a: Action): State
    requires Enabled(s, a)
  {
    match a
    case Begin(t) => s.(calls := s.calls[t := if s.closed then TurnedAway else Choosing])
    case Call(t, c) => DoCall(s, t, c)
    case Work(i, w) => DoWork(s, i, w)
    case Start => s.(started := true, stripes := Spawned(s.stripes))
    case StartContextEnds => s.(startContextDone := true)
    case StopContextEnds => s.(stopContextDone := true)
    case DrainCall => s.(closed := true, drain := Scanning(0))
    case DrainAgain => s.(lateReturns := s.lateReturns + 1)
    case DrainNext => DoDrain(s)
    case DrainForce => s.(drain := Closing(0))
    case DrainGiveUp => s.(drain := Returned(false))
  }

  ghost predicate Feasible(s: State, run: seq<Action>)
    decreases |run|
  {
    run == [] || (Enabled(s, run[0]) && Feasible(Step(s, run[0]), run[1..]))
  }

  ghost function After(s: State, run: seq<Action>): State
    requires Feasible(s, run)
    decreases |run|
  {
    if run == [] then s else After(Step(s, run[0]), run[1..])
  }

  // ----- the invariant -----

  ghost function OnStripe(i: nat): Entry -> bool { (e: Entry) => e.stripe == i }

  ghost function OfKey(k: Key): Entry -> bool { (e: Entry) => e.task.key == k }

  /** An entry sits on the stripe its key hashes to. */
  ghost predicate Routed(s: State, e: Entry) {
    && e.stripe < |s.stripes|
    && (e.task.key != [] ==> e.stripe == s.hash(e.task.key) % |s.stripes|)
  }

  ghost function Hand(w: Worker): seq<Entry> { if w.Running? then [w.e] else [] }

  ghost function EntryOf(c: Caller): seq<Entry> {
    if c.TurnedAway? || c.Choosing? then [] else [c.e]
  }

  ghost predicate Placed(s: State) {
    && s.stripes != []
    && (forall t :: t in s.calls && EntryOf(s.calls[t]) != [] ==> s.calls[t].e.task == t && Routed(s, s.calls[t].e))
    && (!s.started ==> forall i :: 0 <= i < |s.stripes| ==> s.stripes[i].worker.Unborn?)
  }

  ghost predicate Logged(s: State) {
    && NoDup(s.accepted)
    && (forall e :: e in s.begun || e in s.ended ==> e.stripe < |s.stripes|)
    && forall e :: e in s.accepted <==> e.task in s.calls && s.calls[e.task] == Done(e, Accepted)
  }

  /** What stripe `i` has accepted is what it has begun, then its queue; what it has begun
      is what has ended, then the task in its worker's hands. */
  ghost predicate StripeFifo(s: State, i: nat)
    requires i < |s.stripes|
  {
    var p := s.stripes[i];
    && Select(s.accepted, OnStripe(i)) == Select(s.begun, OnStripe(i)) + p.queue
    && Select(s.begun, OnStripe(i)) == Select(s.ended, OnStripe(i)) + Hand(p.worker)
    && |p.queue| <= s.capacity
    && (forall e :: e in p.queue ==> e.stripe == i)
    && (p.worker.Running? ==> p.worker.e.stripe == i)
  }

  ghost predicate Fifo(s: State) { forall i :: 0 <= i < |s.stripes| ==> StripeFifo(s, i) }

  ghost predicate Inv(s: State) { Placed(s) && Logged(s) && Fifo(s) }

  lemma NewInv(hash: Key -> nat, stripeCount: int, queueSize: int)
    ensures Inv(New(hash, stripeCount, queueSize))
  {
  }

  lemma CallPlaced(s: State, t: Task, c: CallStep)
    requires Placed(s) && Logged(s) && CallEnabled(s, t, c)
    ensures Placed(DoCall(s, t, c)) && Logged(DoCall(s, t, c))
  {
    if c.Send? || c.HandOff? {
      assert s.calls[t].e !in s.accepted;
      NoDupAppend(s.accepted, s.calls[t].e);
    }
  }

  lemma SendFifo(s: State, t: Task, i: nat)
    requires CallEnabled(s, t, Send) && i < |s.stripes| && StripeFifo(s, i)
    ensures StripeFifo(DoCall(s, t, Send), i)
  {
    var e := s.calls[t].e;
    SelectAppend(s.accepted, e, OnStripe(i));
    if e.stripe != i {
      assert DoCall(s, t, Send).stripes[i] == s.stripes[i];
    } else {
      SendHere(s, t);
    }
  }

  lemma SendHere(s: State, t: Task)
    requires CallEnabled(s, t, Send) && StripeFifo(s, s.calls[t].e.stripe)
    ensures StripeFifo(DoCall(s, t, Send), s.calls[t].e.stripe)
  {
    var e := s.calls[t].e;
    var on, s' := OnStripe(e.stripe), DoCall(s, t, Send);
    var p, p', begun := s.stripes[e.stripe], s'.stripes[e.stripe], Select(s.begun, on);
    SelectAppend(s.accepted, e, on);
    assert p'.queue == p.queue + [e] && p'.worker == p.worker;
    assert Select(s'.accepted, on) == (begun + p.queue) + [e] == begun + p'.queue;
  }

  lemma HandOffFifo(s: State, t: Task, i: nat)
    requires CallEnabled(s, t, HandOff) && i < |s.stripes| && StripeFifo(s, i)
    ensures StripeFifo(DoCall(s, t, HandOff), i)
  {
    var e := s.calls[t].e;
    SelectAppend(s.accepted, e, OnStripe(i));
    SelectAppend(s.begun, e, OnStripe(i));
    if e.stripe != i {
      assert DoCall(s, t, HandOff).stripes[i] == s.stripes[i];
    } else {
      HandOffHere(s, t);
    }
  }

  lemma HandOffHere(s: State, t: Task)
    requires CallEnabled(s, t, HandOff) && StripeFifo(s, s.calls[t].e.stripe)
    ensures StripeFifo(DoCall(s, t, HandOff), s.calls[t].e.stripe)
  {
    var e := s.calls[t].e;
    var on, s' := OnStripe(e.stripe), DoCall(s, t, HandOff);
    var p, p' := s.stripes[e.stripe], s'.stripes[e.stripe];
    var accepted, begun, log := Select(s.accepted, on), Select(s.begun, on), Select(s.ended, on);
    assert p.queue == [] && Hand(p.worker) == [];
    NothingMore(accepted, begun, p.queue);
    NothingMore(begun, log, Hand(p.worker));
    SelectAppend(s.accepted, e, on);
    SelectAppend(s.begun, e, on);
    assert p'.queue == [] && Hand(p'.worker) == [e];
    NothingMore(log + [e] + p'.queue, log + [e], p'.queue);
    assert Select(s'.accepted, on) == Select(s'.begun, on) == log + [e];
  }

  lemma NothingMore(a: seq<Entry>, b: seq<Entry>, c: seq<Entry>)
    requires a == b + c && c == []
    ensures a == b
  {
  }

  lemma CallFifo(s: State, t: Task, c: CallStep, i: nat)
    requires CallEnabled(s, t, c) && i < |s.stripes| && StripeFifo(s, i)
    ensures StripeFifo(DoCall(s, t, c), i)
  {
    if c.Send? { SendFifo(s, t, i); }
    if c.HandOff? { HandOffFifo(s, t, i); }
  }

  lemma TakeFifo(s: State, j: nat, i: nat)
    requires WorkEnabled(s, j, Take) && i < |s.stripes| && StripeFifo(s, i) && StripeFifo(s, j)
    ensures StripeFifo(DoWork(s, j, Take), i)
  {
    var q := s.stripes[j].queue;
    assert q[0] in q;
    SelectAppend(s.begun, q[0], OnStripe(i));
    if i != j {
      assert DoWork(s, j, Take).stripes[i] == s.stripes[i];
    } else {
      TakeHere(s, i);
    }
  }

  lemma TakeHere(s: State, i: nat)
    requires WorkEnabled(s, i, Take) && StripeFifo(s, i)
    ensures StripeFifo(DoWork(s, i, Take), i)
  {
    var on, p, s' := OnStripe(i), s.stripes[i], DoWork(s, i, Take);
    var q, p' := p.queue, s'.stripes[i];
    var accepted, begun := Select(s.accepted, on), Select(s.begun, on);
    TakeLogs(begun, q);
    SelectAppend(s.begun, q[0], on);
    assert Select(s'.begun, on) == begun + [q[0]] && p'.queue == q[1..];
    assert accepted == Select(s'.begun, on) + p'.queue;
    assert Hand(p.worker) == [] && Hand(p'.worker) == [q[0]];
    assert begun == Select(s.ended, on);
  }

  lemma TakeLogs(begun: seq<Entry>, q: seq<Entry>)
    requires q != []
    ensures begun + q == (begun + [q[0]]) + q[1..]
    ensures forall e :: e in q[1..] ==> e in q
  {
  }

  lemma EndFifo(s: State, j: nat, w: WorkStep, i: nat)
    requires WorkEnabled(s, j, w) && i < |s.stripes| && StripeFifo(s, i) && StripeFifo(s, j)
    requires w.Return? || w.Panic?
    ensures StripeFifo(DoWork(s, j, w), i)
  {
    var e := s.stripes[j].worker.e;
    var p, p' := s.stripes[i], DoWork(s, j, w).stripes[i];
    SelectAppend(s.ended, e, OnStripe(i));
    if i != j {
      assert p' == p;
    } else {
      assert Hand(p.worker) == [e] && Hand(p'.worker) == [] && p'.queue == p.queue;
      EndLogs(Select(s.begun, OnStripe(i)), Select(s.ended, OnStripe(i)), e);
    }
  }

  lemma EndLogs(begun: seq<Entry>, ended: seq<Entry>, e: Entry)
    requires begun == ended + [e]
    ensures begun == (ended + [e]) + []
  {
  }

  lemma WorkFifo(s: State, j: nat, w: WorkStep, i: nat)
    requires WorkEnabled(s, j, w) && i < |s.stripes| && StripeFifo(s, i) && StripeFifo(s, j)
    ensures StripeFifo(DoWork(s, j, w), i)
  {
    if w.Take? {
      TakeFifo(s, j, i);
    } else if w.Return? || w.Panic? {
      EndFifo(s, j, w, i);
    }
  }

  lemma WorkPlaced(s: State, i: nat, w: WorkStep)
    requires Placed(s) && Logged(s) && WorkEnabled(s, i, w) && StripeFifo(s, i)
    ensures Placed(DoWork(s, i, w)) && Logged(DoWork(s, i, w))
  {
  }

  lemma ControlFifo(s: State, a: Action, i: nat)
    requires Enabled(s, a) && !a.Call? && !a.Work?
    requires i < |s.stripes| && StripeFifo(s, i)
    requires !s.started ==> s.stripes[i].worker.Unborn?
    ensures StripeFifo(Step(s, a), i)
  {
    if a.DrainNext? { DrainFifo(s, i); }
  }

  lemma DrainFifo(s: State, i: nat)
    requires Enabled(s, DrainNext) && i < |s.stripes| && StripeFifo(s, i)
    ensures StripeFifo(DoDrain(s), i)
  {
  }

  lemma DrainPlaced(s: State)
    requires Enabled(s, DrainNext) && Placed(s) && Logged(s)
    ensures Placed(DoDrain(s)) && Logged(DoDrain(s))
  {
  }

  lemma StartPlaced(s: State, s': State)
    requires Placed(s) && Logged(s) && s' == s.(started := true, stripes := Spawned(s.stripes))
    ensures Placed(s') && Logged(s')
  {
  }

  lemma ControlPlaced(s: State, a: Action)
    requires Enabled(s, a) && !a.Call? && !a.Work?
    requires Placed(s) && Logged(s)
    ensures Placed(Step(s, a)) && Logged(Step(s, a))
  {
    if a.DrainNext? {
      DrainPlaced(s);
    } else if a.Start? {
      StartPlaced(s, Step(s, a));
    }
  }

  lemma StepPlaced(s: State, a: Action)
    requires Inv(s) && Enabled(s, a)
    ensures Placed(Step(s, a)) && Logged(Step(s, a))
  {
    match a
    case Call(t, c) => CallPlaced(s, t, c);
    case Work(j, w) => assert StripeFifo(s, j); WorkPlaced(s, j, w);
    case _ => ControlPlaced(s, a);
  }

  lemma StepFifo(s: State, a: Action, i: nat)
    requires Placed(s) && Fifo(s) && Enabled(s, a) && i < |s.stripes|
    ensures StripeFifo(Step(s, a), i)
  {
    assert StripeFifo(s, i);
    match a
    case Call(t, c) => CallFifo(s, t, c, i);
    case Work(j, w) => assert StripeFifo(s, j); WorkFifo(s, j, w, i);
    case _ => ControlFifo(s, a, i);
  }

  lemma StepInv(s: State, a: Action)
    requires Inv(s) && Enabled(s, a)
    ensures Inv(Step(s, a))
  {
    StepPlaced(s, a);
    forall i | 0 <= i < |Step(s, a).stripes| ensures StripeFifo(Step(s, a), i) { StepFifo(s, a, i); }
  }

  lemma {:induction false} RunInv(s: State, run: seq<Action>)
    requires Inv(s) && Feasible(s, run)
    ensures Inv(After(s, run))
    decreases |run|
  {
    if run != [] {
      StepInv(s, run[0]);
      RunInv(Step(s, run[0]), run[1..]);
    }
  }

  // ----- per-key strict order -----

  ghost function KeyStripe(s: State, k: Key): nat
    requires s.stripes != []
  {
    s.hash(k) % |s.stripes|
  }

  /** Everything that has begun or ended was accepted. */
  lemma LogsNested(s: State)
    requires Inv(s)
    ensures forall e :: e in s.begun ==> e in s.accepted
    ensures forall e :: e in s.ended ==> e in s.begun
  {
    forall e | e in s.begun ensures e in s.accepted {
      assert StripeFifo(s, e.stripe);
      SelectMember(s.begun, OnStripe(e.stripe));
      SelectMember(s.accepted, OnStripe(e.stripe));
      assert e in Select(s.accepted, OnStripe(e.stripe));
    }
    forall e | e in s.ended ensures e in s.begun {
      assert StripeFifo(s, e.stripe);
      SelectMember(s.ended, OnStripe(e.stripe));
      SelectMember(s.begun, OnStripe(e.stripe));
      assert e in Select(s.begun, OnStripe(e.stripe));
    }
  }

  /** The entries of a key all sit on the key's stripe, so its history is that stripe's. */
  lemma KeyLog(s: State, log: seq<Entry>, k: Key)
    requires Inv(s) && k != [] && forall e :: e in log ==> e in s.accepted
    ensures Select(log, OfKey(k)) == Select(Select(log, OnStripe(KeyStripe(s, k))), OfKey(k))
  {
    forall e | e in log ensures OfKey(k)(e) == (OnStripe(KeyStripe(s, k))(e) && OfKey(k)(e)) {
      assert e in s.accepted;
      assert s.calls[e.task].e == e && EntryOf(s.calls[e.task]) == [e];
    }
    SelectTwice(log, OnStripe(KeyStripe(s, k)), OfKey(k), OfKey(k));
  }

  /** For a non-empty key: the tasks begun are a prefix of those accepted, the tasks ended
      are a prefix of those begun, and at most one is under way. */
  ghost predicate SerialInOrder(s: State, k: Key) {
    && Select(s.begun, OfKey(k)) <= Select(s.accepted, OfKey(k))
    && Select(s.ended, OfKey(k)) <= Select(s.begun, OfKey(k))
    && |Select(s.begun, OfKey(k))| <= |Select(s.ended, OfKey(k))| + 1
  }

  lemma InvSerialInOrder(s: State, k: Key)
    requires Inv(s) && k != []
    ensures SerialInOrder(s, k)
  {
    var i := KeyStripe(s, k);
    var p := s.stripes[i];
    assert StripeFifo(s, i);
    LogsNested(s);
    KeyLog(s, s.accepted, k);
    KeyLog(s, s.begun, k);
    KeyLog(s, s.ended, k);
    SelectConcat(Select(s.begun, OnStripe(i)), p.queue, OfKey(k));
    SelectConcat(Select(s.ended, OnStripe(i)), Hand(p.worker), OfKey(k));
    AtMostOne(Hand(p.worker), OfKey(k));
  }

  lemma AtMostOne(log: seq<Entry>, p: Entry -> bool)
    requires |log| <= 1
    ensures |Select(log, p)| <= 1
  {
    if log != [] { SelectAppend([], log[0], p); assert log == [] + [log[0]]; }
  }

  /** Per-key strict order, in every run with `Start` called at most once, whatever the
      interleaving of submitters and workers and whichever tasks panic. */
  lemma PerKeyOrder(hash: Key -> nat, stripeCount: int, queueSize: int, run: seq<Action>, k: Key)
    requires Feasible(New(hash, stripeCount, queueSize), run) && k != []
    ensures SerialInOrder(After(New(hash, stripeCount, queueSize), run), k)
  {
    NewInv(hash, stripeCount, queueSize);
    RunInv(New(hash, stripeCount, queueSize), run);
    InvSerialInOrder(After(New(hash, stripeCount, queueSize), run), k);
  }

  lemma {:induction false} LogsGrow(s: State, run: seq<Action>)
    requires Feasible(s, run)
    ensures s.accepted <= After(s, run).accepted && s.begun <= After(s, run).begun && s.ended <= After(s, run).ended
    decreases |run|
  {
    if run != [] { LogsGrow(Step(s, run[0]), run[1..]); }
  }

  /** In a log, the entries before the first `k` entries of a longer selection stay put:
      what an earlier selection holds comes before what only the later one holds. */
  lemma EarlierFirst(a: seq<Entry>, begun: seq<Entry>, b: seq<Entry>, x: Entry, y: Entry)
    requires a <= b && begun <= b && NoDup(b)
    requires x in a && y in begun && y !in a
    ensures exists i :: 0 <= i < |begun| - 1 && begun[i] == x
  {
    var i :| 0 <= i < |a| && a[i] == x;
    var j :| 0 <= j < |begun| && begun[j] == y;
    assert b[i] == x && b[j] == y;
    assert i < |a| <= j;
    assert begun[i] == x;
  }

  /** The documented promise, in terms of calls: if the submission of `x` had returned nil
      before the submission of `y`, under the same non-empty key, was even called, then
      `y` does not begin before `x` has ended. */
  lemma SubmitOrderIsRunOrder(s: State, run: seq<Action>, x: Entry, y: Entry)
    requires Inv(s) && Feasible(s, run)
    requires x.task.key == y.task.key != []
    requires x.task in s.calls && s.calls[x.task] == Done(x, Accepted)
    requires y.task !in s.calls
    requires y in After(s, run).begun
    ensures x in After(s, run).ended
  {
    var s', k := After(s, run), x.task.key;
    RunInv(s, run);
    LogsGrow(s, run);
    InvSerialInOrder(s', k);
    var a, b, c := Select(s.accepted, OfKey(k)), Select(s'.accepted, OfKey(k)), Select(s'.begun, OfKey(k));
    SelectPrefix(s.accepted, s'.accepted, OfKey(k));
    NoDupSelect(s'.accepted, OfKey(k));
    SelectMember(s.accepted, OfKey(k));
    SelectMember(s'.begun, OfKey(k));
    SelectMember(s'.ended, OfKey(k));
    assert x in s.accepted && y !in s.accepted;
    assert x in a && y in c && y !in a;
    EarlierFirst(a, c, b, x, y);
    var i :| 0 <= i < |c| - 1 && c[i] == x;
    assert Select(s'.ended, OfKey(k))[i] == x;
  }
}
