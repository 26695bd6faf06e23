/** pkg/pool/fixed_pool.go as a step system: one task channel, N workers, any number of
    concurrent `Submit` and `DrainAndStop` calls.  Each channel operation, channel close
    and atomic increment is one step; every interleaving of steps is a run. */
module FixedPool {
  import opened Sequences
  import opened Tasks

  /** A worker goroutine: blocked on the range receive, inside `t()`, between `t()` and
      the increment of `processed`, or returned (with `wg.Done`). */
  datatype Worker = Idle | Running(task: Task) | Counting | Exited

  datatype Refusal = PoolClosed | ContextEnded

  /** A `Submit` call: at its select, or returned. */
  datatype Call = Selecting | Accepted | Refused(why: Refusal)

  /** A `DrainAndStop` call: at `once.Do`, inside it before each of the two closes,
      waiting for the workers, or returned (`clean` when it returned nil). */
  datatype Drain = Entering | ClosingStopped | ClosingTasks | Waiting | Returned(clean: bool)

  datatype Once = Fresh | Busy(owner: nat) | Finished

  /** A `Task` value names one `Submit` call, so each is submitted at most once; the same
      Go closure may be submitted again under another `id`.
      `accepted`, `begun` and `finished` record history in the order it happened. */
  datatype State = State(
    capacity: nat,
    queue: seq<Task>,
    stopped: bool,
    closed: bool,
    once: Once,
    workers: seq<Worker>,
    processed: nat,
    calls: map<Task, Call>,
    drains: map<nat, Drain>,
    accepted: seq<Task>,
    begun: seq<Task>,
    finished: seq<Task>)

  datatype Action =
    // Submit
    | Begin(t: Task)
    | Send(t: Task)
    | HandOff(t: Task, w: nat)      // send straight to a blocked receiver
    | SendOnClosed(t: Task)         // panics; the deferred recover turns it into PoolClosed
    | SeeStopped(t: Task)
    | SeeContext(t: Task)
    // worker
    | Take(w: nat)
    | Finish(w: nat)
    | CountTask(w: nat)
    | Exit(w: nat)
    // DrainAndStop
    | DrainCall(d: nat)
    | OnceWin(d: nat)
    | CloseStopped(d: nat)
    | CloseTasks(d: nat)
    | OnceSkip(d: nat)
    | DrainDone(d: nat)
    | DrainContext(d: nat)

  function Max(a: int, b: int): int { if a > b then a else b }

  /** `NewFixedPool`: at least one worker, no negative buffer. */
  ghost function New(size: int, queue: int): State {
    State(Max(0, queue), [], false, false, Fresh,
          seq(Max(1, size), _ => Idle), 0, map[], map[], [], [], [])
  }

  ghost predicate Calling(s: State, t: Task) { t in s.calls && s.calls[t] == Selecting }

  ghost predicate At(s: State, d: nat, pc: Drain) { d in s.drains && s.drains[d] == pc }

  ghost predicate Enabled(s: State, a: Action) {
    match a
    case Begin(t) => t !in s.calls
    case Send(t) => Calling(s, t) && !s.closed && |s.queue| < s.capacity
    case HandOff(t, w) => Calling(s, t) && !s.closed && s.queue == [] && w < |s.workers| && s.workers[w].Idle?
    case SendOnClosed(t) => Calling(s, t) && s.closed
    case SeeStopped(t) => Calling(s, t) && s.stopped
    case SeeContext(t) => Calling(s, t)
    case Take(w) => w < |s.workers| && s.workers[w].Idle? && s.queue != []
    case Finish(w) => w < |s.workers| && s.workers[w].Running?
    case CountTask(w) => w < |s.workers| && s.workers[w].Counting?
    case Exit(w) => w < |s.workers| && s.workers[w].Idle? && s.closed && s.queue == []
    case DrainCall(d) => d !in s.drains
    case OnceWin(d) => At(s, d, Entering) && s.once == Fresh
    case CloseStopped(d) => At(s, d, ClosingStopped)
    case CloseTasks(d) => At(s, d, ClosingTasks)
    case OnceSkip(d) => At(s, d, Entering) && s.once == Finished
    case DrainDone(d) => At(s, d, Waiting) && forall w :: 0 <= w < |s.workers| ==> s.workers[w].Exited?
    case DrainContext(d) => At(s, d, Waiting)
  }

  ghost function Step(s: State, a: Action): State
    requires Enabled(s, a)
  {
    match a
    case Begin(t) => s.(calls := s.calls[t := Selecting])
    case Send(t) =>
      s.(calls := s.calls[t := Accepted], queue := s.queue + [t], accepted := s.accepted + [t])
    case HandOff(t, w) =>
      s.(calls := s.calls[t := Accepted], workers := s.workers[w := Running(t)],
         accepted := s.accepted + [t], begun := s.begun + [t])
    case SendOnClosed(t) => s.(calls := s.calls[t := Refused(PoolClosed)])
    case SeeStopped(t) => s.(calls := s.calls[t := Refused(PoolClosed)])
    case SeeContext(t) => s.(calls := s.calls[t := Refused(ContextEnded)])
    case Take(w) =>
      s.(queue := s.queue[1..], workers := s.workers[w := Running(s.queue[0])],
         begun := s.begun + [s.queue[0]])
    case Finish(w) =>
      s.(workers := s.workers[w := Counting], finished := s.finished + [s.workers[w].task])
    case CountTask(w) => s.(workers := s.workers[w := Idle], processed := s.processed + 1)
    case Exit(w) => s.(workers := s.workers[w := Exited])
    case DrainCall(d) => s.(drains := s.drains[d := Entering])
    case OnceWin(d) => s.(drains := s.drains[d := ClosingStopped], once := Busy(d))
    case CloseStopped(d) => s.(drains := s.drains[d := ClosingTasks], stopped := true)
    case CloseTasks(d) => s.(drains := s.drains[d := Waiting], closed := true, once := Finished)
    case OnceSkip(d) => s.(drains := s.drains[d := Waiting])
    case DrainDone(d) => s.(drains := s.drains[d := Returned(true)])
    case DrainContext(d) => s.(drains := s.drains[d := Returned(false)])
  }

  /** A run is a list of actions, each enabled in the state the earlier ones lead to. */
  ghost predicate Feasible(s: State, run: seq<Action>)
    decreases |run|
  {
    run == [] || (Enabled(s, run[0]) && Feasible(Step(s, run[0]), run[1..]))
  }

  ghost function After(s: State, run: seq<Action>): State
    requires Feasible(s, run)
    decreases |run|
  {
    if run == [] then s else After(Step(s, run[0]), run[1..])
  }

  // ----- the invariant -----

  /** The tasks workers are executing right now. */
  ghost function InHand(workers: seq<Worker>): multiset<Task> {
    if workers == [] then multiset{}
    else
      var k := |workers| - 1;
      if workers[k].Running? then InHand(workers[..k]) + multiset{workers[k].task} else InHand(workers[..k])
  }

  ghost function HandOf(w: Worker): multiset<Task> {
    if w.Running? then multiset{w.task} else multiset{}
  }

  lemma InHandLast(workers: seq<Worker>)
    requires workers != []
    ensures InHand(workers) == InHand(workers[..|workers| - 1]) + HandOf(workers[|workers| - 1])
  {
  }

  lemma SameAddition(a: multiset<Task>, x: multiset<Task>, b: multiset<Task>, y: multiset<Task>, z: multiset<Task>)
    requires a + x == b + y
    ensures (a + z) + x == (b + z) + y
  {
    assert (a + z) + x == (a + x) + z == (b + y) + z == (b + z) + y;
  }

  lemma {:induction false} InHandUpdate(workers: seq<Worker>, i: nat, w: Worker)
    requires i < |workers|
    ensures InHand(workers[i := w]) + HandOf(workers[i]) == InHand(workers) + HandOf(w)
  {
    var k := |workers| - 1;
    if i < k {
      InHandUpdate(workers[..k], i, w);
      assert workers[i := w][..k] == workers[..k][i := w];
      InHandLast(workers[i := w]);
      InHandLast(workers);
      SameAddition(InHand(workers[..k][i := w]), HandOf(workers[i]), InHand(workers[..k]), HandOf(w),
          HandOf(workers[k]));
    } else {
      assert workers[i := w][..k] == workers[..k];
      InHandLast(workers[i := w]);
      InHandLast(workers);
    }
  }

  lemma {:induction false} InHandNone(workers: seq<Worker>)
    requires forall w :: 0 <= w < |workers| ==> !workers[w].Running?
    ensures InHand(workers) == multiset{}
  {
    if workers != [] { InHandNone(workers[..|workers| - 1]); }
  }

  ghost function CountingOne(w: Worker): int { if w.Counting? then 1 else 0 }

  ghost predicate Fifo(s: State) {
    && s.accepted == s.begun + s.queue
    && |s.queue| <= s.capacity
    && NoDup(s.accepted)
    && forall t :: t in s.accepted <==> t in s.calls && s.calls[t] == Accepted
  }

  ghost predicate Conserved(s: State) {
    && multiset(s.begun) == multiset(s.finished) + InHand(s.workers)
    && |s.finished| == s.processed + Sum(s.workers, CountingOne)
  }

  ghost predicate Shutdown(s: State) {
    && |s.workers| >= 1
    && (s.closed ==> s.stopped && s.once == Finished)
    && (s.once == Finished ==> s.closed)
    && (s.once == Fresh ==> !s.stopped)
    && (forall w :: 0 <= w < |s.workers| && s.workers[w].Exited? ==> s.closed && s.queue == [])
    && (forall d :: d in s.drains && (s.drains[d].ClosingStopped? || s.drains[d].ClosingTasks?) ==> s.once == Busy(d))
    && (forall d :: d in s.drains && s.drains[d].ClosingTasks? ==> s.stopped)
    && (forall d :: d in s.drains && (s.drains[d].Waiting? || s.drains[d].Returned?) ==> s.closed)
    && (forall d :: d in s.drains && s.drains[d] == Returned(true) ==>
         forall w :: 0 <= w < |s.workers| ==> s.workers[w].Exited?)
  }

  /** With one worker, execution is serial: what has begun is what has finished plus at
      most the task in the worker's hands. */
  ghost predicate Serial(s: State) {
    |s.workers| == 1 ==>
      s.begun == s.finished + (if s.workers[0].Running? then [s.workers[0].task] else [])
  }

  ghost predicate Inv(s: State) {
    Fifo(s) && Conserved(s) && Shutdown(s) && Serial(s)
  }

  lemma NewInv(size: int, queue: int)
    ensures Inv(New(size, queue))
  {
    var s := New(size, queue);
    InHandNone(s.workers);
    SumZero(s.workers, CountingOne);
  }

  lemma StepFifo(s: State, a: Action)
    requires Fifo(s) && Enabled(s, a)
    ensures Fifo(Step(s, a))
  {
    var s' := Step(s, a);
    match a
    case Send(t) =>
      NoDupAppend(s.accepted, t);
      assert s'.accepted == s'.begun + s'.queue;
    case HandOff(t, _) =>
      NoDupAppend(s.accepted, t);
      assert s'.accepted == s'.begun + s'.queue;
    case Take(_) =>
      assert s.queue == [s.queue[0]] + s.queue[1..];
      assert s'.accepted == s'.begun + s'.queue;
    case _ =>
  }

  lemma StepBegins(s: State, a: Action)
    requires Conserved(s) && Enabled(s, a) && (a.HandOff? || a.Take?)
    ensures Conserved(Step(s, a))
  {
    var s' := Step(s, a);
    var t := s'.workers[a.w].task;
    SumUpdate(s.workers, a.w, s'.workers[a.w], CountingOne);
    InHandUpdate(s.workers, a.w, Running(t));
    assert HandOf(s.workers[a.w]) == multiset{};
    assert InHand(s'.workers) == InHand(s.workers) + multiset{t};
  }

  lemma StepFinishes(s: State, a: Action)
    requires Conserved(s) && Enabled(s, a) && a.Finish?
    ensures Conserved(Step(s, a))
  {
    var s' := Step(s, a);
    SumUpdate(s.workers, a.w, Counting, CountingOne);
    InHandUpdate(s.workers, a.w, Counting);
    assert InHand(s'.workers) + multiset{s.workers[a.w].task} == InHand(s.workers);
  }

  lemma StepConserved(s: State, a: Action)
    requires Conserved(s) && Enabled(s, a)
    ensures Conserved(Step(s, a))
  {
    var s' := Step(s, a);
    if a.HandOff? || a.Take? {
      StepBegins(s, a);
    } else if a.Finish? {
      StepFinishes(s, a);
    } else if a.CountTask? || a.Exit? {
      SumUpdate(s.workers, a.w, s'.workers[a.w], CountingOne);
      InHandUpdate(s.workers, a.w, s'.workers[a.w]);
      var none: multiset<Task> := HandOf(s.workers[a.w]);
      assert none == HandOf(s'.workers[a.w]) == multiset{};
      assert InHand(s'.workers) == InHand(s'.workers) + none == InHand(s.workers) + none == InHand(s.workers);
    }
  }

  ghost predicate IsDrainAction(a: Action) {
    a.DrainCall? || a.OnceWin? || a.CloseStopped? || a.CloseTasks? || a.OnceSkip? || a.DrainDone? || a.DrainContext?
  }

  lemma DrainShutdown(s: State, a: Action)
    requires Shutdown(s) && Enabled(s, a) && IsDrainAction(a)
    ensures Shutdown(Step(s, a))
  {
  }

  lemma OtherShutdown(s: State, a: Action)
    requires Shutdown(s) && Enabled(s, a) && !IsDrainAction(a)
    ensures Shutdown(Step(s, a))
  {
  }

  lemma StepShutdown(s: State, a: Action)
    requires Shutdown(s) && Enabled(s, a)
    ensures Shutdown(Step(s, a))
  {
    if IsDrainAction(a) {
      DrainShutdown(s, a);
    } else {
      OtherShutdown(s, a);
    }
  }

  lemma StepSerial(s: State, a: Action)
    requires Serial(s) && Shutdown(s) && Enabled(s, a)
    ensures Serial(Step(s, a))
  {
  }

  lemma StepInv(s: State, a: Action)
    requires Inv(s) && Enabled(s, a)
    ensures Inv(Step(s, a))
  {
    StepFifo(s, a);
    StepConserved(s, a);
    StepShutdown(s, a);
    StepSerial(s, a);
  }

  lemma {:induction false} RunInv(s: State, run: seq<Action>)
    requires Inv(s) && Feasible(s, run)
    ensures Inv(After(s, run))
    decreases |run|
  {
    if run != [] {
      StepInv(s, run[0]);
      RunInv(Step(s, run[0]), run[1..]);
    }
  }

  // ----- what the source promises -----

  /** Exactly-once drain: in every run, once any `DrainAndStop` has returned nil, every
      task whose `Submit` returned nil has run to completion exactly once, every task that
      ran was accepted, every completion is counted, and nothing is left over. */
  lemma DrainIsExact(size: int, queue: int, run: seq<Action>, d: nat)
    requires Feasible(New(size, queue), run)
    requires At(After(New(size, queue), run), d, Returned(true))
    ensures var s := After(New(size, queue), run);
            && (forall t :: t in s.calls && s.calls[t] == Accepted ==>
                multiset(s.finished)[t] == 1 && multiset(s.begun)[t] == 1)
            && (forall t :: t in s.begun || t in s.finished ==> t in s.calls && s.calls[t] == Accepted)
            && s.queue == [] && s.processed == |s.accepted| == |s.finished|
  {
    var s := After(New(size, queue), run);
    NewInv(size, queue);
    RunInv(New(size, queue), run);
    InvDrained(s, d);
    assert forall t :: t in s.finished ==> t in multiset(s.finished);
    assert forall t :: t in s.begun ==> t in multiset(s.begun);
    assert forall t :: t in multiset(s.accepted) ==> t in s.accepted;
  }

  lemma InvDrained(s: State, d: nat)
    requires Inv(s) && At(s, d, Returned(true))
    ensures s.closed && s.queue == []
    ensures multiset(s.finished) == multiset(s.begun) == multiset(s.accepted)
    ensures forall t :: t in s.calls && s.calls[t] == Accepted ==>
              multiset(s.finished)[t] == 1 && multiset(s.begun)[t] == 1
    ensures s.processed == |s.accepted| == |s.finished|
  {
    InHandNone(s.workers);
    SumZero(s.workers, CountingOne);
    assert s.workers[0].Exited?;
    assert s.accepted == s.begun;
    assert |multiset(s.finished)| == |multiset(s.accepted)|;
    forall t | t in s.calls && s.calls[t] == Accepted
      ensures multiset(s.finished)[t] == 1
    {
      NoDupOnce(s.accepted, t);
    }
  }

  lemma InvRefused(s: State, t: Task)
    requires Inv(s) && t in s.calls && s.calls[t].Refused?
    ensures t !in s.begun && t !in s.finished
  {
    assert t !in s.accepted;
    assert t in s.begun ==> t in s.accepted;
    assert t in multiset(s.finished) ==> t in multiset(s.begun);
  }

  lemma RefusalStays(s: State, a: Action, t: Task)
    requires Enabled(s, a) && t in s.calls && s.calls[t].Refused?
    ensures t in Step(s, a).calls && Step(s, a).calls[t] == s.calls[t]
  {
  }

  /** A refused task never runs: not before the refusal, and not in any continuation. */
  lemma {:induction false} RefusedNeverRuns(s: State, run: seq<Action>, t: Task)
    requires Inv(s) && Feasible(s, run)
    requires t in s.calls && s.calls[t].Refused?
    ensures t !in After(s, run).begun && t !in After(s, run).finished
    decreases |run|
  {
    if run == [] {
      InvRefused(s, t);
    } else {
      StepInv(s, run[0]);
      RefusalStays(s, run[0], t);
      RefusedNeverRuns(Step(s, run[0]), run[1..], t);
    }
  }

  /** First in, first out: the tasks begun are always a prefix of the tasks accepted. */
  lemma BegunInAcceptOrder(size: int, queue: int, run: seq<Action>)
    requires Feasible(New(size, queue), run)
    ensures After(New(size, queue), run).begun <= After(New(size, queue), run).accepted
  {
    NewInv(size, queue);
    RunInv(New(size, queue), run);
  }

  // ----- bounded work after stop -----

  ghost predicate IsWorkerAction(a: Action) { a.Take? || a.Finish? || a.CountTask? || a.Exit? }

  ghost function WorkOf(w: Worker): int {
    match w
    case Idle => 1
    case Running(_) => 3
    case Counting => 2
    case Exited => 0
  }

  /** Work left: three per queued task, plus what each worker still has to do. */
  ghost function WorkLeft(s: State): int { 3 * |s.queue| + Sum(s.workers, WorkOf) }

  /** After the task channel is closed, every worker step strictly lowers the work left
      and no other step raises it, so the pool can only take that many more steps. */
  lemma WorkFalls(s: State, a: Action)
    requires s.closed && Enabled(s, a)
    ensures Step(s, a).closed
    ensures 0 <= WorkLeft(Step(s, a))
    ensures if IsWorkerAction(a) then WorkLeft(Step(s, a)) < WorkLeft(s) else WorkLeft(Step(s, a)) == WorkLeft(s)
  {
    var s' := Step(s, a);
    SumNonNegative(s'.workers, WorkOf);
    if IsWorkerAction(a) {
      SumUpdate(s.workers, a.w, s'.workers[a.w], WorkOf);
    }
  }

  /** And it does not get stuck: while work is left, some worker can take a step; when
      none is left, a waiting drain can return nil. */
  lemma WorkersNeverStuck(s: State)
    requires Inv(s) && s.closed
    ensures WorkLeft(s) > 0 ==> exists a: Action :: IsWorkerAction(a) && Enabled(s, a)
    ensures WorkLeft(s) == 0 ==> s.queue == [] && forall w :: 0 <= w < |s.workers| ==> s.workers[w].Exited?
  {
    if w :| 0 <= w < |s.workers| && !s.workers[w].Exited? {
      SumAtLeast(s.workers, w, WorkOf);
      assert WorkLeft(s) > 0;
      var a: Action :=
        if s.workers[w].Running? then Finish(w)
        else if s.workers[w].Counting? then CountTask(w)
        else if s.queue != [] then Take(w)
        else Exit(w);
      assert IsWorkerAction(a) && Enabled(s, a);
    } else {
      assert s.workers[0].Exited?;
      SumZero(s.workers, WorkOf);
    }
  }

  /** So a closed pool makes at most `WorkLeft` worker steps, whatever else is going on. */
  lemma {:induction false} WorkIsBounded(s: State, run: seq<Action>)
    requires s.closed && Feasible(s, run)
    ensures |Select(run, (a: Action) => IsWorkerAction(a))| <= WorkLeft(s) - WorkLeft(After(s, run))
    decreases |run|
  {
    if run != [] {
      var p := (a: Action) => IsWorkerAction(a);
      WorkFalls(s, run[0]);
      WorkIsBounded(Step(s, run[0]), run[1..]);
      assert run == [run[0]] + run[1..];
      SelectConcat([run[0]], run[1..], p);
    }
  }
}
