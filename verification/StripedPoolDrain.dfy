/** `DrainAndStop` of pkg/pool/striped_pool.go.  Its comment promises that every submitted
    task is executed before it returns.  A submitter that passed the closed check in time
    but sends late can slip a task in behind the emptiness scan; a stop context that ends
    forces the queues closed, and the call may still return nil; and a call that finds the
    pool closed returns nil at once.  This module proves exactly when the promise holds. */
module StripedPoolDrain {
  import opened Sequences
  import opened Tasks
  import opened StripedPool

  /** Between its closed check and the outcome of its select. */
  ghost predicate InFlight(c: Caller) { !c.TurnedAway? && !c.Done? }

  ghost predicate Quiet(s: State) { forall t :: t in s.calls ==> !InFlight(s.calls[t]) }

  ghost predicate ContextsAlive(s: State) { !s.startContextDone && !s.stopContextDone }

  /** `DrainAndStop` returned nil although no context ended. */
  ghost predicate CleanReturn(s: State) { s.drain == Returned(true) && ContextsAlive(s) }

  /** Every accepted task has run, or panicked, exactly once. */
  ghost predicate AllRan(s: State) {
    forall e :: e in s.accepted ==> multiset(s.begun)[e] == 1 && multiset(s.ended)[e] == 1
  }

  // ----- what holds of every drain -----

  ghost predicate PastScan(d: Drain) { d.Closing? || d.Cancelling? || d.Awaiting? || d.Returned? }

  ghost predicate PastClosing(d: Drain) { d.Cancelling? || d.Awaiting? || d.Returned? }

  ghost predicate Phases(s: State) {
    && (s.closed <==> !s.drain.NotCalled?)
    && (forall i :: 0 <= i < |s.stripes| && s.stripes[i].closed ==> PastScan(s.drain))
    && (forall i :: 0 <= i < |s.stripes| && s.stripes[i].cancelled ==> PastClosing(s.drain))
    && (forall i :: 0 <= i < |s.stripes| ==> (s.stripes[i].worker.Unborn? <==> !s.started))
    && (forall i :: 0 <= i < |s.stripes| && s.stripes[i].worker.Exited? ==>
          s.startContextDone || s.stripes[i].cancelled || s.stripes[i].closed)
    && (s.drain.Awaiting? ==> forall i :: 0 <= i < s.drain.j && i < |s.stripes| ==> Gone(s.stripes[i].worker))
    && (s.drain == Returned(true) ==> forall i :: 0 <= i < |s.stripes| ==> Gone(s.stripes[i].worker))
  }

  lemma NewPhases(hash: Key -> nat, stripeCount: int, queueSize: int)
    ensures Phases(New(hash, stripeCount, queueSize))
  {
  }

  lemma WorkPhases(s: State, j: nat, w: WorkStep)
    requires Phases(s) && WorkEnabled(s, j, w)
    ensures Phases(DoWork(s, j, w))
  {
  }

  lemma CallPhases(s: State, t: Task, c: CallStep)
    requires Phases(s) && CallEnabled(s, t, c)
    ensures Phases(DoCall(s, t, c))
  {
  }

  lemma DrainPhases(s: State)
    requires Phases(s) && Enabled(s, DrainNext)
    ensures Phases(DoDrain(s))
  {
  }

  lemma StartPhases(s: State)
    requires Phases(s) && Enabled(s, Start)
    ensures Phases(s.(started := true, stripes := Spawned(s.stripes)))
  {
  }

  lemma ControlPhases(s: State, a: Action)
    requires Phases(s) && Enabled(s, a) && !a.Call? && !a.Work?
    ensures Phases(Step(s, a))
  {
    if a.DrainNext? {
      DrainPhases(s);
    } else if a.Start? {
      StartPhases(s);
    }
  }

  lemma StepPhases(s: State, a: Action)
    requires Phases(s) && Enabled(s, a)
    ensures Phases(Step(s, a))
  {
    match a
    case Call(t, c) => CallPhases(s, t, c);
    case Work(j, w) => WorkPhases(s, j, w);
    case _ => ControlPhases(s, a);
  }

  lemma {:induction false} RunPhases(s: State, run: seq<Action>)
    requires Phases(s) && Feasible(s, run)
    ensures Phases(After(s, run))
    decreases |run|
  {
    if run != [] {
      StepPhases(s, run[0]);
      RunPhases(Step(s, run[0]), run[1..]);
    }
  }

  // ----- the one-queue-at-a-time scan is stable once no call is in flight -----

  ghost predicate ScannedEmpty(s: State) {
    forall i :: 0 <= i < |s.stripes| && (s.drain.Scanning? ==> i < s.drain.j) ==> s.stripes[i].queue == []
  }

  ghost predicate QuietDrain(s: State) {
    s.closed && Quiet(s) && !s.drain.NotCalled? && (!s.stopContextDone ==> ScannedEmpty(s))
  }

  lemma StepQuiet(s: State, a: Action)
    requires QuietDrain(s) && Enabled(s, a)
    ensures QuietDrain(Step(s, a))
  {
    if a.Work? {
      WorkQuiet(s, a.i, a.w);
    }
  }

  lemma WorkQuiet(s: State, i: nat, w: WorkStep)
    requires QuietDrain(s) && WorkEnabled(s, i, w)
    ensures QuietDrain(DoWork(s, i, w))
  {
  }

  lemma {:induction false} RunQuiet(s: State, run: seq<Action>)
    requires QuietDrain(s) && Feasible(s, run)
    ensures QuietDrain(After(s, run))
    decreases |run|
  {
    if run != [] {
      StepQuiet(s, run[0]);
      RunQuiet(Step(s, run[0]), run[1..]);
    }
  }

  lemma {:induction false} SelectKeepsMultiplicity(log: seq<Entry>, p: Entry -> bool, e: Entry)
    requires p(e)
    ensures multiset(Select(log, p))[e] == multiset(log)[e]
  {
    if log != [] {
      var k := |log| - 1;
      SelectKeepsMultiplicity(log[..k], p, e);
      assert log == log[..k] + [log[k]];
    }
  }

  /** Every queue is empty and no worker is inside a task. */
  ghost predicate NothingPending(s: State) {
    forall i :: 0 <= i < |s.stripes| ==> s.stripes[i].queue == [] && !s.stripes[i].worker.Running?
  }

  /** Then nothing accepted is left over. */
  lemma NothingLeft(s: State)
    requires Inv(s) && NothingPending(s)
    ensures AllRan(s)
  {
    forall e | e in s.accepted ensures multiset(s.begun)[e] == 1 && multiset(s.ended)[e] == 1 {
      var on := OnStripe(e.stripe);
      assert EntryOf(s.calls[e.task]) == [e];
      assert StripeFifo(s, e.stripe);
      assert Select(s.accepted, on) == Select(s.begun, on) == Select(s.ended, on);
      SelectKeepsMultiplicity(s.accepted, on, e);
      SelectKeepsMultiplicity(s.begun, on, e);
      SelectKeepsMultiplicity(s.ended, on, e);
      NoDupOnce(s.accepted, e);
    }
  }

  /** What the promise says of a pool about to be drained: however the run goes on, if
      `DrainAndStop` returns nil while both contexts are alive, every accepted task has
      run or panicked exactly once. */
  ghost predicate DrainKeepsPromise(s: State)
    requires Enabled(s, DrainCall)
  {
    forall run ::
      Feasible(Step(s, DrainCall), run) && CleanReturn(After(Step(s, DrainCall), run)) ==>
      AllRan(After(Step(s, DrainCall), run))
  }

  lemma PromiseKept(s: State, run: seq<Action>)
    requires Inv(s) && Phases(s) && Enabled(s, DrainCall) && (Quiet(s) || s.capacity == 0)
    requires Feasible(Step(s, DrainCall), run) && CleanReturn(After(Step(s, DrainCall), run))
    ensures AllRan(After(Step(s, DrainCall), run))
  {
    var s0 := Step(s, DrainCall);
    var s' := After(s0, run);
    StepInv(s, DrainCall);
    RunInv(s0, run);
    StepPhases(s, DrainCall);
    RunPhases(s0, run);
    SameShape(s0, run);
    if Quiet(s) {
      RunQuiet(s0, run);
    }
    forall i | 0 <= i < |s'.stripes| ensures s'.stripes[i].queue == [] && Gone(s'.stripes[i].worker) {
      assert StripeFifo(s', i);
    }
    NothingLeft(s');
  }

  lemma {:induction false} SameShape(s: State, run: seq<Action>)
    requires Feasible(s, run)
    ensures After(s, run).capacity == s.capacity && |After(s, run).stripes| == |s.stripes|
    decreases |run|
  {
    if run != [] { SameShape(Step(s, run[0]), run[1..]); }
  }

  // ----- and without that, a run that loses a task -----

  lemma {:induction false} RunsCompose(s: State, a: seq<Action>, b: seq<Action>)
    requires Feasible(s, a) && Feasible(After(s, a), b)
    ensures Feasible(s, a + b) && After(s, a + b) == After(After(s, a), b)
    decreases |a|
  {
    if a == [] {
      assert a + b == b;
    } else {
      RunsCompose(Step(s, a[0]), a[1..], b);
      assert (a + b)[1..] == a[1..] + b;
    }
  }

  /** Equal but for the calls and the submission counters. */
  ghost predicate SameButCalls(s: State, s': State) {
    && s'.(calls := s.calls, totalSubmitted := s.totalSubmitted, stripes := s.stripes) == s
    && |s'.stripes| == |s.stripes|
    && forall i :: 0 <= i < |s.stripes| ==> s'.stripes[i].(submitted := s.stripes[i].submitted) == s.stripes[i]
  }

  ghost function StepsToSelect(c: Caller): nat {
    if c.Choosing? then 3 else if c.AddingStripe? then 2 else if c.AddingTotal? then 1 else 0
  }

  ghost function Walking(c: Caller): CallStep {
    if c.Choosing? then Choose else if c.AddingStripe? then AddStripe else AddTotal
  }

  lemma WalkOne(s: State, t: Task)
    requires Placed(s) && t in s.calls && InFlight(s.calls[t]) && !s.calls[t].Selecting?
    ensures CallEnabled(s, t, Walking(s.calls[t]))
    ensures var s1 := DoCall(s, t, Walking(s.calls[t]));
            && SameButCalls(s, s1) && t in s1.calls && InFlight(s1.calls[t])
            && StepsToSelect(s1.calls[t]) < StepsToSelect(s.calls[t])
  {
    CanWalk(s, t);
  }

  lemma CanWalk(s: State, t: Task)
    requires Placed(s) && t in s.calls && InFlight(s.calls[t]) && !s.calls[t].Selecting?
    ensures CallEnabled(s, t, Walking(s.calls[t]))
    ensures s.calls[t].AddingStripe? || s.calls[t].AddingTotal? ==> s.calls[t].e.stripe < |s.stripes|
  {
    assert EntryOf(s.calls[t]) != [] || s.calls[t].Choosing?;
  }

  /** An in-flight call can always walk up to its select. */
  lemma {:induction false} WalkToSelect(s: State, t: Task) returns (run: seq<Action>)
    requires Inv(s) && t in s.calls && InFlight(s.calls[t])
    ensures Feasible(s, run) && SelectingNow(After(s, run), t) && SameButCalls(s, After(s, run))
    ensures After(s, run).calls.Keys == s.calls.Keys
    decreases StepsToSelect(s.calls[t])
  {
    if s.calls[t].Selecting? {
      assert EntryOf(s.calls[t]) != [];
      run := [];
    } else {
      WalkOne(s, t);
      var a := Action.Call(t, Walking(s.calls[t]));
      StepInv(s, a);
      var rest := WalkToSelect(Step(s, a), t);
      run := [a] + rest;
      assert After(s, run) == After(Step(s, a), rest);
    }
  }

  ghost function Pending(p: Stripe): int {
    4 * |p.queue| +
    match p.worker
    case Running(_) => 3
    case AddingProcessed => 2
    case AddingPanic => 2
    case AddingTotalProcessed => 1
    case AddingTotalPanic => 1
    case _ => 0
  }

  ghost predicate Resting(p: Stripe) { p.worker.Idle? && p.queue == [] }

  ghost predicate AllResting(s: State) { forall i :: 0 <= i < |s.stripes| ==> Resting(s.stripes[i]) }

  ghost predicate NoneGone(s: State) { forall i :: 0 <= i < |s.stripes| ==> !Gone(s.stripes[i].worker) }

  ghost predicate QueuesEmpty(s: State) { forall i :: 0 <= i < |s.stripes| ==> s.stripes[i].queue == [] }

  /** No worker is between taking a task and going back to its select. */
  ghost predicate HandsFree(s: State) {
    forall i :: 0 <= i < |s.stripes| ==> s.stripes[i].worker.Idle? || Gone(s.stripes[i].worker)
  }

  /** Nothing but the workers has moved. */
  ghost predicate OnlyWorked(s: State, s': State) {
    && s'.calls == s.calls && s'.drain == s.drain && s'.started == s.started && s'.closed == s.closed
    && s'.startContextDone == s.startContextDone && s'.stopContextDone == s.stopContextDone
    && s'.capacity == s.capacity && s'.accepted == s.accepted
    && |s'.stripes| == |s.stripes|
    && forall i :: 0 <= i < |s.stripes| ==>
         s'.stripes[i].closed == s.stripes[i].closed && s'.stripes[i].cancelled == s.stripes[i].cancelled
  }

  ghost function Working(p: Stripe): WorkStep {
    if p.worker.Idle? then Take
    else if p.worker.Running? then Return
    else if p.worker.AddingProcessed? || p.worker.AddingPanic? then AddOutcome
    else AddTotalOutcome
  }

  lemma LabourOne(p: Stripe)
    requires !Resting(p) && !Gone(p.worker)
    ensures Working(p).Take? ==> p.queue != []
    ensures var p1 := Labour(p, Working(p));
            && !Gone(p1.worker) && p1.closed == p.closed && p1.cancelled == p.cancelled
            && Pending(p1) < Pending(p)
  {
  }

  lemma WorkOne(s: State, i: nat)
    requires NoneGone(s) && i < |s.stripes| && !Resting(s.stripes[i])
    ensures WorkEnabled(s, i, Working(s.stripes[i]))
    ensures var s1 := DoWork(s, i, Working(s.stripes[i]));
            NoneGone(s1) && OnlyWorked(s, s1) && 0 <= Sum(s1.stripes, Pending) < Sum(s.stripes, Pending)
  {
    LabourOne(s.stripes[i]);
    LessPending(s.stripes, i, Labour(s.stripes[i], Working(s.stripes[i])));
  }

  lemma LessPending(stripes: seq<Stripe>, i: nat, p: Stripe)
    requires i < |stripes| && Pending(p) < Pending(stripes[i])
    ensures 0 <= Sum(stripes[i := p], Pending) < Sum(stripes, Pending)
  {
    SumUpdate(stripes, i, p, Pending);
    SumNonNegative(stripes[i := p], Pending);
  }

  /** Live workers can always work their queues off. */
  lemma {:induction false} WorkOff(s: State) returns (run: seq<Action>)
    requires NoneGone(s)
    ensures Feasible(s, run) && AllResting(After(s, run)) && OnlyWorked(s, After(s, run))
    decreases Sum(s.stripes, Pending)
  {
    if i :| 0 <= i < |s.stripes| && !Resting(s.stripes[i]) {
      WorkOne(s, i);
      var a := Action.Work(i, Working(s.stripes[i]));
      var rest := WorkOff(Step(s, a));
      run := [a] + rest;
      assert After(s, run) == After(Step(s, a), rest);
    } else {
      run := [];
    }
  }

  /** An undisturbed scan of empty queues gets through. */
  lemma {:induction false} ScanThrough(s: State) returns (run: seq<Action>)
    requires s.drain.Scanning? && s.drain.j <= |s.stripes| && QueuesEmpty(s)
    ensures Feasible(s, run) && After(s, run) == s.(drain := Closing(0))
    decreases |s.stripes| - s.drain.j
  {
    var s1 := Step(s, DrainNext);
    if s.drain.j == |s.stripes| {
      run := [DrainNext];
    } else {
      var rest := ScanThrough(s1);
      run := [DrainNext] + rest;
    }
  }

  /** Queues and workers are as they were. */
  ghost predicate SameWork(s: State, s': State) {
    && s'.accepted == s.accepted && s'.started == s.started
    && s'.startContextDone == s.startContextDone && s'.stopContextDone == s.stopContextDone
    && |s'.stripes| == |s.stripes|
    && forall i :: 0 <= i < |s.stripes| ==>
         s'.stripes[i].queue == s.stripes[i].queue && s'.stripes[i].worker == s.stripes[i].worker
  }

  lemma {:induction false} CloseAll(s: State) returns (run: seq<Action>)
    requires s.drain.Closing? && s.drain.j <= |s.stripes|
    ensures Feasible(s, run) && SameWork(s, After(s, run)) && After(s, run).drain == Cancelling(0)
    ensures After(s, run).calls == s.calls
    ensures forall i :: 0 <= i < |s.stripes| && (s.drain.j <= i || s.stripes[i].closed) ==>
            After(s, run).stripes[i].closed
    decreases |s.stripes| - s.drain.j
  {
    var s1 := Step(s, DrainNext);
    if s.drain.j == |s.stripes| {
      run := [DrainNext];
      assert After(s, run) == s1;
    } else {
      var rest := CloseAll(s1);
      run := [DrainNext] + rest;
    }
  }

  lemma {:induction false} CancelAll(s: State) returns (run: seq<Action>)
    requires s.drain.Cancelling? && s.drain.j <= |s.stripes|
    requires forall i :: 0 <= i < s.drain.j ==> s.stripes[i].cancelled == s.started
    ensures Feasible(s, run) && SameWork(s, After(s, run)) && After(s, run).drain == Awaiting(0)
    ensures forall i :: 0 <= i < |s.stripes| ==> After(s, run).stripes[i].cancelled == s.started
    decreases |s.stripes| - s.drain.j
  {
    var s1 := Step(s, DrainNext);
    if s.drain.j == |s.stripes| {
      run := [DrainNext];
      assert After(s, run) == s1;
    } else {
      var rest := CancelAll(s1);
      run := [DrainNext] + rest;
    }
  }

  /** Cancelled workers may leave at once, whatever is queued. */
  lemma {:induction false} LeaveAll(s: State, k: nat) returns (run: seq<Action>)
    requires k <= |s.stripes|
    requires forall i :: 0 <= i < k ==> Gone(s.stripes[i].worker)
    requires forall i :: k <= i < |s.stripes| ==> Gone(s.stripes[i].worker) || CanQuit(s.stripes[i])
    ensures Feasible(s, run)
    ensures var s' := After(s, run);
            && s'.(stripes := s.stripes) == s && |s'.stripes| == |s.stripes|
            && forall i :: 0 <= i < |s.stripes| ==>
                 Gone(s'.stripes[i].worker) && s'.stripes[i].queue == s.stripes[i].queue
    decreases |s.stripes| - k
  {
    if k == |s.stripes| {
      run := [];
    } else if Gone(s.stripes[k].worker) {
      run := LeaveAll(s, k + 1);
    } else {
      var s1 := DoWork(s, k, LeaveOnContext);
      var rest := LeaveAll(s1, k + 1);
      run := [Action.Work(k, LeaveOnContext)] + rest;
    }
  }

  ghost predicate CanQuit(p: Stripe) { p.worker.Idle? && p.cancelled }

  lemma {:induction false} AwaitAll(s: State) returns (run: seq<Action>)
    requires s.drain.Awaiting? && s.drain.j <= |s.stripes|
    requires forall i :: 0 <= i < |s.stripes| ==> Gone(s.stripes[i].worker)
    ensures Feasible(s, run) && After(s, run) == s.(drain := Returned(true))
    decreases |s.stripes| - s.drain.j
  {
    if s.drain.j == |s.stripes| {
      run := [DrainNext];
    } else {
      var rest := AwaitAll(Step(s, DrainNext));
      run := [DrainNext] + rest;
    }
  }

  /** From its closing phase on, a drain can run to a nil return whatever is queued. */
  lemma FinishDrain(s: State) returns (run: seq<Action>)
    requires Phases(s) && s.drain == Closing(0) && HandsFree(s)
    ensures Feasible(s, run)
    ensures var s' := After(s, run);
            && s'.drain == Returned(true) && s'.accepted == s.accepted && |s'.stripes| == |s.stripes|
            && s'.startContextDone == s.startContextDone && s'.stopContextDone == s.stopContextDone
            && forall i :: 0 <= i < |s.stripes| ==> s'.stripes[i].queue == s.stripes[i].queue
  {
    var close := CloseAll(s);
    var s1 := After(s, close);
    var cancel := CancelAll(s1);
    var s2 := After(s1, cancel);
    var leave := LeaveAll(s2, 0);
    var s3 := After(s2, leave);
    var await := AwaitAll(s3);
    RunsCompose(s2, leave, await);
    RunsCompose(s1, cancel, leave + await);
    RunsCompose(s, close, cancel + (leave + await));
    run := close + (cancel + (leave + await));
  }

  lemma QueuedIsLost(s: State, i: nat)
    requires Inv(s) && i < |s.stripes| && s.stripes[i].queue != []
    ensures !AllRan(s)
  {
    assert StripeFifo(s, i);
    assert s.stripes[i].queue[0] in s.stripes[i].queue && s.stripes[i].queue[0].stripe == i;
    QueuedIsNotBegun(s, s.stripes[i].queue[0]);
  }

  /** The drain has just found every queue empty; now the late submitter sends. */
  lemma SendLate(s: State, t: Task) returns (run: seq<Action>)
    requires Inv(s) && Phases(s) && ContextsAlive(s) && s.capacity > 0
    requires s.drain == Closing(0) && QueuesEmpty(s) && HandsFree(s) && SelectingNow(s, t)
    requires forall i :: 0 <= i < |s.stripes| ==> !s.stripes[i].closed
    ensures Feasible(s, run) && CleanReturn(After(s, run)) && !AllRan(After(s, run))
  {
    var send := Action.Call(t, Send);
    var i := s.calls[t].e.stripe;
    var s1 := Step(s, send);
    StepPhases(s, send);
    assert s1.stripes[i].queue != [];
    var rest := FinishDrain(s1);
    run := [send] + rest;
    assert After(s, run) == After(s1, rest);
    RunInv(s, run);
    QueuedIsLost(After(s, run), i);
  }

  lemma QueuedIsNotBegun(s: State, e: Entry)
    requires Inv(s) && e.stripe < |s.stripes| && e in s.stripes[e.stripe].queue
    ensures e in s.accepted && multiset(s.begun)[e] == 0
  {
    var on, q := OnStripe(e.stripe), s.stripes[e.stripe].queue;
    assert StripeFifo(s, e.stripe);
    SelectMember(s.accepted, on);
    assert e in Select(s.accepted, on);
    NoDupOnce(s.accepted, e);
    SelectKeepsMultiplicity(s.accepted, on, e);
    SelectKeepsMultiplicity(s.begun, on, e);
    assert multiset(Select(s.accepted, on)) == multiset(Select(s.begun, on)) + multiset(q);
  }

  /** From any pool with buffer space that is started, or not started and empty, a call still
      in flight when `DrainAndStop` starts leads to a run in which a task is accepted, never
      begun, and yet `DrainAndStop` returns nil. */
  lemma PromiseBroken(s: State, t: Task) returns (run: seq<Action>)
    requires Inv(s) && Phases(s) && (s.started || QueuesEmpty(s)) && ContextsAlive(s) && Enabled(s, DrainCall)
    requires t in s.calls && InFlight(s.calls[t]) && s.capacity > 0
    ensures Feasible(Step(s, DrainCall), run)
    ensures CleanReturn(After(Step(s, DrainCall), run)) && !AllRan(After(Step(s, DrainCall), run))
  {
    var s0 := Step(s, DrainCall);
    StepInv(s, DrainCall);
    StepPhases(s, DrainCall);
    var r1 := WalkToSelect(s0, t);
    var s1 := After(s0, r1);
    RunInv(s0, r1);
    RunPhases(s0, r1);
    var r2 := [];
    if s.started { r2 := WorkOff(s1); }
    var s2 := After(s1, r2);
    RunInv(s1, r2);
    RunPhases(s1, r2);
    var r3 := ScanAndSend(s2, t);
    RunsCompose(s1, r2, r3);
    RunsCompose(s0, r1, r2 + r3);
    run := r1 + (r2 + r3);
  }

  lemma ScanAndSend(s: State, t: Task) returns (run: seq<Action>)
    requires Inv(s) && Phases(s) && ContextsAlive(s) && s.capacity > 0
    requires s.drain == Scanning(0) && QueuesEmpty(s) && HandsFree(s) && SelectingNow(s, t)
    ensures Feasible(s, run) && CleanReturn(After(s, run)) && !AllRan(After(s, run))
  {
    var scan := ScanThrough(s);
    RunInv(s, scan);
    RunPhases(s, scan);
    var send := SendLate(After(s, scan), t);
    RunsCompose(s, scan, send);
    run := scan + send;
  }

  // ----- a pool that was never started -----

  /** The scan of a pool without workers never gets past a queue that is not empty. */
  ghost predicate Stuck(s: State, i: nat) {
    && i < |s.stripes| && s.stripes[i].queue != []
    && s.closed && (forall k :: 0 <= k < |s.stripes| ==> s.stripes[k].worker.Unborn?)
    && ((s.drain.Scanning? && s.drain.j <= i) || s.stopContextDone)
  }

  lemma StepStuck(s: State, i: nat, a: Action)
    requires Stuck(s, i) && Enabled(s, a)
    ensures Stuck(Step(s, a), i)
  {
  }

  lemma {:induction false} RunStuck(s: State, i: nat, run: seq<Action>)
    requires Stuck(s, i) && Feasible(s, run)
    ensures Stuck(After(s, run), i)
    decreases |run|
  {
    if run != [] {
      StepStuck(s, i, run[0]);
      RunStuck(Step(s, run[0]), i, run[1..]);
    }
  }

  /** The call that finds the pool open, if neither context ever ends: a started pool keeps
      the promise exactly when no submitter is in flight or the queues are unbuffered; a
      pool that was not started also when some queue is not empty, because then the call
      does not return. */
  lemma AliveDrainExactly(s: State)
    requires Inv(s) && Phases(s) && ContextsAlive(s) && Enabled(s, DrainCall)
    ensures DrainKeepsPromise(s) <==> Quiet(s) || s.capacity == 0 || (!s.started && !QueuesEmpty(s))
  {
    if Quiet(s) || s.capacity == 0 {
      forall run | Feasible(Step(s, DrainCall), run) && CleanReturn(After(Step(s, DrainCall), run))
        ensures AllRan(After(Step(s, DrainCall), run))
      {
        PromiseKept(s, run);
      }
    } else if !s.started && !QueuesEmpty(s) {
      var i :| 0 <= i < |s.stripes| && s.stripes[i].queue != [];
      forall run | Feasible(Step(s, DrainCall), run) ensures !CleanReturn(After(Step(s, DrainCall), run)) {
        RunStuck(Step(s, DrainCall), i, run);
      }
    } else {
      var t :| t in s.calls && InFlight(s.calls[t]);
      var run := PromiseBroken(s, t);
    }
  }

  // ----- contexts that may end -----

  /** Whenever the call returns nil, every accepted task has run or panicked exactly once. */
  ghost predicate NilMeansAllRan(s: State)
    requires Enabled(s, DrainCall)
  {
    forall run ::
      Feasible(Step(s, DrainCall), run) && After(Step(s, DrainCall), run).drain == Returned(true) ==>
      AllRan(After(Step(s, DrainCall), run))
  }

  /** Closed, with nobody in flight and nothing queued: so it stays. */
  ghost predicate ClosedEmpty(s: State) { s.closed && Quiet(s) && QueuesEmpty(s) }

  lemma StepClosedEmpty(s: State, a: Action)
    requires ClosedEmpty(s) && Enabled(s, a)
    ensures ClosedEmpty(Step(s, a))
  {
    if a.Work? { WorkClosedEmpty(s, a.i, a.w); }
  }

  lemma WorkClosedEmpty(s: State, i: nat, w: WorkStep)
    requires ClosedEmpty(s) && WorkEnabled(s, i, w)
    ensures ClosedEmpty(DoWork(s, i, w))
  {
  }

  lemma {:induction false} RunClosedEmpty(s: State, run: seq<Action>)
    requires ClosedEmpty(s) && Feasible(s, run)
    ensures ClosedEmpty(After(s, run))
    decreases |run|
  {
    if run != [] {
      StepClosedEmpty(s, run[0]);
      RunClosedEmpty(Step(s, run[0]), run[1..]);
    }
  }

  lemma NilIsRight(s: State, run: seq<Action>)
    requires Inv(s) && Phases(s) && Enabled(s, DrainCall) && (s.capacity == 0 || (Quiet(s) && QueuesEmpty(s)))
    requires Feasible(Step(s, DrainCall), run) && After(Step(s, DrainCall), run).drain == Returned(true)
    ensures AllRan(After(Step(s, DrainCall), run))
  {
    var s0 := Step(s, DrainCall);
    var s' := After(s0, run);
    StepInv(s, DrainCall);
    RunInv(s0, run);
    StepPhases(s, DrainCall);
    RunPhases(s0, run);
    SameShape(s0, run);
    if s.capacity > 0 { RunClosedEmpty(s0, run); }
    forall i | 0 <= i < |s'.stripes| ensures s'.stripes[i].queue == [] && Gone(s'.stripes[i].worker) {
      assert StripeFifo(s', i);
    }
    NothingLeft(s');
  }

  /** What a worker still has to do before it is back at its select. */
  ghost function InTask(p: Stripe): int {
    match p.worker
    case Running(_) => 3
    case AddingProcessed => 2
    case AddingPanic => 2
    case AddingTotalProcessed => 1
    case AddingTotalPanic => 1
    case _ => 0
  }

  /** Only workers have moved, and none has taken a task. */
  ghost predicate OnlyFinished(s: State, s': State) {
    && OnlyWorked(s, s')
    && forall i :: 0 <= i < |s.stripes| ==> s'.stripes[i].queue == s.stripes[i].queue
  }

  lemma FinishOne(s: State, i: nat)
    requires i < |s.stripes| && !s.stripes[i].worker.Idle? && !Gone(s.stripes[i].worker)
    ensures WorkEnabled(s, i, Working(s.stripes[i]))
    ensures var s1 := DoWork(s, i, Working(s.stripes[i]));
            OnlyFinished(s, s1) && 0 <= Sum(s1.stripes, InTask) < Sum(s.stripes, InTask)
  {
    var w := Working(s.stripes[i]);
    FinishStripe(s.stripes[i]);
    assert WorkEnabled(s, i, w);
    assert DoWork(s, i, w).stripes == s.stripes[i := Labour(s.stripes[i], w)];
    LessInTask(s.stripes, i, Labour(s.stripes[i], w));
  }

  lemma FinishStripe(p: Stripe)
    requires !p.worker.Idle? && !Gone(p.worker)
    ensures !Working(p).Take?
    ensures var p1 := Labour(p, Working(p));
            p1.queue == p.queue && p1.closed == p.closed && p1.cancelled == p.cancelled && InTask(p1) < InTask(p)
  {
  }

  lemma LessInTask(stripes: seq<Stripe>, i: nat, p: Stripe)
    requires i < |stripes| && InTask(p) < InTask(stripes[i])
    ensures 0 <= Sum(stripes[i := p], InTask) < Sum(stripes, InTask)
  {
    SumUpdate(stripes, i, p, InTask);
    SumNonNegative(stripes[i := p], InTask);
  }

  /** Workers can always finish what they have in hand and take nothing more. */
  lemma {:induction false} HandsOff(s: State) returns (run: seq<Action>)
    ensures Feasible(s, run) && HandsFree(After(s, run)) && OnlyFinished(s, After(s, run))
    decreases Sum(s.stripes, InTask)
  {
    if i :| 0 <= i < |s.stripes| && !s.stripes[i].worker.Idle? && !Gone(s.stripes[i].worker) {
      FinishOne(s, i);
      var a := Action.Work(i, Working(s.stripes[i]));
      var rest := HandsOff(Step(s, a));
      run := [a] + rest;
      assert After(s, run) == After(Step(s, a), rest);
    } else {
      run := [];
    }
  }

  /** The stop context ends while a task is queued: the queues are closed, the workers are
      cancelled, and the call can still return nil. */
  lemma ForcedNil(s: State, i: nat) returns (run: seq<Action>)
    requires Inv(s) && Phases(s) && s.drain.Scanning? && i < |s.stripes| && s.stripes[i].queue != []
    ensures Feasible(s, run) && After(s, run).drain == Returned(true) && !AllRan(After(s, run))
  {
    var hands := HandsOff(s);
    var s1 := After(s, hands);
    RunPhases(s, hands);
    var force := [StopContextEnds, DrainForce];
    TwoSteps(s1, StopContextEnds, DrainForce);
    RunPhases(s1, force);
    var finish := FinishDrain(After(s1, force));
    RunsCompose(s1, force, finish);
    RunsCompose(s, hands, force + finish);
    run := hands + (force + finish);
    RunInv(s, run);
    QueuedIsLost(After(s, run), i);
  }

  /** A submitter in flight can put something into the queue, if there is nothing yet. */
  lemma SomethingQueued(s: State, t: Task) returns (run: seq<Action>, i: nat)
    requires Inv(s) && Phases(s) && s.drain.Scanning? && s.capacity > 0 && QueuesEmpty(s)
    requires t in s.calls && InFlight(s.calls[t])
    ensures Feasible(s, run)
    ensures After(s, run).drain.Scanning? && i < |After(s, run).stripes| && After(s, run).stripes[i].queue != []
  {
    var walk := WalkToSelect(s, t);
    var s1 := After(s, walk);
    RunPhases(s, walk);
    i := s1.calls[t].e.stripe;
    var send := Action.Call(t, Send);
    assert Enabled(s1, send);
    assert [send][1..] == [] && After(s1, [send]) == Step(s1, send);
    RunsCompose(s, walk, [send]);
    run := walk + [send];
  }

  lemma NilCanBeWrong(s: State) returns (run: seq<Action>)
    requires Inv(s) && Phases(s) && Enabled(s, DrainCall) && s.capacity > 0 && !(Quiet(s) && QueuesEmpty(s))
    ensures Feasible(Step(s, DrainCall), run) && After(Step(s, DrainCall), run).drain == Returned(true)
    ensures !AllRan(After(Step(s, DrainCall), run))
  {
    var s0 := Step(s, DrainCall);
    StepInv(s, DrainCall);
    StepPhases(s, DrainCall);
    var load: seq<Action>, i: nat := [], 0;
    if QueuesEmpty(s) {
      var t :| t in s.calls && InFlight(s.calls[t]);
      load, i := SomethingQueued(s0, t);
    } else {
      i :| 0 <= i < |s.stripes| && s.stripes[i].queue != [];
    }
    RunInv(s0, load);
    RunPhases(s0, load);
    var force := ForcedNil(After(s0, load), i);
    RunsCompose(s0, load, force);
    run := load + force;
  }

  /** The call that finds the pool open, whatever becomes of the contexts, started or not:
      its nil means that everything accepted has run exactly when the queues are unbuffered,
      or nobody is in flight and nothing is queued. */
  lemma FirstDrainExactly(s: State)
    requires Inv(s) && Phases(s) && Enabled(s, DrainCall)
    ensures NilMeansAllRan(s) <==> s.capacity == 0 || (Quiet(s) && QueuesEmpty(s))
  {
    if s.capacity == 0 || (Quiet(s) && QueuesEmpty(s)) {
      forall run | Feasible(Step(s, DrainCall), run) && After(Step(s, DrainCall), run).drain == Returned(true)
        ensures AllRan(After(Step(s, DrainCall), run))
      {
        NilIsRight(s, run);
      }
    } else {
      var run := NilCanBeWrong(s);
    }
  }

  // ----- a call that finds the pool closed -----

  lemma PendingHasNotRun(s: State, i: nat)
    requires Inv(s) && i < |s.stripes| && (s.stripes[i].queue != [] || s.stripes[i].worker.Running?)
    ensures !AllRan(s)
  {
    if s.stripes[i].queue != [] {
      QueuedIsLost(s, i);
    } else {
      RunningHasNotEnded(s, i);
    }
  }

  lemma RunningHasNotEnded(s: State, i: nat)
    requires Inv(s) && i < |s.stripes| && s.stripes[i].worker.Running?
    ensures var e := s.stripes[i].worker.e; e in s.accepted && multiset(s.ended)[e] == 0
  {
    var e, on := s.stripes[i].worker.e, OnStripe(i);
    assert StripeFifo(s, i);
    var accepted, begun, ended := Select(s.accepted, on), Select(s.begun, on), Select(s.ended, on);
    assert begun == ended + [e] && accepted == begun + s.stripes[i].queue;
    assert begun[|ended|] == e && accepted[|ended|] == e;
    SelectMember(s.accepted, on);
    NoDupSelect(s.accepted, on);
    assert forall k :: 0 <= k < |ended| ==> ended[k] == accepted[k] != accepted[|ended|];
    SelectKeepsMultiplicity(s.ended, on, e);
  }

  /** Its nil, at once, means that every accepted task has run exactly when nothing is
      queued or running at that moment. */
  lemma LaterDrainExactly(s: State)
    requires Inv(s) && Enabled(s, DrainAgain)
    ensures AllRan(Step(s, DrainAgain)) <==> NothingPending(s)
  {
    if NothingPending(s) {
      NothingLeft(s);
    } else {
      var i :| 0 <= i < |s.stripes| && !(s.stripes[i].queue == [] && !s.stripes[i].worker.Running?);
      PendingHasNotRun(s, i);
    }
  }

  // ----- any call -----

  /** What the promise says of a call of `DrainAndStop` made in state `s`: whenever it
      returns nil, every accepted task has run exactly once. */
  ghost predicate CallKeepsPromise(s: State)
    requires Phases(s)
  {
    if s.closed then AllRan(Step(s, DrainAgain)) else NilMeansAllRan(s)
  }

  /** Exactly when `DrainAndStop` keeps its promise, for a call made in any reachable state
      and whatever becomes of the contexts: the pool is open and unbuffered, or it is open
      with no submitter in flight and nothing queued, or it is closed with nothing queued
      or running. */
  lemma DrainPromiseExactly(hash: Key -> nat, stripeCount: int, queueSize: int, prefix: seq<Action>)
    requires Feasible(New(hash, stripeCount, queueSize), prefix)
    ensures var s := After(New(hash, stripeCount, queueSize), prefix);
            Phases(s) && (CallKeepsPromise(s) <==>
                            if s.closed then NothingPending(s)
                            else s.capacity == 0 || (Quiet(s) && QueuesEmpty(s)))
  {
    var s := After(New(hash, stripeCount, queueSize), prefix);
    ReachableInv(hash, stripeCount, queueSize, prefix);
    if s.closed {
      LaterDrainExactly(s);
    } else {
      FirstDrainExactly(s);
    }
  }

  /** The same for a call that finds the pool open, if neither context ever ends. */
  lemma DrainPromiseWhileAlive(hash: Key -> nat, stripeCount: int, queueSize: int, prefix: seq<Action>)
    requires Feasible(New(hash, stripeCount, queueSize), prefix)
    requires var s := After(New(hash, stripeCount, queueSize), prefix); ContextsAlive(s) && !s.closed
    ensures var s := After(New(hash, stripeCount, queueSize), prefix);
            && Enabled(s, DrainCall)
            && (DrainKeepsPromise(s) <==> Quiet(s) || s.capacity == 0 || (!s.started && !QueuesEmpty(s)))
  {
    ReachableInv(hash, stripeCount, queueSize, prefix);
    AliveDrainExactly(After(New(hash, stripeCount, queueSize), prefix));
  }

  lemma ReachableInv(hash: Key -> nat, stripeCount: int, queueSize: int, prefix: seq<Action>)
    requires Feasible(New(hash, stripeCount, queueSize), prefix)
    ensures Inv(After(New(hash, stripeCount, queueSize), prefix))
    ensures Phases(After(New(hash, stripeCount, queueSize), prefix))
  {
    NewInv(hash, stripeCount, queueSize);
    RunInv(New(hash, stripeCount, queueSize), prefix);
    NewPhases(hash, stripeCount, queueSize);
    RunPhases(New(hash, stripeCount, queueSize), prefix);
  }

  // ----- all three failures happen -----

  lemma TwoSteps(s: State, a: Action, b: Action)
    requires Enabled(s, a) && Enabled(Step(s, a), b)
    ensures Feasible(s, [a, b]) && After(s, [a, b]) == Step(Step(s, a), b)
  {
    assert [a, b][1..] == [b] && [b][1..] == [];
    assert After(Step(s, a), [b]) == Step(Step(s, a), b);
  }

  /** A pool of one stripe with room for one task, and a submitter past its closed check. */
  lemma LateSubmitter(hash: Key -> nat, t: Task) returns (prefix: seq<Action>)
    ensures Feasible(New(hash, 1, 1), prefix)
    ensures var s := After(New(hash, 1, 1), prefix);
            && Inv(s) && Phases(s) && s.started && ContextsAlive(s) && !s.closed && s.capacity == 1
            && s.calls.Keys == {t} && InFlight(s.calls[t]) && QueuesEmpty(s)
    ensures !CallKeepsPromise(After(New(hash, 1, 1), prefix)) && !DrainKeepsPromise(After(New(hash, 1, 1), prefix))
  {
    prefix := [Start, Begin(t)];
    TwoSteps(New(hash, 1, 1), Start, Begin(t));
    DrainPromiseExactly(hash, 1, 1, prefix);
    DrainPromiseWhileAlive(hash, 1, 1, prefix);
    ReachableInv(hash, 1, 1, prefix);
  }

  /** Once that submitter has sent, nobody is in flight; then the promise holds unless the
      stop context ends. */
  lemma QueuedTask(hash: Key -> nat, t: Task) returns (prefix: seq<Action>)
    ensures Feasible(New(hash, 1, 1), prefix)
    ensures var s := After(New(hash, 1, 1), prefix);
            && Phases(s) && s.started && ContextsAlive(s) && !s.closed && Quiet(s) && !QueuesEmpty(s)
            && DrainKeepsPromise(s) && !CallKeepsPromise(s)
  {
    var first := LateSubmitter(hash, t);
    var s1 := After(New(hash, 1, 1), first);
    var walk := WalkToSelect(s1, t);
    var s2 := After(s1, walk);
    RunPhases(s1, walk);
    RunsCompose(New(hash, 1, 1), first, walk);
    var send := Action.Call(t, Send);
    SameShape(s1, walk);
    assert Enabled(s2, send);
    assert [send][1..] == [] && After(s2, [send]) == Step(s2, send);
    RunsCompose(New(hash, 1, 1), first + walk, [send]);
    prefix := first + walk + [send];
    var i := s2.calls[t].e.stripe;
    assert After(New(hash, 1, 1), prefix).stripes[i].queue != [];
    DrainPromiseExactly(hash, 1, 1, prefix);
    DrainPromiseWhileAlive(hash, 1, 1, prefix);
  }

  /** And once a first `DrainAndStop` has begun, a second one returns nil with the task still
      queued, although nobody is in flight and no context ended. */
  lemma EarlyNil(hash: Key -> nat, t: Task) returns (prefix: seq<Action>)
    ensures Feasible(New(hash, 1, 1), prefix)
    ensures var s := After(New(hash, 1, 1), prefix);
            && Phases(s) && s.closed && ContextsAlive(s) && Quiet(s) && !CallKeepsPromise(s)
  {
    var first := QueuedTask(hash, t);
    var s1 := After(New(hash, 1, 1), first);
    assert [DrainCall][1..] == [] && After(s1, [DrainCall]) == Step(s1, DrainCall);
    RunsCompose(New(hash, 1, 1), first, [DrainCall]);
    prefix := first + [DrainCall];
    DrainPromiseExactly(hash, 1, 1, prefix);
  }

  // ----- submissions that panic -----

  /** No submission made before the drain, or during it, ever sends on a closed queue. */
  ghost predicate NoSendPanics(s: State)
    requires Enabled(s, DrainCall)
  {
    forall run, t ::
      Feasible(Step(s, DrainCall), run) ==> !Enabled(After(Step(s, DrainCall), run), Action.Call(t, SendOnClosed))
  }

  /** `submitToStripe` does not recover, so a late send can panic in the caller: exactly
      when the caller was in flight as the drain began. */
  lemma SendPanicsExactly(s: State)
    requires Inv(s) && Phases(s) && Enabled(s, DrainCall)
    ensures NoSendPanics(s) <==> Quiet(s)
  {
    var s0 := Step(s, DrainCall);
    if Quiet(s) {
      forall run, t | Feasible(s0, run) ensures !Enabled(After(s0, run), Action.Call(t, SendOnClosed)) {
        RunQuiet(s0, run);
      }
    } else {
      var t :| t in s.calls && InFlight(s.calls[t]);
      StepInv(s, DrainCall);
      var walk := WalkToSelect(s0, t);
      var close := CloseInTime(After(s0, walk), t);
      RunsCompose(s0, walk, close);
    }
  }

  /** The stop context ends, and every queue is closed under the submitter. */
  lemma CloseInTime(s: State, t: Task) returns (run: seq<Action>)
    requires SelectingNow(s, t) && s.drain.Scanning?
    ensures Feasible(s, run) && Enabled(After(s, run), Action.Call(t, SendOnClosed))
  {
    var s1 := Step(s, StopContextEnds);
    var s2 := Step(s1, DrainForce);
    var rest := CloseAll(s2);
    run := [StopContextEnds, DrainForce] + rest;
    assert run[1..] == [DrainForce] + rest && run[1..][1..] == rest;
    assert After(s, run) == After(s2, rest);
  }
}
