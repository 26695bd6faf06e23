/** When the goroutines around a fixed pool block, and when they do not
    (pkg/pool/fixed_pool.go): said of the channel, the workers and the stop signal alone. */
module FixedPoolBlocking {
  import opened Sequences
  import opened Tasks
  import opened FixedPool

  // ----- sizes -----

  lemma StepKeepsShape(s: State, a: Action)
    requires Enabled(s, a)
    ensures Step(s, a).capacity == s.capacity && |Step(s, a).workers| == |s.workers|
  {
  }

  /** A pool has as many workers and as much buffer as was asked for, but at least one worker
      and no negative buffer, in every run. */
  lemma {:induction false} ShapeIsKept(s: State, run: seq<Action>)
    requires Feasible(s, run)
    ensures After(s, run).capacity == s.capacity && |After(s, run).workers| == |s.workers|
    decreases |run|
  {
    if run != [] {
      StepKeepsShape(s, run[0]);
      ShapeIsKept(Step(s, run[0]), run[1..]);
    }
  }

  lemma SizesAreAsAsked(size: int, queue: int, run: seq<Action>)
    requires Feasible(New(size, queue), run)
    ensures var s := After(New(size, queue), run);
            && |s.workers| == (if size >= 1 then size else 1)
            && s.capacity == (if queue >= 0 then queue else 0)
  {
    ShapeIsKept(New(size, queue), run);
  }

  // ----- Submit -----

  /** The steps of a `Submit` call at its select, its own context apart. */
  ghost predicate OfCall(a: Action, t: Task) {
    (a.Send? || a.HandOff? || a.SendOnClosed? || a.SeeStopped?) && a.t == t
  }

  ghost predicate SubmitBlocked(s: State, t: Task) {
    forall a :: OfCall(a, t) ==> !Enabled(s, a)
  }

  /** A `Submit` call blocks exactly when the pool is neither stopped nor closed, the buffer
      is full, and no worker is waiting for a task. */
  lemma SubmitBlocksExactly(size: int, queue: int, run: seq<Action>, t: Task)
    requires Feasible(New(size, queue), run) && Calling(After(New(size, queue), run), t)
    ensures var s := After(New(size, queue), run);
            SubmitBlocked(s, t) <==>
            && !s.stopped && !s.closed
            && |s.queue| == (if queue >= 0 then queue else 0)
            && (s.queue != [] || forall w :: 0 <= w < |s.workers| ==> !s.workers[w].Idle?)
  {
    var s := After(New(size, queue), run);
    NewInv(size, queue);
    RunInv(New(size, queue), run);
    SizesAreAsAsked(size, queue, run);
    InvBlocksExactly(s, t);
  }

  lemma InvBlocksExactly(s: State, t: Task)
    requires Fifo(s) && Calling(s, t)
    ensures SubmitBlocked(s, t) <==>
            && !s.stopped && !s.closed && |s.queue| == s.capacity
            && (s.queue != [] || forall w :: 0 <= w < |s.workers| ==> !s.workers[w].Idle?)
  {
    if SubmitBlocked(s, t) {
      assert !Enabled(s, SeeStopped(t)) && !Enabled(s, SendOnClosed(t)) && !Enabled(s, Send(t));
      forall w | 0 <= w < |s.workers| && s.queue == [] ensures !s.workers[w].Idle? {
        assert !Enabled(s, HandOff(t, w));
      }
    }
  }

  /** What a call at its select returns: nil exactly when its task is sent, and an error that
      names the stop exactly when the pool is being stopped under it. */
  lemma AnswersExactly(s: State, a: Action, t: Task)
    requires Calling(s, t) && Enabled(s, a) && (OfCall(a, t) || a == SeeContext(t))
    ensures t in Step(s, a).calls
    ensures Step(s, a).calls[t] == Accepted <==> Step(s, a).accepted == s.accepted + [t]
    ensures Step(s, a).calls[t] == Refused(PoolClosed) ==> s.stopped || s.closed
    ensures Step(s, a).calls[t] == Refused(ContextEnded) <==> a == SeeContext(t)
  {
    assert s.accepted + [t] != s.accepted by { assert |s.accepted + [t]| == |s.accepted| + 1; }
  }

  /** A call always gets to its select, and an ended context always gets a call out of its
      select and a drain out of its wait, whatever the pool is doing. */
  lemma ContextIsAlwaysSeen(s: State, t: Task, d: nat)
    ensures t !in s.calls ==> Enabled(s, Begin(t)) && Calling(Step(s, Begin(t)), t)
    ensures Calling(s, t) ==> Enabled(s, SeeContext(t))
    ensures d !in s.drains ==> Enabled(s, DrainCall(d)) && At(Step(s, DrainCall(d)), d, Entering)
    ensures At(s, d, Waiting) ==>
              Enabled(s, DrainContext(d)) && At(Step(s, DrainContext(d)), d, Drain.Returned(false))
  {
  }

  // ----- filling the buffer -----

  lemma {:induction false} OneMoreStep(s: State, run: seq<Action>, a: Action)
    requires Feasible(s, run) && Enabled(After(s, run), a)
    ensures Feasible(s, run + [a]) && After(s, run + [a]) == Step(After(s, run), a)
    decreases |run|
  {
    if run == [] {
      assert [] + [a] == [a] && [a][1..] == [];
    } else {
      OneMoreStep(Step(s, run[0]), run[1..], a);
      assert (run + [a])[1..] == run[1..] + [a];
    }
  }

  /** While the workers have not come round to it, the buffer takes `n` tasks, up to its
      capacity and no more. */
  lemma {:induction false} Fills(size: int, queue: int, n: nat) returns (run: seq<Action>)
    requires n <= if queue >= 0 then queue else 0
    ensures Feasible(New(size, queue), run)
    ensures var s := After(New(size, queue), run);
            |s.queue| == n && !s.stopped && !s.closed && forall t :: t in s.calls ==> t.id < n
    decreases n
  {
    if n == 0 {
      run := [];
    } else {
      run := Fills(size, queue, n - 1);
      var s := After(New(size, queue), run);
      ShapeIsKept(New(size, queue), run);
      var t := Task(n - 1, "", []);
      OneMoreStep(New(size, queue), run, Begin(t));
      run := run + [Begin(t)];
      OneMoreStep(New(size, queue), run, Send(t));
      run := run + [Send(t)];
    }
  }

  /** The buffer is never over its capacity, and it can be filled to exactly that. */
  lemma FillsExactly(size: int, queue: int, n: nat)
    ensures (exists run :: Feasible(New(size, queue), run) && |After(New(size, queue), run).queue| == n) <==>
            n <= if queue >= 0 then queue else 0
  {
    if n <= if queue >= 0 then queue else 0 {
      var run := Fills(size, queue, n);
    }
    forall run | Feasible(New(size, queue), run)
      ensures |After(New(size, queue), run).queue| <= if queue >= 0 then queue else 0
    {
      NewInv(size, queue);
      RunInv(New(size, queue), run);
      SizesAreAsAsked(size, queue, run);
    }
  }

  // ----- workers -----

  ghost predicate OfWorker(a: Action, w: nat) { (a.Take? || a.Finish? || a.CountTask? || a.Exit?) && a.w == w }

  /** A worker blocks exactly when it has returned, or waits at an open and empty channel. */
  lemma WorkerBlocksExactly(s: State, w: nat)
    requires w < |s.workers|
    ensures (forall a :: OfWorker(a, w) ==> !Enabled(s, a)) <==>
            s.workers[w].Exited? || (s.workers[w].Idle? && s.queue == [] && !s.closed)
  {
    var a := match s.workers[w]
      case Idle => if s.queue != [] then Take(w) else Exit(w)
      case Running(_) => Finish(w)
      case Counting => CountTask(w)
      case Exited => Take(w);
    assert OfWorker(a, w);
  }

  // ----- DrainAndStop -----

  ghost predicate OfDrain(a: Action, d: nat) {
    && (a.OnceWin? || a.CloseStopped? || a.CloseTasks? || a.OnceSkip? || a.DrainDone?)
    && a.d == d
  }

  /** A drain call, its own context apart, blocks exactly while another call is inside the
      once, or while some worker has not returned. */
  lemma DrainBlocksExactly(s: State, d: nat)
    requires d in s.drains && !s.drains[d].Returned?
    ensures (forall a :: OfDrain(a, d) ==> !Enabled(s, a)) <==>
            || (s.drains[d].Entering? && s.once.Busy?)
            || (s.drains[d].Waiting? && exists w :: 0 <= w < |s.workers| && !s.workers[w].Exited?)
  {
    var a := match s.drains[d]
      case Entering => if s.once == Fresh then OnceWin(d) else OnceSkip(d)
      case ClosingStopped => CloseStopped(d)
      case ClosingTasks => CloseTasks(d)
      case _ => DrainDone(d);
    assert OfDrain(a, d);
  }
}
