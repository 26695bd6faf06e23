/** What the counters and outcomes of a striped pool mean, counted over the actions of a run,
    and when its goroutines block (pkg/pool/striped_pool.go). */
module StripedPoolLaws {
  import opened Sequences
  import opened Tasks
  import opened StripedPool
  import opened StripedPoolCounters

  // ----- counting the actions of a run -----

  ghost function HowMany(run: seq<Action>, p: Action -> bool): nat { |Select(run, p)| }

  lemma FirstCounts(run: seq<Action>, p: Action -> bool)
    requires run != []
    ensures HowMany(run, p) == HowMany(run[1..], p) + if p(run[0]) then 1 else 0
  {
    assert run == [run[0]] + run[1..];
    SelectConcat([run[0]], run[1..], p);
    SelectAppend([], run[0], p);
    assert [] + [run[0]] == [run[0]];
  }

  /** Tasks of stripe `i` that returned; that panicked. */
  ghost function Returns(i: nat): Action -> bool { (a: Action) => a.Work? && a.i == i && a.w.Return? }
  ghost function Panicked(i: nat): Action -> bool { (a: Action) => a.Work? && a.i == i && a.w.Panic? }
  ghost function AnyReturn(): Action -> bool { (a: Action) => a.Work? && a.w.Return? }
  ghost function AnyPanic(): Action -> bool { (a: Action) => a.Work? && a.w.Panic? }

  // ----- processed and panics -----

  /** Counted as processed, or about to be. */
  ghost function Done(p: Stripe): int { p.processed + if p.worker.AddingProcessed? then 1 else 0 }

  /** Counted as a panic, or about to be. */
  ghost function Failing(p: Stripe): int { p.panics + if p.worker.AddingPanic? then 1 else 0 }

  lemma LabourOutcome(p: Stripe, w: WorkStep)
    requires w.Take? ==> p.worker.Idle? && p.queue != []
    requires w.Return? || w.Panic? ==> p.worker.Running?
    requires w.AddOutcome? ==> p.worker.AddingProcessed? || p.worker.AddingPanic?
    requires w.AddTotalOutcome? ==> p.worker.AddingTotalProcessed? || p.worker.AddingTotalPanic?
    requires w.LeaveOnContext? || w.LeaveOnClosed? ==> p.worker.Idle?
    ensures Done(Labour(p, w)) == Done(p) + if w.Return? then 1 else 0
    ensures Failing(Labour(p, w)) == Failing(p) + if w.Panic? then 1 else 0
  {
  }

  lemma CallOutcome(s: State, t: Task, c: CallStep, i: nat)
    requires CallEnabled(s, t, c) && i < |s.stripes|
    ensures Done(DoCall(s, t, c).stripes[i]) == Done(s.stripes[i])
    ensures Failing(DoCall(s, t, c).stripes[i]) == Failing(s.stripes[i])
  {
  }

  lemma ControlOutcome(s: State, a: Action, i: nat)
    requires Placed(s) && Enabled(s, a) && !a.Call? && !a.Work? && i < |s.stripes|
    ensures |Step(s, a).stripes| == |s.stripes|
    ensures Done(Step(s, a).stripes[i]) == Done(s.stripes[i])
    ensures Failing(Step(s, a).stripes[i]) == Failing(s.stripes[i])
  {
  }

  lemma StepOutcome(s: State, a: Action, i: nat)
    requires Placed(s) && Enabled(s, a) && i < |s.stripes|
    ensures |Step(s, a).stripes| == |s.stripes|
    ensures Done(Step(s, a).stripes[i]) == Done(s.stripes[i]) + if Returns(i)(a) then 1 else 0
    ensures Failing(Step(s, a).stripes[i]) == Failing(s.stripes[i]) + if Panicked(i)(a) then 1 else 0
  {
    match a
    case Call(t, c) => CallOutcome(s, t, c, i);
    case Work(j, w) => LabourOutcome(s.stripes[j], w);
    case _ => ControlOutcome(s, a, i);
  }

  lemma {:induction false} RunOutcome(s: State, run: seq<Action>, i: nat)
    requires Inv(s) && Feasible(s, run) && i < |s.stripes|
    ensures |After(s, run).stripes| == |s.stripes|
    ensures Done(After(s, run).stripes[i]) == Done(s.stripes[i]) + HowMany(run, Returns(i))
    ensures Failing(After(s, run).stripes[i]) == Failing(s.stripes[i]) + HowMany(run, Panicked(i))
    decreases |run|
  {
    if run != [] {
      FirstCounts(run, Returns(i));
      FirstCounts(run, Panicked(i));
      StepOutcome(s, run[0], i);
      StepInv(s, run[0]);
      RunOutcome(Step(s, run[0]), run[1..], i);
    }
  }

  /** In every run, at every moment: a stripe's `processed` is the number of its tasks that
      returned, less the one its worker is about to count; its `panics` likewise the number
      of its tasks that panicked. */
  lemma OutcomesAreCounted(hash: Key -> nat, stripeCount: int, queueSize: int, run: seq<Action>, i: nat)
    requires Feasible(New(hash, stripeCount, queueSize), run) && i < |New(hash, stripeCount, queueSize).stripes|
    ensures var s := After(New(hash, stripeCount, queueSize), run);
            && i < |s.stripes|
            && var p := s.stripes[i];
               && HowMany(run, Returns(i)) == p.processed + (if p.worker.AddingProcessed? then 1 else 0)
               && HowMany(run, Panicked(i)) == p.panics + (if p.worker.AddingPanic? then 1 else 0)
  {
    NewInv(hash, stripeCount, queueSize);
    RunOutcome(New(hash, stripeCount, queueSize), run, i);
  }

  lemma StepOutcomes(s: State, a: Action)
    requires Placed(s) && Enabled(s, a)
    ensures Sum(Step(s, a).stripes, Done) == Sum(s.stripes, Done) + if AnyReturn()(a) then 1 else 0
    ensures Sum(Step(s, a).stripes, Failing) == Sum(s.stripes, Failing) + if AnyPanic()(a) then 1 else 0
  {
    if a.Work? {
      var p := Labour(s.stripes[a.i], a.w);
      LabourOutcome(s.stripes[a.i], a.w);
      SumUpdate(s.stripes, a.i, p, Done);
      SumUpdate(s.stripes, a.i, p, Failing);
    } else {
      forall i | 0 <= i < |s.stripes|
        ensures |Step(s, a).stripes| == |s.stripes|
        ensures Done(Step(s, a).stripes[i]) == Done(s.stripes[i])
        ensures Failing(Step(s, a).stripes[i]) == Failing(s.stripes[i])
      {
        StepOutcome(s, a, i);
      }
      StepOutcome(s, a, 0);
      SumsAgree(s.stripes, Step(s, a).stripes);
    }
  }

  lemma {:induction false} SumsAgree(a: seq<Stripe>, b: seq<Stripe>)
    requires |a| == |b| && forall i :: 0 <= i < |a| ==> Done(b[i]) == Done(a[i]) && Failing(b[i]) == Failing(a[i])
    ensures Sum(b, Done) == Sum(a, Done) && Sum(b, Failing) == Sum(a, Failing)
  {
    if a != [] { SumsAgree(a[..|a| - 1], b[..|b| - 1]); }
  }

  lemma {:induction false} RunOutcomes(s: State, run: seq<Action>)
    requires Inv(s) && Feasible(s, run)
    ensures Sum(After(s, run).stripes, Done) == Sum(s.stripes, Done) + HowMany(run, AnyReturn())
    ensures Sum(After(s, run).stripes, Failing) == Sum(s.stripes, Failing) + HowMany(run, AnyPanic())
    decreases |run|
  {
    if run != [] {
      FirstCounts(run, AnyReturn());
      FirstCounts(run, AnyPanic());
      StepOutcomes(s, run[0]);
      StepInv(s, run[0]);
      RunOutcomes(Step(s, run[0]), run[1..]);
    }
  }

  lemma {:induction false} AtRestSums(stripes: seq<Stripe>)
    requires forall p :: p in stripes ==> p.worker.Idle? || Gone(p.worker)
    ensures Sum(stripes, Done) == Sum(stripes, Processed) && Sum(stripes, Failing) == Sum(stripes, Panics)
  {
    if stripes != [] { AtRestSums(stripes[..|stripes| - 1]); }
  }

  /** And at rest the pool's totals are exactly the tasks that returned and the tasks that
      panicked. */
  lemma TotalsAreOutcomes(hash: Key -> nat, stripeCount: int, queueSize: int, run: seq<Action>)
    requires Feasible(New(hash, stripeCount, queueSize), run) && AtRest(After(New(hash, stripeCount, queueSize), run))
    ensures var s := After(New(hash, stripeCount, queueSize), run);
            s.totalProcessed == HowMany(run, AnyReturn()) && s.totalPanics == HowMany(run, AnyPanic())
  {
    var s0 := New(hash, stripeCount, queueSize);
    NewInv(hash, stripeCount, queueSize);
    NewCounted(hash, stripeCount, queueSize);
    RunInv(s0, run);
    RunCounted(s0, run);
    ExactAtRest(After(s0, run));
    AtRestSums(After(s0, run).stripes);
    SumZero(s0.stripes, Done);
    SumZero(s0.stripes, Failing);
    RunOutcomes(s0, run);
  }

  // ----- how calls end -----

  /** The step that ends a call with this outcome. */
  ghost predicate Ends(c: CallStep, o: Outcome) {
    match o
    case Accepted => c.Send? || c.HandOff?
    case ContextEnded => c.SeeContext?
    case PoolClosed => c.SeeStopped?
    case SentOnClosed => c.SendOnClosed?
  }

  ghost function EndsWith(o: Outcome): Action -> bool { (a: Action) => a.Call? && Ends(a.c, o) }

  ghost function HasOutcome(o: Outcome): Caller -> bool { (c: Caller) => c.Done? && c.outcome == o }

  lemma CallEnds(s: State, t: Task, c: CallStep, o: Outcome)
    requires CallEnabled(s, t, c)
    ensures Count(DoCall(s, t, c).calls, HasOutcome(o)) ==
            Count(s.calls, HasOutcome(o)) + if Ends(c, o) then 1 else 0
  {
    CountUpdate(s.calls, t, NextCaller(s, t, c), HasOutcome(o));
  }

  lemma StepEnds(s: State, a: Action, o: Outcome)
    requires Enabled(s, a)
    ensures Count(Step(s, a).calls, HasOutcome(o)) == Count(s.calls, HasOutcome(o)) + if EndsWith(o)(a) then 1 else 0
  {
    if a.Call? {
      CallEnds(s, a.t, a.c, o);
    } else if a.Begin? {
      CountUpdate(s.calls, a.t, if s.closed then TurnedAway else Choosing, HasOutcome(o));
    } else {
      assert Step(s, a).calls == s.calls;
    }
  }

  lemma {:induction false} RunEnds(s: State, run: seq<Action>, o: Outcome)
    requires Feasible(s, run)
    ensures Count(After(s, run).calls, HasOutcome(o)) == Count(s.calls, HasOutcome(o)) + HowMany(run, EndsWith(o))
    decreases |run|
  {
    if run != [] {
      FirstCounts(run, EndsWith(o));
      StepEnds(s, run[0], o);
      RunEnds(Step(s, run[0]), run[1..], o);
    }
  }

  /** A call returns nil for each send, the context's error for each context seen to have
      ended, "closed" for each stop seen, and panics for each send on a closed queue. */
  lemma OutcomesAreWhatHappened(hash: Key -> nat, stripeCount: int, queueSize: int, run: seq<Action>, o: Outcome)
    requires Feasible(New(hash, stripeCount, queueSize), run)
    ensures Count(After(New(hash, stripeCount, queueSize), run).calls, HasOutcome(o)) == HowMany(run, EndsWith(o))
  {
    CountZero(New(hash, stripeCount, queueSize).calls, HasOutcome(o));
    RunEnds(New(hash, stripeCount, queueSize), run, o);
  }

  // ----- the stripe of a keyless submission -----

  ghost function CountsTotal(): Action -> bool { (a: Action) => a.Call? && a.c.AddTotal? }

  lemma StepTotal(s: State, a: Action)
    requires Enabled(s, a)
    ensures Step(s, a).totalSubmitted == s.totalSubmitted + if CountsTotal()(a) then 1 else 0
    ensures |Step(s, a).stripes| == |s.stripes| && Step(s, a).capacity == s.capacity && Step(s, a).hash == s.hash
  {
  }

  lemma {:induction false} RunTotal(s: State, run: seq<Action>)
    requires Feasible(s, run)
    ensures var t := After(s, run);
            && t.totalSubmitted == s.totalSubmitted + HowMany(run, CountsTotal())
            && |t.stripes| == |s.stripes| && t.capacity == s.capacity && t.hash == s.hash
    decreases |run|
  {
    if run != [] {
      FirstCounts(run, CountsTotal());
      StepTotal(s, run[0]);
      RunTotal(Step(s, run[0]), run[1..]);
    }
  }

  /** Stripes and buffers are as many and as large as asked for, but at least one stripe and
      no negative buffer; a keyless submission goes to the stripe whose turn it is, turns
      being counted by the submissions already counted; a keyed one by its hash. */
  lemma StripeIsChosen(hash: Key -> nat, stripeCount: int, queueSize: int, run: seq<Action>, t: Task)
    requires Feasible(New(hash, stripeCount, queueSize), run)
    requires Enabled(After(New(hash, stripeCount, queueSize), run), Action.Call(t, Choose))
    ensures var s := After(New(hash, stripeCount, queueSize), run);
            var n := if stripeCount >= 1 then stripeCount else 1;
            && |s.stripes| == n && s.capacity == (if queueSize >= 0 then queueSize else 0)
            && Step(s, Action.Call(t, Choose)).calls[t] ==
               AddingStripe(Entry(t, (if t.key == [] then HowMany(run, CountsTotal()) else hash(t.key)) % n))
  {
    RunTotal(New(hash, stripeCount, queueSize), run);
  }

  // ----- blocking -----

  ghost predicate NotContext(c: CallStep) { c.Send? || c.HandOff? || c.SendOnClosed? || c.SeeStopped? }

  /** A submission at its select, its own context apart, blocks exactly when the pool and the
      stripe's queue are open, the queue is full, and the stripe's worker is not waiting at
      an empty queue. */
  lemma SubmissionBlocksExactly(s: State, t: Task)
    requires Inv(s) && t in s.calls && s.calls[t].Selecting?
    ensures s.calls[t].e.stripe < |s.stripes|
    ensures var p := s.stripes[s.calls[t].e.stripe];
            (forall c :: NotContext(c) ==> !CallEnabled(s, t, c)) <==>
            && !s.closed && !p.closed && |p.queue| == s.capacity
            && !(p.queue == [] && p.worker.Idle?)
  {
    assert EntryOf(s.calls[t]) == [s.calls[t].e];
    var i := s.calls[t].e.stripe;
    assert StripeFifo(s, i);
    if forall c :: NotContext(c) ==> !CallEnabled(s, t, c) {
      assert NotContext(Send) && NotContext(HandOff) && NotContext(SendOnClosed) && NotContext(SeeStopped);
    }
  }

  /** A submission before its select never blocks. */
  lemma SubmissionWalksOn(s: State, t: Task)
    requires Inv(s) && t in s.calls && !s.calls[t].TurnedAway? && !s.calls[t].Selecting? && !s.calls[t].Done?
    ensures CallEnabled(s, t, if s.calls[t].Choosing? then Choose
                              else if s.calls[t].AddingStripe? then AddStripe else AddTotal)
  {
    if !s.calls[t].Choosing? { assert EntryOf(s.calls[t]) == [s.calls[t].e]; }
  }

  /** An ended context always gets a submission out of its select, and a call always gets
      past its closed check or is turned away there. */
  lemma ContextIsAlwaysSeen(s: State, t: Task)
    requires Inv(s)
    ensures t in s.calls && s.calls[t].Selecting? ==> CallEnabled(s, t, SeeContext)
    ensures t !in s.calls ==>
              Enabled(s, Begin(t)) && Step(s, Begin(t)).calls[t] == (if s.closed then TurnedAway else Choosing)
  {
    if t in s.calls && s.calls[t].Selecting? { assert EntryOf(s.calls[t]) == [s.calls[t].e]; }
  }

  lemma {:induction false} FailsOnlyOnTimeout(s: State, run: seq<Action>)
    requires Feasible(s, run) && (s.drain == Returned(false) ==> s.stopContextDone)
    ensures After(s, run).drain == Returned(false) ==> After(s, run).stopContextDone
    decreases |run|
  {
    if run != [] {
      StepFails(s, run[0]);
      FailsOnlyOnTimeout(Step(s, run[0]), run[1..]);
    }
  }

  lemma StepFails(s: State, a: Action)
    requires Enabled(s, a) && (s.drain == Returned(false) ==> s.stopContextDone)
    ensures Step(s, a).drain == Returned(false) ==> Step(s, a).stopContextDone
  {
  }

  /** `DrainAndStop` fails only when its context has ended. */
  lemma DrainFailsOnlyOnTimeout(hash: Key -> nat, stripeCount: int, queueSize: int, run: seq<Action>)
    requires Feasible(New(hash, stripeCount, queueSize), run)
    ensures After(New(hash, stripeCount, queueSize), run).drain == Returned(false) ==>
              After(New(hash, stripeCount, queueSize), run).stopContextDone
  {
    FailsOnlyOnTimeout(New(hash, stripeCount, queueSize), run);
  }

  lemma StepFlags(s: State, a: Action)
    requires Enabled(s, a)
    ensures Step(s, a).startContextDone <==> s.startContextDone || a == StartContextEnds
    ensures Step(s, a).stopContextDone <==> s.stopContextDone || a == StopContextEnds
    ensures Step(s, a).started <==> s.started || a == Start
    ensures Step(s, a).closed <==> s.closed || a == DrainCall
  {
  }

  /** Contexts have ended, the pool is started and closed, exactly when that has happened in
      the run. */
  lemma {:induction false} FlagsExactly(s: State, run: seq<Action>)
    requires Feasible(s, run)
    ensures After(s, run).startContextDone <==> s.startContextDone || StartContextEnds in run
    ensures After(s, run).stopContextDone <==> s.stopContextDone || StopContextEnds in run
    ensures After(s, run).started <==> s.started || Start in run
    ensures After(s, run).closed <==> s.closed || DrainCall in run
    decreases |run|
  {
    if run != [] {
      StepFlags(s, run[0]);
      FlagsExactly(Step(s, run[0]), run[1..]);
      assert run == [run[0]] + run[1..];
    }
  }

  /** A stripe's worker blocks exactly when it was never started or has returned, or waits at
      an open empty queue with neither its own nor the start context ended. */
  lemma WorkerBlocksExactly(s: State, i: nat)
    requires i < |s.stripes|
    ensures var p := s.stripes[i];
            (forall w :: !WorkEnabled(s, i, w)) <==>
            || p.worker.Unborn? || p.worker.Exited?
            || (p.worker.Idle? && p.queue == [] && !p.closed && !p.cancelled && !s.startContextDone)
  {
    var p := s.stripes[i];
    var w := match p.worker
      case Running(_) => Return
      case AddingProcessed => AddOutcome
      case AddingPanic => AddOutcome
      case AddingTotalProcessed => AddTotalOutcome
      case AddingTotalPanic => AddTotalOutcome
      case _ => if p.queue != [] then Take else if p.closed then LeaveOnClosed else LeaveOnContext;
    if p.worker.Unborn? || p.worker.Exited? {
    } else if WorkEnabled(s, i, w) {
    } else {
      assert !WorkEnabled(s, i, Take) && !WorkEnabled(s, i, LeaveOnContext) && !WorkEnabled(s, i, LeaveOnClosed);
    }
  }

  /** A started drain waits only for a worker that has not returned, and with the stop context
      ended not even for that. */
  lemma DrainBlocksExactly(s: State)
    requires !s.drain.NotCalled? && !s.drain.Returned?
    ensures !Enabled(s, DrainNext) <==>
            && s.drain.Awaiting? && s.drain.j < |s.stripes|
            && !s.stripes[s.drain.j].worker.Unborn? && !s.stripes[s.drain.j].worker.Exited?
    ensures s.stopContextDone && (s.drain.Scanning? || s.drain.Awaiting?) ==>
              Enabled(s, DrainForce) || Enabled(s, DrainGiveUp)
  {
  }
}
