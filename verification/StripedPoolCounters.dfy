/** The counters of pkg/pool/striped_pool.go: each is bumped one atomic at a time, so the
    per-stripe and pool-wide values drift apart mid-flight.  The gaps are exactly the
    goroutines caught between two increments, and they close when the pool is at rest. */
module StripedPoolCounters {
  import opened Sequences
  import opened Tasks
  import opened StripedPool

  ghost function Submitted(p: Stripe): int { p.submitted }
  ghost function Processed(p: Stripe): int { p.processed }
  ghost function Panics(p: Stripe): int { p.panics }
  ghost function BetweenProcessed(p: Stripe): int { if p.worker.AddingTotalProcessed? then 1 else 0 }
  ghost function BetweenPanics(p: Stripe): int { if p.worker.AddingTotalPanic? then 1 else 0 }

  /** A task has ended but is not in `s.processed` or `s.panics` yet. */
  ghost function Uncounted(p: Stripe): int {
    if p.worker.AddingProcessed? || p.worker.AddingPanic? then 1 else 0
  }

  ghost predicate BetweenSubmitted(c: Caller) { c.AddingTotal? }

  ghost predicate SentTo(c: Caller, i: nat) {
    (c.AddingTotal? || c.Selecting? || c.Done?) && c.e.stripe == i
  }

  /** Counted by stripe `i`, and not decided yet. */
  ghost function Undecided(i: nat): Caller -> bool {
    (c: Caller) => SentTo(c, i) && !c.Done?
  }

  /** Counted by stripe `i`, and turned down. */
  ghost function Failed(i: nat): Caller -> bool {
    (c: Caller) => SentTo(c, i) && c.Done? && c.outcome != Accepted
  }

  ghost predicate Totals(s: State) {
    && Sum(s.stripes, Submitted) == s.totalSubmitted + Count(s.calls, BetweenSubmitted)
    && Sum(s.stripes, Processed) == s.totalProcessed + Sum(s.stripes, BetweenProcessed)
    && Sum(s.stripes, Panics) == s.totalPanics + Sum(s.stripes, BetweenPanics)
    && |s.ended| == Sum(s.stripes, Processed) + Sum(s.stripes, Panics) + Sum(s.stripes, Uncounted)
  }

  ghost predicate Decided(s: State, i: nat)
    requires i < |s.stripes|
  {
    s.stripes[i].submitted ==
      |Select(s.accepted, OnStripe(i))| + Count(s.calls, Failed(i)) + Count(s.calls, Undecided(i))
  }

  ghost predicate StripeCounts(s: State, i: nat)
    requires i < |s.stripes|
  {
    var p := s.stripes[i];
    && Decided(s, i)
    && |Select(s.ended, OnStripe(i))| == p.processed + p.panics + Uncounted(p)
  }

  ghost predicate Counted(s: State) {
    Totals(s) && forall i :: 0 <= i < |s.stripes| ==> StripeCounts(s, i)
  }

  lemma NewCounted(hash: Key -> nat, stripeCount: int, queueSize: int)
    ensures Counted(New(hash, stripeCount, queueSize))
  {
    var s := New(hash, stripeCount, queueSize);
    SumZero(s.stripes, Submitted);
    SumZero(s.stripes, Processed);
    SumZero(s.stripes, Panics);
    SumZero(s.stripes, BetweenProcessed);
    SumZero(s.stripes, BetweenPanics);
    SumZero(s.stripes, Uncounted);
    CountZero(s.calls, BetweenSubmitted);
    forall i | 0 <= i < |s.stripes| ensures StripeCounts(s, i) {
      CountZero(s.calls, Failed(i));
      CountZero(s.calls, Undecided(i));
    }
  }

  /** Replacing one stripe moves every sum by that stripe's difference. */
  lemma SumsUpdate(stripes: seq<Stripe>, i: nat, p: Stripe)
    requires i < |stripes|
    ensures Sum(stripes[i := p], Submitted) == Sum(stripes, Submitted) - Submitted(stripes[i]) + Submitted(p)
    ensures Sum(stripes[i := p], Processed) == Sum(stripes, Processed) - Processed(stripes[i]) + Processed(p)
    ensures Sum(stripes[i := p], Panics) == Sum(stripes, Panics) - Panics(stripes[i]) + Panics(p)
    ensures Sum(stripes[i := p], BetweenProcessed)
            == Sum(stripes, BetweenProcessed) - BetweenProcessed(stripes[i]) + BetweenProcessed(p)
    ensures Sum(stripes[i := p], BetweenPanics)
            == Sum(stripes, BetweenPanics) - BetweenPanics(stripes[i]) + BetweenPanics(p)
    ensures Sum(stripes[i := p], Uncounted) == Sum(stripes, Uncounted) - Uncounted(stripes[i]) + Uncounted(p)
  {
    SumUpdate(stripes, i, p, Submitted);
    SumUpdate(stripes, i, p, Processed);
    SumUpdate(stripes, i, p, Panics);
    SumUpdate(stripes, i, p, BetweenProcessed);
    SumUpdate(stripes, i, p, BetweenPanics);
    SumUpdate(stripes, i, p, Uncounted);
  }

  lemma CallCounted(s: State, t: Task, c: CallStep)
    requires Inv(s) && Counted(s) && CallEnabled(s, t, c)
    ensures Counted(DoCall(s, t, c))
  {
    CallTotals(s, t, c);
    forall i | 0 <= i < |s.stripes| ensures StripeCounts(DoCall(s, t, c), i) {
      assert StripeCounts(s, i);
      CallStripeCounts(s, t, c, i);
    }
  }

  lemma CallTotals(s: State, t: Task, c: CallStep)
    requires Placed(s) && Totals(s) && CallEnabled(s, t, c)
    ensures Totals(DoCall(s, t, c))
  {
    var next := NextCaller(s, t, c);
    CountUpdate(s.calls, t, next, BetweenSubmitted);
    if Accepts(c) || c.AddStripe? {
      SumsUpdate(s.stripes, next.e.stripe, Touch(s.stripes[next.e.stripe], c, next.e));
    }
  }

  lemma CallDecided(s: State, t: Task, c: CallStep, i: nat)
    requires CallEnabled(s, t, c) && i < |s.stripes| && Decided(s, i)
    ensures Decided(DoCall(s, t, c), i)
  {
    var next, s' := NextCaller(s, t, c), DoCall(s, t, c);
    CountUpdate(s.calls, t, next, Failed(i));
    CountUpdate(s.calls, t, next, Undecided(i));
    var on := OnStripe(i);
    if Accepts(c) {
      SelectAppend(s.accepted, next.e, on);
      assert |Select(s'.accepted, on)| == |Select(s.accepted, on)| + if next.e.stripe == i then 1 else 0;
    }
    assert s'.stripes[i].submitted == s.stripes[i].submitted + if c.AddStripe? && next.e.stripe == i then 1 else 0;
  }

  lemma CallStripeCounts(s: State, t: Task, c: CallStep, i: nat)
    requires CallEnabled(s, t, c) && i < |s.stripes| && StripeCounts(s, i)
    ensures StripeCounts(DoCall(s, t, c), i)
  {
    CallDecided(s, t, c, i);
  }

  lemma WorkStripeCounts(s: State, j: nat, w: WorkStep, i: nat)
    requires WorkEnabled(s, j, w) && i < |s.stripes| && StripeCounts(s, i) && StripeFifo(s, j)
    ensures StripeCounts(DoWork(s, j, w), i)
  {
    if w.Return? || w.Panic? {
      SelectAppend(s.ended, s.stripes[j].worker.e, OnStripe(i));
    }
  }

  lemma WorkTotals(s: State, j: nat, w: WorkStep)
    requires Totals(s) && WorkEnabled(s, j, w)
    ensures Totals(DoWork(s, j, w))
  {
    SumsUpdate(s.stripes, j, Labour(s.stripes[j], w));
  }

  lemma WorkCounted(s: State, j: nat, w: WorkStep)
    requires Inv(s) && Counted(s) && WorkEnabled(s, j, w)
    ensures Counted(DoWork(s, j, w))
  {
    WorkTotals(s, j, w);
    forall i | 0 <= i < |s.stripes| ensures StripeCounts(DoWork(s, j, w), i) {
      assert StripeCounts(s, i) && StripeFifo(s, j);
      WorkStripeCounts(s, j, w, i);
    }
  }

  lemma ControlTotals(s: State, a: Action)
    requires Placed(s) && Totals(s) && Enabled(s, a) && !a.Call? && !a.Work?
    ensures Totals(Step(s, a))
  {
    var s' := Step(s, a);
    if a.Begin? {
      CountUpdate(s.calls, a.t, s'.calls[a.t], BetweenSubmitted);
    } else if a.Start? {
      SumsSpawned(s.stripes);
    } else if a.DrainNext? {
      DrainTotals(s);
    }
  }

  lemma DrainTotals(s: State)
    requires Totals(s) && Enabled(s, DrainNext)
    ensures Totals(DoDrain(s))
  {
    var d := s.drain;
    if d.Closing? && d.j < |s.stripes| {
      SumsKept(s.stripes, d.j, s.stripes[d.j].(closed := true));
    } else if d.Cancelling? && d.j < |s.stripes| {
      SumsKept(s.stripes, d.j, s.stripes[d.j].(cancelled := s.started));
    }
  }

  /** Closing or cancelling a stripe changes no count. */
  lemma SumsKept(stripes: seq<Stripe>, i: nat, p: Stripe)
    requires i < |stripes| && p == stripes[i].(closed := p.closed, cancelled := p.cancelled)
    ensures Sum(stripes[i := p], Submitted) == Sum(stripes, Submitted)
    ensures Sum(stripes[i := p], Processed) == Sum(stripes, Processed)
    ensures Sum(stripes[i := p], Panics) == Sum(stripes, Panics)
    ensures Sum(stripes[i := p], BetweenProcessed) == Sum(stripes, BetweenProcessed)
    ensures Sum(stripes[i := p], BetweenPanics) == Sum(stripes, BetweenPanics)
    ensures Sum(stripes[i := p], Uncounted) == Sum(stripes, Uncounted)
  {
    SumsUpdate(stripes, i, p);
  }

  lemma ControlStripeCounts(s: State, a: Action, i: nat)
    requires Placed(s) && Enabled(s, a) && !a.Call? && !a.Work? && i < |s.stripes| && StripeCounts(s, i)
    ensures StripeCounts(Step(s, a), i)
  {
    if a.Begin? {
      BeginStripeCounts(s, a.t, i);
    } else if a.DrainNext? {
      DrainStripeCounts(s, i);
    }
  }

  lemma BeginStripeCounts(s: State, t: Task, i: nat)
    requires Enabled(s, Begin(t)) && i < |s.stripes| && StripeCounts(s, i)
    ensures StripeCounts(Step(s, Begin(t)), i)
  {
    CountUpdate(s.calls, t, Step(s, Begin(t)).calls[t], Failed(i));
    CountUpdate(s.calls, t, Step(s, Begin(t)).calls[t], Undecided(i));
  }

  lemma DrainStripeCounts(s: State, i: nat)
    requires Enabled(s, DrainNext) && i < |s.stripes| && StripeCounts(s, i)
    ensures StripeCounts(DoDrain(s), i)
  {
  }

  lemma ControlCounted(s: State, a: Action)
    requires Inv(s) && Counted(s) && Enabled(s, a) && !a.Call? && !a.Work?
    ensures Counted(Step(s, a))
  {
    ControlTotals(s, a);
    forall i | 0 <= i < |s.stripes| ensures StripeCounts(Step(s, a), i) {
      assert StripeCounts(s, i);
      ControlStripeCounts(s, a, i);
    }
  }

  lemma {:induction false} SumsSpawned(stripes: seq<Stripe>)
    requires forall i :: 0 <= i < |stripes| ==> stripes[i].worker.Unborn?
    ensures Sum(Spawned(stripes), Submitted) == Sum(stripes, Submitted)
    ensures Sum(Spawned(stripes), Processed) == Sum(stripes, Processed)
    ensures Sum(Spawned(stripes), Panics) == Sum(stripes, Panics)
    ensures Sum(Spawned(stripes), BetweenProcessed) == Sum(stripes, BetweenProcessed)
    ensures Sum(Spawned(stripes), BetweenPanics) == Sum(stripes, BetweenPanics)
    ensures Sum(Spawned(stripes), Uncounted) == Sum(stripes, Uncounted)
  {
    if stripes != [] {
      var k := |stripes| - 1;
      SumsSpawned(stripes[..k]);
      assert Spawned(stripes)[..k] == Spawned(stripes[..k]);
    }
  }

  lemma {:induction false} RunCounted(s: State, run: seq<Action>)
    requires Inv(s) && Counted(s) && Feasible(s, run)
    ensures Counted(After(s, run))
    decreases |run|
  {
    if run != [] {
      match run[0] {
        case Call(t, c) => CallCounted(s, t, c);
        case Work(j, w) => WorkCounted(s, j, w);
        case _ => ControlCounted(s, run[0]);
      }
      StepInv(s, run[0]);
      RunCounted(Step(s, run[0]), run[1..]);
    }
  }

  // ----- the promises -----

  ghost function Busy(p: Stripe): int { if p.worker.Running? then 1 else 0 }

  /** Loosely consistent counters, at every interleaving: the pool-wide counters lag the
      per-stripe sums by exactly the goroutines between the two increments, and each
      stripe's books balance. */
  lemma LooselyConsistent(hash: Key -> nat, stripeCount: int, queueSize: int, run: seq<Action>)
    requires Feasible(New(hash, stripeCount, queueSize), run)
    ensures var s := After(New(hash, stripeCount, queueSize), run);
            && s.totalSubmitted <= Sum(s.stripes, Submitted) == s.totalSubmitted + Count(s.calls, BetweenSubmitted)
            && s.totalProcessed <= Sum(s.stripes, Processed) == s.totalProcessed + Sum(s.stripes, BetweenProcessed)
            && s.totalPanics <= Sum(s.stripes, Panics) == s.totalPanics + Sum(s.stripes, BetweenPanics)
            && forall i :: 0 <= i < |s.stripes| ==>
                 var p, enqueued := s.stripes[i], |Select(s.accepted, OnStripe(i))|;
                 && p.submitted == enqueued + Count(s.calls, Failed(i)) + Count(s.calls, Undecided(i))
                 && enqueued == p.processed + p.panics + Uncounted(p) + Busy(p) + |p.queue|
  {
    var s := After(New(hash, stripeCount, queueSize), run);
    NewInv(hash, stripeCount, queueSize);
    NewCounted(hash, stripeCount, queueSize);
    RunInv(New(hash, stripeCount, queueSize), run);
    RunCounted(New(hash, stripeCount, queueSize), run);
    SumNonNegative(s.stripes, BetweenProcessed);
    SumNonNegative(s.stripes, BetweenPanics);
    forall i | 0 <= i < |s.stripes|
      ensures var p, enqueued := s.stripes[i], |Select(s.accepted, OnStripe(i))|;
              && p.submitted == enqueued + Count(s.calls, Failed(i)) + Count(s.calls, Undecided(i))
              && enqueued == p.processed + p.panics + Uncounted(p) + Busy(p) + |p.queue|
    {
      assert StripeCounts(s, i) && StripeFifo(s, i);
    }
  }

  /** No call between its increments and no worker mid-task or mid-update. */
  ghost predicate AtRest(s: State) {
    && (forall t :: t in s.calls ==> s.calls[t].TurnedAway? || s.calls[t].Done?)
    && (forall i :: 0 <= i < |s.stripes| ==>
        s.stripes[i].queue == [] && (s.stripes[i].worker.Idle? || Gone(s.stripes[i].worker)))
  }

  /** At rest every gap is closed: the totals are the sums, each stripe has counted
      exactly its accepted and failed submissions, and processed + panics is exactly the
      number of tasks it accepted. */
  lemma ExactAtRest(s: State)
    requires Inv(s) && Counted(s) && AtRest(s)
    ensures s.totalSubmitted == Sum(s.stripes, Submitted)
    ensures s.totalProcessed == Sum(s.stripes, Processed) && s.totalPanics == Sum(s.stripes, Panics)
    ensures s.totalProcessed + s.totalPanics == |s.ended|
    ensures forall i :: 0 <= i < |s.stripes| ==>
              var p, enqueued := s.stripes[i], |Select(s.accepted, OnStripe(i))|;
              p.processed + p.panics == enqueued && p.submitted == enqueued + Count(s.calls, Failed(i))
  {
    CountZero(s.calls, BetweenSubmitted);
    SumZero(s.stripes, BetweenProcessed);
    SumZero(s.stripes, BetweenPanics);
    SumZero(s.stripes, Uncounted);
    forall i | 0 <= i < |s.stripes|
      ensures var p, enqueued := s.stripes[i], |Select(s.accepted, OnStripe(i))|;
              p.processed + p.panics == enqueued && p.submitted == enqueued + Count(s.calls, Failed(i))
    {
      assert StripeCounts(s, i) && StripeFifo(s, i);
      CountZero(s.calls, Undecided(i));
    }
  }
}
