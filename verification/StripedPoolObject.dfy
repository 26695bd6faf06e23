/** pkg/pool/striped_pool.go in its own, imperative form.  Each method is what one goroutine
    does between two points at which others may run, and is proved to be exactly one step
    of the `StripedPool` step system; loops over the stripes are proved as loops. */
module StripedPoolObject {
  import opened Sequences
  import opened Tasks
  import opened RoutingTable
  import SP = StripedPool

  class Stripe {
    const id: nat
    var queue: seq<SP.Entry>
    var closed: bool
    var cancelled: bool
    var submitted: nat
    var processed: nat
    var panics: nat
    var worker: SP.Worker   // where the goroutine stands

    ghost function View(): SP.Stripe
      reads this
    {
      SP.Stripe(queue, closed, cancelled, submitted, processed, panics, worker)
    }

    constructor (id: nat)
      ensures this.id == id && View() == SP.Stripe([], false, false, 0, 0, 0, SP.Unborn)
    {
      this.id := id;
      queue, closed, cancelled, submitted, processed, panics, worker := [], false, false, 0, 0, 0, SP.Unborn;
    }
  }

  ghost function Views(stripes: seq<Stripe>): (r: seq<SP.Stripe>)
    reads stripes
    ensures |r| == |stripes|
  {
    seq(|stripes|, i requires 0 <= i < |stripes| reads stripes => stripes[i].View())
  }

  ghost predicate Distinct(stripes: seq<Stripe>) {
    forall i, j :: 0 <= i < j < |stripes| ==> stripes[i] != stripes[j]
  }

  datatype StripeMetrics =
    StripeMetrics(id: nat, submitted: nat, processed: nat, panics: nat, queueSize: nat, capacity: nat)

  datatype PoolMetrics = PoolMetrics(
    size: nat, queueDepth: nat, queueCapacity: nat, processed: nat, submitted: nat, panics: nat,
    stripes: seq<StripeMetrics>)

  ghost function Depth(p: SP.Stripe): int { |p.queue| }

  class Pool {
    const hash: Key -> nat
    const capacity: nat
    const count: nat
    var stripes: seq<Stripe>
    var started: bool
    var closed: bool
    var startContextDone: bool
    var stopContextDone: bool
    var totalSubmitted: nat
    var totalProcessed: nat
    var totalPanics: nat

    // where each goroutine stands
    var calls: map<Task, SP.Caller>
    var drain: SP.Drain
    ghost var lateReturns: nat

    ghost var accepted: seq<SP.Entry>
    ghost var begun: seq<SP.Entry>
    ghost var ended: seq<SP.Entry>

    ghost predicate Valid()
      reads this
    {
      Distinct(stripes) && count == |stripes| > 0
    }

    ghost function View(): SP.State
      reads this, stripes
    {
      SP.State(hash, capacity, Views(stripes), started, closed, startContextDone, stopContextDone,
               totalSubmitted, totalProcessed, totalPanics, calls, drain, lateReturns, accepted, begun, ended)
    }

    /** `NewStripedPool`. */
    constructor (hash: Key -> nat, stripeCount: int, queueSizePerStripe: int)
      ensures Valid() && fresh(stripes) && View() == SP.New(hash, stripeCount, queueSizePerStripe)
      ensures SP.Inv(View())
    {
      this.hash := hash;
      this.capacity := if queueSizePerStripe < 0 then 0 else queueSizePerStripe;
      this.count := if stripeCount <= 0 then 1 else stripeCount;
      stripes, started, closed, startContextDone, stopContextDone := [], false, false, false, false;
      totalSubmitted, totalProcessed, totalPanics, calls, drain := 0, 0, 0, map[], SP.NotCalled;
      lateReturns, accepted, begun, ended := 0, [], [], [];
      new;
      for i := 0 to count
        invariant |stripes| == i && Distinct(stripes) && fresh(stripes)
        invariant View() == SP.New(hash, stripeCount, queueSizePerStripe).(stripes := Views(stripes))
        invariant forall j :: 0 <= j < i ==> Views(stripes)[j] == SP.Stripe([], false, false, 0, 0, 0, SP.Unborn)
      {
        ghost var before := Views(stripes);
        var s := new Stripe(i);
        stripes := stripes + [s];
        assert Views(stripes) == before + [s.View()];
      }
      assert Views(stripes) == SP.New(hash, stripeCount, queueSizePerStripe).stripes;
      SP.NewInv(hash, stripeCount, queueSizePerStripe);
    }

    /** `Start`: one goroutine a stripe, unless the pool has been closed. */
    method Start()
      requires Valid() && !started
      modifies this, stripes
      ensures Valid() && stripes == old(stripes)
      ensures View() == if old(closed) then old(View()) else SP.Step(old(View()), SP.Start)
    {
      if closed {
        return;
      }
      started := true;
      for i := 0 to |stripes|
        invariant Valid() && stripes == old(stripes)
        invariant View() == old(View()).(started := true, stripes := Views(stripes))
        invariant forall j :: 0 <= j < i ==> Views(stripes)[j] == old(Views(stripes))[j].(worker := SP.Idle)
        invariant forall j :: i <= j < |stripes| ==> Views(stripes)[j] == old(Views(stripes))[j]
      {
        stripes[i].worker := SP.Idle;
      }
      assert Views(stripes) == SP.Spawned(old(Views(stripes)));
    }

    // ----- submitting -----

    /** The locked closed check that opens a submission. */
    method CheckClosed(t: Task) returns (open: bool)
      requires Valid() && t !in calls
      modifies this
      ensures Valid() && stripes == old(stripes)
      ensures open == !old(closed) && View() == SP.Step(old(View()), SP.Begin(t))
    {
      open := !closed;
      calls := calls[t := if closed then SP.TurnedAway else SP.Choosing];
    }

    /** `selectStripe`; the keyless case reads a counter, so it may differ from call to
        call, and the keyed case may not. */
    method SelectStripe(key: Key) returns (idx: nat)
      requires Valid()
      ensures idx < count
      ensures forall t: Task :: t.key == key ==> idx == SP.StripeFor(View(), t)
      ensures idx == (if key == [] then totalSubmitted else hash(key)) % count
    {
      if |key| == 0 {
        return totalSubmitted % count;
      }
      idx := hash(key) % count;
    }

    method Choose(t: Task)
      requires Valid() && SP.CallEnabled(View(), t, SP.Choose)
      modifies this
      ensures Valid() && stripes == old(stripes)
      ensures View() == SP.DoCall(old(View()), t, SP.Choose)
    {
      var idx := SelectStripe(t.key);
      calls := calls[t := SP.AddingStripe(SP.Entry(t, idx))];
    }

    /** The two atomic increments of `submitToStripe`. */
    method CountOnStripe(t: Task)
      requires Valid() && SP.CallEnabled(View(), t, SP.AddStripe)
      modifies this, stripes
      ensures Valid() && stripes == old(stripes)
      ensures View() == SP.DoCall(old(View()), t, SP.AddStripe)
    {
      var e := calls[t].e;
      var s := stripes[e.stripe];
      s.submitted := s.submitted + 1;
      calls := calls[t := SP.AddingTotal(e)];
      assert Views(stripes) == old(Views(stripes))[e.stripe := s.View()];
    }

    method CountOnPool(t: Task)
      requires Valid() && SP.CallEnabled(View(), t, SP.AddTotal)
      modifies this
      ensures Valid() && stripes == old(stripes)
      ensures View() == SP.DoCall(old(View()), t, SP.AddTotal)
    {
      totalSubmitted := totalSubmitted + 1;
      calls := calls[t := SP.Selecting(calls[t].e)];
    }

    /** The case that sends, to the buffer or straight to the blocked worker. */
    method TrySend(e: SP.Entry, toWorker: bool) returns (outcome: Option<SP.Outcome>)
      requires Valid() && e.stripe < |stripes|
      modifies stripes
      ensures var p := old(Views(stripes))[e.stripe];
              && outcome == (if p.closed then Some(SP.SentOnClosed)
                             else if toWorker then (if p.queue == [] && p.worker.Idle? then Some(SP.Accepted) else None)
                             else if |p.queue| < capacity then Some(SP.Accepted) else None)
              && View() == old(View()).(stripes := old(Views(stripes))[e.stripe :=
                   if outcome
                       == Some(SP.Accepted) then SP.Touch(p, if toWorker then SP.HandOff else SP.Send, e) else p])
    {
      var s := stripes[e.stripe];
      outcome := None;
      if s.closed {
        outcome := Some(SP.SentOnClosed);
      } else if toWorker {
        if s.queue == [] && s.worker.Idle? {
          s.worker := SP.Running(e);
          outcome := Some(SP.Accepted);
        }
      } else if |s.queue| < capacity {
        s.queue := s.queue + [e];
        outcome := Some(SP.Accepted);
      }
      assert Views(stripes) == old(Views(stripes))[e.stripe := s.View()];
    }

    /** The send cases of the select of `submitToStripe`; no result when the case is not
        ready.  A send on a closed queue panics in the caller. */
    method SelectSend(t: Task, toWorker: bool) returns (outcome: Option<SP.Outcome>)
      requires Valid() && SP.SelectingNow(View(), t)
      modifies this, stripes
      ensures Valid() && stripes == old(stripes)
      ensures var c := if old(stripes[calls[t].e.stripe].closed) then SP.SendOnClosed
                       else if toWorker then SP.HandOff else SP.Send;
              && (outcome.Some? <==> SP.CallEnabled(old(View()), t, c))
              && View() == if outcome.Some? then SP.DoCall(old(View()), t, c) else old(View())
      ensures outcome.Some? ==> t in calls && calls[t] == SP.Done(old(calls)[t].e, outcome.value)
    {
      var e := calls[t].e;
      outcome := TrySend(e, toWorker);
      if outcome.Some? {
        Finish(t, outcome.value, toWorker);
      }
    }

    /** The call returns (or panics); the logs take down an accepted entry. */
    method Finish(t: Task, outcome: SP.Outcome, toWorker: bool)
      requires t in calls && SP.EntryOf(calls[t]) != []
      modifies this`calls, this`accepted, this`begun
      ensures var e := old(calls)[t].e;
              View() == old(View()).(
                calls := old(calls)[t := SP.Done(e, outcome)],
                accepted := if outcome == SP.Accepted then old(accepted) + [e] else old(accepted),
                begun := if outcome == SP.Accepted && toWorker then old(begun) + [e] else old(begun))
    {
      var e := calls[t].e;
      calls := calls[t := SP.Done(e, outcome)];
      if outcome == SP.Accepted {
        accepted := accepted + [e];
        if toWorker { begun := begun + [e]; }
      }
    }

    /** Its other two cases: the caller's context has ended, or the pool is stopped. */
    method SelectRefusal(t: Task, stoppedCase: bool, contextDone: bool) returns (outcome: Option<SP.Outcome>)
      requires Valid() && SP.SelectingNow(View(), t)
      modifies this
      ensures Valid() && stripes == old(stripes)
      ensures var c := if stoppedCase then SP.SeeStopped else SP.SeeContext;
              && (outcome.Some? <==> SP.CallEnabled(old(View()), t, c) && (stoppedCase || contextDone))
              && View() == if outcome.Some? then SP.DoCall(old(View()), t, c) else old(View())
      ensures outcome.Some? ==> t in calls && calls[t] == SP.Done(old(calls)[t].e, outcome.value)
    {
      outcome := None;
      if stoppedCase && closed {
        outcome := Some(SP.PoolClosed);
      } else if !stoppedCase && contextDone {
        outcome := Some(SP.ContextEnded);
      }
      if outcome.Some? {
        Finish(t, outcome.value, false);
      }
    }

    // ----- a stripe's worker -----

    /** What the select of `runStripe` does: leave when a context has ended and that case is
        picked, else receive, or leave when the queue is closed and empty. */
    ghost function AtSelect(i: nat, seesContext: bool): SP.WorkStep
      reads this, stripes
      requires i < |stripes|
    {
      if seesContext then SP.LeaveOnContext else if stripes[i].queue != [] then SP.Take else SP.LeaveOnClosed
    }

    method RunStripeTurn(i: nat, seesContext: bool) returns (moved: bool)
      requires Valid() && i < |stripes| && stripes[i].worker.Idle?
      modifies this, stripes
      ensures Valid() && stripes == old(stripes)
      ensures moved <==> SP.WorkEnabled(old(View()), i, old(AtSelect(i, seesContext)))
      ensures View() == if moved then SP.DoWork(old(View()), i, old(AtSelect(i, seesContext))) else old(View())
    {
      var s := stripes[i];
      moved := true;
      if seesContext {
        moved := s.cancelled || startContextDone;
        if moved { s.worker := SP.Exited; }
      } else if s.queue != [] {
        s.worker, begun := SP.Running(s.queue[0]), begun + [s.queue[0]];
        s.queue := s.queue[1..];
      } else {
        moved := s.closed;
        if moved { s.worker := SP.Exited; }
      }
      assert Views(stripes) == old(Views(stripes))[i := s.View()];
    }

    /** `executeTask`: the task returns, or panics and is recovered. */
    method EndTask(i: nat, panics: bool)
      requires Valid() && i < |stripes| && stripes[i].worker.Running?
      modifies this, stripes
      ensures Valid() && stripes == old(stripes)
      ensures View() == SP.DoWork(old(View()), i, if panics then SP.Panic else SP.Return)
    {
      var s := stripes[i];
      ended := ended + [s.worker.e];
      s.worker := if panics then SP.AddingPanic else SP.AddingProcessed;
      assert Views(stripes) == old(Views(stripes))[i := s.View()];
    }

    /** The first increment that follows, on the stripe. */
    method CountOutcome(i: nat)
      requires Valid() && i < |stripes| && (stripes[i].worker.AddingProcessed? || stripes[i].worker.AddingPanic?)
      modifies this, stripes
      ensures Valid() && stripes == old(stripes)
      ensures View() == SP.DoWork(old(View()), i, SP.AddOutcome)
    {
      var s := stripes[i];
      if s.worker.AddingProcessed? {
        s.processed, s.worker := s.processed + 1, SP.AddingTotalProcessed;
      } else {
        s.panics, s.worker := s.panics + 1, SP.AddingTotalPanic;
      }
      assert Views(stripes) == old(Views(stripes))[i := s.View()];
    }

    /** And the second one, on the pool. */
    method CountTotalOutcome(i: nat)
      requires Valid() && i < |stripes|
      requires stripes[i].worker.AddingTotalProcessed? || stripes[i].worker.AddingTotalPanic?
      modifies this, stripes
      ensures Valid() && stripes == old(stripes)
      ensures View() == SP.DoWork(old(View()), i, SP.AddTotalOutcome)
    {
      var s := stripes[i];
      if s.worker.AddingTotalProcessed? {
        totalProcessed := totalProcessed + 1;
      } else {
        totalPanics := totalPanics + 1;
      }
      s.worker := SP.Idle;
      assert Views(stripes) == old(Views(stripes))[i := s.View()];
    }

    // ----- DrainAndStop -----

    /** The lock section that opens `DrainAndStop`: a call that finds the pool closed returns
        nil right here, any other goes on to drain. */
    method BeginDrain() returns (returnsNil: bool)
      requires Valid() && (closed <==> !drain.NotCalled?)
      modifies this
      ensures Valid() && stripes == old(stripes) && returnsNil == old(closed)
      ensures View() == SP.Step(old(View()), if returnsNil then SP.DrainAgain else SP.DrainCall)
    {
      if closed {
        lateReturns := lateReturns + 1;
        return true;
      }
      closed, drain := true, SP.Scanning(0);
      returnsNil := false;
    }

    /** Looks at one queue; starts over at the first one that is not empty. */
    method ScanTurn()
      requires Valid() && drain.Scanning?
      modifies this
      ensures Valid() && stripes == old(stripes)
      ensures View() == SP.DoDrain(old(View()))
    {
      var j := drain.j;
      var empty := j >= count || stripes[j].queue == [];
      assert empty <==> j >= count || Views(stripes)[j].queue == [];
      drain := if j >= count then SP.Closing(0) else if empty then SP.Scanning(j + 1) else SP.Scanning(0);
    }

    /** Closes one queue. */
    method CloseTurn()
      requires Valid() && drain.Closing?
      modifies this, stripes
      ensures Valid() && stripes == old(stripes)
      ensures View() == SP.DoDrain(old(View()))
    {
      var j := drain.j;
      if j >= count {
        drain := SP.Cancelling(0);
        return;
      }
      stripes[j].closed := true;
      drain := SP.Closing(j + 1);
      assert Views(stripes) == old(Views(stripes))[j := stripes[j].View()];
    }

    /** Cancels one stripe; there is something to cancel only if the pool was started. */
    method CancelTurn()
      requires Valid() && drain.Cancelling?
      modifies this, stripes
      ensures Valid() && stripes == old(stripes)
      ensures View() == SP.DoDrain(old(View()))
    {
      var j := drain.j;
      if j >= count {
        drain := SP.Awaiting(0);
        return;
      }
      stripes[j].cancelled := started;
      drain := SP.Cancelling(j + 1);
      assert Views(stripes) == old(Views(stripes))[j := stripes[j].View()];
    }

    /** Awaits one worker; no step while it runs. */
    method AwaitTurn() returns (moved: bool)
      requires Valid() && drain.Awaiting?
      modifies this
      ensures Valid() && stripes == old(stripes)
      ensures moved <==> SP.Enabled(old(View()), SP.DrainNext)
      ensures View() == if moved then SP.DoDrain(old(View())) else old(View())
    {
      var j := drain.j;
      moved := j >= count || stripes[j].worker.Unborn? || stripes[j].worker.Exited?;
      assert moved <==> j >= count || SP.Gone(Views(stripes)[j].worker);
      if moved {
        drain := if j >= count then SP.Returned(true) else SP.Awaiting(j + 1);
      }
    }

    /** The stop context has ended: the drain stops scanning, or stops waiting and fails. */
    method DrainTimesOut()
      requires Valid() && stopContextDone && (drain.Scanning? || drain.Awaiting?)
      modifies this
      ensures Valid() && stripes == old(stripes)
      ensures View() == SP.Step(old(View()), if old(drain).Scanning? then SP.DrainForce else SP.DrainGiveUp)
    {
      drain := if drain.Scanning? then SP.Closing(0) else SP.Returned(false);
    }

    /** One undisturbed pass of the emptiness scan. */
    method ScanOnce()
      requires Valid() && drain == SP.Scanning(0)
      modifies this
      ensures Valid() && stripes == old(stripes)
      ensures View() == old(View()).(drain := drain)
      ensures drain == if forall i :: 0 <= i < count ==>
              Views(stripes)[i].queue == [] then SP.Closing(0) else SP.Scanning(0)
    {
      for j := 0 to count
        invariant Valid() && stripes == old(stripes) && drain == SP.Scanning(j)
        invariant View() == old(View()).(drain := drain)
        invariant forall i :: 0 <= i < j ==> Views(stripes)[i].queue == []
      {
        ScanTurn();
        if drain == SP.Scanning(0) {
          return;
        }
      }
      ScanTurn();
    }

    /** The loop that closes every queue. */
    method CloseQueues()
      requires Valid() && drain == SP.Closing(0)
      modifies this, stripes
      ensures Valid() && stripes == old(stripes) && drain == SP.Cancelling(0)
      ensures View() == old(View()).(drain := drain, stripes := Views(stripes))
      ensures forall i :: 0 <= i < count ==> Views(stripes)[i] == old(Views(stripes))[i].(closed := true)
    {
      for j := 0 to count
        invariant Valid() && stripes == old(stripes) && drain == SP.Closing(j)
        invariant View() == old(View()).(drain := drain, stripes := Views(stripes))
        invariant forall i :: 0 <= i < j ==> Views(stripes)[i] == old(Views(stripes))[i].(closed := true)
        invariant forall i :: j <= i < count ==> Views(stripes)[i] == old(Views(stripes))[i]
      {
        CloseTurn();
      }
      CloseTurn();
    }

    // ----- metrics -----

    /** `GetMetrics`, undisturbed: the depths add up, each stripe reports its own counters
        under its own index, and the pool its own. */
    method GetMetrics() returns (m: PoolMetrics)
      requires Valid()
      ensures m.size == count && m.queueDepth == Sum(Views(stripes), Depth) && m.queueCapacity == count * capacity
      ensures m.processed == totalProcessed && m.submitted == totalSubmitted && m.panics == totalPanics
      ensures |m.stripes| == count
      ensures forall i :: 0 <= i < count ==>
                var p := stripes[i];
                m.stripes[i] == StripeMetrics(p.id, p.submitted, p.processed, p.panics, |p.queue|, capacity)
    {
      var queueDepth: nat, queueCapacity: nat := 0, 0;
      var perStripe: seq<StripeMetrics> := [];
      for i := 0 to count
        invariant queueDepth == Sum(Views(stripes)[..i], Depth) && queueCapacity == i * capacity
        invariant |perStripe| == i && forall j :: 0 <= j < i ==>
                    var p := stripes[j];
                    perStripe[j] == StripeMetrics(p.id, p.submitted, p.processed, p.panics, |p.queue|, capacity)
      {
        var s := stripes[i];
        assert Views(stripes)[..i + 1][..i] == Views(stripes)[..i];
        queueDepth, queueCapacity := queueDepth + |s.queue|, queueCapacity + capacity;
        perStripe := perStripe + [StripeMetrics(s.id, s.submitted, s.processed, s.panics, |s.queue|, capacity)];
      }
      assert Views(stripes)[..count] == Views(stripes);
      m := PoolMetrics(count, queueDepth, queueCapacity, totalProcessed, totalSubmitted, totalPanics, perStripe);
    }
  }
}
