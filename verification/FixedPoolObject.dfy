/** pkg/pool/fixed_pool.go in its own, imperative form.  Each method is what one goroutine
    does between two points at which others may run, and is proved to be exactly one step
    of the `FixedPool` step system; a worker's whole range loop is proved as a loop. */
module FixedPoolObject {
  import opened Tasks
  import opened RoutingTable
  import FP = FixedPool

  datatype SubmitError = NilTask | PoolClosed | ContextEnded

  /** The case a `Submit` call's select picks; a send goes to the buffer or straight to a
      blocked worker. */
  datatype Case = ContextCase | StoppedCase | BufferCase | ReceiverCase(worker: nat)

  class Pool {
    const size: nat
    const capacity: nat
    var tasks: seq<Task>
    var tasksClosed: bool
    var stopped: bool
    var once: FP.Once
    var processed: nat

    // where each goroutine stands
    var workers: seq<FP.Worker>
    var calls: map<Task, FP.Call>
    var drains: map<nat, FP.Drain>

    ghost var accepted: seq<Task>
    ghost var begun: seq<Task>
    ghost var finished: seq<Task>

    ghost function View(): FP.State
      reads this
    {
      FP.State(capacity, tasks, stopped, tasksClosed, once, workers, processed, calls, drains, accepted, begun,
          finished)
    }

    /** `NewFixedPool`: starts the workers one by one. */
    constructor (size: int, queue: int)
      ensures View() == FP.New(size, queue) && this.size == |workers|
      ensures FP.Inv(View())
    {
      this.size := FP.Max(1, size);
      this.capacity := FP.Max(0, queue);
      tasks, tasksClosed, stopped, once, processed := [], false, false, FP.Fresh, 0;
      calls, drains, accepted, begun, finished := map[], map[], [], [], [];
      workers := [];
      new;
      for i := 0 to this.size
        invariant View() == FP.New(size, queue).(workers := seq(i, _ => FP.Idle))
      {
        workers := workers + [FP.Idle];
      }
      assert View() == FP.New(size, queue);
      FP.NewInv(size, queue);
    }

    /** The start of `Submit`: a nil task is refused without touching the pool. */
    method Submit(task: Option<Task>) returns (error: Option<SubmitError>)
      requires task.Some? ==> task.value !in calls
      modifies this
      ensures task.None? ==> error == Some(NilTask) && View() == old(View())
      ensures task.Some? ==> error.None? && View() == FP.Step(old(View()), FP.Begin(task.value))
    {
      if task.None? {
        return Some(NilTask);
      }
      calls := calls[task.value := FP.Selecting];
      error := None;
    }

    /** The step a case stands for. */
    ghost function Chosen(t: Task, c: Case): (a: FP.Action)
      reads this
      ensures a.SeeContext? || a.SeeStopped? || a.SendOnClosed? || a.Send? || a.HandOff?
      ensures a.t == t && (a.SeeContext? <==> c.ContextCase?)
    {
      match c
      case ContextCase => FP.SeeContext(t)
      case StoppedCase => FP.SeeStopped(t)
      case BufferCase => if tasksClosed then FP.SendOnClosed(t) else FP.Send(t)
      case ReceiverCase(w) => if tasksClosed then FP.SendOnClosed(t) else FP.HandOff(t, w)
    }

    /** The select of `Submit`, when it picks `c`: blocked (no result) when that case is
        not ready.  A send on the closed channel panics and is recovered. */
    method Select(t: Task, c: Case, contextDone: bool) returns (result: Option<Answer>)
      requires FP.Calling(View(), t)
      modifies this
      ensures result.Some? <==> FP.Enabled(old(View()), old(Chosen(t, c))) && (c.ContextCase? ==> contextDone)
      ensures View() == if result.Some? then FP.Step(old(View()), old(Chosen(t, c))) else old(View())
      ensures result.Some? ==>
                (result.value == Sent <==> old(Chosen(t, c)).Send? || old(Chosen(t, c)).HandOff?)
                && t in calls && (result.value == Sent <==> calls[t] == FP.Accepted)
                && (result.value == Failed(PoolClosed) <==> calls[t] == FP.Refused(FP.PoolClosed))
                && (result.value == Failed(ContextEnded) <==> calls[t] == FP.Refused(FP.ContextEnded))
    {
      result := None;
      match c
      case ContextCase =>
        if contextDone {
          calls := calls[t := FP.Refused(FP.ContextEnded)];
          return Some(Failed(ContextEnded));
        }
      case StoppedCase =>
        if stopped {
          calls := calls[t := FP.Refused(FP.PoolClosed)];
          return Some(Failed(PoolClosed));
        }
      case BufferCase =>
        if tasksClosed {
          calls := calls[t := FP.Refused(FP.PoolClosed)];
          return Some(Failed(PoolClosed));
        }
        if |tasks| < capacity {
          calls, tasks, accepted := calls[t := FP.Accepted], tasks + [t], accepted + [t];
          return Some(Sent);
        }
      case ReceiverCase(w) =>
        if tasksClosed {
          calls := calls[t := FP.Refused(FP.PoolClosed)];
          return Some(Failed(PoolClosed));
        }
        if tasks == [] && w < |workers| && workers[w].Idle? {
          calls, workers := calls[t := FP.Accepted], workers[w := FP.Running(t)];
          accepted, begun := accepted + [t], begun + [t];
          return Some(Sent);
        }
    }

    /** The next step of worker `w`'s range loop. */
    ghost function Turn(w: nat): FP.Action
      reads this
      requires w < |workers|
    {
      match workers[w]
      case Idle => if tasks != [] then FP.Take(w) else FP.Exit(w)
      case Running(_) => FP.Finish(w)
      case Counting => FP.CountTask(w)
      case Exited => FP.Exit(w)
    }

    /** One step of a worker; no step when it is blocked or has returned. */
    method WorkerTurn(w: nat) returns (moved: bool)
      requires w < |workers|
      modifies this
      ensures moved <==> FP.Enabled(old(View()), old(Turn(w)))
      ensures View() == if moved then FP.Step(old(View()), old(Turn(w))) else old(View())
    {
      match workers[w]
      case Idle =>
        if tasks != [] {
          workers, begun := workers[w := FP.Running(tasks[0])], begun + [tasks[0]];
          tasks := tasks[1..];
          return true;
        }
        if tasksClosed {
          workers := workers[w := FP.Exited];
          return true;
        }
        return false;
      case Running(t) =>
        workers, finished := workers[w := FP.Counting], finished + [t];
        return true;
      case Counting =>
        processed := processed + 1;
        workers := workers[w := FP.Idle];
        return true;
      case Exited =>
        return false;
    }

    /** One iteration of a worker's range loop, undisturbed. */
    method RunOne(w: nat)
      requires w < |workers| && workers[w].Idle? && tasks != []
      modifies this
      ensures View() == old(View().(queue := tasks[1..], begun := begun + [tasks[0]],
                                    finished := finished + [tasks[0]], processed := processed + 1))
    {
      var taken := WorkerTurn(w);
      var ran := WorkerTurn(w);
      var counted := WorkerTurn(w);
      assert workers == old(workers);
    }

    /** A worker's range loop, undisturbed: it runs the whole queue in order, counts it,
        and returns if the channel is closed. */
    method RangeLoop(w: nat)
      requires w < |workers| && workers[w].Idle?
      modifies this
      ensures tasks == [] && begun == old(begun + tasks) && finished == old(finished + tasks)
      ensures processed == old(processed + |tasks|)
      ensures workers == old(workers)[w := if tasksClosed then FP.Exited else FP.Idle]
      ensures View() == old(View()).(queue := tasks, begun := begun, finished := finished,
              processed := processed, workers := workers)
    {
      ghost var served := [];
      ghost var before := View();
      while tasks != []
        invariant w < |workers| && workers[w].Idle?
        invariant Served(before, View(), served)
        decreases |tasks|
      {
        ServedOneMore(before, View(), served);
        served := served + [tasks[0]];
        RunOne(w);
      }
      var left := WorkerTurn(w);
    }

    /** `DrainAndStop` call `d`: the first call closes `stopped`, then the task channel;
        every call then waits for all workers to have returned. */
    ghost function DrainTurn(d: nat, contextDone: bool): FP.Action
      reads this
    {
      if d !in drains then FP.DrainCall(d)
      else match drains[d]
        case Entering => if once == FP.Fresh then FP.OnceWin(d) else FP.OnceSkip(d)
        case ClosingStopped => FP.CloseStopped(d)
        case ClosingTasks => FP.CloseTasks(d)
        case _ => if contextDone then FP.DrainContext(d) else FP.DrainDone(d)
    }

    method DrainStep(d: nat, contextDone: bool) returns (moved: bool)
      modifies this
      ensures moved <==> FP.Enabled(old(View()), old(DrainTurn(d, contextDone)))
      ensures View() == if moved then FP.Step(old(View()), old(DrainTurn(d, contextDone))) else old(View())
    {
      if d !in drains {
        drains := drains[d := FP.Entering];
        return true;
      }
      match drains[d]
      case Entering =>
        if once == FP.Fresh {
          once, drains := FP.Busy(d), drains[d := FP.ClosingStopped];
          return true;
        }
        if once == FP.Finished {
          drains := drains[d := FP.Waiting];
          return true;
        }
        return false;
      case ClosingStopped =>
        stopped, drains := true, drains[d := FP.ClosingTasks];
        return true;
      case ClosingTasks =>
        tasksClosed, once, drains := true, FP.Finished, drains[d := FP.Waiting];
        return true;
      case Waiting =>
        if contextDone {
          drains := drains[d := FP.Returned(false)];
          return true;
        }
        var all := AllReturned();
        if all {
          drains := drains[d := FP.Returned(true)];
        }
        return all;
      case Returned(_) =>
        return false;
    }

    /** `wg.Wait` would not block. */
    method AllReturned() returns (all: bool)
      ensures all <==> forall w :: 0 <= w < |workers| ==> workers[w].Exited?
    {
      for w := 0 to |workers|
        invariant forall v :: 0 <= v < w ==> workers[v].Exited?
      {
        if !workers[w].Exited? {
          return false;
        }
      }
      all := true;
    }
  }

  /** From `before` the tasks in `served` have been run, and nothing else has happened. */
  ghost predicate Served(before: FP.State, s: FP.State, served: seq<Task>) {
    && before.queue == served + s.queue
    && s == before.(queue := s.queue, begun := before.begun + served, finished := before.finished + served,
                    processed := before.processed + |served|)
  }

  lemma ServedOneMore(before: FP.State, s: FP.State, served: seq<Task>)
    requires Served(before, s, served) && s.queue != []
    ensures var t := s.queue[0];
            Served(before, s.(queue := s.queue[1..], begun := s.begun + [t], finished := s.finished + [t],
                              processed := s.processed + 1), served + [t])
  {
    assert served + s.queue == (served + [s.queue[0]]) + s.queue[1..];
  }

  /** What a `Submit` call returns. */
  datatype Answer = Sent | Failed(why: SubmitError)
}
