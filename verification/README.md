# LoadFlow: verified model of the scheduler

LoadFlow receives messages from named streams, routes each to one of several worker pools,
and moves routing weight between pools as they fall behind. This project models that in
Dafny and proves what the code keeps over every run.

**How the concurrency is modelled.** Each concurrent component is a *step system*: a state,
the actions goroutines can take (one channel operation, channel close, atomic access or lock
section each), `Enabled`, `Step`, and runs of any length in any interleaving (`Feasible`,
`After`). Blocking is an action that is not enabled; a `select` is a choice between enabled
actions; a panic, a context that ends and a timeout are actions of their own. Logs
(`accepted`, `begun`, `finished`, `received`, ...) record history in the order it happened.
Invariants are proved step by step and carried over runs by induction, and the main theorems
speak about every reachable state.

**How the code's own form is kept.** Beside every step system stands an imperative module
(`FixedPoolObject`, `StripedPoolObject`, `RuntimeObject`, `WeightedRouter`, `Controller`)
with the source's objects, fields and loops. Its methods are proved to do exactly what the
step system, or the specification function, says: `View()` afterwards is `Step` of `View()`
before. Where the source has a loop, the loop is proved too, undisturbed by others: a worker's
range loop, the drain's scans, a tick, and the whole receive loop of a source goroutine, which
`RuntimeObject.Runtime.SourceLoop` proves to be one run of the step system.

| files | part |
|---|---|
| `FixedPool`, `FixedPoolBlocking`, `FixedPoolObject` | one queue, N workers, close-then-drain shutdown |
| `StripedPool`, `StripedPoolCounters`, `StripedPoolLaws`, `StripedPoolDrain`, `StripedPoolObject` | keyed serial executor: order, counters, drain |
| `Divisors`, `RoutingTable`, `RoutingService`, `RoutingLaws`, `WeightedRouter` | building the table and ring, serving from them, the router object |
| `Rebalance`, `RebalanceTheorems`, `RebalanceFields`, `ControlLoop`, `Cooldown`, `ControlLaws`, `Controller` | one decision, repeated decisions, the loop over registry and router, spacing, the objects |
| `DispatcherTable`, `Runtime`, `RuntimeTable`, `RuntimeMessages`, `RuntimeOrder`, `RuntimeKeyOrder`, `RuntimeStop`, `RuntimeRuns`, `RuntimeLaws`, `RuntimeObject` | sources, dispatchers and pools together: creation, fates, order, shutdown, what goes wrong and when |
| `Tasks`, `Sequences` | shared values and facts about logs, sums and counts |

The definitions themselves are pinned by laws stated without them: `FixedPoolBlocking`,
`StripedPoolLaws`, `RoutingLaws`, `RebalanceFields`, `ControlLaws` and `RuntimeLaws` say when each
goroutine blocks, what each outcome and counter means over a run, which pool a hash reaches, and
what a decision is in the fields of its inputs.

The runtime's step system contains a whole `FixedPool` step system for each pool and the
router's `Route`, so its theorems compose theirs.

**Where the code does less than its comments say**, the model follows the code, proves exactly
when the comment holds, and exhibits a case in which it does not:

* `DrainAndStop` of the striped pool (striped_pool.go:238, "waits for all submitted tasks").
  Whatever becomes of the contexts, a call that finds the pool open keeps its word in every run
  if and only if the queues are unbuffered, or no submitter is between its closed check and its
  select and nothing is queued: otherwise the stop context may end, the queues are forced closed
  and the call can still return nil (striped_pool.go:276-312). A call that finds the pool closed
  returns nil at once (striped_pool.go:240-244), which is right if and only if nothing is queued
  or running at that moment. `StripedPoolDrain.DrainPromiseExactly` covers any call in any
  reachable state. If neither context ever ends, a started pool keeps its word if and only if
  no submitter is in flight or the queues are unbuffered, and a pool that was never started
  also when something is queued, because then the call does not return:
  `DrainPromiseWhileAlive`. `LateSubmitter`, `QueuedTask` and `EarlyNil` are the cases. A
  submitter in flight can also panic on the closed queue: `SendPanicsExactly`.
* `RouteDispatcher.Stop` (dispatcher.go:81-82, runtime.go:285-286, "the queue has been worked
  off"). What a dispatcher has in its hands or buffered when its context ends is submitted in
  every interleaving if and only if that is nothing: `RuntimeStop.PendingIsSubmittedExactly`.
  What becomes of the rest is `FatesAfterStop`; `RuntimeRuns.StopLosesAMessage` is a run in
  which `Stop` returns nil and a message is lost.
* `minWeight` (strategy_pressure_rebalance.go:27, 140-142) is truncated before use. When a
  decision undercuts it is `RebalanceTheorems.FloorIsMissedExactly`; over repeated decisions
  the donor ends below it if and only if it is a positive non-integer
  (`DrainsBelowFloorExactly`); `MissedFloor` is a case.
* The dispatcher key `stream:pool` (runtime.go:111) is ambiguous for some stream names, and then
  a message goes to another pool than the router picked: never, if and only if no name is
  another followed by a colon and more (`RuntimeRuns.MessagesReachTheirPoolExactly`). For any
  two such names `WrongPoolAccepts` is a run in which the wrong pool accepts a message.
* The registry is updated before the router (applier_router.go:103-109), so the two part company
  when the router refuses the weights: `ControlLoop.ApplyAgreesExactly` says for which weights,
  and `RefusedPlan` shows the strategy proposing such weights.
* Stickiness after a weight change depends on the common divisor; a plan keeps the ring length
  if and only if it keeps the divisor: `RebalanceTheorems.PlanDisturbsFewKeys`.

**Assumptions.** Hashes are arbitrary total functions. float64 is `real`; `int(x)` truncates;
`math.Sqrt` followed by `int` is the largest integer whose square fits. Strategy parameters
satisfy `Rebalance.Sane` (epsRate > 0, paceRate > 0, baseStep >= 0). The router cursor is a
64-bit counter and fairness is stated below its wrap; other integers are unbounded. Streams,
pools and submissions are identified by name or number; clock readings, snapshots, select
choices and hashes are parameters.

## Model

| member | source | states |
|---|---|---|
| FixedPool.RunInv | pkg/pool/fixed_pool.go:97-147 | every run keeps: accepted = begun followed by queue, each submission accepted once, begun = finished plus what workers hold, workers leave only a closed empty channel, a nil drain means all workers left |
| FixedPool.DrainIsExact | pkg/pool/fixed_pool.go:115-147 | in any race of submits and drains, once a drain has returned nil every task whose Submit returned nil has run exactly once, whatever ran was accepted, all are counted and the queue is empty |
| FixedPool.RefusedNeverRuns | pkg/pool/fixed_pool.go:115-132 | a task whose Submit failed never runs, in any continuation |
| FixedPool.BegunInAcceptOrder | pkg/pool/fixed_pool.go:94-106 | tasks begin in the order they were accepted |
| FixedPool.WorkFalls | pkg/pool/fixed_pool.go:101-105 | after the close every worker step lowers a measure of queued tasks, running tasks and live workers, and nothing raises it |
| FixedPool.WorkersNeverStuck | pkg/pool/fixed_pool.go:97-106 | while that measure is positive some worker can step; at zero all workers have left an empty queue |
| FixedPool.WorkIsBounded | pkg/pool/fixed_pool.go:134-147 | a closed pool makes no more worker steps than the measure allows, whatever else happens |
| FixedPoolBlocking.SizesAreAsAsked | pkg/pool/fixed_pool.go:90-97 | in every run a pool has the workers and the buffer it was asked for, but at least one worker and no negative buffer |
| FixedPoolBlocking.SubmitBlocksExactly | pkg/pool/fixed_pool.go:115-132 | in every run a Submit at its select, its own context apart, blocks if and only if the pool is neither stopped nor closed, the buffer holds exactly its capacity, and no worker waits for a task |
| FixedPoolBlocking.AnswersExactly | pkg/pool/fixed_pool.go:119-131 | it returns nil if and only if its task is sent, the context's error if and only if that ended, and "closed" only when the pool is |
| FixedPoolBlocking.ContextIsAlwaysSeen | pkg/pool/fixed_pool.go:124-126 | an ended context always gets a call out of its select and a drain out of its wait |
| FixedPoolBlocking.FillsExactly | pkg/pool/fixed_pool.go:93-95 | n tasks can be queued if and only if n is at most the capacity |
| FixedPoolBlocking.WorkerBlocksExactly | pkg/pool/fixed_pool.go:99-107 | a worker blocks if and only if it has returned or waits at an open and empty channel |
| FixedPoolBlocking.DrainBlocksExactly | pkg/pool/fixed_pool.go:134-147 | a drain, its own context apart, blocks if and only if another is inside the once or some worker has not returned |
| FixedPoolObject.Pool.constructor | pkg/pool/fixed_pool.go:75-110 | the sizes are clamped, all workers are started, the invariant holds |
| FixedPoolObject.Pool.Submit | pkg/pool/fixed_pool.go:115-123 | a nil task is refused without effect, any other call reaches its select |
| FixedPoolObject.Pool.Select | pkg/pool/fixed_pool.go:119-131 | each case of the select is exactly one step, taken exactly when that case is ready, and the result tells which; a send on the closed channel comes back as PoolClosed |
| FixedPoolObject.Pool.WorkerTurn | pkg/pool/fixed_pool.go:99-107 | a worker moves exactly when it is not blocked, and by exactly one step |
| FixedPoolObject.Pool.RangeLoop | pkg/pool/fixed_pool.go:101-106 | an undisturbed worker runs the whole queue in order, counts it, and leaves if the channel is closed |
| FixedPoolObject.Pool.DrainStep | pkg/pool/fixed_pool.go:134-147 | one drain closes, in order, both channels; all wait for the workers; each step is one of the step system's |
| FixedPoolObject.Pool.AllReturned | pkg/pool/fixed_pool.go:140 | the wait ends exactly when every worker has returned |
| StripedPool.PerKeyOrder | pkg/pool/striped_pool.go:116-236 | in every run, for every non-empty key, tasks begin in accepted order and end in begun order, at most one under way, whichever panic |
| StripedPool.SubmitOrderIsRunOrder | pkg/pool/striped_pool.go:16-24 | if the submission of x had returned nil before that of y under the same key was called, y does not begin before x has ended |
| StripedPool.StepInv | pkg/pool/striped_pool.go:116-236 | every step keeps: each stripe's accepted log is its begun log and its queue; its begun log is its ended log and the task in hand; keyed entries sit on the stripe of their hash |
| StripedPoolCounters.LooselyConsistent | pkg/pool/striped_pool.go:138-158 | at every interleaving the totals lag the stripe sums by exactly the goroutines between two increments, and each stripe's submitted, failed, undecided, processed, panics, running and queued tasks balance |
| StripedPoolCounters.ExactAtRest | pkg/pool/striped_pool.go:138-158 | at rest every gap is zero and processed + panics is what was accepted |
| StripedPoolLaws.OutcomesAreCounted | pkg/pool/striped_pool.go:138-157 | at every moment of every run, processed of a stripe is the number of its tasks that returned and panics the number that panicked, less the one its worker is about to count |
| StripedPoolLaws.TotalsAreOutcomes | pkg/pool/striped_pool.go:138-157 | at rest the pool totals are exactly the tasks that returned and the tasks that panicked |
| StripedPoolLaws.OutcomesAreWhatHappened | pkg/pool/striped_pool.go:227-236 | calls that return nil, a context error, "closed", or panic are exactly as many as sends, contexts seen, stops seen, and sends on a closed queue |
| StripedPoolLaws.StripeIsChosen | pkg/pool/striped_pool.go:67-89 | as many stripes and as large buffers as asked for, clamped; a keyless submission goes to the stripe numbered by the submissions counted so far, modulo the stripes, a keyed one by its hash |
| StripedPoolLaws.SubmissionBlocksExactly | pkg/pool/striped_pool.go:227-236 | a submission at its select, its own context apart, blocks if and only if pool and queue are open, the queue holds exactly its capacity, and the worker does not wait at an empty queue |
| StripedPoolLaws.ContextIsAlwaysSeen | pkg/pool/striped_pool.go:191-236 | an ended context always gets a submission out of its select; a call is turned away if and only if the pool is closed |
| StripedPoolLaws.WorkerBlocksExactly | pkg/pool/striped_pool.go:119-134 | a worker blocks if and only if it was never started, has returned, or waits at an open empty queue with no context ended |
| StripedPoolLaws.DrainBlocksExactly | pkg/pool/striped_pool.go:251-312 | a drain waits only for a worker that has not returned |
| StripedPoolLaws.DrainFailsOnlyOnTimeout | pkg/pool/striped_pool.go:305-312 | DrainAndStop fails only when its context has ended |
| StripedPoolLaws.FlagsExactly | pkg/pool/striped_pool.go:93-101 | contexts have ended, and the pool is started and closed, if and only if that happened in the run |
| StripedPoolDrain.RunPhases | pkg/pool/striped_pool.go:239-313 | every run keeps the order of the drain: closed, then scanned, then queues closed, then cancelled, then awaited; a nil return means no worker is left |
| StripedPoolDrain.RunQuiet | pkg/pool/striped_pool.go:251-274 | with no submitter in flight the one-queue-at-a-time emptiness scan is stable: queues found empty stay empty |
| StripedPoolDrain.PromiseKept | pkg/pool/striped_pool.go:238-313 | for a call that finds the pool open, if neither context ends: with no submitter in flight, or unbuffered queues, nil means every accepted task ran or panicked exactly once |
| StripedPoolDrain.PromiseBroken | pkg/pool/striped_pool.go:225-235 | for every other state that is started, or unstarted and empty, a run with both contexts alive exists in which nil is returned and an accepted task has not run |
| StripedPoolDrain.DrainPromiseWhileAlive | pkg/pool/striped_pool.go:238-313 | for a call that finds the pool open, if neither context ever ends: its nil means that every accepted task ran exactly once if and only if no submitter is in flight, or the queues are unbuffered, or the pool was never started and something is queued |
| StripedPoolDrain.NilCanBeWrong | pkg/pool/striped_pool.go:276-312 | with buffered queues and a submitter in flight or a task queued, a run exists in which the stop context ends, nil is returned and an accepted task has not run |
| StripedPoolDrain.LaterDrainExactly | pkg/pool/striped_pool.go:240-244 | a call that finds the pool closed returns nil at once; every accepted task has then run if and only if nothing is queued or running at that moment |
| StripedPoolDrain.DrainPromiseExactly | pkg/pool/striped_pool.go:238-313 | for a call made in any reachable state, started or not and whatever becomes of the contexts: its nil means that every accepted task ran exactly once if and only if the pool is open and unbuffered, or open with no submitter in flight and nothing queued, or closed with nothing queued or running |
| StripedPoolDrain.LateSubmitter | pkg/pool/striped_pool.go:191-201 | a reachable open pool in which the promise fails even with both contexts alive: one submitter past its closed check |
| StripedPoolDrain.QueuedTask | pkg/pool/striped_pool.go:276-312 | a reachable open pool, nobody in flight and a task queued, in which the promise holds while the contexts live and fails once the stop context ends |
| StripedPoolDrain.EarlyNil | pkg/pool/striped_pool.go:240-244 | a reachable closed pool, nobody in flight and no context ended, in which a second call returns nil with a task queued |
| StripedPoolDrain.SendPanicsExactly | pkg/pool/striped_pool.go:228-235 | no submission ever sends on a closed queue, in any run from the start of the drain, if and only if none was in flight then |
| StripedPoolObject.Pool.constructor | pkg/pool/striped_pool.go:67-89 | stripe count and queue size are clamped, every stripe is its own object, the invariant holds |
| StripedPoolObject.Pool.Start | pkg/pool/striped_pool.go:93-109 | starts one worker on every stripe, or changes nothing when closed |
| StripedPoolObject.Pool.CheckClosed | pkg/pool/striped_pool.go:191-197 | the locked check is one step and tells whether the pool is open |
| StripedPoolObject.Pool.SelectStripe | pkg/pool/striped_pool.go:206-217 | an index in range: the hash of the key modulo the stripes, and without a key the submissions counted so far modulo the stripes |
| StripedPoolObject.Pool.CountOnStripe | pkg/pool/striped_pool.go:224 | the stripe's increment touches that stripe and that call only |
| StripedPoolObject.Pool.SelectSend | pkg/pool/striped_pool.go:228-230 | the send case is exactly one step, taken exactly when it is ready; on a closed queue it is the panic |
| StripedPoolObject.Pool.SelectRefusal | pkg/pool/striped_pool.go:231-235 | so are the other two cases, which accept nothing |
| StripedPoolObject.Pool.RunStripeTurn | pkg/pool/striped_pool.go:119-134 | a worker at its select receives in order, or leaves exactly when a context has ended or its queue is closed and empty |
| StripedPoolObject.Pool.EndTask | pkg/pool/striped_pool.go:138-153 | a return and a recovered panic both end the task and keep the worker |
| StripedPoolObject.Pool.CountOutcome | pkg/pool/striped_pool.go:142-156 | each outcome is counted first on the stripe |
| StripedPoolObject.Pool.CountTotalOutcome | pkg/pool/striped_pool.go:143-157 | and then on the pool |
| StripedPoolObject.Pool.BeginDrain | pkg/pool/striped_pool.go:240-247 | a call that finds the pool closed returns nil here, any other closes it and goes on |
| StripedPoolObject.Pool.ScanOnce | pkg/pool/striped_pool.go:255-265 | an undisturbed pass succeeds exactly when every queue is empty and changes nothing else |
| StripedPoolObject.Pool.CloseQueues | pkg/pool/striped_pool.go:285-287 | closes every queue and touches nothing else |
| StripedPoolObject.Pool.GetMetrics | pkg/pool/striped_pool.go:317-352 | depth and capacity are the sums over stripes, the pool reports its totals and each stripe its own counters and capacity |
| Divisors.ComputeGcd | pkg/flow/router/weighted_rr.go:180-188 | with Go's truncating remainder, for any signs: a non-negative common divisor that every common divisor divides |
| RoutingTable.TableIsFaithful | pkg/flow/router/weighted_rr.go:136-177 | every pool of positive weight is a target, its slots are its weight over the common divisor, table and ring are equal, slot counts are exactly proportional to the weights |
| RoutingTable.TableIsMinimal | pkg/flow/router/weighted_rr.go:152-172 | any slot list with these proportions has a length that is a multiple of the table's |
| RoutingTable.BuildIsScaleInvariant | pkg/flow/router/weighted_rr.go:152-161 | multiplying all weights by a positive constant yields the identical entry or error |
| RoutingLaws.BuildFailsExactly | pkg/flow/router/weighted_rr.go:129-150 | which inputs build no entry, and which error each of them gives |
| RoutingService.WindowIsFair | pkg/flow/router/weighted_rr.go:92-99 | in any m consecutive slots from any position a target of weight w occurs between floor(m/n)*w and that plus min(w, m mod n) times |
| RoutingService.RoutingIsFair | pkg/flow/router/weighted_rr.go:73-100 | the same of the keyless requests served from one entry, however many keyed ones are mixed in; exactly k*w after k full turns |
| RoutingLaws.KeylessInTurn | pkg/flow/router/weighted_rr.go:92-99 | ticket number i gets slot i of the table, tickets a table length apart get the same, and the next ticket is one more, modulo 2^64 |
| RoutingLaws.KeyedAtItsSlot | pkg/flow/router/weighted_rr.go:82-90 | a hash below the ring length is the index of the answer, and the cursor stays put |
| RoutingLaws.KeyedIsPeriodic | pkg/flow/router/weighted_rr.go:87 | hashes a multiple of the ring length apart get the same answer, whatever key and cursor |
| RoutingLaws.KeyedSharesFollowWeights | pkg/flow/router/weighted_rr.go:82-90 | over one ring length of hash values each pool is answered exactly weight over common divisor times |
| RoutingService.StickinessLossIsBounded | pkg/flow/router/weighted_rr.go:152-177 | moving step from pool a to b at an unchanged common divisor g relabels at most step/g * abs(a-b) ring slots; a key gets another answer if and only if its slot is one of them, and then another pool when no pool is listed twice |
| WeightedRouter.BuildRREntry | pkg/flow/router/weighted_rr.go:128-178 | yields exactly the entry or error the inputs determine, in a fresh object with cursor 0 |
| WeightedRouter.WeightedRRRouter.BindMany | pkg/flow/router/weighted_rr.go:39-53 | installs a route only where there is none; on any error nothing changes |
| WeightedRouter.WeightedRRRouter.Bind | pkg/flow/router/weighted_rr.go:34-36 | a single pool gets a table of one slot |
| WeightedRouter.WeightedRRRouter.SetMany | pkg/flow/router/weighted_rr.go:56-65 | overwrites one stream's route with a fresh entry; on any error nothing changes |
| WeightedRouter.WeightedRRRouter.RouteWithKey | pkg/flow/router/weighted_rr.go:73-100 | a key gets the pool at its hash modulo the ring length and leaves the cursor alone, a keyless request the next ticket's; None exactly when there is no entry or no slot |
| Rebalance.FloorSqrt | pkg/scheduler/strategy_pressure_rebalance.go:132-135 | the largest integer whose square fits |
| Rebalance.MinInt | pkg/scheduler/strategy_pressure_rebalance.go:188-199 | a least element, 0 of nothing |
| Rebalance.FindExtremes | pkg/scheduler/strategy_pressure_rebalance.go:86-104 | the first sampled pools of maximal and of minimal pressure |
| Rebalance.ComputeStep | pkg/scheduler/strategy_pressure_rebalance.go:123-150 | the steps within all four bounds are exactly those from 1 to the result |
| Rebalance.DecideStream | pkg/scheduler/strategy_pressure_rebalance.go:66-186 | a plan moves the largest step within all four bounds from the first pool of maximal to the first of minimal pressure; no plan exactly when there is no such step |
| RebalanceFields.PressureInFields | pkg/scheduler/types.go:16-24 | pressure times rate is the queue depth, where a rate below eps counts as eps |
| RebalanceFields.DonorAndReceiverExist | pkg/scheduler/strategy_pressure_rebalance.go:86-109 | there is a donor if and only if some pool is sampled, a receiver if and only if some sampled pressure is below 1e18 |
| RebalanceFields.CandidateInFields | pkg/scheduler/strategy_pressure_rebalance.go:124-135 | k meets the candidate if and only if k*k*max(1, donor workers) <= (m*baseStep)^2 * receiver workers, m being one more than the full paceRates of excess pressure |
| RebalanceFields.DecisionInFields | pkg/scheduler/strategy_pressure_rebalance.go:66-186 | over snapshot and policy fields alone: when there is a plan, that it moves the largest step meeting the candidate, maxStep, the spare weight and the share of the total, from first-most to first-least loaded, and names them |
| RebalanceFields.NoPairNoPlan | pkg/scheduler/strategy_pressure_rebalance.go:72-109 | lists that do not fit, or no two pools apart: no plan |
| RebalanceFields.BetterWorkersNeverMoveLess | pkg/scheduler/strategy_pressure_rebalance.go:127-135 | more workers at the receiver or fewer at the donor still yield a plan, never with a smaller step |
| RebalanceFields.FourUnits | pkg/scheduler/strategy_pressure_rebalance.go:123-150 | default policy, weights 20 and 20, one worker and ten tasks against four workers and none: 16 and 24 |
| RebalanceFields.TruncTowardsZero | pkg/scheduler/strategy_pressure_rebalance.go:135-141 | int(x) drops the fraction towards zero |
| RebalanceTheorems.PlanKeepsTotalAndFloor | pkg/scheduler/strategy_pressure_rebalance.go:137-160 | a plan keeps the total, takes at least 1 from the donor, never takes it below the truncated minimum, lowers no other weight |
| RebalanceTheorems.PlanKeepsFloors | pkg/scheduler/strategy_pressure_rebalance.go:140-142 | with a truncated minimum >= 1 positive weights stay positive and none falls below min(old value, truncated minimum) |
| RebalanceTheorems.FloorIsMissedExactly | pkg/scheduler/strategy_pressure_rebalance.go:118-150 | past the guard, the decision takes the donor below the minimum if and only if that is a positive non-integer and the step down to its integer part meets the three other bounds |
| RebalanceTheorems.DrainsBelowFloorExactly | pkg/scheduler/strategy_pressure_rebalance.go:117-160 | on a fixed snapshot repeated plans leave the donor at the truncated minimum, which is below the documented one if and only if that is a positive non-integer |
| RebalanceTheorems.MissedFloor | pkg/scheduler/strategy_pressure_rebalance.go:66-186 | a snapshot, weights and policy (minimum 1.5) for which the decision takes the donor to 1 |
| RebalanceTheorems.PlanDisturbsFewKeys | pkg/scheduler/strategy_pressure_rebalance.go:157-160 | a plan keeps the ring length if and only if it keeps the common divisor g, and then relabels at most delta/g slots per pool position; keys on other slots keep their pool |
| RebalanceTheorems.LargerGapNeverMovesLess | pkg/scheduler/strategy_pressure_rebalance.go:123-150 | with pools, workers, weights and parameters fixed, a larger pressure gap still yields a plan, never with a smaller step |
| RebalanceTheorems.ConvergesExactly | pkg/scheduler/strategy_pressure_rebalance.go:117-160 | on a fixed snapshot, with minWeight the truncated minimum and d the pace, repeated plans number exactly ceil((w_max - minWeight)/d), then the strategy refuses with the donor exactly at minWeight and the receiver holding the difference |
| ControlLoop.RunKeepsWeights | pkg/scheduler/controller.go:73-194 | over every run from positive bindings installed identically, each stream keeps its pools and weight sum, each weight stays >= min(initial, truncated minimum), no apply fails, and registry and router agree |
| ControlLoop.ApplyAgreesExactly | pkg/scheduler/applier_router.go:94-110 | after an apply the router entry is the one built from the registry weights if and only if the new weights fit in number, no pool is nil and some weight is positive, or they do not fit and the two agreed before |
| ControlLoop.RefusedPlan | pkg/scheduler/applier_router.go:103-109 | a binding the router took, for which the strategy proposes weights the router refuses |
| ControlLaws.ProposalExactly | pkg/scheduler/controller.go:96-141 | there is a plan for a stream if and only if its policy is enabled and names pressure_rebalance or nothing, the stream is bound, and the strategy decides on it |
| ControlLaws.ApplyInFields | pkg/scheduler/applier_router.go:94-110 | weights that fit are stored whatever the router makes of them; the apply succeeds if and only if the router takes them |
| ControlLaws.VisitInFields | pkg/scheduler/controller.go:137-188 | a visit without a plan, or before the policy's cooldown (else the controller's) is over, changes nothing; any other applies and marks the time, or counts a failure when the router refuses |
| ControlLoop.VisitsAreIndependent | pkg/scheduler/controller.go:94-188 | a tick treats each stream it visits as if it came first |
| ControlLoop.TickIsConfluent | pkg/scheduler/controller.go:94-188 | with snapshot and clock fixed, every order of visiting the streams leads to the same weights, router entries and apply times |
| Cooldown.RunSpaced | pkg/scheduler/controller.go:196-210 | over every run with a non-decreasing clock, recorded applications to a stream are a cooldown apart and the stored time is the last of them |
| Cooldown.ApplicationsAreSpaced | pkg/scheduler/controller.go:153-210 | so any closed window of length T holds at most 1 + floor(T/cooldown) of them |
| ControlLaws.SpacedByPolicy | pkg/scheduler/controller.go:152-157 | recorded applications to a stream are at least its policy's cooldown apart when that is positive, else the controller's |
| Controller.BindingRegistry.Set | pkg/scheduler/applier_router.go:27-47 | stores exactly one fresh binding, or on a bad input nothing |
| Controller.BindingRegistry.Streams | pkg/scheduler/applier_router.go:49-57 | the bound streams, each once |
| Controller.BindingRegistry.StoreWeights | pkg/scheduler/applier_router.go:103-106 | replaces the weights of one binding and touches no other |
| Controller.RouterApplier.Apply | pkg/scheduler/applier_router.go:94-110 | updates registry, then router, as `ControlLoop.ApplyTo` says, error for error |
| Controller.Controller.constructor | pkg/scheduler/controller.go:32-71 | a non-positive cooldown becomes ten seconds; nothing applied yet |
| Controller.Controller.Propose | pkg/scheduler/controller.go:96-141 | the plan a visit would apply, after the checks on policy, strategy and binding |
| Controller.Controller.VisitStream | pkg/scheduler/controller.go:95-188 | one stream's turn changes registry, router and apply times exactly as `ControlLoop.Visit` says |
| Controller.Controller.RunTick | pkg/scheduler/controller.go:78-188 | a tick visits every bound stream once and does exactly what `ControlLoop.DoTick` says |
| DispatcherTable.OneDispatcherPerKey | pkg/runtime/runtime.go:110-139 | under any number of racing callers no key gets two dispatchers and callers share one if and only if they ask for the same key |
| DispatcherTable.KeysCollideExactly | pkg/runtime/runtime.go:111 | two streams can share a dispatcher key if and only if one name is the other followed by a colon and more |
| DispatcherTable.KeyDeterminesPair | pkg/runtime/runtime.go:111 | between streams neither of which extends the other the key determines stream and pool |
| DispatcherTable.NoColonNoExtension | pkg/runtime/runtime.go:111 | a name without a colon extends no other, so such names are never ambiguous |
| RuntimeTable.RuntimeRunsAreTableRuns | pkg/runtime/runtime.go:110-139 | every run of the runtime projects onto a run of the table, step for step, so in it each dispatcher is created once |
| RuntimeRuns.MessagesReachTheirPoolExactly | pkg/runtime/runtime.go:111 | whatever routes, pools and interleaving, every message is handed to the dispatcher of the pool it was routed to, if and only if no stream name is another followed by a colon and more |
| RuntimeRuns.WrongPoolAccepts | pkg/runtime/runtime.go:249-253 | otherwise, for any two such names, a run in which a message is accepted by a pool that the router never picks for it |
| RuntimeMessages.RunRecorded | pkg/runtime/runtime.go:185-254 | every run keeps each message exactly where its fate says and each received message once |
| RuntimeMessages.MessagesAreConserved | pkg/runtime/runtime.go:222-254 | for any stream names, in every reachable state, Stop included, each received message has one fate, is in that place (source, one dispatcher, pool) and no other, nowhere when dropped, and no dispatcher buffer exceeds its capacity |
| RuntimeLaws.DropsHaveACause | pkg/runtime/runtime.go:232-253 | in every run a message dropped as queue-full met a buffer holding exactly its capacity, and one dropped for want of a route met no entry, or one without slots for it |
| RuntimeLaws.OfferDropsExactly | pkg/runtime/dispatcher.go:69-79 | an offered message is dropped if and only if the buffer is full, and else is the last in it |
| RuntimeLaws.SourceNeverWaits | pkg/runtime/dispatcher.go:66-79 | a source goroutine that has a message can always go on |
| RuntimeLaws.ReceivesAnything | pkg/runtime/runtime.go:185-200 | one at its Recv takes any new message of its stream and any error |
| RuntimeLaws.SourceReturnsExactly | pkg/runtime/runtime.go:185-200 | a source goroutine has returned if and only if its Recv has failed |
| RuntimeLaws.DispatchersReturnAtTheEnd | pkg/runtime/dispatcher.go:48-62 | no dispatcher returns before the context has ended, whatever its pool answers |
| RuntimeLaws.DispatcherWaitsExactly | pkg/runtime/dispatcher.go:48-62 | a dispatcher waits if and only if it has returned, or, with a live context, has nothing buffered or submits to a pool that is open and full with no worker waiting |
| RuntimeLaws.ContextEndsExactly | pkg/runtime/runtime.go:157-158 | the context has ended if and only if its parent ended or Stop was called |
| RuntimeLaws.RoutesAreLastBound | pkg/flow/router/weighted_rr.go:56-65 | the entry in force is the last one bound |
| RuntimeOrder.StepOrdered | pkg/runtime/dispatcher.go:42-79 | every step keeps, for every stream and pool: the messages bound for the pool, in receive order, are those it accepted, then the one in its dispatcher's hands, then the dispatcher's buffer, then the one in the source's hands |
| RuntimeKeyOrder.SameKeyInReceiveOrder | pkg/runtime/runtime.go:185-254 | while no change of route sends the key elsewhere, its messages reach one pool only, accepted as a subsequence of receive order, begun as a prefix of accepted |
| RuntimeKeyOrder.SameKeySerial | pkg/runtime/runtime.go:185-254 | and when that pool has one worker they run serially in that order |
| RuntimeKeyOrder.OnlyQueueFullIsMissing | pkg/runtime/runtime.go:222-254 | until the context ends or the pool is being stopped, queue-full drops are the only messages of the key that are missing |
| RuntimeKeyOrder.PlanMayBeInstalled | pkg/scheduler/applier_router.go:108-109 | installing a rebalancing plan that keeps the common divisor is such a change for every key whose ring slot it does not relabel, and it relabels at most delta/g slots per pool position |
| RuntimeStop.RunPhase | pkg/runtime/runtime.go:266-310 | each phase of Stop keeps what the earlier ones achieved: sources gone, dispatchers gone, pools drained |
| RuntimeStop.StopDrainsRegisteredPools | pkg/runtime/runtime.go:298-309 | when Stop returns nil every registered pool is closed and empty and every task it ever accepted has run exactly once |
| RuntimeStop.NothingAcceptedAfterStop | pkg/runtime/runtime.go:264-310 | afterwards, however the run goes on, no registered pool accepts a task and no pool accepts a message |
| RuntimeStop.FatesAfterStop | pkg/runtime/runtime.go:279-310 | then no message is in flight, only accepted ones have run or ever will, and those accepted by a registered pool have |
| RuntimeLaws.StopWaitsExactly | pkg/runtime/runtime.go:279-308 | a Stop under way waits if and only if a source has not returned, no awaited dispatcher has returned, or the drain it has begun has not |
| RuntimeStop.BufferIsWorkedOffExactly | pkg/runtime/dispatcher.go:81-88 | stopping a dispatcher leaves an empty buffer in every interleaving if and only if it was empty before (what it held apart) |
| RuntimeStop.PendingIsSubmittedExactly | pkg/runtime/dispatcher.go:50-61 | once the context has ended, all a dispatcher holds or has buffered ends accepted in every interleaving if and only if that is nothing; otherwise one run loses all of it |
| RuntimeStop.CanLosePending | pkg/runtime/dispatcher.go:50-61 | such a run: the held task ends refused, the buffered ones stay behind |
| RuntimeRuns.StopLosesAMessage | pkg/runtime/runtime.go:266-310 | a run from a just spawned runtime in which Stop returns nil with a message left in a buffer |
| RuntimeObject.RouteDispatcher.TrySubmit | pkg/runtime/dispatcher.go:69-79 | true exactly when there is room; then the task is last in the buffer, otherwise nothing changes |
| RuntimeObject.Runtime.constructor | pkg/runtime/runtime.go:143-177 | one receiving goroutine per source, no dispatcher, a positive buffer size |
| RuntimeObject.Runtime.Receive | pkg/runtime/runtime.go:188-200 | a delivery or an error is one step of the source |
| RuntimeObject.Runtime.RouteMessage | pkg/runtime/runtime.go:222-235 | asking the router object is one routing step, with the ticket its cursor gave |
| RuntimeObject.Runtime.LookUp | pkg/runtime/runtime.go:113-120 | the read-locked lookup is one step |
| RuntimeObject.Runtime.CreateIfAbsent | pkg/runtime/runtime.go:122-138 | under the write lock a dispatcher is created exactly when there still is none |
| RuntimeObject.Runtime.Create | pkg/runtime/runtime.go:122-138 | which is one step of the source |
| RuntimeObject.Runtime.Offer | pkg/runtime/runtime.go:249-253 | the message is buffered or dropped, in one step |
| RuntimeObject.Runtime.SourceLoop | pkg/runtime/runtime.go:185-255 | the receive loop, undisturbed, places everything that arrives, returns at the first error, and is one run of the step system |
| RuntimeObject.Runtime.TakeTask | pkg/runtime/dispatcher.go:54-57 | takes the oldest buffered task and calls the pool's Submit with it |
| RuntimeObject.Runtime.Attempt | pkg/runtime/dispatcher.go:57-60 | how that Submit ends decides the message's fate, in one step of dispatcher and pool |
| RuntimeObject.Runtime.Leave | pkg/runtime/dispatcher.go:52-53 | a dispatcher whose context has ended leaves its buffer behind |
| RuntimeObject.Runtime.BeginStop | pkg/runtime/runtime.go:275-279 | the first phase cancels the context and nothing else |
| RuntimeObject.Runtime.AwaitSources | pkg/runtime/runtime.go:281-292 | goes on exactly when every source goroutine has returned, with the dispatchers there are then |
| RuntimeObject.Runtime.AwaitDispatchers | pkg/runtime/runtime.go:294-296 | goes on to the pools exactly when every listed dispatcher has returned |
| RuntimeObject.Runtime.DrainNextPool | pkg/runtime/runtime.go:302-303 | starts one DrainAndStop call on one registered pool |
| RuntimeObject.Runtime.AfterDrain | pkg/runtime/runtime.go:303-307 | goes on after a nil drain, fails after any other |

## Left out

- StripedPoolObject.Pool.Start: a second call, which would put two workers on each stripe and end per-key order, is not modelled; the order promised is for one.
- Real time, scheduler fairness and liveness beyond the bounded-work lemmas; throughput and latency.
- FNV internals and hash distribution, float rounding and NaN, 32-bit `int`, wrap of the uint64 counters other than the router cursor.
- A panicking task in a `FixedPool`: it ends the Go process. A `panic(nil)` in a striped task.
- `StripedPool` as a pool of the runtime: the dispatcher calls `Submit` without a key, so it gives no key order there.
- Running what a dispatcher still has buffered when `Stop` cancels it: the code does not promise it; such messages have the fate `Buffered`.
- The message codec and the user's key function: a message arrives with its key. Replacing router, codec or pools while running, and a source or pool registered twice.
- Strategies other than `pressure_rebalance`, policy merging, event sinks, metrics sampling, `Snapshot`, the in-memory router, `KeyTracker`: lookups and plumbing.
- Logging, Prometheus export, HTTP, YAML, `cmd/` and `examples/`.
- StripedPoolObject.Pool.GetMetrics: read undisturbed; a torn read between stripes is what `LooselyConsistent` bounds.
- RuntimeKeyOrder.SameKeyInReceiveOrder: this and the other order theorems are for stream names none of which is another followed by a colon and more (`MessagesReachTheirPoolExactly` says what happens otherwise); conservation and shutdown hold for any names.
- RuntimeStop.RunPhase: the runtime theorems start from a runtime just spawned; `Stop` racing the spawn of sources is not modelled.
- RuntimeObject.Runtime.AwaitDispatchers: one `Stop` call is followed through its phases; others appear only as cancelled contexts and foreign drains.
- Goroutine locals (`workers`, `calls`, `drains`, `sources`, `worker`) are fields of the objects, because Dafny has no threads to keep them in.
