/** pkg/scheduler/controller.go and applier_router.go in their own, imperative form: each
    method is proved to do to the shared state exactly what `ControlLoop` says. */
module Controller {
  import opened Sequences
  import opened RoutingTable
  import opened Rebalance
  import opened ControlLoop
  import WR = WeightedRouter

  /** Go's `Binding`: `Apply` replaces its weights in place. */
  class BoundPools {
    const names: seq<string>
    const pools: seq<Option<string>>
    var weights: seq<int>

    ghost function View(): Binding
      reads this
    {
      Binding(names, pools, weights)
    }

    constructor (names: seq<string>, pools: seq<Option<string>>, weights: seq<int>)
      ensures View() == Binding(names, pools, weights)
    {
      this.names, this.pools, this.weights := names, pools, weights;
    }
  }

  /** Pools are identified by name. */
  ghost predicate Named(names: seq<string>, pools: seq<Option<string>>) {
    |names| == |pools| && forall i :: 0 <= i < |pools| ==> pools[i] == Some(names[i])
  }

  class BindingRegistry {
    var data: map<string, BoundPools>

    /** No two streams share a binding object. */
    ghost predicate Valid()
      reads this
    {
      forall s, t :: s in data && t in data && s != t ==> data[s] != data[t]
    }

    ghost function View(): map<string, Binding>
      reads this`data, data.Values
    {
      map s | s in data :: data[s].View()
    }

    constructor ()
      ensures Valid() && data == map[]
    {
      data := map[];
    }

    /** Replaces the binding of one stream, or changes nothing when the lists do not fit or
        a pool is nil. */
    method Set(stream: string, pools: seq<Option<string>>, weights: seq<int>) returns (ok: bool)
      requires Valid()
      modifies this
      ensures Valid()
      ensures ok <==> pools != [] && |pools| == |weights| && forall i :: 0 <= i < |pools| ==> pools[i].Some?
      ensures ok ==> stream in data && fresh(data[stream]) && data == old(data)[stream := data[stream]]
      ensures ok ==> Named(data[stream].names, pools) && data[stream].pools == pools && data[stream].weights == weights
      ensures !ok ==> data == old(data)
    {
      if |pools| == 0 || |pools| != |weights| {
        return false;
      }
      var names := [];
      for i := 0 to |pools|
        invariant Named(names, pools[..i])
      {
        if pools[i].None? {
          return false;
        }
        names := names + [pools[i].value];
      }
      var b := new BoundPools(names, pools, weights);
      data := data[stream := b];
      ok := true;
    }

    /** The bound streams, each once, in no particular order. */
    method Streams() returns (out: seq<string>)
      ensures NoDup(out) && forall s :: s in out <==> s in data
    {
      out := [];
      var rest := data.Keys;
      while rest != {}
        invariant NoDup(out) && rest <= data.Keys
        invariant forall s :: s in out <==> s in data && s !in rest
        decreases rest
      {
        var s :| s in rest;
        NoDupAppend(out, s);
        out, rest := out + [s], rest - {s};
      }
    }

    /** Replaces the weights of a bound stream. */
    method StoreWeights(stream: string, newWeights: seq<int>)
      requires Valid() && stream in data
      modifies data.Values
      ensures Valid() && data == old(data)
      ensures View() == old(View())[stream := old(data[stream].View()).(weights := newWeights)]
    {
      data[stream].weights := newWeights;
      assert View() == old(View())[stream := data[stream].View()];
    }

    method Get(stream: string) returns (names: seq<string>, weights: seq<int>, ok: bool)
      ensures ok <==> stream in data
      ensures ok ==> names == data[stream].names && weights == data[stream].weights
    {
      if stream in data {
        var b := data[stream];
        return b.names, b.weights, true;
      }
      return [], [], false;
    }
  }

  datatype ApplyError = UnknownStream | SizeMismatch | RouterError(why: BuildError)

  class RouterApplier {
    const ro: WR.WeightedRRRouter
    const bind: BindingRegistry

    constructor (ro: WR.WeightedRRRouter, bind: BindingRegistry)
      ensures this.ro == ro && this.bind == bind
    {
      this.ro, this.bind := ro, bind;
    }

    ghost function SliceFor(stream: string): Slice
      reads bind, bind.data.Values, ro
    {
      Slice(Lookup(bind.View(), stream), Lookup(ro.Entries(), stream), None)
    }

    method SetRoute(stream: string, pools: seq<Option<string>>, weights: seq<int>) returns (why: Option<BuildError>)
      requires ro.Valid()
      modifies ro
      ensures ro.Valid()
      ensures match Build(pools, weights)
              case Ok(e) => why.None? && ro.Entries() == old(ro.Entries())[stream := e]
              case Err(error) => why == Some(error) && ro.Entries() == old(ro.Entries())
    {
      why := ro.SetMany(stream, pools, weights);
      ghost var built: Result<Entry> := if why.Some? then Err(why.value) else Ok(ro.routes[stream].Static());
      BuildsOnce(pools, weights, Build(pools, weights), built);
    }

    /** Updates the registry first, then the router; the registry keeps the new weights
        even when the router refuses them. */
    method Apply(stream: string, newWeights: seq<int>) returns (error: Option<ApplyError>)
      requires bind.Valid() && ro.Valid()
      modifies bind.data.Values, ro
      ensures bind.Valid() && ro.Valid() && bind.data == old(bind.data)
      ensures var (sl, ok) := ApplyTo(old(SliceFor(stream)), newWeights);
              && ok == error.None?
              && bind.View() == Store(old(bind.View()), stream, sl.binding)
              && ro.Entries() == Store(old(ro.Entries()), stream, sl.route)
    {
      if stream !in bind.data {
        return Some(UnknownStream);
      }
      var b := bind.data[stream];
      if |newWeights| != |b.pools| {
        return Some(SizeMismatch);
      }
      bind.StoreWeights(stream, newWeights);
      var why := SetRoute(stream, b.pools, newWeights);
      error := if why.Some? then Some(RouterError(why.value)) else None;
    }
  }

  ghost function AfterApply(l: Loop, s: string, newWeights: seq<int>, mark: int): Loop {
    var (sl, ok) := ApplyTo(SliceOf(l, s), newWeights);
    Loop(Store(l.bindings, s, sl.binding), Store(l.routes, s, sl.route),
         if ok then l.lastApply[s := mark] else l.lastApply,
         if ok then l.applied + [(s, mark)] else l.applied,
         if ok then l.failures else l.failures + 1)
  }

  lemma ApplyIgnoresLast(sl: Slice, last: Option<int>, newWeights: seq<int>)
    ensures var (a, ok) := ApplyTo(sl, newWeights);
            ApplyTo(sl.(lastApply := last), newWeights) == (a.(lastApply := last), ok)
  {
  }

  /** The first `n` visits of a tick over `streams`. */
  ghost function StopsFor(streams: seq<string>, clock: nat -> (int, int), n: nat): (stops: seq<Stop>)
    requires n <= |streams|
    ensures |stops| == n
  {
    seq(n, i requires 0 <= i < n => Stop(streams[i], clock(i).0, clock(i).1))
  }

  lemma OneMoreStop(c: Config, l: Loop, snap: Snapshot, streams: seq<string>, clock: nat -> (int, int), n: nat)
    requires ValidConfig(c) && n < |streams|
    ensures Visits(c, l, snap, StopsFor(streams, clock, n + 1)) ==
            Visit(c, Visits(c, l, snap, StopsFor(streams, clock, n)), streams[n], snap, clock(n).0, clock(n).1)
  {
    assert StopsFor(streams, clock, n + 1)[..n] == StopsFor(streams, clock, n);
  }

  lemma StopsCover(stops: seq<Stop>, streams: seq<string>, l: Loop, snap: Snapshot)
    requires |stops| == |streams| && forall i :: 0 <= i < |stops| ==> stops[i].stream == streams[i]
    requires NoDup(streams) && forall s :: s in streams <==> s in l.bindings
    ensures IsTick(l, Sampled(snap, stops))
  {
    forall s ensures s in (set st | st in stops :: st.stream) <==> s in l.bindings {
      if s in streams {
        var j :| 0 <= j < |streams| && streams[j] == s;
        assert stops[j] in stops;
      }
    }
  }

  lemma StoreSame<V>(m: map<string, V>, s: string)
    ensures Store(m, s, Lookup(m, s)) == m
  {
  }

  lemma VisitNothing(c: Config, l: Loop, s: string, snap: Snapshot, check: int, mark: int)
    requires ValidConfig(c)
    requires Proposal(c, s, SliceOf(l, s), snap).None? || InCooldown(c, s, SliceOf(l, s), check)
    ensures Visit(c, l, s, snap, check, mark) == l
  {
    StoreSame(l.bindings, s);
    StoreSame(l.routes, s);
    StoreSame(l.lastApply, s);
  }

  lemma VisitApplies(c: Config, l: Loop, s: string, snap: Snapshot, check: int, mark: int)
    requires ValidConfig(c)
    requires Proposal(c, s, SliceOf(l, s), snap).Some? && !InCooldown(c, s, SliceOf(l, s), check)
    ensures Visit(c, l, s, snap, check, mark) ==
            AfterApply(l, s, Proposal(c, s, SliceOf(l, s), snap).value.newWeights, mark)
  {
    StoreSame(l.lastApply, s);
  }

  class Controller {
    const bindings: BindingRegistry
    const applier: RouterApplier
    const policies: string -> Policy
    const cooldown: int
    var lastApply: map<string, int>

    ghost var applied: seq<(string, int)>
    ghost var failures: nat

    ghost function Configuration(): Config { Config(policies, cooldown) }

    ghost predicate Valid()
      reads this, bindings, applier.ro, applier.ro.routes.Values
    {
      && applier.bind == bindings && bindings.Valid() && applier.ro.Valid()
      && ValidConfig(Configuration())
    }

    ghost function View(): Loop
      reads this, bindings, bindings.data.Values, applier.ro
    {
      Loop(bindings.View(), applier.ro.Entries(), lastApply, applied, failures)
    }

    /** `NewController`: a non-positive cooldown becomes ten seconds (in nanoseconds). */
    constructor (bindings: BindingRegistry, applier: RouterApplier, policies: string -> Policy, cooldown: int)
      requires applier.bind == bindings && bindings.Valid() && applier.ro.Valid()
      requires forall s :: Sane(ParamsOf(policies(s)))
      ensures Valid() && this.bindings == bindings && this.applier == applier
      ensures Configuration() == Config(policies, if cooldown <= 0 then 10_000_000_000 else cooldown)
      ensures View() == Loop(bindings.View(), applier.ro.Entries(), map[], [], 0)
    {
      this.bindings, this.applier, this.policies := bindings, applier, policies;
      this.cooldown := if cooldown <= 0 then 10_000_000_000 else cooldown;
      lastApply, applied, failures := map[], [], 0;
    }

    /** The plan for one stream, if any: the checks of `Run` up to the cooldown. */
    method Propose(stream: string, snap: Snapshot) returns (plan: Option<Plan>)
      requires Valid()
      ensures plan == Proposal(Configuration(), stream, SliceOf(View(), stream), snap)
    {
      var policy := policies(stream);
      if !policy.enabled {
        return None;
      }
      var strategy := policy.strategyName;
      if strategy == "" {
        strategy := STRATEGY;
      }
      if strategy != STRATEGY {
        return None;
      }
      var names, weights, ok := bindings.Get(stream);
      if !ok {
        return None;
      }
      plan := DecideStream(snap, stream, names, weights, policy);
      DecisionIsUnique(snap, stream, names, weights, policy, plan, Decision(snap, stream, names, weights, policy));
    }

    /** Applies a plan and marks or counts the outcome. */
    method ApplyAndMark(stream: string, newWeights: seq<int>, mark: int)
      requires Valid()
      modifies this, bindings.data.Values, applier.ro
      ensures Valid() && bindings.data == old(bindings.data)
      ensures View() == AfterApply(old(View()), stream, newWeights, mark)
    {
      var ok := CallApply(stream, newWeights);
      Mark(stream, mark, ok);
    }

    method CallApply(stream: string, newWeights: seq<int>) returns (ok: bool)
      requires Valid()
      modifies bindings.data.Values, applier.ro
      ensures Valid() && bindings.data == old(bindings.data)
      ensures var (sl, good) := ApplyTo(SliceOf(old(View()), stream), newWeights);
              && ok == good
              && View() == old(View()).(bindings := Store(old(bindings.View()), stream, sl.binding),
                                        routes := Store(old(applier.ro.Entries()), stream, sl.route))
    {
      ApplyIgnoresLast(applier.SliceFor(stream), SliceOf(View(), stream).lastApply, newWeights);
      var error := applier.Apply(stream, newWeights);
      ok := error.None?;
    }

    /** `markApplied`, or the count of a failure. */
    method Mark(stream: string, mark: int, ok: bool)
      modifies this`lastApply, this`applied, this`failures
      ensures View() == old(View()).(
                lastApply := if ok then old(lastApply)[stream := mark] else old(lastApply),
                applied := if ok then old(applied) + [(stream, mark)] else old(applied),
                failures := if ok then old(failures) else old(failures) + 1)
    {
      if ok {
        lastApply, applied := lastApply[stream := mark], applied + [(stream, mark)];
      } else {
        failures := failures + 1;
      }
    }

    /** One stream's turn in a tick, with the readings `time.Since` and `time.Now` give. */
    method VisitStream(stream: string, snap: Snapshot, check: int, mark: int)
      requires Valid()
      modifies this, bindings.data.Values, applier.ro
      ensures Valid() && bindings.data == old(bindings.data)
      ensures View() == Visit(Configuration(), old(View()), stream, snap, check, mark)
    {
      var plan := Propose(stream, snap);
      if plan.None? {
        VisitNothing(Configuration(), View(), stream, snap, check, mark);
        return;
      }
      var policy := policies(stream);
      var cd := if policy.cooldown <= 0 then cooldown else policy.cooldown;
      if stream in lastApply && check - lastApply[stream] < cd {
        VisitNothing(Configuration(), View(), stream, snap, check, mark);
        return;
      }
      VisitApplies(Configuration(), View(), stream, snap, check, mark);
      ApplyAndMark(stream, plan.value.newWeights, mark);
    }

    method VisitAll(streams: seq<string>, snap: Snapshot, clock: nat -> (int, int))
      requires Valid()
      modifies this, bindings.data.Values, applier.ro
      ensures Valid() && bindings.data == old(bindings.data)
      ensures View() == Visits(Configuration(), old(View()), snap, StopsFor(streams, clock, |streams|))
    {
      ghost var before := View();
      for i := 0 to |streams|
        invariant Valid() && bindings.data == old(bindings.data)
        invariant View() == Visits(Configuration(), before, snap, StopsFor(streams, clock, i))
      {
        var (check, mark) := clock(i);
        VisitStream(streams[i], snap, check, mark);
        OneMoreStop(Configuration(), before, snap, streams, clock, i);
      }
    }

    /** The body of a tick whose sample succeeded: every bound stream once.  `clock` gives
        the two readings of each visit. */
    method RunTick(snap: Snapshot, clock: nat -> (int, int)) returns (ghost stops: seq<Stop>)
      requires Valid()
      modifies this, bindings.data.Values, applier.ro
      ensures Valid() && bindings.data == old(bindings.data)
      ensures IsTick(old(View()), Sampled(snap, stops))
      ensures forall i :: 0 <= i < |stops| ==> (stops[i].check, stops[i].mark) == clock(i)
      ensures View() == DoTick(Configuration(), old(View()), Sampled(snap, stops))
    {
      var streams := bindings.Streams();
      stops := StopsFor(streams, clock, |streams|);
      StopsCover(stops, streams, View(), snap);
      VisitAll(streams, snap, clock);
    }
  }
}
