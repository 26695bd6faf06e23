/** What one visit of the control loop does and when, said of the policy, the registry and
    the clock alone (pkg/scheduler/controller.go). */
module ControlLaws {
  import opened Sequences
  import opened RoutingTable
  import opened Rebalance
  import opened ControlLoop
  import opened Cooldown

  /** The controller has a plan for a stream exactly when the policy is enabled, names the
      pressure strategy or none, the stream is bound, and the strategy decides on one. */
  lemma ProposalExactly(c: Config, s: string, sl: Slice, snap: Snapshot, plan: Plan)
    requires ValidConfig(c)
    ensures Proposal(c, s, sl, snap) == Some(plan) <==>
            && c.policies(s).enabled
            && (c.policies(s).strategyName == "" || c.policies(s).strategyName == "pressure_rebalance")
            && sl.binding.Some?
            && Decides(snap, s, sl.binding.value.names, sl.binding.value.weights, c.policies(s), Some(plan))
  {
    if sl.binding.Some? {
      var b, policy := sl.binding.value, c.policies(s);
      var r := Decision(snap, s, b.names, b.weights, policy);
      if Decides(snap, s, b.names, b.weights, policy, Some(plan)) {
        DecisionIsUnique(snap, s, b.names, b.weights, policy, r, Some(plan));
      }
    }
  }

  /** `Apply` stores new weights that fit, whatever the router makes of them, and succeeds
      exactly when the router takes them. */
  lemma ApplyInFields(sl: Slice, newWeights: seq<int>)
    requires sl.binding.Some?
    ensures var (sl', ok) := ApplyTo(sl, newWeights);
            var b := sl.binding.value;
            && (ok <==> |newWeights| == |b.pools| && RouterTakes(b.pools, newWeights))
            && sl'.binding == Some(if |newWeights| == |b.pools| then b.(weights := newWeights) else b)
            && (if ok then sl'.route.Some? && Builds(b.pools, newWeights, Ok(sl'.route.value))
                else sl'.route == sl.route)
  {
    if |newWeights| == |sl.binding.value.pools| { BuildsExactly(sl.binding.value.pools, newWeights); }
  }

  /** The stream's own cooldown, when its policy sets one, else the controller's, is over. */
  ghost predicate Due(c: Config, l: Loop, s: string, now: int) {
    s in l.lastApply ==>
      if c.policies(s).cooldown > 0 then now - l.lastApply[s] >= c.policies(s).cooldown
      else now - l.lastApply[s] >= c.cooldown
  }

  /** A visit without a plan, or before the cooldown is over, changes nothing.  Any other
      applies the plan and marks the time, or, when the router refuses, counts a failure. */
  lemma VisitInFields(c: Config, l: Loop, st: Stop, snap: Snapshot)
    requires ValidConfig(c)
    ensures var s, plan := st.stream, Proposal(c, st.stream, SliceOf(l, st.stream), snap);
            var l' := Visit(c, l, s, snap, st.check, st.mark);
            if plan.None? || !Due(c, l, s, st.check) then l' == l
            else
              && s in l.bindings && s in l'.bindings
              && (forall x :: x != s ==> Lookup(l'.bindings, x) == Lookup(l.bindings, x)
                                         && Lookup(l'.routes, x) == Lookup(l.routes, x))
              && var b, w := l.bindings[s], plan.value.newWeights;
                 if |w| == |b.pools| && RouterTakes(b.pools, w) then
                   && l'.applied == l.applied + [(s, st.mark)] && l'.lastApply == l.lastApply[s := st.mark]
                   && l'.failures == l.failures && l'.bindings[s] == b.(weights := w)
                   && s in l'.routes && Builds(b.pools, w, Ok(l'.routes[s]))
                 else
                   l'.applied == l.applied && l'.lastApply == l.lastApply && l'.failures == l.failures + 1
  {
    var s := st.stream;
    var sl := SliceOf(l, s);
    var plan := Proposal(c, s, sl, snap);
    if plan.Some? {
      ProposalExactly(c, s, sl, snap, plan.value);
      ApplyInFields(sl, plan.value.newWeights);
      DueIsOver(c, l, s, st.check);
    }
    SameStores(l, s);
  }

  lemma DueIsOver(c: Config, l: Loop, s: string, now: int)
    ensures Due(c, l, s, now) <==> !InCooldown(c, s, SliceOf(l, s), now)
  {
  }

  lemma SameStores(l: Loop, s: string)
    ensures Store(l.bindings, s, Lookup(l.bindings, s)) == l.bindings
    ensures Store(l.routes, s, Lookup(l.routes, s)) == l.routes
    ensures Store(l.lastApply, s, Lookup(l.lastApply, s)) == l.lastApply
  {
  }

  /** Over any run with a non-decreasing clock, recorded applications to one stream are at
      least the policy's cooldown apart, when it sets one, else the controller's. */
  lemma SpacedByPolicy(c: Config, start: Loop, ticks: seq<Tick>, s: string)
    requires ValidConfig(c) && start.applied == [] && Monotone(AllStops(ticks))
    ensures var marks := Marks(Run(c, start, ticks).applied, s);
            forall i, j :: 0 <= i < j < |marks| ==>
              if c.policies(s).cooldown > 0 then marks[j] - marks[i] >= c.policies(s).cooldown
              else marks[j] - marks[i] >= c.cooldown
  {
    ApplicationsAreSpaced(c, start, ticks, s, 0, 0);
  }
}
