/** Dispatcher creation inside the runtime is the double-checked creation of
    `DispatcherTable`: every run of the runtime projects onto a run of the table. */
module RuntimeTable {
  import opened Sequences
  import DT = DispatcherTable
  import opened Runtime

  /** The call `c` of the table stands where the source goroutine stands. */
  ghost predicate Stands(x: string, src: Source, t: DT.State, c: nat) {
    match src
    case Looking(_, p) => c in t.callers && t.callers[c] == DT.Looking(DT.RouteKey(x, p))
    case Creating(_, p) => c in t.callers && t.callers[c] == DT.Missed(DT.RouteKey(x, p))
    case Offering(_, p) =>
      var key := DT.RouteKey(x, p);
      c in t.callers && key in t.table && t.callers[c] == DT.Got(key, t.table[key])
    case _ => true
  }

  /** `who` names the current call of each source; `next` is a call not made yet. */
  datatype Callers = Callers(who: map<string, nat>, next: nat)

  ghost predicate Projects(s: State, t: DT.State, w: Callers) {
    && t.table.Keys == s.dispatchers.Keys
    && (forall c :: c in t.callers ==> c < w.next)
    && (forall x :: x in w.who ==> w.who[x] < w.next)
    && (forall x, y :: x in w.who && y in w.who && x != y ==> w.who[x] != w.who[y])
    && (forall x :: x in s.sources ==> x in w.who && Stands(x, s.sources[x], t, w.who[x]))
  }

  /** The step of the table that a source's step is, if it is one. */
  ghost function TableSteps(s: State, x: string, step: SourceStep, w: Callers): seq<DT.Action>
    requires SourceEnabled(s, x, step) && x in w.who
  {
    match step
    case RouteIt(ticket) =>
      var p := Picked(s, s.sources[x].m, ticket);
      if p.Some? then [DT.Call(w.next, DT.RouteKey(x, p.value))] else []
    case LookUp => [DT.FastPath(w.who[x])]
    case Create => [DT.SlowPath(w.who[x])]
    case _ => []
  }

  ghost function CallersAfter(x: string, acts: seq<DT.Action>, w: Callers): Callers {
    if acts != [] && acts[0].Call? then Callers(w.who[x := w.next], w.next + 1) else w
  }

  lemma OneTableStep(t: DT.State, a: DT.Action)
    requires DT.Enabled(t, a)
    ensures DT.Feasible(t, [a]) && DT.After(t, [a]) == DT.Step(t, a)
  {
    assert [a][1..] == [];
  }

  lemma CallProjects(s: State, t: DT.State, w: Callers, x: string, ticket: nat)
    requires Projects(s, t, w) && SourceEnabled(s, x, RouteIt(ticket)) && Picked(s, s.sources[x].m, ticket).Some?
    ensures var a := DT.Call(w.next, DT.RouteKey(x, Picked(s, s.sources[x].m, ticket).value));
            DT.Enabled(t, a)
            && Projects(DoSource(s, x, RouteIt(ticket)), DT.Step(t, a), Callers(w.who[x := w.next], w.next + 1))
  {
  }

  lemma LookUpProjects(s: State, t: DT.State, w: Callers, x: string)
    requires Projects(s, t, w) && SourceEnabled(s, x, LookUp)
    ensures x in w.who && DT.Enabled(t, DT.FastPath(w.who[x]))
    ensures Projects(DoSource(s, x, LookUp), DT.Step(t, DT.FastPath(w.who[x])), w)
  {
  }

  lemma CreateProjects(s: State, t: DT.State, w: Callers, x: string)
    requires Projects(s, t, w) && SourceEnabled(s, x, Create)
    ensures x in w.who && DT.Enabled(t, DT.SlowPath(w.who[x]))
    ensures Projects(DoSource(s, x, Create), DT.Step(t, DT.SlowPath(w.who[x])), w)
  {
    var key := DT.RouteKey(x, s.sources[x].pool);
    var s', t' := DoSource(s, x, Create), DT.Step(t, DT.SlowPath(w.who[x]));
    assert t'.table.Keys == t.table.Keys + {key} == s'.dispatchers.Keys;
  }

  /** Source steps that do not touch the table. */
  ghost predicate Silent(s: State, x: string, step: SourceStep)
    requires SourceEnabled(s, x, step)
  {
    step.Recv? || step.RecvError? || step.Offer? || (step.RouteIt? && Picked(s, s.sources[x].m, step.ticket).None?)
  }

  lemma SilentProjects(s: State, t: DT.State, w: Callers, x: string, step: SourceStep)
    requires Projects(s, t, w) && SourceEnabled(s, x, step) && Silent(s, x, step)
    ensures Projects(DoSource(s, x, step), t, w)
  {
    assert DoSource(s, x, step).dispatchers.Keys == s.dispatchers.Keys;
  }

  lemma SourceProjects(s: State, t: DT.State, w: Callers, x: string, step: SourceStep)
    requires Projects(s, t, w) && SourceEnabled(s, x, step)
    ensures x in w.who
    ensures var acts := TableSteps(s, x, step, w);
            DT.Feasible(t, acts) && Projects(DoSource(s, x, step), DT.After(t, acts), CallersAfter(x, acts, w))
  {
    if Silent(s, x, step) {
      SilentProjects(s, t, w, x, step);
    } else if step.RouteIt? {
      CallProjects(s, t, w, x, step.ticket);
      OneTableStep(t, DT.Call(w.next, DT.RouteKey(x, Picked(s, s.sources[x].m, step.ticket).value)));
    } else if step.LookUp? {
      LookUpProjects(s, t, w, x);
      OneTableStep(t, DT.FastPath(w.who[x]));
    } else {
      CreateProjects(s, t, w, x);
      OneTableStep(t, DT.SlowPath(w.who[x]));
    }
  }

  lemma OtherProjects(s: State, t: DT.State, w: Callers, a: Action)
    requires Projects(s, t, w) && Enabled(s, a) && !a.ForSource?
    ensures Projects(Step(s, a), t, w)
  {
    assert Step(s, a).sources == s.sources && Step(s, a).dispatchers.Keys == s.dispatchers.Keys;
  }

  lemma {:induction false} TableRunsCompose(t: DT.State, a: seq<DT.Action>, b: seq<DT.Action>)
    requires DT.Feasible(t, a) && DT.Feasible(DT.After(t, a), b)
    ensures DT.Feasible(t, a + b) && DT.After(t, a + b) == DT.After(DT.After(t, a), b)
    decreases |a|
  {
    if a == [] {
      assert a + b == b;
    } else {
      TableRunsCompose(DT.Step(t, a[0]), a[1..], b);
      assert (a + b)[1..] == a[1..] + b;
    }
  }

  lemma {:induction false} RunProjects(s: State, t: DT.State, w: Callers, run: seq<Action>)
    returns (acts: seq<DT.Action>, w': Callers)
    requires Projects(s, t, w) && Feasible(s, run)
    ensures DT.Feasible(t, acts) && Projects(After(s, run), DT.After(t, acts), w')
    decreases |run|
  {
    if run == [] {
      acts, w' := [], w;
    } else {
      var first, w1 := [], w;
      if run[0].ForSource? {
        SourceProjects(s, t, w, run[0].stream, run[0].s);
        first := TableSteps(s, run[0].stream, run[0].s, w);
        w1 := CallersAfter(run[0].stream, first, w);
      } else {
        OtherProjects(s, t, w, run[0]);
      }
      var rest;
      rest, w' := RunProjects(Step(s, run[0]), DT.After(t, first), w1, run[1..]);
      TableRunsCompose(t, first, rest);
      acts := first + rest;
    }
  }

  lemma {:induction false} Numbered(names: set<string>) returns (who: map<string, nat>, n: nat)
    ensures who.Keys == names && (forall x :: x in who ==> who[x] < n)
    ensures forall x, y :: x in who && y in who && x != y ==> who[x] != who[y]
    decreases names
  {
    if names == {} {
      who, n := map[], 0;
    } else {
      var x :| x in names;
      who, n := Numbered(names - {x});
      who, n := who[x := n], n + 1;
    }
  }

  /** Every run of a runtime projects onto a run of the dispatcher table that ends with the
      same keys and with each source's call where the source stands.  So
      `OneDispatcherPerKey` speaks of the runtime: each dispatcher was created once. */
  lemma RuntimeRunsAreTableRuns(s: State, run: seq<Action>) returns (acts: seq<DT.Action>, w: Callers)
    requires JustSpawned(s) && Feasible(s, run)
    ensures DT.Feasible(DT.New(), acts) && Projects(After(s, run), DT.After(DT.New(), acts), w)
    ensures NoDup(DT.After(DT.New(), acts).created)
    ensures forall k :: k in After(s, run).dispatchers <==> k in DT.After(DT.New(), acts).created
  {
    var who, n := Numbered(s.sources.Keys);
    acts, w := RunProjects(s, DT.New(), Callers(who, n), run);
    DT.OneDispatcherPerKey(acts);
    DT.RunInv(DT.New(), acts);
    var t := DT.After(DT.New(), acts);
    forall k ensures k in After(s, run).dispatchers <==> k in t.created {
      assert k in t.table.Keys <==> k in After(s, run).dispatchers.Keys;
      if k in t.created {
        var i :| 0 <= i < |t.created| && t.created[i] == k;
      }
    }
  }
}
