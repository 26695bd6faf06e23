/** How far apart the controller's applications to one stream are
    (pkg/scheduler/controller.go, `inCooldown` and `markApplied`). */
module Cooldown {
  import opened Sequences
  import opened Divisors
  import opened RoutingTable
  import opened Rebalance
  import opened ControlLoop

  /** The clock readings stored for stream `s`, in order. */
  ghost function Marks(applied: seq<(string, int)>, s: string): seq<int> {
    if applied == [] then [] else
      var k := |applied| - 1;
      Marks(applied[..k], s) + if applied[k].0 == s then [applied[k].1] else []
  }

  ghost predicate Spaced(ts: seq<int>, cd: int) {
    forall i, j :: 0 <= i < j < |ts| ==> ts[j] - ts[i] >= cd
  }

  ghost function StopsOf(t: Tick): seq<Stop> { if t.Sampled? then t.stops else [] }

  /** The readings of all visits of a run, in the order they were taken. */
  ghost function AllStops(ticks: seq<Tick>): seq<Stop> {
    if ticks == [] then [] else
      var k := |ticks| - 1;
      AllStops(ticks[..k]) + StopsOf(ticks[k])
  }

  ghost predicate Monotone(stops: seq<Stop>) {
    && (forall i :: 0 <= i < |stops| ==> stops[i].check <= stops[i].mark)
    && (forall i, j :: 0 <= i < j < |stops| ==> stops[i].mark <= stops[j].check)
  }

  /** The clock after `stops`, when it stood at `now` before. */
  ghost function Clock(now: int, stops: seq<Stop>): int {
    if stops == [] then now else stops[|stops| - 1].mark
  }

  lemma MonotoneParts(a: seq<Stop>, b: seq<Stop>, now: int)
    requires Monotone(a + b) && (a + b != [] ==> now <= (a + b)[0].check)
    ensures Monotone(a) && (a != [] ==> now <= a[0].check)
    ensures Monotone(b) && (b != [] ==> Clock(now, a) <= b[0].check)
    ensures Clock(now, a + b) == Clock(Clock(now, a), b)
  {
    assert forall i :: 0 <= i < |a| ==> a[i] == (a + b)[i];
    assert forall i :: 0 <= i < |b| ==> b[i] == (a + b)[|a| + i];
  }

  /** The applications recorded so far are spaced, the last one is the stored one, and
      none is later than `now`. */
  ghost predicate StreamSpaced(c: Config, l: Loop, s: string, now: int) {
    SpacedUpTo(Marks(l.applied, s), Lookup(l.lastApply, s), CooldownOf(c, s), now)
  }

  ghost predicate SpacedUpTo(ts: seq<int>, last: Option<int>, cd: int, now: int) {
    && cd > 0 && Spaced(ts, cd)
    && (ts != [] ==> last == Some(ts[|ts| - 1]) && ts[|ts| - 1] <= now)
  }

  lemma CooldownPositive(c: Config, s: string)
    requires ValidConfig(c)
    ensures CooldownOf(c, s) > 0
  {
  }

  lemma MarksAppend(applied: seq<(string, int)>, x: (string, int), s: string)
    ensures Marks(applied + [x], s) == Marks(applied, s) + if x.0 == s then [x.1] else []
  {
    assert (applied + [x])[..|applied|] == applied;
  }

  /** A visit leaves the stream's marks and stored time alone, or adds the same reading to
      both, its cooldown being over. */
  lemma VisitMarks(c: Config, l: Loop, st: Stop, snap: Snapshot, s: string)
    requires ValidConfig(c)
    ensures var l' := Visit(c, l, st.stream, snap, st.check, st.mark);
            || (Marks(l'.applied, s) == Marks(l.applied, s) && Lookup(l'.lastApply, s) == Lookup(l.lastApply, s))
            || (Marks(l'.applied, s) == Marks(l.applied, s) + [st.mark] && Lookup(l'.lastApply, s) == Some(st.mark)
                && (Lookup(l.lastApply, s).Some? ==> st.check - Lookup(l.lastApply, s).value >= CooldownOf(c, s)))
  {
    MarksAppend(l.applied, (st.stream, st.mark), s);
    TurnLast(c, st.stream, SliceOf(l, st.stream), snap, st.check, st.mark);
  }

  /** A turn stores its reading if it applies a plan, and then its cooldown was over. */
  lemma TurnLast(c: Config, s: string, sl: Slice, snap: Snapshot, check: int, mark: int)
    requires ValidConfig(c)
    ensures var (sl', effect) := Turn(c, s, sl, snap, check, mark);
            if effect.Applied? then
              sl'.lastApply == Some(mark) && (sl.lastApply.Some? ==> check - sl.lastApply.value >= CooldownOf(c, s))
            else sl'.lastApply == sl.lastApply
  {
  }

  lemma OneMoreMark(ts: seq<int>, last: Option<int>, cd: int, now: int, check: int, mark: int)
    requires SpacedUpTo(ts, last, cd, now) && now <= check <= mark && (last.Some? ==> check - last.value >= cd)
    ensures SpacedUpTo(ts + [mark], Some(mark), cd, mark)
  {
    assert forall i :: 0 <= i < |ts| - 1 ==> ts[|ts| - 1] - ts[i] >= cd;
  }

  lemma VisitSpaced(c: Config, l: Loop, st: Stop, snap: Snapshot, s: string, now: int)
    requires ValidConfig(c) && StreamSpaced(c, l, s, now) && now <= st.check <= st.mark
    ensures StreamSpaced(c, Visit(c, l, st.stream, snap, st.check, st.mark), s, st.mark)
  {
    VisitMarks(c, l, st, snap, s);
    CooldownPositive(c, s);
    if Lookup(l.lastApply, s).None? || st.check - Lookup(l.lastApply, s).value >= CooldownOf(c, s) {
      OneMoreMark(Marks(l.applied, s), Lookup(l.lastApply, s), CooldownOf(c, s), now, st.check, st.mark);
    }
  }

  lemma {:induction false} VisitsSpaced(c: Config, l: Loop, stops: seq<Stop>, snap: Snapshot, s: string, now: int)
    requires ValidConfig(c) && StreamSpaced(c, l, s, now)
    requires Monotone(stops) && (stops != [] ==> now <= stops[0].check)
    ensures StreamSpaced(c, Visits(c, l, snap, stops), s, Clock(now, stops))
  {
    if stops != [] {
      var k := |stops| - 1;
      VisitsSpaced(c, l, stops[..k], snap, s, now);
      VisitSpaced(c, Visits(c, l, snap, stops[..k]), stops[k], snap, s, if k == 0 then now else stops[k - 1].mark);
    }
  }

  lemma LastTick(ticks: seq<Tick>, now: int)
    requires ticks != [] && Monotone(AllStops(ticks)) && (AllStops(ticks) != [] ==> now <= AllStops(ticks)[0].check)
    ensures var a, b := AllStops(ticks[..|ticks| - 1]), StopsOf(ticks[|ticks| - 1]);
            && Monotone(a) && (a != [] ==> now <= a[0].check)
            && Monotone(b) && (b != [] ==> Clock(now, a) <= b[0].check)
            && Clock(now, AllStops(ticks)) == Clock(Clock(now, a), b)
  {
    MonotoneParts(AllStops(ticks[..|ticks| - 1]), StopsOf(ticks[|ticks| - 1]), now);
  }

  lemma TickSpaced(c: Config, l: Loop, t: Tick, stops: seq<Stop>, s: string, now: int)
    requires ValidConfig(c) && StreamSpaced(c, l, s, now) && stops == StopsOf(t)
    requires Monotone(stops) && (stops != [] ==> now <= stops[0].check)
    ensures StreamSpaced(c, DoTick(c, l, t), s, Clock(now, stops))
  {
    if t.Sampled? { VisitsSpaced(c, l, stops, t.snap, s, now); }
  }

  lemma {:induction false} RunSpaced(c: Config, start: Loop, ticks: seq<Tick>, s: string, now: int)
    requires ValidConfig(c) && start.applied == []
    requires Monotone(AllStops(ticks)) && (AllStops(ticks) != [] ==> now <= AllStops(ticks)[0].check)
    ensures StreamSpaced(c, Run(c, start, ticks), s, Clock(now, AllStops(ticks)))
  {
    CooldownPositive(c, s);
    if ticks == [] {
      assert Marks(start.applied, s) == [];
    } else {
      var k := |ticks| - 1;
      LastTick(ticks, now);
      RunSpaced(c, start, ticks[..k], s, now);
      TickSpaced(c, Run(c, start, ticks[..k]), ticks[k], StopsOf(ticks[k]), s, Clock(now, AllStops(ticks[..k])));
    }
  }

  // ----- windows -----

  ghost function Within(a: int, t: nat): int -> bool { (x: int) => a <= x <= a + t }

  lemma {:induction false} SpacedSelect(ts: seq<int>, cd: int, p: int -> bool)
    requires Spaced(ts, cd)
    ensures Spaced(Select(ts, p), cd)
  {
    if ts != [] {
      var k := |ts| - 1;
      SpacedSelect(ts[..k], cd, p);
      SelectMember(ts[..k], p);
      var front := Select(ts[..k], p);
      forall i | 0 <= i < |front| ensures ts[k] - front[i] >= cd {
        assert front[i] in front;
      }
    }
  }

  lemma {:induction false} SpacedSpan(ts: seq<int>, cd: int)
    requires Spaced(ts, cd) && ts != []
    ensures ts[|ts| - 1] - ts[0] >= Times(|ts| - 1, cd)
  {
    if |ts| > 1 {
      var k := |ts| - 1;
      SpacedSpan(ts[..k], cd);
      assert Times(k, cd) == Times(k - 1, cd) + cd;
    }
  }

  lemma SpanBound(n: nat, cd: int, t: nat)
    requires cd > 0 && Times(n, cd) <= t
    ensures n <= t / cd
  {
    DivMod(t, cd);
    TimesGrows(n - t / cd, cd);
    assert (n - t / cd) * cd == Times(n, cd) - (t / cd) * cd;
  }

  /** Cooldown spacing: over any run with a non-decreasing clock, successive applications
      to one stream are at least its effective cooldown apart, so any closed window of
      length `t` holds at most 1 + floor(t / cd) of them, whatever the other streams do. */
  lemma ApplicationsAreSpaced(c: Config, start: Loop, ticks: seq<Tick>, s: string, a: int, t: nat)
    requires ValidConfig(c) && start.applied == [] && Monotone(AllStops(ticks))
    ensures var marks, cd := Marks(Run(c, start, ticks).applied, s), CooldownOf(c, s);
            cd > 0 && Spaced(marks, cd) && |Select(marks, Within(a, t))| <= 1 + t / cd
  {
    var stops := AllStops(ticks);
    var marks, cd := Marks(Run(c, start, ticks).applied, s), CooldownOf(c, s);
    RunSpaced(c, start, ticks, s, if stops == [] then 0 else stops[0].check);
    CooldownPositive(c, s);
    var w := Select(marks, Within(a, t));
    SpacedSelect(marks, cd, Within(a, t));
    SelectMember(marks, Within(a, t));
    if w != [] {
      assert w[0] in w && w[|w| - 1] in w;
      SpacedSpan(w, cd);
      SpanBound(|w| - 1, cd, t);
    } else {
      SpanBound(0, cd, t);
    }
  }
}
