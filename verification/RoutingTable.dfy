/** `buildRREntry` of pkg/flow/router/weighted_rr.go: what table and ring a weighted
    binding becomes, and how requests are served from them. */
module RoutingTable {
  import opened Sequences
  import opened Divisors

  datatype Option<+T> = None | Some(value: T)

  datatype BuildError = EmptyPools | LengthMismatch | NilPool(at: nat) | NoPositiveWeight

  datatype Result<+T> = Ok(value: T) | Err(error: BuildError)

  /** The immutable part of `rrEntry`; `table` and `ring` hold indices into `targets`. */
  datatype Entry = Entry(targets: seq<string>, table: seq<nat>, ring: seq<nat>)

  // ----- construction -----

  ghost function Repeat(i: nat, n: nat): (r: seq<nat>)
    ensures |r| == n
  {
    seq(n, _ => i)
  }

  /** Target `k` repeated `ws[0]` times, target `k + 1` repeated `ws[1]` times, ... */
  ghost function ExpandFrom(k: nat, ws: seq<nat>): seq<nat>
    decreases |ws|
  {
    if ws == [] then [] else Repeat(k, ws[0]) + ExpandFrom(k + 1, ws[1..])
  }

  ghost function Expand(ws: seq<nat>): seq<nat> { ExpandFrom(0, ws) }

  ghost function KeptPools(pools: seq<Option<string>>, weights: seq<int>): seq<string>
    requires |pools| == |weights| && forall i :: 0 <= i < |pools| ==> pools[i].Some?
  {
    if pools == [] then [] else
      var k := |pools| - 1;
      KeptPools(pools[..k], weights[..k]) + (if weights[k] > 0 then [pools[k].value] else [])
  }

  ghost function KeptWeights(weights: seq<int>): (r: seq<nat>)
    ensures Positive(r)
  {
    if weights == [] then [] else
      var k := |weights| - 1;
      KeptWeights(weights[..k]) + (if weights[k] > 0 then [weights[k]] else [])
  }

  ghost predicate Positive(ws: seq<int>) { forall i :: 0 <= i < |ws| ==> ws[i] > 0 }

  /** The weights divided by their greatest common divisor. */
  ghost function Reduced(ws: seq<nat>): (r: seq<nat>)
    requires ws != [] && Positive(ws)
    ensures |r| == |ws|
  {
    GcdAllPositive(ws);
    var g := GcdAll(ws);
    seq(|ws|, i requires 0 <= i < |ws| => Quotient(ws[i], g))
  }

  ghost function Quotient(w: nat, g: nat): nat
    requires g > 0
  {
    w / g
  }

  ghost predicate FirstNil(pools: seq<Option<string>>, i: nat) {
    i < |pools| && pools[i].None? && forall j :: 0 <= j < i ==> pools[j].Some?
  }

  /** `buildRREntry`, as the entry or the error it yields. */
  ghost predicate Builds(pools: seq<Option<string>>, weights: seq<int>, r: Result<Entry>) {
    if pools == [] then r == Err(EmptyPools)
    else if |pools| != |weights| then r == Err(LengthMismatch)
    else if exists i :: FirstNil(pools, i) then r.Err? && r.error.NilPool? && FirstNil(pools, r.error.at)
    else if KeptWeights(weights) == [] then r == Err(NoPositiveWeight)
    else
      assert forall i :: 0 <= i < |pools| ==> pools[i].Some? by { NoFirstNil(pools); }
      var t := Expand(Reduced(KeptWeights(weights)));
      r == Ok(Entry(KeptPools(pools, weights), t, t))
  }

  lemma {:induction false} SomeWeightKept(weights: seq<int>)
    ensures KeptWeights(weights) != [] <==> exists i :: 0 <= i < |weights| && weights[i] > 0
  {
    if weights != [] {
      var k := |weights| - 1;
      SomeWeightKept(weights[..k]);
      if weights[k] <= 0 {
        assert KeptWeights(weights) == KeptWeights(weights[..k]);
        if i :| 0 <= i < |weights| && weights[i] > 0 {
          assert weights[..k][i] > 0;
        }
      }
    }
  }

  lemma {:induction false} NoFirstNil(pools: seq<Option<string>>)
    ensures (exists i :: FirstNil(pools, i)) || forall i :: 0 <= i < |pools| ==> pools[i].Some?
  {
    if pools != [] {
      var k := |pools| - 1;
      NoFirstNil(pools[..k]);
      if i :| FirstNil(pools[..k], i) {
        assert FirstNil(pools, i);
      } else if pools[k].None? {
        assert forall j :: 0 <= j < k ==> pools[..k][j].Some?;
        assert FirstNil(pools, k);
      }
    }
  }

  lemma BuildsOnce(pools: seq<Option<string>>, weights: seq<int>, r: Result<Entry>, r': Result<Entry>)
    requires Builds(pools, weights, r) && Builds(pools, weights, r')
    ensures r == r'
  {
  }

  // ----- the table represents the weights -----

  /** How many of the slots hold target `i`. */
  ghost function CountOf(slots: seq<nat>, i: nat): nat { multiset(slots)[i] }

  lemma {:induction false} RepeatCounts(i: nat, n: nat, v: nat)
    ensures CountOf(Repeat(i, n), v) == if v == i then n else 0
    decreases n
  {
    if n > 0 {
      RepeatCounts(i, n - 1, v);
      assert Repeat(i, n) == Repeat(i, n - 1) + [i];
    }
  }

  lemma {:induction false} ExpandCounts(k: nat, ws: seq<nat>, v: nat)
    ensures CountOf(ExpandFrom(k, ws), v) == if k <= v < k + |ws| then ws[v - k] else 0
    decreases |ws|
  {
    if ws != [] {
      RepeatCounts(k, ws[0], v);
      ExpandCounts(k + 1, ws[1..], v);
    }
  }

  lemma {:induction false} ExpandConcat(k: nat, a: seq<nat>, b: seq<nat>)
    ensures ExpandFrom(k, a + b) == ExpandFrom(k, a) + ExpandFrom(k + |a|, b)
    decreases |a|
  {
    if a == [] {
      assert a + b == b;
    } else {
      ExpandConcat(k + 1, a[1..], b);
      assert (a + b)[1..] == a[1..] + b;
    }
  }

  ghost function Value(w: nat): int { w }

  lemma {:induction false} ExpandLength(k: nat, ws: seq<nat>)
    ensures |ExpandFrom(k, ws)| == Sum(ws, Value)
    decreases |ws|
  {
    if ws != [] {
      var front := ws[..|ws| - 1];
      assert ws == front + [ws[|ws| - 1]];
      ExpandConcat(k, front, [ws[|ws| - 1]]);
      ExpandLength(k, front);
      assert ExpandFrom(k + |front|, [ws[|ws| - 1]]) == Repeat(k + |front|, ws[|ws| - 1]);
    }
  }

  lemma {:induction false} KeptMatch(pools: seq<Option<string>>, weights: seq<int>)
    requires |pools| == |weights| && forall i :: 0 <= i < |pools| ==> pools[i].Some?
    ensures |KeptPools(pools, weights)| == |KeptWeights(weights)|
  {
    if pools != [] {
      KeptMatch(pools[..|pools| - 1], weights[..|pools| - 1]);
    }
  }

  lemma ReducedTimesGcd(ws: seq<nat>)
    requires ws != [] && Positive(ws)
    ensures GcdAll(ws) > 0 && Scale(GcdAll(ws), Reduced(ws)) == ws
    ensures GcdAll(Reduced(ws)) == 1
    ensures Positive(Reduced(ws))
  {
    var g, vs := GcdAll(ws), Reduced(ws);
    GcdAllPositive(ws);
    forall i | 0 <= i < |ws| ensures g * vs[i] == ws[i] && vs[i] > 0 {
      GcdAllDivides(ws, i);
      var k :| Times(k, g) == ws[i];
      ModUnique(ws[i], g, k, 0);
    }
    assert Scale(g, vs) == ws;
    GcdAllScales(g, vs);
    var h := GcdAll(vs);
    assert g * h == g * 1;
    OneFactor(g, h);
  }

  lemma OneFactor(g: nat, h: nat)
    requires g > 0 && g * h == g
    ensures h == 1
  {
  }

  /** `counts` holds how often each target occurs, in the same proportions as `ws`. */
  ghost predicate Proportional(slots: seq<nat>, ws: seq<nat>) {
    && (forall v :: v in slots ==> v < |ws|)
    && forall i, j :: 0 <= i < |ws| && 0 <= j < |ws| ==>
         Times(CountOf(slots, i), ws[j]) == Times(CountOf(slots, j), ws[i])
  }

  lemma SlotCount(ws: seq<nat>, i: nat)
    requires ws != [] && Positive(ws) && i < |ws|
    ensures CountOf(Expand(Reduced(ws)), i) == Reduced(ws)[i]
    ensures GcdAll(ws) * Reduced(ws)[i] == ws[i] && i in Expand(Reduced(ws))
  {
    ReducedTimesGcd(ws);
    ExpandCounts(0, Reduced(ws), i);
    assert Scale(GcdAll(ws), Reduced(ws))[i] == ws[i];
    assert i in multiset(Expand(Reduced(ws)));
  }

  lemma ExpandMembers(vs: seq<nat>)
    ensures forall v :: v in Expand(vs) ==> v < |vs|
  {
    forall v | v in Expand(vs) ensures v < |vs| {
      ExpandCounts(0, vs, v);
      assert v in multiset(Expand(vs));
    }
  }

  lemma SwapFactor(g: int, x: int, y: int)
    ensures x * (g * y) == y * (g * x)
  {
  }

  lemma ReducedProportional(ws: seq<nat>)
    requires ws != [] && Positive(ws)
    ensures Proportional(Expand(Reduced(ws)), ws)
  {
    var t := Expand(Reduced(ws));
    ExpandMembers(Reduced(ws));
    forall i: nat, j: nat | i < |ws| && j < |ws| ensures Times(CountOf(t, i), ws[j]) == Times(CountOf(t, j), ws[i]) {
      SlotCount(ws, i);
      SlotCount(ws, j);
      SwapFactor(GcdAll(ws), Reduced(ws)[i], Reduced(ws)[j]);
    }
  }

  /** Pool `p`, when its weight is positive, becomes the target at this position. */
  ghost function Position(weights: seq<int>, p: nat): nat
    requires p < |weights|
  {
    |KeptWeights(weights[..p])|
  }

  lemma {:induction false} KeptAt(pools: seq<Option<string>>, weights: seq<int>, p: nat)
    requires |pools| == |weights| && forall i :: 0 <= i < |pools| ==> pools[i].Some?
    requires p < |pools| && weights[p] > 0
    ensures var i := Position(weights, p);
            && i < |KeptWeights(weights)| == |KeptPools(pools, weights)|
            && KeptWeights(weights)[i] == weights[p] && KeptPools(pools, weights)[i] == pools[p].value
  {
    var k := |pools| - 1;
    KeptMatch(pools[..k], weights[..k]);
    if p < k {
      KeptAt(pools[..k], weights[..k], p);
      assert weights[..k][..p] == weights[..p];
    }
  }

  /** The table is faithful: every pool of positive weight is a target, with its weight
      divided by the common divisor as its number of slots, so the proportions are exactly
      those of the positive input weights; the other pools are no targets. */
  lemma TableIsFaithful(pools: seq<Option<string>>, weights: seq<int>, e: Entry)
    requires Builds(pools, weights, Ok(e))
    ensures var ws := KeptWeights(weights);
            && ws != [] && |e.targets| == |ws|
            && Proportional(e.table, ws)
            && e.ring == e.table
            && (forall i :: 0 <= i < |ws| ==> i in e.table)
            && forall p :: 0 <= p < |pools| && weights[p] > 0 ==>
                 var i := Position(weights, p);
                 i < |e.targets| && pools[p] == Some(e.targets[i]) && GcdAll(ws) * CountOf(e.table, i) == weights[p]
  {
    var ws := KeptWeights(weights);
    NoFirstNil(pools);
    KeptMatch(pools, weights);
    ReducedProportional(ws);
    forall i | 0 <= i < |ws| ensures i in e.table {
      SlotCount(ws, i);
    }
    forall p | 0 <= p < |pools| && weights[p] > 0
      ensures var i := Position(weights, p);
              i < |e.targets| && pools[p] == Some(e.targets[i]) && GcdAll(ws) * CountOf(e.table, i) == weights[p]
    {
      KeptAt(pools, weights, p);
      SlotCount(ws, Position(weights, p));
    }
  }

  ghost function CountIn(slots: seq<nat>): nat -> int { (i: nat) => CountOf(slots, i) }

  ghost function UpTo(n: nat): seq<nat> { seq(n, i requires 0 <= i < n => i) }

  /** Counting the slots target by target gives all of them. */
  lemma {:induction false} SlotsByTarget(slots: seq<nat>, n: nat)
    requires forall v :: v in slots ==> v < n
    ensures Sum(UpTo(n), CountIn(slots)) == |slots|
    decreases |slots|
  {
    if slots == [] {
      SumZero(UpTo(n), CountIn(slots));
    } else {
      var k := |slots| - 1;
      assert slots == slots[..k] + [slots[k]];
      assert slots[k] in slots;
      assert forall v :: v in slots[..k] ==> v in slots;
      SlotsByTarget(slots[..k], n);
      OneMore(slots[..k], slots[k], n, n);
    }
  }

  lemma {:induction false} OneMore(slots: seq<nat>, v: nat, m: nat, n: nat)
    requires m <= n
    ensures Sum(UpTo(m), CountIn(slots + [v])) == Sum(UpTo(m), CountIn(slots)) + if v < m then 1 else 0
    decreases m
  {
    if m > 0 {
      assert UpTo(m)[..m - 1] == UpTo(m - 1);
      OneMore(slots, v, m - 1, n);
    }
  }

  lemma {:induction false} SumOfProducts(slots: seq<nat>, vs: seq<nat>, i: nat, m: nat)
    requires i < |vs| && m <= |vs|
    requires forall j :: 0 <= j < |vs| ==> Times(CountOf(slots, i), vs[j]) == Times(CountOf(slots, j), vs[i])
    ensures CountOf(slots, i) * Sum(vs[..m], Value) == Sum(UpTo(m), CountIn(slots)) * vs[i]
    decreases m
  {
    if m > 0 {
      var j := m - 1;
      SumOfProducts(slots, vs, i, j);
      assert vs[..m][..j] == vs[..j] && UpTo(m)[..j] == UpTo(j);
      assert Times(CountOf(slots, i), vs[j]) == Times(CountOf(slots, j), vs[i]);
      ProductStep(CountOf(slots, i), Sum(vs[..j], Value), vs[j],
                  Sum(UpTo(j), CountIn(slots)), CountOf(slots, j), vs[i]);
    }
  }

  lemma ProductStep(c: int, a: int, v: int, b: int, n: int, w: int)
    requires c * a == b * w && c * v == n * w
    ensures c * (a + v) == (b + n) * w
  {
  }

  /** The table is minimal: any list of slots that serves the targets in the proportions
      of the positive weights has a length that is a multiple of the table's. */
  lemma TableIsMinimal(pools: seq<Option<string>>, weights: seq<int>, e: Entry, slots: seq<nat>)
    requires Builds(pools, weights, Ok(e))
    requires Proportional(slots, KeptWeights(weights))
    ensures |e.table| > 0 && Divides(|e.table|, |slots|)
  {
    var ws := KeptWeights(weights);
    var vs, g := Reduced(ws), GcdAll(ws);
    NoFirstNil(pools);
    ReducedTimesGcd(ws);
    ExpandLength(0, vs);
    SumAtLeast(vs, 0, Value);
    SlotsByTarget(slots, |vs|);
    forall i | 0 <= i < |vs| ensures Divides(|e.table|, |slots| * vs[i]) {
      forall j | 0 <= j < |vs| ensures Times(CountOf(slots, i), vs[j]) == Times(CountOf(slots, j), vs[i]) {
        assert ws[i] == Scale(g, vs)[i] && ws[j] == Scale(g, vs)[j];
        assert Times(CountOf(slots, i), ws[j]) == Times(CountOf(slots, j), ws[i]);
        CancelFactor(g, CountOf(slots, i), vs[j], CountOf(slots, j), vs[i]);
      }
      SumOfProducts(slots, vs, i, |vs|);
      assert vs[..|vs|] == vs;
      DividesBy(|e.table|, |slots| * vs[i], CountOf(slots, i));
    }
    GcdAllAbsorbs(|e.table|, |slots|, vs);
  }

  lemma CancelFactor(g: int, a: int, x: int, b: int, y: int)
    requires g > 0 && a * (g * x) == b * (g * y)
    ensures a * x == b * y
  {
    assert g * (a * x) == g * (b * y) by {
      assert a * (g * x) == g * (a * x);
      assert b * (g * y) == g * (b * y);
    }
    TimesGrows(a * x - b * y, g);
    assert g * (a * x - b * y) == 0;
  }

  ghost function ScaleInts(m: int, ws: seq<int>): (r: seq<int>)
    ensures |r| == |ws|
  {
    seq(|ws|, i requires 0 <= i < |ws| => m * ws[i])
  }

  lemma {:induction false} KeptScales(m: int, pools: seq<Option<string>>, weights: seq<int>)
    requires m > 0 && |pools| == |weights| && forall i :: 0 <= i < |pools| ==> pools[i].Some?
    ensures KeptWeights(ScaleInts(m, weights)) == Scale(m, KeptWeights(weights))
    ensures KeptPools(pools, ScaleInts(m, weights)) == KeptPools(pools, weights)
  {
    if weights != [] {
      var k := |weights| - 1;
      KeptScales(m, pools[..k], weights[..k]);
      assert ScaleInts(m, weights)[..k] == ScaleInts(m, weights[..k]);
      TimesGrows(weights[k], m);
      assert m * weights[k] > 0 <==> weights[k] > 0;
    }
  }

  lemma ReducedScales(m: nat, ws: seq<nat>)
    requires m > 0 && ws != [] && Positive(ws)
    ensures Positive(Scale(m, ws))
    ensures Reduced(Scale(m, ws)) == Reduced(ws)
  {
    var g := GcdAll(ws);
    GcdAllScales(m, ws);
    GcdAllPositive(ws);
    forall i | 0 <= i < |ws| ensures m * ws[i] > 0 && (m * ws[i]) / (m * g) == ws[i] / g {
      GcdAllDivides(ws, i);
      QuotientScales(m, g, ws[i]);
    }
    assert Positive(Scale(m, ws));
    assert Reduced(Scale(m, ws)) == Reduced(ws);
  }

  lemma QuotientScales(m: nat, g: nat, w: nat)
    requires m > 0 && g > 0 && w > 0 && Divides(g, w)
    ensures m * w > 0 && m * g > 0 && (m * w) / (m * g) == w / g
  {
    var k :| Times(k, g) == w;
    TimesGrows(w, m);
    TimesGrows(g, m);
    assert m * (k * g) == k * (m * g);
    ModUnique(w, g, k, 0);
    ModUnique(m * w, m * g, k, 0);
  }

  /** Scale invariance: multiplying all weights by a positive constant builds the identical
      entry, or fails with the identical error. */
  lemma BuildIsScaleInvariant(pools: seq<Option<string>>, weights: seq<int>, m: int, r: Result<Entry>)
    requires m > 0 && Builds(pools, weights, r)
    ensures Builds(pools, ScaleInts(m, weights), r)
  {
    if pools != [] && |pools| == |weights| && !(exists i :: FirstNil(pools, i)) {
      NoFirstNil(pools);
      KeptScales(m, pools, weights);
      var ws := KeptWeights(weights);
      if ws != [] {
        ReducedScales(m, ws);
      }
    }
  }
}
