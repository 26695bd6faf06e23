/** pkg/flow/router/weighted_rr.go in its own, imperative form, proved against
    `RoutingTable.Builds` and `RoutingService.Route`. */
module WeightedRouter {
  import opened Tasks
  import opened Divisors
  import opened RoutingTable
  import opened RoutingService

  class RREntry {
    const targets: seq<string>
    const table: seq<nat>
    const ring: seq<nat>
    var cursor: nat

    ghost predicate Valid()
      reads this
    {
      && cursor < WORD
      && (forall t :: t in table ==> t < |targets|)
      && (forall t :: t in ring ==> t < |targets|)
    }

    /** The immutable part. */
    ghost function Static(): Entry { Entry(targets, table, ring) }

    constructor (targets: seq<string>, table: seq<nat>)
      requires forall t :: t in table ==> t < |targets|
      ensures Valid() && Static() == Entry(targets, table, table) && cursor == 0
    {
      this.targets := targets;
      this.table := table;
      this.ring := table;
      this.cursor := 0;
    }
  }

  ghost function Outcome(r: Result<RREntry>): Result<Entry> {
    match r
    case Ok(e) => Ok(e.Static())
    case Err(error) => Err(error)
  }

  /** The first loop of `buildRREntry`: keep the pools of positive weight, stop at nil. */
  method KeepPositive(pools: seq<Option<string>>, weights: seq<int>)
    returns (ps: seq<string>, ws: seq<nat>, nilAt: Option<nat>)
    requires |pools| == |weights|
    ensures nilAt.Some? ==> FirstNil(pools, nilAt.value)
    ensures nilAt.None? ==> forall i :: 0 <= i < |pools| ==> pools[i].Some?
    ensures nilAt.None? ==> ps == KeptPools(pools, weights) && ws == KeptWeights(weights)
  {
    ps, ws, nilAt := [], [], None;
    for i := 0 to |pools|
      invariant forall j :: 0 <= j < i ==> pools[j].Some?
      invariant ps == KeptPools(pools[..i], weights[..i]) && ws == KeptWeights(weights[..i])
    {
      if pools[i].None? {
        return ps, ws, Some(i);
      }
      assert pools[..i + 1][..i] == pools[..i] && weights[..i + 1][..i] == weights[..i];
      if weights[i] > 0 {
        ps := ps + [pools[i].value];
        ws := ws + [weights[i]];
      }
    }
    assert pools[..|pools|] == pools && weights[..|pools|] == weights;
  }

  /** The second and third loops: divide by the common divisor, when it is above 1. */
  method DivideByGcd(ws0: seq<nat>) returns (ws: seq<nat>)
    requires ws0 != [] && Positive(ws0)
    ensures ws == Reduced(ws0)
  {
    ws := ws0;
    var g: nat := ws[0];
    for i := 1 to |ws|
      invariant g == GcdAll(ws0[..i])
    {
      assert ws0[..i + 1][..i] == ws0[..i];
      g := ComputeGcd(g, ws[i]);
    }
    assert ws0[..|ws0|] == ws0;
    GcdAllPositive(ws0);
    if g > 1 {
      for i := 0 to |ws|
        invariant |ws| == |ws0|
        invariant forall j :: 0 <= j < i ==> ws[j] == Reduced(ws0)[j]
        invariant forall j :: i <= j < |ws| ==> ws[j] == ws0[j]
      {
        QuotientIsNatural(ws[i], g);
        ws := ws[i := ws[i] / g];
      }
    } else {
      assert forall j :: 0 <= j < |ws| ==> Reduced(ws0)[j] == ws0[j];
    }
  }

  lemma QuotientIsNatural(w: nat, g: nat)
    requires g > 0
    ensures w / g == Quotient(w, g) >= 0
  {
  }

  /** The nested loops that expand the table. */
  method ExpandTable(ws: seq<nat>) returns (table: seq<nat>)
    ensures table == Expand(ws)
  {
    table := [];
    for i := 0 to |ws|
      invariant table == Expand(ws[..i])
    {
      ghost var before := table;
      for k := 0 to ws[i]
        invariant table == before + Repeat(i, k)
      {
        assert Repeat(i, k + 1) == Repeat(i, k) + [i];
        table := table + [i];
      }
      assert ws[..i + 1] == ws[..i] + [ws[i]];
      ExpandConcat(0, ws[..i], [ws[i]]);
      assert ExpandFrom(i, [ws[i]]) == Repeat(i, ws[i]);
    }
    assert ws[..|ws|] == ws;
  }

  method BuildRREntry(pools: seq<Option<string>>, weights: seq<int>) returns (r: Result<RREntry>)
    ensures Builds(pools, weights, Outcome(r))
    ensures r.Ok? ==> fresh(r.value) && r.value.Valid() && r.value.cursor == 0
  {
    if |pools| == 0 {
      return Err(EmptyPools);
    }
    if |pools| != |weights| {
      return Err(LengthMismatch);
    }
    var ps, ws, nilAt := KeepPositive(pools, weights);
    if nilAt.Some? {
      return Err(NilPool(nilAt.value));
    }
    assert !exists i :: FirstNil(pools, i);
    if |ps| == 0 {
      KeptMatch(pools, weights);
      return Err(NoPositiveWeight);
    }
    KeptMatch(pools, weights);
    ws := DivideByGcd(ws);
    var table := ExpandTable(ws);
    ExpandMembers(ws);
    var e := new RREntry(ps, table);
    r := Ok(e);
  }

  datatype BindError = RouteExists | BadEntry(why: BuildError)

  class WeightedRRRouter {
    const hash: Key -> nat
    var routes: map<string, RREntry>

    ghost predicate Valid()
      reads this, routes.Values
    {
      && (forall s :: s in routes ==> routes[s].Valid())
      && (forall s, t :: s in routes && t in routes && s != t ==> routes[s] != routes[t])
    }

    /** The entry each stream is routed by. */
    ghost function Entries(): map<string, Entry>
      reads this`routes
    {
      map s | s in routes :: routes[s].Static()
    }

    constructor (hash: Key -> nat)
      ensures Valid() && this.hash == hash && routes == map[]
    {
      this.hash := hash;
      routes := map[];
    }

    /** Installs a route where there is none; on any error nothing changes. */
    method BindMany(src: string, pools: seq<Option<string>>, weights: seq<int>) returns (error: Option<BindError>)
      requires Valid()
      modifies this
      ensures Valid()
      ensures error.None? ==>
                && src !in old(routes) && src in routes && Builds(pools, weights, Ok(routes[src].Static()))
                && fresh(routes[src]) && routes[src].cursor == 0 && routes == old(routes)[src := routes[src]]
      ensures error.Some? ==> routes == old(routes)
      ensures error == Some(RouteExists) ==> src in old(routes)
      ensures error.Some? && error.value.BadEntry? ==> Builds(pools, weights, Err(error.value.why))
    {
      var built := BuildRREntry(pools, weights);
      if built.Err? {
        return Some(BadEntry(built.error));
      }
      if src in routes {
        return Some(RouteExists);
      }
      routes := routes[src := built.value];
      error := None;
    }

    /** `Bind`: one pool of weight one. */
    method Bind(src: string, pool: Option<string>) returns (error: Option<BindError>)
      requires Valid()
      modifies this
      ensures Valid()
      ensures error.None? <==> src !in old(routes) && pool.Some?
      ensures error.None? ==> src in routes && routes[src].Static() == Entry([pool.value], [0], [0])
    {
      error := BindMany(src, [pool], [1]);
      if pool.Some? {
        OnePool(pool);
        var e := Entry([pool.value], [0], [0]);
        if error.None? {
          BuildsOnce([pool], [1], Ok(routes[src].Static()), Ok(e));
        } else if error.value.BadEntry? {
          BuildsOnce([pool], [1], Err(error.value.why), Ok(e));
        }
      } else {
        assert FirstNil([pool], 0);
      }
    }

    /** Overwrites the route with a fresh entry (cursor 0); on any error nothing changes. */
    method SetMany(src: string, pools: seq<Option<string>>, weights: seq<int>) returns (error: Option<BuildError>)
      requires Valid()
      modifies this
      ensures Valid()
      ensures error.None? ==>
                && src in routes && Builds(pools, weights, Ok(routes[src].Static()))
                && fresh(routes[src]) && routes[src].cursor == 0 && routes == old(routes)[src := routes[src]]
                && Entries() == old(Entries())[src := routes[src].Static()]
      ensures error.Some? ==> routes == old(routes) && Builds(pools, weights, Err(error.value))
    {
      var built := BuildRREntry(pools, weights);
      if built.Err? {
        return Some(built.error);
      }
      routes := routes[src := built.value];
      error := None;
    }

    /** Serves one request: keyed ones by the hash slot of the ring, leaving the cursor
        alone; keyless ones by the next ticket. */
    method RouteWithKey(src: string, key: Key) returns (pool: Option<string>)
      requires Valid()
      modifies if src in routes then {routes[src]} else {}
      ensures Valid() && routes == old(routes)
      ensures src !in routes ==> pool == None
      ensures src in routes ==>
                var e := routes[src];
                var (got, next) := Route(e.Static(), hash, old(e.cursor), key);
                && e.cursor == next
                && (if got.Some? then got.value < |e.targets| && pool == Some(e.targets[got.value]) else pool == None)
      ensures src in routes && key != [] ==>
                var e := routes[src];
                e.cursor == old(e.cursor)
                && if e.ring == [] then pool == None
                   else var t := e.ring[hash(key) % |e.ring|]; t < |e.targets| && pool == Some(e.targets[t])
    {
      if src !in routes {
        return None;
      }
      var e := routes[src];
      assert e.Valid();
      if |key| > 0 {
        if |e.ring| == 0 {
          return None;
        }
        var t := e.ring[hash(key) % |e.ring|];
        assert t in e.ring;
        return Some(e.targets[t]);
      }
      if |e.table| == 0 {
        return None;
      }
      var i := e.cursor;
      e.cursor := (e.cursor + 1) % WORD;
      var t := e.table[i % |e.table|];
      assert t in e.table;
      return Some(e.targets[t]);
    }
  }

  lemma OnePool(pool: Option<string>)
    requires pool.Some?
    ensures Builds([pool], [1], Ok(Entry([pool.value], [0], [0])))
  {
    OneKept(pool);
    OneWeight();
    assert !FirstNil([pool], 0);
  }

  lemma OneKept(pool: Option<string>)
    requires pool.Some?
    ensures KeptWeights([1]) == [1] && KeptPools([pool], [1]) == [pool.value]
  {
    assert [1][..0] == [] && [pool][..0] == [];
  }

  lemma OneWeight()
    ensures Reduced([1]) == [1] && Expand([1]) == [0]
  {
    ReducedTimesGcd([1]);
    assert Scale(1, Reduced([1]))[0] == 1;
    assert Expand([1]) == Repeat(0, 1) + ExpandFrom(1, []) == [0];
  }
}
