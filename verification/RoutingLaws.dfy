/** What a request gets, said of `Route` alone: keyed requests are spread over the pools by
    hash in the proportions of the weights, keyless ones take turns (`RouteWithKey` of
    pkg/flow/router/weighted_rr.go). */
module RoutingLaws {
  import opened Sequences
  import opened Tasks
  import opened Divisors
  import opened RoutingTable
  import opened RoutingService

  /** Every key hashes to `h`. */
  ghost function AllTo(h: nat): Key -> nat { (key: Key) => h }

  /** A hash below the ring length is the index of the answer; the cursor stays put. */
  lemma KeyedAtItsSlot(e: Entry, hash: Key -> nat, cursor: nat, key: Key)
    requires key != [] && hash(key) < |e.ring|
    ensures Route(e, hash, cursor, key) == (Some(e.ring[hash(key)]), cursor)
  {
    ModUnique(hash(key), |e.ring|, 0, hash(key));
  }

  /** Hashes a whole number of ring lengths apart get the same answer, whatever the keys
      and whatever the cursor. */
  lemma KeyedIsPeriodic(e: Entry, hash: Key -> nat, hash': Key -> nat, cursor: nat, cursor': nat,
                        key: Key, key': Key, n: nat)
    requires key != [] && key' != [] && e.ring != [] && hash'(key') == hash(key) + n * |e.ring|
    ensures Route(e, hash', cursor', key').0 == Route(e, hash, cursor, key).0
    ensures Route(e, hash', cursor', key').1 == cursor'
  {
    var h, m := hash(key), |e.ring|;
    DivMod(h, m);
    assert hash'(key') == (h / m + n) * m + h % m;
    ModUnique(hash'(key'), m, h / m + n, h % m);
  }

  /** A key has nowhere to go exactly when the ring is empty, a keyless request exactly when
      the table is. */
  lemma NowhereExactly(e: Entry, hash: Key -> nat, cursor: nat, key: Key)
    ensures Route(e, hash, cursor, key).0.None? <==> if key == [] then e.table == [] else e.ring == []
  {
  }

  /** What the hash values 0, 1, ... up to the ring length get. */
  ghost function Answers(e: Entry, cursor: nat, key: Key): (r: seq<nat>)
    requires key != [] && e.ring != []
    ensures |r| == |e.ring|
  {
    seq<nat>(|e.ring|, h requires 0 <= h < |e.ring| => var got := Route(e, AllTo(h), cursor, key).0; got.value)
  }

  /** Over one ring length of hash values each target gets exactly its slots; when built from
      weights, its weight over the common divisor. */
  lemma KeyedSharesFollowWeights(pools: seq<Option<string>>, weights: seq<int>, e: Entry, cursor: nat, key: Key)
    requires Builds(pools, weights, Ok(e)) && key != []
    ensures e.ring != []
    ensures forall i :: CountOf(Answers(e, cursor, key), i) == CountOf(e.table, i)
    ensures forall p :: 0 <= p < |pools| && weights[p] > 0 ==>
              var i := Position(weights, p);
              && i < |e.targets| && pools[p] == Some(e.targets[i])
              && GcdAll(KeptWeights(weights)) * CountOf(Answers(e, cursor, key), i) == weights[p]
  {
    TableIsFaithful(pools, weights, e);
    assert 0 in e.table;
    forall h | 0 <= h < |e.ring| ensures Answers(e, cursor, key)[h] == e.ring[h] {
      KeyedAtItsSlot(e, AllTo(h), cursor, key);
    }
    assert Answers(e, cursor, key) == e.table;
  }

  /** A ticket below the table length is the index of a keyless answer, tickets a table
      length apart get the same, and the next ticket is one more. */
  lemma KeylessInTurn(e: Entry, hash: Key -> nat, ticket: nat)
    requires e.table != []
    ensures ticket < |e.table| ==> Route(e, hash, ticket, []).0 == Some(e.table[ticket])
    ensures Route(e, hash, ticket + |e.table|, []).0 == Route(e, hash, ticket, []).0
    ensures ticket + 1 < WORD ==> Route(e, hash, ticket, []).1 == ticket + 1
    ensures ticket + 1 == WORD ==> Route(e, hash, ticket, []).1 == 0
  {
    if ticket < |e.table| { ModUnique(ticket, |e.table|, 0, ticket); }
    ModOnce(ticket, |e.table|);
    if ticket + 1 < WORD { ModUnique(ticket + 1, WORD, 0, ticket + 1); }
  }

  /** Which pools and weights build an entry, and what is wrong with the others. */
  lemma BuildFailsExactly(pools: seq<Option<string>>, weights: seq<int>, r: Result<Entry>)
    requires Builds(pools, weights, r)
    ensures r == Err(EmptyPools) <==> pools == []
    ensures r == Err(LengthMismatch) <==> pools != [] && |pools| != |weights|
    ensures forall i: nat :: r == Err(NilPool(i)) <==>
              && |pools| == |weights| && i < |pools| && pools[i].None?
              && forall j :: 0 <= j < i ==> pools[j].Some?
    ensures r == Err(NoPositiveWeight) <==>
              && pools != [] && |pools| == |weights| && (forall i :: 0 <= i < |pools| ==> pools[i].Some?)
              && forall i :: 0 <= i < |weights| ==> weights[i] <= 0
  {
    NoFirstNil(pools);
    SomeWeightKept(weights);
  }
}
