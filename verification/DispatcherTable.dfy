/** `getOrCreateDispatcher` of pkg/runtime/runtime.go: a map filled on first use by
    double-checked creation, under any number of racing callers. */
module DispatcherTable {
  import opened Sequences

  /** A call: before the read-locked lookup, after missing it, or returned with the
      dispatcher it got.  Dispatchers are numbered in the order of their creation. */
  datatype Caller = Looking(key: string) | Missed(key: string) | Got(key: string, dispatcher: nat)

  /** `created[i]` is the key dispatcher `i` was created for. */
  datatype State = State(table: map<string, nat>, created: seq<string>, callers: map<nat, Caller>)

  datatype Action =
    | Call(c: nat, key: string)
    | FastPath(c: nat)   // the lookup under the read lock
    | SlowPath(c: nat)   // check again, create if still absent, under the write lock

  ghost function New(): State { State(map[], [], map[]) }

  ghost predicate Enabled(s: State, a: Action) {
    match a
    case Call(c, _) => c !in s.callers
    case FastPath(c) => c in s.callers && s.callers[c].Looking?
    case SlowPath(c) => c in s.callers && s.callers[c].Missed?
  }

  ghost function Step(s: State, a: Action): State
    requires Enabled(s, a)
  {
    match a
    case Call(c, key) => s.(callers := s.callers[c := Looking(key)])
    case FastPath(c) =>
      var key := s.callers[c].key;
      s.(callers := s.callers[c := if key in s.table then Got(key, s.table[key]) else Missed(key)])
    case SlowPath(c) =>
      var key := s.callers[c].key;
      if key in s.table then s.(callers := s.callers[c := Got(key, s.table[key])])
      else State(s.table[key := |s.created|], s.created + [key], s.callers[c := Got(key, |s.created|)])
  }

  ghost predicate Feasible(s: State, run: seq<Action>)
    decreases |run|
  {
    run == [] || (Enabled(s, run[0]) && Feasible(Step(s, run[0]), run[1..]))
  }

  ghost function After(s: State, run: seq<Action>): State
    requires Feasible(s, run)
    decreases |run|
  {
    if run == [] then s else After(Step(s, run[0]), run[1..])
  }

  ghost predicate Inv(s: State) {
    && (forall key :: key in s.table ==> s.table[key] < |s.created| && s.created[s.table[key]] == key)
    && (forall i :: 0 <= i < |s.created| ==> s.created[i] in s.table && s.table[s.created[i]] == i)
    && (forall c :: c in s.callers && s.callers[c].Got? ==>
          s.callers[c].key in s.table && s.table[s.callers[c].key] == s.callers[c].dispatcher)
  }

  lemma {:induction false} RunInv(s: State, run: seq<Action>)
    requires Inv(s) && Feasible(s, run)
    ensures Inv(After(s, run))
    decreases |run|
  {
    if run != [] {
      RunInv(Step(s, run[0]), run[1..]);
    }
  }

  /** One dispatcher per route: in every run no key gets two dispatchers, and all callers
      of one key get the same one, the one created for that key. */
  lemma OneDispatcherPerKey(run: seq<Action>)
    requires Feasible(New(), run)
    ensures var s := After(New(), run);
            && NoDup(s.created)
            && (forall c :: c in s.callers && s.callers[c].Got? ==>
                  s.callers[c].dispatcher < |s.created| && s.created[s.callers[c].dispatcher] == s.callers[c].key)
            && (forall c, d :: c in s.callers && d in s.callers && s.callers[c].Got? && s.callers[d].Got? ==>
                  (s.callers[c].key == s.callers[d].key <==> s.callers[c].dispatcher == s.callers[d].dispatcher))
  {
    RunInv(New(), run);
  }

  // ----- the key -----

  /** The key under which the dispatcher of a (stream, pool) pair is kept. */
  function RouteKey(stream: string, pool: string): string { stream + ":" + pool }

  /** `b` is `a` followed by a colon and more. */
  ghost predicate Extends(a: string, b: string) { a + ":" <= b }

  lemma KeysCollideOneWay(s: string, p: string, t: string, q: string)
    requires RouteKey(s, p) == RouteKey(t, q) && |s| < |t|
    ensures Extends(s, t)
  {
    var k := RouteKey(s, p);
    assert k[..|s| + 1] == s + ":";
    assert k[..|s| + 1] == RouteKey(t, q)[..|s| + 1] == t[..|s| + 1];
  }

  lemma SameLengthSame(s: string, p: string, t: string, q: string)
    requires RouteKey(s, p) == RouteKey(t, q) && |s| == |t|
    ensures s == t && p == q
  {
    var k := RouteKey(s, p);
    assert s == k[..|s|] && t == k[..|t|];
    assert p == k[|s| + 1..] && q == k[|t| + 1..];
  }

  /** Two streams can share a key exactly when one name is the other followed by a colon
      and more; apart from that the key determines the pair. */
  lemma KeysCollideExactly(s: string, t: string)
    requires s != t
    ensures (exists p, q :: RouteKey(s, p) == RouteKey(t, q)) <==> Extends(s, t) || Extends(t, s)
  {
    if p, q :| RouteKey(s, p) == RouteKey(t, q) {
      if |s| < |t| {
        KeysCollideOneWay(s, p, t, q);
      } else if |t| < |s| {
        KeysCollideOneWay(t, q, s, p);
      } else {
        SameLengthSame(s, p, t, q);
      }
    }
    if Extends(s, t) {
      CollisionOf(s, t, "");
    }
    if Extends(t, s) {
      CollisionOf(t, s, "");
    }
  }

  /** The pool whose key under `s` is that of pool `p` under `t`. */
  function Twin(s: string, t: string, p: string): string
    requires |s| < |t|
  {
    t[|s| + 1..] + ":" + p
  }

  lemma CollisionOf(s: string, t: string, p: string)
    requires Extends(s, t)
    ensures RouteKey(s, Twin(s, t, p)) == RouteKey(t, p) && Twin(s, t, p) != p
  {
    assert t == s + ":" + t[|s| + 1..];
    assert |Twin(s, t, p)| > |p|;
  }

  /** So for streams neither of which extends the other, each key serves one pair. */
  lemma KeyDeterminesPair(s: string, p: string, t: string, q: string)
    requires s != t ==> !Extends(s, t) && !Extends(t, s)
    requires RouteKey(s, p) == RouteKey(t, q)
    ensures s == t && p == q
  {
    if s == t {
      SameLengthSame(s, p, t, q);
    } else {
      KeysCollideExactly(s, t);
    }
  }

  /** In particular for streams whose names contain no colon. */
  lemma NoColonNoExtension(a: string, b: string)
    requires ':' !in b
    ensures !Extends(a, b)
  {
    assert (a + ":")[|a|] == ':';
    assert |a| < |b| ==> b[|a|] in b;
  }
}
