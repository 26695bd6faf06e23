/** Serving requests from a routing entry (`RouteWithKey` of
    pkg/flow/router/weighted_rr.go): how fair the keyless cursor is, how sticky keys are,
    and how much of that a weight change disturbs. */
module RoutingService {
  import opened Sequences
  import opened Tasks
  import opened Divisors
  import opened RoutingTable

  const WORD: nat := 0x1_0000_0000_0000_0000

  /** The slot for a ticket or a hash. */
  ghost function Slot(table: seq<nat>, i: nat): nat
    requires table != []
  {
    table[i % |table|]
  }

  ghost function NextTicket(cursor: nat): nat { (cursor + 1) % WORD }

  /** What one request gets, and the cursor it leaves behind (an atomic 64-bit ticket). */
  ghost function Route(e: Entry, hash: Key -> nat, cursor: nat, key: Key): (Option<nat>, nat) {
    if key != [] then
      (if e.ring == [] then None else Some(Slot(e.ring, hash(key))), cursor)
    else if e.table == [] then (None, cursor)
    else (Some(Slot(e.table, cursor)), NextTicket(cursor))
  }

  /** The pool a request is sent to. */
  ghost function PickedFrom(e: Entry, hash: Key -> nat, key: Key, ticket: nat): Option<string> {
    var got := Route(e, hash, ticket, key).0;
    if got.Some? && got.value < |e.targets| then Some(e.targets[got.value]) else None
  }

  /** What the keyless ones among `requests` get, served in this order. */
  ghost function ServeKeyless(e: Entry, hash: Key -> nat, cursor: nat, requests: seq<Key>): seq<nat>
    decreases |requests|
  {
    if requests == [] then [] else
      var (got, next) := Route(e, hash, cursor, requests[0]);
      (if requests[0] == [] && got.Some? then [got.value] else []) + ServeKeyless(e, hash, next, requests[1..])
  }

  ghost predicate IsKeyless(k: Key) { k == [] }

  // ----- fairness on every window -----

  /** `m` consecutive slots of the table, read cyclically from `cursor`. */
  ghost function Window(table: seq<nat>, cursor: nat, m: nat): (r: seq<nat>)
    requires table != []
    ensures |r| == m
  {
    seq<nat>(m, j requires 0 <= j < m => Slot(table, cursor + j))
  }

  lemma WindowSplit(table: seq<nat>, cursor: nat, a: nat, b: nat)
    requires table != []
    ensures Window(table, cursor, a + b) == Window(table, cursor, a) + Window(table, cursor + a, b)
  {
  }

  lemma CountConcat(a: seq<nat>, b: seq<nat>, i: nat)
    ensures CountOf(a + b, i) == CountOf(a, i) + CountOf(b, i)
  {
  }

  lemma ModOnce(x: int, n: int)
    requires n > 0
    ensures (x + n) % n == x % n
  {
    DivMod(x, n);
    assert x + n == (x / n + 1) * n + x % n;
    ModUnique(x + n, n, x / n + 1, x % n);
  }

  /** Starting one slot later drops a slot in front and meets it again at the end. */
  lemma TurnShifts(table: seq<nat>, cursor: nat, i: nat)
    requires table != []
    ensures CountOf(Window(table, cursor + 1, |table|), i) == CountOf(Window(table, cursor, |table|), i)
  {
    var n := |table|;
    var first, last := Window(table, cursor, 1), Window(table, cursor + n, 1);
    ModOnce(cursor, n);
    assert first == [Slot(table, cursor)] && last == [Slot(table, cursor + n)];
    WindowSplit(table, cursor, 1, n - 1);
    WindowSplit(table, cursor + 1, n - 1, 1);
    CountConcat(first, Window(table, cursor + 1, n - 1), i);
    CountConcat(Window(table, cursor + 1, n - 1), last, i);
  }

  /** One full turn of the table shows every target its number of slots, wherever it starts. */
  lemma {:induction false} FullTurn(table: seq<nat>, cursor: nat, i: nat)
    requires table != []
    ensures CountOf(Window(table, cursor, |table|), i) == CountOf(table, i)
    decreases cursor
  {
    var n := |table|;
    if cursor == 0 {
      forall j | 0 <= j < n ensures Window(table, 0, n)[j] == table[j] { ModUnique(j, n, 0, j); }
      assert Window(table, 0, n) == table;
    } else {
      FullTurn(table, cursor - 1, i);
      TurnShifts(table, cursor - 1, i);
    }
  }

  lemma CountAtMostLength(a: seq<nat>, i: nat)
    ensures CountOf(a, i) <= |a|
  {
    assert multiset(a)[i] <= |multiset(a)|;
  }

  /** In any window of `m` slots a target of weight `w` occurs between floor(m/n)*w and
      floor(m/n)*w + min(w, m mod n) times. */
  lemma {:induction false} WindowIsFair(table: seq<nat>, cursor: nat, m: nat, i: nat)
    requires table != []
    ensures var n, w, c := |table|, CountOf(table, i), CountOf(Window(table, cursor, m), i);
            Times(m / n, w) <= c <= Times(m / n, w) + (if w < m % n then w else m % n)
    decreases m
  {
    var n, w := |table|, CountOf(table, i);
    if m < n {
      NoFullTurn(m, n, w);
      FullTurn(table, cursor, i);
      WindowSplit(table, cursor, m, n - m);
      CountConcat(Window(table, cursor, m), Window(table, cursor + m, n - m), i);
      CountAtMostLength(Window(table, cursor, m), i);
    } else {
      WindowIsFair(table, cursor + n, m - n, i);
      FullTurn(table, cursor, i);
      WindowSplit(table, cursor, n, m - n);
      CountConcat(Window(table, cursor, n), Window(table, cursor + n, m - n), i);
      OneTurnMore(m, n, w);
    }
  }

  lemma OneTurnMore(m: nat, n: nat, w: nat)
    requires 0 < n <= m
    ensures m % n == (m - n) % n && Times(m / n, w) == Times((m - n) / n, w) + w
  {
    DivMod(m - n, n);
    ModUnique(m, n, (m - n) / n + 1, (m - n) % n);
  }

  lemma NoFullTurn(m: nat, n: nat, w: nat)
    requires m < n
    ensures m % n == m && Times(m / n, w) == 0
  {
    ModUnique(m, n, 0, m);
  }

  lemma FirstKeyless(requests: seq<Key>)
    requires requests != []
    ensures |Select(requests, IsKeyless)| ==
            |Select(requests[1..], IsKeyless)| + if requests[0] == [] then 1 else 0
  {
    assert requests == [requests[0]] + requests[1..];
    SelectConcat([requests[0]], requests[1..], IsKeyless);
    SelectAppend([], requests[0], IsKeyless);
    assert [requests[0]] == [] + [requests[0]];
  }

  lemma ServeFirst(e: Entry, hash: Key -> nat, cursor: nat, requests: seq<Key>)
    requires requests != [] && e.table != [] && (requests[0] == [] ==> cursor + 1 < WORD)
    ensures ServeKeyless(e, hash, cursor, requests) ==
            if requests[0] == [] then [Slot(e.table, cursor)] + ServeKeyless(e, hash, cursor + 1, requests[1..])
            else ServeKeyless(e, hash, cursor, requests[1..])
  {
    if requests[0] == [] { ModUnique(cursor + 1, WORD, 0, cursor + 1); }
  }

  lemma WindowFirst(table: seq<nat>, cursor: nat, m: nat)
    requires table != []
    ensures Window(table, cursor, m + 1) == [Slot(table, cursor)] + Window(table, cursor + 1, m)
  {
    WindowSplit(table, cursor, 1, m);
    assert Window(table, cursor, 1) == [Slot(table, cursor)];
  }

  /** The first request of a list whose rest is served a window of `m` slots. */
  lemma FirstServed(e: Entry, hash: Key -> nat, cursor: nat, requests: seq<Key>, m: nat)
    requires requests != [] && e.table != [] && (requests[0] == [] ==> cursor + 1 < WORD)
    requires var next := if requests[0] == [] then cursor + 1 else cursor;
             ServeKeyless(e, hash, next, requests[1..]) == Window(e.table, next, m)
    ensures ServeKeyless(e, hash, cursor, requests) ==
            Window(e.table, cursor, if requests[0] == [] then m + 1 else m)
  {
    ServeFirst(e, hash, cursor, requests);
    if requests[0] == [] { WindowFirst(e.table, cursor, m); }
  }

  lemma {:induction false} ServedWindow(e: Entry, hash: Key -> nat, cursor: nat, requests: seq<Key>)
    requires e.table != [] && cursor + |Select(requests, IsKeyless)| < WORD
    ensures ServeKeyless(e, hash, cursor, requests) == Window(e.table, cursor, |Select(requests, IsKeyless)|)
    decreases |requests|
  {
    if requests != [] {
      FirstKeyless(requests);
      ServedWindow(e, hash, if requests[0] == [] then cursor + 1 else cursor, requests[1..]);
      FirstServed(e, hash, cursor, requests, |Select(requests[1..], IsKeyless)|);
    }
  }

  /** Router fairness: among any requests served from one entry, keyed ones interleaved at
      will, if `m` are keyless then target `i` of weight `w` gets at least floor(m/n)*w and
      at most floor(m/n)*w + min(w, m mod n) of them, and exactly k*w when m = k*n. */
  lemma RoutingIsFair(e: Entry, hash: Key -> nat, cursor: nat, requests: seq<Key>, i: nat)
    requires e.table != [] && cursor + |Select(requests, IsKeyless)| < WORD
    ensures var n, w, m := |e.table|, CountOf(e.table, i), |Select(requests, IsKeyless)|;
            var got := CountOf(ServeKeyless(e, hash, cursor, requests), i);
            && Times(m / n, w) <= got <= Times(m / n, w) + (if w < m % n then w else m % n)
            && (m % n == 0 ==> got == Times(m / n, w))
  {
    ServedWindow(e, hash, cursor, requests);
    WindowIsFair(e.table, cursor, |Select(requests, IsKeyless)|, i);
  }

  // ----- stickiness under a weight change -----

  /** In how many positions two lists of equal length differ. */
  ghost function Differences(a: seq<nat>, b: seq<nat>): nat
    requires |a| == |b|
  {
    if a == [] then 0 else
      var k := |a| - 1;
      Differences(a[..k], b[..k]) + if a[k] == b[k] then 0 else 1
  }

  lemma {:induction false} DifferencesConcat(a: seq<nat>, b: seq<nat>, c: seq<nat>, d: seq<nat>)
    requires |a| == |b| && |c| == |d|
    ensures Differences(a + c, b + d) == Differences(a, b) + Differences(c, d)
  {
    if c == [] {
      assert a + c == a && b + d == b;
    } else {
      var k := |c| - 1;
      DifferencesConcat(a, b, c[..k], d[..k]);
      assert (a + c)[..|a| + k] == a + c[..k] && (b + d)[..|b| + k] == b + d[..k];
    }
  }

  lemma {:induction false} DifferencesSame(a: seq<nat>)
    ensures Differences(a, a) == 0
  {
    if a != [] { DifferencesSame(a[..|a| - 1]); }
  }

  lemma {:induction false} DifferencesBound(a: seq<nat>, b: seq<nat>)
    requires |a| == |b|
    ensures Differences(a, b) <= |a|
  {
    if a != [] { DifferencesBound(a[..|a| - 1], b[..|a| - 1]); }
  }

  lemma {:induction false} DifferencesSymmetric(a: seq<nat>, b: seq<nat>)
    requires |a| == |b|
    ensures Differences(a, b) == Differences(b, a)
  {
    if a != [] { DifferencesSymmetric(a[..|a| - 1], b[..|a| - 1]); }
  }

  lemma {:induction false} DifferencesTriangle(a: seq<nat>, b: seq<nat>, c: seq<nat>)
    requires |a| == |b| == |c|
    ensures Differences(a, c) <= Differences(a, b) + Differences(b, c)
  {
    if a != [] { DifferencesTriangle(a[..|a| - 1], b[..|a| - 1], c[..|a| - 1]); }
  }

  /** Move `step` units of weight from position `a` to position `b`. */
  ghost function Moved(ws: seq<int>, a: nat, b: nat, step: int): (r: seq<int>)
    requires a < |ws| && b < |ws| && a != b
    ensures |r| == |ws|
  {
    ws[a := ws[a] - step][b := ws[b] + step]
  }

  lemma RepeatSplit(k: nat, m: nat, n: nat)
    ensures Repeat(k, m + n) == Repeat(k, m) + Repeat(k, n)
  {
  }

  lemma ExpandTwo(k: nat, x: nat, y: nat)
    ensures ExpandFrom(k, [x, y]) == Repeat(k, x) + Repeat(k + 1, y)
  {
    assert [x, y][1..] == [y];
    assert ExpandFrom(k + 1, [y]) == Repeat(k + 1, y);
  }

  /** A move to the next position relabels `step` slots. */
  lemma MoveToNext(k: nat, x: nat, y: nat, step: nat)
    requires step <= x
    ensures |ExpandFrom(k, [x, y])| == |ExpandFrom(k, [x - step, y + step])|
    ensures Differences(ExpandFrom(k, [x, y]), ExpandFrom(k, [x - step, y + step])) <= step
  {
    ExpandTwo(k, x, y);
    ExpandTwo(k, x - step, y + step);
    RepeatSplit(k, x - step, step);
    RepeatSplit(k + 1, step, y);
    var head, tail := Repeat(k, x - step), Repeat(k + 1, y);
    var old', new' := Repeat(k, step), Repeat(k + 1, step);
    assert ExpandFrom(k, [x, y]) == head + old' + tail;
    assert ExpandFrom(k, [x - step, y + step]) == head + new' + tail;
    DifferencesConcat(head + old', head + new', tail, tail);
    DifferencesConcat(head, head, old', new');
    DifferencesSame(head);
    DifferencesSame(tail);
    DifferencesBound(old', new');
  }

  lemma ExpandAround(ws: seq<nat>, a: nat)
    requires a + 1 < |ws|
    ensures Expand(ws) ==
            Expand(ws[..a]) + ExpandFrom(a, [ws[a], ws[a + 1]]) + ExpandFrom(a + 2, ws[a + 2..])
  {
    var head, pair, tail := ws[..a], [ws[a], ws[a + 1]], ws[a + 2..];
    assert ws == (head + pair) + tail;
    ExpandConcat(0, head + pair, tail);
    ExpandConcat(0, head, pair);
  }

  lemma MoveAdjacent(ws: seq<nat>, a: nat, step: nat)
    requires a + 1 < |ws| && step <= ws[a]
    ensures var ws' := Moved(ws, a, a + 1, step);
            && |Expand(ws)| == |Expand(ws')| && Differences(Expand(ws), Expand(ws')) <= step
  {
    var ws': seq<nat> := Moved(ws, a, a + 1, step);
    ExpandAround(ws, a);
    ExpandAround(ws', a);
    assert ws'[..a] == ws[..a] && ws'[a + 2..] == ws[a + 2..];
    var head, tail := Expand(ws[..a]), ExpandFrom(a + 2, ws[a + 2..]);
    var old', new' := ExpandFrom(a, [ws[a], ws[a + 1]]), ExpandFrom(a, [ws[a] - step, ws[a + 1] + step]);
    MoveToNext(a, ws[a], ws[a + 1], step);
    DifferencesConcat(head + old', head + new', tail, tail);
    DifferencesConcat(head, head, old', new');
    DifferencesSame(head);
    DifferencesSame(tail);
  }

  lemma TwoMoves(ws: seq<nat>, a: nat, b: nat, step: nat)
    requires a + 1 < b < |ws| && step <= ws[a]
    ensures Moved(Moved(ws, a, a + 1, step), a + 1, b, step) == Moved(ws, a, b, step)
  {
  }

  lemma OneMoreTimes(step: nat, n: nat)
    requires n >= 1
    ensures Times(step, n) == step + Times(step, n - 1)
  {
  }

  /** A move upwards is a chain of moves to the next position. */
  lemma {:induction false} MoveUp(ws: seq<nat>, a: nat, b: nat, step: nat)
    requires a < b < |ws| && step <= ws[a]
    ensures var ws' := Moved(ws, a, b, step);
            && |Expand(ws)| == |Expand(ws')| && Differences(Expand(ws), Expand(ws')) <= Times(step, b - a)
    decreases b - a
  {
    MoveAdjacent(ws, a, step);
    OneMoreTimes(step, b - a);
    if b > a + 1 {
      var mid: seq<nat> := Moved(ws, a, a + 1, step);
      MoveUp(mid, a + 1, b, step);
      TwoMoves(ws, a, b, step);
      DifferencesTriangle(Expand(ws), Expand(mid), Expand(Moved(ws, a, b, step)));
    }
  }

  lemma MoveEither(ws: seq<nat>, a: nat, b: nat, step: nat)
    requires a < |ws| && b < |ws| && a != b && step <= ws[a]
    ensures var ws' := Moved(ws, a, b, step);
            && |Expand(ws)| == |Expand(ws')|
            && Differences(Expand(ws), Expand(ws')) <= Times(step, if a < b then b - a else a - b)
  {
    if a < b {
      MoveUp(ws, a, b, step);
    } else {
      var ws': seq<nat> := Moved(ws, a, b, step);
      MoveUp(ws', b, a, step);
      assert Moved(ws', b, a, step) == ws;
      DifferencesSymmetric(Expand(ws), Expand(ws'));
    }
  }

  lemma {:induction false} AllWeightsKept(weights: seq<int>)
    requires Positive(weights)
    ensures |KeptWeights(weights)| == |weights|
    ensures forall i :: 0 <= i < |weights| ==> KeptWeights(weights)[i] == weights[i]
  {
    if weights != [] {
      AllWeightsKept(weights[..|weights| - 1]);
    }
  }

  lemma {:induction false} AllPoolsKept(pools: seq<Option<string>>, weights: seq<int>)
    requires |pools| == |weights| && Positive(weights) && forall i :: 0 <= i < |pools| ==> pools[i].Some?
    ensures |KeptPools(pools, weights)| == |pools|
    ensures forall i :: 0 <= i < |pools| ==> KeptPools(pools, weights)[i] == pools[i].value
  {
    if weights != [] {
      AllPoolsKept(pools[..|pools| - 1], weights[..|weights| - 1]);
    }
  }

  lemma AllKept(pools: seq<Option<string>>, weights: seq<int>)
    requires |pools| == |weights| && Positive(weights) && forall i :: 0 <= i < |pools| ==> pools[i].Some?
    ensures KeptWeights(weights) == weights
    ensures |KeptPools(pools, weights)| == |pools|
    ensures forall i :: 0 <= i < |pools| ==> KeptPools(pools, weights)[i] == pools[i].value
  {
    AllWeightsKept(weights);
    AllPoolsKept(pools, weights);
  }

  lemma ReducedAt(ws: seq<nat>, i: nat)
    requires ws != [] && Positive(ws) && i < |ws|
    ensures GcdAll(ws) > 0 && GcdAll(ws) * Reduced(ws)[i] == ws[i]
  {
    ReducedTimesGcd(ws);
    assert Scale(GcdAll(ws), Reduced(ws))[i] == ws[i];
  }

  /** `ws'` is `ws` after the move, and both have the same common divisor. */
  ghost predicate EvenMove(ws: seq<nat>, ws': seq<nat>, a: nat, b: nat, step: nat) {
    && ws != [] && Positive(ws) && a < |ws| && b < |ws| && a != b
    && ws' == Moved(ws, a, b, step) && Positive(ws')
    && GcdAll(ws) == GcdAll(ws')
  }

  lemma EvenMoveAt(ws: seq<nat>, ws': seq<nat>, a: nat, b: nat, step: nat, i: nat)
    requires EvenMove(ws, ws', a, b, step) && i < |ws|
    ensures GcdAll(ws) > 0
    ensures var before, after := Times(GcdAll(ws), Reduced(ws)[i]), Times(GcdAll(ws), Reduced(ws')[i]);
            if i == b then after == before + step else if i == a then after == before - step else after == before
  {
    ReducedAt(ws, i);
    ReducedAt(ws', i);
  }

  lemma SameStep(g: int, x: int, y: int, step: int, q: int)
    requires g > 0 && Times(q, g) == step
    ensures Times(g, x) == Times(g, y) + step ==> x == y + q
    ensures Times(g, x) == Times(g, y) - step ==> x == y - q
    ensures Times(g, x) == Times(g, y) ==> x == y
  {
    TimesGrows(x - y - q, g);
    TimesGrows(x - y + q, g);
    TimesGrows(x - y, g);
    assert (x - y - q) * g == Times(g, x) - Times(g, y) - step;
    assert (x - y + q) * g == Times(g, x) - Times(g, y) + step;
    assert (x - y) * g == Times(g, x) - Times(g, y);
  }

  lemma StepOf(g: int, x: int, y: int, step: nat)
    requires g > 0 && Times(g, y) == Times(g, x) - step
    ensures Times(x - y, g) == step && Quotient(step, g) == x - y
  {
    assert (x - y) * g == Times(g, x) - Times(g, y);
    ModUnique(step, g, x - y, 0);
  }

  /** Division by a common divisor turns the move of `step` into a move of `step / g`. */
  lemma ReducedMove(ws: seq<nat>, ws': seq<nat>, a: nat, b: nat, step: nat)
    requires EvenMove(ws, ws', a, b, step)
    ensures GcdAll(ws) > 0 && Quotient(step, GcdAll(ws)) <= Reduced(ws)[a]
    ensures Reduced(ws') == Moved(Reduced(ws), a, b, Quotient(step, GcdAll(ws)))
  {
    var v, v', g := Reduced(ws), Reduced(ws'), GcdAll(ws);
    EvenMoveAt(ws, ws', a, b, step, a);
    StepOf(g, v[a], v'[a], step);
    var q := Quotient(step, g);
    assert |v'| == |v|;
    forall i | 0 <= i < |ws| ensures v'[i] == Moved(v, a, b, q)[i] {
      EvenMoveAt(ws, ws', a, b, step, i);
      SameStep(g, v'[i], v[i], step, q);
    }
  }

  /** What an entry built from positive weights looks like. */
  ghost predicate RingFor(pools: seq<Option<string>>, ws: seq<int>, e: Entry) {
    && ws != [] && Positive(ws) && |e.targets| == |pools| == |ws| && e.ring == Expand(Reduced(ws))
    && (forall i :: 0 <= i < |pools| ==> pools[i] == Some(e.targets[i]))
    && forall t :: t in e.ring ==> t < |e.targets|
  }

  /** `e'` has the ring of `e` but for at most `bound` slots, and a key gets another answer
      exactly when its slot is one of them. */
  ghost predicate Disturbs(e: Entry, e': Entry, hash: Key -> nat, bound: int) {
    && e'.targets == e.targets && |e'.ring| == |e.ring| > 0 && Differences(e.ring, e'.ring) <= bound
    && (forall t :: t in e.ring ==> t < |e.targets|) && (forall t :: t in e'.ring ==> t < |e'.targets|)
    && AnswersDiffer(e, e', hash)
  }

  /** Keys get another answer from `e'` than from `e` exactly when the two rings differ at
      their slots; and then another pool, when no pool is listed twice. */
  ghost predicate AnswersDiffer(e: Entry, e': Entry, hash: Key -> nat) {
    e.ring != [] && |e'.ring| == |e.ring| ==>
      && (forall key: Key, ticket: nat :: key != [] ==>
            (Route(e, hash, ticket, key).0 == Route(e', hash, ticket, key).0 <==>
             e.ring[hash(key) % |e.ring|] == e'.ring[hash(key) % |e'.ring|]))
      && (NoDup(e.targets) ==> forall key: Key, ticket: nat :: key != [] ==>
            (PickedFrom(e, hash, key, ticket) == PickedFrom(e', hash, key, ticket) <==>
             e.ring[hash(key) % |e.ring|] == e'.ring[hash(key) % |e'.ring|]))
  }

  lemma RingsAnswer(e: Entry, e': Entry, hash: Key -> nat)
    requires e'.targets == e.targets
    requires (forall t :: t in e.ring ==> t < |e.targets|) && (forall t :: t in e'.ring ==> t < |e'.targets|)
    ensures AnswersDiffer(e, e', hash)
  {
    if e.ring != [] && |e'.ring| == |e.ring| {
      forall key: Key | key != []
        ensures e.ring[hash(key) % |e.ring|] in e.ring && e'.ring[hash(key) % |e'.ring|] in e'.ring
      {
        SlotInRange(e.ring, hash(key));
      }
    }
  }

  lemma SlotInRange(ring: seq<nat>, h: nat)
    requires ring != []
    ensures 0 <= h % |ring| < |ring|
  {
  }

  lemma BuiltFromPositive(pools: seq<Option<string>>, ws: seq<int>, e: Entry)
    requires Positive(ws) && Builds(pools, ws, Ok(e))
    ensures RingFor(pools, ws, e)
  {
    NoFirstNil(pools);
    AllKept(pools, ws);
    ExpandMembers(Reduced(ws));
  }

  /** Bounded stickiness loss: moving `step` units of weight from pool `a` to pool `b`, with
      all weights positive before and after and the same common divisor `g` (1 in the
      plain case), keeps the targets and the ring length and relabels at most
      step/g * |a - b| ring slots; a key gets another answer exactly when its slot is one of
      those, and then goes to another pool, when no pool is listed twice. */
  lemma StickinessLossIsBounded(pools: seq<Option<string>>, ws: seq<int>, a: nat, b: nat, step: nat,
                                e: Entry, e': Entry, hash: Key -> nat)
    requires a < |ws| && b < |ws| && a != b && Positive(ws) && Positive(Moved(ws, a, b, step))
    requires GcdAll(ws) == GcdAll(Moved(ws, a, b, step))
    requires Builds(pools, ws, Ok(e)) && Builds(pools, Moved(ws, a, b, step), Ok(e'))
    ensures e'.targets == e.targets && |e'.ring| == |e.ring| && GcdAll(ws) > 0
    ensures Differences(e.ring, e'.ring) <= Times(Quotient(step, GcdAll(ws)), if a < b then b - a else a - b)
    ensures (forall t :: t in e.ring ==> t < |e.targets|) && (forall t :: t in e'.ring ==> t < |e'.targets|)
    ensures AnswersDiffer(e, e', hash)
  {
    var ws': seq<nat> := Moved(ws, a, b, step);
    BuiltFromPositive(pools, ws, e);
    BuiltFromPositive(pools, ws', e');
    RingsDiffer(ws, ws', a, b, step);
    assert e'.targets == e.targets;
    RingsAnswer(e, e', hash);
  }

  lemma RingsDiffer(ws: seq<nat>, ws': seq<nat>, a: nat, b: nat, step: nat)
    requires EvenMove(ws, ws', a, b, step)
    ensures GcdAll(ws) > 0 && |Expand(Reduced(ws))| == |Expand(Reduced(ws'))|
    ensures Differences(Expand(Reduced(ws)), Expand(Reduced(ws'))) <=
            Times(Quotient(step, GcdAll(ws)), if a < b then b - a else a - b)
  {
    ReducedMove(ws, ws', a, b, step);
    MoveEither(Reduced(ws), a, b, Quotient(step, GcdAll(ws)));
  }
}
