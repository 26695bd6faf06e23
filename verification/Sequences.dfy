/** Facts about logs (sequences that only grow at the end), sums and counts,
    shared by the step systems and by the router's tables. */
module Sequences {

  // ----- selection from a log -----

  /** The entries of `log` that satisfy `p`, in log order.  Recursion is on the last
      entry, because logs grow at the end. */
  ghost function Select<T>(log: seq<T>, p: T -> bool): seq<T> {
    if log == [] then []
    else
      var k := |log| - 1;
      if p(log[k]) then Select(log[..k], p) + [log[k]] else Select(log[..k], p)
  }

  lemma SelectAppend<T>(log: seq<T>, x: T, p: T -> bool)
    ensures Select(log + [x], p) == if p(x) then Select(log, p) + [x] else Select(log, p)
  {
    assert (log + [x])[..|log|] == log;
  }

  lemma {:induction false} SelectConcat<T>(a: seq<T>, b: seq<T>, p: T -> bool)
    ensures Select(a + b, p) == Select(a, p) + Select(b, p)
  {
    if b == [] {
      assert a + b == a;
    } else {
      var k := |b| - 1;
      SelectConcat(a, b[..k], p);
      assert a + b == (a + b[..k]) + [b[k]];
      SelectAppend(a + b[..k], b[k], p);
    }
  }

  lemma {:induction false} SelectMember<T>(log: seq<T>, p: T -> bool)
    ensures forall x :: x in Select(log, p) <==> x in log && p(x)
  {
    if log != [] {
      var k := |log| - 1;
      SelectMember(log[..k], p);
      assert log == log[..k] + [log[k]];
    }
  }

  lemma {:induction false} SelectAgree<T>(log: seq<T>, p: T -> bool, q: T -> bool)
    requires forall x :: x in log ==> p(x) == q(x)
    ensures Select(log, p) == Select(log, q)
  {
    if log != [] {
      SelectAgree(log[..|log| - 1], p, q);
    }
  }

  lemma {:induction false} SelectTwice<T>(log: seq<T>, p: T -> bool, q: T -> bool, both: T -> bool)
    requires forall x :: x in log ==> both(x) == (p(x) && q(x))
    ensures Select(Select(log, p), q) == Select(log, both)
  {
    if log != [] {
      var k := |log| - 1;
      SelectTwice(log[..k], p, q, both);
      if p(log[k]) {
        SelectAppend(Select(log[..k], p), log[k], q);
      }
    }
  }

  lemma {:induction false} SelectNone<T>(log: seq<T>, p: T -> bool)
    requires forall x :: x in log ==> !p(x)
    ensures Select(log, p) == []
  {
    if log != [] {
      SelectNone(log[..|log| - 1], p);
    }
  }

  lemma {:induction false} SelectAll<T>(log: seq<T>, p: T -> bool)
    requires forall x :: x in log ==> p(x)
    ensures Select(log, p) == log
  {
    if log != [] {
      SelectAll(log[..|log| - 1], p);
    }
  }

  lemma SelectPrefix<T>(a: seq<T>, b: seq<T>, p: T -> bool)
    requires a <= b
    ensures Select(a, p) <= Select(b, p)
  {
    assert b == a + b[|a|..];
    SelectConcat(a, b[|a|..], p);
  }

  // ----- logs without repetition -----

  ghost predicate NoDup<T>(log: seq<T>) {
    forall i, j :: 0 <= i < j < |log| ==> log[i] != log[j]
  }

  lemma NoDupAppend<T>(log: seq<T>, x: T)
    requires NoDup(log) && x !in log
    ensures NoDup(log + [x])
  {
  }

  lemma {:induction false} NoDupSelect<T>(log: seq<T>, p: T -> bool)
    requires NoDup(log)
    ensures NoDup(Select(log, p))
  {
    if log != [] {
      var k := |log| - 1;
      NoDupSelect(log[..k], p);
      SelectMember(log[..k], p);
    }
  }

  lemma {:induction false} NoDupOnce<T>(log: seq<T>, x: T)
    requires NoDup(log)
    ensures multiset(log)[x] == if x in log then 1 else 0
  {
    if log != [] {
      var k := |log| - 1;
      NoDupOnce(log[..k], x);
      assert log == log[..k] + [log[k]];
    }
  }

  // ----- subsequences -----

  /** `a` is obtained from `b` by leaving entries out. */
  ghost predicate IsSubsequence<T>(a: seq<T>, b: seq<T>) {
    a == [] ||
    (b != [] &&
     (IsSubsequence(a, b[..|b| - 1]) ||
      (a[|a| - 1] == b[|b| - 1] && IsSubsequence(a[..|a| - 1], b[..|b| - 1]))))
  }

  lemma {:induction false} SelectIsSubsequence<T>(log: seq<T>, p: T -> bool)
    ensures IsSubsequence(Select(log, p), log)
  {
    if log != [] {
      var k := |log| - 1;
      SelectIsSubsequence(log[..k], p);
      if p(log[k]) {
        assert (Select(log[..k], p) + [log[k]])[..|Select(log[..k], p)|] == Select(log[..k], p);
      }
    }
  }

  lemma {:induction false} PrefixOfSubsequence<T>(a: seq<T>, b: seq<T>, log: seq<T>)
    requires a <= b && IsSubsequence(b, log)
    ensures IsSubsequence(a, log)
    decreases |log|
  {
    if a != [] {
      var k := |log| - 1;
      if IsSubsequence(b, log[..k]) {
        PrefixOfSubsequence(a, b, log[..k]);
      } else if a == b {
      } else {
        PrefixOfSubsequence(a, b[..|b| - 1], log[..k]);
      }
    }
  }

  // ----- sums over a sequence and counts over a map -----

  ghost function Sum<T>(xs: seq<T>, f: T -> int): int {
    if xs == [] then 0 else Sum(xs[..|xs| - 1], f) + f(xs[|xs| - 1])
  }

  lemma {:induction false} SumConcat<T>(a: seq<T>, b: seq<T>, f: T -> int)
    ensures Sum(a + b, f) == Sum(a, f) + Sum(b, f)
  {
    if b == [] {
      assert a + b == a;
    } else {
      var k := |b| - 1;
      SumConcat(a, b[..k], f);
      assert (a + b)[..|a| + k] == a + b[..k];
    }
  }

  lemma {:induction false} SumUpdate<T>(xs: seq<T>, i: nat, x: T, f: T -> int)
    requires i < |xs|
    ensures Sum(xs[i := x], f) == Sum(xs, f) - f(xs[i]) + f(x)
  {
    var k := |xs| - 1;
    if i < k {
      SumUpdate(xs[..k], i, x, f);
      assert xs[i := x][..k] == xs[..k][i := x];
    } else {
      assert xs[i := x][..k] == xs[..k];
    }
  }

  lemma {:induction false} SumAtLeast<T>(xs: seq<T>, i: nat, f: T -> int)
    requires i < |xs| && forall x :: x in xs ==> 0 <= f(x)
    ensures 0 <= f(xs[i]) <= Sum(xs, f)
  {
    var k := |xs| - 1;
    if i < k {
      SumAtLeast(xs[..k], i, f);
      assert xs[k] in xs;
    } else {
      SumNonNegative(xs[..k], f);
    }
  }

  lemma {:induction false} SumNonNegative<T>(xs: seq<T>, f: T -> int)
    requires forall x :: x in xs ==> 0 <= f(x)
    ensures 0 <= Sum(xs, f)
  {
    if xs != [] {
      SumNonNegative(xs[..|xs| - 1], f);
      assert xs[|xs| - 1] in xs;
    }
  }

  lemma {:induction false} SumZero<T>(xs: seq<T>, f: T -> int)
    requires forall x :: x in xs ==> f(x) == 0
    ensures Sum(xs, f) == 0
  {
    if xs != [] {
      SumZero(xs[..|xs| - 1], f);
    }
  }

  /** The keys of `m` that hold a value satisfying `p`. */
  ghost function Holders<K, V>(m: map<K, V>, p: V -> bool): set<K> {
    set k | k in m && p(m[k])
  }

  /** How many keys of `m` hold a value satisfying `p`. */
  ghost function Count<K, V>(m: map<K, V>, p: V -> bool): nat {
    |Holders(m, p)|
  }

  lemma CountUpdate<K, V>(m: map<K, V>, k: K, v: V, p: V -> bool)
    ensures Count(m[k := v], p) ==
            Count(m, p) - (if k in m && p(m[k]) then 1 else 0) + (if p(v) then 1 else 0)
  {
    var before, after := Holders(m, p), Holders(m[k := v], p);
    var rest := before - {k};
    assert after - {k} == rest;
    assert k in after <==> p(v);
    if k in before {
      assert before == rest + {k};
    } else {
      assert before == rest;
    }
    if k in after {
      assert after == rest + {k};
    } else {
      assert after == rest;
    }
  }

  lemma CountZero<K, V>(m: map<K, V>, p: V -> bool)
    ensures Count(m, p) == 0 <==> forall k :: k in m ==> !p(m[k])
  {
    var s := Holders(m, p);
    if exists k :: k in m && p(m[k]) {
      var k :| k in m && p(m[k]);
      assert k in s;
    } else {
      assert s == {};
    }
  }
}
