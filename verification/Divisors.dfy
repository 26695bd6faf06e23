/** Number theory behind the router's tables: the greatest common divisor as the Go code
    computes it, what it means, and how it behaves under scaling. */
module Divisors {

  ghost function Times(a: int, b: int): int { a * b }

  ghost predicate Divides(d: int, x: int) { exists k :: Times(k, d) == x }

  lemma DividesBy(d: int, x: int, k: int)
    requires k * d == x
    ensures Divides(d, x)
  {
    assert Times(k, d) == x;
  }

  lemma DividesSum(d: int, x: int, y: int, m: int)
    requires Divides(d, x) && Divides(d, y)
    ensures Divides(d, x + m * y)
  {
    var j :| Times(j, d) == x;
    var k :| Times(k, d) == y;
    assert (j + m * k) * d == x + m * y;
    DividesBy(d, x + m * y, j + m * k);
  }

  // ----- two numbers -----

  function Gcd(a: nat, b: nat): nat
    decreases b
  {
    if b == 0 then a else Gcd(b, a % b)
  }

  lemma DivMod(a: int, b: int)
    requires b > 0
    ensures a == (a / b) * b + a % b && a % b == a + (-(a / b)) * b
  {
  }

  lemma {:induction false} GcdDivides(a: nat, b: nat)
    ensures Divides(Gcd(a, b), a) && Divides(Gcd(a, b), b)
    decreases b
  {
    if b == 0 {
      DividesBy(a, a, 1);
      DividesBy(a, 0, 0);
    } else {
      GcdDivides(b, a % b);
      DivMod(a, b);
      DividesSum(Gcd(a, b), a % b, b, a / b);
    }
  }

  lemma {:induction false} GcdPositive(a: nat, b: nat)
    requires a > 0
    ensures Gcd(a, b) > 0
    decreases b
  {
    if b != 0 { GcdPositive(b, a % b); }
  }

  /** Whatever divides `c * a` and `c * b` divides `c * Gcd(a, b)`.  With `c == 1` this says
      that the gcd is the greatest common divisor. */
  lemma {:induction false} GcdAbsorbs(d: int, c: int, a: nat, b: nat)
    requires Divides(d, c * a) && Divides(d, c * b)
    ensures Divides(d, c * Gcd(a, b))
    decreases b
  {
    if b != 0 {
      var q := a / b;
      DivMod(a, b);
      DividesSum(d, c * a, c * b, -q);
      assert c * a + -q * (c * b) == c * (a % b) by {
        assert c * (a % b) == c * (a + (-q) * b);
        assert c * ((-q) * b) == -q * (c * b);
      }
      GcdAbsorbs(d, c, b, a % b);
    }
  }

  lemma ModScales(m: nat, a: nat, b: nat)
    requires m > 0 && b > 0
    ensures m * b > 0 && (m * a) % (m * b) == m * (a % b)
  {
    var q, r := a / b, a % b;
    assert m * a == q * (m * b) + m * r by {
      DivMod(a, b);
      assert m * (q * b + r) == m * (q * b) + m * r;
      assert m * (q * b) == q * (m * b);
    }
    assert 0 <= m * r < m * b;
    ModUnique(m * a, m * b, q, m * r);
  }

  lemma ModUnique(x: int, n: int, q: int, r: int)
    requires n > 0 && x == q * n + r && 0 <= r < n
    ensures x % n == r && x / n == q
  {
    DivMod(x, n);
    var d := x / n - q;
    assert d * n == r - x % n;
    TimesGrows(d, n);
  }

  lemma TimesGrows(d: int, n: int)
    requires n > 0
    ensures d >= 1 ==> d * n >= n
    ensures d <= -1 ==> d * n <= -n
  {
  }

  lemma {:induction false} GcdScales(m: nat, a: nat, b: nat)
    requires m > 0
    ensures Gcd(m * a, m * b) == m * Gcd(a, b)
    decreases b
  {
    if b != 0 {
      ModScales(m, a, b);
      GcdScales(m, b, a % b);
    }
  }

  // ----- the gcd loop of the router -----

  function Abs(x: int): nat { if x < 0 then -x else x }

  /** Go's `%`: the remainder has the sign of the dividend. */
  function GoMod(a: int, b: int): int
    requires b != 0
  {
    if a >= 0 then a % Abs(b) else -((-a) % Abs(b))
  }

  /** `gcd(a, b int)`: the result divides both arguments, and everything that divides both
      divides it. */
  method ComputeGcd(a0: int, b0: int) returns (g: nat)
    ensures g == Gcd(Abs(a0), Abs(b0))
    ensures Divides(g, a0) && Divides(g, b0)
    ensures forall d :: Divides(d, a0) && Divides(d, b0) ==> Divides(d, g)
  {
    var a, b := a0, b0;
    while b != 0
      invariant Gcd(Abs(a), Abs(b)) == Gcd(Abs(a0), Abs(b0))
      decreases Abs(b)
    {
      a, b := b, GoMod(a, b);
    }
    g := if a < 0 then -a else a;
    GcdDivides(Abs(a0), Abs(b0));
    DividesEitherSign(g, a0);
    DividesEitherSign(g, b0);
    forall d | Divides(d, a0) && Divides(d, b0) ensures Divides(d, g) {
      DividesEitherSign(d, a0);
      DividesEitherSign(d, b0);
      GcdAbsorbs(d, 1, Abs(a0), Abs(b0));
    }
  }

  lemma DividesEitherSign(d: int, x: int)
    ensures Divides(d, x) <==> Divides(d, Abs(x))
  {
    if Divides(d, x) {
      var k :| Times(k, d) == x;
      DividesBy(d, Abs(x), if x < 0 then -k else k);
    }
    if Divides(d, Abs(x)) {
      var k :| Times(k, d) == Abs(x);
      DividesBy(d, x, if x < 0 then -k else k);
    }
  }

  // ----- many numbers -----

  ghost function GcdAll(ws: seq<nat>): nat
    requires ws != []
  {
    if |ws| == 1 then ws[0] else Gcd(GcdAll(ws[..|ws| - 1]), ws[|ws| - 1])
  }

  ghost function Scale(m: nat, ws: seq<nat>): (r: seq<nat>)
    ensures |r| == |ws|
  {
    seq(|ws|, i requires 0 <= i < |ws| => m * ws[i])
  }

  lemma {:induction false} GcdAllDivides(ws: seq<nat>, i: nat)
    requires i < |ws|
    ensures Divides(GcdAll(ws), ws[i])
  {
    var k := |ws| - 1;
    if k == 0 {
      DividesBy(ws[0], ws[0], 1);
    } else {
      GcdDivides(GcdAll(ws[..k]), ws[k]);
      if i < k {
        GcdAllDivides(ws[..k], i);
        DividesTransitive(GcdAll(ws), GcdAll(ws[..k]), ws[i]);
      }
    }
  }

  lemma DividesTransitive(a: int, b: int, c: int)
    requires Divides(a, b) && Divides(b, c)
    ensures Divides(a, c)
  {
    var j :| Times(j, a) == b;
    var k :| Times(k, b) == c;
    assert (k * j) * a == c;
    DividesBy(a, c, k * j);
  }

  lemma {:induction false} GcdAllPositive(ws: seq<nat>)
    requires ws != [] && forall i :: 0 <= i < |ws| ==> ws[i] > 0
    ensures GcdAll(ws) > 0
  {
    if |ws| > 1 {
      GcdAllPositive(ws[..|ws| - 1]);
      GcdPositive(GcdAll(ws[..|ws| - 1]), ws[|ws| - 1]);
    }
  }

  lemma {:induction false} GcdAllAbsorbs(d: int, c: int, ws: seq<nat>)
    requires ws != [] && forall i :: 0 <= i < |ws| ==> Divides(d, c * ws[i])
    ensures Divides(d, c * GcdAll(ws))
  {
    if |ws| > 1 {
      var k := |ws| - 1;
      GcdAllAbsorbs(d, c, ws[..k]);
      GcdAbsorbs(d, c, GcdAll(ws[..k]), ws[k]);
    }
  }

  lemma {:induction false} GcdAllScales(m: nat, ws: seq<nat>)
    requires m > 0 && ws != []
    ensures GcdAll(Scale(m, ws)) == m * GcdAll(ws)
  {
    if |ws| > 1 {
      var k := |ws| - 1;
      assert Scale(m, ws)[..k] == Scale(m, ws[..k]);
      GcdAllScales(m, ws[..k]);
      GcdScales(m, GcdAll(ws[..k]), ws[k]);
    }
  }
}
