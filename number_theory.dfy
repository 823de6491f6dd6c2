/** Greatest common divisors as `math.gcd` and `functools.reduce(math.gcd, ...)` compute them,
    with the facts the formula reduction needs: the gcd divides every entry, scaling the
    entries scales the gcd, and dividing by the gcd leaves entries whose gcd is 1. */
module NumberTheory {

  /** `math.gcd(a, b)` on non-negative integers, by Euclid's algorithm. */
  function Gcd(a: nat, b: nat): nat
    decreases b
  {
    if b == 0 then a else Gcd(b, a % b)
  }

  /** `reduce(math.gcd, xs)`: a left fold, starting from the first entry. */
  function ListGcd(xs: seq<nat>): nat
    requires |xs| >= 1
  {
    if |xs| == 1 then xs[0] else Gcd(ListGcd(xs[..|xs| - 1]), xs[|xs| - 1])
  }

  function Scaled(xs: seq<nat>, m: nat): (r: seq<nat>)
    ensures |r| == |xs| && forall i :: 0 <= i < |xs| ==> r[i] == m * xs[i]
  {
    seq(|xs|, i requires 0 <= i < |xs| => m * xs[i])
  }

  /** Each entry divided by `g`, rounding down (`count // gcd`). */
  function Quotients(xs: seq<nat>, g: nat): (r: seq<nat>)
    requires g > 0
    ensures |r| == |xs| && forall i :: 0 <= i < |xs| ==> r[i] == xs[i] / g
  {
    seq(|xs|, i requires 0 <= i < |xs| => xs[i] / g)
  }

  predicate AllPositive(xs: seq<nat>) {
    forall i :: 0 <= i < |xs| ==> xs[i] > 0
  }

  // ------------------------------------------------------------------ division

  /** A non-zero multiple of `y` is at least `y` away from zero. */
  lemma MulBounds(k: int, y: int)
    requires y > 0
    ensures k >= 1 ==> k * y >= y
    ensures k <= -1 ==> k * y <= -y
    ensures k == 0 ==> k * y == 0
  {
    if k >= 1 {
      assert k * y == (k - 1) * y + y;
    } else if k <= -1 {
      assert k * y == (k + 1) * y - y;
    }
  }

  /** Quotient and remainder are determined by `x == q * y + r` with `0 <= r < y`. */
  lemma DivModUnique(x: int, y: int, q: int, r: int)
    requires y > 0 && x == q * y + r && 0 <= r < y
    ensures x / y == q && x % y == r
  {
    var q0, r0 := x / y, x % y;
    assert (q - q0) * y == r0 - r;
    MulBounds(q - q0, y);
  }

  lemma MulCancel(g: int, a: int, b: int)
    requires g > 0 && g * a == g * b
    ensures a == b
  {
    assert (a - b) * g == 0;
    MulBounds(a - b, g);
  }

  lemma DivExact(x: nat, g: nat)
    requires g > 0 && x % g == 0
    ensures g * (x / g) == x
  {
  }

  lemma MulMod(d: nat, k: nat)
    requires d > 0
    ensures (d * k) % d == 0 && (d * k) / d == k
  {
    DivModUnique(d * k, d, k, 0);
  }

  /** Scaling both operands scales the remainder and keeps the quotient. */
  lemma DivModScale(a: nat, b: nat, m: nat)
    requires b > 0 && m > 0
    ensures (m * a) % (m * b) == m * (a % b)
    ensures (m * a) / (m * b) == a / b
  {
    var q, r := a / b, a % b;
    assert a == q * b + r;
    assert m * a == q * (m * b) + m * r;
    assert m * r < m * b by {
      assert m * b - m * r == m * (b - r);
    }
    DivModUnique(m * a, m * b, q, m * r);
  }

  /** A common divisor of `b` and `r` divides `q * b + r`. */
  lemma DividesCombination(d: nat, b: nat, r: nat, q: nat)
    requires d > 0 && b % d == 0 && r % d == 0
    ensures (q * b + r) % d == 0
  {
    var kb, kr := b / d, r / d;
    assert b == d * kb && r == d * kr;
    assert q * b + r == d * (q * kb + kr);
    MulMod(d, q * kb + kr);
  }

  lemma DividesTransitive(g: nat, d: nat, x: nat)
    requires g > 0 && d > 0 && d % g == 0 && x % d == 0
    ensures x % g == 0
  {
    var k1, k2 := x / d, d / g;
    assert x == d * k1 && d == g * k2;
    assert x == g * (k2 * k1);
    MulMod(g, k2 * k1);
  }

  // ------------------------------------------------------------------ gcd

  /** The gcd of two numbers, not both zero, is positive and divides both. */
  lemma {:induction false} GcdDivides(a: nat, b: nat)
    requires a > 0 || b > 0
    ensures Gcd(a, b) > 0 && a % Gcd(a, b) == 0 && b % Gcd(a, b) == 0
    decreases b
  {
    if b == 0 {
      MulMod(a, 1);
    } else {
      GcdDivides(b, a % b);
      var g := Gcd(b, a % b);
      DividesCombination(g, b, a % b, a / b);
      assert a == (a / b) * b + a % b;
    }
  }

  /** Every common divisor divides the gcd. */
  lemma {:induction false} GcdGreatest(a: nat, b: nat, d: nat)
    requires d > 0 && a % d == 0 && b % d == 0
    ensures Gcd(a, b) % d == 0
    decreases b
  {
    if b != 0 {
      var q, r := a / b, a % b;
      assert a == q * b + r;
      var ka, kb := a / d, b / d;
      assert a == d * ka && b == d * kb;
      assert r == d * (ka - q * kb);
      MulBounds(ka - q * kb, d);
      MulMod(d, ka - q * kb);
      GcdGreatest(b, r, d);
    }
  }

  /** `gcd(m*a, m*b) == m * gcd(a, b)`. */
  lemma {:induction false} GcdScale(a: nat, b: nat, m: nat)
    requires m > 0
    ensures Gcd(m * a, m * b) == m * Gcd(a, b)
    decreases b
  {
    if b != 0 {
      DivModScale(a, b, m);
      GcdScale(b, a % b, m);
    }
  }

  // ------------------------------------------------------------------ reduce(gcd, xs)

  /** The gcd of a list of positive numbers is positive and divides every entry. */
  lemma {:induction false} ListGcdDivides(xs: seq<nat>)
    requires |xs| >= 1 && AllPositive(xs)
    ensures ListGcd(xs) > 0
    ensures forall i :: 0 <= i < |xs| ==> xs[i] % ListGcd(xs) == 0
  {
    if |xs| == 1 {
      MulMod(xs[0], 1);
    } else {
      var init := xs[..|xs| - 1];
      ListGcdDivides(init);
      var l := ListGcd(init);
      GcdDivides(l, xs[|xs| - 1]);
      var g := Gcd(l, xs[|xs| - 1]);
      forall i | 0 <= i < |xs|
        ensures xs[i] % g == 0
      {
        if i < |xs| - 1 {
          assert xs[i] == init[i];
          DividesTransitive(g, l, xs[i]);
        }
      }
    }
  }

  /** Scaling every entry scales the gcd of the list. */
  lemma {:induction false} ListGcdScale(xs: seq<nat>, m: nat)
    requires |xs| >= 1 && m > 0
    ensures ListGcd(Scaled(xs, m)) == m * ListGcd(xs)
  {
    var ys := Scaled(xs, m);
    if |xs| > 1 {
      var init := xs[..|xs| - 1];
      assert ys[..|ys| - 1] == Scaled(init, m);
      ListGcdScale(init, m);
      GcdScale(ListGcd(init), xs[|xs| - 1], m);
    }
  }

  /** Dividing a list of positive numbers by its gcd leaves numbers whose gcd is 1. */
  lemma ReducedListGcdIsOne(xs: seq<nat>)
    requires |xs| >= 1 && AllPositive(xs)
    ensures ListGcd(xs) > 0 && ListGcd(Quotients(xs, ListGcd(xs))) == 1
  {
    ListGcdDivides(xs);
    var g := ListGcd(xs);
    var ys := Quotients(xs, g);
    var zs := Scaled(ys, g);
    forall i | 0 <= i < |xs|
      ensures zs[i] == xs[i]
    {
      DivExact(xs[i], g);
    }
    assert zs == xs;
    ListGcdScale(ys, g);
    MulCancel(g, ListGcd(ys), 1);
  }

  /** Scaling every entry does not change the reduced list. */
  lemma ReducedListScaleInvariant(xs: seq<nat>, m: nat)
    requires |xs| >= 1 && AllPositive(xs) && m > 0
    ensures ListGcd(xs) > 0 && ListGcd(Scaled(xs, m)) > 0
    ensures Quotients(Scaled(xs, m), ListGcd(Scaled(xs, m))) == Quotients(xs, ListGcd(xs))
  {
    ListGcdDivides(xs);
    ListGcdScale(xs, m);
    var g := ListGcd(xs);
    MulBounds(m, g);
    var ys := Scaled(xs, m);
    var a := Quotients(ys, m * g);
    var b := Quotients(xs, g);
    forall i | 0 <= i < |xs|
      ensures a[i] == b[i]
    {
      DivModScale(xs[i], g, m);
    }
    assert a == b;
  }

  /** `reduce(math.gcd, xs)` depends only on which numbers occur in `xs`. */
  lemma ListGcdSameElements(xs: seq<nat>, ys: seq<nat>)
    requires |xs| >= 1 && |ys| >= 1 && AllPositive(xs) && AllPositive(ys)
    requires forall x :: x in xs <==> x in ys
    ensures ListGcd(xs) == ListGcd(ys)
  {
    ListGcdDivides(xs);
    ListGcdDivides(ys);
    var g1, g2 := ListGcd(xs), ListGcd(ys);
    forall i | 0 <= i < |ys|
      ensures ys[i] % g1 == 0
    {
      assert ys[i] in xs;
    }
    forall i | 0 <= i < |xs|
      ensures xs[i] % g2 == 0
    {
      assert xs[i] in ys;
    }
    ListGcdGreatest(ys, g1);
    ListGcdGreatest(xs, g2);
    MutualDivisors(g1, g2);
  }

  /** Every common divisor of the entries divides their gcd. */
  lemma {:induction false} ListGcdGreatest(xs: seq<nat>, d: nat)
    requires |xs| >= 1 && d > 0
    requires forall i :: 0 <= i < |xs| ==> xs[i] % d == 0
    ensures ListGcd(xs) % d == 0
  {
    if |xs| > 1 {
      ListGcdGreatest(xs[..|xs| - 1], d);
      GcdGreatest(ListGcd(xs[..|xs| - 1]), xs[|xs| - 1], d);
    }
  }

  lemma MutualDivisors(a: nat, b: nat)
    requires a > 0 && b > 0 && a % b == 0 && b % a == 0
    ensures a == b
  {
    DivExact(a, b);
    DivExact(b, a);
    MulBounds(a / b, b);
    MulBounds(b / a, a);
  }
}
