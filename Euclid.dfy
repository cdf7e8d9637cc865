/**
 * The recursive `gcd` that computeDimensions defines inline, and the facts about it
 * that make the reduced aspect ratio `(W/g):(H/g)` a fraction in lowest terms.
 */
module Euclid {

  /** `d` divides `n`. */
  predicate Divides(d: int, n: int)
  {
    d > 0 && n % d == 0
  }

  /** `gcd = (a, b) => b === 0 ? a : gcd(b, a % b)` on non-negative integers. */
  function Gcd(a: nat, b: nat): (g: nat)
    ensures a > 0 || b > 0 ==> g > 0
    decreases b
  {
    if b == 0 then a else Gcd(b, a % b)
  }

  /** No common divisor greater than one. */
  predicate Coprime(a: nat, b: nat)
  {
    Gcd(a, b) == 1
  }

  lemma ProductSign(d: int, k: int)
    requires d > 0
    ensures k >= 1 ==> d * k >= d
    ensures k <= -1 ==> d * k <= -d
  {
    assert d * k - d == d * (k - 1);
    assert d * k + d == d * (k + 1);
  }

  /** Exact division: a multiple of `d` leaves no remainder and divides back. */
  lemma MultipleMod(d: int, m: int)
    requires d > 0
    ensures (d * m) % d == 0 && (d * m) / d == m
  {
    var q, r := (d * m) / d, (d * m) % d;
    assert d * m == d * q + r && 0 <= r < d;
    assert d * (m - q) == r;
    ProductSign(d, m - q);
  }

  lemma DividesCombination(d: int, x: int, y: int, k: int)
    requires Divides(d, x) && Divides(d, y)
    ensures Divides(d, x + k * y) && Divides(d, x - k * y)
  {
    var a, b := x / d, y / d;
    assert x == d * a && y == d * b;
    assert x + k * y == d * (a + k * b);
    assert x - k * y == d * (a - k * b);
    MultipleMod(d, a + k * b);
    MultipleMod(d, a - k * b);
  }

  lemma DivisorBounded(d: int, n: int)
    requires Divides(d, n) && n > 0
    ensures d <= n
  {
    var q := n / d;
    assert n == d * q;
    assert q >= 1;
    assert d * q >= d * 1;
  }

  /** The gcd of two numbers, not both zero, is positive and divides both. */
  lemma {:induction false} GcdDivides(a: nat, b: nat)
    requires a > 0 || b > 0
    ensures Gcd(a, b) > 0 && Divides(Gcd(a, b), a) && Divides(Gcd(a, b), b)
    decreases b
  {
    if b == 0 {
      assert a % a == 0;
      assert 0 % a == 0;
    } else {
      GcdDivides(b, a % b);
      var g := Gcd(a, b);
      assert a == a % b + (a / b) * b;
      DividesCombination(g, a % b, b, a / b);
    }
  }

  /** Every common divisor divides the gcd. */
  lemma {:induction false} GcdGreatest(a: nat, b: nat, d: int)
    requires Divides(d, a) && Divides(d, b)
    ensures Divides(d, Gcd(a, b))
    decreases b
  {
    if b != 0 {
      assert a % b == a - (a / b) * b;
      DividesCombination(d, a, b, a / b);
      GcdGreatest(b, a % b, d);
    }
  }

  lemma Quotient(g: int, n: int)
    requires Divides(g, n) && n > 0
    ensures n == g * (n / g) && n / g > 0
  {
    ProductSign(g, n / g);
  }

  /** The quotients of two numbers by their gcd keep the ratio of the numbers. */
  lemma CrossProduct(g: int, p: int, q: int)
    ensures p * (g * q) == q * (g * p)
  {
  }

  /** A common factor `c` of the quotients `w / g` and `h / g` gives the common factor
    * `c * g` of `w` and `h`. */
  lemma LiftDivisor(c: int, g: int, n: int)
    requires g > 0 && Divides(g, n) && Divides(c, n / g)
    ensures Divides(c * g, n)
  {
    var p := n / g;
    var p' := p / c;
    assert n == g * p && p == c * p';
    assert n == (c * g) * p' by {
      assert g * (c * p') == (c * g) * p';
    }
    MultipleMod(c * g, p');
  }

  lemma UnitFactor(c: int, g: int)
    requires g > 0 && c > 0 && c * g <= g
    ensures c == 1
  {
    assert c * g == g * (c - 1) + g;
    ProductSign(g, c - 1);
  }

  /** The quotients of `w` and `h` by their gcd have no common factor but one. */
  lemma CoprimeQuotients(w: nat, h: nat, g: nat)
    requires w > 0 && h > 0 && g == Gcd(w, h) && Divides(g, w) && Divides(g, h)
    requires w / g > 0 && h / g > 0
    ensures Coprime(w / g, h / g)
  {
    var p, q := w / g, h / g;
    GcdDivides(p, q);
    var c := Gcd(p, q);
    LiftDivisor(c, g, w);
    LiftDivisor(c, g, h);
    GcdGreatest(w, h, c * g);
    DivisorBounded(c * g, g);
    UnitFactor(c, g);
  }

  /** Dividing two positive numbers by their gcd gives a fraction in lowest terms with
    * the same value. */
  lemma Reduced(w: nat, h: nat)
    requires w > 0 && h > 0
    ensures Gcd(w, h) > 0
    ensures w / Gcd(w, h) > 0 && h / Gcd(w, h) > 0
    ensures (w / Gcd(w, h)) * h == (h / Gcd(w, h)) * w
    ensures Coprime(w / Gcd(w, h), h / Gcd(w, h))
  {
    GcdDivides(w, h);
    var g := Gcd(w, h);
    Quotient(g, w);
    Quotient(g, h);
    CrossProduct(g, w / g, h / g);
    CoprimeQuotients(w, h, g);
  }
}
