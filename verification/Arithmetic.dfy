/** Division with remainder, over whole numbers. */
module Arithmetic {

  type Byte = b: int | 0 <= b < 256

  type Bytes = seq<Byte>

  /** A division told by its quotient and remainder. */
  lemma {:induction false} Quotient(n: int, q: int, r: int, p: int)
    requires p > 0 && n == q * p + r && 0 <= r < p
    ensures n / p == q && n % p == r
  {
    var d := n / p - q;
    assert n == (n / p) * p + n % p;
    assert (n / p) * p - q * p == d * p;
    assert d * p == r - n % p;
    AtLeast(d, p);
  }

  lemma {:induction false} AtLeast(d: int, p: int)
    requires p > 0
    ensures d >= 1 ==> d * p >= p
    ensures d <= -1 ==> d * p <= -p
  {
  }

  lemma {:induction false} NegatedMod(a: int, p: int)
    requires p > 0 && a < 0
    ensures a % p == if (-a) % p == 0 then 0 else p - (-a) % p
  {
    var q, r := (-a) / p, (-a) % p;
    assert -a == q * p + r;
    if r == 0 {
      assert a == (-q) * p + 0 by { assert (-q) * p == -(q * p); }
      Quotient(a, -q, 0, p);
    } else {
      assert a == (-q - 1) * p + (p - r) by { assert (-q - 1) * p == -(q * p) - p; }
      Quotient(a, -q - 1, p - r, p);
    }
  }

  lemma {:induction false} MulMod(a: int, b: int, p: int)
    requires p > 0
    ensures ((a % p) * b) % p == (a * b) % p && (a * (b % p)) % p == (a * b) % p
  {
    ModFactor(a, b, p);
    ModFactor(b, a, p);
    assert b * a == a * b && (b % p) * a == a * (b % p);
  }

  lemma {:induction false} ModFactor(a: int, b: int, p: int)
    requires p > 0
    ensures ((a % p) * b) % p == (a * b) % p
  {
    var q, r := a / p, a % p;
    var n := r * b;
    assert n == (n / p) * p + n % p;
    calc {
      a * b;
      { assert a == q * p + r; }
      (q * p + r) * b;
      (q * p) * b + n;
      { assert (q * p) * b == (q * b) * p; }
      (q * b) * p + (n / p) * p + n % p;
      { assert (q * b + n / p) * p == (q * b) * p + (n / p) * p; }
      (q * b + n / p) * p + n % p;
    }
    Quotient(a * b, q * b + n / p, n % p, p);
  }

  /** Dividing twice is dividing by the product. */
  lemma {:induction false} DivDiv(n: nat, a: int, b: int)
    requires a > 0 && b > 0
    ensures a * b > 0 && n / (a * b) == (n / a) / b
    ensures n % (a * b) == n % a + a * ((n / a) % b)
  {
    var q, r := n / a, n % a;
    var qq, rr := q / b, q % b;
    assert n == q * a + r && q == qq * b + rr;
    assert a * b > 0 by { Positive(a, b); }
    assert n == qq * (a * b) + (r + a * rr) by {
      assert q * a == (qq * b) * a + rr * a;
      assert (qq * b) * a == qq * (a * b);
    }
    assert 0 <= r + a * rr < a * b by { Within(a, b, r, rr); }
    Quotient(n, qq, r + a * rr, a * b);
  }

  lemma {:induction false} Positive(a: int, b: int)
    requires a > 0 && b > 0
    ensures a * b > 0
  {
  }

  lemma {:induction false} Within(a: int, b: int, r: int, rr: int)
    requires 0 <= r < a && 0 <= rr < b
    ensures 0 <= r + a * rr < a * b
  {
    assert a * rr <= a * (b - 1);
    assert a * (b - 1) == a * b - a;
    assert a * rr >= 0;
  }

  // ----- Congruence -----

  predicate Same(a: int, b: int, p: int)
    requires p > 0
  {
    a % p == b % p
  }

  lemma {:induction false} SameMul(a: int, b: int, x: int, y: int, p: int)
    requires p > 0 && Same(a, x, p) && Same(b, y, p)
    ensures Same(a * b, x * y, p)
  {
    MulMod(a, b, p);
    MulMod(x, b, p);
    MulMod(x, y, p);
  }

  lemma {:induction false} SameAdd(a: int, b: int, x: int, y: int, p: int)
    requires p > 0 && Same(a, x, p) && Same(b, y, p)
    ensures Same(a + b, x + y, p) && Same(a - b, x - y, p)
  {
    Shifted(a, b, p);
    Shifted(x, y, p);
  }

  /** A sum, or a difference, reduced, is that of what is reduced. */
  lemma {:induction false} Shifted(a: int, b: int, p: int)
    requires p > 0
    ensures (a + b) % p == (a % p + b % p) % p && (a - b) % p == (a % p - b % p) % p
  {
    var (qa, qb) := (a / p, b / p);
    var (s, d) := (a % p + b % p, a % p - b % p);
    assert a == qa * p + a % p && b == qb * p + b % p;
    assert s == (s / p) * p + s % p && d == (d / p) * p + d % p;
    assert (qa + qb + s / p) * p == qa * p + qb * p + (s / p) * p;
    assert (qa - qb + d / p) * p == qa * p - qb * p + (d / p) * p;
    Quotient(a + b, qa + qb + s / p, s % p, p);
    Quotient(a - b, qa - qb + d / p, d % p, p);
  }
}
