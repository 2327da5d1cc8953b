/** Facts about products, quotients and remainders. */
module Arithmetic {

  lemma {:induction false} NonNegative(a: nat, b: nat)
    ensures a * b >= 0
  {
  }

  lemma {:induction false} AtLeastOnce(m: nat, d: nat)
    requires d > 0
    ensures m * d >= m && d * m >= m
  {
    assert m * (d - 1) >= 0;
  }

  lemma {:induction false} Distribute(a: int, b: int, w: int)
    ensures (a + b) * w == a * w + b * w
  {
  }

  lemma {:induction false} OneFewer(w: int, n: int)
    ensures w * n == w + w * (n - 1)
  {
    Distribute(1, n - 1, w);
    assert w * n == n * w && w * (n - 1) == (n - 1) * w;
  }

  lemma {:induction false} ScaleLess(a: nat, b: nat, k: nat)
    requires a < b
    ensures a * k + k <= b * k
  {
    if a < b - 1 { ScaleLess(a, b - 1, k); }
    assert b * k == (b - 1) * k + k;
  }

  lemma {:induction false} ModuloUnique(x: nat, m: nat, q: nat, r: nat)
    requires 0 <= r < m && x == m * q + r
    ensures x % m == r && x / m == q
  {
    var d := x / m - q;
    assert m * d == m * (x / m) - m * q;
    assert m * d == r - x % m;
    if d > 0 { AtLeastOnce(m, d); }
  }

  lemma {:induction false} ModuloSmall(x: nat, m: nat)
    requires x < m
    ensures x % m == x
  {
    ModuloUnique(x, m, 0, x);
  }

  /** A remainder taken from a multiple onwards. */
  lemma {:induction false} ModuloFrom(s: nat, x: nat, m: nat)
    requires m > 0 && s % m == 0 && s <= x < s + m
    ensures x % m == x - s
  {
    ModuloUnique(x, m, s / m, x - s);
  }

  lemma {:induction false} MultipleIsBig(x: nat, m: nat)
    requires m > 0 && x % m == 0 && x > 0
    ensures x >= m
  {
    if x < m { ModuloSmall(x, m); }
  }

  lemma {:induction false} MultipleOfProduct(m: nat, q: nat)
    requires m > 0
    ensures (m * q) % m == 0
  {
    ModuloUnique(m * q, m, q, 0);
  }

  lemma {:induction false} MultipleMinus(x: nat, y: nat, m: nat)
    requires m > 0 && x % m == 0 && y % m == 0 && y <= x
    ensures (x - y) % m == 0
  {
    var p, q := x / m, y / m;
    assert x == m * p && y == m * q;
    if p < q { ScaleLess(p, q, m); }
    Distribute(p - q, q, m);
    assert x - y == m * (p - q);
    MultipleOfProduct(m, p - q);
  }

  lemma {:induction false} MultipleFloor(x: nat, m: nat)
    requires m > 0
    ensures (x - x % m) % m == 0 && (x >= m ==> x - x % m >= m)
  {
    assert x - x % m == m * (x / m);
    MultipleOfProduct(m, x / m);
    if x >= m && x - x % m < m { ModuloSmall(x - x % m, m); }
  }

  lemma {:induction false} QuotientSmaller(a: nat, b: nat)
    requires b > 0
    ensures a / b <= a
  {
    assert a == b * (a / b) + a % b;
    if a / b > 0 { AtLeastOnce(a / b, b); }
  }

  lemma {:induction false} ModuloOnce(x: nat, m: nat)
    requires 0 < m && x < 2 * m
    ensures x % m == if x < m then x else x - m
  {
    if x < m { ModuloSmall(x, m); } else { ModuloUnique(x, m, 1, x - m); }
  }

  /** Whether n is a whole number of times d. */
  predicate Multiple(n: nat, d: nat) {
    d > 0 && (n == 0 || (n >= d && Multiple(n - d, d)))
  }

  lemma {:induction false} MultipleIsModulo(n: nat, d: nat)
    requires d > 0
    ensures Multiple(n, d) <==> n % d == 0
  {
    if n >= d {
      MultipleIsModulo(n - d, d);
      var q, r := (n - d) / d, (n - d) % d;
      assert n == d * (q + 1) + r;
      ModuloUnique(n, d, q + 1, r);
    } else {
      ModuloSmall(n, d);
    }
  }
}
