// Arithmetic and list facts that several modules use.
module Arith {
  const BILLION := 1_000_000_000

  lemma Product(a: nat, b: nat)
    ensures a * b >= 0
  {}

  lemma Division(x: nat, d: nat)
    requires d > 0
    ensures d * (x / d) + x % d == x && 0 <= x % d < d
  {}

  lemma Steps(d: nat, a: nat, b: nat)
    requires a < b
    ensures d * a + d <= d * b
  {
    var c := b - a - 1;
    assert d * b == d * a + d + d * c;
    assert d * c >= 0 by {
      Product(d, c);
    }
  }

  lemma DivMono(x: nat, y: nat, d: nat)
    requires d > 0 && x <= y
    ensures x / d <= y / d
  {
    var p, q := x / d, y / d;
    Division(x, d);
    Division(y, d);
    if q < p {
      Steps(d, q, p);
    }
  }

  lemma DivStrict(x: nat, y: nat, d: nat)
    requires d > 0 && x + d <= y
    ensures x / d < y / d
  {
    var p, q := x / d, y / d;
    Division(x, d);
    Division(y, d);
    if q < p {
      Steps(d, q, p);
    }
  }

  lemma Shrinks(x: nat, d: nat)
    requires d > 0
    ensures x / d <= x
  {
    var p := x / d;
    Division(x, d);
    if p > 0 {
      assert d * p == (d - 1) * p + p;
      Product(d - 1, p);
    }
  }

  lemma Halves(x: nat, d: nat)
    requires d > 1
    ensures 2 * (x / d) <= x
  {
    var p := x / d;
    Division(x, d);
    assert d * p == (d - 2) * p + 2 * p;
    Product(d - 2, p);
  }

  lemma Regrouped<T>(a: seq<T>, x: T, b: seq<T>)
    ensures a + ([x] + b) == (a + [x]) + b
  {}
}
