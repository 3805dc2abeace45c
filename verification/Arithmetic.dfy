/** Products and quotients of integers. */
module Arithmetic {

  function Max(a: int, b: int): int {
    if a < b then b else a
  }

  lemma {:induction false} Order(a: int, b: int, c: nat)
    requires c >= 1
    ensures a * c <= b * c <==> a <= b
    ensures a * c < b * c <==> a < b
  {
    if c > 1 {
      Order(a, b, c - 1);
      assert a * c == a * (c - 1) + a && b * c == b * (c - 1) + b;
    }
  }

  lemma Quotient(n: int, p: nat, e: int)
    requires p >= 1
    ensures e <= n / p <==> e * p <= n
  {
    var q := n / p;
    Order(e, q, p);
    Order(q + 1, e, p);
    assert n == q * p + n % p;
    assert (q + 1) * p == q * p + p;
  }

  lemma Multiple(n: int, p: nat, e: int)
    requires p >= 1 && n == e * p
    ensures n % p == 0 && n / p == e
  {
    var q := n / p;
    Quotient(n, p, e);
    Quotient(n, p, q);
    Order(e, q, p);
    assert n == q * p + n % p;
  }

  lemma Remainder(n: int, p: nat, q: int, r: nat)
    requires n == q * p + r && r < p
    ensures n % p == r && n / p == q
  {
    Quotient(n, p, q);
    Quotient(n, p, q + 1);
    assert (q + 1) * p == q * p + p;
    assert n / p == q;
  }

  lemma QuotientsAscend(a: int, b: int, p: nat)
    requires p >= 1 && a <= b
    ensures a / p <= b / p
  {
    Quotient(a, p, a / p);
    Quotient(b, p, a / p);
  }
}
