/** Two ways to add up the proper divisors of a number: pair by pair up to the square root, and one by
    one. They agree on the positive numbers that are not squares, and on no other number. */
module DivisorSum {
  import opened Arithmetic

  /** The sum of the divisors of n from lo up to but not including hi. */
  function SumOfDivisors(n: int, lo: nat, hi: nat): nat
    requires lo >= 1
    decreases hi
  {
    if lo >= hi then 0 else SumOfDivisors(n, lo, hi - 1) + if n % (hi - 1) == 0 then hi - 1 else 0
  }

  /** The sum of the proper divisors. */
  function Proper(n: int): nat {
    if n < 1 then 0 else SumOfDivisors(n, 1, n)
  }

  /** The divisors from 2 up to but not including p, each together with its codivisor. */
  function Pairs(n: int, p: nat): int
    requires p >= 2
  {
    if p == 2 then 0 else Pairs(n, p - 1) + if n % (p - 1) == 0 then p - 1 + n / (p - 1) else 0
  }

  /** The first number from p on whose square is above n. */
  function Above(n: int, p: nat): (q: nat)
    requires p >= 1
    ensures p <= q && q * q > n
    ensures forall k :: p <= k < q ==> k * k <= n
    decreases n - p
  {
    if p * p > n then p else
      assert p < p * p + 1 && (p == 1 || p < p * p);
      Above(n, p + 1)
  }

  function Paired(n: int): int {
    1 + Pairs(n, Above(n, 2))
  }

  predicate IsRoot(r: nat, n: int) {
    r * r == n
  }

  // ---------------------------------------------------------------- the loops

  method Sump(n: int) returns (sum: int)
    ensures sum == Paired(n)
  {
    sum := 1;
    var p: nat := 2;
    while p * p <= n
      invariant p >= 2 && Above(n, p) == Above(n, 2)
      invariant sum == 1 + Pairs(n, p)
      decreases n - p
    {
      assert p < p * p;
      if n % p == 0 { sum := sum + p + n / p; }
      p := p + 1;
    }
    if p * p == n {
      sum := sum + p;
    }
  }

  method Sump2(n: int) returns (sum: int)
    ensures sum == Proper(n)
  {
    sum := 0;
    var p: nat := 1;
    while p < n
      invariant 1 <= p && (if n < 1 then p == 1 else p <= n) && sum == SumOfDivisors(n, 1, p)
    {
      if n % p == 0 { sum := sum + p; }
      p := p + 1;
    }
  }

  // ---------------------------------------------------------------- divisors in a range

  lemma {:induction false} Split(n: int, a: nat, b: nat, c: nat)
    requires 1 <= a <= b <= c
    ensures SumOfDivisors(n, a, c) == SumOfDivisors(n, a, b) + SumOfDivisors(n, b, c)
    decreases c
  {
    if b < c { Split(n, a, b, c - 1); }
  }

  lemma {:induction false} NoDivisors(n: int, lo: nat, hi: nat)
    requires lo >= 1 && forall d :: lo <= d < hi ==> n % d != 0
    ensures SumOfDivisors(n, lo, hi) == 0
    decreases hi
  {
    if lo < hi { NoDivisors(n, lo, hi - 1); }
  }

  /** A divisor with e * p <= n < e * (p + 1) is the codivisor of p. */
  lemma Codivisor(n: int, p: nat, e: nat)
    requires n >= 1 && p >= 1 && e >= 1 && n % e == 0
    requires e * p <= n < e * (p + 1)
    ensures n == e * p && n / e == p
  {
    var k := n / e;
    assert n == k * e;
    Order(p, k, e);
    Order(k, p + 1, e);
  }

  /** Between n / (p + 1) and n / p there is no divisor but the codivisor of p. */
  lemma InGap(n: int, p: nat, e: nat)
    requires n >= 1 && p >= 1 && n / (p + 1) < e <= n / p && n % e == 0
    ensures n % p == 0 && e == n / p
  {
    Quotient(n, p, e);
    Quotient(n, p + 1, e);
    Codivisor(n, p, e);
    Multiple(n, p, e);
  }

  lemma TopOfGap(n: int, p: nat)
    requires n >= 1 && p >= 1 && n % p == 0
    ensures n / (p + 1) < n / p && n % (n / p) == 0
  {
    var q := n / p;
    assert n == q * p;
    Order(0, q, p);
    assert q * (p + 1) == n + q;
    Quotient(n, p + 1, q);
    Multiple(n, q, p);
  }

  lemma Descending(n: int, p: nat)
    requires n >= 1 && p >= 1
    ensures 0 <= n / (p + 1) <= n / p
  {
    var below := n / (p + 1);
    Quotient(n, p, 0);
    Quotient(n, p + 1, 0);
    Quotient(n, p + 1, below);
    assert below * (p + 1) == below * p + below;
    Quotient(n, p, below);
  }

  lemma WithCodivisor(n: int, p: nat, lo: nat, q: nat)
    requires n >= 1 && p >= 1 && lo == n / (p + 1) + 1 && q == n / p && n % p == 0
    ensures SumOfDivisors(n, lo, q + 1) == q
  {
    TopOfGap(n, p);
    forall e: nat | lo <= e < q
      ensures n % e != 0
    {
      if n % e == 0 { InGap(n, p, e); }
    }
    NoDivisors(n, lo, q);
  }

  lemma WithoutCodivisor(n: int, p: nat, lo: nat, q: nat)
    requires n >= 1 && p >= 1 && lo == n / (p + 1) + 1 && q == n / p && n % p != 0
    ensures SumOfDivisors(n, lo, q + 1) == 0
  {
    forall e: nat | lo <= e < q + 1
      ensures n % e != 0
    {
      if n % e == 0 { InGap(n, p, e); }
    }
    NoDivisors(n, lo, q + 1);
  }

  lemma NextCodivisor(n: int, p: nat, lo: nat, q: nat)
    requires n >= 1 && p >= 1 && lo == n / (p + 1) + 1 && q == n / p
    ensures lo <= q + 1
    ensures SumOfDivisors(n, lo, q + 1) == if n % p == 0 then q else 0
  {
    Descending(n, p);
    if n % p == 0 {
      WithCodivisor(n, p, lo, q);
    } else {
      WithoutCodivisor(n, p, lo, q);
    }
  }

  // ---------------------------------------------------------------- pairing

  /** The pairs below p are the divisors below p and those above n / p. */
  lemma {:induction false} PairsAreDivisors(n: int, p: nat, lo: nat)
    requires n >= 1 && p >= 2 && lo == n / p + 1
    ensures lo <= n
    ensures 1 + Pairs(n, p) == SumOfDivisors(n, 1, p) + SumOfDivisors(n, lo, n)
  {
    if p == 2 {
      FirstPair(n, lo);
    } else {
      var last := n / (p - 1) + 1;
      PairsAreDivisors(n, p - 1, last);
      NextPair(n, p - 1, lo, last);
    }
  }

  lemma NextPair(n: int, q: nat, lo: nat, last: nat)
    requires n >= 1 && q >= 2 && lo == n / (q + 1) + 1 && last == n / q + 1 && last <= n
    ensures lo <= last
    ensures Pairs(n, q + 1) - Pairs(n, q) ==
            SumOfDivisors(n, 1, q + 1) - SumOfDivisors(n, 1, q) + SumOfDivisors(n, lo, n) - SumOfDivisors(n, last, n)
  {
    NextCodivisor(n, q, lo, last - 1);
    Split(n, lo, last, n);
  }

  lemma FirstPair(n: int, lo: nat)
    requires n >= 1 && lo == n / 2 + 1
    ensures lo <= n && SumOfDivisors(n, 1, 2) == 1 && SumOfDivisors(n, lo, n) == 0
  {
    NextCodivisor(n, 1, lo, n);
    assert SumOfDivisors(n, 1, 1) == 0;
    assert n % 1 == 0;
    if lo <= n {
      assert SumOfDivisors(n, lo, n + 1) == SumOfDivisors(n, lo, n) + n;
    }
  }

  /** Where the divisors below p and those above n / p meet. */
  lemma Meet(n: int, p: nat)
    requires n >= 1 && p >= 2 && (p - 1) * (p - 1) <= n < p * p
    ensures p - 2 <= n / p <= p - 1
    ensures n / p == p - 2 && n % (p - 1) == 0 <==> n == (p - 1) * (p - 1)
  {
    var r := p - 1;
    Quotient(n, p, p - 2);
    Quotient(n, p, r);
    Quotient(n, p, p);
    if n < r * p && n % r == 0 {
      Codivisor(n, r, r);
    }
    if n == r * r { Multiple(n, r, r); }
  }

  /** The sum by pairs is the sum of the proper divisors, and on a square it has the root once more. */
  lemma PairedIsProper(n: int)
    requires n >= 1
    ensures forall r: nat :: IsRoot(r, n) ==> Paired(n) == Proper(n) + r
    ensures (forall r: nat :: !IsRoot(r, n)) ==> Paired(n) == Proper(n)
  {
    var p := Above(n, 2);
    var r := p - 1;
    PairsAreDivisors(n, p, n / p + 1);
    assert r * r <= n;
    Meet(n, p);
    if n / p == r {
      Split(n, 1, p, n);
    } else {
      Split(n, 1, r, n);
    }
    forall s: nat | IsRoot(s, n)
      ensures s == r
    {
      OnlyRoot(s, p, n);
    }
    assert n == r * r ==> IsRoot(r, n);
  }

  lemma Squares(a: nat, b: nat)
    requires a < b
    ensures a * a < b * b
  {
    Order(a, b, b);
    if a > 0 { Order(a, b, a); }
  }

  lemma OnlyRoot(s: nat, p: nat, n: int)
    requires p >= 1 && IsRoot(s, n) && (p - 1) * (p - 1) <= n < p * p
    ensures s == p - 1
  {
    if s > p { Squares(p, s); }
    if s < p - 1 { Squares(s, p - 1); }
  }

  /** The two functions agree exactly on the positive numbers that are not squares. */
  lemma SameIffNotSquare(n: int)
    ensures Paired(n) == Proper(n) <==> n >= 1 && forall r: nat :: !IsRoot(r, n)
  {
    if n >= 1 { PairedIsProper(n); }
  }
}
