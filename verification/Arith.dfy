/** Integer facts that the solver does not find by itself, and sums over sequences and maps. */
module Arith {
  lemma {:induction false} MulMonotone(a: nat, x: nat, y: nat)
    requires x <= y
    ensures a * x <= a * y
  {
  }

  lemma {:induction false} MulStep(n: nat, x: nat)
    requires n > 0
    ensures n * x == x + (n - 1) * x
  {
  }

  /** The quotient is the only q with q * b <= a < (q + 1) * b. */
  lemma {:induction false} QuotientUnique(a: nat, b: nat, q: nat)
    requires b > 0 && q * b <= a < (q + 1) * b
    ensures a / b == q
  {
    var d := a / b;
    assert a == d * b + a % b;
    if d < q {
      MulMonotone(b, d + 1, q);
    }
  }

  /** The remainder is the only r below b that differs from a by a multiple of b. */
  lemma {:induction false} RemainderUnique(a: nat, b: nat, q: nat, r: nat)
    requires r < b && a == q * b + r
    ensures a % b == r
  {
    assert (q + 1) * b == q * b + b;
    QuotientUnique(a, b, q);
  }

  lemma {:induction false} DivMulIdentity(a: nat, b: nat)
    requires b > 0
    ensures a * b / b == a
  {
    assert (a + 1) * b == a * b + b;
    QuotientUnique(a * b, b, a);
  }
}
