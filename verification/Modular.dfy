/** Arithmetic modulo 2^31 - 1. */
module Modular {

  const P: nat := 0x7FFF_FFFF

  // Equal modulo P.
  ghost predicate Congruent(a: int, b: int) {
    exists q: int {:trigger q * P} :: a == b + q * P
  }

  lemma CongruentIntro(a: int, b: int, q: int)
    requires a == b + q * P
    ensures Congruent(a, b)
  {
  }

  lemma CongruentSum(a: int, b: int, c: int, d: int)
    requires Congruent(a, b) && Congruent(c, d)
    ensures Congruent(a + c, b + d)
  {
    var q :| a == b + q * P;
    var r :| c == d + r * P;
    CongruentIntro(a + c, b + d, q + r);
  }

  lemma CongruentTrans(a: int, b: int, c: int)
    requires Congruent(a, b) && Congruent(b, c)
    ensures Congruent(a, c)
  {
    var q :| a == b + q * P;
    var r :| b == c + r * P;
    CongruentIntro(a, c, q + r);
  }

  // 257 can be cancelled, because 257 * 16711935 == 2 * P + 1; numbers in [1, P] are then equal.
  lemma Cancel257(a: int, b: int, f: int, k: int)
    requires 1 <= a <= P && 1 <= b <= P
    requires Congruent(f, 257 * a + k) && Congruent(f, 257 * b + k)
    ensures a == b
  {
    var q :| f == 257 * a + k + q * P;
    var r :| f == 257 * b + k + r * P;
    var m := 16711935 * (r - q) - 2 * (a - b);
    assert a - b == m * P;
    assert m == 0;
  }

  // Splitting x at a digit of weight a, where a * b == 2^31.
  lemma Split31(x: nat, a: nat, b: nat) returns (q: nat, r: nat)
    requires x <= P && 1 <= a && 1 <= b && a * b == 0x8000_0000
    ensures q == x / a && q < b && r < a && x == q * a + r
    ensures (x * b) % 0x8000_0000 == r * b && r * b <= (a - 1) * b
    ensures x * b == q * 0x8000_0000 + r * b
  {
    DivFacts(x, a);
    q, r := x / a, x % a;
    if b <= q {
      MulMonotone(b, q, a);
      assert false;
    }
    MulMonotone(r, a - 1, b);
    assert x * b == q * 0x8000_0000 + r * b by {
      assert (q * a + r) * b == q * (a * b) + r * b;
    }
    assert (a - 1) * b == a * b - b;
    ModOfSum(q, r * b);
  }

  lemma DivFacts(x: nat, d: nat)
    requires 1 <= d
    ensures 0 <= x / d && x == (x / d) * d + x % d && x % d < d
  {
  }

  lemma MulMonotone(a: int, b: int, c: nat)
    requires a <= b
    ensures a * c <= b * c
  {
  }

  lemma ModOfSum(q: int, r: nat)
    requires r < 0x8000_0000
    ensures (q * 0x8000_0000 + r) % 0x8000_0000 == r
  {
  }
}
