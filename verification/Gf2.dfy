/** Multiplication of 64-bit words as in MUL64 (s3g.cc).  A word is its sequence of bits, most
    significant first, and stands for a polynomial over GF(2). */
module Gf2 {
  import opened BitStrings

  type Bits = seq<bool>

  // ----- Sums -----

  function Add(a: Bits, b: Bits): (s: Bits)
    requires |a| == |b|
    ensures |s| == |a|
  {
    seq(|a|, i requires 0 <= i < |a| => a[i] != b[i])
  }

  lemma AddZero(a: Bits)
    ensures Add(a, Zeros(|a|)) == a && Add(Zeros(|a|), a) == a && Add(a, a) == Zeros(|a|)
  {
  }

  lemma AddComm(a: Bits, b: Bits)
    requires |a| == |b|
    ensures Add(a, b) == Add(b, a)
  {
  }

  lemma AddAssoc(a: Bits, b: Bits, c: Bits)
    requires |a| == |b| == |c|
    ensures Add(Add(a, b), c) == Add(a, Add(b, c))
  {
  }

  lemma AddExchange(a: Bits, b: Bits, c: Bits, d: Bits)
    requires |a| == |b| == |c| == |d|
    ensures Add(Add(a, b), Add(c, d)) == Add(Add(a, c), Add(b, d))
  {
  }

  // a, or nothing.
  function If(bit: bool, a: Bits): (r: Bits)
    ensures |r| == |a|
  {
    if bit then a else Zeros(|a|)
  }

  lemma IfAdds(bit: bool, bit': bool, a: Bits, b: Bits)
    requires |a| == |b|
    ensures If(bit, Add(a, b)) == Add(If(bit, a), If(bit, b))
    ensures If(bit != bit', a) == Add(If(bit, a), If(bit', a))
  {
  }

  // ----- The code's operations, for the polynomial x^n + c on words of n bits -----

  function MulX(v: Bits, c: Bits): (r: Bits)
    requires 0 < |v| == |c|
    ensures |r| == |v|
  {
    if v[0] then Add(v[1..] + [false], c) else v[1..] + [false]
  }

  function MulXPow(v: Bits, i: nat, c: Bits): (r: Bits)
    requires 0 < |v| == |c|
    ensures |r| == |v|
  {
    if i == 0 then v else MulX(MulXPow(v, i - 1, c), c)
  }

  // Bit i of p, counted from the least significant.
  function Bit(p: Bits, i: nat): bool
    requires i < |p|
  {
    p[|p| - 1 - i]
  }

  // The loop of MUL64 after n passes.
  function Sum(v: Bits, p: Bits, c: Bits, n: nat): (r: Bits)
    requires 0 < |v| == |c| && n <= |p|
    ensures |r| == |v|
  {
    if n == 0 then Zeros(|v|)
    else Add(Sum(v, p, c, n - 1), If(Bit(p, n - 1), MulXPow(v, n - 1, c)))
  }

  function Mul(v: Bits, p: Bits, c: Bits): (r: Bits)
    requires 0 < |v| == |c|
    ensures |r| == |v|
  {
    Sum(v, p, c, |p|)
  }

  method Mul64(v: Bits, p: Bits, c: Bits) returns (result: Bits)
    requires |v| == |p| == |c| == 64
    ensures result == Mul(v, p, c)
  {
    result := Zeros(64);
    var i := 0;
    while i < 64
      invariant 0 <= i <= 64 && |result| == 64
      invariant result == Sum(v, p, c, i)
    {
      if Bit(p, i) {
        result := Add(result, MulXPow(v, i, c));
      } else {
        AddZero(result);
      }
      i := i + 1;
    }
  }

  lemma SumStep(v: Bits, p: Bits, c: Bits, n: nat)
    requires 0 < |v| == |c| && n <= |p|
    ensures Sum(v, p, c, n) == if n == 0 then Zeros(|v|)
                               else Add(Sum(v, p, c, n - 1), If(Bit(p, n - 1), MulXPow(v, n - 1, c)))
  {
    hide Add; hide MulXPow; hide If; hide Bit; hide Zeros;
  }

  // ----- Linearity -----

  lemma MulXLinear(v: Bits, w: Bits, c: Bits)
    requires 0 < |v| == |w| == |c|
    ensures MulX(Add(v, w), c) == Add(MulX(v, c), MulX(w, c))
  {
    assert Add(v, w)[1..] == Add(v[1..], w[1..]);
  }

  lemma {:induction false} MulXPowLinear(v: Bits, w: Bits, i: nat, c: Bits)
    requires 0 < |v| == |w| == |c|
    ensures MulXPow(Add(v, w), i, c) == Add(MulXPow(v, i, c), MulXPow(w, i, c))
  {
    if i == 0 {
    } else {
      hide Add; hide MulX;
      MulXPowLinear(v, w, i - 1, c);
      MulXLinear(MulXPow(v, i - 1, c), MulXPow(w, i - 1, c), c);
    }
  }

  lemma {:induction false} MulXPowAdds(v: Bits, i: nat, j: nat, c: Bits)
    requires 0 < |v| == |c|
    ensures MulXPow(MulXPow(v, i, c), j, c) == MulXPow(v, i + j, c)
  {
    if j == 0 {
    } else {
      hide MulX;
      MulXPowAdds(v, i, j - 1, c);
    }
  }

  lemma {:induction false} SumLinear(v: Bits, w: Bits, p: Bits, c: Bits, n: nat)
    requires 0 < |v| == |w| == |c| && n <= |p|
    ensures Sum(Add(v, w), p, c, n) == Add(Sum(v, p, c, n), Sum(w, p, c, n))
  {
    hide *;
    SumStep(v, p, c, n);
    SumStep(w, p, c, n);
    SumStep(Add(v, w), p, c, n);
    if n == 0 {
      AddZero(Zeros(|v|));
    } else {
      SumLinear(v, w, p, c, n - 1);
      var a, b := MulXPow(v, n - 1, c), MulXPow(w, n - 1, c);
      var bit := Bit(p, n - 1);
      MulXPowLinear(v, w, n - 1, c);
      IfAdds(bit, bit, a, b);
      AddExchange(Sum(v, p, c, n - 1), Sum(w, p, c, n - 1), If(bit, a), If(bit, b));
    }
  }

  lemma BitOfSum(p: Bits, q: Bits, i: nat)
    requires i < |p| == |q|
    ensures Bit(Add(p, q), i) == (Bit(p, i) != Bit(q, i))
  {
  }

  lemma {:induction false} SumLinearRight(v: Bits, p: Bits, q: Bits, c: Bits, n: nat)
    requires 0 < |v| == |c| && n <= |p| == |q|
    ensures Sum(v, Add(p, q), c, n) == Add(Sum(v, p, c, n), Sum(v, q, c, n))
  {
    hide *;
    SumStep(v, p, c, n);
    SumStep(v, q, c, n);
    SumStep(v, Add(p, q), c, n);
    if n == 0 {
      AddZero(Zeros(|v|));
    } else {
      SumLinearRight(v, p, q, c, n - 1);
      BitOfSum(p, q, n - 1);
      var a := MulXPow(v, n - 1, c);
      IfAdds(Bit(p, n - 1), Bit(q, n - 1), a, a);
      AddExchange(Sum(v, p, c, n - 1), Sum(v, q, c, n - 1), If(Bit(p, n - 1), a), If(Bit(q, n - 1), a));
    }
  }

  lemma MulLinear(v: Bits, w: Bits, p: Bits, q: Bits, c: Bits)
    requires 0 < |v| == |w| == |p| == |q| == |c|
    ensures Mul(Add(v, w), p, c) == Add(Mul(v, p, c), Mul(w, p, c))
    ensures Mul(v, Add(p, q), c) == Add(Mul(v, p, c), Mul(v, q, c))
  {
    SumLinear(v, w, p, c, |p|);
    SumLinearRight(v, p, q, c, |p|);
  }

  lemma {:induction false} ZeroPow(n: nat, i: nat, c: Bits)
    requires 0 < n == |c|
    ensures MulXPow(Zeros(n), i, c) == Zeros(n)
  {
    if i == 0 {
    } else {
      ZeroPow(n, i - 1, c);
      assert MulX(Zeros(n), c) == Zeros(n);
    }
  }

  lemma IfZero(bit: bool, n: nat)
    ensures If(bit, Zeros(n)) == Zeros(n)
  {
  }

  lemma {:induction false} SumOfZero(n: nat, p: Bits, c: Bits, k: nat)
    requires 0 < n == |c| && k <= |p|
    ensures Sum(Zeros(n), p, c, k) == Zeros(n)
  {
    hide *;
    SumStep(Zeros(n), p, c, k);
    if k > 0 {
      SumOfZero(n, p, c, k - 1);
      ZeroPow(n, k - 1, c);
      IfZero(Bit(p, k - 1), n);
      AddZero(Zeros(n));
    }
  }

  // Powers of x move through a product.
  lemma {:induction false} PowThroughIf(bit: bool, v: Bits, i: nat, c: Bits)
    requires 0 < |v| == |c|
    ensures MulXPow(If(bit, v), i, c) == If(bit, MulXPow(v, i, c))
  {
    ZeroPow(|v|, i, c);
  }

  lemma {:induction false} PowThroughSum(v: Bits, i: nat, p: Bits, c: Bits, n: nat)
    requires 0 < |v| == |c| && n <= |p|
    ensures Sum(MulXPow(v, i, c), p, c, n) == MulXPow(Sum(v, p, c, n), i, c)
  {
    hide *;
    SumStep(v, p, c, n);
    SumStep(MulXPow(v, i, c), p, c, n);
    if n == 0 {
      ZeroPow(|v|, i, c);
    } else {
      PowThroughSum(v, i, p, c, n - 1);
      var a := MulXPow(v, n - 1, c);
      var bit := Bit(p, n - 1);
      MulXPowLinear(Sum(v, p, c, n - 1), If(bit, a), i, c);
      PowThroughIf(bit, a, i, c);
      MulXPowAdds(v, i, n - 1, c);
      MulXPowAdds(v, n - 1, i, c);
    }
  }

  // ----- One, and the bits of a word -----

  // The word x^i.
  function Monomial(n: nat, i: nat): (m: Bits)
    requires i < n
    ensures |m| == n
  {
    seq(n, j => j == n - 1 - i)
  }

  lemma {:induction false} MonomialIsPow(n: nat, i: nat, c: Bits)
    requires i < n == |c|
    ensures MulXPow(Monomial(n, 0), i, c) == Monomial(n, i)
  {
    if i == 0 {
    } else {
      MonomialIsPow(n, i - 1, c);
      assert MulX(Monomial(n, i - 1), c) == Monomial(n, i);
    }
  }

  // The k least significant bits of p.
  function LowBits(p: Bits, k: nat): (r: Bits)
    requires k <= |p|
    ensures |r| == |p|
  {
    seq(|p|, j requires 0 <= j < |p| => |p| - k <= j && p[j])
  }

  lemma NextBit(p: Bits, k: nat)
    requires k < |p|
    ensures LowBits(p, k + 1) == Add(LowBits(p, k), If(Bit(p, k), Monomial(|p|, k)))
  {
  }

  lemma {:induction false} SumOfOne(p: Bits, c: Bits, k: nat)
    requires k <= |p| == |c| && 0 < |p|
    ensures Sum(Monomial(|p|, 0), p, c, k) == LowBits(p, k)
  {
    hide *;
    AllBits(p);
    SumStep(Monomial(|p|, 0), p, c, k);
    if k == 0 {
    } else {
      SumOfOne(p, c, k - 1);
      MonomialIsPow(|p|, k - 1, c);
      NextBit(p, k - 1);
    }
  }

  lemma AllBits(p: Bits)
    ensures LowBits(p, |p|) == p && LowBits(p, 0) == Zeros(|p|)
  {
  }

  // 1 is the unit.
  lemma MulOne(p: Bits, c: Bits)
    requires 0 < |p| == |c|
    ensures Mul(Monomial(|p|, 0), p, c) == p && Mul(p, Monomial(|p|, 0), c) == p
  {
    SumOfOne(p, c, |p|);
    AllBits(p);
    MulComm(p, Monomial(|p|, 0), c);
  }

  // ----- The product is commutative and associative -----

  lemma {:induction false} CommUpTo(v: Bits, p: Bits, c: Bits, m: nat)
    requires 0 < |v| == |p| == |c| && m <= |v|
    ensures Sum(LowBits(v, m), p, c, |p|) == Sum(p, v, c, m)
  {
    hide *;
    AllBits(v);
    SumStep(p, v, c, m);
    if m == 0 {
      SumOfZero(|v|, p, c, |p|);
    } else {
      CommUpTo(v, p, c, m - 1);
      var bit := Bit(v, m - 1);
      NextBit(v, m - 1);
      SumLinear(LowBits(v, m - 1), If(bit, Monomial(|v|, m - 1)), p, c, |p|);
      MonomialIsPow(|v|, m - 1, c);
      PowThroughSum(Monomial(|v|, 0), m - 1, p, c, |p|);
      SumOfOne(p, c, |p|);
      AllBits(p);
      SumThroughIf(bit, Monomial(|v|, m - 1), p, c);
    }
  }

  lemma SumThroughIf(bit: bool, v: Bits, p: Bits, c: Bits)
    requires 0 < |v| == |c|
    ensures Sum(If(bit, v), p, c, |p|) == If(bit, Sum(v, p, c, |p|))
  {
    SumOfZero(|v|, p, c, |p|);
  }

  lemma MulComm(v: Bits, p: Bits, c: Bits)
    requires 0 < |v| == |p| == |c|
    ensures Mul(v, p, c) == Mul(p, v, c)
  {
    CommUpTo(v, p, c, |v|);
    AllBits(v);
  }

  lemma {:induction false} AssocUpTo(v: Bits, p: Bits, q: Bits, c: Bits, n: nat)
    requires 0 < |v| == |p| == |q| == |c| && n <= |q|
    ensures Mul(v, Sum(p, q, c, n), c) == Sum(Mul(v, p, c), q, c, n)
  {
    if n == 0 {
      MulComm(v, Zeros(|p|), c);
      SumOfZero(|p|, v, c, |v|);
    } else {
      hide Add; hide If; hide MulXPow; hide Mul; hide Bit;
      AssocUpTo(v, p, q, c, n - 1);
      var a := MulXPow(p, n - 1, c);
      var bit := Bit(q, n - 1);
      MulLinear(v, v, Sum(p, q, c, n - 1), If(bit, a), c);
      MulThroughIf(bit, v, a, c);
      MulPow(v, p, n - 1, c);
    }
  }

  lemma MulThroughIf(bit: bool, v: Bits, a: Bits, c: Bits)
    requires 0 < |v| == |a| == |c|
    ensures Mul(v, If(bit, a), c) == If(bit, Mul(v, a, c))
  {
    MulComm(v, Zeros(|a|), c);
    SumOfZero(|a|, v, c, |v|);
  }

  lemma MulPow(v: Bits, p: Bits, i: nat, c: Bits)
    requires 0 < |v| == |p| == |c|
    ensures Mul(v, MulXPow(p, i, c), c) == MulXPow(Mul(v, p, c), i, c)
  {
    MulComm(v, MulXPow(p, i, c), c);
    PowThroughSum(p, i, v, c, |v|);
    MulComm(v, p, c);
  }

  lemma MulAssoc(v: Bits, p: Bits, q: Bits, c: Bits)
    requires 0 < |v| == |p| == |q| == |c|
    ensures Mul(Mul(v, p, c), q, c) == Mul(v, Mul(p, q, c), c)
  {
    AssocUpTo(v, p, q, c, |q|);
  }

  // ----- Long multiplication followed by long division -----

  // The product in GF(2)[x], one bit of p at a time from the most significant.
  ghost function LongProduct(v: Bits, p: Bits): (r: Bits)
    ensures |r| == |v| + |p|
  {
    if p == [] then Zeros(|v|)
    else
      var last := |p| - 1;
      Add(LongProduct(v, p[..last]) + [false], Zeros(|p|) + If(p[last], v))
  }

  // One step of long division by x^n + c: cancel the leading term.
  ghost function RemainderStep(r: Bits, c: Bits): (m: Bits)
    requires 0 < |c| < |r|
    ensures |m| == |r| - 1
  {
    var n := |c|;
    Add(r[1..n + 1], If(r[0], c)) + r[n + 1..]
  }

  // The remainder: cancel leading terms until n bits are left.
  ghost function Remainder(r: Bits, c: Bits): (m: Bits)
    requires 0 < |c| <= |r|
    ensures |m| == |c|
    decreases |r|
  {
    if |r| == |c| then r else Remainder(RemainderStep(r, c), c)
  }

  lemma StepLinear(r: Bits, s: Bits, c: Bits)
    requires 0 < |c| < |r| == |s|
    ensures RemainderStep(Add(r, s), c) == Add(RemainderStep(r, c), RemainderStep(s, c))
  {
    var x, p, q := Add(r, s), RemainderStep(r, c), RemainderStep(s, c);
    var y := RemainderStep(x, c);
    hide RemainderStep;
    forall i | 0 <= i < |y| ensures y[i] == (p[i] != q[i]) {
      StepBit(x, c, i);
      StepBit(r, c, i);
      StepBit(s, c, i);
    }
    assert y == Add(p, q);
  }

  lemma StepBit(r: Bits, c: Bits, i: nat)
    requires 0 < |c| < |r| && i + 1 < |r|
    ensures RemainderStep(r, c)[i] == (r[i + 1] != (i < |c| && r[0] && c[i]))
  {
  }

  lemma {:induction false} RemainderLinear(r: Bits, s: Bits, c: Bits)
    requires 0 < |c| <= |r| == |s|
    ensures Remainder(Add(r, s), c) == Add(Remainder(r, c), Remainder(s, c))
    decreases |r|
  {
    if |r| == |c| {
    } else {
      StepLinear(r, s, c);
      hide Add; hide RemainderStep;
      RemainderLinear(RemainderStep(r, c), RemainderStep(s, c), c);
    }
  }

  lemma {:induction false} RemainderShift(r: Bits, c: Bits)
    requires 0 < |c| <= |r|
    ensures Remainder(r + [false], c) == MulX(Remainder(r, c), c)
    decreases |r|
  {
    var n := |c|;
    var t := r + [false];
    if |r| == n {
      assert t[1..n + 1] == r[1..] + [false];
      AddZero(r[1..] + [false]);
      assert RemainderStep(t, c) == MulX(r, c);
    } else {
      assert RemainderStep(t, c) == RemainderStep(r, c) + [false] by {
        assert t[1..n + 1] == r[1..n + 1] && t[n + 1..] == r[n + 1..] + [false];
      }
      RemainderShift(RemainderStep(r, c), c);
    }
  }

  lemma {:induction false} RemainderOfSmall(k: nat, v: Bits, c: Bits)
    requires 0 < |v| == |c|
    ensures Remainder(Zeros(k) + v, c) == v
    decreases k
  {
    var r := Zeros(k) + v;
    if k == 0 {
      assert r == v;
    } else {
      AddZero(r[1..|c| + 1]);
      assert RemainderStep(r, c) == Zeros(k - 1) + v;
      RemainderOfSmall(k - 1, v, c);
    }
  }

  // Dropping the last bit of p divides by x: the sum in Horner's form.
  lemma {:induction false} SumHorner(v: Bits, p: Bits, c: Bits, n: nat)
    requires 0 < |v| == |c| && 0 < n <= |p|
    ensures Sum(v, p, c, n) == Add(MulX(Sum(v, p[..|p| - 1], c, n - 1), c), If(p[|p| - 1], v))
  {
    var p' := p[..|p| - 1];
    var z := Zeros(|v|);
    if n == 1 {
      AddZero(If(p[|p| - 1], v));
      ZeroPow(|v|, 1, c);
      assert MulXPow(z, 1, c) == MulX(z, c);
    } else {
      SumHorner(v, p, c, n - 1);
      hide Add; hide If;
      assert Bit(p, n - 1) == Bit(p', n - 2);
      hide Bit;
      var a := MulXPow(v, n - 2, c);
      var bit := Bit(p', n - 2);
      var s := Sum(v, p', c, n - 2);
      MulXLinear(s, If(bit, a), c);
      ThroughIf(bit, a, c);
      hide MulX;
      AddComm(If(p[|p| - 1], v), If(bit, MulX(a, c)));
      AddAssoc(MulX(s, c), If(p[|p| - 1], v), If(bit, MulX(a, c)));
      AddAssoc(MulX(s, c), If(bit, MulX(a, c)), If(p[|p| - 1], v));
    }
  }

  lemma ThroughIf(bit: bool, v: Bits, c: Bits)
    requires 0 < |v| == |c|
    ensures MulX(If(bit, v), c) == If(bit, MulX(v, c))
  {
    assert MulX(Zeros(|v|), c) == Zeros(|v|);
  }

  // MUL64 is multiplication in GF(2)[x] modulo x^64 + c.
  lemma {:induction false} MulIsProductModulo(v: Bits, p: Bits, c: Bits)
    requires 0 < |v| == |c|
    ensures Mul(v, p, c) == Remainder(LongProduct(v, p), c)
    decreases |p|
  {
    if p == [] {
    } else {
      var last := |p| - 1;
      var r := LongProduct(v, p[..last]);
      var w := If(p[last], v);
      MulIsProductModulo(v, p[..last], c);
      hide Add; hide If; hide MulX;
      RemainderLinear(r + [false], Zeros(|p|) + w, c);
      RemainderShift(r, c);
      RemainderOfSmall(|p|, w, c);
      SumHorner(v, p, c, |p|);
    }
  }
}
