/** Numbers and octets as bits, most significant bit first. */
module BitStrings {
  import opened Bytes

  function Pow2(n: nat): (r: nat)
    ensures 0 < r
  {
    if n == 0 then 1 else 2 * Pow2(n - 1)
  }

  function ToBits(v: nat, n: nat): (r: seq<bool>)
    ensures |r| == n
  {
    if n == 0 then [] else ToBits(v / 2, n - 1) + [v % 2 == 1]
  }

  function FromBits(s: seq<bool>): (v: nat)
    ensures v < Pow2(|s|)
  {
    if s == [] then 0 else 2 * FromBits(s[..|s| - 1]) + if s[|s| - 1] then 1 else 0
  }

  // The bits of a buffer.
  function OctetBits(bytes: seq<byte>): (r: seq<bool>)
    ensures |r| == 8 * |bytes|
  {
    if bytes == [] then [] else OctetBits(bytes[..|bytes| - 1]) + ToBits(bytes[|bytes| - 1], 8)
  }

  function Zeros(n: nat): (r: seq<bool>)
    ensures |r| == n
  {
    seq(n, i => false)
  }

  // v << n, v >> n, and v & ((1 << n) - 1)

  function Shl(v: nat, n: nat): nat {
    if n == 0 then v else 2 * Shl(v, n - 1)
  }

  function Shr(v: nat, n: nat): nat {
    if n == 0 then v else Shr(v / 2, n - 1)
  }

  function Low(v: nat, n: nat): (r: nat)
    ensures r < Pow2(n)
  {
    if n == 0 then 0 else 2 * Low(v / 2, n - 1) + v % 2
  }

  // ----- Numbers -----

  lemma {:induction false} Pow2Monotone(a: nat, b: nat)
    requires a <= b
    ensures Pow2(a) <= Pow2(b)
  {
    if a < b {
      Pow2Monotone(a, b - 1);
    }
  }

  lemma {:induction false} ShlSum(v: nat, w: nat, n: nat)
    ensures Shl(v + w, n) == Shl(v, n) + Shl(w, n)
  {
    if n > 0 {
      ShlSum(v, w, n - 1);
    }
  }

  lemma ShlZero(n: nat)
    ensures Shl(0, n) == 0
  {
    ShlSum(0, 0, n);
  }

  lemma {:induction false} ShlPow2(a: nat, n: nat)
    ensures Shl(Pow2(a), n) == Pow2(a + n)
  {
    if n > 0 {
      ShlPow2(a, n - 1);
    }
  }

  lemma {:induction false} ShlShl(v: nat, a: nat, b: nat)
    ensures Shl(Shl(v, a), b) == Shl(v, a + b)
  {
    if b > 0 {
      ShlShl(v, a, b - 1);
    }
  }

  lemma ShlByte(v: nat)
    ensures Shl(v, 8) == 256 * v
  {
    assert Shl(v, 1) == 2 * v;
    assert Shl(v, 3) == 8 * v;
    assert Shl(v, 5) == 32 * v;
    assert Shl(v, 7) == 128 * v;
  }

  lemma ShlBound(v: nat, a: nat, n: nat)
    requires v < Pow2(a)
    ensures Shl(v, n) + Pow2(n) <= Pow2(a + n)
  {
    ShlSum(v, 1, n);
    ShlSum(v + 1, Pow2(a) - v - 1, n);
    ShlPow2(a, n);
    ShlPow2(0, n);
  }

  lemma {:induction false} Decompose(v: nat, n: nat)
    ensures v == Shl(Shr(v, n), n) + Low(v, n)
  {
    if n > 0 {
      Decompose(v / 2, n - 1);
    }
  }

  lemma {:induction false} Recompose(m: nat, w: nat, n: nat)
    requires w < Pow2(n)
    ensures Shr(Shl(m, n) + w, n) == m && Low(Shl(m, n) + w, n) == w
  {
    if n > 0 {
      Recompose(m, w / 2, n - 1);
      assert (Shl(m, n) + w) / 2 == Shl(m, n - 1) + w / 2;
    }
  }

  lemma LowSmall(v: nat, n: nat)
    requires v < Pow2(n)
    ensures Low(v, n) == v && Shr(v, n) == 0
  {
    ShlSum(0, 0, n);
    Recompose(0, v, n);
  }

  lemma ShrBound(v: nat, a: nat, n: nat)
    requires v < Pow2(a + n)
    ensures Shr(v, n) < Pow2(a)
  {
    Decompose(v, n);
    if Shr(v, n) >= Pow2(a) {
      ShlSum(Pow2(a), Shr(v, n) - Pow2(a), n);
      ShlPow2(a, n);
    }
  }

  // ----- Numbers and bits -----

  lemma {:induction false} FromToBits(v: nat, n: nat)
    ensures FromBits(ToBits(v, n)) == Low(v, n)
  {
    if n > 0 {
      FromToBits(v / 2, n - 1);
      assert ToBits(v, n)[..n - 1] == ToBits(v / 2, n - 1);
    }
  }

  lemma {:induction false} ToFromBits(s: seq<bool>)
    ensures ToBits(FromBits(s), |s|) == s
  {
    if s != [] {
      ToFromBits(s[..|s| - 1]);
    }
  }

  lemma ToBitsInjective(v: nat, w: nat, n: nat)
    requires v < Pow2(n) && w < Pow2(n) && ToBits(v, n) == ToBits(w, n)
    ensures v == w
  {
    FromToBits(v, n);
    FromToBits(w, n);
    LowSmall(v, n);
    LowSmall(w, n);
  }

  lemma ToBitsLow(v: nat, n: nat)
    ensures ToBits(Low(v, n), n) == ToBits(v, n)
  {
    FromToBits(v, n);
    ToFromBits(ToBits(v, n));
  }

  lemma {:induction false} ToBitsSplit(v: nat, a: nat, b: nat)
    ensures ToBits(v, a + b) == ToBits(Shr(v, b), a) + ToBits(v, b)
  {
    if b > 0 {
      ToBitsSplit(v / 2, a, b - 1);
    }
  }

  lemma ToBitsJoin(m: nat, w: nat, a: nat, b: nat)
    requires w < Pow2(b)
    ensures ToBits(Shl(m, b) + w, a + b) == ToBits(m, a) + ToBits(w, b)
  {
    Recompose(m, w, b);
    ToBitsSplit(Shl(m, b) + w, a, b);
    ToBitsLow(Shl(m, b) + w, b);
  }

  lemma {:induction false} FromBitsJoin(s: seq<bool>, t: seq<bool>)
    ensures FromBits(s + t) == Shl(FromBits(s), |t|) + FromBits(t)
  {
    if t == [] {
      assert s + t == s;
    } else {
      var last := |t| - 1;
      assert (s + t)[..|s + t| - 1] == s + t[..last];
      FromBitsJoin(s, t[..last]);
    }
  }

  lemma {:induction false} ZeroBits(n: nat)
    ensures ToBits(0, n) == Zeros(n)
  {
    if n == 0 {
    } else {
      ZeroBits(n - 1);
    }
  }

  // ----- Octets -----

  lemma OctetBitsAppend(a: seq<byte>, b: byte)
    ensures OctetBits(a + [b]) == OctetBits(a) + ToBits(b, 8)
  {
    assert (a + [b])[..|a|] == a;
  }

  lemma {:induction false} OctetBitsJoin(a: seq<byte>, b: seq<byte>)
    ensures OctetBits(a + b) == OctetBits(a) + OctetBits(b)
  {
    hide ToBits;
    if b == [] {
      assert a + b == a;
    } else {
      var last := |b| - 1;
      assert (a + b)[..|a + b| - 1] == a + b[..last];
      OctetBitsJoin(a, b[..last]);
    }
  }

  lemma OctetBitsSplit(s: seq<byte>, i: nat)
    requires i <= |s|
    ensures OctetBits(s) == OctetBits(s[..i]) + OctetBits(s[i..])
  {
    hide *;
    assert s == s[..i] + s[i..];
    OctetBitsJoin(s[..i], s[i..]);
  }

  lemma TakeOneMore(s: seq<byte>, i: nat)
    requires i < |s|
    ensures s[..i + 1] == s[..i] + [s[i]]
  {
  }

  lemma Pieces(a: seq<bool>, b: seq<bool>, c: seq<bool>)
    ensures (a + b + c)[|a|..|a| + |b|] == b
    ensures (a + b + c)[..|a|] == a
    ensures (a + b + c)[..|a| + |b|] == a + b
  {
  }

  lemma OctetAt(s: seq<byte>, i: nat)
    requires i < |s|
    ensures OctetBits(s)[8 * i..8 * i + 8] == ToBits(s[i], 8)
    ensures OctetBits(s)[..8 * i] == OctetBits(s[..i])
    ensures OctetBits(s)[..8 * i + 8] == OctetBits(s[..i]) + ToBits(s[i], 8)
  {
    hide *;
    OctetBitsSplit(s, i + 1);
    TakeOneMore(s, i);
    OctetBitsAppend(s[..i], s[i]);
    Pieces(OctetBits(s[..i]), ToBits(s[i], 8), OctetBits(s[i + 1..]));
  }

  lemma {:induction false} OctetBitsInjective(a: seq<byte>, b: seq<byte>)
    requires OctetBits(a) == OctetBits(b)
    ensures a == b
  {
    assert |a| == |b|;
    if a != [] {
      var last := |a| - 1;
      assert OctetBits(a)[..8 * last] == OctetBits(a[..last]);
      assert OctetBits(b)[..8 * last] == OctetBits(b[..last]);
      OctetBitsInjective(a[..last], b[..last]);
      assert OctetBits(a)[8 * last..] == ToBits(a[last], 8);
      assert OctetBits(b)[8 * last..] == ToBits(b[last], 8);
      assert Pow2(8) == 256;
      ToBitsInjective(a[last], b[last], 8);
      assert a == a[..last] + [a[last]];
    }
  }
}
