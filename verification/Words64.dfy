/** MUL64 of s3g.cc on pairs of 32-bit words: the polynomial of UIA2 as the number 0x1b, and products
    of given words, eight bits at a time. */
module Words64 {
  import opened BitStrings
  import opened Gf2
  import opened Octet
  import opened OctetStrings
  import opened Uia2
  import opened Word32
  import Cmac
  import CipherInputs

  // The halves of a doubled word.
  function High(hi: bv32, lo: bv32): bv32 { (hi << 1) | (lo >> 31) }
  function Low64(hi: bv32, lo: bv32): bv32 { if Top(hi) then Xor(Left(lo), 0x1b) else Left(lo) }
  function Left(w: bv32): bv32 { w << 1 }
  predicate Top(w: bv32) { w >> 31 == 1 }

  datatype W64 = W64(hi: bv32, lo: bv32) {
    function Value(): (r: Bits)
      ensures |r| == 64
    {
      BitsOfWord(hi) + BitsOfWord(lo)
    }

    // MUL64x with 0x1b.
    function Twice(): W64 {
      W64(High(hi, lo), Low64(hi, lo))
    }

    function Times16(): W64 {
      Twice().Twice().Twice().Twice()
    }

    function Times256(): W64 {
      Times16().Times16()
    }

    function Plus(bit: bool, w: W64): W64 {
      if bit then W64(Xor(hi, w.hi), Xor(lo, w.lo)) else this
    }

    // This word plus the product of w with the four low bits of b.
    function PlusLow(w: W64, b: bv8): W64 {
      Plus(b & 1 != 0, w).Plus(b & 2 != 0, w.Twice()).Plus(b & 4 != 0, w.Twice().Twice())
      .Plus(b & 8 != 0, w.Twice().Twice().Twice())
    }

    // This word plus the product of w with b.
    function PlusProduct(w: W64, b: bv8): W64 {
      PlusLow(w, b).PlusLow(w.Times16(), b >> 4)
    }

    // Octet k, counted from the least significant one.
    function Octet(k: nat): bv8
      requires k < 8
    {
      var w := if k < 4 then lo else hi;
      if k % 4 == 0 then Byte0(w) else if k % 4 == 1 then Byte1(w) else if k % 4 == 2 then Byte2(w) else Byte3(w)
    }
  }

  // ----- Doubling -----

  lemma ShiftedBytes(w: bv32, next: bv32)
    ensures var r := (w << 1) | (next >> 31);
            && Byte3(r) == (Byte3(w) << 1) | ((Byte2(w) >> 7) & 1) && Byte2(r) == (Byte2(w) << 1) | ((Byte1(w) >> 7) & 1)
            && Byte1(r) == (Byte1(w) << 1) | ((Byte0(w) >> 7) & 1) && Byte0(r) == (Byte0(w) << 1) | ((Byte3(next) >> 7) & 1)
  {
  }

  lemma WordShift(w: bv32, next: bv32)
    ensures BitsOfWord((w << 1) | (next >> 31)) == BitsOfWord(w)[1..] + [BitsOfWord(next)[0]]
  {
    ShiftedBytes(w, next);
    hide Byte0, Byte1, Byte2, Byte3, BitsOfOctet;
    Cmac.ShiftedOctet(Byte3(w), Byte2(w));
    Cmac.ShiftedOctet(Byte2(w), Byte1(w));
    Cmac.ShiftedOctet(Byte1(w), Byte0(w));
    Cmac.ShiftedOctet(Byte0(w), Byte3(next));
    JoinShifted(BitsOfOctet(Byte3(w)), BitsOfOctet(Byte2(w)), BitsOfOctet(Byte1(w)), BitsOfOctet(Byte0(w)), BitsOfOctet(Byte3(next))[0]);
  }

  lemma JoinShifted(a: Bits, b: Bits, c: Bits, d: Bits, e: bool)
    requires |a| == |b| == |c| == |d| == 8
    ensures (a[1..] + [b[0]]) + (b[1..] + [c[0]]) + (c[1..] + [d[0]]) + (d[1..] + [e]) == (a + b + c + d)[1..] + [e]
  {
  }

  lemma TopOfWord(w: bv32)
    ensures BitsOfWord(w)[0] == Top(w)
  {
  }

  lemma ZeroWord()
    ensures BitsOfWord(0) == Zeros(32)
  {
  }

  lemma CIs()
    ensures C == BitsOfWord(0) + BitsOfWord(0x1b)
  {
    ZeroWord();
    assert BitsOfOctet(0x1b) == Zeros(3) + [true, true, false, true, true];
    ZeroOctet();
    hide BitsOfOctet;
    assert Byte3(0x1b) == 0 && Byte2(0x1b) == 0 && Byte1(0x1b) == 0 && Byte0(0x1b) == 0x1b;
  }

  lemma HighIs(hi: bv32, lo: bv32)
    ensures BitsOfWord(High(hi, lo)) == BitsOfWord(hi)[1..] + [BitsOfWord(lo)[0]]
  {
    WordShift(hi, lo);
    hide BitsOfWord;
  }

  lemma LowIs(hi: bv32, lo: bv32)
    ensures BitsOfWord(Low64(hi, lo)) ==
            var x := BitsOfWord(lo)[1..] + [false]; if BitsOfWord(hi)[0] then Add(x, BitsOfWord(0x1b)) else x
  {
    hide BitsOfWord, Xor, Add, Left, Top;
    LeftIs(lo);
    TopOfWord(hi);
    CipherInputs.WordXor(Left(lo), 0x1b);
  }

  lemma LeftIs(w: bv32)
    ensures BitsOfWord(Left(w)) == BitsOfWord(w)[1..] + [false]
  {
    WordShift(w, 0);
    NothingIn(w);
    TopOfWord(0);
    hide BitsOfWord;
  }

  lemma NothingIn(w: bv32)
    ensures (w << 1) | (0 >> 31) == Left(w)
  {
  }

  // Doubling a word of 64 bits is MUL64x with the constant 0x1b.
  lemma MulXIsShift(w: W64)
    ensures MulX(w.Value(), C) == w.Twice().Value()
  {
    hide BitsOfWord, High, Low64, MulX, Add;
    HighIs(w.hi, w.lo);
    LowIs(w.hi, w.lo);
    ZeroWord();
    CIs();
    DoubledHalves(BitsOfWord(w.hi), BitsOfWord(w.lo), BitsOfWord(0x1b));
  }

  lemma DoubledHalves(a: Bits, b: Bits, c: Bits)
    requires |a| == |b| == |c| == 32
    ensures MulX(a + b, Zeros(32) + c) ==
            (a[1..] + [b[0]]) + if a[0] then Add(b[1..] + [false], c) else b[1..] + [false]
  {
    var x := (a + b)[1..] + [false];
    assert x == (a[1..] + [b[0]]) + (b[1..] + [false]);
  }

  lemma SumOfWords(a: W64, b: W64)
    ensures Add(a.Value(), b.Value()) == a.Plus(true, b).Value()
  {
    hide BitsOfWord, Xor, Add;
    CipherInputs.WordXor(a.hi, b.hi);
    CipherInputs.WordXor(a.lo, b.lo);
    AddJoin(BitsOfWord(a.hi), BitsOfWord(a.lo), BitsOfWord(b.hi), BitsOfWord(b.lo));
  }

  lemma AddJoin(a: Bits, b: Bits, c: Bits, d: Bits)
    requires |a| == |c| && |b| == |d|
    ensures Add(a + b, c + d) == Add(a, c) + Add(b, d)
  {
  }

  // ----- Products -----

  // The loop of MUL64 after n passes.
  ghost predicate At(v: Bits, p: Bits, n: nat, power: W64, sum: W64)
    requires |v| == |p| == 64 && n <= 64
  {
    MulXPow(v, n, C) == power.Value() && Sum(v, p, C, n) == sum.Value()
  }

  lemma OnePass(v: Bits, p: Bits, n: nat, power: W64, sum: W64, bit: bool)
    requires |v| == |p| == 64 && n < 64 && At(v, p, n, power, sum) && Bit(p, n) == bit
    ensures At(v, p, n + 1, power.Twice(), sum.Plus(bit, power))
  {
    hide W64.Value, W64.Twice, W64.Plus, Add, If, Bit, MulXPow, MulX, Sum;
    SumStep(v, p, C, n + 1);
    PowStep(v, n);
    MulXIsShift(power);
    SumPlus(sum, bit, power);
  }

  lemma SumPlus(sum: W64, bit: bool, w: W64)
    ensures Add(sum.Value(), If(bit, w.Value())) == sum.Plus(bit, w).Value()
  {
    hide W64.Value, Add, Zeros, Xor;
    SumOfWords(sum, w);
    AddZero(sum.Value());
  }

  lemma PowStep(v: Bits, n: nat)
    requires |v| == 64
    ensures MulXPow(v, n + 1, C) == MulX(MulXPow(v, n, C), C)
  {
    hide MulX;
  }

  lemma FourPasses(v: Bits, p: Bits, n: nat, power: W64, sum: W64, b: bv8)
    requires |v| == |p| == 64 && n + 4 <= 64 && At(v, p, n, power, sum)
    requires Bit(p, n) == (b & 1 != 0) && Bit(p, n + 1) == (b & 2 != 0) && Bit(p, n + 2) == (b & 4 != 0) && Bit(p, n + 3) == (b & 8 != 0)
    ensures At(v, p, n + 4, power.Times16(), sum.PlusLow(power, b))
  {
    hide At, W64.Twice, W64.Plus, Bit;
    OnePass(v, p, n, power, sum, b & 1 != 0);
    var s1 := sum.Plus(b & 1 != 0, power);
    OnePass(v, p, n + 1, power.Twice(), s1, b & 2 != 0);
    var s2 := s1.Plus(b & 2 != 0, power.Twice());
    OnePass(v, p, n + 2, power.Twice().Twice(), s2, b & 4 != 0);
    var s3 := s2.Plus(b & 4 != 0, power.Twice().Twice());
    OnePass(v, p, n + 3, power.Twice().Twice().Twice(), s3, b & 8 != 0);
  }

  lemma EightPasses(v: Bits, p: W64, k: nat, power: W64, sum: W64)
    requires |v| == 64 && k < 8 && At(v, p.Value(), 8 * k, power, sum)
    ensures At(v, p.Value(), 8 * k + 8, power.Times256(), sum.PlusProduct(power, p.Octet(k)))
  {
    hide At, W64.PlusLow, W64.Times16, Bit, W64.Octet, W64.Value;
    var b := p.Octet(k);
    BitsOfFactor(p, k);
    UpperHalf(b);
    FourPasses(v, p.Value(), 8 * k, power, sum, b);
    FourPasses(v, p.Value(), 8 * k + 4, power.Times16(), sum.PlusLow(power, b), b >> 4);
  }

  lemma UpperHalf(b: bv8)
    ensures ((b >> 4) & 1 != 0) == (b & 0x10 != 0) && ((b >> 4) & 2 != 0) == (b & 0x20 != 0)
    ensures ((b >> 4) & 4 != 0) == (b & 0x40 != 0) && ((b >> 4) & 8 != 0) == (b & 0x80 != 0)
  {
  }

  lemma BitsOfFactor(p: W64, k: nat)
    requires k < 8
    ensures var b := p.Octet(k); var x := p.Value();
            && Bit(x, 8 * k) == (b & 1 != 0) && Bit(x, 8 * k + 1) == (b & 2 != 0)
            && Bit(x, 8 * k + 2) == (b & 4 != 0) && Bit(x, 8 * k + 3) == (b & 8 != 0)
            && Bit(x, 8 * k + 4) == (b & 0x10 != 0) && Bit(x, 8 * k + 5) == (b & 0x20 != 0)
            && Bit(x, 8 * k + 6) == (b & 0x40 != 0) && Bit(x, 8 * k + 7) == (b & 0x80 != 0)
  {
    hide *;
    OctetPiece(p, k);
    OctetBits(p.Octet(k));
    BitsOfPiece(p.Value(), k);
  }

  lemma BitsOfPiece(x: Bits, k: nat)
    requires |x| == 64 && k < 8
    ensures var o := Piece(x, 7 - k);
            && Bit(x, 8 * k) == o[7] && Bit(x, 8 * k + 1) == o[6] && Bit(x, 8 * k + 2) == o[5] && Bit(x, 8 * k + 3) == o[4]
            && Bit(x, 8 * k + 4) == o[3] && Bit(x, 8 * k + 5) == o[2] && Bit(x, 8 * k + 6) == o[1] && Bit(x, 8 * k + 7) == o[0]
  {
    hide *;
    PieceBit(x, k, 0);
    PieceBit(x, k, 1);
    PieceBit(x, k, 2);
    PieceBit(x, k, 3);
    PieceBit(x, k, 4);
    PieceBit(x, k, 5);
    PieceBit(x, k, 6);
    PieceBit(x, k, 7);
  }

  lemma OctetBits(b: bv8)
    ensures var o := BitsOfOctet(b);
            && o[7] == (b & 1 != 0) && o[6] == (b & 2 != 0) && o[5] == (b & 4 != 0) && o[4] == (b & 8 != 0)
            && o[3] == (b & 0x10 != 0) && o[2] == (b & 0x20 != 0) && o[1] == (b & 0x40 != 0) && o[0] == (b & 0x80 != 0)
  {
  }

  lemma PieceBit(x: Bits, k: nat, j: nat)
    requires |x| == 64 && k < 8 && j < 8
    ensures Bit(x, 8 * k + j) == Piece(x, 7 - k)[7 - j]
  {
  }

  lemma OctetPiece(p: W64, k: nat)
    requires k < 8
    ensures Piece(p.Value(), 7 - k) == BitsOfOctet(p.Octet(k))
  {
    hide BitsOfOctet, Byte0, Byte1, Byte2, Byte3;
    EightPieces(BitsOfOctet(Byte3(p.hi)), BitsOfOctet(Byte2(p.hi)), BitsOfOctet(Byte1(p.hi)), BitsOfOctet(Byte0(p.hi)),
                BitsOfOctet(Byte3(p.lo)), BitsOfOctet(Byte2(p.lo)), BitsOfOctet(Byte1(p.lo)), BitsOfOctet(Byte0(p.lo)), 7 - k);
  }

  lemma EightPieces(a: Bits, b: Bits, c: Bits, d: Bits, e: Bits, f: Bits, g: Bits, h: Bits, i: nat)
    requires |a| == |b| == |c| == |d| == |e| == |f| == |g| == |h| == 8 && i < 8
    ensures Piece((a + b + c + d) + (e + f + g + h), i) ==
            if i == 0 then a else if i == 1 then b else if i == 2 then c else if i == 3 then d
            else if i == 4 then e else if i == 5 then f else if i == 6 then g else h
  {
  }

  // Eight passes whose results are given.
  lemma Octet8(v: Bits, p: W64, k: nat, power: W64, sum: W64, power': W64, sum': W64)
    requires |v| == 64 && k < 8 && At(v, p.Value(), 8 * k, power, sum)
    requires power' == power.Times256() && sum' == sum.PlusProduct(power, p.Octet(k))
    ensures At(v, p.Value(), 8 * k + 8, power', sum')
  {
    hide *;
    EightPasses(v, p, k, power, sum);
  }

  lemma Start(v: W64, p: W64)
    ensures At(v.Value(), p.Value(), 0, v, W64(0, 0))
  {
    ZeroWord();
    hide W64.Octet, BitsOfWord;
  }

  lemma End(v: Bits, p: Bits, power: W64, sum: W64)
    requires |v| == |p| == 64 && At(v, p, 64, power, sum)
    ensures Mul(v, p, C) == sum.Value()
  {
    hide MulXPow, Sum, W64.Value;
  }

  // x^63 times x is x^4 + x^3 + x + 1.
  lemma Modulus()
    ensures FromBits(Mul(Monomial(64, 63), Monomial(64, 1), C)) == 0x1b
  {
    hide *;
    assert |C| == 64 by { CIs(); }
    var m := Monomial(64, 63);
    MonomialIsPow(64, 1, C);
    MulPow(m, Monomial(64, 0), 1, C);
    MulOne(m, C);
    PowStep(m, 0);
    PowNone(m);
    TopMonomial();
    NumberOfC();
  }

  lemma PowNone(v: Bits)
    requires |v| == 64
    ensures MulXPow(v, 0, C) == v
  {
  }

  lemma TopMonomial()
    ensures MulX(Monomial(64, 63), C) == C
  {
    assert Monomial(64, 63)[1..] + [false] == Zeros(64);
    AddZero(C);
  }

  lemma NumberOfC()
    ensures FromBits(C) == 0x1b
  {
    hide FromBits, ToBits, Low, Shl, Pow2;
    FromBitsJoin(Zeros(59), [true, true, false, true, true]);
    BitStrings.ZeroBits(59);
    FromToBits(0, 59);
    PowPositive(59);
    LowSmall(0, 59);
    FiveBits();
    ShlZero(5);
  }

  lemma PowPositive(n: nat)
    ensures 0 < Pow2(n)
  {
  }

  lemma FiveBits()
    ensures FromBits([true, true, false, true, true]) == 0x1b
  {
    hide *;
    LastBit([], true);
    LastBit([true], true);
    LastBit([true, true], false);
    LastBit([true, true, false], true);
    LastBit([true, true, false, true], true);
    assert FromBits([]) == 0 by { NoBits(); }
    assert [] + [true] == [true];
    assert [true] + [true] == [true, true];
    assert [true, true] + [false] == [true, true, false];
    assert [true, true, false] + [true] == [true, true, false, true];
    assert [true, true, false, true] + [true] == [true, true, false, true, true];
  }

  lemma NoBits()
    ensures FromBits([]) == 0
  {
  }

  lemma LastBit(s: seq<bool>, bit: bool)
    ensures FromBits(s + [bit]) == 2 * FromBits(s) + if bit then 1 else 0
  {
    assert (s + [bit])[..|s|] == s;
  }
}
