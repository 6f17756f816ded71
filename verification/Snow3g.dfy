/** The SNOW 3G key-stream generator (s3g.cc). */
module Snow3g {
  import opened Octet
  import opened Tables
  import opened Word32

  // ----- Multiplication by x in GF(2^8) -----

  function TopBit(v: bv8): bool { v & 0x80 != 0 }

  function Twice(v: bv8): bv8 { v << 1 }

  function MulX(v: bv8, c: bv8): bv8 {
    if TopBit(v) then Xor8(Twice(v), c) else Twice(v)
  }

  function MulXPow(v: bv8, i: nat, c: bv8): bv8 {
    if i == 0 then v else MulX(MulXPow(v, i - 1, c), c)
  }

  lemma TwiceLinear(u: bv8, v: bv8)
    ensures Twice(Xor8(u, v)) == Xor8(Twice(u), Twice(v))
    ensures TopBit(Xor8(u, v)) == (TopBit(u) != TopBit(v))
  {
  }

  lemma MulXLinear(u: bv8, v: bv8, c: bv8)
    ensures MulX(Xor8(u, v), c) == Xor8(MulX(u, c), MulX(v, c))
  {
    hide Xor8; hide TopBit; hide Twice;
    TwiceLinear(u, v);
    Exchange8(Twice(u), c, Twice(v), c);
    Self8(c);
    Self8(Xor8(Twice(u), Twice(v)));
    Assoc8(Twice(u), Twice(v), c);
    Assoc8(Twice(u), c, Twice(v));
    Comm8(c, Twice(v));
  }

  lemma {:induction false} MulXPowLinear(u: bv8, v: bv8, i: nat, c: bv8)
    ensures MulXPow(Xor8(u, v), i, c) == Xor8(MulXPow(u, i, c), MulXPow(v, i, c))
  {
    hide Xor8; hide MulX;
    if i == 0 {
    } else {
      MulXPowLinear(u, v, i - 1, c);
      MulXLinear(MulXPow(u, i - 1, c), MulXPow(v, i - 1, c), c);
    }
  }

  lemma {:induction false} MulXPowAdds(v: bv8, i: nat, j: nat, c: bv8)
    ensures MulXPow(MulXPow(v, i, c), j, c) == MulXPow(v, i + j, c)
  {
    hide MulX;
    if j == 0 {
    } else {
      MulXPowAdds(v, i, j - 1, c);
    }
  }

  // ----- x has order 255 under the polynomial 0xa9 -----

  // Five steps in closed form: the bits shifted out come back as x^8 .. x^12.
  function Five(v: bv8): bv8 {
    (v << 5) ^ (if v & 0x08 != 0 then 0xa9 else 0) ^ (if v & 0x10 != 0 then 0xfb else 0)
    ^ (if v & 0x20 != 0 then 0x5f else 0) ^ (if v & 0x40 != 0 then 0xbe else 0)
    ^ (if v & 0x80 != 0 then 0xd5 else 0)
  }

  lemma FiveIsNested(v: bv8)
    ensures MulX(MulX(MulX(MulX(MulX(v, 0xa9), 0xa9), 0xa9), 0xa9), 0xa9) == Five(v)
  {
  }

  lemma FiveIsPow(v: bv8)
    ensures MulXPow(v, 5, 0xa9) == Five(v)
  {
    hide MulX; hide Five;
    assert MulXPow(v, 2, 0xa9) == MulX(MulXPow(v, 1, 0xa9), 0xa9) == MulX(MulX(v, 0xa9), 0xa9);
    assert MulXPow(v, 4, 0xa9) == MulX(MulXPow(v, 3, 0xa9), 0xa9) == MulX(MulX(MulXPow(v, 2, 0xa9), 0xa9), 0xa9);
    FiveIsNested(v);
  }

  // Fifteen more steps from x^i == v lead to x^(i + 15) == w.
  lemma Fifteen(i: nat, v: bv8, a: bv8, b: bv8, w: bv8)
    requires MulXPow(1, i, 0xa9) == v && Five(v) == a && Five(a) == b && Five(b) == w
    ensures MulXPow(1, i + 15, 0xa9) == w
  {
    hide *;
    FiveIsPow(v);
    FiveIsPow(a);
    FiveIsPow(b);
    MulXPowAdds(1, i, 5, 0xa9);
    MulXPowAdds(1, i + 5, 5, 0xa9);
    MulXPowAdds(1, i + 10, 5, 0xa9);
  }

  lemma PowersTo90()
    ensures MulXPow(1, 90, 0xa9) == 0xab
  {
    hide MulXPow;
    PowZero(1, 0xa9);
    Fifteen(0, 0x01, 0x20, 0x5f, 0x0c);
    Fifteen(15, 0x0c, 0x29, 0xd6, 0x50);
    Fifteen(30, 0x50, 0x45, 0x1e, 0x92);
    Fifteen(45, 0x92, 0x6e, 0x88, 0x7c);
    Fifteen(60, 0x7c, 0x33, 0xc4, 0xeb);
    Fifteen(75, 0xeb, 0xfd, 0xc6, 0xab);
  }

  lemma PowersTo180()
    ensures MulXPow(1, 180, 0xa9) == 0x1c
  {
    hide MulXPow;
    PowersTo90();
    Fifteen(90, 0xab, 0x43, 0xde, 0xf9);
    Fifteen(105, 0xf9, 0x46, 0x7e, 0x73);
    Fifteen(120, 0x73, 0x7a, 0xf3, 0xaf);
    Fifteen(135, 0xaf, 0xc3, 0x0b, 0xc9);
    Fifteen(150, 0xc9, 0xe2, 0x74, 0x9a);
    Fifteen(165, 0x9a, 0xc7, 0x8b, 0x1c);
  }

  lemma OrderOfOne()
    ensures MulXPow(1, 255, 0xa9) == 1
  {
    hide MulXPow;
    PowersTo180();
    Fifteen(180, 0x1c, 0xd2, 0xd0, 0x90);
    Fifteen(195, 0x90, 0x2e, 0x36, 0x64);
    Fifteen(210, 0x64, 0x61, 0xc1, 0x4b);
    Fifteen(225, 0x4b, 0x77, 0xfa, 0x26);
    Fifteen(240, 0x26, 0x9f, 0x67, 0x01);
  }

  lemma PowZero(v: bv8, c: bv8)
    ensures MulXPow(v, 0, c) == v && MulXPow(v, 1, c) == MulX(v, c)
  {
    hide MulX;
  }

  // v has order dividing 255; such octets are closed under x and under sums.
  ghost predicate Periodic(v: bv8) {
    MulXPow(v, 255, 0xa9) == v
  }

  lemma PeriodicTimesX(v: bv8)
    requires Periodic(v)
    ensures Periodic(MulX(v, 0xa9))
  {
    hide MulXPow; hide MulX;
    PowZero(v, 0xa9);
    MulXPowAdds(v, 1, 255, 0xa9);
    MulXPowAdds(v, 255, 1, 0xa9);
  }

  lemma PeriodicSum(u: bv8, v: bv8)
    requires Periodic(u) && Periodic(v)
    ensures Periodic(Xor8(u, v))
  {
    hide MulXPow; hide Xor8;
    MulXPowLinear(u, v, 255, 0xa9);
  }

  lemma PeriodicBits()
    ensures Periodic(0) && Periodic(1) && Periodic(2) && Periodic(4) && Periodic(8)
    ensures Periodic(16) && Periodic(32) && Periodic(64) && Periodic(128)
  {
    hide MulXPow;
    OrderOfOne();
    PeriodicTimesX(1);
    PeriodicTimesX(2);
    PeriodicTimesX(4);
    PeriodicTimesX(8);
    PeriodicTimesX(16);
    PeriodicTimesX(32);
    PeriodicTimesX(64);
    PeriodicSum(1, 1);
  }

  function LowBits(v: bv8, mask: bv8): bv8 { v & mask }

  lemma AddBit(v: bv8, mask: bv8, bit: bv8)
    requires bit in {1, 2, 4, 8, 16, 32, 64, 128} && mask == bit - 1
    ensures LowBits(v, mask) == LowBits(v, mask | bit) || Xor8(LowBits(v, mask), bit) == LowBits(v, mask | bit)
  {
  }

  lemma AddPeriodicBit(v: bv8, mask: bv8, bit: bv8)
    requires bit in {1, 2, 4, 8, 16, 32, 64, 128} && mask == bit - 1
    requires Periodic(LowBits(v, mask)) && Periodic(bit)
    ensures Periodic(LowBits(v, mask | bit))
  {
    hide Periodic; hide LowBits; hide Xor8;
    AddBit(v, mask, bit);
    PeriodicSum(LowBits(v, mask), bit);
  }

  lemma AllPeriodic(v: bv8)
    ensures MulXPow(v, 255, 0xa9) == v
  {
    assert Periodic(v) by {
      hide Periodic;
      PeriodicBits();
      assert LowBits(v, 0) == 0 && LowBits(v, 255) == v;
      AddPeriodicBit(v, 0, 1);
      AddPeriodicBit(v, 1, 2);
      AddPeriodicBit(v, 3, 4);
      AddPeriodicBit(v, 7, 8);
      AddPeriodicBit(v, 15, 16);
      AddPeriodicBit(v, 31, 32);
      AddPeriodicBit(v, 63, 64);
      AddPeriodicBit(v, 127, 128);
    }
    hide MulXPow;
  }

  // ----- Multiplication and division by alpha in GF(2^32) -----

  function MulAlpha(c: bv8): bv32 {
    MakeU32(MulXPow(c, 23, 0xa9), MulXPow(c, 245, 0xa9), MulXPow(c, 48, 0xa9), MulXPow(c, 239, 0xa9))
  }

  function DivAlpha(c: bv8): bv32 {
    MakeU32(MulXPow(c, 16, 0xa9), MulXPow(c, 39, 0xa9), MulXPow(c, 6, 0xa9), MulXPow(c, 64, 0xa9))
  }

  function TimesAlpha(w: bv32): bv32 {
    Xor(w << 8, MulAlpha(Byte3(w)))
  }

  function OverAlpha(w: bv32): bv32 {
    Xor(w >> 8, DivAlpha(Byte0(w)))
  }

  // Exponents add, and 255 more of them change nothing.
  lemma DivideAfter239(c: bv8)
    ensures DivAlpha(MulXPow(c, 239, 0xa9))
         == MakeU32(c, MulXPow(c, 23, 0xa9), MulXPow(c, 245, 0xa9), MulXPow(c, 48, 0xa9))
  {
    hide MulXPow; hide MakeU32;
    MulXPowAdds(c, 239, 16, 0xa9);
    MulXPowAdds(c, 239, 39, 0xa9);
    MulXPowAdds(c, 239, 6, 0xa9);
    MulXPowAdds(c, 239, 64, 0xa9);
    MulXPowAdds(c, 255, 23, 0xa9);
    MulXPowAdds(c, 255, 48, 0xa9);
    AllPeriodic(c);
  }

  // The byte shifts of the two maps undo each other.
  lemma ShiftsCancel(w: bv32, t: bv32, a: bv8, b: bv8, d: bv8, e: bv8)
    requires t == Xor(w << 8, MakeU32(a, b, d, e))
    ensures Byte0(t) == e
    ensures Xor(t >> 8, MakeU32(Byte3(w), a, b, d)) == w
  {
  }

  lemma DivisionInvertsMultiplication(w: bv32)
    ensures OverAlpha(TimesAlpha(w)) == w
  {
    hide MulXPow; hide MakeU32; hide Xor; hide Byte3; hide Byte0; hide DivAlpha;
    var c := Byte3(w);
    DivideAfter239(c);
    ShiftsCancel(w, TimesAlpha(w), MulXPow(c, 23, 0xa9), MulXPow(c, 245, 0xa9), MulXPow(c, 48, 0xa9), MulXPow(c, 239, 0xa9));
  }

  // ----- The 32-bit substitutions -----

  // The four octets that s3g_s1 and s3g_s2 form from four substituted octets.
  function Mix0(a: bv8, b: bv8, c: bv8, d: bv8, k: bv8): bv8 {
    Xor8(Xor8(Xor8(MulX(a, k), b), c), Xor8(MulX(d, k), d))
  }

  function Mix1(a: bv8, b: bv8, c: bv8, d: bv8, k: bv8): bv8 {
    Xor8(Xor8(Xor8(Xor8(MulX(a, k), a), MulX(b, k)), c), d)
  }

  function Mix2(a: bv8, b: bv8, c: bv8, d: bv8, k: bv8): bv8 {
    Xor8(Xor8(Xor8(a, Xor8(MulX(b, k), b)), MulX(c, k)), d)
  }

  function Mix3(a: bv8, b: bv8, c: bv8, d: bv8, k: bv8): bv8 {
    Xor8(Xor8(Xor8(a, b), Xor8(MulX(c, k), c)), MulX(d, k))
  }

  function MixWord(a: bv8, b: bv8, c: bv8, d: bv8, k: bv8): bv32 {
    MakeU32(Mix0(a, b, c, d, k), Mix1(a, b, c, d, k), Mix2(a, b, c, d, k), Mix3(a, b, c, d, k))
  }

  function S1Word(w: bv32): bv32 {
    MixWord(S(Byte3(w)), S(Byte2(w)), S(Byte1(w)), S(Byte0(w)), 0x1b)
  }

  function S2Word(w: bv32): bv32 {
    MixWord(SQ(Byte3(w)), SQ(Byte2(w)), SQ(Byte1(w)), SQ(Byte0(w)), 0x69)
  }

  lemma Mix0Linear(a: bv8, b: bv8, c: bv8, d: bv8, a': bv8, b': bv8, c': bv8, d': bv8, k: bv8)
    ensures Mix0(Xor8(a, a'), Xor8(b, b'), Xor8(c, c'), Xor8(d, d'), k)
         == Xor8(Mix0(a, b, c, d, k), Mix0(a', b', c', d', k))
  {
    hide Xor8; hide MulX;
    MulXLinear(a, a', k);
    MulXLinear(d, d', k);
    Exchange8(MulX(a, k), MulX(a', k), b, b');
    Exchange8(Xor8(MulX(a, k), b), Xor8(MulX(a', k), b'), c, c');
    Exchange8(MulX(d, k), MulX(d', k), d, d');
    Exchange8(Xor8(Xor8(MulX(a, k), b), c), Xor8(Xor8(MulX(a', k), b'), c'), Xor8(MulX(d, k), d), Xor8(MulX(d', k), d'));
  }

  lemma Mix1Linear(a: bv8, b: bv8, c: bv8, d: bv8, a': bv8, b': bv8, c': bv8, d': bv8, k: bv8)
    ensures Mix1(Xor8(a, a'), Xor8(b, b'), Xor8(c, c'), Xor8(d, d'), k)
         == Xor8(Mix1(a, b, c, d, k), Mix1(a', b', c', d', k))
  {
    hide Xor8; hide MulX;
    MulXLinear(a, a', k);
    MulXLinear(b, b', k);
    Exchange8(MulX(a, k), MulX(a', k), a, a');
    Exchange8(Xor8(MulX(a, k), a), Xor8(MulX(a', k), a'), MulX(b, k), MulX(b', k));
    Exchange8(Xor8(Xor8(MulX(a, k), a), MulX(b, k)), Xor8(Xor8(MulX(a', k), a'), MulX(b', k)), c, c');
    Exchange8(Xor8(Xor8(Xor8(MulX(a, k), a), MulX(b, k)), c), Xor8(Xor8(Xor8(MulX(a', k), a'), MulX(b', k)), c'), d, d');
  }

  lemma Mix2Linear(a: bv8, b: bv8, c: bv8, d: bv8, a': bv8, b': bv8, c': bv8, d': bv8, k: bv8)
    ensures Mix2(Xor8(a, a'), Xor8(b, b'), Xor8(c, c'), Xor8(d, d'), k)
         == Xor8(Mix2(a, b, c, d, k), Mix2(a', b', c', d', k))
  {
    hide Xor8; hide MulX;
    MulXLinear(b, b', k);
    MulXLinear(c, c', k);
    Exchange8(MulX(b, k), MulX(b', k), b, b');
    Exchange8(a, a', Xor8(MulX(b, k), b), Xor8(MulX(b', k), b'));
    Exchange8(Xor8(a, Xor8(MulX(b, k), b)), Xor8(a', Xor8(MulX(b', k), b')), MulX(c, k), MulX(c', k));
    Exchange8(Xor8(Xor8(a, Xor8(MulX(b, k), b)), MulX(c, k)), Xor8(Xor8(a', Xor8(MulX(b', k), b')), MulX(c', k)), d, d');
  }

  lemma Mix3Linear(a: bv8, b: bv8, c: bv8, d: bv8, a': bv8, b': bv8, c': bv8, d': bv8, k: bv8)
    ensures Mix3(Xor8(a, a'), Xor8(b, b'), Xor8(c, c'), Xor8(d, d'), k)
         == Xor8(Mix3(a, b, c, d, k), Mix3(a', b', c', d', k))
  {
    hide Xor8; hide MulX;
    MulXLinear(c, c', k);
    MulXLinear(d, d', k);
    Exchange8(a, a', b, b');
    Exchange8(MulX(c, k), MulX(c', k), c, c');
    Exchange8(Xor8(a, b), Xor8(a', b'), Xor8(MulX(c, k), c), Xor8(MulX(c', k), c'));
    Exchange8(Xor8(Xor8(a, b), Xor8(MulX(c, k), c)), Xor8(Xor8(a', b'), Xor8(MulX(c', k), c')), MulX(d, k), MulX(d', k));
  }

  lemma MixKernel1b(a: bv8, b: bv8, c: bv8, d: bv8)
    requires Mix0(a, b, c, d, 0x1b) == 0 && Mix1(a, b, c, d, 0x1b) == 0
    requires Mix2(a, b, c, d, 0x1b) == 0 && Mix3(a, b, c, d, 0x1b) == 0
    ensures a == 0 && b == 0 && c == 0 && d == 0
  {
  }

  lemma MixKernel69(a: bv8, b: bv8, c: bv8, d: bv8)
    requires Mix0(a, b, c, d, 0x69) == 0 && Mix1(a, b, c, d, 0x69) == 0
    requires Mix2(a, b, c, d, 0x69) == 0 && Mix3(a, b, c, d, 0x69) == 0
    ensures a == 0 && b == 0 && c == 0 && d == 0
  {
  }

  lemma MixInjective(a: bv8, b: bv8, c: bv8, d: bv8, a': bv8, b': bv8, c': bv8, d': bv8, k: bv8)
    requires k in {0x1b, 0x69} && MixWord(a, b, c, d, k) == MixWord(a', b', c', d', k)
    ensures a == a' && b == b' && c == c' && d == d'
  {
    hide Xor8; hide Mix0; hide Mix1; hide Mix2; hide Mix3; hide MakeU32;
    MakeU32Injective(Mix0(a, b, c, d, k), Mix1(a, b, c, d, k), Mix2(a, b, c, d, k), Mix3(a, b, c, d, k),
                     Mix0(a', b', c', d', k), Mix1(a', b', c', d', k), Mix2(a', b', c', d', k), Mix3(a', b', c', d', k));
    Mix0Linear(a, b, c, d, a', b', c', d', k);
    Mix1Linear(a, b, c, d, a', b', c', d', k);
    Mix2Linear(a, b, c, d, a', b', c', d', k);
    Mix3Linear(a, b, c, d, a', b', c', d', k);
    Self8(Mix0(a, b, c, d, k));
    Self8(Mix1(a, b, c, d, k));
    Self8(Mix2(a, b, c, d, k));
    Self8(Mix3(a, b, c, d, k));
    var p, q, r, t := Xor8(a, a'), Xor8(b, b'), Xor8(c, c'), Xor8(d, d');
    if k == 0x1b {
      MixKernel1b(p, q, r, t);
    } else {
      MixKernel69(p, q, r, t);
    }
    Zero8(a, a');
    Zero8(b, b');
    Zero8(c, c');
    Zero8(d, d');
  }

  lemma S1Injective(u: bv32, v: bv32)
    requires S1Word(u) == S1Word(v)
    ensures u == v
  {
    hide S; hide InvS; hide MixWord; hide Byte0; hide Byte1; hide Byte2; hide Byte3;
    MixInjective(S(Byte3(u)), S(Byte2(u)), S(Byte1(u)), S(Byte0(u)),
                 S(Byte3(v)), S(Byte2(v)), S(Byte1(v)), S(Byte0(v)), 0x1b);
    SPermutes(Byte3(u)); SPermutes(Byte3(v));
    SPermutes(Byte2(u)); SPermutes(Byte2(v));
    SPermutes(Byte1(u)); SPermutes(Byte1(v));
    SPermutes(Byte0(u)); SPermutes(Byte0(v));
    BytesDetermine(u, v);
  }

  lemma S2Injective(u: bv32, v: bv32)
    requires S2Word(u) == S2Word(v)
    ensures u == v
  {
    hide SQ; hide InvSQ; hide MixWord; hide Byte0; hide Byte1; hide Byte2; hide Byte3;
    MixInjective(SQ(Byte3(u)), SQ(Byte2(u)), SQ(Byte1(u)), SQ(Byte0(u)),
                 SQ(Byte3(v)), SQ(Byte2(v)), SQ(Byte1(v)), SQ(Byte0(v)), 0x69);
    SQPermutes(Byte3(u)); SQPermutes(Byte3(v));
    SQPermutes(Byte2(u)); SQPermutes(Byte2(v));
    SQPermutes(Byte1(u)); SQPermutes(Byte1(v));
    SQPermutes(Byte0(u)); SQPermutes(Byte0(v));
    BytesDetermine(u, v);
  }

  // ----- One clock of the generator -----

  datatype State = State(lfsr: seq<bv32>, fsm: seq<bv32>)

  ghost predicate Valid(st: State) {
    |st.lfsr| == 16 && |st.fsm| == 3
  }

  // The word that enters the shift register; f is 0 in key-stream mode.
  function NewCell(s: seq<bv32>, f: bv32): bv32
    requires |s| == 16
  {
    Xor(Xor(Xor(Xor(Xor(s[0] << 8, MulAlpha(Byte3(s[0]))), s[2]), s[11] >> 8), DivAlpha(Byte0(s[11]))), f)
  }

  function FsmOutput(st: State): bv32
    requires Valid(st)
  {
    Xor(Plus(st.lfsr[15], st.fsm[0]), st.fsm[1])
  }

  function NextFsm(st: State): (fsm: seq<bv32>)
    requires Valid(st)
    ensures |fsm| == 3
  {
    [Plus(st.fsm[1], Xor(st.fsm[2], st.lfsr[5])), S1Word(st.fsm[0]), S2Word(st.fsm[1])]
  }

  // A clock of the FSM followed by one of the LFSR, in the two modes.
  function InitRound(st: State): (next: State)
    requires Valid(st)
    ensures Valid(next)
  {
    hide NewCell, NextFsm, FsmOutput;
    State(st.lfsr[1..] + [NewCell(st.lfsr, FsmOutput(st))], NextFsm(st))
  }

  function KeyRound(st: State): (next: State)
    requires Valid(st)
    ensures Valid(next)
  {
    hide NewCell, NextFsm;
    State(st.lfsr[1..] + [NewCell(st.lfsr, 0)], NextFsm(st))
  }

  lemma NewCellInjective(s: seq<bv32>, t: seq<bv32>, f: bv32)
    requires |s| == 16 && |t| == 16 && s[1..] == t[1..]
    requires NewCell(s, f) == NewCell(t, f)
    ensures s == t
  {
    hide Xor; hide MulAlpha; hide DivAlpha; hide Byte3; hide Byte0;
    assert s[2] == s[1..][1] && t[2] == t[1..][1] && s[11] == s[1..][10] && t[11] == t[1..][10];
    var a, b := TimesAlpha(s[0]), TimesAlpha(t[0]);
    var c, d := s[11] >> 8, DivAlpha(Byte0(s[11]));
    Cancel(Xor(Xor(Xor(a, s[2]), c), d), Xor(Xor(Xor(b, s[2]), c), d), f);
    Cancel(Xor(Xor(a, s[2]), c), Xor(Xor(b, s[2]), c), d);
    Cancel(Xor(a, s[2]), Xor(b, s[2]), c);
    Cancel(a, b, s[2]);
    DivisionInvertsMultiplication(s[0]);
    DivisionInvertsMultiplication(t[0]);
    assert s == [s[0]] + s[1..] && t == [t[0]] + t[1..];
  }

  lemma NextFsmInjective(a: State, b: State)
    requires Valid(a) && Valid(b) && a.lfsr[5] == b.lfsr[5] && NextFsm(a) == NextFsm(b)
    ensures a.fsm == b.fsm
  {
    hide Xor; hide S1Word; hide S2Word; hide Plus;
    assert NextFsm(a)[0] == NextFsm(b)[0] && NextFsm(a)[1] == NextFsm(b)[1] && NextFsm(a)[2] == NextFsm(b)[2];
    S1Injective(a.fsm[0], b.fsm[0]);
    S2Injective(a.fsm[1], b.fsm[1]);
    CancelLeft(a.fsm[1], Xor(a.fsm[2], a.lfsr[5]), Xor(b.fsm[2], a.lfsr[5]));
    Cancel(a.fsm[2], b.fsm[2], a.lfsr[5]);
    assert a.fsm == [a.fsm[0], a.fsm[1], a.fsm[2]] && b.fsm == [b.fsm[0], b.fsm[1], b.fsm[2]];
  }

  lemma InitRoundInjective(a: State, b: State)
    requires Valid(a) && Valid(b)
    ensures InitRound(a) == InitRound(b) <==> a == b
  {
    hide NewCell; hide NextFsm; hide FsmOutput;
    if InitRound(a) == InitRound(b) {
      SameShift(a.lfsr, b.lfsr, NewCell(a.lfsr, FsmOutput(a)), NewCell(b.lfsr, FsmOutput(b)));
      NextFsmInjective(a, b);
      SameOutput(a, b);
      NewCellInjective(a.lfsr, b.lfsr, FsmOutput(a));
    }
  }

  lemma KeyRoundInjective(a: State, b: State)
    requires Valid(a) && Valid(b)
    ensures KeyRound(a) == KeyRound(b) <==> a == b
  {
    hide NewCell; hide NextFsm;
    if KeyRound(a) == KeyRound(b) {
      SameShift(a.lfsr, b.lfsr, NewCell(a.lfsr, 0), NewCell(b.lfsr, 0));
      NextFsmInjective(a, b);
      NewCellInjective(a.lfsr, b.lfsr, 0);
    }
  }

  lemma SameOutput(a: State, b: State)
    requires Valid(a) && Valid(b) && a.lfsr[15] == b.lfsr[15] && a.fsm == b.fsm
    ensures FsmOutput(a) == FsmOutput(b)
  {
    hide Xor; hide Plus;
  }

  lemma SameShift(s: seq<bv32>, t: seq<bv32>, v: bv32, w: bv32)
    requires |s| == 16 && |t| == 16 && s[1..] + [v] == t[1..] + [w]
    ensures s[1..] == t[1..] && v == w && s[5] == t[5] && s[15] == t[15]
  {
    var p, q := s[1..] + [v], t[1..] + [w];
    assert p[15] == v && q[15] == w && p[4] == s[5] && q[4] == t[5] && p[14] == s[15] && q[14] == t[15];
    assert s[1..] == p[..15] && t[1..] == q[..15];
  }

  function InitRounds(st: State, n: nat): (r: State)
    requires Valid(st)
    ensures Valid(r)
  {
    if n == 0 then st else InitRound(InitRounds(st, n - 1))
  }

  function KeyRounds(st: State, n: nat): (r: State)
    requires Valid(st)
    ensures Valid(r)
  {
    if n == 0 then st else KeyRound(KeyRounds(st, n - 1))
  }

  lemma LastInitRound(st: State, n: nat)
    requires Valid(st)
    ensures InitRounds(st, n) == if n == 0 then st else InitRound(InitRounds(st, n - 1))
  {
    hide InitRound; hide Valid;
  }

  lemma LastKeyRound(st: State, n: nat)
    requires Valid(st)
    ensures KeyRounds(st, n) == if n == 0 then st else KeyRound(KeyRounds(st, n - 1))
  {
    hide KeyRound; hide Valid;
  }

  lemma {:induction false} InitRoundsInjective(a: State, b: State, n: nat)
    requires Valid(a) && Valid(b)
    ensures InitRounds(a, n) == InitRounds(b, n) <==> a == b
  {
    hide *;
    LastInitRound(a, n);
    LastInitRound(b, n);
    if InitRounds(a, n) == InitRounds(b, n) {
      if n > 0 {
        InitRoundInjective(InitRounds(a, n - 1), InitRounds(b, n - 1));
        InitRoundsInjective(a, b, n - 1);
      }
    }
  }

  lemma {:induction false} KeyRoundsInjective(a: State, b: State, n: nat)
    requires Valid(a) && Valid(b)
    ensures KeyRounds(a, n) == KeyRounds(b, n) <==> a == b
  {
    hide *;
    LastKeyRound(a, n);
    LastKeyRound(b, n);
    if KeyRounds(a, n) == KeyRounds(b, n) {
      if n > 0 {
        KeyRoundInjective(KeyRounds(a, n - 1), KeyRounds(b, n - 1));
        KeyRoundsInjective(a, b, n - 1);
      }
    }
  }

  // ----- Key loading -----

  const ONES: bv32 := 0xFFFF_FFFF

  // The four quarters of the register after loading.
  function Load0(k: seq<bv32>): (q: seq<bv32>)
    requires |k| == 4
    ensures |q| == 4
  {
    [Xor(k[0], ONES), Xor(k[1], ONES), Xor(k[2], ONES), Xor(k[3], ONES)]
  }

  function Load8(k: seq<bv32>, iv: seq<bv32>): (q: seq<bv32>)
    requires |k| == 4 && |iv| == 4
    ensures |q| == 4
  {
    [Xor(k[0], ONES), Xor(Xor(k[1], ONES), iv[3]), Xor(Xor(k[2], ONES), iv[2]), Xor(k[3], ONES)]
  }

  function Load12(k: seq<bv32>, iv: seq<bv32>): (q: seq<bv32>)
    requires |k| == 4 && |iv| == 4
    ensures |q| == 4
  {
    [Xor(k[0], iv[1]), k[1], k[2], Xor(k[3], iv[0])]
  }

  function Load(k: seq<bv32>, iv: seq<bv32>): (st: State)
    requires |k| == 4 && |iv| == 4
    ensures Valid(st)
  {
    State(Load0(k) + k + Load8(k, iv) + Load12(k, iv), [0, 0, 0])
  }

  lemma LoadInjective(k: seq<bv32>, iv: seq<bv32>, k': seq<bv32>, iv': seq<bv32>)
    requires |k| == 4 && |iv| == 4 && |k'| == 4 && |iv'| == 4
    requires Load(k, iv) == Load(k', iv')
    ensures k == k' && iv == iv'
  {
    hide Xor;
    var s, t := Load(k, iv).lfsr, Load(k', iv').lfsr;
    assert s[4..8] == k && t[4..8] == k';
    assert s[8..12] == Load8(k, iv) && t[8..12] == Load8(k', iv');
    assert s[12..] == Load12(k, iv) && t[12..] == Load12(k', iv');
    VectorInjective(k, iv, iv');
  }

  lemma VectorInjective(k: seq<bv32>, iv: seq<bv32>, iv': seq<bv32>)
    requires |k| == 4 && |iv| == 4 && |iv'| == 4
    requires Load8(k, iv) == Load8(k, iv') && Load12(k, iv) == Load12(k, iv')
    ensures iv == iv'
  {
    hide Xor;
    var s, t := Load8(k, iv), Load8(k, iv');
    var p, q := Load12(k, iv), Load12(k, iv');
    assert s[1] == t[1] && s[2] == t[2] && p[0] == q[0] && p[3] == q[3];
    CancelFirst(k[3], iv[0], iv'[0]);
    CancelFirst(k[0], iv[1], iv'[1]);
    CancelFirst(Xor(k[2], ONES), iv[2], iv'[2]);
    CancelFirst(Xor(k[1], ONES), iv[3], iv'[3]);
  }

  lemma CancelFirst(k: bv32, a: bv32, b: bv32)
    requires Xor(k, a) == Xor(k, b)
    ensures a == b
  {
    hide *;
    Comm(k, a);
    Comm(k, b);
    Cancel(a, b, k);
  }

  // What s3g_initialize leaves in the state.
  function Initialized(k: seq<bv32>, iv: seq<bv32>): (st: State)
    requires |k| == 4 && |iv| == 4
    ensures Valid(st)
  {
    InitRounds(Load(k, iv), 32)
  }

  lemma InitializedMeans(k: seq<bv32>, iv: seq<bv32>)
    requires |k| == 4 && |iv| == 4
    ensures Initialized(k, iv) == InitRounds(Load(k, iv), 32)
  {
    hide InitRounds; hide Load;
  }

  // Generators started from different keys or initialization vectors never come to the same
  // state, neither after initialization nor after any number of key-stream clocks.
  lemma InitializationInjective(k: seq<bv32>, iv: seq<bv32>, k': seq<bv32>, iv': seq<bv32>, n: nat)
    requires |k| == 4 && |iv| == 4 && |k'| == 4 && |iv'| == 4
    ensures KeyRounds(Initialized(k, iv), n) == KeyRounds(Initialized(k', iv'), n) <==> k == k' && iv == iv'
  {
    hide *;
    InitializedMeans(k, iv);
    InitializedMeans(k', iv');
    if KeyRounds(Initialized(k, iv), n) == KeyRounds(Initialized(k', iv'), n) {
      KeyRoundsInjective(Initialized(k, iv), Initialized(k', iv'), n);
      InitRoundsInjective(Load(k, iv), Load(k', iv'), 32);
      LoadInjective(k, iv, k', iv');
    }
  }

  // The word output before each key-stream clock, and the first n of them.
  function KeyWord(st: State): bv32
    requires Valid(st)
  {
    Xor(FsmOutput(st), st.lfsr[0])
  }

  function Keystream(st: State, n: nat): (ks: seq<bv32>)
    requires Valid(st)
    ensures |ks| == n
  {
    if n == 0 then [] else Keystream(st, n - 1) + [KeyWord(KeyRounds(st, n - 1))]
  }

  lemma LastWord(st: State, n: nat)
    requires Valid(st)
    ensures Keystream(st, n) == if n == 0 then [] else Keystream(st, n - 1) + [KeyWord(KeyRounds(st, n - 1))]
  {
    hide KeyWord; hide KeyRounds;
  }

  // ----- The generator as the code runs it -----

  class S3gState {
    const lfsr: array<bv32>
    const fsm: array<bv32>

    ghost predicate Shape() {
      lfsr.Length == 16 && fsm.Length == 3 && lfsr != fsm
    }

    ghost function Value(): (st: State)
      requires Shape()
      reads lfsr, fsm
      ensures Valid(st) && st.lfsr == lfsr[..] && st.fsm == fsm[..]
    {
      State(lfsr[..], fsm[..])
    }

    method ClockLfsr(f: bv32)
      requires Shape()
      modifies lfsr
      ensures lfsr[..] == old(lfsr[1..]) + [NewCell(old(lfsr[..]), f)]
    {
      hide Xor; hide MulAlpha; hide DivAlpha; hide Byte0; hide Byte3;
      var v := Xor(Xor(Xor(Xor(Xor(lfsr[0] << 8, MulAlpha(Byte3(lfsr[0]))), lfsr[2]), lfsr[11] >> 8),
                       DivAlpha(Byte0(lfsr[11]))), f);
      Shift(v);
    }

    method Shift(v: bv32)
      requires Shape()
      modifies lfsr
      ensures lfsr[..] == old(lfsr[1..]) + [v]
    {
      ghost var was := lfsr[..];
      var i := 0;
      while i < 15
        invariant 0 <= i <= 15
        invariant forall j :: 0 <= j < i ==> lfsr[j] == was[j + 1]
        invariant forall j :: i <= j < 16 ==> lfsr[j] == was[j]
      {
        lfsr[i] := lfsr[i + 1];
        i := i + 1;
      }
      lfsr[15] := v;
      ShiftedOnce(was, v, lfsr[..]);
    }

    static lemma ShiftedOnce(s: seq<bv32>, v: bv32, t: seq<bv32>)
      requires |s| == |t| == 16 && t[15] == v && forall j :: 0 <= j < 15 ==> t[j] == s[j + 1]
      ensures t == s[1..] + [v]
    {
    }

    method ClockFsm() returns (f: bv32)
      requires Shape()
      modifies fsm
      ensures f == FsmOutput(old(Value())) && fsm[..] == NextFsm(old(Value()))
    {
      hide Xor; hide Plus; hide S1Word; hide S2Word;
      f := Xor(Plus(lfsr[15], fsm[0]), fsm[1]);
      var r := Plus(fsm[1], Xor(fsm[2], lfsr[5]));
      fsm[2] := S2Word(fsm[1]);
      fsm[1] := S1Word(fsm[0]);
      fsm[0] := r;
      assert fsm[..] == [fsm[0], fsm[1], fsm[2]];
    }

    // Allocates the registers, loads key and initialization vector, and clocks 32 times.
    constructor Initialize(k: seq<bv32>, iv: seq<bv32>)
      requires |k| == 4 && |iv| == 4
      ensures Shape() && fresh(lfsr) && fresh(fsm)
      ensures Value() == Initialized(k, iv)
    {
      lfsr, fsm := new bv32[16](_ => 0), new bv32[3](_ => 0);
      new;
      assert Shape();
      LoadRegisters(k, iv);
      hide *;
      InitializedMeans(k, iv);
      LastInitRound(Load(k, iv), 0);
      var i := 0;
      while i < 32
        invariant 0 <= i <= 32 && Shape() && fresh(lfsr) && fresh(fsm)
        invariant Value() == InitRounds(Load(k, iv), i)
      {
        LastInitRound(Load(k, iv), i + 1);
        ClockInit();
        i := i + 1;
      }
    }

    method LoadRegisters(k: seq<bv32>, iv: seq<bv32>)
      requires |k| == 4 && |iv| == 4 && Shape()
      modifies lfsr, fsm
      ensures Value() == Load(k, iv)
    {
      hide Load0; hide Load8; hide Load12;
      SetFour(12, Load12(k, iv));
      SetFour(8, Load8(k, iv));
      SetFour(4, k);
      SetFour(0, Load0(k));
      fsm[0] := 0;
      fsm[1] := 0;
      fsm[2] := 0;
      Quarters(lfsr[..], Load0(k), k, Load8(k, iv), Load12(k, iv));
    }

    static lemma Quarters(s: seq<bv32>, a: seq<bv32>, b: seq<bv32>, c: seq<bv32>, d: seq<bv32>)
      requires |s| == 16 && |a| == |b| == |c| == |d| == 4
      requires forall j :: 0 <= j < 4 ==> s[j] == a[j]
      requires forall j :: 4 <= j < 8 ==> s[j] == b[j - 4]
      requires forall j :: 8 <= j < 12 ==> s[j] == c[j - 8]
      requires forall j :: 12 <= j < 16 ==> s[j] == d[j - 12]
      ensures s == a + b + c + d
    {
    }

    // Assigns four consecutive cells.
    method SetFour(i: nat, q: seq<bv32>)
      requires Shape() && i <= 12 && |q| == 4
      modifies lfsr
      ensures forall j :: 0 <= j < 16 ==> lfsr[j] == if i <= j < i + 4 then q[j - i] else old(lfsr[j])
    {
      lfsr[i + 3] := q[3];
      lfsr[i + 2] := q[2];
      lfsr[i + 1] := q[1];
      lfsr[i] := q[0];
    }

    // One pass of the initialization loop.
    method ClockInit()
      requires Shape()
      modifies lfsr, fsm
      ensures Value() == InitRound(old(Value()))
    {
      hide NewCell; hide FsmOutput; hide NextFsm;
      var f := ClockFsm();
      ClockLfsr(f);
      assert old(lfsr[1..]) == old(Value()).lfsr[1..];
    }

    // One pass of the key-stream loop.
    method ClockKey() returns (z: bv32)
      requires Shape()
      modifies lfsr, fsm
      ensures z == KeyWord(old(Value())) && Value() == KeyRound(old(Value()))
    {
      hide NewCell; hide FsmOutput; hide NextFsm; hide Xor;
      var f := ClockFsm();
      z := Xor(f, lfsr[0]);
      ClockLfsr(0);
      assert old(lfsr[1..]) == old(Value()).lfsr[1..];
    }

    // One word is discarded; the following n fill ks.
    method GenerateKeystream(n: nat, ks: array<bv32>)
      requires Shape() && n <= ks.Length && ks != lfsr && ks != fsm
      modifies lfsr, fsm, ks
      ensures ks[..n] == Keystream(old(Value()), n + 1)[1..]
      ensures ks[n..] == old(ks[n..])
      ensures Value() == KeyRounds(old(Value()), n + 1)
    {
      hide *;
      ghost var start := Value();
      LastKeyRound(start, 0);
      LastKeyRound(start, 1);
      LastWord(start, 0);
      LastWord(start, 1);
      var z := ClockKey();
      var t := 0;
      while t < n
        invariant 0 <= t <= n
        invariant Value() == KeyRounds(start, t + 1)
        invariant ks[..t] == Keystream(start, t + 1)[1..]
        invariant ks[t..] == old(ks[t..])
      {
        LastKeyRound(start, t + 2);
        LastWord(start, t + 2);
        z := ClockKey();
        ks[t] := z;
        t := t + 1;
      }
    }
  }
}
