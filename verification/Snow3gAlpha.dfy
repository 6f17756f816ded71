/** The maps MULalpha and DIValpha of SNOW 3G (s3g.cc) in closed form: each octet of the
    result is the sum of eight constants, one for every bit of the argument that is set. */
module Snow3gAlpha {
  import opened Octet
  import opened OctetStrings
  import opened Snow3g
  import opened Word32

  // The images of the eight powers 1, x, .. x^7.
  datatype Basis = Basis(b0: bv8, b1: bv8, b2: bv8, b3: bv8, b4: bv8, b5: bv8, b6: bv8, b7: bv8)

  function If8(bit: bool, u: bv8): bv8 { if bit then u else 0 }

  function Sum8(a: bv8, b: bv8, c: bv8, d: bv8, e: bv8, f: bv8, g: bv8, h: bv8): bv8 {
    Xor8(Xor8(Xor8(Xor8(Xor8(Xor8(Xor8(a, b), c), d), e), f), g), h)
  }

  function Plus8(x: bv8, bit: bool, b: bv8): bv8 { if bit then x ^ b else x }

  // The linear map with these images.
  function Combine(c: bv8, t: Basis): bv8 {
    Plus8(Plus8(Plus8(Plus8(Plus8(Plus8(Plus8(Plus8(0, c & 0x01 != 0, t.b0), c & 0x02 != 0, t.b1), c & 0x04 != 0, t.b2),
      c & 0x08 != 0, t.b3), c & 0x10 != 0, t.b4), c & 0x20 != 0, t.b5), c & 0x40 != 0, t.b6), c & 0x80 != 0, t.b7)
  }

  lemma PlusStep(x: bv8, bit: bool, b: bv8)
    ensures Plus8(x, bit, b) == Xor8(x, If8(bit, b))
  {
  }

  lemma CombineIsSum(c: bv8, t: Basis)
    ensures Combine(c, t) ==
            Sum8(If8(Bit8(c, 1), t.b0), If8(Bit8(c, 2), t.b1), If8(Bit8(c, 4), t.b2), If8(Bit8(c, 8), t.b3),
                 If8(Bit8(c, 0x10), t.b4), If8(Bit8(c, 0x20), t.b5), If8(Bit8(c, 0x40), t.b6), If8(Bit8(c, 0x80), t.b7))
  {
    hide Xor8, If8, Plus8;
    var x0 := Plus8(0, c & 0x01 != 0, t.b0);
    PlusStep(0, c & 0x01 != 0, t.b0);
    Self8(If8(c & 0x01 != 0, t.b0));
    var x1 := Plus8(x0, c & 0x02 != 0, t.b1);
    PlusStep(x0, c & 0x02 != 0, t.b1);
    var x2 := Plus8(x1, c & 0x04 != 0, t.b2);
    PlusStep(x1, c & 0x04 != 0, t.b2);
    var x3 := Plus8(x2, c & 0x08 != 0, t.b3);
    PlusStep(x2, c & 0x08 != 0, t.b3);
    var x4 := Plus8(x3, c & 0x10 != 0, t.b4);
    PlusStep(x3, c & 0x10 != 0, t.b4);
    var x5 := Plus8(x4, c & 0x20 != 0, t.b5);
    PlusStep(x4, c & 0x20 != 0, t.b5);
    var x6 := Plus8(x5, c & 0x40 != 0, t.b6);
    PlusStep(x5, c & 0x40 != 0, t.b6);
    var x7 := Plus8(x6, c & 0x80 != 0, t.b7);
    PlusStep(x6, c & 0x80 != 0, t.b7);
  }

  // Multiplication by x^e is the map t.
  ghost predicate IsPower(e: nat, t: Basis) {
    forall c: bv8 :: MulXPow(c, e, 0xa9) == Combine(c, t)
  }

  lemma PowerIs(c: bv8, e: nat, t: Basis)
    requires IsPower(e, t)
    ensures MulXPow(c, e, 0xa9) == Combine(c, t)
  {
    hide Combine, MulXPow;
  }

  lemma OneStep()
    ensures IsPower(1, Basis(0x02, 0x04, 0x08, 0x10, 0x20, 0x40, 0x80, 0xa9))
  {
    var t := Basis(0x02, 0x04, 0x08, 0x10, 0x20, 0x40, 0x80, 0xa9);
    forall c: bv8 ensures MulXPow(c, 1, 0xa9) == Combine(c, t) {
      PowZero(c, 0xa9);
      OneStepOf(c);
    }
  }

  lemma OneStepOf(c: bv8)
    ensures MulX(c, 0xa9) == Combine(c, Basis(0x02, 0x04, 0x08, 0x10, 0x20, 0x40, 0x80, 0xa9))
  {
  }

  // The map t after the map s.
  function After(s: Basis, t: Basis): Basis {
    Basis(Combine(s.b0, t), Combine(s.b1, t), Combine(s.b2, t), Combine(s.b3, t),
          Combine(s.b4, t), Combine(s.b5, t), Combine(s.b6, t), Combine(s.b7, t))
  }

  lemma If8Sum(p: bool, q: bool, u: bv8)
    ensures If8(p != q, u) == Xor8(If8(p, u), If8(q, u))
  {
    Self8(u);
    Self8(0);
    hide Xor8;
  }

  lemma Sum8Exchange(a: bv8, b: bv8, c: bv8, d: bv8, e: bv8, f: bv8, g: bv8, h: bv8,
                     a': bv8, b': bv8, c': bv8, d': bv8, e': bv8, f': bv8, g': bv8, h': bv8)
    ensures Sum8(Xor8(a, a'), Xor8(b, b'), Xor8(c, c'), Xor8(d, d'), Xor8(e, e'), Xor8(f, f'), Xor8(g, g'), Xor8(h, h')) ==
            Xor8(Sum8(a, b, c, d, e, f, g, h), Sum8(a', b', c', d', e', f', g', h'))
  {
    hide Xor8;
    var x2, y2 := Xor8(a, b), Xor8(a', b');
    var x3, y3 := Xor8(x2, c), Xor8(y2, c');
    var x4, y4 := Xor8(x3, d), Xor8(y3, d');
    var x5, y5 := Xor8(x4, e), Xor8(y4, e');
    var x6, y6 := Xor8(x5, f), Xor8(y5, f');
    var x7, y7 := Xor8(x6, g), Xor8(y6, g');
    Exchange8(a, a', b, b');
    Exchange8(x2, y2, c, c');
    Exchange8(x3, y3, d, d');
    Exchange8(x4, y4, e, e');
    Exchange8(x5, y5, f, f');
    Exchange8(x6, y6, g, g');
    Exchange8(x7, y7, h, h');
  }

  lemma BitSum(u: bv8, v: bv8, m: bv8, b: bv8)
    requires OneBit(m)
    ensures If8(Bit8(Xor8(u, v), m), b) == Xor8(If8(Bit8(u, m), b), If8(Bit8(v, m), b))
  {
    XorBit(u, v, m);
    If8Sum(Bit8(u, m), Bit8(v, m), b);
    hide Xor8, Bit8, If8;
  }

  lemma CombineSum(u: bv8, v: bv8, t: Basis)
    ensures Combine(Xor8(u, v), t) == Xor8(Combine(u, t), Combine(v, t))
  {
    hide Xor8, Bit8, If8, Sum8, Combine;
    CombineIsSum(u, t);
    CombineIsSum(v, t);
    CombineIsSum(Xor8(u, v), t);
    BitSum(u, v, 1, t.b0);
    BitSum(u, v, 2, t.b1);
    BitSum(u, v, 4, t.b2);
    BitSum(u, v, 8, t.b3);
    BitSum(u, v, 0x10, t.b4);
    BitSum(u, v, 0x20, t.b5);
    BitSum(u, v, 0x40, t.b6);
    BitSum(u, v, 0x80, t.b7);
    Sum8Exchange(If8(Bit8(u, 1), t.b0), If8(Bit8(u, 2), t.b1), If8(Bit8(u, 4), t.b2), If8(Bit8(u, 8), t.b3),
                 If8(Bit8(u, 0x10), t.b4), If8(Bit8(u, 0x20), t.b5), If8(Bit8(u, 0x40), t.b6), If8(Bit8(u, 0x80), t.b7),
                 If8(Bit8(v, 1), t.b0), If8(Bit8(v, 2), t.b1), If8(Bit8(v, 4), t.b2), If8(Bit8(v, 8), t.b3),
                 If8(Bit8(v, 0x10), t.b4), If8(Bit8(v, 0x20), t.b5), If8(Bit8(v, 0x40), t.b6), If8(Bit8(v, 0x80), t.b7));
  }

  lemma CombineIf(bit: bool, u: bv8, t: Basis)
    ensures Combine(If8(bit, u), t) == If8(bit, Combine(u, t))
  {
    if !bit {
      assert Combine(0, t) == 0;
    }
  }

  lemma CombineSum8(a: bv8, b: bv8, c: bv8, d: bv8, e: bv8, f: bv8, g: bv8, h: bv8, t: Basis)
    ensures Combine(Sum8(a, b, c, d, e, f, g, h), t) ==
            Sum8(Combine(a, t), Combine(b, t), Combine(c, t), Combine(d, t),
                 Combine(e, t), Combine(f, t), Combine(g, t), Combine(h, t))
  {
    hide Combine, Xor8;
    CombineSum(a, b, t);
    CombineSum(Xor8(a, b), c, t);
    CombineSum(Xor8(Xor8(a, b), c), d, t);
    CombineSum(Xor8(Xor8(Xor8(a, b), c), d), e, t);
    CombineSum(Xor8(Xor8(Xor8(Xor8(a, b), c), d), e), f, t);
    CombineSum(Xor8(Xor8(Xor8(Xor8(Xor8(a, b), c), d), e), f), g, t);
    CombineSum(Xor8(Xor8(Xor8(Xor8(Xor8(Xor8(a, b), c), d), e), f), g), h, t);
  }

  lemma CombineAfter(c: bv8, s: Basis, t: Basis)
    ensures Combine(Combine(c, s), t) == Combine(c, After(s, t))
  {
    hide Combine, If8, Sum8, Bit8;
    CombineSum8(If8(Bit8(c, 1), s.b0), If8(Bit8(c, 2), s.b1), If8(Bit8(c, 4), s.b2), If8(Bit8(c, 8), s.b3),
                If8(Bit8(c, 0x10), s.b4), If8(Bit8(c, 0x20), s.b5), If8(Bit8(c, 0x40), s.b6), If8(Bit8(c, 0x80), s.b7), t);
    CombineIf(Bit8(c, 1), s.b0, t);
    CombineIf(Bit8(c, 2), s.b1, t);
    CombineIf(Bit8(c, 4), s.b2, t);
    CombineIf(Bit8(c, 8), s.b3, t);
    CombineIf(Bit8(c, 0x10), s.b4, t);
    CombineIf(Bit8(c, 0x20), s.b5, t);
    CombineIf(Bit8(c, 0x40), s.b6, t);
    CombineIf(Bit8(c, 0x80), s.b7, t);
    CombineIsSum(c, s);
    CombineIsSum(c, After(s, t));
  }

  // Exponents add.
  lemma Compose(d: nat, s: Basis, e: nat, t: Basis)
    requires IsPower(d, s) && IsPower(e, t)
    ensures IsPower(d + e, After(s, t))
  {
    forall c: bv8 ensures MulXPow(c, d + e, 0xa9) == Combine(c, After(s, t)) {
      hide Combine, MulXPow, After, IsPower;
      MulXPowAdds(c, d, e, 0xa9);
      PowerIs(c, d, s);
      PowerIs(MulXPow(c, d, 0xa9), e, t);
      CombineAfter(c, s, t);
    }
  }

  lemma Power2()
    ensures IsPower(2, Basis(0x04, 0x08, 0x10, 0x20, 0x40, 0x80, 0xa9, 0xfb))
  {
    hide IsPower;
    OneStep();
    Compose(1, Basis(0x02, 0x04, 0x08, 0x10, 0x20, 0x40, 0x80, 0xa9),
            1, Basis(0x02, 0x04, 0x08, 0x10, 0x20, 0x40, 0x80, 0xa9));
  }

  lemma Power3()
    ensures IsPower(3, Basis(0x08, 0x10, 0x20, 0x40, 0x80, 0xa9, 0xfb, 0x5f))
  {
    hide IsPower;
    Power2();
    OneStep();
    Compose(2, Basis(0x04, 0x08, 0x10, 0x20, 0x40, 0x80, 0xa9, 0xfb),
            1, Basis(0x02, 0x04, 0x08, 0x10, 0x20, 0x40, 0x80, 0xa9));
  }

  lemma Power4()
    ensures IsPower(4, Basis(0x10, 0x20, 0x40, 0x80, 0xa9, 0xfb, 0x5f, 0xbe))
  {
    hide IsPower;
    Power2();
    Compose(2, Basis(0x04, 0x08, 0x10, 0x20, 0x40, 0x80, 0xa9, 0xfb),
            2, Basis(0x04, 0x08, 0x10, 0x20, 0x40, 0x80, 0xa9, 0xfb));
  }

  lemma Power5()
    ensures IsPower(5, Basis(0x20, 0x40, 0x80, 0xa9, 0xfb, 0x5f, 0xbe, 0xd5))
  {
    hide IsPower;
    Power4();
    OneStep();
    Compose(4, Basis(0x10, 0x20, 0x40, 0x80, 0xa9, 0xfb, 0x5f, 0xbe),
            1, Basis(0x02, 0x04, 0x08, 0x10, 0x20, 0x40, 0x80, 0xa9));
  }

  lemma Power6()
    ensures IsPower(6, Basis(0x40, 0x80, 0xa9, 0xfb, 0x5f, 0xbe, 0xd5, 0x03))
  {
    hide IsPower;
    Power5();
    OneStep();
    Compose(5, Basis(0x20, 0x40, 0x80, 0xa9, 0xfb, 0x5f, 0xbe, 0xd5),
            1, Basis(0x02, 0x04, 0x08, 0x10, 0x20, 0x40, 0x80, 0xa9));
  }

  lemma Power10()
    ensures IsPower(10, Basis(0x5f, 0xbe, 0xd5, 0x03, 0x06, 0x0c, 0x18, 0x30))
  {
    hide IsPower;
    Power5();
    Compose(5, Basis(0x20, 0x40, 0x80, 0xa9, 0xfb, 0x5f, 0xbe, 0xd5),
            5, Basis(0x20, 0x40, 0x80, 0xa9, 0xfb, 0x5f, 0xbe, 0xd5));
  }

  lemma Power14()
    ensures IsPower(14, Basis(0x06, 0x0c, 0x18, 0x30, 0x60, 0xc0, 0x29, 0x52))
  {
    hide IsPower;
    Power10();
    Power4();
    Compose(10, Basis(0x5f, 0xbe, 0xd5, 0x03, 0x06, 0x0c, 0x18, 0x30),
            4, Basis(0x10, 0x20, 0x40, 0x80, 0xa9, 0xfb, 0x5f, 0xbe));
  }

  lemma Power15()
    ensures IsPower(15, Basis(0x0c, 0x18, 0x30, 0x60, 0xc0, 0x29, 0x52, 0xa4))
  {
    hide IsPower;
    Power10();
    Power5();
    Compose(10, Basis(0x5f, 0xbe, 0xd5, 0x03, 0x06, 0x0c, 0x18, 0x30),
            5, Basis(0x20, 0x40, 0x80, 0xa9, 0xfb, 0x5f, 0xbe, 0xd5));
  }

  lemma Power16()
    ensures IsPower(16, Basis(0x18, 0x30, 0x60, 0xc0, 0x29, 0x52, 0xa4, 0xe1))
  {
    hide IsPower;
    Power15();
    OneStep();
    Compose(15, Basis(0x0c, 0x18, 0x30, 0x60, 0xc0, 0x29, 0x52, 0xa4),
            1, Basis(0x02, 0x04, 0x08, 0x10, 0x20, 0x40, 0x80, 0xa9));
  }

  lemma Power20()
    ensures IsPower(20, Basis(0x29, 0x52, 0xa4, 0xe1, 0x6b, 0xd6, 0x05, 0x0a))
  {
    hide IsPower;
    Power15();
    Power5();
    Compose(15, Basis(0x0c, 0x18, 0x30, 0x60, 0xc0, 0x29, 0x52, 0xa4),
            5, Basis(0x20, 0x40, 0x80, 0xa9, 0xfb, 0x5f, 0xbe, 0xd5));
  }

  lemma Power23()
    ensures IsPower(23, Basis(0xe1, 0x6b, 0xd6, 0x05, 0x0a, 0x14, 0x28, 0x50))
  {
    hide IsPower;
    Power20();
    Power3();
    Compose(20, Basis(0x29, 0x52, 0xa4, 0xe1, 0x6b, 0xd6, 0x05, 0x0a),
            3, Basis(0x08, 0x10, 0x20, 0x40, 0x80, 0xa9, 0xfb, 0x5f));
  }

  lemma Power30()
    ensures IsPower(30, Basis(0x50, 0xa0, 0xe9, 0x7b, 0xf6, 0x45, 0x8a, 0xbd))
  {
    hide IsPower;
    Power15();
    Compose(15, Basis(0x0c, 0x18, 0x30, 0x60, 0xc0, 0x29, 0x52, 0xa4),
            15, Basis(0x0c, 0x18, 0x30, 0x60, 0xc0, 0x29, 0x52, 0xa4));
  }

  lemma Power34()
    ensures IsPower(34, Basis(0xf6, 0x45, 0x8a, 0xbd, 0xd3, 0x0f, 0x1e, 0x3c))
  {
    hide IsPower;
    Power30();
    Power4();
    Compose(30, Basis(0x50, 0xa0, 0xe9, 0x7b, 0xf6, 0x45, 0x8a, 0xbd),
            4, Basis(0x10, 0x20, 0x40, 0x80, 0xa9, 0xfb, 0x5f, 0xbe));
  }

  lemma Power39()
    ensures IsPower(39, Basis(0x0f, 0x1e, 0x3c, 0x78, 0xf0, 0x49, 0x92, 0x8d))
  {
    hide IsPower;
    Power34();
    Power5();
    Compose(34, Basis(0xf6, 0x45, 0x8a, 0xbd, 0xd3, 0x0f, 0x1e, 0x3c),
            5, Basis(0x20, 0x40, 0x80, 0xa9, 0xfb, 0x5f, 0xbe, 0xd5));
  }

  lemma Power45()
    ensures IsPower(45, Basis(0x92, 0x8d, 0xb3, 0xcf, 0x37, 0x6e, 0xdc, 0x11))
  {
    hide IsPower;
    Power30();
    Power15();
    Compose(30, Basis(0x50, 0xa0, 0xe9, 0x7b, 0xf6, 0x45, 0x8a, 0xbd),
            15, Basis(0x0c, 0x18, 0x30, 0x60, 0xc0, 0x29, 0x52, 0xa4));
  }

  lemma Power48()
    ensures IsPower(48, Basis(0xcf, 0x37, 0x6e, 0xdc, 0x11, 0x22, 0x44, 0x88))
  {
    hide IsPower;
    Power45();
    Power3();
    Compose(45, Basis(0x92, 0x8d, 0xb3, 0xcf, 0x37, 0x6e, 0xdc, 0x11),
            3, Basis(0x08, 0x10, 0x20, 0x40, 0x80, 0xa9, 0xfb, 0x5f));
  }

  lemma Power60()
    ensures IsPower(60, Basis(0x7c, 0xf8, 0x59, 0xb2, 0xcd, 0x33, 0x66, 0xcc))
  {
    hide IsPower;
    Power30();
    Compose(30, Basis(0x50, 0xa0, 0xe9, 0x7b, 0xf6, 0x45, 0x8a, 0xbd),
            30, Basis(0x50, 0xa0, 0xe9, 0x7b, 0xf6, 0x45, 0x8a, 0xbd));
  }

  lemma Power64()
    ensures IsPower(64, Basis(0xcd, 0x33, 0x66, 0xcc, 0x31, 0x62, 0xc4, 0x21))
  {
    hide IsPower;
    Power60();
    Power4();
    Compose(60, Basis(0x7c, 0xf8, 0x59, 0xb2, 0xcd, 0x33, 0x66, 0xcc),
            4, Basis(0x10, 0x20, 0x40, 0x80, 0xa9, 0xfb, 0x5f, 0xbe));
  }

  lemma Power120()
    ensures IsPower(120, Basis(0x73, 0xe6, 0x65, 0xca, 0x3d, 0x7a, 0xf4, 0x41))
  {
    hide IsPower;
    Power60();
    Compose(60, Basis(0x7c, 0xf8, 0x59, 0xb2, 0xcd, 0x33, 0x66, 0xcc),
            60, Basis(0x7c, 0xf8, 0x59, 0xb2, 0xcd, 0x33, 0x66, 0xcc));
  }

  lemma Power180()
    ensures IsPower(180, Basis(0x1c, 0x38, 0x70, 0xe0, 0x69, 0xd2, 0x0d, 0x1a))
  {
    hide IsPower;
    Power120();
    Power60();
    Compose(120, Basis(0x73, 0xe6, 0x65, 0xca, 0x3d, 0x7a, 0xf4, 0x41),
            60, Basis(0x7c, 0xf8, 0x59, 0xb2, 0xcd, 0x33, 0x66, 0xcc));
  }

  lemma Power225()
    ensures IsPower(225, Basis(0x4b, 0x96, 0x85, 0xa3, 0xef, 0x77, 0xee, 0x75))
  {
    hide IsPower;
    Power180();
    Power45();
    Compose(180, Basis(0x1c, 0x38, 0x70, 0xe0, 0x69, 0xd2, 0x0d, 0x1a),
            45, Basis(0x92, 0x8d, 0xb3, 0xcf, 0x37, 0x6e, 0xdc, 0x11));
  }

  lemma Power239()
    ensures IsPower(239, Basis(0x13, 0x26, 0x4c, 0x98, 0x99, 0x9b, 0x9f, 0x97))
  {
    hide IsPower;
    Power225();
    Power14();
    Compose(225, Basis(0x4b, 0x96, 0x85, 0xa3, 0xef, 0x77, 0xee, 0x75),
            14, Basis(0x06, 0x0c, 0x18, 0x30, 0x60, 0xc0, 0x29, 0x52));
  }

  lemma Power240()
    ensures IsPower(240, Basis(0x26, 0x4c, 0x98, 0x99, 0x9b, 0x9f, 0x97, 0x87))
  {
    hide IsPower;
    Power180();
    Power60();
    Compose(180, Basis(0x1c, 0x38, 0x70, 0xe0, 0x69, 0xd2, 0x0d, 0x1a),
            60, Basis(0x7c, 0xf8, 0x59, 0xb2, 0xcd, 0x33, 0x66, 0xcc));
  }

  lemma Power245()
    ensures IsPower(245, Basis(0x9f, 0x97, 0x87, 0xa7, 0xe7, 0x67, 0xce, 0x35))
  {
    hide IsPower;
    Power240();
    Power5();
    Compose(240, Basis(0x26, 0x4c, 0x98, 0x99, 0x9b, 0x9f, 0x97, 0x87),
            5, Basis(0x20, 0x40, 0x80, 0xa9, 0xfb, 0x5f, 0xbe, 0xd5));
  }

  // Octet by octet, the products with x^23, x^245, x^48 and x^239.
  function AlphaTimes(c: bv8): bv32 {
    MakeU32(Combine(c, Basis(0xe1, 0x6b, 0xd6, 0x05, 0x0a, 0x14, 0x28, 0x50)),
            Combine(c, Basis(0x9f, 0x97, 0x87, 0xa7, 0xe7, 0x67, 0xce, 0x35)),
            Combine(c, Basis(0xcf, 0x37, 0x6e, 0xdc, 0x11, 0x22, 0x44, 0x88)),
            Combine(c, Basis(0x13, 0x26, 0x4c, 0x98, 0x99, 0x9b, 0x9f, 0x97)))
  }

  lemma AlphaTimesIs(c: bv8)
    ensures MulAlpha(c) == AlphaTimes(c)
  {
    hide IsPower, Combine, MulXPow, MakeU32;
    Power23();
    PowerIs(c, 23, Basis(0xe1, 0x6b, 0xd6, 0x05, 0x0a, 0x14, 0x28, 0x50));
    Power245();
    PowerIs(c, 245, Basis(0x9f, 0x97, 0x87, 0xa7, 0xe7, 0x67, 0xce, 0x35));
    Power48();
    PowerIs(c, 48, Basis(0xcf, 0x37, 0x6e, 0xdc, 0x11, 0x22, 0x44, 0x88));
    Power239();
    PowerIs(c, 239, Basis(0x13, 0x26, 0x4c, 0x98, 0x99, 0x9b, 0x9f, 0x97));
  }

  // And with x^16, x^39, x^6 and x^64.
  function AlphaOver(c: bv8): bv32 {
    MakeU32(Combine(c, Basis(0x18, 0x30, 0x60, 0xc0, 0x29, 0x52, 0xa4, 0xe1)),
            Combine(c, Basis(0x0f, 0x1e, 0x3c, 0x78, 0xf0, 0x49, 0x92, 0x8d)),
            Combine(c, Basis(0x40, 0x80, 0xa9, 0xfb, 0x5f, 0xbe, 0xd5, 0x03)),
            Combine(c, Basis(0xcd, 0x33, 0x66, 0xcc, 0x31, 0x62, 0xc4, 0x21)))
  }

  lemma AlphaOverIs(c: bv8)
    ensures DivAlpha(c) == AlphaOver(c)
  {
    hide IsPower, Combine, MulXPow, MakeU32;
    Power16();
    PowerIs(c, 16, Basis(0x18, 0x30, 0x60, 0xc0, 0x29, 0x52, 0xa4, 0xe1));
    Power39();
    PowerIs(c, 39, Basis(0x0f, 0x1e, 0x3c, 0x78, 0xf0, 0x49, 0x92, 0x8d));
    Power6();
    PowerIs(c, 6, Basis(0x40, 0x80, 0xa9, 0xfb, 0x5f, 0xbe, 0xd5, 0x03));
    Power64();
    PowerIs(c, 64, Basis(0xcd, 0x33, 0x66, 0xcc, 0x31, 0x62, 0xc4, 0x21));
  }
}
