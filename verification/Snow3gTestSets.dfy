/** Published test sets of SNOW 3G, followed through the generator round by round (s3g.cc).  A round is
    given by the four words that are new in it: the cell that is shifted in, and the registers. */
module Snow3gTestSets {
  import opened Snow3g
  import opened Snow3gAlpha
  import opened Tables
  import opened Word32

  // A state with its sixteen cells and three registers by name.
  datatype Words = Words(c0: bv32, c1: bv32, c2: bv32, c3: bv32, c4: bv32, c5: bv32, c6: bv32, c7: bv32,
                         c8: bv32, c9: bv32, c10: bv32, c11: bv32, c12: bv32, c13: bv32, c14: bv32, c15: bv32,
                         r1: bv32, r2: bv32, r3: bv32)
  {
    function Value(): (st: State)
      ensures Valid(st)
    {
      State([c0, c1, c2, c3, c4, c5, c6, c7, c8, c9, c10, c11, c12, c13, c14, c15], [r1, r2, r3])
    }

    function Next(v: bv32, a: bv32, b: bv32, c: bv32): Words {
      Words(c1, c2, c3, c4, c5, c6, c7, c8, c9, c10, c11, c12, c13, c14, c15, v, a, b, c)
    }

    // The new cell without the word f.
    function Sum(): bv32 {
      CellSum(c0, c2, c11)
    }

    function Output(): bv32 {
      Xor(Plus(c15, r1), r2)
    }

    predicate Registers(a: bv32, b: bv32, c: bv32) {
      a == Plus(r2, Xor(r3, c5)) && b == S1Word(r1) && c == S2Word(r2)
    }
  }

  lemma CellsOf(w: Words)
    ensures var s := w.Value();
            && |s.lfsr| == 16 && |s.fsm| == 3
            && s.lfsr[0] == w.c0 && s.lfsr[2] == w.c2 && s.lfsr[5] == w.c5 && s.lfsr[11] == w.c11 && s.lfsr[15] == w.c15
            && s.fsm[0] == w.r1 && s.fsm[1] == w.r2 && s.fsm[2] == w.r3
  {
  }

  // The new cell without f, as the code forms it.
  function Raw(c0: bv32, c2: bv32, c11: bv32): bv32 {
    Xor(Xor(Xor(Xor(c0 << 8, MulAlpha(Byte3(c0))), c2), c11 >> 8), DivAlpha(Byte0(c11)))
  }

  lemma NewCellIsRaw(s: seq<bv32>, f: bv32)
    requires |s| == 16
    ensures NewCell(s, f) == Xor(Raw(s[0], s[2], s[11]), f)
  {
    hide MulAlpha, DivAlpha, Byte3, Byte0, Xor;
  }

  function CellSum(c0: bv32, c2: bv32, c11: bv32): bv32 {
    Xor(Xor(Xor(Xor(c0 << 8, AlphaTimes(Byte3(c0))), c2), c11 >> 8), AlphaOver(Byte0(c11)))
  }

  lemma RawIsSum(c0: bv32, c2: bv32, c11: bv32)
    ensures Raw(c0, c2, c11) == CellSum(c0, c2, c11)
  {
    hide MulAlpha, DivAlpha, AlphaTimes, AlphaOver, Byte3, Byte0, Xor;
    AlphaTimesIs(Byte3(c0));
    AlphaOverIs(Byte0(c11));
  }

  lemma NewCellIs(w: Words, f: bv32)
    ensures NewCell(w.Value().lfsr, f) == Xor(w.Sum(), f)
  {
    hide *;
    CellsOf(w);
    NewCellIsRaw(w.Value().lfsr, f);
    RawIsSum(w.c0, w.c2, w.c11);
    SumMeans(w);
  }

  lemma SumMeans(w: Words)
    ensures w.Sum() == CellSum(w.c0, w.c2, w.c11)
  {
    hide CellSum;
  }

  lemma OutputIs(w: Words)
    ensures FsmOutput(w.Value()) == w.Output() && KeyWord(w.Value()) == Xor(w.Output(), w.c0)
  {
    hide Xor, Plus, Words.Value;
    CellsOf(w);
  }

  lemma RegistersAre(w: Words, a: bv32, b: bv32, c: bv32)
    requires w.Registers(a, b, c)
    ensures NextFsm(w.Value()) == [a, b, c]
  {
    hide S1Word, S2Word, Xor, Plus, Words.Value;
    CellsOf(w);
  }

  lemma Shifted(w: Words, v: bv32, a: bv32, b: bv32, c: bv32)
    ensures State(w.Value().lfsr[1..] + [v], [a, b, c]) == w.Next(v, a, b, c).Value()
  {
    ShiftedCells(w.c0, w.c1, w.c2, w.c3, w.c4, w.c5, w.c6, w.c7, w.c8, w.c9, w.c10, w.c11, w.c12, w.c13, w.c14, w.c15, v);
  }

  lemma ShiftedCells<T>(c0: T, c1: T, c2: T, c3: T, c4: T, c5: T, c6: T, c7: T, c8: T, c9: T, c10: T, c11: T, c12: T,
                        c13: T, c14: T, c15: T, v: T)
    ensures [c0, c1, c2, c3, c4, c5, c6, c7, c8, c9, c10, c11, c12, c13, c14, c15][1..] + [v] ==
            [c1, c2, c3, c4, c5, c6, c7, c8, c9, c10, c11, c12, c13, c14, c15, v]
  {
    var s, t := [c0, c1, c2, c3, c4, c5, c6, c7, c8, c9, c10, c11, c12, c13, c14, c15],
                [c1, c2, c3, c4, c5, c6, c7, c8, c9, c10, c11, c12, c13, c14, c15, v];
    forall i | 0 <= i < 15 ensures s[i + 1] == t[i] {
    }
    assert s[1..] == t[..15];
  }

  // One round of initialization behind n of them.
  lemma Init(k: seq<bv32>, iv: seq<bv32>, n: nat, w: Words, v: bv32, a: bv32, b: bv32, c: bv32) returns (w': Words)
    requires |k| == 4 && |iv| == 4 && InitRounds(Load(k, iv), n) == w.Value()
    requires v == Xor(w.Sum(), w.Output()) && w.Registers(a, b, c)
    ensures w' == w.Next(v, a, b, c) && InitRounds(Load(k, iv), n + 1) == w'.Value()
  {
    hide Load, InitRounds, Xor, NewCell, FsmOutput, NextFsm, Words.Value, Words.Sum, Words.Output, Words.Registers, Words.Next;
    w' := w.Next(v, a, b, c);
    LastInitRound(Load(k, iv), n + 1);
    NewCellIs(w, FsmOutput(w.Value()));
    OutputIs(w);
    RegistersAre(w, a, b, c);
    Shifted(w, v, a, b, c);
  }

  // One key-stream clock, with the word z.
  lemma Clock(k: seq<bv32>, iv: seq<bv32>, n: nat, w: Words, ks: seq<bv32>, z: bv32, v: bv32, a: bv32, b: bv32, c: bv32)
    returns (w': Words)
    requires |k| == 4 && |iv| == 4 && KeyRounds(Initialized(k, iv), n) == w.Value() && Keystream(Initialized(k, iv), n) == ks
    requires z == Xor(w.Output(), w.c0) && v == w.Sum() && w.Registers(a, b, c)
    ensures w' == w.Next(v, a, b, c)
    ensures KeyRounds(Initialized(k, iv), n + 1) == w'.Value() && Keystream(Initialized(k, iv), n + 1) == ks + [z]
  {
    hide Initialized, KeyRounds, Keystream, KeyWord, Xor, NewCell, FsmOutput, NextFsm, Words.Value, Words.Sum, Words.Output, Words.Registers, Words.Next;
    w' := w.Next(v, a, b, c);
    LastKeyRound(Initialized(k, iv), n + 1);
    LastWord(Initialized(k, iv), n + 1);
    NewCellIs(w, 0);
    Unit(w.Sum());
    OutputIs(w);
    RegistersAre(w, a, b, c);
    Shifted(w, v, a, b, c);
  }

  // ----- UEA2 and UIA2 specification, document 3: test set 1 of the generator -----

  const AK: seq<bv32> := [0x2bd6459f, 0x82c5b300, 0x952c4910, 0x4881ff48]
  const AIV: seq<bv32> := [0xea024714, 0xad5c4d84, 0xdf1f9b25, 0x1c0bf45f]

  // The cells, in the order in which they enter the register.
  const A0 := 0xd429ba60 as bv32
  const A1 := 0x7d3a4cff as bv32
  const A2 := 0x6ad3b6ef as bv32
  const A3 := 0xb77e00b7 as bv32
  const A4 := 0x2bd6459f as bv32
  const A5 := 0x82c5b300 as bv32
  const A6 := 0x952c4910 as bv32
  const A7 := 0x4881ff48 as bv32
  const A8 := 0xd429ba60 as bv32
  const A9 := 0x6131b8a0 as bv32
  const A10 := 0xb5cc2dca as bv32
  const A11 := 0xb77e00b7 as bv32
  const A12 := 0x868a081b as bv32
  const A13 := 0x82c5b300 as bv32
  const A14 := 0x952c4910 as bv32
  const A15 := 0xa283b85c as bv32
  const A16 := 0x97df2884 as bv32
  const A17 := 0x311ba301 as bv32
  const A18 := 0xa69fcbcb as bv32
  const A19 := 0xe76f0ada as bv32
  const A20 := 0xa52dcd12 as bv32
  const A21 := 0x1a349a62 as bv32
  const A22 := 0x2a2a44db as bv32
  const A23 := 0xf8927896 as bv32
  const A24 := 0xcd328518 as bv32
  const A25 := 0x73198320 as bv32
  const A26 := 0xb26846ac as bv32
  const A27 := 0x2b05a333 as bv32
  const A28 := 0x00c3324a as bv32
  const A29 := 0x810ae79f as bv32
  const A30 := 0xbbfc5d8e as bv32
  const A31 := 0xd1c68af2 as bv32
  const A32 := 0x8f1215a6 as bv32
  const A33 := 0xe003a052 as bv32
  const A34 := 0x9241c929 as bv32
  const A35 := 0x68d7bf8c as bv32
  const A36 := 0x16bf4c2a as bv32
  const A37 := 0x8def9d70 as bv32
  const A38 := 0x32381704 as bv32
  const A39 := 0x11dd346a as bv32
  const A40 := 0xe18b81ea as bv32
  const A41 := 0x77ebd4fe as bv32
  const A42 := 0x57ed9505 as bv32
  const A43 := 0x0c33c0ef as bv32
  const A44 := 0x1a037b59 as bv32
  const A45 := 0x97591e82 as bv32
  const A46 := 0xa91ccb44 as bv32
  const A47 := 0x7b48e04f as bv32
  const A48 := 0x1646644c as bv32
  const A49 := 0x52e43190 as bv32
  const A50 := 0xb737110e as bv32

  lemma AInit0() returns (w: Words)
    ensures InitRounds(Load(AK, AIV), 0) == w.Value()
    ensures w == Words(A0, A1, A2, A3, A4, A5, A6, A7, A8, A9, A10, A11, A12, A13, A14, A15,
                 0x00000000, 0x00000000, 0x00000000)
  {
    hide InitRounds;
    w := Words(A0, A1, A2, A3, A4, A5, A6, A7, A8, A9, A10, A11, A12, A13, A14, A15,
                 0x00000000, 0x00000000, 0x00000000);
    LastInitRound(Load(AK, AIV), 0);
  }

  lemma AOctets0()
    ensures S(0x00) == 0x63
    ensures SQ(0x00) == 0x25
    ensures AlphaTimes(0xd4) == 0xa49bb3dd && AlphaOver(0xb7) == 0xd2198bea
  {
  }

  lemma AOctets1()
    ensures S(0x00) == 0x63 && S(0x82) == 0x13
    ensures S(0xb3) == 0x6d && S(0xc5) == 0xa6 && SQ(0x63) == 0x93
    ensures AlphaTimes(0x7d) == 0x04f10a5a && AlphaOver(0x1b) == 0xc1996403
  {
  }

  lemma AInit2() returns (w: Words)
    ensures InitRounds(Load(AK, AIV), 2) == w.Value()
    ensures w == Words(A2, A3, A4, A5, A6, A7, A8, A9, A10, A11, A12, A13, A14, A15, A16, A17,
                 0x136ccf98, 0x486c5bc4, 0x93939393)
  {
    hide S, SQ, AlphaTimes, AlphaOver, Load, InitRounds, KeyRounds, Keystream, Initialized, Words.Value;
    w := AInit0();
    AOctets0();
    w := Init(AK, AIV, 0, w, A16, 0x82c5b300, 0x63636363, 0x25252525);
    AOctets1();
    w := Init(AK, AIV, 1, w, A17, 0x136ccf98, 0x486c5bc4, 0x93939393);
  }

  lemma AOctets2()
    ensures S(0x13) == 0x7d && S(0x6c) == 0x50 && S(0x98) == 0x46 && S(0xcf) == 0x8a
    ensures SQ(0x48) == 0xc2 && SQ(0x5b) == 0x6d && SQ(0x6c) == 0x37 && SQ(0xc4) == 0x54
    ensures AlphaTimes(0x6a) == 0x52998dba && AlphaOver(0x00) == 0x00000000
  {
  }

  lemma AOctets3()
    ensures S(0x23) == 0x26 && S(0x7e) == 0xf3 && S(0x9f) == 0xdb && S(0xc8) == 0xe8
    ensures SQ(0x24) == 0x40 && SQ(0xc4) == 0x54 && SQ(0xea) == 0xc0 && SQ(0xeb) == 0x9b
    ensures AlphaTimes(0xb7) == 0x123a2dec && AlphaOver(0x10) == 0x29f05f31
  {
  }

  lemma AInit4() returns (w: Words)
    ensures InitRounds(Load(AK, AIV), 4) == w.Value()
    ensures w == Words(A4, A5, A6, A7, A8, A9, A10, A11, A12, A13, A14, A15, A16, A17, A18, A19,
                 0x8a3d73ae, 0x21a4385b, 0xe662ec27)
  {
    hide S, SQ, AlphaTimes, AlphaOver, Load, InitRounds, KeyRounds, Keystream, Initialized, Words.Value;
    w := AInit2();
    AOctets2();
    w := Init(AK, AIV, 2, w, A18, 0x237ec89f, 0xeaebc424, 0x4b7815ea);
    AOctets3();
    w := Init(AK, AIV, 3, w, A19, 0x8a3d73ae, 0x21a4385b, 0xe662ec27);
  }

  lemma AOctets4()
    ensures S(0x3d) == 0x27 && S(0x73) == 0x8f && S(0x8a) == 0x7e && S(0xae) == 0xe4
    ensures SQ(0x21) == 0xe9 && SQ(0x38) == 0x07 && SQ(0x5b) == 0x6d && SQ(0xa4) == 0xb7
    ensures AlphaTimes(0x2b) == 0x9bc80636 && AlphaOver(0x5c) == 0x2d26d85f
  {
  }

  lemma AOctets5()
    ensures S(0x8c) == 0x64 && S(0xa8) == 0xc2 && S(0xe2) == 0x98 && S(0xf7) == 0x68
    ensures SQ(0x00) == 0x25 && SQ(0x63) == 0x93 && SQ(0xa7) == 0x8c && SQ(0xf6) == 0x95
    ensures AlphaTimes(0x82) == 0x3ba2bfb1 && AlphaOver(0x84) == 0x81b1aa47
  {
  }

  lemma AOctets6()
    ensures S(0x0d) == 0xd7 && S(0x47) == 0xa0 && S(0x6d) == 0x3c && S(0x9b) == 0x14
    ensures SQ(0x20) == 0xd8 && SQ(0x2a) == 0xac && SQ(0x2d) == 0x15 && SQ(0x71) == 0x0f
    ensures AlphaTimes(0x95) == 0x6dca3851 && AlphaOver(0x01) == 0x180f40cd
  {
  }

  lemma AOctets7()
    ensures S(0x32) == 0x23 && S(0x61) == 0xef && S(0xae) == 0xe4 && S(0xd4) == 0x48
    ensures SQ(0x11) == 0x8e && SQ(0x15) == 0x5d && SQ(0x1b) == 0x5f && SQ(0x40) == 0xca
    ensures AlphaTimes(0x48) == 0x2d699807 && AlphaOver(0xcb) == 0xad76edd7
  {
  }

  lemma AInit8() returns (w: Words)
    ensures InitRounds(Load(AK, AIV), 8) == w.Value()
    ensures w == Words(A8, A9, A10, A11, A12, A13, A14, A15, A16, A17, A18, A19, A20, A21, A22, A23,
                 0x0347fa8c, 0x926b950c, 0x045a1f07)
  {
    hide S, SQ, AlphaTimes, AlphaOver, Load, InitRounds, KeyRounds, Keystream, Initialized, Words.Value;
    w := AInit4();
    AOctets4();
    w := Init(AK, AIV, 4, w, A20, 0xa8f78ce2, 0x63a7f600, 0xbc3f3a8d);
    AOctets5();
    w := Init(AK, AIV, 5, w, A21, 0x6d9b0d47, 0x20712a2d, 0x391d0883);
    AOctets6();
    w := Init(AK, AIV, 6, w, A22, 0xaed43261, 0x401b1511, 0x45a6ed60);
    AOctets7();
    w := Init(AK, AIV, 7, w, A23, 0x0347fa8c, 0x926b950c, 0x045a1f07);
  }

  lemma AOctets8()
    ensures S(0x03) == 0x7b && S(0x47) == 0xa0 && S(0x8c) == 0x64 && S(0xfa) == 0x2d
    ensures SQ(0x0c) == 0x7d && SQ(0x6b) == 0x22 && SQ(0x92) == 0x0c && SQ(0x95) == 0xb8
    ensures AlphaTimes(0xd4) == 0xa49bb3dd && AlphaOver(0xda) == 0x9c89f22b
  {
  }

  lemma AOctets9()
    ensures S(0x0b) == 0x2b && S(0x13) == 0x7d && S(0x19) == 0xd4 && S(0x41) == 0x83
    ensures SQ(0x64) == 0xfe && SQ(0x9f) == 0x00 && SQ(0xbe) == 0x2d && SQ(0xd7) == 0x16
    ensures AlphaTimes(0x61) == 0xdd36a917 && AlphaOver(0x12) == 0x19eedf02
  {
  }

  lemma AOctets10()
    ensures S(0x05) == 0x6b && S(0x59) == 0xcb && S(0x68) == 0x45 && S(0xc9) == 0xdd
    ensures SQ(0x9b) == 0x66 && SQ(0x9c) == 0x81 && SQ(0xc9) == 0xc8 && SQ(0xcf) == 0x9c
    ensures AlphaTimes(0xb5) == 0x79ad1aca && AlphaOver(0x62) == 0xc6c5eb95
  {
  }

  lemma AOctets11()
    ensures S(0x39) == 0x12 && S(0x43) == 0x1a && S(0x65) == 0x4d && S(0xd4) == 0x48
    ensures SQ(0x08) == 0xa4 && SQ(0x56) == 0x41 && SQ(0x92) == 0x0c && SQ(0xf4) == 0x1e
    ensures AlphaTimes(0xb7) == 0x123a2dec && AlphaOver(0xdb) == 0x8486b2e6
  {
  }

  lemma AInit12() returns (w: Words)
    ensures InitRounds(Load(AK, AIV), 12) == w.Value()
    ensures w == Words(A12, A13, A14, A15, A16, A17, A18, A19, A20, A21, A22, A23, A24, A25, A26, A27,
                 0x59bf03f6, 0xeea1f1b3, 0x2c574ec2)
  {
    hide S, SQ, AlphaTimes, AlphaOver, Load, InitRounds, KeyRounds, Keystream, Initialized, Words.Value;
    w := AInit8();
    AOctets8();
    w := Init(AK, AIV, 8, w, A24, 0x190b4113, 0xd79fbe64, 0x05950e75);
    AOctets9();
    w := Init(AK, AIV, 9, w, A25, 0x685905c9, 0x9ccfc99b, 0x6ae9b2f4);
    AOctets10();
    w := Init(AK, AIV, 10, w, A26, 0x6539d443, 0x56f40892, 0x9515d3e0);
    AOctets11();
    w := Init(AK, AIV, 11, w, A27, 0x59bf03f6, 0xeea1f1b3, 0x2c574ec2);
  }

  lemma AOctets12()
    ensures S(0x03) == 0x7b && S(0x59) == 0xcb && S(0xbf) == 0x08 && S(0xf6) == 0x42
    ensures SQ(0xa1) == 0xce && SQ(0xb3) == 0x2c && SQ(0xee) == 0x10 && SQ(0xf1) == 0xe1
    ensures AlphaTimes(0x86) == 0xed25d1fd && AlphaOver(0x96) == 0x985f7545
  {
  }

  lemma AOctets13()
    ensures S(0x0b) == 0x2b && S(0x76) == 0x38 && S(0xdf) == 0x9e && S(0xee) == 0x28
    ensures SQ(0x38) == 0x07 && SQ(0x67) == 0xcf && SQ(0x6f) == 0xfa && SQ(0xca) == 0x9d
    ensures AlphaTimes(0x82) == 0x3ba2bfb1 && AlphaOver(0x18) == 0xe988a4fd
  {
  }

  lemma AOctets14()
    ensures S(0x06) == 0x6f && S(0x16) == 0x47 && S(0xce) == 0x8b && S(0xd1) == 0x3e
    ensures SQ(0x4c) == 0x9f && SQ(0x8b) == 0x62 && SQ(0xa8) == 0x79 && SQ(0xca) == 0x9d
    ensures AlphaTimes(0x95) == 0x6dca3851 && AlphaOver(0x20) == 0x5249be62
  {
  }

  lemma AOctets15()
    ensures S(0x16) == 0x47 && S(0x34) == 0x18 && S(0x4d) == 0xe3 && S(0xbb) == 0xea
    ensures SQ(0x28) == 0x57 && SQ(0xa2) == 0xf6 && SQ(0xc5) == 0x0b && SQ(0xd2) == 0xf9
    ensures AlphaTimes(0xa2) == 0x2fc59d2a && AlphaOver(0xac) == 0x1380efe9
  {
  }

  lemma AInit16() returns (w: Words)
    ensures InitRounds(Load(AK, AIV), 16) == w.Value()
    ensures w == Words(A16, A17, A18, A19, A20, A21, A22, A23, A24, A25, A26, A27, A28, A29, A30, A31,
                 0x8d039e64, 0xfdb15842, 0x318ecb27)
  {
    hide S, SQ, AlphaTimes, AlphaOver, Load, InitRounds, KeyRounds, Keystream, Initialized, Words.Value;
    w := AInit12();
    AOctets12();
    w := Init(AK, AIV, 12, w, A28, 0x0beedf76, 0x386f67ca, 0x7b08accc);
    AOctets13();
    w := Init(AK, AIV, 13, w, A29, 0x1606ced1, 0xa88b4cca, 0xf5c60a96);
    AOctets14();
    w := Init(AK, AIV, 14, w, A30, 0xbb344d16, 0x28a2c5d2, 0xc14d1580);
    AOctets15();
    w := Init(AK, AIV, 15, w, A31, 0x8d039e64, 0xfdb15842, 0x318ecb27);
  }

  lemma AOctets16()
    ensures S(0x03) == 0x7b && S(0x64) == 0x43 && S(0x8d) == 0x5d && S(0x9e) == 0x0b
    ensures SQ(0x42) == 0x46 && SQ(0x58) == 0xba && SQ(0xb1) == 0x75 && SQ(0xfd) == 0xd0
    ensures AlphaTimes(0x97) == 0x065d0f77 && AlphaOver(0x33) == 0x53a821ad
  {
  }

  lemma AOctets17()
    ensures S(0x29) == 0xa5 && S(0x6b) == 0x7f && S(0x87) == 0x17 && S(0xa9) == 0xd3
    ensures SQ(0x0f) == 0xdb && SQ(0x59) == 0xc6 && SQ(0x85) == 0x7e && SQ(0xbd) == 0x58
    ensures AlphaTimes(0x31) == 0xff1ffc11 && AlphaOver(0x4a) == 0x54f4ae3b
  {
  }

  lemma AOctets18()
    ensures S(0x12) == 0xc9 && S(0x7e) == 0xf3 && S(0xd6) == 0xf6 && S(0xf5) == 0xe6
    ensures SQ(0x8e) == 0xf8 && SQ(0x9a) == 0x97 && SQ(0xc4) == 0x54 && SQ(0xce) == 0x87
    ensures AlphaTimes(0xa6) == 0xf942f366 && AlphaOver(0x9f) == 0x4028ce44
  {
  }

  lemma AOctets19()
    ensures S(0x23) == 0x26 && S(0x3c) == 0xeb && S(0x53) == 0xed && S(0xb3) == 0x6d
    ensures SQ(0x92) == 0x0c && SQ(0x9d) == 0x32 && SQ(0xd6) == 0x59 && SQ(0xf3) == 0xc9
    ensures AlphaTimes(0xe7) == 0x301378ea && AlphaOver(0x8e) == 0x71d7d1b8
  {
  }

  lemma AInit20() returns (w: Words)
    ensures InitRounds(Load(AK, AIV), 20) == w.Value()
    ensures w == Words(A20, A21, A22, A23, A24, A25, A26, A27, A28, A29, A30, A31, A32, A33, A34, A35,
                 0x5dba168a, 0xaaeab6bb, 0xde84be4a)
  {
    hide S, SQ, AlphaTimes, AlphaOver, Load, InitRounds, KeyRounds, Keystream, Initialized, Words.Value;
    w := AInit16();
    AOctets16();
    w := Init(AK, AIV, 16, w, A32, 0x296ba987, 0x0f5985bd, 0xcc0f148e);
    AOctets17();
    w := Init(AK, AIV, 17, w, A33, 0xf57ed612, 0xc4ce8e9a, 0x8fc75c2f);
    AOctets18();
    w := Init(AK, AIV, 18, w, A34, 0x3c23b353, 0x92f3d69d, 0x07f4baf5);
    AOctets19();
    w := Init(AK, AIV, 19, w, A35, 0x5dba168a, 0xaaeab6bb, 0xde84be4a);
  }

  lemma AOctets20()
    ensures S(0x16) == 0x47 && S(0x5d) == 0x4c && S(0x8a) == 0x7e && S(0xba) == 0xf4
    ensures SQ(0xaa) == 0xa7 && SQ(0xb6) == 0x27 && SQ(0xbb) == 0xa1 && SQ(0xea) == 0xc0
    ensures AlphaTimes(0xa5) == 0x734a0b53 && AlphaOver(0xf2) == 0x0eb8b785
  {
  }

  lemma AOctets21()
    ensures S(0x25) == 0x3f && S(0x58) == 0x6a && S(0x87) == 0x17 && S(0xf4) == 0xbf
    ensures SQ(0x1e) == 0x65 && SQ(0x8d) == 0x0a && SQ(0xa9) == 0xd6 && SQ(0xbb) == 0xa1
    ensures AlphaTimes(0x1a) == 0x64d7fa27 && AlphaOver(0xa6) == 0xe3e69416
  {
  }

  lemma AOctets22()
    ensures S(0x16) == 0x47 && S(0xa1) == 0x32 && S(0xa5) == 0x06 && S(0xe3) == 0x11
    ensures SQ(0x09) == 0xee && SQ(0x10) == 0xe4 && SQ(0x3d) == 0xaa && SQ(0xd9) == 0x91
    ensures AlphaTimes(0x2a) == 0x7a57c925 && AlphaOver(0x52) == 0xbd7c0ac6
  {
  }

  lemma AOctets23()
    ensures S(0x04) == 0xf2 && S(0x71) == 0xa3 && S(0x88) == 0xc4 && S(0xf7) == 0x68
    ensures SQ(0x0c) == 0x7d && SQ(0x5d) == 0x71 && SQ(0x89) == 0x8a && SQ(0xba) == 0x7c
    ensures AlphaTimes(0xf8) == 0x63dc2392 && AlphaOver(0x29) == 0x8a3e0563
  {
  }

  lemma AInit24() returns (w: Words)
    ensures InitRounds(Load(AK, AIV), 24) == w.Value()
    ensures w == Words(A24, A25, A26, A27, A28, A29, A30, A31, A32, A33, A34, A35, A36, A37, A38, A39,
                 0xa797569d, 0xd3f763ba, 0x038593ef)
  {
    hide S, SQ, AlphaTimes, AlphaOver, Load, InitRounds, KeyRounds, Keystream, Initialized, Words.Value;
    w := AInit20();
    AOctets20();
    w := Init(AK, AIV, 20, w, A36, 0x5887f425, 0xa91ebb8d, 0x4aef6125);
    AOctets21();
    w := Init(AK, AIV, 21, w, A37, 0xa1a5e316, 0x3d1009d9, 0x1f72582d);
    AOctets22();
    w := Init(AK, AIV, 22, w, A38, 0x718804f7, 0xba0c5d89, 0xed49cb5e);
    AOctets23();
    w := Init(AK, AIV, 23, w, A39, 0xa797569d, 0xd3f763ba, 0x038593ef);
  }

  lemma AOctets24()
    ensures S(0x56) == 0xb1 && S(0x97) == 0x88 && S(0x9d) == 0x5e && S(0xa7) == 0x5c
    ensures SQ(0x63) == 0x93 && SQ(0xba) == 0x7c && SQ(0xd3) == 0xda && SQ(0xf7) == 0xa3
    ensures AlphaTimes(0xcd) == 0x4a44b1cf && AlphaOver(0x8c) == 0x41c9518b
  {
  }

  lemma AOctets25()
    ensures S(0x2a) == 0xe5 && S(0x56) == 0xb1 && S(0x86) == 0x44 && S(0xd8) == 0x61
    ensures SQ(0x00) == 0x25 && SQ(0x63) == 0x93 && SQ(0xa0) == 0x06 && SQ(0xf8) == 0x90
    ensures AlphaTimes(0x73) == 0xbc468fa8 && AlphaOver(0x2a) == 0xa22fc59d
  {
  }

  lemma AOctets26()
    ensures S(0x31) == 0xc7 && S(0x35) == 0x96 && S(0x3c) == 0xeb && S(0x73) == 0x8f
    ensures SQ(0x5a) == 0xbb && SQ(0x68) == 0x43 && SQ(0x87) == 0xfc && SQ(0xc4) == 0x54
    ensures AlphaTimes(0xb2) == 0x25228cb3 && AlphaOver(0x70) == 0xdf2b3497
  {
  }

  lemma AOctets27()
    ensures S(0x18) == 0xad && S(0x8a) == 0x7e && S(0x94) == 0x22
    ensures SQ(0x24) == 0x40 && SQ(0x2a) == 0xac && SQ(0x91) == 0x3c && SQ(0xaa) == 0xa7
    ensures AlphaTimes(0x2b) == 0x9bc80636 && AlphaOver(0x04) == 0x603ca966
  {
  }

  lemma AInit28() returns (w: Words)
    ensures InitRounds(Load(AK, AIV), 28) == w.Value()
    ensures w == Words(A28, A29, A30, A31, A32, A33, A34, A35, A36, A37, A38, A39, A40, A41, A42, A43,
                 0x1c5cf3ae, 0x4cf11527, 0x02cf77cd)
  {
    hide S, SQ, AlphaTimes, AlphaOver, Load, InitRounds, KeyRounds, Keystream, Initialized, Words.Value;
    w := AInit24();
    AOctets24();
    w := Init(AK, AIV, 24, w, A40, 0x5686d82a, 0x6300f8a0, 0x69c7655d);
    AOctets25();
    w := Init(AK, AIV, 25, w, A41, 0x353c3173, 0x68c45a87, 0xf000b363);
    AOctets26();
    w := Init(AK, AIV, 26, w, A42, 0x8a8a9418, 0x9124aa2a, 0x042a5c22);
    AOctets27();
    w := Init(AK, AIV, 27, w, A43, 0x1c5cf3ae, 0x4cf11527, 0x02cf77cd);
  }

  lemma AOctets28()
    ensures S(0x1c) == 0x9c && S(0x5c) == 0x4a && S(0xae) == 0xe4 && S(0xf3) == 0x0d
    ensures SQ(0x15) == 0x5d && SQ(0x27) == 0x28 && SQ(0x4c) == 0x9f && SQ(0xf1) == 0xe1
    ensures AlphaTimes(0x00) == 0x00000000 && AlphaOver(0x6a) == 0x06bd1059
  {
  }

  lemma AOctets29()
    ensures S(0x2f) == 0x15 && S(0xbd) == 0x7a && S(0xc6) == 0xb4 && S(0xec) == 0xce
    ensures SQ(0x12) == 0x48 && SQ(0x53) == 0x42 && SQ(0xbc) == 0x05 && SQ(0xc2) == 0xaf
    ensures AlphaTimes(0x81) == 0xb1aa4784 && AlphaOver(0xea) == 0xe7301378
  {
  }

  lemma AOctets30()
    ensures S(0x1a) == 0xa2 && S(0x4a) == 0xd6 && S(0x55) == 0xfc && S(0xf2) == 0x89
    ensures SQ(0x55) == 0xb4 && SQ(0x59) == 0xc6 && SQ(0xa8) == 0x79 && SQ(0xb1) == 0x75
    ensures AlphaTimes(0xbb) == 0xc11a9f38 && AlphaOver(0xfe) == 0xaefce52f
  {
  }

  lemma AOctets31()
    ensures S(0x1c) == 0x9c && S(0x53) == 0xed && S(0xd0) == 0x70 && S(0xf8) == 0x41
    ensures SQ(0x17) == 0x78 && SQ(0x1f) == 0xe2 && SQ(0x36) == 0x47 && SQ(0x3f) == 0xd4
    ensures AlphaTimes(0xd1) == 0x93831282 && AlphaOver(0x05) == 0x7833e9ab
  {
  }

  lemma AInit32() returns (w: Words)
    ensures InitRounds(Load(AK, AIV), 32) == w.Value()
    ensures w == Words(A32, A33, A34, A35, A36, A37, A38, A39, A40, A41, A42, A43, A44, A45, A46, A47,
                 0x61da9249, 0x427df38c, 0x0fb6b101)
  {
    hide S, SQ, AlphaTimes, AlphaOver, Load, InitRounds, KeyRounds, Keystream, Initialized, Words.Value;
    w := AInit28();
    AOctets28();
    w := Init(AK, AIV, 28, w, A44, 0x2fbdecc6, 0x53c2bc12, 0x931647c9);
    AOctets29();
    w := Init(AK, AIV, 29, w, A45, 0x551a4af2, 0x59b1a855, 0xf6bc9872);
    AOctets30();
    w := Init(AK, AIV, 30, w, A46, 0xf81cd053, 0x171f3f36, 0x5c041f39);
    AOctets31();
    w := Init(AK, AIV, 31, w, A47, 0x61da9249, 0x427df38c, 0x0fb6b101);
  }

  lemma AClock0() returns (w: Words)
    ensures KeyRounds(Initialized(AK, AIV), 0) == w.Value() && Keystream(Initialized(AK, AIV), 0) == []
    ensures w == Words(A32, A33, A34, A35, A36, A37, A38, A39, A40, A41, A42, A43, A44, A45, A46, A47,
                 0x61da9249, 0x427df38c, 0x0fb6b101)
  {
    hide S, SQ, AlphaTimes, AlphaOver, Load, InitRounds, KeyRounds, Keystream, Initialized, Words.Value;
    w := AInit32();
    InitializedMeans(AK, AIV);
    LastKeyRound(Initialized(AK, AIV), 0);
    LastWord(Initialized(AK, AIV), 0);
  }

  lemma AOctets32()
    ensures S(0x49) == 0x3b && S(0x61) == 0xef && S(0x92) == 0x4f && S(0xda) == 0x57
    ensures SQ(0x42) == 0x46 && SQ(0x7d) == 0xff && SQ(0x8c) == 0xf5 && SQ(0xf3) == 0xc9
    ensures AlphaTimes(0x8f) == 0x091dc276 && AlphaOver(0xef) == 0x9f03fad3
  {
  }

  lemma AClock1() returns (w: Words)
    ensures KeyRounds(Initialized(AK, AIV), 1) == w.Value()
    ensures Keystream(Initialized(AK, AIV), 1) == [0x104c94b2]
    ensures w == Words(A33, A34, A35, A36, A37, A38, A39, A40, A41, A42, A43, A44, A45, A46, A47, A48,
                 0xc4d71ffd, 0x90f0b31f, 0xcc612008)
  {
    hide S, SQ, AlphaTimes, AlphaOver, Load, InitRounds, KeyRounds, Keystream, Initialized, Words.Value;
    w := AClock0();
    AOctets32();
    w := Clock(AK, AIV, 0, w, [], 0x104c94b2, A48,
               0xc4d71ffd, 0x90f0b31f, 0xcc612008);
  }

  lemma AOctets33()
    ensures S(0x1f) == 0xc0 && S(0xc4) == 0x1c && S(0xd7) == 0x0e && S(0xfd) == 0x54
    ensures SQ(0x1f) == 0xe2 && SQ(0x90) == 0x03 && SQ(0xb3) == 0x2c && SQ(0xf0) == 0x56
    ensures AlphaTimes(0xe0) == 0x6c9cee93 && AlphaOver(0x59) == 0x551531f4
  {
  }

  lemma AClock2() returns (w: Words)
    ensures KeyRounds(Initialized(AK, AIV), 2) == w.Value()
    ensures Keystream(Initialized(AK, AIV), 2) == [0x104c94b2, 0xabee9704]
    ensures w == Words(A34, A35, A36, A37, A38, A39, A40, A41, A42, A43, A44, A45, A46, A47, A48, A49,
                 0x8f49ea2b, 0x0aacc1e1, 0x3367438c)
  {
    hide S, SQ, AlphaTimes, AlphaOver, Load, InitRounds, KeyRounds, Keystream, Initialized, Words.Value;
    w := AClock1();
    AOctets33();
    w := Clock(AK, AIV, 1, w, [0x104c94b2], 0xabee9704, A49,
               0x8f49ea2b, 0x0aacc1e1, 0x3367438c);
  }

  lemma AOctets34()
    ensures S(0x2b) == 0xf1 && S(0x49) == 0x3b && S(0x8f) == 0x73 && S(0xea) == 0x87
    ensures SQ(0x0a) == 0x6e && SQ(0xac) == 0x8b && SQ(0xc1) == 0xc7 && SQ(0xe1) == 0x99
    ensures AlphaTimes(0x92) == 0x3145ae28 && AlphaOver(0x82) == 0xd1938312
  {
  }

  lemma AClock3() returns (w: Words)
    ensures KeyRounds(Initialized(AK, AIV), 3) == w.Value()
    ensures Keystream(Initialized(AK, AIV), 3) == [0x104c94b2, 0xabee9704, 0x7ac31373]
    ensures w == Words(A35, A36, A37, A38, A39, A40, A41, A42, A43, A44, A45, A46, A47, A48, A49, A50,
                 0x2d6739c7, 0x5295da23, 0x5293e49e)
  {
    hide S, SQ, AlphaTimes, AlphaOver, Load, InitRounds, KeyRounds, Keystream, Initialized, Words.Value;
    w := AClock2();
    AOctets34();
    w := Clock(AK, AIV, 2, w, [0x104c94b2, 0xabee9704], 0x7ac31373, A50,
               0x2d6739c7, 0x5295da23, 0x5293e49e);
  }

  // ----- The key stream of test set 1 of UIA2 -----

  const BK: seq<bv32> := [0x4881ff48, 0x952c4910, 0x82c5b300, 0x2bd6459f]
  const BIV: seq<bv32> := [0x05d2ec49, 0x38a6f056, 0x05d2ec49, 0x38a6f056]

  // The cells, in the order in which they enter the register.
  const B0 := 0xb77e00b7 as bv32
  const B1 := 0x6ad3b6ef as bv32
  const B2 := 0x7d3a4cff as bv32
  const B3 := 0xd429ba60 as bv32
  const B4 := 0x4881ff48 as bv32
  const B5 := 0x952c4910 as bv32
  const B6 := 0x82c5b300 as bv32
  const B7 := 0x2bd6459f as bv32
  const B8 := 0xb77e00b7 as bv32
  const B9 := 0x527546b9 as bv32
  const B10 := 0x78e8a0b6 as bv32
  const B11 := 0xd429ba60 as bv32
  const B12 := 0x70270f1e as bv32
  const B13 := 0x952c4910 as bv32
  const B14 := 0x82c5b300 as bv32
  const B15 := 0x2e04a9d6 as bv32
  const B16 := 0xc90b3dd9 as bv32
  const B17 := 0xd18897f7 as bv32
  const B18 := 0xd8f8ed8c as bv32
  const B19 := 0x76307e5d as bv32
  const B20 := 0xb0c2b29a as bv32
  const B21 := 0x124d32e6 as bv32
  const B22 := 0xfd0e4723 as bv32
  const B23 := 0x7686a5bc as bv32
  const B24 := 0xe8ff0499 as bv32
  const B25 := 0xbada37ac as bv32
  const B26 := 0x91cb3667 as bv32
  const B27 := 0xe3752dfd as bv32
  const B28 := 0xcbfc4fd0 as bv32
  const B29 := 0xc213cd4e as bv32
  const B30 := 0x984c97e2 as bv32
  const B31 := 0x44a83516 as bv32
  const B32 := 0x7b41ad41 as bv32
  const B33 := 0xdbf381ca as bv32
  const B34 := 0x00d6acc7 as bv32
  const B35 := 0x6fd9ea09 as bv32
  const B36 := 0xcc4b0c55 as bv32
  const B37 := 0x26c6ea7f as bv32
  const B38 := 0x481c8f65 as bv32
  const B39 := 0x2b009b5b as bv32
  const B40 := 0x76f4b6a4 as bv32
  const B41 := 0xec086bee as bv32
  const B42 := 0xf2677da9 as bv32
  const B43 := 0x2eb237e5 as bv32
  const B44 := 0x4e7c0d11 as bv32
  const B45 := 0xba7419b1 as bv32
  const B46 := 0x7230888c as bv32
  const B47 := 0xd58d757d as bv32
  const B48 := 0x97d18dec as bv32
  const B49 := 0x505abac4 as bv32
  const B50 := 0x98661df3 as bv32
  const B51 := 0xdb16ae99 as bv32
  const B52 := 0xcf7e0f3c as bv32
  const B53 := 0xf318740a as bv32

  lemma BInit0() returns (w: Words)
    ensures InitRounds(Load(BK, BIV), 0) == w.Value()
    ensures w == Words(B0, B1, B2, B3, B4, B5, B6, B7, B8, B9, B10, B11, B12, B13, B14, B15,
                 0x00000000, 0x00000000, 0x00000000)
  {
    hide InitRounds;
    w := Words(B0, B1, B2, B3, B4, B5, B6, B7, B8, B9, B10, B11, B12, B13, B14, B15,
                 0x00000000, 0x00000000, 0x00000000);
    LastInitRound(Load(BK, BIV), 0);
  }

  lemma BOctets0()
    ensures S(0x00) == 0x63
    ensures SQ(0x00) == 0x25
    ensures AlphaTimes(0xb7) == 0x123a2dec && AlphaOver(0x60) == 0xf6db6ba6
  {
  }

  lemma BOctets1()
    ensures S(0x10) == 0xca && S(0x2c) == 0x71
    ensures S(0x49) == 0x3b && S(0x95) == 0x2a && SQ(0x63) == 0x93
    ensures AlphaTimes(0x6a) == 0x52998dba && AlphaOver(0x1e) == 0xb9aa8da8
  {
  }

  lemma BInit2() returns (w: Words)
    ensures InitRounds(Load(BK, BIV), 2) == w.Value()
    ensures w == Words(B2, B3, B4, B5, B6, B7, B8, B9, B10, B11, B12, B13, B14, B15, B16, B17,
                 0x0b43f988, 0x5b6d0599, 0x93939393)
  {
    hide S, SQ, AlphaTimes, AlphaOver, Load, InitRounds, KeyRounds, Keystream, Initialized, Words.Value;
    w := BInit0();
    BOctets0();
    w := Init(BK, BIV, 0, w, B16, 0x952c4910, 0x63636363, 0x25252525);
    BOctets1();
    w := Init(BK, BIV, 1, w, B17, 0x0b43f988, 0x5b6d0599, 0x93939393);
  }

  lemma BOctets2()
    ensures S(0x0b) == 0x2b && S(0x43) == 0x1a && S(0x88) == 0xc4 && S(0xf9) == 0x99
    ensures SQ(0x05) == 0xae && SQ(0x5b) == 0x6d && SQ(0x6d) == 0x36 && SQ(0x99) == 0xd5
    ensures AlphaTimes(0x7d) == 0x04f10a5a && AlphaOver(0x10) == 0x29f05f31
  {
  }

  lemma BOctets3()
    ensures S(0x13) == 0x7d && S(0xa5) == 0x06 && S(0xb2) == 0x37 && S(0xdb) == 0xb9
    ensures SQ(0x12) == 0x48 && SQ(0x14) == 0x4f && SQ(0x82) == 0x1c && SQ(0xe8) == 0x98
    ensures AlphaTimes(0xd4) == 0xa49bb3dd && AlphaOver(0x00) == 0x00000000
  {
  }

  lemma BInit4() returns (w: Words)
    ensures InitRounds(Load(BK, BIV), 4) == w.Value()
    ensures w == Words(B4, B5, B6, B7, B8, B9, B10, B11, B12, B13, B14, B15, B16, B17, B18, B19,
                 0x65f3bfc6, 0x7e564b96, 0x376adc02)
  {
    hide S, SQ, AlphaTimes, AlphaOver, Load, InitRounds, KeyRounds, Keystream, Initialized, Words.Value;
    w := BInit2();
    BOctets2();
    w := Init(BK, BIV, 2, w, B18, 0x13b2dba5, 0x8214e812, 0x54a0d703);
    BOctets3();
    w := Init(BK, BIV, 3, w, B19, 0x65f3bfc6, 0x7e564b96, 0x376adc02);
  }

  lemma BOctets4()
    ensures S(0x65) == 0x4d && S(0xbf) == 0x08 && S(0xc6) == 0xb4 && S(0xf3) == 0x0d
    ensures SQ(0x4b) == 0xc3 && SQ(0x56) == 0x41 && SQ(0x7e) == 0x5b && SQ(0x96) == 0xf3
    ensures AlphaTimes(0x48) == 0x2d699807 && AlphaOver(0xd6) == 0x3ccda081
  {
  }

  lemma BOctets5()
    ensures S(0x51) == 0xd1 && S(0x75) == 0x9d && S(0xe3) == 0x11 && S(0xe6) == 0x8e
    ensures SQ(0x2b) == 0xe3 && SQ(0x58) == 0xba && SQ(0x71) == 0x0f && SQ(0xfe) == 0xf0
    ensures AlphaTimes(0x95) == 0x6dca3851 && AlphaOver(0xd9) == 0xb49832d5
  {
  }

  lemma BOctets6()
    ensures S(0x22) == 0x93 && S(0x29) == 0xa5 && S(0x3a) == 0x80 && S(0x89) == 0xa7
    ensures SQ(0x4d) == 0x20 && SQ(0x59) == 0xc6 && SQ(0x7b) == 0x7a && SQ(0xbc) == 0x05
    ensures AlphaTimes(0x82) == 0x3ba2bfb1 && AlphaOver(0xf7) == 0x768b5e2e
  {
  }

  lemma BOctets7()
    ensures S(0xbf) == 0x08 && S(0xd0) == 0x70 && S(0xd3) == 0x66 && S(0xf6) == 0x42
    ensures SQ(0xb0) == 0x63 && SQ(0xb7) == 0xd3 && SQ(0xee) == 0x10 && SQ(0xf8) == 0x90
    ensures AlphaTimes(0x2b) == 0x9bc80636 && AlphaOver(0x8c) == 0x41c9518b
  {
  }

  lemma BInit8() returns (w: Words)
    ensures InitRounds(Load(BK, BIV), 8) == w.Value()
    ensures w == Words(B8, B9, B10, B11, B12, B13, B14, B15, B16, B17, B18, B19, B20, B21, B22, B23,
                 0xb8ec4733, 0xe6007ac0, 0x26dcc60c)
  {
    hide S, SQ, AlphaTimes, AlphaOver, Load, InitRounds, KeyRounds, Keystream, Initialized, Words.Value;
    w := BInit4();
    BOctets4();
    w := Init(BK, BIV, 4, w, B20, 0xe375e651, 0x5871fe2b, 0x485f84b9);
    BOctets5();
    w := Init(BK, BIV, 5, w, B21, 0x8929223a, 0x594d7bbc, 0xaeaac163);
    BOctets6();
    w := Init(BK, BIV, 6, w, B22, 0xd3d0f6bf, 0xf8b0eeb7, 0xb01c5762);
    BOctets7();
    w := Init(BK, BIV, 7, w, B23, 0xb8ec4733, 0xe6007ac0, 0x26dcc60c);
  }

  lemma BOctets8()
    ensures S(0x33) == 0xc3 && S(0x47) == 0xa0 && S(0xb8) == 0x6c && S(0xec) == 0xce
    ensures SQ(0x00) == 0x25 && SQ(0x7a) == 0x69 && SQ(0xc0) == 0xd9 && SQ(0xe6) == 0x12
    ensures AlphaTimes(0xb7) == 0x123a2dec && AlphaOver(0x5d) == 0x35299892
  {
  }

  lemma BOctets9()
    ensures S(0x09) == 0x01 && S(0x99) == 0xee && S(0xdc) == 0x86 && S(0xf1) == 0xa1
    ensures SQ(0x50) == 0x83 && SQ(0xbd) == 0x58 && SQ(0xc4) == 0x54 && SQ(0xe8) == 0x98
    ensures AlphaTimes(0x52) == 0x49be6220 && AlphaOver(0x9a) == 0x381b27ef
  {
  }

  lemma BOctets10()
    ensures S(0x1b) == 0xaf && S(0x5a) == 0xbe && S(0x83) == 0xec && S(0xd0) == 0x70
    ensures SQ(0x5b) == 0x6d && SQ(0x92) == 0x0c && SQ(0xf6) == 0x95 && SQ(0xf7) == 0xa3
    ensures AlphaTimes(0x78) == 0x33e9ab05 && AlphaOver(0xe6) == 0x477441d2
  {
  }

  lemma BOctets11()
    ensures S(0x47) == 0xa0 && S(0x9d) == 0x5e && S(0xcb) == 0x1f && S(0xe8) == 0x9b
    ensures SQ(0x58) == 0xba && SQ(0xa4) == 0xb7 && SQ(0xb4) == 0x60 && SQ(0xc5) == 0x0b
    ensures AlphaTimes(0xd4) == 0xa49bb3dd && AlphaOver(0x23) == 0x7a587e9c
  {
  }

  lemma BInit12() returns (w: Words)
    ensures InitRounds(Load(BK, BIV), 12) == w.Value()
    ensures w == Words(B12, B13, B14, B15, B16, B17, B18, B19, B20, B21, B22, B23, B24, B25, B26, B27,
                 0xeb4816c5, 0xacc3e7f2, 0xc6dbbbc0)
  {
    hide S, SQ, AlphaTimes, AlphaOver, Load, InitRounds, KeyRounds, Keystream, Initialized, Words.Value;
    w := BInit8();
    BOctets8();
    w := Init(BK, BIV, 8, w, B24, 0x99f109dc, 0xe850bdc4, 0x6acc7657);
    BOctets9();
    w := Init(BK, BIV, 9, w, B25, 0xd05a831b, 0xf6f7925b, 0x7ea2905b);
    BOctets10();
    w := Init(BK, BIV, 10, w, B26, 0x479dcbe8, 0x58b4c5a4, 0x5b986cf8);
    BOctets11();
    w := Init(BK, BIV, 11, w, B27, 0xeb4816c5, 0xacc3e7f2, 0xc6dbbbc0);
  }

  lemma BOctets12()
    ensures S(0x16) == 0x47 && S(0x48) == 0x52 && S(0xc5) == 0xa6 && S(0xeb) == 0xe9
    ensures SQ(0xac) == 0x8b && SQ(0xc3) == 0x6b && SQ(0xe7) == 0xde && SQ(0xf2) == 0x77
    ensures AlphaTimes(0x70) == 0x364e779d && AlphaOver(0xbc) == 0x3a70b0d8
  {
  }

  lemma BOctets13()
    ensures S(0x14) == 0xfa && S(0x17) == 0xf0 && S(0x29) == 0xa5 && S(0xc4) == 0x1c
    ensures SQ(0x25) == 0x2f && SQ(0x2d) == 0x15 && SQ(0x37) == 0x29 && SQ(0x65) == 0x8f
    ensures AlphaTimes(0x95) == 0x6dca3851 && AlphaOver(0x99) == 0x100ae711
  {
  }

  lemma BOctets14()
    ensures S(0xae) == 0xe4 && S(0xb0) == 0xe7 && S(0xb8) == 0x6c && S(0xd8) == 0x61
    ensures SQ(0x5d) == 0x71 && SQ(0x80) == 0xeb && SQ(0xa8) == 0x79 && SQ(0xc6) == 0xe0
    ensures AlphaTimes(0x82) == 0x3ba2bfb1 && AlphaOver(0xac) == 0x1380efe9
  {
  }

  lemma BOctets15()
    ensures S(0x4c) == 0x29 && S(0x51) == 0xd1 && S(0x8a) == 0x7e && S(0xff) == 0x16
    ensures SQ(0x69) == 0x45 && SQ(0x75) == 0x55 && SQ(0xec) == 0x3e && SQ(0xfe) == 0xf0
    ensures AlphaTimes(0x2e) == 0xacd0a769 && AlphaOver(0x67) == 0xbef6023e
  {
  }

  lemma BInit16() returns (w: Words)
    ensures InitRounds(Load(BK, BIV), 16) == w.Value()
    ensures w == Words(B16, B17, B18, B19, B20, B21, B22, B23, B24, B25, B26, B27, B28, B29, B30, B31,
                 0x71b29cdc, 0x0413c740, 0x6dab0d15)
  {
    hide S, SQ, AlphaTimes, AlphaOver, Load, InitRounds, KeyRounds, Keystream, Initialized, Words.Value;
    w := BInit12();
    BOctets12();
    w := Init(BK, BIV, 12, w, B28, 0xc4171429, 0x2d653725, 0x538b9405);
    BOctets13();
    w := Init(BK, BIV, 13, w, B29, 0xb8d8b0ae, 0xc6805da8, 0xfd4e90bf);
    BOctets14();
    w := Init(BK, BIV, 14, w, B30, 0x51ff4c8a, 0x6975feec, 0xb8fe2f6a);
    BOctets15();
    w := Init(BK, BIV, 15, w, B31, 0x71b29cdc, 0x0413c740, 0x6dab0d15);
  }

  lemma BOctets16()
    ensures S(0x71) == 0xa3 && S(0x9c) == 0xde && S(0xb2) == 0x37 && S(0xdc) == 0x86
    ensures SQ(0x04) == 0xd7 && SQ(0x13) == 0x49 && SQ(0x40) == 0xca && SQ(0xc7) == 0x38
    ensures AlphaTimes(0xc9) == 0x9cc3df83 && AlphaOver(0xfd) == 0x86ed25d1
  {
  }

  lemma BOctets17()
    ensures S(0x07) == 0xc5 && S(0x33) == 0xc3 && S(0x83) == 0xec && S(0xfa) == 0x2d
    ensures SQ(0x25) == 0x2f && SQ(0xc8) == 0x04 && SQ(0xdb) == 0x26 && SQ(0xfa) == 0xa8
    ensures AlphaTimes(0xd1) == 0x93831282 && AlphaOver(0xd0) == 0x6cef89d4
  {
  }

  lemma BOctets18()
    ensures S(0x02) == 0x77 && S(0x47) == 0xa0 && S(0xa2) == 0x3a && S(0xcd) == 0xbd
    ensures SQ(0x08) == 0xa4 && SQ(0x73) == 0x52 && SQ(0x75) == 0x55 && SQ(0xc9) == 0xc8
    ensures AlphaTimes(0xd8) == 0x77bb0109 && AlphaOver(0x4e) == 0x34c8075d
  {
  }

  lemma BOctets19()
    ensures S(0x10) == 0xca && S(0x2b) == 0xf1 && S(0xcc) == 0x4b && S(0xe5) == 0xd9
    ensures SQ(0xa8) == 0x79 && SQ(0xd7) == 0x16 && SQ(0xdf) == 0x2b && SQ(0xf0) == 0x56
    ensures AlphaTimes(0x76) == 0x8b5e2ef7 && AlphaOver(0xe2) == 0x2748e8b4
  {
  }

  lemma BInit20() returns (w: Words)
    ensures InitRounds(Load(BK, BIV), 20) == w.Value()
    ensures w == Words(B20, B21, B22, B23, B24, B25, B26, B27, B28, B29, B30, B31, B32, B33, B34, B35,
                 0x4ea8d236, 0x7a56088d, 0x1ac37eb5)
  {
    hide S, SQ, AlphaTimes, AlphaOver, Load, InitRounds, KeyRounds, Keystream, Initialized, Words.Value;
    w := BInit16();
    BOctets16();
    w := Init(BK, BIV, 16, w, B32, 0x83fa0733, 0x25c8dbfa, 0x8170b62b);
    BOctets17();
    w := Init(BK, BIV, 17, w, B33, 0xa247cd02, 0x7573c908, 0xedf7c778);
    BOctets18();
    w := Init(BK, BIV, 18, w, B34, 0x10e52bcc, 0xf0dfd7a8, 0xb537fe17);
    BOctets19();
    w := Init(BK, BIV, 19, w, B35, 0x4ea8d236, 0x7a56088d, 0x1ac37eb5);
  }

  lemma BOctets20()
    ensures S(0x36) == 0x05 && S(0x4e) == 0x2f && S(0xa8) == 0xc2 && S(0xd2) == 0xb5
    ensures SQ(0x08) == 0xa4 && SQ(0x56) == 0x41 && SQ(0x7a) == 0x69 && SQ(0x8d) == 0x0a
    ensures AlphaTimes(0xb0) == 0x4eb5bb95 && AlphaOver(0x16) == 0x79d27664
  {
  }

  lemma BOctets21()
    ensures S(0x1a) == 0xa2 && S(0x51) == 0xd1 && S(0x6f) == 0xa8 && S(0xa6) == 0x24
    ensures SQ(0x06) == 0x5c && SQ(0x23) == 0xed && SQ(0x26) == 0x11 && SQ(0x5e) == 0x21
    ensures AlphaTimes(0x12) == 0x617026bf && AlphaOver(0x41) == 0xbc9d9509
  {
  }

  lemma BOctets22()
    ensures S(0x01) == 0x7c && S(0xba) == 0xf4 && S(0xbe) == 0xae && S(0xde) == 0x1d
    ensures SQ(0x2a) == 0xac && SQ(0x43) == 0xb3 && SQ(0x4a) == 0xbe && SQ(0xdc) == 0x61
    ensures AlphaTimes(0xfd) == 0x54c482cd && AlphaOver(0xca) == 0xb579ad1a
  {
  }

  lemma BOctets23()
    ensures S(0x2c) == 0x71 && S(0xc4) == 0x1c && S(0xe6) == 0x8e && S(0xf8) == 0x41
    ensures SQ(0x06) == 0x5c && SQ(0x21) == 0xe9 && SQ(0xe4) == 0xec && SQ(0xf8) == 0x90
    ensures AlphaTimes(0x76) == 0x8b5e2ef7 && AlphaOver(0xc7) == 0x0d32bf7d
  {
  }

  lemma BInit24() returns (w: Words)
    ensures InitRounds(Load(BK, BIV), 24) == w.Value()
    ensures w == Words(B24, B25, B26, B27, B28, B29, B30, B31, B32, B33, B34, B35, B36, B37, B38, B39,
                 0x759b4547, 0x0983a981, 0xdd9c23ab)
  {
    hide S, SQ, AlphaTimes, AlphaOver, Load, InitRounds, KeyRounds, Keystream, Initialized, Words.Value;
    w := BInit20();
    BOctets20();
    w := Init(BK, BIV, 20, w, B36, 0x1a6f51a6, 0x265e0623, 0x299781b9);
    BOctets21();
    w := Init(BK, BIV, 21, w, B37, 0xdebabe01, 0x4a43dc2a, 0x01c02767);
    BOctets22();
    w := Init(BK, BIV, 22, w, B38, 0x2cf8e6c4, 0xe40621f8, 0x5a696c9f);
    BOctets23();
    w := Init(BK, BIV, 23, w, B39, 0x759b4547, 0x0983a981, 0xdd9c23ab);
  }

  lemma BOctets24()
    ensures S(0x45) == 0x6e && S(0x47) == 0xa0 && S(0x75) == 0x9d && S(0x9b) == 0x14
    ensures SQ(0x09) == 0xee && SQ(0x81) == 0x9a && SQ(0x83) == 0xa9 && SQ(0xa9) == 0xd6
    ensures AlphaTimes(0xe8) == 0x693b320b && AlphaOver(0x09) == 0xd877bb01
  {
  }

  lemma BOctets25()
    ensures S(0x13) == 0x7d && S(0x29) == 0xa5 && S(0x66) == 0x33 && S(0x98) == 0x46
    ensures SQ(0x5a) == 0xbb && SQ(0x60) == 0x8d && SQ(0xa0) == 0x06 && SQ(0xdd) == 0x76
    ensures AlphaTimes(0xba) == 0x2085502b && AlphaOver(0x55) == 0xf551635e
  {
  }

  lemma BOctets26()
    ensures S(0x35) == 0x96 && S(0x4b) == 0xb3 && S(0x92) == 0x4f && S(0xbb) == 0xea
    ensures SQ(0x3f) == 0xd4 && SQ(0x74) == 0x1d && SQ(0x7b) == 0x7a && SQ(0x9d) == 0x32
    ensures AlphaTimes(0x91) == 0xbb4d561d && AlphaOver(0x7f) == 0x577ea6c3
  {
  }

  lemma BOctets27()
    ensures S(0x93) == 0xdc && S(0xb6) == 0x4e && S(0xba) == 0xf4 && S(0xc2) == 0x25
    ensures SQ(0x5c) == 0x4d && SQ(0x92) == 0x0c && SQ(0x9e) == 0xa0 && SQ(0xd0) == 0xdf
    ensures AlphaTimes(0xe3) == 0xe69416a6 && AlphaOver(0x65) == 0x8ee8820d
  {
  }

  lemma BInit28() returns (w: Words)
    ensures InitRounds(Load(BK, BIV), 28) == w.Value()
    ensures w == Words(B28, B29, B30, B31, B32, B33, B34, B35, B36, B37, B38, B39, B40, B41, B42, B43,
                 0x32222d53, 0xd8df7632, 0x3eb0af1f)
  {
    hide S, SQ, AlphaTimes, AlphaOver, Load, InitRounds, KeyRounds, Keystream, Initialized, Words.Value;
    w := BInit24();
    BOctets24();
    w := Init(BK, BIV, 24, w, B40, 0x29139866, 0xa05add60, 0x0d2c2309);
    BOctets25();
    w := Init(BK, BIV, 25, w, B41, 0x35bb924b, 0x3f7b9d74, 0x3feec354);
    BOctets26();
    w := Init(BK, BIV, 26, w, B42, 0xbac293b6, 0x5c929ed0, 0xaece23c2);
    BOctets27();
    w := Init(BK, BIV, 27, w, B43, 0x32222d53, 0xd8df7632, 0x3eb0af1f);
  }

  lemma BOctets28()
    ensures S(0x22) == 0x93 && S(0x2d) == 0xd8 && S(0x32) == 0x23 && S(0x53) == 0xed
    ensures SQ(0x32) == 0x85 && SQ(0x76) == 0x1a && SQ(0xd8) == 0x74 && SQ(0xdf) == 0x2b
    ensures AlphaTimes(0xcb) == 0xf754e8a5 && AlphaOver(0x5b) == 0x650bb1c7
  {
  }

  lemma BOctets29()
    ensures S(0x07) == 0xc5 && S(0x22) == 0x93 && S(0xa5) == 0x06 && S(0xbe) == 0xae
    ensures SQ(0x02) == 0x73 && SQ(0x21) == 0xe9 && SQ(0x6d) == 0x36 && SQ(0xcb) == 0xe7
    ensures AlphaTimes(0xc2) == 0x136cfb2e && AlphaOver(0xa4) == 0xd3f81425
  {
  }

  lemma BOctets30()
    ensures S(0x60) == 0xd0 && S(0xd7) == 0x0e && S(0xdf) == 0x9e && S(0xf0) == 0x8c
    ensures SQ(0x17) == 0x78 && SQ(0x86) == 0x0d && SQ(0xa6) == 0xf7 && SQ(0xc9) == 0xc8
    ensures AlphaTimes(0x98) == 0x5f754596 && AlphaOver(0xee) == 0x870cba1e
  {
  }

  lemma BOctets31()
    ensures S(0x16) == 0x47 && S(0x57) == 0x5b && S(0x8b) == 0x3d
    ensures SQ(0x76) == 0x1a && SQ(0xbb) == 0xa1 && SQ(0xf8) == 0x90 && SQ(0xf9) == 0x19
    ensures AlphaTimes(0x44) == 0xfe492ad3 && AlphaOver(0xa9) == 0x6bb30642
  {
  }

  lemma BInit32() returns (w: Words)
    ensures InitRounds(Load(BK, BIV), 32) == w.Value()
    ensures w == Words(B32, B33, B34, B35, B36, B37, B38, B39, B40, B41, B42, B43, B44, B45, B46, B47,
                 0xd28bfe8f, 0x21aff119, 0x8ac0552d)
  {
    hide S, SQ, AlphaTimes, AlphaOver, Load, InitRounds, KeyRounds, Keystream, Initialized, Words.Value;
    w := BInit28();
    BOctets28();
    w := Init(BK, BIV, 28, w, B44, 0xbe22a507, 0x216dcb02, 0x3f55b812);
    BOctets29();
    w := Init(BK, BIV, 29, w, B45, 0x60f0dfd7, 0x8617c9a6, 0xffaa6779);
    BOctets30();
    w := Init(BK, BIV, 30, w, B46, 0x168b5716, 0xbbf876f9, 0xdad88bc3);
    BOctets31();
    w := Init(BK, BIV, 31, w, B47, 0xd28bfe8f, 0x21aff119, 0x8ac0552d);
  }

  lemma BClock0() returns (w: Words)
    ensures KeyRounds(Initialized(BK, BIV), 0) == w.Value() && Keystream(Initialized(BK, BIV), 0) == []
    ensures w == Words(B32, B33, B34, B35, B36, B37, B38, B39, B40, B41, B42, B43, B44, B45, B46, B47,
                 0xd28bfe8f, 0x21aff119, 0x8ac0552d)
  {
    hide S, SQ, AlphaTimes, AlphaOver, Load, InitRounds, KeyRounds, Keystream, Initialized, Words.Value;
    w := BInit32();
    InitializedMeans(BK, BIV);
    LastKeyRound(Initialized(BK, BIV), 0);
    LastWord(Initialized(BK, BIV), 0);
  }

  lemma BOctets32()
    ensures S(0x8b) == 0x3d && S(0x8f) == 0x73 && S(0xd2) == 0xb5 && S(0xfe) == 0xbb
    ensures SQ(0x19) == 0x88 && SQ(0x21) == 0xe9 && SQ(0xaf) == 0x53 && SQ(0xf1) == 0xe1
    ensures AlphaTimes(0x7b) == 0xb9e15330 && AlphaOver(0xe5) == 0x6f65812c
  {
  }

  lemma BClock1() returns (w: Words)
    ensures KeyRounds(Initialized(BK, BIV), 1) == w.Value()
    ensures Keystream(Initialized(BK, BIV), 1) == [0xf2f72854]
    ensures w == Words(B33, B34, B35, B36, B37, B38, B39, B40, B41, B42, B43, B44, B45, B46, B47, B48,
                 0xcdb6b06b, 0x6276ecb8, 0xf89d3f89)
  {
    hide S, SQ, AlphaTimes, AlphaOver, Load, InitRounds, KeyRounds, Keystream, Initialized, Words.Value;
    w := BClock0();
    BOctets32();
    w := Clock(BK, BIV, 0, w, [], 0xf2f72854, B48,
               0xcdb6b06b, 0x6276ecb8, 0xf89d3f89);
  }

  lemma BOctets33()
    ensures S(0x6b) == 0x7f && S(0xb0) == 0xe7 && S(0xb6) == 0x4e && S(0xcd) == 0xbd
    ensures SQ(0x62) == 0xe5 && SQ(0x76) == 0x1a && SQ(0xb8) == 0x94 && SQ(0xec) == 0x3e
    ensures AlphaTimes(0xdb) == 0xfdb3f93c && AlphaOver(0x11) == 0x31ff1ffc
  {
  }

  lemma BClock2() returns (w: Words)
    ensures KeyRounds(Initialized(BK, BIV), 2) == w.Value()
    ensures Keystream(Initialized(BK, BIV), 2) == [0xf2f72854, 0xdc0d5325]
    ensures w == Words(B34, B35, B36, B37, B38, B39, B40, B41, B42, B43, B44, B45, B46, B47, B48, B49,
                 0x12f89da4, 0x49d8c53f, 0x52d823fc)
  {
    hide S, SQ, AlphaTimes, AlphaOver, Load, InitRounds, KeyRounds, Keystream, Initialized, Words.Value;
    w := BClock1();
    BOctets33();
    w := Clock(BK, BIV, 1, w, [0xf2f72854], 0xdc0d5325, B49,
               0x12f89da4, 0x49d8c53f, 0x52d823fc);
  }

  lemma BOctets34()
    ensures S(0x12) == 0xc9 && S(0x9d) == 0x5e && S(0xa4) == 0x49 && S(0xf8) == 0x41
    ensures SQ(0x3f) == 0xd4 && SQ(0x49) == 0x7f && SQ(0xc5) == 0x0b && SQ(0xd8) == 0x74
    ensures AlphaTimes(0x00) == 0x00000000 && AlphaOver(0xb1) == 0x823ba2bf
  {
  }

  lemma BClock3() returns (w: Words)
    ensures KeyRounds(Initialized(BK, BIV), 3) == w.Value()
    ensures Keystream(Initialized(BK, BIV), 3) == [0xf2f72854, 0xdc0d5325, 0x2a5d3190]
    ensures w == Words(B35, B36, B37, B38, B39, B40, B41, B42, B43, B44, B45, B46, B47, B48, B49, B50,
                 0xc3b17de6, 0x4dd5fff8, 0x94b621d7)
  {
    hide S, SQ, AlphaTimes, AlphaOver, Load, InitRounds, KeyRounds, Keystream, Initialized, Words.Value;
    w := BClock2();
    BOctets34();
    w := Clock(BK, BIV, 2, w, [0xf2f72854, 0xdc0d5325], 0x2a5d3190, B50,
               0xc3b17de6, 0x4dd5fff8, 0x94b621d7);
  }

  lemma BOctets35()
    ensures S(0x7d) == 0xff && S(0xb1) == 0xc8 && S(0xc3) == 0x2e && S(0xe6) == 0x8e
    ensures SQ(0x4d) == 0x20 && SQ(0xd5) == 0xc4 && SQ(0xf8) == 0x90 && SQ(0xff) == 0x86
    ensures AlphaTimes(0x6f) == 0x65812ce5 && AlphaOver(0x8c) == 0x41c9518b
  {
  }

  lemma BClock4() returns (w: Words)
    ensures KeyRounds(Initialized(BK, BIV), 4) == w.Value()
    ensures Keystream(Initialized(BK, BIV), 4) == [0xf2f72854, 0xdc0d5325, 0x2a5d3190, 0x7e1b8e28]
    ensures w == Words(B36, B37, B38, B39, B40, B41, B42, B43, B44, B45, B46, B47, B48, B49, B50, B51,
                 0x3018976b, 0xe28806fb, 0xdb97f04e)
  {
    hide S, SQ, AlphaTimes, AlphaOver, Load, InitRounds, KeyRounds, Keystream, Initialized, Words.Value;
    w := BClock3();
    BOctets35();
    w := Clock(BK, BIV, 3, w, [0xf2f72854, 0xdc0d5325, 0x2a5d3190], 0x7e1b8e28, B51,
               0x3018976b, 0xe28806fb, 0xdb97f04e);
  }

  lemma BOctets36()
    ensures S(0x18) == 0xad && S(0x30) == 0x04 && S(0x6b) == 0x7f && S(0x97) == 0x88
    ensures SQ(0x06) == 0x5c && SQ(0x88) == 0x50 && SQ(0xe2) == 0xfb && SQ(0xfb) == 0x6c
    ensures AlphaTimes(0xcc) == 0xabdb7edc && AlphaOver(0x7d) == 0x676026f0
  {
  }

  lemma BClock5() returns (w: Words)
    ensures KeyRounds(Initialized(BK, BIV), 5) == w.Value()
    ensures Keystream(Initialized(BK, BIV), 5) == [0xf2f72854, 0xdc0d5325, 0x2a5d3190, 0x7e1b8e28, 0x25ec4caa]
    ensures w == Words(B37, B38, B39, B40, B41, B42, B43, B44, B45, B46, B47, B48, B49, B50, B51, B52,
                 0x1a27a29b, 0xacba9cd4, 0x27f4df97)
  {
    hide S, SQ, AlphaTimes, AlphaOver, Load, InitRounds, KeyRounds, Keystream, Initialized, Words.Value;
    w := BClock4();
    BOctets36();
    w := Clock(BK, BIV, 4, w, [0xf2f72854, 0xdc0d5325, 0x2a5d3190, 0x7e1b8e28], 0x25ec4caa, B52,
               0x1a27a29b, 0xacba9cd4, 0x27f4df97);
  }

  lemma BOctets37()
    ensures S(0x1a) == 0xa2 && S(0x27) == 0xcc && S(0x9b) == 0x14 && S(0xa2) == 0x3a
    ensures SQ(0x9c) == 0x81 && SQ(0xac) == 0x8b && SQ(0xba) == 0x7c && SQ(0xd4) == 0x2a
    ensures AlphaTimes(0x26) == 0xa9777bf1 && AlphaOver(0xec) == 0xb7123a2d
  {
  }

  lemma BClock6() returns (w: Words)
    ensures KeyRounds(Initialized(BK, BIV), 6) == w.Value()
    ensures Keystream(Initialized(BK, BIV), 6) == [0xf2f72854, 0xdc0d5325, 0x2a5d3190, 0x7e1b8e28, 0x25ec4caa, 0x63d9c77c]
    ensures w == Words(B38, B39, B40, B41, B42, B43, B44, B45, B46, B47, B48, B49, B50, B51, B52, B53,
                 0x824e3f12, 0x95508d08, 0xfca74e49)
  {
    hide S, SQ, AlphaTimes, AlphaOver, Load, InitRounds, KeyRounds, Keystream, Initialized, Words.Value;
    w := BClock5();
    BOctets37();
    w := Clock(BK, BIV, 5, w, [0xf2f72854, 0xdc0d5325, 0x2a5d3190, 0x7e1b8e28, 0x25ec4caa], 0x63d9c77c, B53,
               0x824e3f12, 0x95508d08, 0xfca74e49);
  }

  // The first words of the key stream.
  lemma FirstTestSet()
    ensures Keystream(Initialized(AK, AIV), 3)[1..] == [0xabee9704, 0x7ac31373]
  {
    hide Keystream, Initialized;
    var w := AClock3();
  }
}
