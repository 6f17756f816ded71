/** A published test set of UIA2 (UEA2 and UIA2 specification, document 3), from the octets of the key
    and the message to the MAC. */
module Uia2TestSet {
  import opened BitStrings
  import opened Gf2
  import opened OctetStrings
  import opened Uia2
  import opened Words64
  import opened Word32
  import CipherInputs
  import Cmac
  import Snow3g
  import Snow3gTestSets

  const KEY: seq<bv8> := [0x2b, 0xd6, 0x45, 0x9f, 0x82, 0xc5, 0xb3, 0x00, 0x95, 0x2c, 0x49, 0x10, 0x48, 0x81, 0xff, 0x48]
  const MESSAGE: seq<bv8> := [0x6b, 0x22, 0x77, 0x37, 0x29, 0x6f, 0x39, 0x3c, 0x80, 0x79, 0x35, 0x3e,
                               0xdc, 0x87, 0xe2, 0xe8, 0x05, 0xd2, 0xec, 0x49, 0xa4, 0xf2, 0xd8, 0xe0]

  lemma KeyAndVector()
    ensures Key(KEY) == Snow3gTestSets.BK && Vector(0x38a6f056, 0x05d2ec49, 0) == Snow3gTestSets.BIV
  {
  }

  lemma KeyStream()
    ensures Words(KEY, 0x38a6f056, 0x05d2ec49, 0) == [0xdc0d5325, 0x2a5d3190, 0x7e1b8e28, 0x25ec4caa, 0x63d9c77c]
  {
    hide Key, Vector, Snow3g.Keystream, Snow3g.Initialized;
    KeyAndVector();
    var w := Snow3gTestSets.BClock6();
  }

  // ----- The three blocks of the message -----

  lemma EightOctets(a: bv8, b: bv8, c: bv8, d: bv8, e: bv8, f: bv8, g: bv8, h: bv8)
    ensures BitsOf([a, b, c, d, e, f, g, h]) == W64(MakeU32(a, b, c, d), MakeU32(e, f, g, h)).Value()
  {
    hide BitsOf, BitsOfWord, BitsOfOctet, MakeU32;
    BitsOfJoin([a, b, c, d], [e, f, g, h]);
    assert [a, b, c, d] + [e, f, g, h] == [a, b, c, d, e, f, g, h];
    Cmac.FourOctets(a, b, c, d);
    Cmac.FourOctets(e, f, g, h);
    CipherInputs.WordOfOctets(a, b, c, d);
    CipherInputs.WordOfOctets(e, f, g, h);
  }

  lemma Slice0()
    ensures MESSAGE[0..8] == [0x6b, 0x22, 0x77, 0x37, 0x29, 0x6f, 0x39, 0x3c]
  {
  }

  lemma Octets0()
    ensures BitsOf(MESSAGE)[0..64] == W64(0x6b227737, 0x296f393c).Value()
  {
    hide BitsOf, W64.Value, Assemble, MakeU32;
    AssembleIsSlice(MESSAGE, 0, 8);
    AssembleEight(MESSAGE, 0);
    Slice0();
    EightOctets(0x6b, 0x22, 0x77, 0x37, 0x29, 0x6f, 0x39, 0x3c);
    MakeWords0();
  }

  lemma MakeWords0()
    ensures MakeU32(0x6b, 0x22, 0x77, 0x37) == 0x6b227737 && MakeU32(0x29, 0x6f, 0x39, 0x3c) == 0x296f393c
  {
  }

  lemma Slice1()
    ensures MESSAGE[8..16] == [0x80, 0x79, 0x35, 0x3e, 0xdc, 0x87, 0xe2, 0xe8]
  {
  }

  lemma Octets1()
    ensures BitsOf(MESSAGE)[64..128] == W64(0x8079353e, 0xdc87e2e8).Value()
  {
    hide BitsOf, W64.Value, Assemble, MakeU32;
    AssembleIsSlice(MESSAGE, 8, 8);
    AssembleEight(MESSAGE, 8);
    Slice1();
    EightOctets(0x80, 0x79, 0x35, 0x3e, 0xdc, 0x87, 0xe2, 0xe8);
    MakeWords1();
  }

  lemma MakeWords1()
    ensures MakeU32(0x80, 0x79, 0x35, 0x3e) == 0x8079353e && MakeU32(0xdc, 0x87, 0xe2, 0xe8) == 0xdc87e2e8
  {
  }

  lemma Slice2()
    ensures MESSAGE[16..24] == [0x05, 0xd2, 0xec, 0x49, 0xa4, 0xf2, 0xd8, 0xe0]
  {
  }

  lemma Octets2()
    ensures BitsOf(MESSAGE)[128..192] == W64(0x05d2ec49, 0xa4f2d8e0).Value()
  {
    hide BitsOf, W64.Value, Assemble, MakeU32;
    AssembleIsSlice(MESSAGE, 16, 8);
    AssembleEight(MESSAGE, 16);
    Slice2();
    EightOctets(0x05, 0xd2, 0xec, 0x49, 0xa4, 0xf2, 0xd8, 0xe0);
    MakeWords2();
  }

  lemma MakeWords2()
    ensures MakeU32(0x05, 0xd2, 0xec, 0x49) == 0x05d2ec49 && MakeU32(0xa4, 0xf2, 0xd8, 0xe0) == 0xa4f2d8e0
  {
  }

  lemma AssembleEight(data: seq<bv8>, k: nat)
    requires k + 8 <= |data|
    ensures Assemble(data, k, 8) == BitsOf(data[k..k + 8])
  {
    hide *;
    AssembleIsSlice(data, k, 8);
    FirstOctets(data, k + 8);
    assert data[..k + 8] == data[..k] + data[k..k + 8];
    BitsOfJoin(data[..k], data[k..k + 8]);
    FirstOctets(data, k);
    Tail(BitsOf(data), 8 * k, 8 * k + 64, BitsOf(data[k..k + 8]));
  }

  lemma Tail(x: seq<bool>, i: nat, j: nat, y: seq<bool>)
    requires i <= j <= |x| && x[..j] == x[..i] + y
    ensures x[i..j] == y
  {
    assert x[i..j] == x[..j][i..];
  }

  // Bits 189 to 191 of the octets are zero, as are the bits that fill up the last block.
  lemma BlockIs(x: seq<bool>, i: nat)
    requires |x| == 192 && i < 3 && !x[189] && !x[190] && !x[191]
    ensures Block(x[..189], i) == x[64 * i..64 * i + 64]
  {
    var b, y := Block(x[..189], i), x[64 * i..64 * i + 64];
    forall j | 0 <= j < 64 ensures b[j] == y[j] {
      assert y[j] == x[64 * i + j];
    }
  }

  lemma Blocks()
    ensures var m := BitsOf(MESSAGE)[..189];
            && Block(m, 0) == W64(0x6b227737, 0x296f393c).Value()
            && Block(m, 1) == W64(0x8079353e, 0xdc87e2e8).Value()
            && Block(m, 2) == W64(0x05d2ec49, 0xa4f2d8e0).Value()
  {
    hide BitsOf, Block, W64.Value;
    var x := BitsOf(MESSAGE);
    Octets0();
    Octets1();
    Octets2();
    LastBits();
    BlockIs(x, 0);
    BlockIs(x, 1);
    BlockIs(x, 2);
  }

  lemma LastBits()
    ensures var x := BitsOf(MESSAGE); |x| == 192 && !x[189] && !x[190] && !x[191]
  {
    hide BitsOf;
    BitsAt(MESSAGE, 23);
    LowZeros();
    PieceAt(BitsOf(MESSAGE), 23, 5);
    PieceAt(BitsOf(MESSAGE), 23, 6);
    PieceAt(BitsOf(MESSAGE), 23, 7);
  }

  lemma PieceAt(x: seq<bool>, i: nat, j: nat)
    requires 8 * i + 8 <= |x| && j < 8
    ensures Piece(x, i)[j] == x[8 * i + j]
  {
  }

  lemma LowZeros()
    ensures var b := BitsOfOctet(0xe0); !b[5] && !b[6] && !b[7]
  {
  }

  // ----- The evaluation -----

  // Product0: v * p
  const Product0V := W64(0x6b227737, 0x296f393c)

  lemma Product0Octet0()
    ensures At(Product0V.Value(), W64(0xdc0d5325, 0x2a5d3190).Value(), 8, W64(0x22773729, 0x6f393955), W64(0x231ce8e6, 0x216f0f3d))
  {
    hide W64.Value, At;
    Start(Product0V, W64(0xdc0d5325, 0x2a5d3190));
    Octet8(Product0V.Value(), W64(0xdc0d5325, 0x2a5d3190), 0, W64(0x6b227737, 0x296f393c), W64(0x00000000, 0x00000000),
           W64(0x22773729, 0x6f393955), W64(0x231ce8e6, 0x216f0f3d));
  }

  lemma Product0Octet1()
    ensures At(Product0V.Value(), W64(0xdc0d5325, 0x2a5d3190).Value(), 16, W64(0x7737296f, 0x39395656), W64(0x68fe4874, 0x5ae289c2))
  {
    hide W64.Value, At;
    Product0Octet0();
    Octet8(Product0V.Value(), W64(0xdc0d5325, 0x2a5d3190), 1, W64(0x22773729, 0x6f393955), W64(0x231ce8e6, 0x216f0f3d),
           W64(0x7737296f, 0x39395656), W64(0x68fe4874, 0x5ae289c2));
  }

  lemma Product0Octet2()
    ensures At(Product0V.Value(), W64(0xdc0d5325, 0x2a5d3190).Value(), 24, W64(0x37296f39, 0x39565251), W64(0xc41442e3, 0x9334c5f4))
  {
    hide W64.Value, At;
    Product0Octet1();
    Octet8(Product0V.Value(), W64(0xdc0d5325, 0x2a5d3190), 2, W64(0x7737296f, 0x39395656), W64(0x68fe4874, 0x5ae289c2),
           W64(0x37296f39, 0x39565251), W64(0xc41442e3, 0x9334c5f4));
  }

  lemma Product0Octet3()
    ensures At(Product0V.Value(), W64(0xdc0d5325, 0x2a5d3190).Value(), 32, W64(0x296f3939, 0x56525391), W64(0xf620027f, 0x01e0b9bf))
  {
    hide W64.Value, At;
    Product0Octet2();
    Octet8(Product0V.Value(), W64(0xdc0d5325, 0x2a5d3190), 3, W64(0x37296f39, 0x39565251), W64(0xc41442e3, 0x9334c5f4),
           W64(0x296f3939, 0x56525391), W64(0xf620027f, 0x01e0b9bf));
  }

  lemma Product0Octet4()
    ensures At(Product0V.Value(), W64(0xdc0d5325, 0x2a5d3190).Value(), 40, W64(0x6f393956, 0x525392a3), W64(0x5714f889, 0xc4b1d63d))
  {
    hide W64.Value, At;
    Product0Octet3();
    Octet8(Product0V.Value(), W64(0xdc0d5325, 0x2a5d3190), 4, W64(0x296f3939, 0x56525391), W64(0xf620027f, 0x01e0b9bf),
           W64(0x6f393956, 0x525392a3), W64(0x5714f889, 0xc4b1d63d));
  }

  lemma Product0Octet5()
    ensures At(Product0V.Value(), W64(0xdc0d5325, 0x2a5d3190).Value(), 48, W64(0x39395652, 0x5392a639), W64(0xdb827382, 0x8398e237))
  {
    hide W64.Value, At;
    Product0Octet4();
    Octet8(Product0V.Value(), W64(0xdc0d5325, 0x2a5d3190), 5, W64(0x6f393956, 0x525392a3), W64(0x5714f889, 0xc4b1d63d),
           W64(0x39395652, 0x5392a639), W64(0xdb827382, 0x8398e237));
  }

  lemma Product0Octet6()
    ensures At(Product0V.Value(), W64(0xdc0d5325, 0x2a5d3190).Value(), 56, W64(0x39565253, 0x92a63b13), W64(0xcf94ce0b, 0x02d5ed39))
  {
    hide W64.Value, At;
    Product0Octet5();
    Octet8(Product0V.Value(), W64(0xdc0d5325, 0x2a5d3190), 6, W64(0x39395652, 0x5392a639), W64(0xdb827382, 0x8398e237),
           W64(0x39565253, 0x92a63b13), W64(0xcf94ce0b, 0x02d5ed39));
  }

  lemma Product0Octet7()
    ensures At(Product0V.Value(), W64(0xdc0d5325, 0x2a5d3190).Value(), 64, W64(0x56525392, 0xa63b1113), W64(0x8ba78dcd, 0x0d8c242d))
  {
    hide W64.Value, At;
    Product0Octet6();
    Octet8(Product0V.Value(), W64(0xdc0d5325, 0x2a5d3190), 7, W64(0x39565253, 0x92a63b13), W64(0xcf94ce0b, 0x02d5ed39),
           W64(0x56525392, 0xa63b1113), W64(0x8ba78dcd, 0x0d8c242d));
  }

  lemma Product0()
    ensures Mul(W64(0x6b227737, 0x296f393c).Value(), W64(0xdc0d5325, 0x2a5d3190).Value(), C) == W64(0x8ba78dcd, 0x0d8c242d).Value()
  {
    hide W64.Value, At;
    Product0Octet7();
    End(Product0V.Value(), W64(0xdc0d5325, 0x2a5d3190).Value(), W64(0x56525392, 0xa63b1113), W64(0x8ba78dcd, 0x0d8c242d));
  }

  // Product1: v * p
  const Product1V := W64(0x0bdeb8f3, 0xd10bc6c5)

  lemma Product1Octet0()
    ensures At(Product1V.Value(), W64(0xdc0d5325, 0x2a5d3190).Value(), 8, W64(0xdeb8f3d1, 0x0bc6c5f5), W64(0x52b7f6d5, 0x955f0ea7))
  {
    hide W64.Value, At;
    Start(Product1V, W64(0xdc0d5325, 0x2a5d3190));
    Octet8(Product1V.Value(), W64(0xdc0d5325, 0x2a5d3190), 0, W64(0x0bdeb8f3, 0xd10bc6c5), W64(0x00000000, 0x00000000),
           W64(0xdeb8f3d1, 0x0bc6c5f5), W64(0x52b7f6d5, 0x955f0ea7));
  }

  lemma Product1Octet1()
    ensures At(Product1V.Value(), W64(0xdc0d5325, 0x2a5d3190).Value(), 16, W64(0xb8f3d10b, 0xc6c5ff72), W64(0xb09e4235, 0x5a2d2b48))
  {
    hide W64.Value, At;
    Product1Octet0();
    Octet8(Product1V.Value(), W64(0xdc0d5325, 0x2a5d3190), 1, W64(0xdeb8f3d1, 0x0bc6c5f5), W64(0x52b7f6d5, 0x955f0ea7),
           W64(0xb8f3d10b, 0xc6c5ff72), W64(0xb09e4235, 0x5a2d2b48));
  }

  lemma Product1Octet2()
    ensures At(Product1V.Value(), W64(0xdc0d5325, 0x2a5d3190).Value(), 24, W64(0xf3d10bc6, 0xc5ff7d88), W64(0x9ff50d02, 0x6cf0fa94))
  {
    hide W64.Value, At;
    Product1Octet1();
    Octet8(Product1V.Value(), W64(0xdc0d5325, 0x2a5d3190), 2, W64(0xb8f3d10b, 0xc6c5ff72), W64(0xb09e4235, 0x5a2d2b48),
           W64(0xf3d10bc6, 0xc5ff7d88), W64(0x9ff50d02, 0x6cf0fa94));
  }

  lemma Product1Octet3()
    ensures At(Product1V.Value(), W64(0xdc0d5325, 0x2a5d3190).Value(), 32, W64(0xd10bc6c5, 0xff7d81bd), W64(0x9cfe3c61, 0x771a5dac))
  {
    hide W64.Value, At;
    Product1Octet2();
    Octet8(Product1V.Value(), W64(0xdc0d5325, 0x2a5d3190), 3, W64(0xf3d10bc6, 0xc5ff7d88), W64(0x9ff50d02, 0x6cf0fa94),
           W64(0xd10bc6c5, 0xff7d81bd), W64(0x9cfe3c61, 0x771a5dac));
  }

  lemma Product1Octet4()
    ensures At(Product1V.Value(), W64(0xdc0d5325, 0x2a5d3190).Value(), 40, W64(0x0bc6c5ff, 0x7d81b7eb), W64(0x28a2390c, 0x9a21ec36))
  {
    hide W64.Value, At;
    Product1Octet3();
    Octet8(Product1V.Value(), W64(0xdc0d5325, 0x2a5d3190), 4, W64(0xd10bc6c5, 0xff7d81bd), W64(0x9cfe3c61, 0x771a5dac),
           W64(0x0bc6c5ff, 0x7d81b7eb), W64(0x28a2390c, 0x9a21ec36));
  }

  lemma Product1Octet5()
    ensures At(Product1V.Value(), W64(0xdc0d5325, 0x2a5d3190).Value(), 48, W64(0xc6c5ff7d, 0x81b7ebf5), W64(0x79345725, 0xa4d5b04d))
  {
    hide W64.Value, At;
    Product1Octet4();
    Octet8(Product1V.Value(), W64(0xdc0d5325, 0x2a5d3190), 5, W64(0x0bc6c5ff, 0x7d81b7eb), W64(0x28a2390c, 0x9a21ec36),
           W64(0xc6c5ff7d, 0x81b7ebf5), W64(0x79345725, 0xa4d5b04d));
  }

  lemma Product1Octet6()
    ensures At(Product1V.Value(), W64(0xdc0d5325, 0x2a5d3190).Value(), 56, W64(0xc5ff7d81, 0xb7ebfe1a), W64(0x92c9ae42, 0x2e02abb3))
  {
    hide W64.Value, At;
    Product1Octet5();
    Octet8(Product1V.Value(), W64(0xdc0d5325, 0x2a5d3190), 6, W64(0xc6c5ff7d, 0x81b7ebf5), W64(0x79345725, 0xa4d5b04d),
           W64(0xc5ff7d81, 0xb7ebfe1a), W64(0x92c9ae42, 0x2e02abb3));
  }

  lemma Product1Octet7()
    ensures At(Product1V.Value(), W64(0xdc0d5325, 0x2a5d3190).Value(), 64, W64(0xff7d81b7, 0xebfe1137), W64(0x7559cce4, 0x3f4dceb5))
  {
    hide W64.Value, At;
    Product1Octet6();
    Octet8(Product1V.Value(), W64(0xdc0d5325, 0x2a5d3190), 7, W64(0xc5ff7d81, 0xb7ebfe1a), W64(0x92c9ae42, 0x2e02abb3),
           W64(0xff7d81b7, 0xebfe1137), W64(0x7559cce4, 0x3f4dceb5));
  }

  lemma Product1()
    ensures Mul(W64(0x0bdeb8f3, 0xd10bc6c5).Value(), W64(0xdc0d5325, 0x2a5d3190).Value(), C) == W64(0x7559cce4, 0x3f4dceb5).Value()
  {
    hide W64.Value, At;
    Product1Octet7();
    End(Product1V.Value(), W64(0xdc0d5325, 0x2a5d3190).Value(), W64(0xff7d81b7, 0xebfe1137), W64(0x7559cce4, 0x3f4dceb5));
  }

  // Product2: v * p
  const Product2V := W64(0x708b20ad, 0x9bbf1655)

  lemma Product2Octet0()
    ensures At(Product2V.Value(), W64(0xdc0d5325, 0x2a5d3190).Value(), 8, W64(0x8b20ad9b, 0xbf165110), W64(0x4d225c14, 0x647a4d99))
  {
    hide W64.Value, At;
    Start(Product2V, W64(0xdc0d5325, 0x2a5d3190));
    Octet8(Product2V.Value(), W64(0xdc0d5325, 0x2a5d3190), 0, W64(0x708b20ad, 0x9bbf1655), W64(0x00000000, 0x00000000),
           W64(0x8b20ad9b, 0xbf165110), W64(0x4d225c14, 0x647a4d99));
  }

  lemma Product2Octet1()
    ensures At(Product2V.Value(), W64(0xdc0d5325, 0x2a5d3190).Value(), 16, W64(0x20ad9bbf, 0x16511d75), W64(0x101d9b43, 0xc8c32efa))
  {
    hide W64.Value, At;
    Product2Octet0();
    Octet8(Product2V.Value(), W64(0xdc0d5325, 0x2a5d3190), 1, W64(0x8b20ad9b, 0xbf165110), W64(0x4d225c14, 0x647a4d99),
           W64(0x20ad9bbf, 0x16511d75), W64(0x101d9b43, 0xc8c32efa));
  }

  lemma Product2Octet2()
    ensures At(Product2V.Value(), W64(0xdc0d5325, 0x2a5d3190).Value(), 24, W64(0xad9bbf16, 0x511d7660), W64(0x96d5e7cc, 0xc4082716))
  {
    hide W64.Value, At;
    Product2Octet1();
    Octet8(Product2V.Value(), W64(0xdc0d5325, 0x2a5d3190), 2, W64(0x20ad9bbf, 0x16511d75), W64(0x101d9b43, 0xc8c32efa),
           W64(0xad9bbf16, 0x511d7660), W64(0x96d5e7cc, 0xc4082716));
  }

  lemma Product2Octet3()
    ensures At(Product2V.Value(), W64(0xdc0d5325, 0x2a5d3190).Value(), 32, W64(0x9bbf1651, 0x1d766e4f), W64(0x12488398, 0xcd77b57d))
  {
    hide W64.Value, At;
    Product2Octet2();
    Octet8(Product2V.Value(), W64(0xdc0d5325, 0x2a5d3190), 3, W64(0xad9bbf16, 0x511d7660), W64(0x96d5e7cc, 0xc4082716),
           W64(0x9bbf1651, 0x1d766e4f), W64(0x12488398, 0xcd77b57d));
  }

  lemma Product2Octet4()
    ensures At(Product2V.Value(), W64(0xdc0d5325, 0x2a5d3190).Value(), 40, W64(0xbf16511d, 0x766e43c5), W64(0x90e906ae, 0x0b15aa45))
  {
    hide W64.Value, At;
    Product2Octet3();
    Octet8(Product2V.Value(), W64(0xdc0d5325, 0x2a5d3190), 4, W64(0x9bbf1651, 0x1d766e4f), W64(0x12488398, 0xcd77b57d),
           W64(0xbf16511d, 0x766e43c5), W64(0x90e906ae, 0x0b15aa45));
  }

  lemma Product2Octet5()
    ensures At(Product2V.Value(), W64(0xdc0d5325, 0x2a5d3190).Value(), 48, W64(0x16511d76, 0x6e43cac9), W64(0x6522a303, 0x6cd3a00d))
  {
    hide W64.Value, At;
    Product2Octet4();
    Octet8(Product2V.Value(), W64(0xdc0d5325, 0x2a5d3190), 5, W64(0xbf16511d, 0x766e43c5), W64(0x90e906ae, 0x0b15aa45),
           W64(0x16511d76, 0x6e43cac9), W64(0x6522a303, 0x6cd3a00d));
  }

  lemma Product2Octet6()
    ensures At(Product2V.Value(), W64(0xdc0d5325, 0x2a5d3190).Value(), 56, W64(0x511d766e, 0x43cac8ea), W64(0x98bf201f, 0xc98117a8))
  {
    hide W64.Value, At;
    Product2Octet5();
    Octet8(Product2V.Value(), W64(0xdc0d5325, 0x2a5d3190), 6, W64(0x16511d76, 0x6e43cac9), W64(0x6522a303, 0x6cd3a00d),
           W64(0x511d766e, 0x43cac8ea), W64(0x98bf201f, 0xc98117a8));
  }

  lemma Product2Octet7()
    ensures At(Product2V.Value(), W64(0xdc0d5325, 0x2a5d3190).Value(), 64, W64(0x1d766e43, 0xcac8ed6b), W64(0x8c108081, 0xf386b04e))
  {
    hide W64.Value, At;
    Product2Octet6();
    Octet8(Product2V.Value(), W64(0xdc0d5325, 0x2a5d3190), 7, W64(0x511d766e, 0x43cac8ea), W64(0x98bf201f, 0xc98117a8),
           W64(0x1d766e43, 0xcac8ed6b), W64(0x8c108081, 0xf386b04e));
  }

  lemma Product2()
    ensures Mul(W64(0x708b20ad, 0x9bbf1655).Value(), W64(0xdc0d5325, 0x2a5d3190).Value(), C) == W64(0x8c108081, 0xf386b04e).Value()
  {
    hide W64.Value, At;
    Product2Octet7();
    End(Product2V.Value(), W64(0xdc0d5325, 0x2a5d3190).Value(), W64(0x1d766e43, 0xcac8ed6b), W64(0x8c108081, 0xf386b04e));
  }

  // Product3: v * p
  const Product3V := W64(0x8c108081, 0xf386b0f3)

  lemma Product3Octet0()
    ensures At(Product3V.Value(), W64(0x7e1b8e28, 0x25ec4caa).Value(), 8, W64(0x108081f3, 0x86b0fe34), W64(0xf2f555cb, 0xc8b686d8))
  {
    hide W64.Value, At;
    Start(Product3V, W64(0x7e1b8e28, 0x25ec4caa));
    Octet8(Product3V.Value(), W64(0x7e1b8e28, 0x25ec4caa), 0, W64(0x8c108081, 0xf386b0f3), W64(0x00000000, 0x00000000),
           W64(0x108081f3, 0x86b0fe34), W64(0xf2f555cb, 0xc8b686d8));
  }

  lemma Product3Octet1()
    ensures At(Product3V.Value(), W64(0x7e1b8e28, 0x25ec4caa).Value(), 16, W64(0x8081f386, 0xb0fe35b0), W64(0x14d32178, 0x4bcd02c4))
  {
    hide W64.Value, At;
    Product3Octet0();
    Octet8(Product3V.Value(), W64(0x7e1b8e28, 0x25ec4caa), 1, W64(0x108081f3, 0x86b0fe34), W64(0xf2f555cb, 0xc8b686d8),
           W64(0x8081f386, 0xb0fe35b0), W64(0x14d32178, 0x4bcd02c4));
  }

  lemma Product3Octet2()
    ensures At(Product3V.Value(), W64(0x7e1b8e28, 0x25ec4caa).Value(), 24, W64(0x81f386b0, 0xfe35bd80), W64(0x62602175, 0x50957fce))
  {
    hide W64.Value, At;
    Product3Octet1();
    Octet8(Product3V.Value(), W64(0x7e1b8e28, 0x25ec4caa), 2, W64(0x8081f386, 0xb0fe35b0), W64(0x14d32178, 0x4bcd02c4),
           W64(0x81f386b0, 0xfe35bd80), W64(0x62602175, 0x50957fce));
  }

  lemma Product3Octet3()
    ensures At(Product3V.Value(), W64(0x7e1b8e28, 0x25ec4caa).Value(), 32, W64(0xf386b0fe, 0x35bd8d9b), W64(0xda2d6b19, 0x90c185c8))
  {
    hide W64.Value, At;
    Product3Octet2();
    Octet8(Product3V.Value(), W64(0x7e1b8e28, 0x25ec4caa), 3, W64(0x81f386b0, 0xfe35bd80), W64(0x62602175, 0x50957fce),
           W64(0xf386b0fe, 0x35bd8d9b), W64(0xda2d6b19, 0x90c185c8));
  }

  lemma Product3Octet4()
    ensures At(Product3V.Value(), W64(0x7e1b8e28, 0x25ec4caa).Value(), 40, W64(0x86b0fe35, 0xbd8d92bd), W64(0x36cef32e, 0x8a9c5b03))
  {
    hide W64.Value, At;
    Product3Octet3();
    Octet8(Product3V.Value(), W64(0x7e1b8e28, 0x25ec4caa), 4, W64(0xf386b0fe, 0x35bd8d9b), W64(0xda2d6b19, 0x90c185c8),
           W64(0x86b0fe35, 0xbd8d92bd), W64(0x36cef32e, 0x8a9c5b03));
  }

  lemma Product3Octet5()
    ensures At(Product3V.Value(), W64(0x7e1b8e28, 0x25ec4caa).Value(), 48, W64(0xb0fe35bd, 0x8d92b0da), W64(0x4c941ce0, 0x2d14f949))
  {
    hide W64.Value, At;
    Product3Octet4();
    Octet8(Product3V.Value(), W64(0x7e1b8e28, 0x25ec4caa), 5, W64(0x86b0fe35, 0xbd8d92bd), W64(0x36cef32e, 0x8a9c5b03),
           W64(0xb0fe35bd, 0x8d92b0da), W64(0x4c941ce0, 0x2d14f949));
  }

  lemma Product3Octet6()
    ensures At(Product3V.Value(), W64(0x7e1b8e28, 0x25ec4caa).Value(), 56, W64(0xfe35bd8d, 0x92b0d550), W64(0x1584b412, 0x0e1da3ce))
  {
    hide W64.Value, At;
    Product3Octet5();
    Octet8(Product3V.Value(), W64(0x7e1b8e28, 0x25ec4caa), 6, W64(0xb0fe35bd, 0x8d92b0da), W64(0x4c941ce0, 0x2d14f949),
           W64(0xfe35bd8d, 0x92b0d550), W64(0x1584b412, 0x0e1da3ce));
  }

  lemma Product3Octet7()
    ensures At(Product3V.Value(), W64(0x7e1b8e28, 0x25ec4caa).Value(), 64, W64(0x35bd8d92, 0xb0d55912), W64(0x4817df5c, 0x251b5e20))
  {
    hide W64.Value, At;
    Product3Octet6();
    Octet8(Product3V.Value(), W64(0x7e1b8e28, 0x25ec4caa), 7, W64(0xfe35bd8d, 0x92b0d550), W64(0x1584b412, 0x0e1da3ce),
           W64(0x35bd8d92, 0xb0d55912), W64(0x4817df5c, 0x251b5e20));
  }

  lemma Product3()
    ensures Mul(W64(0x8c108081, 0xf386b0f3).Value(), W64(0x7e1b8e28, 0x25ec4caa).Value(), C) == W64(0x4817df5c, 0x251b5e20).Value()
  {
    hide W64.Value, At;
    Product3Octet7();
    End(Product3V.Value(), W64(0x7e1b8e28, 0x25ec4caa).Value(), W64(0x35bd8d92, 0xb0d55912), W64(0x4817df5c, 0x251b5e20));
  }

  lemma EvalStep(m: Bits, p: Bits, n: nat)
    requires |p| == 64
    ensures Eval(m, p, n) == if n == 0 then Zeros(64) else Mul(Add(Eval(m, p, n - 1), Block(m, n - 1)), p, C)
  {
    hide Mul, Add, Block, Zeros;
  }

  lemma AddWords(a: W64, b: W64, s: W64)
    requires s == a.Plus(true, b)
    ensures Add(a.Value(), b.Value()) == s.Value()
  {
    hide *;
    SumOfWords(a, b);
  }

  lemma ZeroPair()
    ensures Zeros(64) == W64(0, 0).Value()
  {
    ZeroWord();
  }

  lemma Evaluation()
    ensures Eval(BitsOf(MESSAGE)[..189], W64(0xdc0d5325, 0x2a5d3190).Value(), 3) == W64(0x8c108081, 0xf386b04e).Value()
  {
    hide BitsOf, W64.Value, Mul, Add, Block, Eval, Zeros;
    var m, p := BitsOf(MESSAGE)[..189], W64(0xdc0d5325, 0x2a5d3190).Value();
    Blocks();
    ZeroPair();
    EvalStep(m, p, 0);
    EvalStep(m, p, 1);
    EvalStep(m, p, 2);
    EvalStep(m, p, 3);
    AddWords(W64(0x00000000, 0x00000000), W64(0x6b227737, 0x296f393c), W64(0x6b227737, 0x296f393c));
    Product0();
    AddWords(W64(0x8ba78dcd, 0x0d8c242d), W64(0x8079353e, 0xdc87e2e8), W64(0x0bdeb8f3, 0xd10bc6c5));
    Product1();
    AddWords(W64(0x7559cce4, 0x3f4dceb5), W64(0x05d2ec49, 0xa4f2d8e0), W64(0x708b20ad, 0x9bbf1655));
    Product2();
  }

  lemma Length()
    ensures ToBits(189, 64) == W64(0x00000000, 0x000000bd).Value()
  {
    hide BitsOfWord, ToBits, Shr, BitsOfOctet;
    ToBitsSplit(189, 56, 8);
    Shr8();
    BitStrings.ZeroBits(56);
    CipherInputs.OctetNumber(0xbd);
    ZeroWord();
    LowOctet(0xbd);
    SplitZeros(BitsOfOctet(0xbd));
  }

  lemma Shr8()
    ensures Shr(189, 8) == 0
  {
    assert Shr(189, 8) == Shr(94, 7) == Shr(47, 6) == Shr(23, 5);
    assert Shr(23, 5) == Shr(11, 4) == Shr(5, 3) == Shr(2, 2) == Shr(1, 1) == Shr(0, 0);
  }

  lemma SplitZeros(b: Bits)
    ensures Zeros(56) + b == Zeros(32) + (Zeros(24) + b)
  {
  }

  lemma LowOctet(b: bv8)
    ensures BitsOfWord(MakeU32(0, 0, 0, b)) == Zeros(24) + BitsOfOctet(b)
  {
    CipherInputs.WordOfOctets(0, 0, 0, b);
    ZeroOctet();
    hide BitsOfOctet, BitsOfWord;
  }

  // The MAC of the 189 bits.  With F9 this is the published result.
  lemma TestSet(key: seq<bv8>, count: bv32, fresh_: bv32, dir: bv32, z: seq<bv32>)
    requires key == KEY && count == 0x38a6f056 && fresh_ == 0x05d2ec49 && dir == 0 && z == Words(key, count, fresh_, dir)
    ensures |z| == 5
    ensures Tag(BitsOf(MESSAGE)[..189], BitsOfWord(z[0]) + BitsOfWord(z[1]), BitsOfWord(z[2]) + BitsOfWord(z[3]), BitsOfWord(z[4])) == BitsOfWord(0x2bce1820)
  {
    hide *;
    KeyStream();
    TagOfWords();
  }

  lemma TagOfWords()
    ensures Tag(BitsOf(MESSAGE)[..189], BitsOfWord(0xdc0d5325) + BitsOfWord(0x2a5d3190),
                BitsOfWord(0x7e1b8e28) + BitsOfWord(0x25ec4caa), BitsOfWord(0x63d9c77c)) == BitsOfWord(0x2bce1820)
  {
    hide BitsOf, BitsOfWord, Mul, Add, Eval, ToBits;
    Evaluation();
    Length();
    AddWords(W64(0x8c108081, 0xf386b04e), W64(0x00000000, 0x000000bd), W64(0x8c108081, 0xf386b0f3));
    Product3();
    assert BlockCount(189) == 3;
    CipherInputs.WordXor(0x4817df5c, 0x63d9c77c);
    assert Xor(0x4817df5c, 0x63d9c77c) == 0x2bce1820;
    TopWord(BitsOfWord(0x4817df5c), BitsOfWord(0x251b5e20));
  }

  lemma TopWord(a: Bits, b: Bits)
    requires |a| == 32
    ensures (a + b)[..32] == a
  {
  }
}
