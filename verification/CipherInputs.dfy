/** How keys, counters and flags are laid out for the generators, and in which order their words
    become a stream of octets (s3g.cc, zuc.cc, liblte_security.cc), bit by bit. */
module CipherInputs {
  import opened BitStrings
  import opened Bytes
  import opened Gf2
  import opened Octet
  import opened OctetStrings
  import opened Word32
  import Cmac
  import Eea
  import Eia3
  import Uia2
  import Zuc

  // The bits of four words, the one with the highest index in front.
  function Downwards(w: seq<bv32>): (r: seq<bool>)
    requires |w| == 4
    ensures |r| == 128
  {
    BitsOfWord(w[3]) + BitsOfWord(w[2]) + BitsOfWord(w[1]) + BitsOfWord(w[0])
  }

  lemma WordOfOctets(a: bv8, b: bv8, c: bv8, d: bv8)
    ensures BitsOfWord(MakeU32(a, b, c, d)) == BitsOfOctet(a) + BitsOfOctet(b) + BitsOfOctet(c) + BitsOfOctet(d)
  {
    hide BitsOfOctet;
    var w := MakeU32(a, b, c, d);
    assert Byte3(w) == a && Byte2(w) == b && Byte1(w) == c && Byte0(w) == d;
  }

  // The octets of the key are the four key words from K3 down to K0.
  lemma KeyIsItsOctets(key: seq<bv8>)
    requires |key| == 16
    ensures Downwards(Uia2.Key(key)) == BitsOf(key)
  {
    hide MakeU32, BitsOfWord, BitsOf;
    Quarters(key);
    Quarter(key, 0);
    Quarter(key, 4);
    Quarter(key, 8);
    Quarter(key, 12);
  }

  lemma Quarter(key: seq<bv8>, i: nat)
    requires i + 4 <= |key|
    ensures BitsOf(key[i..i + 4]) == BitsOfWord(MakeU32(key[i], key[i + 1], key[i + 2], key[i + 3]))
  {
    hide *;
    WordOfOctets(key[i], key[i + 1], key[i + 2], key[i + 3]);
    assert key[i..i + 4] == [key[i], key[i + 1], key[i + 2], key[i + 3]];
    Cmac.FourOctets(key[i], key[i + 1], key[i + 2], key[i + 3]);
  }

  lemma Quarters(key: seq<bv8>)
    requires |key| == 16
    ensures BitsOf(key) == BitsOf(key[0..4]) + BitsOf(key[4..8]) + BitsOf(key[8..12]) + BitsOf(key[12..16])
  {
    hide *;
    assert key == key[0..4] + key[4..8] + key[8..12] + key[12..16];
    BitsOfJoin(key[0..4], key[4..8]);
    BitsOfJoin(key[0..4] + key[4..8], key[8..12]);
    BitsOfJoin(key[0..4] + key[4..8] + key[8..12], key[12..16]);
  }

  lemma WordXor(a: bv32, b: bv32)
    ensures BitsOfWord(Xor(a, b)) == Add(BitsOfWord(a), BitsOfWord(b))
  {
    Byte3Xor(a, b);
    Byte2Xor(a, b);
    Byte1Xor(a, b);
    Byte0Xor(a, b);
    hide Xor, Xor8, Byte0, Byte1, Byte2, Byte3, BitsOfOctet, Add;
    XorOctet(Byte3(a), Byte3(b));
    XorOctet(Byte2(a), Byte2(b));
    XorOctet(Byte1(a), Byte1(b));
    XorOctet(Byte0(a), Byte0(b));
    AddFour(BitsOfOctet(Byte3(a)), BitsOfOctet(Byte2(a)), BitsOfOctet(Byte1(a)), BitsOfOctet(Byte0(a)),
            BitsOfOctet(Byte3(b)), BitsOfOctet(Byte2(b)), BitsOfOctet(Byte1(b)), BitsOfOctet(Byte0(b)));
  }

  lemma AddFour(a: seq<bool>, b: seq<bool>, c: seq<bool>, d: seq<bool>, p: seq<bool>, q: seq<bool>, r: seq<bool>, s: seq<bool>)
    requires |a| == |p| && |b| == |q| && |c| == |r| && |d| == |s|
    ensures Add(a + b + c + d, p + q + r + s) == Add(a, p) + Add(b, q) + Add(c, r) + Add(d, s)
  {
  }

  lemma Byte3Xor(a: bv32, b: bv32)
    ensures Byte3(Xor(a, b)) == Xor8(Byte3(a), Byte3(b))
  {
  }
  lemma Byte2Xor(a: bv32, b: bv32)
    ensures Byte2(Xor(a, b)) == Xor8(Byte2(a), Byte2(b))
  {
  }
  lemma Byte1Xor(a: bv32, b: bv32)
    ensures Byte1(Xor(a, b)) == Xor8(Byte1(a), Byte1(b))
  {
  }
  lemma Byte0Xor(a: bv32, b: bv32)
    ensures Byte0(Xor(a, b)) == Xor8(Byte0(a), Byte0(b))
  {
  }

  // The bits 64 and 112 of a vector, which the direction turns.
  function Turned(flag: bool): (r: seq<bool>)
    ensures |r| == 128
  {
    Zeros(64) + [flag] + Zeros(47) + [flag] + Zeros(15)
  }

  // count and fresh, twice, with the direction added to the first bit of the second count and to the
  // first bit of the second half of the second fresh.
  lemma Uia2Vector(count: bv32, fresh_: bv32, dir: bv32)
    requires dir < 2
    ensures var h := BitsOfWord(count) + BitsOfWord(fresh_);
            Downwards(Uia2.Vector(count, fresh_, dir)) == Add(h + h, Turned(dir == 1))
  {
    hide BitsOfWord, Xor, Add;
    WordXor(count, dir << 31);
    WordXor(fresh_, dir << 15);
    Directions(dir);
    AddHalves(BitsOfWord(count), BitsOfWord(fresh_), dir == 1);
  }

  lemma Directions(dir: bv32)
    requires dir < 2
    ensures BitsOfWord(dir << 31) == [dir == 1] + Zeros(31)
    ensures BitsOfWord(dir << 15) == Zeros(16) + [dir == 1] + Zeros(15)
  {
    hide *;
    TopDirection();
    MiddleDirection();
    assert dir == 0 || dir == 1;
  }

  lemma TopDirection()
    ensures BitsOfWord(0 << 31) == [false] + Zeros(31) && BitsOfWord(1 << 31) == [true] + Zeros(31)
  {
  }

  lemma MiddleDirection()
    ensures BitsOfWord(0 << 15) == Zeros(16) + [false] + Zeros(15) && BitsOfWord(1 << 15) == Zeros(16) + [true] + Zeros(15)
  {
  }

  lemma AddHalves(c: seq<bool>, f: seq<bool>, flag: bool)
    requires |c| == |f| == 32
    ensures c + f + Add(c, [flag] + Zeros(31)) + Add(f, Zeros(16) + [flag] + Zeros(15)) == Add(c + f + (c + f), Turned(flag))
  {
  }

  // The bits in front of the message in 128-EIA2 are also the vectors of 128-EEA1 and 128-EEA3, twice.
  lemma Eea1Vector(count: bv32, bearer: bv8, direction: bv8)
    ensures var h := Cmac.Header(count, bearer, direction & 1);
            Downwards(Eea.Vector1(count, bearer, direction)) == h + h
  {
    BearerWord(bearer, direction);
    hide BitsOfWord;
  }

  lemma BearerWord(bearer: bv8, direction: bv8)
    ensures BitsOfWord(((bearer & 0x1F) as bv32 << 27) | ((direction & 1) as bv32 << 26)) ==
            BitsOfOctet(bearer)[3..] + [direction & 1 != 0] + Zeros(26)
  {
  }

  // The bits of an octet that is kept as a number.
  lemma OctetNumber(b: bv8)
    ensures ToBits(b as nat, 8) == BitsOfOctet(b)
  {
    hide *;
    LowBits(b, 8);
  }

  lemma {:induction false} LowBits(b: bv8, n: nat)
    requires n <= 8
    ensures ToBits(b as nat, n) == BitsOfOctet(b)[8 - n..]
  {
    LowHalf(b);
    hide BitsOfOctet;
    if n > 0 {
      LowBits(b >> 1, n - 1);
      Shifted(b, n);
    }
  }

  lemma LowHalf(b: bv8)
    ensures (b as nat) / 2 == (b >> 1) as nat && ((b as nat) % 2 == 1 <==> b & 1 == 1)
  {
  }

  lemma Shifted(b: bv8, n: nat)
    requires 0 < n <= 8
    ensures BitsOfOctet(b)[8 - n..] == BitsOfOctet(b >> 1)[8 - (n - 1)..] + [b & 1 == 1]
  {
    hide *;
    ShiftedOctet(b);
    LastBit(b);
    OneUp(BitsOfOctet(b), n);
  }

  lemma ShiftedOctet(b: bv8)
    ensures BitsOfOctet(b >> 1) == [false] + BitsOfOctet(b)[..7]
  {
    hide Bit8;
    ShiftedBits(b);
    FirstSeven(Bit8(b, 0x80), Bit8(b, 0x40), Bit8(b, 0x20), Bit8(b, 0x10), Bit8(b, 8), Bit8(b, 4), Bit8(b, 2), Bit8(b, 1));
  }

  lemma FirstSeven(a: bool, b: bool, c: bool, d: bool, e: bool, f: bool, g: bool, h: bool)
    ensures [false, a, b, c, d, e, f, g] == [false] + [a, b, c, d, e, f, g, h][..7]
  {
  }

  lemma ShiftedBits(b: bv8)
    ensures !Bit8(b >> 1, 0x80) && Bit8(b >> 1, 0x40) == Bit8(b, 0x80) && Bit8(b >> 1, 0x20) == Bit8(b, 0x40)
    ensures Bit8(b >> 1, 0x10) == Bit8(b, 0x20) && Bit8(b >> 1, 8) == Bit8(b, 0x10) && Bit8(b >> 1, 4) == Bit8(b, 8)
    ensures Bit8(b >> 1, 2) == Bit8(b, 4) && Bit8(b >> 1, 1) == Bit8(b, 2)
  {
  }

  lemma LastBit(b: bv8)
    ensures BitsOfOctet(b)[7] == (b & 1 == 1)
  {
  }

  lemma OneUp(x: seq<bool>, n: nat)
    requires 0 < n <= 8 && |x| == 8
    ensures x[8 - n..] == ([false] + x[..7])[8 - (n - 1)..] + [x[7]]
  {
  }

  lemma {:induction false} OctetNumbers(data: seq<bv8>, iv: seq<byte>)
    requires |iv| == |data| && forall i :: 0 <= i < |iv| ==> iv[i] == data[i] as nat
    ensures OctetBits(iv) == BitsOf(data)
  {
    hide ToBits, BitsOfOctet;
    if data != [] {
      var last := |data| - 1;
      OctetNumbers(data[..last], iv[..last]);
      OctetNumber(data[last]);
    }
  }

  // 128-EEA3 starts ZUC with the octets of the same bits.
  lemma Eea3Vector(count: bv32, bearer: bv8, direction: bv8)
    ensures var h := Cmac.Header(count, bearer, direction & 1);
            OctetBits(Eea.Vector3(count, bearer, direction)) == h + h
  {
    hide OctetBits, BitsOf, Byte3, Byte2, Byte1, Byte0, Cmac.HeaderOctets;
    var h := Cmac.HeaderOctets(count, bearer & 0x1F, direction & 1);
    OctetNumbers(h + h, Eea.Vector3(count, bearer, direction)) by { Vector3Octets(count, bearer, direction); }
    BitsOfJoin(h, h);
    Cmac.HeaderBits(count, bearer & 0x1F, direction & 1);
    HeaderBearer(count, bearer, direction & 1);
  }

  lemma Vector3Octets(count: bv32, bearer: bv8, direction: bv8)
    ensures var h := Cmac.HeaderOctets(count, bearer & 0x1F, direction & 1);
            forall i :: 0 <= i < 16 ==> Eea.Vector3(count, bearer, direction)[i] == (h + h)[i] as nat
  {
    hide Byte3, Byte2, Byte1, Byte0;
  }

  lemma HeaderBearer(count: bv32, bearer: bv8, direction: bv8)
    ensures Cmac.Header(count, bearer & 0x1F, direction) == Cmac.Header(count, bearer, direction)
  {
    LowFive(bearer);
    hide BitsOfWord, BitsOfOctet;
  }

  lemma LowFive(b: bv8)
    ensures BitsOfOctet(b & 0x1F)[3..] == BitsOfOctet(b)[3..]
  {
  }

  // 128-EIA3 has the direction where UIA2 has it.
  lemma Eia3Vector(count: bv32, bearer: bv8, direction: bv8)
    ensures var h := Cmac.Header(count, bearer, 0);
            OctetBits(Eia3.Vector(count, bearer, direction)) == Add(h + h, Turned(direction & 1 == 1))
  {
    hide OctetBits, BitsOf, Byte3, Byte2, Byte1, Byte0, Cmac.HeaderOctets, Add, Cmac.Header, Turned;
    var h, t := Cmac.HeaderOctets(count, bearer & 0x1F, 0), TurnedOctets(direction);
    var iv := AddOctets(h + h, t);
    OctetNumbers(iv, Eia3.Vector(count, bearer, direction)) by { EiaVectorOctets(count, bearer, direction); }
    Eea.AddedOctets(h + h, t, iv);
    BitsOfJoin(h, h);
    Cmac.HeaderBits(count, bearer & 0x1F, 0);
    HeaderBearer(count, bearer, 0);
    TurnedBits(direction);
  }

  function AddOctets(a: seq<bv8>, b: seq<bv8>): (r: seq<bv8>)
    requires |a| == |b|
    ensures |r| == |a|
  {
    seq(|a|, i requires 0 <= i < |a| => Xor8(a[i], b[i]))
  }

  function TurnedOctets(direction: bv8): (t: seq<bv8>)
    ensures |t| == 16
  {
    [0, 0, 0, 0, 0, 0, 0, 0, (direction & 1) << 7, 0, 0, 0, 0, 0, (direction & 1) << 7, 0]
  }

  lemma EiaVectorOctets(count: bv32, bearer: bv8, direction: bv8)
    ensures var h := Cmac.HeaderOctets(count, bearer & 0x1F, 0);
            forall i :: 0 <= i < 16 ==> Eia3.Vector(count, bearer, direction)[i] == AddOctets(h + h, TurnedOctets(direction))[i] as nat
  {
    hide *;
    var h := Cmac.HeaderOctets(count, bearer & 0x1F, 0);
    forall i | 0 <= i < 16
      ensures Eia3.Vector(count, bearer, direction)[i] == AddOctets(h + h, TurnedOctets(direction))[i] as nat
    {
      EiaVectorOctet(count, bearer, direction, i);
      SumOctet(h + h, TurnedOctets(direction), i);
    }
  }

  lemma SumOctet(a: seq<bv8>, b: seq<bv8>, i: nat)
    requires |a| == |b| && i < |a|
    ensures AddOctets(a, b)[i] == Xor8(a[i], b[i])
  {
  }

  lemma EiaVectorOctet(count: bv32, bearer: bv8, direction: bv8, i: nat)
    requires i < 16
    ensures var h := Cmac.HeaderOctets(count, bearer & 0x1F, 0);
            Eia3.Vector(count, bearer, direction)[i] == Xor8((h + h)[i], TurnedOctets(direction)[i]) as nat
  {
    hide *;
    var h, t := Cmac.HeaderOctets(count, bearer & 0x1F, 0), TurnedOctets(direction);
    TurnedIs(Byte3(count), direction);
    TurnedIs(0, direction);
    BearerIs(bearer);
    Self8(h[i % 8]);
    HeaderAt(count, bearer & 0x1F, i);
    TurnedAt(direction, i);
    VectorAt(count, bearer, direction, i);
  }

  lemma HeaderAt(count: bv32, bearer: bv8, i: nat)
    requires i < 16
    ensures var h := Cmac.HeaderOctets(count, bearer, 0);
            && (h + h)[i] == h[i % 8]
            && h[i % 8] == (if i % 8 == 0 then Byte3(count) else if i % 8 == 1 then Byte2(count) else if i % 8 == 2 then Byte1(count)
                            else if i % 8 == 3 then Byte0(count) else if i % 8 == 4 then Cmac.BearerOctet(bearer, 0) else 0)
  {
    hide Byte3, Byte2, Byte1, Byte0, Cmac.BearerOctet;
  }

  lemma TurnedAt(direction: bv8, i: nat)
    requires i < 16
    ensures TurnedOctets(direction)[i] == if i == 8 || i == 14 then (direction & 1) << 7 else 0
  {
  }

  lemma VectorAt(count: bv32, bearer: bv8, direction: bv8, i: nat)
    requires i < 16
    ensures Eia3.Vector(count, bearer, direction)[i] ==
            if i == 8 then Eia3.Turned(Byte3(count), direction)
            else if i == 14 then Eia3.Turned(0, direction)
            else if i % 8 == 0 then Byte3(count) as nat
            else if i % 8 == 1 then Byte2(count) as nat
            else if i % 8 == 2 then Byte1(count) as nat
            else if i % 8 == 3 then Byte0(count) as nat
            else if i % 8 == 4 then Eia3.Octet4(bearer) else (0 as bv8) as nat
  {
    hide Byte3, Byte2, Byte1, Byte0, Eia3.Turned, Eia3.Octet4;
  }

  lemma TurnedIs(b: bv8, direction: bv8)
    ensures Eia3.Turned(b, direction) == Xor8(b, (direction & 1) << 7) as nat
  {
  }

  lemma BearerIs(bearer: bv8)
    ensures Eia3.Octet4(bearer) == Cmac.BearerOctet(bearer & 0x1F, 0) as nat
  {
  }

  lemma TurnedBits(direction: bv8)
    ensures BitsOf(TurnedOctets(direction)) == Turned(direction & 1 == 1)
  {
    hide BitsOfOctet, BitsOf;
    var t, x := TurnedOctets(direction), Turned(direction & 1 == 1);
    ZeroOctet();
    FlagOctet(direction);
    forall i: nat | i < 16 ensures BitsOfOctet(t[i]) == Piece(x, i) {
      assert Piece(x, i)[0] == ((i == 8 || i == 14) && direction & 1 == 1);
    }
    BitsAre(t, x);
  }

  lemma FlagOctet(direction: bv8)
    ensures BitsOfOctet((direction & 1) << 7) == [direction & 1 == 1] + Zeros(7)
  {
  }

  // A cell of ZUC is loaded with an octet of the key, fifteen bits of a constant, and an octet of the vector.
  lemma LoadedCellBits(k: seq<byte>, iv: seq<byte>, i: nat)
    requires |k| == 16 && |iv| == 16 && i < 16
    ensures ToBits(Zuc.LoadedCell(k, iv, i), 31) == ToBits(k[i], 8) + ToBits(Zuc.EK_D[i], 15) + ToBits(iv[i], 8)
  {
    hide ToBits;
    assert Zuc.EK_D[i] < 0x8000;
    CellFields(k[i], Zuc.EK_D[i], iv[i]);
  }

  lemma CellFields(a: nat, d: nat, b: nat)
    requires a < 0x100 && d < 0x8000 && b < 0x100
    ensures ToBits(a * 0x80_0000 + d * 0x100 + b, 31) == ToBits(a, 8) + ToBits(d, 15) + ToBits(b, 8)
  {
    hide *;
    Powers();
    Times32768(a);
    ShlByte(32768 * a + d);
    ToBitsJoin(a, d, 8, 15);
    ToBitsJoin(32768 * a + d, b, 23, 8);
    assert a * 0x80_0000 + d * 0x100 + b == 256 * (32768 * a + d) + b;
  }

  lemma Powers()
    ensures Pow2(8) == 256 && Pow2(15) == 32768
  {
    assert Pow2(4) == 16;
    assert Pow2(10) == 1024;
    assert Pow2(12) == 4096;
  }

  lemma Times32768(v: nat)
    ensures Shl(v, 15) == 32768 * v
  {
    ShlByte(v);
    ShlShl(v, 8, 7);
    ShlByte(256 * v);
    assert Shl(256 * v, 8) == 2 * Shl(256 * v, 7);
  }

  // The octets of a key stream are the bits of its words, in order.
  lemma StreamIsWords(ks: seq<bv32>, i: nat)
    requires i < |ks|
    ensures BitsOf(Eea.Stream(ks, 4 * |ks|))[32 * i..32 * i + 32] == BitsOfWord(ks[i])
  {
    hide BitsOf, Byte3, Byte2, Byte1, Byte0, BitsOfOctet, Eea.StreamOctet;
    var s := Eea.Stream(ks, 4 * |ks|);
    var x := BitsOf(s);
    Eea.WordOctets(ks, i);
    BitsAt(s, 4 * i);
    BitsAt(s, 4 * i + 1);
    BitsAt(s, 4 * i + 2);
    BitsAt(s, 4 * i + 3);
    FourPieces(x, i);
  }

  lemma FourPieces(x: seq<bool>, i: nat)
    requires 32 * i + 32 <= |x|
    ensures x[32 * i..32 * i + 32] == Piece(x, 4 * i) + Piece(x, 4 * i + 1) + Piece(x, 4 * i + 2) + Piece(x, 4 * i + 3)
  {
  }
}
