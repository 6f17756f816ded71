/** AES-CMAC (section 2.4 of RFC 4493, on bit strings) and the two forms of the integrity algorithm
    128-EIA2 that compute it (liblte_security.cc).  The block cipher is any function on blocks. */
module Cmac {
  import opened BitStrings
  import opened Gf2
  import opened Octet
  import opened OctetStrings
  import opened Word32

  type Block = b: seq<bv8> | |b| == 16 witness seq(16, i => 0)

  // ----- Octets and bits -----

  function Flag(b: bool, mask: bv8): bv8 {
    if b then mask else 0
  }

  function Nibbles(b7: bool, b6: bool, b5: bool, b4: bool, b3: bool, b2: bool, b1: bool, b0: bool): bv8 {
    Flag(b7, 0x80) | Flag(b6, 0x40) | Flag(b5, 0x20) | Flag(b4, 0x10) | Flag(b3, 8) | Flag(b2, 4) | Flag(b1, 2) | Flag(b0, 1)
  }

  lemma NibbleBits(b7: bool, b6: bool, b5: bool, b4: bool, b3: bool, b2: bool, b1: bool, b0: bool)
    ensures var r := Nibbles(b7, b6, b5, b4, b3, b2, b1, b0);
            && Bit8(r, 0x80) == b7 && Bit8(r, 0x40) == b6 && Bit8(r, 0x20) == b5 && Bit8(r, 0x10) == b4
            && Bit8(r, 8) == b3 && Bit8(r, 4) == b2 && Bit8(r, 2) == b1 && Bit8(r, 1) == b0
  {
  }

  function OctetOf(s: seq<bool>): bv8
    requires |s| == 8
  {
    Nibbles(s[0], s[1], s[2], s[3], s[4], s[5], s[6], s[7])
  }

  lemma OctetOfBits(s: seq<bool>)
    requires |s| == 8
    ensures BitsOfOctet(OctetOf(s)) == s
  {
    hide Nibbles, Bit8, BitsOfOctet;
    NibbleBits(s[0], s[1], s[2], s[3], s[4], s[5], s[6], s[7]);
    forall i: nat | i < 8 ensures BitsOfOctet(OctetOf(s))[i] == s[i] {
      BitAt(OctetOf(s), i);
    }
  }

  function BlockOf(x: seq<bool>): (b: Block)
    requires |x| == 128
  {
    seq(16, i requires 0 <= i < 16 => OctetOf(x[8 * i..8 * i + 8]))
  }

  lemma BlockOfBits(b: Block)
    ensures BlockOf(BitsOf(b)) == b
  {
    hide BitsOfOctet, BitsOf, OctetOf;
    forall i | 0 <= i < 16 ensures BlockOf(BitsOf(b))[i] == b[i] {
      BitsAt(b, i);
      OctetOfBits(BitsOf(b)[8 * i..8 * i + 8]);
      BitsOfOctetInjective(BlockOf(BitsOf(b))[i], b[i]);
    }
  }

  // ----- The algorithm of the RFC -----

  // The cipher on strings of 128 bits.
  function Encrypt(aes: Block -> Block, x: seq<bool>): (r: seq<bool>)
    requires |x| == 128
    ensures |r| == 128
  {
    BitsOf(aes(BlockOf(x)))
  }

  const RB: seq<bool> := Zeros(120) + [true, false, false, false, false, true, true, true]

  function Subkey1(aes: Block -> Block): (k: seq<bool>)
    ensures |k| == 128
  {
    MulX(Encrypt(aes, Zeros(128)), RB)
  }

  function Subkey2(aes: Block -> Block): (k: seq<bool>)
    ensures |k| == 128
  {
    MulX(Subkey1(aes), RB)
  }

  // The blocks of a message of n bits; the empty message has one.
  function BlockCount(n: nat): (k: nat)
    ensures 0 < k && 128 * (k - 1) <= n <= 128 * k
  {
    if n == 0 then 1 else (n + 127) / 128
  }

  function LastBlock(aes: Block -> Block, m: seq<bool>): (r: seq<bool>)
    ensures |r| == 128
  {
    var last := m[128 * (BlockCount(|m|) - 1)..];
    if |last| == 128 then Add(last, Subkey1(aes)) else Add(last + [true] + Zeros(127 - |last|), Subkey2(aes))
  }

  function Chain(aes: Block -> Block, m: seq<bool>, i: nat): (x: seq<bool>)
    requires 128 * i <= |m|
    ensures |x| == 128
  {
    if i == 0 then Zeros(128) else Encrypt(aes, Add(Chain(aes, m, i - 1), m[128 * (i - 1)..128 * i]))
  }

  function Tag(aes: Block -> Block, m: seq<bool>): (t: seq<bool>)
    ensures |t| == 128
  {
    Encrypt(aes, Add(LastBlock(aes, m), Chain(aes, m, BlockCount(|m|) - 1)))
  }

  // The cipher that adds a constant block.
  function Adding(k: Block): Block -> Block {
    (b: Block) => seq(16, i requires 0 <= i < 16 => Xor8(b[i], k[i]))
  }

  lemma EncryptAdding(k: Block, x: seq<bool>)
    requires |x| == 128
    ensures Encrypt(Adding(k), x) == Add(x, BitsOf(k))
  {
    hide BitsOfOctet, BitsOf, OctetOf, Xor8;
    var b := BlockOf(x);
    var y := Add(x, BitsOf(k));
    forall i: nat | i < 16 ensures BitsOfOctet(Adding(k)(b)[i]) == Piece(y, i) {
      XorOctet(b[i], k[i]);
      OctetOfBits(x[8 * i..8 * i + 8]);
      BitsAt(k, i);
      AddPiece(x, BitsOf(k), i);
    }
    BitsAre(Adding(k)(b), y);
  }

  // With a cipher that adds k, a message of one block gets its own bits, k, and k times x if the
  // block is full or, with the padding, k times x squared if it is not.
  lemma TagOfOneBlock(k: Block, m: seq<bool>)
    requires |m| <= 128
    ensures var c := BitsOf(k);
            Tag(Adding(k), m) ==
            if |m| == 128 then Add(Add(m, MulX(c, RB)), c)
            else Add(Add(m + [true] + Zeros(127 - |m|), MulX(MulX(c, RB), RB)), c)
  {
    hide BitsOf, Encrypt, Adding, MulX;
    EncryptAdding(k, Zeros(128));
    AddZero(BitsOf(k));
    var last := LastBlock(Adding(k), m);
    AddZero(last);
    EncryptAdding(k, last);
    assert m[128 * (BlockCount(|m|) - 1)..] == m;
    hide Add, Zeros;
  }

  // And each block in front of the last one is added once more, with k.
  lemma TagOfTwoBlocks(k: Block, a: seq<bool>, m: seq<bool>)
    requires |a| == 128 && 0 < |m| <= 128
    ensures Tag(Adding(k), a + m) == Add(Tag(Adding(k), m), Add(a, BitsOf(k)))
  {
    hide BitsOf, Encrypt, Adding, MulX;
    var aes, c := Adding(k), BitsOf(k);
    TwoBlocks(aes, a, m);
    AddZero(a);
    EncryptAdding(k, a);
    var last := LastBlock(aes, m);
    AddZero(last);
    EncryptAdding(k, last);
    EncryptAdding(k, Add(last, Add(a, c)));
    Aside(last, Add(a, c), c);
    OneBlock(aes, m);
  }

  lemma Aside(x: seq<bool>, y: seq<bool>, c: seq<bool>)
    requires |x| == |y| == |c|
    ensures Add(Add(x, y), c) == Add(Add(x, c), y)
  {
  }

  lemma OneBlock(aes: Block -> Block, m: seq<bool>)
    requires |m| <= 128
    ensures Tag(aes, m) == Encrypt(aes, Add(LastBlock(aes, m), Zeros(128)))
  {
    hide Encrypt, Add, LastBlock, Zeros;
  }

  lemma TwoBlocks(aes: Block -> Block, a: seq<bool>, m: seq<bool>)
    requires |a| == 128 && 0 < |m| <= 128
    ensures Tag(aes, a + m) == Encrypt(aes, Add(LastBlock(aes, m), Encrypt(aes, Add(Zeros(128), a))))
  {
    hide Encrypt, Add, Zeros, MulX, Subkey1, Subkey2;
    assert BlockCount(|a + m|) == 2;
    assert (a + m)[128..] == m && m[0..] == m;
    assert (a + m)[0..128] == a;
    assert Chain(aes, a + m, 0) == Zeros(128);
    assert Chain(aes, a + m, 1) == Encrypt(aes, Add(Zeros(128), a));
  }

  // What 128-EIA2 authenticates in front of the message.
  function Header(count: bv32, bearer: bv8, direction: bv8): (h: seq<bool>)
    ensures |h| == 64
  {
    BitsOfWord(count) + BitsOfOctet(bearer)[3..] + [direction != 0] + Zeros(26)
  }

  // ----- The code -----

  lemma BlockBits(aes: Block -> Block, b: Block)
    ensures Encrypt(aes, BitsOf(b)) == BitsOf(aes(b))
  {
    BlockOfBits(b);
  }

  lemma ShiftedOctet(a: bv8, b: bv8)
    ensures BitsOfOctet((a << 1) | ((b >> 7) & 1)) == BitsOfOctet(a)[1..] + [BitsOfOctet(b)[0]]
    ensures BitsOfOctet(a << 1) == BitsOfOctet(a)[1..] + [false]
  {
  }

  // Doubles a block: from L the first subkey, and from that one the second.
  method Double(l: array<bv8>, k: array<bv8>)
    requires l.Length == k.Length == 16 && l != k
    modifies k
    ensures BitsOf(k[..]) == MulX(BitsOf(l[..]), RB)
  {
    hide BitsOfOctet, BitsOf, Bit8;
    for i := 0 to 15
      invariant forall j :: 0 <= j < i ==> k[j] == (l[j] << 1) | ((l[j + 1] >> 7) & 1)
    {
      k[i] := (l[i] << 1) | ((l[i + 1] >> 7) & 1);
    }
    k[15] := l[15] << 1;
    ghost var shifted := k[..];
    ShiftedBits(l[..], shifted);
    if l[0] & 0x80 != 0 {
      k[15] := Xor8(k[15], 0x87);
    }
    DoubledBits(l[..], shifted, k[..]);
  }

  lemma ShiftPiece(y: seq<bool>, i: nat)
    requires |y| == 128 && i < 16
    ensures Piece(y[1..] + [false], i) == Piece(y, i)[1..] + [if i < 15 then Piece(y, i + 1)[0] else false]
  {
    var x := y[1..] + [false];
    forall j | 0 <= j < 8 ensures Piece(x, i)[j] == (8 * i + j < 127 && y[8 * i + j + 1]) {
      assert Piece(x, i)[j] == x[8 * i + j];
    }
    forall j | 0 <= j < 7 ensures Piece(y, i)[1..][j] == y[8 * i + j + 1] {
      assert Piece(y, i)[1 + j] == y[8 * i + (1 + j)];
    }
  }

  lemma ShiftedBits(l: seq<bv8>, k: seq<bv8>)
    requires |l| == |k| == 16 && k[15] == l[15] << 1
    requires forall j :: 0 <= j < 15 ==> k[j] == (l[j] << 1) | ((l[j + 1] >> 7) & 1)
    ensures BitsOf(k) == BitsOf(l)[1..] + [false]
  {
    hide BitsOfOctet, BitsOf, Bit8, Piece;
    var x := BitsOf(l)[1..] + [false];
    forall i | 0 <= i < 16 ensures BitsOfOctet(k[i]) == Piece(x, i) {
      BitsAt(l, i);
      ShiftPiece(BitsOf(l), i);
      ShiftedOctet(l[i], if i < 15 then l[i + 1] else 0);
      if i < 15 {
        BitsAt(l, i + 1);
      }
    }
    BitsAre(k, x);
  }

  lemma DoubledBits(l: seq<bv8>, shifted: seq<bv8>, k: seq<bv8>)
    requires |l| == |shifted| == |k| == 16 && BitsOf(shifted) == BitsOf(l)[1..] + [false]
    requires k == if l[0] & 0x80 != 0 then shifted[15 := Xor8(shifted[15], 0x87)] else shifted
    ensures BitsOf(k) == MulX(BitsOf(l), RB)
  {
    hide BitsOfOctet, BitsOf, Xor8;
    BitsAt(l, 0);
    BitAt(l[0], 0);
    assert BitsOf(l)[0] == BitsOf(l)[0..8][0] == Bit8(l[0], 0x80);
    if l[0] & 0x80 != 0 {
      var x := Add(BitsOf(shifted), RB);
      forall i | 0 <= i < 16 ensures BitsOfOctet(k[i]) == Piece(x, i) {
        BitsAt(shifted, i);
        XorOctet(shifted[15], 0x87);
        LowRb();
        AddSlice(BitsOf(shifted), RB, 8 * i, 8 * i + 8);
        if i < 15 {
          assert RB[8 * i..8 * i + 8] == Zeros(8);
          AddZero(BitsOf(shifted)[8 * i..8 * i + 8]);
        }
      }
      BitsAre(k, x);
    }
  }

  lemma LowRb()
    ensures RB[120..128] == BitsOfOctet(0x87)
  {
  }

  lemma AddSlice(a: seq<bool>, b: seq<bool>, i: nat, j: nat)
    requires |a| == |b| && i <= j <= |a|
    ensures Add(a, b)[i..j] == Add(a[i..j], b[i..j])
  {
  }

  // tmp := t ^ m[k..k + 16]
  method XorBlock(t: array<bv8>, m: array<bv8>, k: nat, tmp: array<bv8>)
    requires t.Length == tmp.Length == 16 && k + 16 <= m.Length && tmp != t && tmp != m
    modifies tmp
    ensures BitsOf(tmp[..]) == Add(BitsOf(t[..]), BitsOf(m[..])[8 * k..8 * k + 128])
  {
    hide BitsOfOctet, BitsOf, Xor8, Piece, Add;
    for j := 0 to 16
      invariant forall i :: 0 <= i < j ==> tmp[i] == Xor8(t[i], m[k + i])
    {
      tmp[j] := Xor8(t[j], m[k + j]);
    }
    var x := BitsOf(m[..])[8 * k..8 * k + 128];
    forall i | 0 <= i < 16 ensures BitsOfOctet(tmp[..][i]) == Piece(Add(BitsOf(t[..]), x), i) {
      BitsAt(t[..], i);
      BitsAt(m[..], k + i);
      XorOctet(t[i], m[k + i]);
      AddPiece(BitsOf(t[..]), x, i);
      PieceOfSlice(BitsOf(m[..]), k, 16, i);
    }
    BitsAre(tmp[..], Add(BitsOf(t[..]), x));
  }

  // ----- The message, padded -----

  function Or(a: bv8, b: bv8): bv8 {
    a | b
  }

  lemma OrBit(b: bv8, c: bv8, m: bv8)
    requires OneBit(c) && OneBit(m)
    ensures Bit8(Or(b, c), m) == (Bit8(b, m) || c == m)
  {
  }

  lemma OrMask(b: bv8, s: nat, i: nat)
    requires s < 8 && i < 8
    ensures BitsOfOctet(Or(b, Mask(s)))[i] == (BitsOfOctet(b)[i] || i == s)
  {
    hide *;
    Masks(s, i);
    Masks(i, s);
    BitAt(b, i);
    BitAt(Or(b, Mask(s)), i);
    OrBit(b, Mask(s), Mask(i));
  }

  // An octet whose bits from s on are zero, with bit s set.
  lemma SetBit(b: bv8, s: nat)
    requires s < 8 && BitsOfOctet(b)[s..] == Zeros(8 - s)
    ensures BitsOfOctet(Or(b, Mask(s))) == BitsOfOctet(b)[..s] + [true] + Zeros(7 - s)
  {
    hide BitsOfOctet, Bit8, Mask, Or;
    var before, x, y := BitsOfOctet(b), BitsOfOctet(Or(b, Mask(s))), BitsOfOctet(b)[..s] + [true] + Zeros(7 - s);
    forall i: nat | i < 8 ensures x[i] == y[i] {
      OrMask(b, s, i);
      if i > s {
        assert before[s..][i - s] == before[i];
      }
    }
  }

  // The bit that the code sets: 0x1 << (pad_bits % 8)
  lemma PadBit(r: nat)
    requires r < 128
    ensures var pad := 127 - r; 15 - pad / 8 == r / 8 && (1 as bv8) << (pad % 8) == Mask(r % 8)
  {
    var k: nat := 7 - r % 8;
    assert (127 - r) % 8 == k;
    assert (1 as bv8) << k == Mask(7 - k) by { ShiftedOne(k); }
  }

  lemma ShiftedOne(k: nat)
    requires k < 8
    ensures (1 as bv8) << k == Mask(7 - k)
  {
  }

  // m fills k octets and s bits of the next one; then come zeros, or one more bit and zeros.
  ghost predicate Ends(m: seq<bool>, k: nat, s: nat, before: seq<bool>, after: seq<bool>) {
    && |m| == 8 * k + s && s < 8 && |m| < |before| == |after|
    && before == m + Zeros(|before| - |m|)
    && after == m + [true] + Zeros(|before| - |m| - 1)
  }

  lemma PaddedPiece(m: seq<bool>, k: nat, s: nat, before: seq<bool>, after: seq<bool>, i: nat)
    requires Ends(m, k, s, before, after) && 8 * i + 8 <= |before|
    ensures i == k ==> Piece(before, i)[s..] == Zeros(8 - s) && Piece(after, i) == Piece(before, i)[..s] + [true] + Zeros(7 - s)
    ensures i != k ==> Piece(after, i) == Piece(before, i)
  {
    forall j | 0 <= j < 8
      ensures Piece(before, i)[j] == (8 * i + j < |m| && m[8 * i + j])
      ensures Piece(after, i)[j] == if 8 * i + j < |m| then m[8 * i + j] else 8 * i + j == |m|
    {
      assert Piece(before, i)[j] == before[8 * i + j];
      assert Piece(after, i)[j] == after[8 * i + j];
    }
    hide Piece;
  }

  lemma WithZeros(m: seq<bool>, k: nat, s: nat, n: nat)
    requires |m| == 8 * k + s && s < 8 && k < n
    ensures Ends(m, k, s, m + Zeros(8 * n - |m|), m + [true] + Zeros(8 * n - |m| - 1))
  {
    hide Zeros;
  }

  // Setting bit s of octet k, with zeros behind the message.
  lemma Padded(data: seq<bv8>, m: seq<bool>, k: nat, s: nat, padded: seq<bv8>, after: seq<bool>)
    requires k < |data| && s < 8 && Ends(m, k, s, BitsOf(data), after)
    requires padded == data[k := Or(data[k], Mask(s))] && |after| == 8 * |data|
    ensures BitsOf(padded) == after
  {
    hide *;
    forall i | 0 <= i < |padded| ensures BitsOfOctet(padded[i]) == Piece(after, i) {
      BitsAt(data, i);
      PaddedPiece(m, k, s, BitsOf(data), after, i);
      if i == k {
        SetBit(data[k], s);
      }
    }
    BitsAre(padded, after);
  }

  // ----- MAC generation -----

  // aes_crypt_ecb
  method Crypt(aes: Block -> Block, input: array<bv8>, output: array<bv8>)
    requires input.Length == output.Length == 16
    modifies output
    ensures BitsOf(output[..]) == Encrypt(aes, old(BitsOf(input[..])))
  {
    hide BitsOf, Encrypt;
    var b: Block := input[..];
    var c := aes(b);
    for i := 0 to 16
      invariant forall j :: 0 <= j < i ==> output[j] == c[j]
    {
      output[i] := c[i];
    }
    assert output[..] == c;
    BlockBits(aes, b);
  }

  method Subkeys(aes: Block -> Block) returns (k1: array<bv8>, k2: array<bv8>)
    ensures fresh(k1) && fresh(k2) && k1 != k2 && k1.Length == k2.Length == 16
    ensures BitsOf(k1[..]) == Subkey1(aes) && BitsOf(k2[..]) == Subkey2(aes)
  {
    hide BitsOf, Encrypt, MulX;
    var zero := new bv8[16](i => 0);
    var l := new bv8[16](i => 0);
    ZeroOctets(zero[..]);
    Crypt(aes, zero, l);
    k1 := new bv8[16](i => 0);
    Double(l, k1);
    k2 := new bv8[16](i => 0);
    Double(k1, k2);
  }

  lemma {:induction false} ZeroOctets(z: seq<bv8>)
    requires forall i :: 0 <= i < |z| ==> z[i] == 0
    ensures BitsOf(z) == Zeros(8 * |z|)
  {
    if z != [] {
      ZeroOctets(z[..|z| - 1]);
    }
  }

  // All blocks but the last.
  method ChainBlocks(aes: Block -> Block, m: array<bv8>, n: nat, ghost msg: seq<bool>) returns (t: array<bv8>)
    requires 128 * n <= |msg| <= 8 * m.Length && BitsOf(m[..]) == msg + Zeros(8 * m.Length - |msg|)
    ensures fresh(t) && t.Length == 16 && BitsOf(t[..]) == Chain(aes, msg, n)
  {
    hide BitsOf, Encrypt;
    t := new bv8[16](i => 0);
    var tmp := new bv8[16](i => 0);
    ZeroOctets(t[..]);
    for i := 0 to n
      invariant BitsOf(t[..]) == Chain(aes, msg, i)
    {
      XorBlock(t, m, i * 16, tmp);
      assert BitsOf(m[..])[128 * i..128 * i + 128] == msg[128 * i..128 * i + 128];
      Crypt(aes, tmp, t);
    }
  }

  // The block at octet i, and a subkey.
  method LastXor(t: array<bv8>, k: array<bv8>, m: array<bv8>, i: nat, ghost block: seq<bool>) returns (last: array<bv8>)
    requires t.Length == k.Length == 16 && i + 16 <= m.Length
    requires BitsOf(m[..])[8 * i..8 * i + 128] == block
    ensures fresh(last) && last.Length == 16 && BitsOf(last[..]) == Add(Add(block, BitsOf(k[..])), BitsOf(t[..]))
  {
    hide BitsOf;
    var tmp := new bv8[16](j => 0);
    last := new bv8[16](j => 0);
    XorBlock(t, k, 0, tmp);
    XorBlock(tmp, m, i, last);
    assert BitsOf(k[..])[0..128] == BitsOf(k[..]);
    SwapSum(BitsOf(t[..]), BitsOf(k[..]), block);
  }

  lemma WhichOctet(nBits: nat, q: nat, r: nat)
    requires nBits == 128 * q + r && 0 < r < 128
    ensures nBits % 128 == r && (nBits + 127) / 128 == q + 1
    ensures nBits / 8 == 16 * q + r / 8 && nBits % 8 == r % 8
  {
    var s, u := r / 8, r % 8;
    assert nBits == 8 * (16 * q + s) + u;
  }

  lemma WhichBlock(nBits: nat, n: nat)
    requires 0 < nBits && n == (nBits + 127) / 128
    ensures n == BlockCount(nBits) && 0 < nBits - 128 * (n - 1) <= 128
    ensures nBits % 128 == 0 <==> nBits - 128 * (n - 1) == 128
  {
  }

  // Sets the bit behind the message.
  method PadMessage(m: array<bv8>, nBits: nat, n: nat, ghost msg: seq<bool>)
    requires nBits == |msg| < 8 * m.Length && BitsOf(m[..]) == msg + Zeros(8 * m.Length - nBits)
    requires nBits % 128 != 0 && n == (nBits + 127) / 128
    modifies m
    ensures BitsOf(m[..]) == msg + [true] + Zeros(8 * m.Length - nBits - 1)
  {
    hide BitsOf, Mask, Or, Ends, Zeros;
    WhichOctet(nBits, nBits / 128, nBits % 128);
    PadBit(nBits % 128);
    var padBits := 128 - nBits % 128 - 1;
    var k := (n - 1) * 16 + (15 - padBits / 8);
    m[k] := Or(m[k], (1 as bv8) << (padBits % 8));
    WithZeros(msg, k, nBits % 8, m.Length);
    Padded(old(m[..]), msg, k, nBits % 8, m[..], msg + [true] + Zeros(8 * m.Length - nBits - 1));
  }

  lemma LastBits(msg: seq<bool>, mark: seq<bool>, zeros: nat, n: nat)
    requires 0 < n && 128 * (n - 1) <= |msg| && |msg| + |mark| <= 128 * n <= |msg| + |mark| + zeros
    ensures (msg + mark + Zeros(zeros))[128 * (n - 1)..128 * (n - 1) + 128] ==
            msg[128 * (n - 1)..] + mark + Zeros(128 * n - |msg| - |mark|)
    ensures mark == [] ==> msg + mark == msg
    ensures mark == [] && 128 * n == |msg| ==> msg[128 * (n - 1)..] + mark + Zeros(0) == msg[128 * (n - 1)..]
  {
  }

  // m holds the message, followed by zeros.
  method Mac(aes: Block -> Block, m: array<bv8>, nBits: nat, k1: array<bv8>, k2: array<bv8>, ghost msg: seq<bool>)
    returns (mac: seq<bv8>)
    requires 0 < nBits == |msg| && nBits + 128 <= 8 * m.Length && k1.Length == k2.Length == 16
    requires BitsOf(m[..]) == msg + Zeros(8 * m.Length - nBits)
    requires BitsOf(k1[..]) == Subkey1(aes) && BitsOf(k2[..]) == Subkey2(aes) && k1 != m && k2 != m
    modifies m
    ensures BitsOf(mac) == Tag(aes, msg)[..32]
  {
    hide BitsOf, Encrypt, Subkey1, Subkey2, Mask, Chain, Zeros, Add;
    var n := (nBits + 127) / 128;
    var t := ChainBlocks(aes, m, n - 1, msg);
    WhichBlock(nBits, n);
    var last;
    ghost var rest := msg[128 * (n - 1)..];
    if nBits % 128 == 0 {
      LastBits(msg, [], 8 * m.Length - nBits, n);
      last := LastXor(t, k1, m, (n - 1) * 16, rest);
    } else {
      PadMessage(m, nBits, n, msg);
      ghost var block := rest + [true] + Zeros(127 - |rest|);
      LastBits(msg, [true], 8 * m.Length - nBits - 1, n);
      last := LastXor(t, k2, m, (n - 1) * 16, block);
    }
    Crypt(aes, last, t);
    mac := t[..4];
    FirstOctets(t[..], 4);
  }

  lemma SwapSum(t: seq<bool>, k: seq<bool>, m: seq<bool>)
    requires |t| == |k| == |m|
    ensures Add(Add(t, k), m) == Add(Add(m, k), t)
  {
  }

  // ----- The two forms of 128-EIA2 -----

  function BearerOctet(bearer: bv8, direction: bv8): bv8 {
    (bearer << 3) | (direction << 2)
  }

  lemma BearerBits(bearer: bv8, direction: bv8)
    requires direction < 2
    ensures BitsOfOctet(BearerOctet(bearer, direction)) == BitsOfOctet(bearer)[3..] + [direction != 0, false, false]
  {
  }

  // count, bearer and direction as the code lays them out
  function HeaderOctets(count: bv32, bearer: bv8, direction: bv8): (h: seq<bv8>)
    ensures |h| == 8
  {
    [Byte3(count), Byte2(count), Byte1(count), Byte0(count)] + [BearerOctet(bearer, direction), 0, 0, 0]
  }

  lemma HeaderBits(count: bv32, bearer: bv8, direction: bv8)
    requires direction < 2
    ensures BitsOf(HeaderOctets(count, bearer, direction)) == Header(count, bearer, direction)
  {
    hide BitsOf, BitsOfOctet, BearerOctet;
    var b := BearerOctet(bearer, direction);
    BearerBits(bearer, direction);
    BitsOfJoin([Byte3(count), Byte2(count), Byte1(count), Byte0(count)], [b, 0, 0, 0]);
    FourOctets(Byte3(count), Byte2(count), Byte1(count), Byte0(count));
    FourOctets(b, 0, 0, 0);
    ZeroOctet();
    hide Byte3, Byte2, Byte1, Byte0;
  }

  lemma FourOctets(a: bv8, b: bv8, c: bv8, d: bv8)
    ensures BitsOf([a, b, c, d]) == BitsOfOctet(a) + BitsOfOctet(b) + BitsOfOctet(c) + BitsOfOctet(d)
  {
    hide BitsOfOctet;
    assert [a, b, c, d][..3] == [a, b, c];
    assert [a, b, c][..2] == [a, b];
    assert [a, b][..1] == [a];
    assert BitsOf([a]) == BitsOfOctet(a) by { assert [a][..0] == []; }
    assert BitsOf([a, b]) == BitsOfOctet(a) + BitsOfOctet(b);
  }

  // The first 32 bits of the AES-CMAC over count, bearer, direction, 26 zeros and the message.
  method Eia2(aes: Block -> Block, count: bv32, bearer: bv8, direction: bv8, msg: seq<bv8>) returns (mac: seq<bv8>)
    requires direction < 2
    ensures BitsOf(mac) == Tag(aes, Header(count, bearer, direction) + BitsOf(msg))[..32]
  {
    hide BitsOf, BitsOfOctet, Tag, Header, Byte3, Byte2, Byte1, Byte0;
    var k1, k2 := Subkeys(aes);
    var m := new bv8[|msg| + 8 + 16](i => 0);
    StartMessage(m, count, bearer, direction);
    ghost var s1, s2 := k1[..], k2[..];
    for i := 0 to |msg|
      modifies m
      invariant m[..8] == HeaderOctets(count, bearer, direction)
      invariant forall j :: 0 <= j < i ==> m[8 + j] == msg[j]
      invariant forall j :: 8 + i <= j < m.Length ==> m[j] == 0
    {
      m[8 + i] := msg[i];
    }
    assert k1[..] == s1 && k2[..] == s2;
    assert m[..] == m[..8] + msg + m[8 + |msg|..];
    HeaderBits(count, bearer, direction);
    BitsOfJoin(m[..8] + msg, m[8 + |msg|..]);
    BitsOfJoin(m[..8], msg);
    ZeroOctets(m[8 + |msg|..]);
    mac := Mac(aes, m, 8 * |msg| + 64, k1, k2, Header(count, bearer, direction) + BitsOf(msg));
  }

  method StartMessage(m: array<bv8>, count: bv32, bearer: bv8, direction: bv8)
    requires 8 <= m.Length && forall j :: 0 <= j < m.Length ==> m[j] == 0
    modifies m
    ensures m[..8] == HeaderOctets(count, bearer, direction)
    ensures forall j :: 8 <= j < m.Length ==> m[j] == 0
  {
    hide Byte3, Byte2, Byte1, Byte0, BearerOctet;
    m[0] := Byte3(count);
    m[1] := Byte2(count);
    m[2] := Byte1(count);
    m[3] := Byte0(count);
    m[4] := BearerOctet(bearer, direction);
  }

  // A message of bits, one in each octet.
  predicate IsBits(msg: seq<bv8>) {
    forall i :: 0 <= i < |msg| ==> msg[i] == 0 || msg[i] == 1
  }

  function Flags(msg: seq<bv8>): (r: seq<bool>)
    ensures |r| == |msg|
  {
    seq(|msg|, i requires 0 <= i < |msg| => msg[i] == 1)
  }

  lemma ShiftedFlag(b: bv8, j: nat)
    requires (b == 0 || b == 1) && j < 8
    ensures b << (7 - j) == if b == 1 then Mask(j) else 0
  {
    if b == 1 {
      ShiftedOne(7 - j);
    } else {
      ShiftedZero(7 - j);
    }
  }

  lemma ShiftedZero(k: nat)
    requires k < 8
    ensures (0 as bv8) << k == 0
  {
  }

  function AtBit(x: bv8, j: nat): bv8
    requires j < 8
  {
    x << (7 - j)
  }

  // One more bit in an octet.
  lemma GatherBit(b: bv8, j: nat, x: bv8)
    requires j < 8 && (x == 0 || x == 1) && BitsOfOctet(b)[j..] == Zeros(8 - j)
    ensures BitsOfOctet(Or(b, AtBit(x, j))) == BitsOfOctet(b)[..j] + [x == 1] + Zeros(7 - j)
  {
    hide BitsOfOctet, Mask;
    ShiftedFlag(x, j);
    if x == 1 {
      SetBit(b, j);
    } else {
      OrZero(b);
      assert Zeros(8 - j) == [false] + Zeros(7 - j);
      assert BitsOfOctet(b) == BitsOfOctet(b)[..j] + BitsOfOctet(b)[j..];
    }
  }

  // n bits from position k on, as the leading bits of an octet.
  method GatherOctet(msg: seq<bv8>, k: nat, n: nat) returns (octet: bv8)
    requires IsBits(msg) && n <= 8 && k + n <= |msg|
    ensures BitsOfOctet(octet) == Flags(msg)[k..k + n] + Zeros(8 - n)
  {
    hide BitsOfOctet, Or, AtBit;
    octet := 0;
    ZeroOctet();
    for j := 0 to n
      invariant BitsOfOctet(octet) == Flags(msg)[k..k + j] + Zeros(8 - j)
    {
      GatherBit(octet, j, msg[k + j]);
      octet := Or(octet, AtBit(msg[k + j], j));
      assert Flags(msg)[k..k + j + 1] == Flags(msg)[k..k + j] + [msg[k + j] == 1];
    }
  }

  lemma OrZero(b: bv8)
    ensures Or(b, 0) == b
  {
  }

  lemma NoFlags(x: seq<bool>)
    requires x == []
    ensures x + Zeros(8) == Zeros(8)
  {
  }

  // x fills k octets and s bits of the next one.
  lemma GatheredPiece(x: seq<bool>, n: nat, k: nat, s: nat, i: nat)
    requires |x| == 8 * k + s <= 8 * n && s < 8 && i < n
    ensures i < k ==> Piece(x + Zeros(8 * n - |x|), i) == Piece(x, i)
    ensures i == k ==> Piece(x + Zeros(8 * n - |x|), i) == x[k * 8..k * 8 + s] + Zeros(8 - s)
    ensures i > k ==> Piece(x + Zeros(8 * n - |x|), i) == Zeros(8)
  {
    var padded := x + Zeros(8 * n - |x|);
    forall j | 0 <= j < 8 ensures Piece(padded, i)[j] == (8 * i + j < |x| && x[8 * i + j]) {
      assert Piece(padded, i)[j] == padded[8 * i + j];
    }
  }

  lemma PieceIs(x: seq<bool>, i: nat)
    requires 8 * i + 8 <= |x|
    ensures x[i * 8..i * 8 + 8] + Zeros(0) == Piece(x, i)
  {
  }

  // Octets that hold the bits of x, the last one in part, and then zeros.
  lemma Gathered(x: seq<bool>, octets: seq<bv8>, k: nat, s: nat)
    requires |x| == 8 * k + s && s < 8 && k < |octets|
    requires forall j :: 0 <= j < k ==> BitsOfOctet(octets[j]) == Piece(x, j)
    requires BitsOfOctet(octets[k]) == x[k * 8..k * 8 + s] + Zeros(8 - s)
    requires forall j :: k < j < |octets| ==> octets[j] == 0
    ensures BitsOf(octets) == x + Zeros(8 * |octets| - |x|)
  {
    hide *;
    var padded := x + Zeros(8 * |octets| - |x|);
    forall i | 0 <= i < |octets| ensures BitsOfOctet(octets[i]) == Piece(padded, i) {
      GatheredAt(x, octets, k, s, i);
    }
    BitsAre(octets, padded);
  }

  lemma GatheredAt(x: seq<bool>, octets: seq<bv8>, k: nat, s: nat, i: nat)
    requires |x| == 8 * k + s && s < 8 && k < |octets| && i < |octets|
    requires forall j :: 0 <= j < k ==> BitsOfOctet(octets[j]) == Piece(x, j)
    requires BitsOfOctet(octets[k]) == x[k * 8..k * 8 + s] + Zeros(8 - s)
    requires forall j :: k < j < |octets| ==> octets[j] == 0
    ensures BitsOfOctet(octets[i]) == Piece(x + Zeros(8 * |octets| - |x|), i)
  {
    hide *;
    GatheredOctet(x, |octets|, k, s, i, octets[i]);
  }

  lemma GatheredOctet(x: seq<bool>, n: nat, k: nat, s: nat, i: nat, b: bv8)
    requires |x| == 8 * k + s <= 8 * n && s < 8 && i < n
    requires i < k ==> BitsOfOctet(b) == Piece(x, i)
    requires i == k ==> BitsOfOctet(b) == x[k * 8..k * 8 + s] + Zeros(8 - s)
    requires i > k ==> b == 0
    ensures BitsOfOctet(b) == Piece(x + Zeros(8 * n - |x|), i)
  {
    hide *;
    GatheredPiece(x, n, k, s, i);
    ZeroOctet();
  }

  // The message behind the header.
  method GatherMessage(m: array<bv8>, msg: seq<bv8>)
    requires IsBits(msg) && m.Length == |msg| * 8 + 8 + 16
    requires forall j :: 8 <= j < m.Length ==> m[j] == 0
    modifies m
    ensures m[..8] == old(m[..8])
    ensures BitsOf(m[8..]) == Flags(msg) + Zeros(8 * (m.Length - 8) - |msg|)
  {
    hide BitsOf, BitsOfOctet, Flags, Piece, Zeros, IsBits;
    var whole, part := |msg| / 8, |msg| % 8;
    for i := 0 to whole
      invariant m[..8] == old(m[..8])
      invariant forall j :: 0 <= j < i ==> BitsOfOctet(m[8 + j]) == Piece(Flags(msg), j)
      invariant forall j :: 8 + i <= j < m.Length ==> m[j] == 0
    {
      var octet := GatherOctet(msg, i * 8, 8);
      m[8 + i] := octet;
      PieceIs(Flags(msg), i);
    }
    if part != 0 {
      var octet := GatherOctet(msg, whole * 8, part);
      m[8 + whole] := octet;
    } else {
      ZeroOctet();
      NoFlags(Flags(msg)[whole * 8..whole * 8]);
    }
    Gathered(Flags(msg), m[8..], whole, part);
  }

  method Eia2Bits(aes: Block -> Block, count: bv32, bearer: bv8, direction: bv8, msg: seq<bv8>) returns (mac: seq<bv8>)
    requires direction < 2 && IsBits(msg)
    ensures BitsOf(mac) == Tag(aes, Header(count, bearer, direction) + Flags(msg))[..32]
  {
    hide BitsOf, BitsOfOctet, Tag, Header, Byte3, Byte2, Byte1, Byte0;
    var k1, k2 := Subkeys(aes);
    var m := new bv8[|msg| * 8 + 8 + 16](i => 0);
    StartMessage(m, count, bearer, direction);
    GatherMessage(m, msg);
    ghost var rest := m[8..];
    assert m[..] == m[..8] + rest;
    HeaderBits(count, bearer, direction);
    BitsOfJoin(m[..8], rest);
    mac := Mac(aes, m, |msg| + 64, k1, k2, Header(count, bearer, direction) + Flags(msg));
  }

  // ----- liblte_unpack -----

  // liblte_value_2_bits, for the eight bits of an octet
  method ValueToBits(value: bv8, bits: array<bv8>, k: nat)
    requires k + 8 <= bits.Length
    modifies bits
    ensures forall i :: 0 <= i < bits.Length && !(k <= i < k + 8) ==> bits[i] == old(bits[i])
    ensures IsBits(bits[k..k + 8]) && Flags(bits[k..k + 8]) == BitsOfOctet(value)
  {
    hide BitsOfOctet, Bit8, Mask;
    for i := 0 to 8
      invariant forall j :: 0 <= j < bits.Length && !(k <= j < k + i) ==> bits[j] == old(bits[j])
      invariant forall j :: 0 <= j < i ==> bits[k + j] == if BitsOfOctet(value)[j] then 1 else 0
    {
      BitAt(value, i);
      ShiftedDown(value, i);
      bits[k + i] := (value >> (7 - i)) & 1;
    }
    ghost var out := bits[k..k + 8];
    forall j | 0 <= j < 8 ensures out[j] == if BitsOfOctet(value)[j] then 1 else 0 {
      assert out[j] == bits[k + j];
    }
  }

  lemma ShiftedDown(b: bv8, i: nat)
    requires i < 8
    ensures (b >> (7 - i)) & 1 == if Bit8(b, Mask(i)) then 1 else 0
  {
  }

  // The bits of a message, one in each octet.
  function Unpacked(octets: seq<bv8>): seq<bv8> {
    seq(8 * |octets|, i requires 0 <= i < 8 * |octets| => if BitsOf(octets)[i] then 1 else 0)
  }

  lemma FlagsPiece(bits: seq<bv8>, j: nat)
    requires 8 * j + 8 <= |bits|
    ensures Piece(Flags(bits), j) == Flags(bits[8 * j..8 * j + 8])
  {
  }

  lemma UnpackedIs(octets: seq<bv8>, bits: seq<bv8>)
    requires IsBits(bits) && Flags(bits) == BitsOf(octets)
    ensures bits == Unpacked(octets)
  {
    hide BitsOf;
    forall i | 0 <= i < |bits| ensures bits[i] == Unpacked(octets)[i] {
      assert Flags(bits)[i] == (bits[i] == 1);
    }
  }

  method Unpack(octets: seq<bv8>, bits: array<bv8>)
    requires 8 * |octets| == bits.Length
    modifies bits
    ensures IsBits(bits[..]) && bits[..] == Unpacked(octets)
  {
    hide BitsOfOctet, BitsOf, Piece, Unpacked;
    for i := 0 to |octets|
      invariant IsBits(bits[..8 * i])
      invariant forall j :: 0 <= j < i ==> Flags(bits[8 * j..8 * j + 8]) == BitsOfOctet(octets[j])
    {
      ghost var before := bits[..8 * i];
      ghost var was := bits[..];
      ValueToBits(octets[i], bits, 8 * i);
      assert bits[..8 * i] == before;
      assert bits[..8 * i + 8] == before + bits[8 * i..8 * i + 8];
      assert forall j :: 0 <= j < i ==> bits[8 * j..8 * j + 8] == was[8 * j..8 * j + 8];
    }
    assert bits[..8 * |octets|] == bits[..];
    forall j | 0 <= j < |octets| ensures BitsOfOctet(octets[j]) == Piece(Flags(bits[..]), j) {
      FlagsPiece(bits[..], j);
    }
    BitsAre(octets, Flags(bits[..]));
    UnpackedIs(octets, bits[..]);
  }

  // Both forms give the same code for the same octets.
  lemma FormsAgree(aes: Block -> Block, count: bv32, bearer: bv8, direction: bv8, octets: seq<bv8>, bits: seq<bv8>,
                   mac: seq<bv8>, macBits: seq<bv8>)
    requires bits == Unpacked(octets)
    requires BitsOf(mac) == Tag(aes, Header(count, bearer, direction) + BitsOf(octets))[..32]
    requires BitsOf(macBits) == Tag(aes, Header(count, bearer, direction) + Flags(bits))[..32]
    ensures mac == macBits
  {
    hide BitsOf, BitsOfOctet, Tag, Header;
    assert Flags(bits) == BitsOf(octets);
    assert |mac| == |macBits| == 4;
    forall i | 0 <= i < 4 ensures mac[i] == macBits[i] {
      BitsAt(mac, i);
      BitsAt(macBits, i);
      BitsOfOctetInjective(mac[i], macBits[i]);
    }
  }
}
