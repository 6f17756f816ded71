/** The UIA2 message authentication code, s3g_f9 (s3g.cc). */
module Uia2 {
  import opened BitStrings
  import opened Gf2
  import opened OctetStrings
  import opened Word32
  import Snow3g

  // The low half of the polynomial x^64 + x^4 + x^3 + x + 1.
  const C: Bits := Zeros(59) + [true, true, false, true, true]

  // ----- What the code is to compute -----

  // Block i of a message, the last one padded with zeros.
  function Block(m: Bits, i: nat): (b: Bits)
    ensures |b| == 64
  {
    seq(64, j requires 0 <= j < 64 => 64 * i + j < |m| && m[64 * i + j])
  }

  // The value of the first n blocks, by Horner's rule.
  function Eval(m: Bits, p: Bits, n: nat): (v: Bits)
    requires |p| == 64
    ensures |v| == 64
  {
    if n == 0 then Zeros(64) else Mul(Add(Eval(m, p, n - 1), Block(m, n - 1)), p, C)
  }

  function BlockCount(length: nat): nat {
    (length + 63) / 64
  }

  // Section 4.4 of the UEA2 and UIA2 specification, document 1.
  function Tag(m: Bits, p: Bits, q: Bits, z5: Bits): (t: Bits)
    requires |p| == |q| == 64 && |z5| == 32
    ensures |t| == 32
  {
    var eval := Add(Eval(m, p, BlockCount(|m|)), ToBits(|m|, 64));
    Add(Mul(eval, q, C)[..32], z5)
  }

  // ----- The value is a polynomial in p with the blocks as coefficients -----

  ghost function Power(p: Bits, k: nat): (r: Bits)
    requires |p| == 64
    ensures |r| == 64
  {
    if k == 0 then Monomial(64, 0) else Mul(Power(p, k - 1), p, C)
  }

  // The sum of Block(i) * p^(top - i) over i < n.
  ghost function Terms(m: Bits, p: Bits, n: nat, top: nat): (r: Bits)
    requires |p| == 64 && n <= top + 1
    ensures |r| == 64
  {
    if n == 0 then Zeros(64)
    else Add(Terms(m, p, n - 1, top), Mul(Block(m, n - 1), Power(p, top - (n - 1)), C))
  }

  lemma {:induction false} TermsTimes(m: Bits, p: Bits, n: nat, top: nat)
    requires |p| == 64 && n <= top + 1
    ensures Terms(m, p, n, top + 1) == Mul(Terms(m, p, n, top), p, C)
  {
    hide Mul; hide Add; hide Block; hide Zeros;
    if n == 0 {
      MulOfZero(p);
    } else {
      TermsTimes(m, p, n - 1, top);
      var b := Block(m, n - 1);
      var k := top - (n - 1);
      MulLinear(Terms(m, p, n - 1, top), Mul(b, Power(p, k), C), p, p, C);
      MulAssoc(b, Power(p, k), p, C);
    }
  }

  lemma MulOfZero(p: Bits)
    requires |p| == 64
    ensures Mul(Zeros(64), p, C) == Zeros(64)
  {
    SumOfZero(64, p, C, 64);
  }

  // The last block is multiplied by p once, the first by p^n.
  lemma {:induction false} EvalIsPolynomial(m: Bits, p: Bits, n: nat)
    requires |p| == 64
    ensures Eval(m, p, n) == Terms(m, p, n, n)
  {
    hide Mul; hide Add; hide Block; hide Zeros;
    if n == 0 {
    } else {
      EvalIsPolynomial(m, p, n - 1);
      var b := Block(m, n - 1);
      MulLinear(Eval(m, p, n - 1), b, p, p, C);
      TermsTimes(m, p, n - 1, n - 1);
      PowerOne(p);
    }
  }

  lemma PowerOne(p: Bits)
    requires |p| == 64
    ensures Power(p, 1) == p
  {
    hide Mul; hide Monomial;
    assert Power(p, 0) == Monomial(64, 0);
    MulOne(p, C);
  }

  // ----- The tag is affine in the message -----

  function Sum3(a: Bits, b: Bits, c: Bits): (r: Bits)
    requires |a| == |b| == |c|
    ensures |r| == |a|
  {
    Add(Add(a, b), c)
  }

  lemma {:induction false} EvalLinear(a: Bits, b: Bits, p: Bits, n: nat)
    requires |p| == 64 && |a| == |b|
    ensures Eval(Add(a, b), p, n) == Add(Eval(a, p, n), Eval(b, p, n))
  {
    if n == 0 {
      AddZero(Zeros(64));
    } else {
      assert Block(Add(a, b), n - 1) == Add(Block(a, n - 1), Block(b, n - 1));
      hide Mul; hide Add; hide Block; hide Zeros;
      EvalLinear(a, b, p, n - 1);
      AddExchange(Eval(a, p, n - 1), Eval(b, p, n - 1), Block(a, n - 1), Block(b, n - 1));
      MulLinear(Add(Eval(a, p, n - 1), Block(a, n - 1)), Add(Eval(b, p, n - 1), Block(b, n - 1)), p, p, C);
    }
  }

  // For fixed key stream and length, the tag of a sum of three messages is the sum of their tags.
  lemma TagIsAffine(a: Bits, b: Bits, c: Bits, p: Bits, q: Bits, z5: Bits)
    requires |p| == |q| == 64 && |z5| == 32 && |a| == |b| == |c|
    ensures Tag(Sum3(a, b, c), p, q, z5) == Sum3(Tag(a, p, q, z5), Tag(b, p, q, z5), Tag(c, p, q, z5))
  {
    var n := BlockCount(|a|);
    var l := ToBits(|a|, 64);
    EvalLinear(Add(a, b), c, p, n);
    EvalLinear(a, b, p, n);
    var x, y, z := Eval(a, p, n), Eval(b, p, n), Eval(c, p, n);
    OddSum(x, y, z, l);
    MulLinear(Add(Add(x, l), Add(y, l)), Add(z, l), q, q, C);
    MulLinear(Add(x, l), Add(y, l), q, q, C);
    TopHalf(Mul(Add(x, l), q, C), Mul(Add(y, l), q, C), Mul(Add(z, l), q, C), z5);
  }

  lemma OddSum(x: Bits, y: Bits, z: Bits, l: Bits)
    requires |x| == |y| == |z| == |l|
    ensures Add(Sum3(x, y, z), l) == Sum3(Add(x, l), Add(y, l), Add(z, l))
  {
  }

  lemma TopHalf(x: Bits, y: Bits, z: Bits, k: Bits)
    requires |x| == |y| == |z| == 64 && |k| == 32
    ensures Add(Sum3(x, y, z)[..32], k) == Sum3(Add(x[..32], k), Add(y[..32], k), Add(z[..32], k))
  {
  }

  // ----- The code -----

  // The octets from k on, n of them, side by side.
  function Assemble(data: seq<bv8>, k: nat, n: nat): (r: Bits)
    requires k + n <= |data|
    ensures |r| == 8 * n
  {
    if n == 0 then [] else Assemble(data, k, n - 1) + BitsOfOctet(data[k + n - 1])
  }

  lemma SliceJoin(x: seq<bool>, i: nat, j: nat, k: nat)
    requires i <= j <= k <= |x|
    ensures x[i..k] == x[i..j] + x[j..k]
  {
  }

  lemma NextOctet(data: seq<bv8>, k: nat, n: nat)
    requires k + n <= |data|
    ensures Assemble(data, k, n) == if n == 0 then [] else Assemble(data, k, n - 1) + BitsOfOctet(data[k + n - 1])
  {
    hide BitsOfOctet;
  }

  lemma {:induction false} AssembleIsSlice(data: seq<bv8>, k: nat, n: nat)
    requires k + n <= |data|
    ensures Assemble(data, k, n) == BitsOf(data)[8 * k..8 * (k + n)]
  {
    hide *;
    NextOctet(data, k, n);
    if n > 0 {
      AssembleIsSlice(data, k, n - 1);
      BitsAt(data, k + n - 1);
      SliceJoin(BitsOf(data), 8 * k, 8 * (k + n - 1), 8 * (k + n));
    }
  }

  lemma AssembleIsBlock(data: seq<bv8>, length: nat, i: nat)
    requires length <= 8 * |data| && 64 * i + 64 <= length
    ensures Assemble(data, 8 * i, 8) == Block(BitsOf(data)[..length], i)
  {
    hide BitsOfOctet; hide BitsOf; hide Assemble;
    AssembleIsSlice(data, 8 * i, 8);
  }

  // A mask with the n most significant bits set.
  function Mask8Bit(n: nat): bv8
    requires 1 <= n <= 7
  {
    0xFF ^ (((1 as bv8) << (8 - n)) - 1)
  }

  lemma MaskValues()
    ensures Mask8Bit(1) == 0x80 && Mask8Bit(2) == 0xC0 && Mask8Bit(3) == 0xE0 && Mask8Bit(4) == 0xF0
    ensures Mask8Bit(5) == 0xF8 && Mask8Bit(6) == 0xFC && Mask8Bit(7) == 0xFE
  {
  }

  lemma MaskedBit(b: bv8, n: nat, i: nat)
    requires 1 <= n <= 7 && i < 8
    ensures Bit8(b & Mask8Bit(n), Mask(i)) == (i < n && Bit8(b, Mask(i)))
  {
    hide Mask8Bit;
    MaskValues();
  }

  lemma MaskedOctet(b: bv8, n: nat)
    requires 1 <= n <= 7
    ensures BitsOfOctet(b & Mask8Bit(n)) == BitsOfOctet(b)[..n] + Zeros(8 - n)
  {
    hide BitsOfOctet, Bit8, Mask8Bit;
    var x, y := BitsOfOctet(b & Mask8Bit(n)), BitsOfOctet(b)[..n] + Zeros(8 - n);
    forall i: nat | i < 8 ensures x[i] == y[i] {
      BitAt(b, i);
      BitAt(b & Mask8Bit(n), i);
      MaskedBit(b, n, i);
    }
  }

  // w with the octet b or-ed in as octet i from the top.
  function OrOctet(w: Bits, b: Bits, i: nat): (r: Bits)
    requires |w| == 64 && |b| == 8 && i < 8
    ensures |r| == 64
  {
    var shifted := Zeros(8 * i) + b + Zeros(56 - 8 * i);
    seq(64, j requires 0 <= j < 64 => w[j] || shifted[j])
  }

  // The k first bits of b, then zeros.
  function Prefix(b: Bits, k: nat): (r: Bits)
    requires k <= |b|
    ensures |r| == |b|
  {
    b[..k] + Zeros(|b| - k)
  }

  lemma OrExtends(b: Bits, o: Bits, i: nat, k: nat)
    requires |b| == 64 && |o| == 8 && i < 8 && k <= 8
    requires o == b[8 * i..8 * i + k] + Zeros(8 - k)
    ensures OrOctet(Prefix(b, 8 * i), o, i) == Prefix(b, 8 * i + k)
  {
  }

  // The loop over the whole blocks before the last block.
  method FullBlocks(data: seq<bv8>, length: nat, p: Bits, n: nat) returns (eval: Bits)
    requires length <= 8 * |data| && |p| == 64 && 64 * n <= length
    ensures eval == Eval(BitsOf(data)[..length], p, n)
  {
    hide Assemble; hide Mul; hide BitsOf; hide Block;
    eval := Zeros(64);
    var i := 0;
    while i < n
      invariant 0 <= i <= n && |eval| == 64
      invariant eval == Eval(BitsOf(data)[..length], p, i)
    {
      AssembleIsBlock(data, length, i);
      var v := Add(eval, Assemble(data, 8 * i, 8));
      eval := Mul64(v, p, C);
      i := i + 1;
    }
  }

  lemma OctetBit(data: seq<bv8>, i: nat, j: nat)
    requires i < |data| && j < 8
    ensures BitsOf(data)[8 * i + j] == BitsOfOctet(data[i])[j]
  {
    hide BitsOfOctet; hide BitsOf;
    BitsAt(data, i);
    assert BitsOf(data)[8 * i..8 * i + 8][j] == BitsOf(data)[8 * i + j];
  }

  lemma BlockBit(m: Bits, n: nat, j: nat)
    requires j < 64 && 64 * n + j < |m|
    ensures Block(m, n)[j] == m[64 * n + j]
  {
  }

  lemma TakenBit(m: Bits, length: nat, x: nat)
    requires x < length <= |m|
    ensures m[..length][x] == m[x]
  {
  }

  lemma BitOfBlock(data: seq<bv8>, length: nat, n: nat, i: nat, j: nat)
    requires length <= 8 * |data| && i < 8 && j < 8 && 8 * (8 * n + i) + j < length
    ensures BitsOfOctet(data[8 * n + i])[j] == Block(BitsOf(data)[..length], n)[8 * i + j]
  {
    hide *;
    var m, x := BitsOf(data), 64 * n + (8 * i + j);
    assert x == 8 * (8 * n + i) + j;
    OctetBit(data, 8 * n + i, j);
    TakenBit(m, length, x);
    BlockBit(m[..length], n, 8 * i + j);
  }

  lemma SamePiece(o: Bits, b: Bits, at: nat, k: nat)
    requires k <= |o| && at + k <= |b| && forall j :: 0 <= j < k ==> o[j] == b[at + j]
    ensures o[..k] == b[at..at + k]
  {
  }

  // The k first bits of octet i of a block, for k of them inside the message.
  lemma OctetOfBlock(data: seq<bv8>, length: nat, n: nat, i: nat, k: nat)
    requires length <= 8 * |data| && i < 8 && k <= 8 && 8 * (8 * n + i) + k <= length && 8 * n + i < |data|
    ensures BitsOfOctet(data[8 * n + i])[..k] == Block(BitsOf(data)[..length], n)[8 * i..8 * i + k]
  {
    hide BitsOfOctet; hide BitsOf; hide Block;
    var o, m := BitsOfOctet(data[8 * n + i]), BitsOf(data);
    forall j | 0 <= j < k
      ensures o[j] == Block(m[..length], n)[8 * i + j]
    {
      BitOfBlock(data, length, n, i, j);
    }
    SamePiece(o, Block(m[..length], n), 8 * i, k);
  }

  lemma WholeOctet(data: seq<bv8>, length: nat, n: nat, i: nat)
    requires length <= 8 * |data| && i < 8 && 8 * (8 * n + i) + 8 <= length
    ensures var b := Block(BitsOf(data)[..length], n);
      OrOctet(Prefix(b, 8 * i), BitsOfOctet(data[8 * n + i]), i) == Prefix(b, 8 * i + 8)
  {
    hide BitsOfOctet; hide BitsOf; hide Block; hide OrOctet; hide Prefix;
    OctetOfBlock(data, length, n, i, 8);
    var b, o := Block(BitsOf(data)[..length], n), BitsOfOctet(data[8 * n + i]);
    assert o == b[8 * i..8 * i + 8] + Zeros(0);
    OrExtends(b, o, i, 8);
  }

  lemma PartOctet(data: seq<bv8>, length: nat, n: nat, i: nat, k: nat)
    requires length <= 8 * |data| && i < 8 && 1 <= k <= 7 && 8 * (8 * n + i) + k == length
    ensures var b := Block(BitsOf(data)[..length], n);
      OrOctet(Prefix(b, 8 * i), BitsOfOctet(data[8 * n + i] & Mask8Bit(k)), i) == Prefix(b, 8 * i + k)
  {
    hide BitsOfOctet; hide BitsOf; hide Block; hide OrOctet; hide Prefix; hide Mask8Bit; hide Zeros;
    OctetOfBlock(data, length, n, i, k);
    MaskedOctet(data[8 * n + i], k);
    OrExtends(Block(BitsOf(data)[..length], n), BitsOfOctet(data[8 * n + i] & Mask8Bit(k)), i, k);
  }

  // The bits from 64 * n on, as a block filled up with zeros.
  method LastBlock(data: seq<bv8>, length: nat, n: nat) returns (m: Bits)
    requires 64 * n < length <= 8 * |data| && length <= 64 * n + 64
    ensures m == Block(BitsOf(data)[..length], n)
  {
    hide BitsOfOctet; hide BitsOf; hide OrOctet; hide Mask8Bit; hide Prefix; hide Block; hide Zeros;
    ghost var b := Block(BitsOf(data)[..length], n);
    var remBits := length % 64;
    if remBits == 0 {
      remBits := 64;
    }
    ghost var size := remBits;
    assert size == length - 64 * n;
    BlockEnds(BitsOf(data)[..length], n);
    PrefixBounds(b, size);
    m := Zeros(64);
    var i := 0;
    while remBits > 7
      invariant 0 <= i <= 8 && 0 <= remBits == size - 8 * i
      invariant |m| == 64 && m == Prefix(b, 8 * i)
    {
      WholeOctet(data, length, n, i);
      m := OrOctet(m, BitsOfOctet(data[8 * n + i]), i);
      remBits := remBits - 8;
      i := i + 1;
    }
    if remBits > 0 {
      PartOctet(data, length, n, i, remBits);
      m := OrOctet(m, BitsOfOctet(data[8 * n + i] & Mask8Bit(remBits)), i);
    }
  }

  lemma BlockEnds(m: Bits, n: nat)
    ensures forall j :: 0 <= j < 64 && |m| <= 64 * n + j ==> !Block(m, n)[j]
  {
  }

  // A block whose bits end at k is its own prefix.
  lemma PrefixBounds(b: Bits, k: nat)
    requires k <= |b| && forall j :: k <= j < |b| ==> !b[j]
    ensures Prefix(b, 0) == Zeros(|b|) && Prefix(b, k) == b
  {
  }

  function Key(key: seq<bv8>): (k: seq<bv32>)
    requires |key| == 16
    ensures |k| == 4
  {
    [MakeU32(key[12], key[13], key[14], key[15]), MakeU32(key[8], key[9], key[10], key[11]),
     MakeU32(key[4], key[5], key[6], key[7]), MakeU32(key[0], key[1], key[2], key[3])]
  }

  function Vector(count: bv32, fresh_: bv32, dir: bv32): (iv: seq<bv32>)
    ensures |iv| == 4
  {
    [Xor(fresh_, dir << 15), Xor(count, dir << 31), fresh_, count]
  }

  // The five key-stream words of the generator started for these inputs.
  function Words(key: seq<bv8>, count: bv32, fresh_: bv32, dir: bv32): (z: seq<bv32>)
    requires |key| == 16
    ensures |z| == 5
  {
    hide Key, Vector, Snow3g.Keystream, Snow3g.Initialized;
    Snow3g.Keystream(Snow3g.Initialized(Key(key), Vector(count, fresh_, dir)), 6)[1..]
  }

  // The 32-bit index 8 * i of the code is exact for lengths up to 2^35.
  method F9(key: seq<bv8>, count: bv32, fresh_: bv32, dir: bv32, data: seq<bv8>, length: nat) returns (mac: Bits)
    requires |key| == 16 && 0 < length <= 8 * |data| && length <= 0x8_0000_0000
    ensures var z := Words(key, count, fresh_, dir);
      mac == Tag(BitsOf(data)[..length], BitsOfWord(z[0]) + BitsOfWord(z[1]), BitsOfWord(z[2]) + BitsOfWord(z[3]), BitsOfWord(z[4]))
  {
    hide *;
    var z := KeyWords(key, count, fresh_, dir);
    mac := Evaluate(data, length, BitsOfWord(z[0]) + BitsOfWord(z[1]), BitsOfWord(z[2]) + BitsOfWord(z[3]), BitsOfWord(z[4]));
  }

  method KeyWords(key: seq<bv8>, count: bv32, fresh_: bv32, dir: bv32) returns (z: seq<bv32>)
    requires |key| == 16
    ensures z == Words(key, count, fresh_, dir)
  {
    hide Key, Vector, Snow3g.Keystream, Snow3g.Initialized, Snow3g.KeyRounds;
    var state := new Snow3g.S3gState.Initialize(Key(key), Vector(count, fresh_, dir));
    var ks := new bv32[5](_ => 0);
    state.GenerateKeystream(5, ks);
    z := ks[..];
    assert z == ks[..5];
  }

  method Evaluate(data: seq<bv8>, length: nat, p: Bits, q: Bits, z5: Bits) returns (mac: Bits)
    requires 0 < length <= 8 * |data| && |p| == |q| == 64 && |z5| == 32
    ensures mac == Tag(BitsOf(data)[..length], p, q, z5)
  {
    hide Mul; hide BitsOf; hide Block; hide ToBits;
    var d := if length % 64 == 0 then length / 64 + 1 else length / 64 + 2;
    assert d - 1 == BlockCount(length);
    var eval := FullBlocks(data, length, p, d - 2);
    var m := LastBlock(data, length, d - 2);
    eval := Mul64(Add(eval, m), p, C);
    eval := Add(eval, ToBits(length, 64));
    eval := Mul64(eval, q, C);
    mac := [];
    var i := 0;
    while i < 4
      invariant 0 <= i <= 4 && |eval| == 64
      invariant mac == Add(eval[..8 * i], z5[..8 * i])
    {
      mac := mac + Add(eval[8 * i..8 * i + 8], z5[8 * i..8 * i + 8]);
      i := i + 1;
    }
    assert eval[..32] == eval[..8 * 4] && z5[..32] == z5;
  }
}
