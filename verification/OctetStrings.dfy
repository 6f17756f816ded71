/** Octets and words of the ciphers as bits, most significant bit first. */
module OctetStrings {
  import opened BitStrings
  import opened Gf2
  import opened Octet
  import opened Word32

  predicate Bit8(b: bv8, mask: bv8) {
    b & mask != 0
  }

  function BitsOfOctet(b: bv8): (r: seq<bool>)
    ensures |r| == 8
  {
    [Bit8(b, 0x80), Bit8(b, 0x40), Bit8(b, 0x20), Bit8(b, 0x10), Bit8(b, 8), Bit8(b, 4), Bit8(b, 2), Bit8(b, 1)]
  }

  // Bit i from the top.
  function Mask(i: nat): bv8
    requires i < 8
  {
    match i
    case 0 => 0x80
    case 1 => 0x40
    case 2 => 0x20
    case 3 => 0x10
    case 4 => 8
    case 5 => 4
    case 6 => 2
    case _ => 1
  }

  lemma BitAt(b: bv8, i: nat)
    requires i < 8
    ensures BitsOfOctet(b)[i] == Bit8(b, Mask(i))
  {
    hide Bit8;
  }

  function BitsOfWord(w: bv32): (r: seq<bool>)
    ensures |r| == 32
  {
    BitsOfOctet(Byte3(w)) + BitsOfOctet(Byte2(w)) + BitsOfOctet(Byte1(w)) + BitsOfOctet(Byte0(w))
  }

  function BitsOf(data: seq<bv8>): (r: seq<bool>)
    ensures |r| == 8 * |data|
  {
    if data == [] then [] else BitsOf(data[..|data| - 1]) + BitsOfOctet(data[|data| - 1])
  }

  // The eight bits of octet i.
  function Piece(x: seq<bool>, i: nat): (p: seq<bool>)
    requires 8 * i + 8 <= |x|
    ensures |p| == 8
  {
    x[8 * i..8 * i + 8]
  }

  lemma PieceOfPrefix(x: seq<bool>, k: nat, i: nat)
    requires i < k && 8 * k <= |x|
    ensures Piece(x[..8 * k], i) == Piece(x, i)
  {
  }

  lemma PieceOfSlice(x: seq<bool>, k: nat, n: nat, i: nat)
    requires i < n && 8 * (k + n) <= |x|
    ensures Piece(x[8 * k..8 * (k + n)], i) == Piece(x, k + i)
  {
    var y := x[8 * k..8 * (k + n)];
    forall j | 0 <= j < 8 ensures Piece(y, i)[j] == Piece(x, k + i)[j] {
      assert y[8 * i + j] == x[8 * k + (8 * i + j)];
    }
  }

  lemma {:induction false} BitsAt(data: seq<bv8>, i: nat)
    requires i < |data|
    ensures BitsOf(data)[8 * i..8 * i + 8] == Piece(BitsOf(data), i) == BitsOfOctet(data[i])
  {
    var last := |data| - 1;
    hide BitsOfOctet;
    if i < last {
      BitsAt(data[..last], i);
      assert BitsOf(data)[8 * i..8 * i + 8] == BitsOf(data[..last])[8 * i..8 * i + 8];
    }
  }

  lemma BitsOfOctetInjective(a: bv8, b: bv8)
    requires BitsOfOctet(a) == BitsOfOctet(b)
    ensures a == b
  {
    var x, y := BitsOfOctet(a), BitsOfOctet(b);
    assert x[0] == y[0] && x[1] == y[1] && x[2] == y[2] && x[3] == y[3];
    assert x[4] == y[4] && x[5] == y[5] && x[6] == y[6] && x[7] == y[7];
  }

  lemma LastPiece(x: seq<bool>, last: nat)
    requires |x| == 8 * last + 8
    ensures x == x[..8 * last] + Piece(x, last)
  {
  }

  lemma {:induction false} BitsAre(data: seq<bv8>, x: seq<bool>)
    requires |x| == 8 * |data|
    requires forall i :: 0 <= i < |data| ==> BitsOfOctet(data[i]) == Piece(x, i)
    ensures BitsOf(data) == x
  {
    hide BitsOfOctet, Piece;
    if data != [] {
      var last := |data| - 1;
      var y := x[..8 * last];
      forall i | 0 <= i < last ensures BitsOfOctet(data[..last][i]) == Piece(y, i) {
        PieceOfPrefix(x, last, i);
      }
      BitsAre(data[..last], y);
      LastPiece(x, last);
    }
  }

  predicate OneBit(m: bv8) {
    m == 0x80 || m == 0x40 || m == 0x20 || m == 0x10 || m == 8 || m == 4 || m == 2 || m == 1
  }

  lemma Masks(i: nat, j: nat)
    requires i < 8 && j < 8
    ensures OneBit(Mask(i)) && (Mask(i) == Mask(j) <==> i == j)
  {
  }

  lemma XorBit(a: bv8, b: bv8, m: bv8)
    requires OneBit(m)
    ensures Bit8(Xor8(a, b), m) == (Bit8(a, m) != Bit8(b, m))
  {
  }

  lemma XorOctet(a: bv8, b: bv8)
    ensures BitsOfOctet(Xor8(a, b)) == Add(BitsOfOctet(a), BitsOfOctet(b))
  {
    hide Bit8, Xor8, BitsOfOctet;
    forall i: nat | i < 8 ensures BitsOfOctet(Xor8(a, b))[i] == (BitsOfOctet(a)[i] != BitsOfOctet(b)[i]) {
      BitAt(a, i);
      BitAt(b, i);
      BitAt(Xor8(a, b), i);
      Masks(i, i);
      XorBit(a, b, Mask(i));
    }
  }

  lemma AddPiece(a: seq<bool>, b: seq<bool>, i: nat)
    requires |a| == |b| && 8 * i + 8 <= |a|
    ensures Piece(Add(a, b), i) == Add(Piece(a, i), Piece(b, i))
  {
  }

  lemma {:induction false} BitsOfJoin(a: seq<bv8>, b: seq<bv8>)
    ensures BitsOf(a + b) == BitsOf(a) + BitsOf(b)
  {
    hide BitsOfOctet;
    if b == [] {
      assert a + b == a;
    } else {
      var last := |b| - 1;
      assert (a + b)[..|a + b| - 1] == a + b[..last];
      BitsOfJoin(a, b[..last]);
    }
  }

  lemma {:induction false} FirstOctets(data: seq<bv8>, k: nat)
    requires k <= |data|
    ensures BitsOf(data[..k]) == BitsOf(data)[..8 * k]
  {
    hide BitsOfOctet;
    if k < |data| {
      FirstOctets(data[..|data| - 1], k);
      assert data[..|data| - 1][..k] == data[..k];
    } else {
      assert data[..k] == data;
    }
  }

  lemma ZeroOctet()
    ensures BitsOfOctet(0) == Zeros(8)
  {
  }
}
