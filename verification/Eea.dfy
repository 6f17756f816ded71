/** The encryption algorithms 128-EEA1 and 128-EEA3 (liblte_security.cc): a key stream of SNOW 3G or
    ZUC is added to a message of any number of bits. */
module Eea {
  import opened BitStrings
  import opened Bytes
  import opened Gf2
  import opened Octet
  import opened OctetStrings
  import opened Word32
  import Snow3g
  import Uia2
  import Zuc

  // Octet i of a key stream.
  function StreamOctet(ks: seq<bv32>, i: nat): bv8
    requires i < 4 * |ks|
  {
    match i % 4
    case 0 => Byte3(ks[i / 4])
    case 1 => Byte2(ks[i / 4])
    case 2 => Byte1(ks[i / 4])
    case _ => Byte0(ks[i / 4])
  }

  // The first n octets of a key stream.
  function Stream(ks: seq<bv32>, n: nat): (s: seq<bv8>)
    requires n <= 4 * |ks|
    ensures |s| == n
  {
    seq(n, i requires 0 <= i < n => StreamOctet(ks, i))
  }

  // The octets and words that hold a number of bits.
  function OctetsFor(bits: nat): nat { (bits + 7) / 8 }
  function WordsFor(bits: nat): nat { (bits + 31) / 32 }

  // The first len bits of the message and the stream added up, and zeros behind them.
  function Ciphered(m: seq<bool>, z: seq<bool>, len: nat): (c: seq<bool>)
    requires len <= |m| && len <= |z|
    ensures |c| == |m|
  {
    Add(m[..len], z[..len]) + Zeros(|m| - len)
  }

  // Decryption is encryption: it brings back the first len bits, and zeros behind them.
  lemma DecryptionInvertsEncryption(m: seq<bool>, z: seq<bool>, len: nat)
    requires len <= |m| && len <= |z|
    ensures Ciphered(Ciphered(m, z, len), z, len) == m[..len] + Zeros(|m| - len)
  {
    var c := Ciphered(m, z, len);
    assert c[..len] == Add(m[..len], z[..len]);
    AddAssoc(m[..len], z[..len], z[..len]);
    AddZero(z[..len]);
    AddZero(m[..len]);
    hide Add, Zeros;
  }

  // ----- Adding the stream -----

  lemma {:induction false} AddedOctets(m: seq<bv8>, s: seq<bv8>, c: seq<bv8>)
    requires |m| == |s| == |c| && forall i :: 0 <= i < |m| ==> c[i] == Xor8(m[i], s[i])
    ensures BitsOf(c) == Add(BitsOf(m), BitsOf(s))
  {
    hide *;
    forall i: nat | i < |c| ensures BitsOfOctet(c[i]) == Piece(Add(BitsOf(m), BitsOf(s)), i) {
      BitsAt(m, i);
      BitsAt(s, i);
      XorOctet(m[i], s[i]);
      AddPiece(BitsOf(m), BitsOf(s), i);
    }
    BitsAre(c, Add(BitsOf(m), BitsOf(s)));
  }

  // The mask of zero_tailing_bits, for n bits in the last octet.
  function TailMask(n: nat): bv8
    requires 1 <= n <= 8
  {
    (0xFF as bv8) << (8 - n)
  }

  lemma TailBit(b: bv8, n: nat, i: nat)
    requires 1 <= n <= 8 && i < 8
    ensures Bit8(b & TailMask(n), Mask(i)) == (i < n && Bit8(b, Mask(i)))
  {
    hide TailMask;
    TailMasks(n);
  }

  lemma TailMasks(n: nat)
    requires 1 <= n <= 8
    ensures TailMask(n) == if n == 1 then 0x80 else if n == 2 then 0xC0 else if n == 3 then 0xE0 else if n == 4 then 0xF0
                           else if n == 5 then 0xF8 else if n == 6 then 0xFC else if n == 7 then 0xFE else 0xFF
  {
  }

  lemma TailOctet(b: bv8, n: nat)
    requires 1 <= n <= 8
    ensures BitsOfOctet(b & TailMask(n)) == BitsOfOctet(b)[..n] + Zeros(8 - n)
  {
    hide BitsOfOctet, Bit8, TailMask;
    var x, y := BitsOfOctet(b & TailMask(n)), BitsOfOctet(b)[..n] + Zeros(8 - n);
    forall i: nat | i < 8 ensures x[i] == y[i] {
      BitAt(b, i);
      BitAt(b & TailMask(n), i);
      TailBit(b, n, i);
    }
  }

  lemma LastOctet(c: seq<bv8>, n: nat, d: seq<bv8>)
    requires c != [] && 1 <= n <= 8 && d == c[..|c| - 1] + [c[|c| - 1] & TailMask(n)]
    ensures BitsOf(d) == BitsOf(c)[..8 * (|c| - 1) + n] + Zeros(8 - n)
  {
    hide *;
    var front, last := c[..|c| - 1], c[|c| - 1];
    TailOctet(last, n);
    assert c == front + [last];
    BitsLast(front, last);
    BitsLast(front, last & TailMask(n));
    Cut(BitsOf(front), BitsOfOctet(last), n, Zeros(8 - n));
  }

  lemma BitsLast(front: seq<bv8>, last: bv8)
    ensures BitsOf(front + [last]) == BitsOf(front) + BitsOfOctet(last)
  {
    hide BitsOfOctet;
    assert (front + [last])[..|front|] == front;
  }

  lemma Cut(a: seq<bool>, b: seq<bool>, n: nat, z: seq<bool>)
    requires n <= |b|
    ensures a + (b[..n] + z) == (a + b)[..|a| + n] + z
  {
  }

  // The bits of the last octet that are not part of the message.
  function Spare(len: nat): (bits: nat)
    ensures bits < 8
  {
    (8 - len % 8) % 8
  }

  lemma TailCount(len: nat)
    requires 0 < len
    ensures 0 < OctetsFor(len) && 8 * (OctetsFor(len) - 1) + (8 - Spare(len)) == len
  {
  }

  lemma TailCleared(c: seq<bv8>, len: nat)
    requires 0 < len && |c| == OctetsFor(len)
    ensures |c| > 0 && len <= 8 * |c|
    ensures BitsOf(c[..|c| - 1] + [c[|c| - 1] & TailMask(8 - Spare(len))]) == BitsOf(c)[..len] + Zeros(8 * |c| - len)
  {
    hide *;
    TailCount(len);
    LastOctet(c, 8 - Spare(len), c[..|c| - 1] + [c[|c| - 1] & TailMask(8 - Spare(len))]);
  }

  // zero_tailing_bits
  method ZeroTailingBits(data: array<bv8>, len: nat)
    requires 0 < len && OctetsFor(len) <= data.Length
    modifies data
    ensures BitsOf(data[..OctetsFor(len)]) == old(BitsOf(data[..OctetsFor(len)]))[..len] + Zeros(8 * OctetsFor(len) - len)
    ensures data[OctetsFor(len)..] == old(data[OctetsFor(len)..])
  {
    hide *;
    TailCount(len);
    ghost var d := data[..];
    var last := OctetsFor(len) - 1;
    var x := data[last] & TailMask(8 - Spare(len));
    data[last] := x;
    Updated(d, last, x, data[..]);
    TailCleared(d[..last + 1], len);
    assert data[..last + 1] == data[..][..last + 1] && data[last + 1..] == data[..][last + 1..];
  }

  lemma Updated(d: seq<bv8>, last: nat, x: bv8, e: seq<bv8>)
    requires last < |d| && e == d[last := x]
    ensures e[..last + 1] == d[..last + 1][..last] + [x] && e[last + 1..] == d[last + 1..]
  {
  }

  method AddOctet(msg: array<bv8>, i: nat, b: bv8, out: array<bv8>)
    requires i < msg.Length && i < out.Length
    modifies out
    ensures out[..] == old(out[..])[i := Xor8(old(msg[i]), b)]
    ensures msg == out || msg[..] == old(msg[..])
  {
    hide Xor8;
    out[i] := Xor8(msg[i], b);
  }

  // One round of the first loop.
  method AddWord(ks: array<bv32>, msg: array<bv8>, i: nat, out: array<bv8>)
    requires i < ks.Length && 4 * i + 4 <= msg.Length && 4 * i + 4 <= out.Length
    modifies out
    ensures forall j :: 4 * i <= j < 4 * i + 4 ==> out[j] == Xor8(old(msg[j]), StreamOctet(ks[..], j))
    ensures forall j :: 0 <= j < out.Length && !(4 * i <= j < 4 * i + 4) ==> out[j] == old(out[j])
  {
    hide StreamOctet, Xor8, Byte3, Byte2, Byte1, Byte0;
    WordOctets(ks[..], i);
    ghost var m, o, z := msg[..], out[..], ks[..];
    var k := 4 * i;
    AddOctet(msg, k, Byte3(ks[i]), out);
    AddOctet(msg, k + 1, Byte2(ks[i]), out);
    AddOctet(msg, k + 2, Byte1(ks[i]), out);
    AddOctet(msg, k + 3, Byte0(ks[i]), out);
    FourUpdates(o, k, Xor8(m[k], StreamOctet(z, k)), Xor8(m[k + 1], StreamOctet(z, k + 1)),
                Xor8(m[k + 2], StreamOctet(z, k + 2)), Xor8(m[k + 3], StreamOctet(z, k + 3)));
  }

  lemma FourUpdates(o: seq<bv8>, k: nat, a: bv8, b: bv8, c: bv8, d: bv8)
    requires k + 4 <= |o|
    ensures var r := o[k := a][k + 1 := b][k + 2 := c][k + 3 := d];
            && r[k] == a && r[k + 1] == b && r[k + 2] == c && r[k + 3] == d
            && forall j :: 0 <= j < |o| && !(k <= j < k + 4) ==> r[j] == o[j]
  {
  }

  // The loops of both algorithms: whole words, then the octets of the last one.
  method AddStream(ks: array<bv32>, msg: array<bv8>, len: nat, out: array<bv8>)
    requires 0 < len && ks.Length == WordsFor(len)
    requires OctetsFor(len) <= msg.Length && OctetsFor(len) <= out.Length
    modifies out
    ensures forall j :: 0 <= j < OctetsFor(len) ==> out[j] == Xor8(old(msg[j]), StreamOctet(ks[..], j))
    ensures forall j :: OctetsFor(len) <= j < out.Length ==> out[j] == old(out[j])
  {
    hide StreamOctet, Xor8;
    ghost var m, z := msg[..], ks[..];
    var whole := WordsFor(len) - 1;
    for i := 0 to whole
      invariant forall j :: 0 <= j < 4 * i ==> out[j] == Xor8(m[j], StreamOctet(z, j))
      invariant forall j :: 4 * i <= j < msg.Length ==> msg[j] == m[j]
      invariant forall j :: 4 * i <= j < out.Length ==> out[j] == old(out[j])
    {
      AddWord(ks, msg, i, out);
    }
    for i := 4 * whole to OctetsFor(len)
      invariant forall j :: 0 <= j < i ==> out[j] == Xor8(m[j], StreamOctet(z, j))
      invariant forall j :: i <= j < msg.Length ==> msg[j] == m[j]
      invariant forall j :: i <= j < out.Length ==> out[j] == old(out[j])
    {
      out[i] := Xor8(msg[i], StreamOctet(ks[..], i));
    }
  }

  // The part that both algorithms share.  The output may be the message itself.
  method Crypt(ks: array<bv32>, msg: array<bv8>, len: nat, out: array<bv8>)
    requires 0 < len && ks.Length == WordsFor(len)
    requires OctetsFor(len) <= msg.Length && OctetsFor(len) <= out.Length
    modifies out
    ensures BitsOf(out[..OctetsFor(len)]) ==
            Ciphered(old(BitsOf(msg[..OctetsFor(len)])), BitsOf(Stream(ks[..], OctetsFor(len))), len)
    ensures out[OctetsFor(len)..] == old(out[OctetsFor(len)..])
  {
    hide BitsOf, StreamOctet, Xor8, Add;
    ghost var n := OctetsFor(len);
    ghost var m, z := msg[..n], Stream(ks[..], n);
    AddStream(ks, msg, len, out);
    AddedOctets(m, z, out[..n]);
    ZeroTailingBits(out, len);
    AddFirst(BitsOf(m), BitsOf(z), len);
  }

  lemma WordOctets(ks: seq<bv32>, i: nat)
    requires i < |ks|
    ensures StreamOctet(ks, 4 * i) == Byte3(ks[i]) && StreamOctet(ks, 4 * i + 1) == Byte2(ks[i])
    ensures StreamOctet(ks, 4 * i + 2) == Byte1(ks[i]) && StreamOctet(ks, 4 * i + 3) == Byte0(ks[i])
  {
    hide Byte3, Byte2, Byte1, Byte0;
  }

  lemma AddFirst(a: seq<bool>, b: seq<bool>, k: nat)
    requires |a| == |b| && k <= |a|
    ensures Add(a, b)[..k] == Add(a[..k], b[..k])
  {
  }

  // ----- The two algorithms -----

  function Vector1(count: bv32, bearer: bv8, direction: bv8): (iv: seq<bv32>)
    ensures |iv| == 4
  {
    var w := ((bearer & 0x1F) as bv32 << 27) | ((direction & 1) as bv32 << 26);
    [w, count, w, count]
  }

  // The key stream for these inputs, n words of it.
  function Stream1(key: seq<bv8>, count: bv32, bearer: bv8, direction: bv8, n: nat): (ks: seq<bv32>)
    requires |key| == 16
    ensures |ks| == n
  {
    hide Snow3g.Initialized, Snow3g.Keystream, Uia2.Key, Vector1;
    Snow3g.Keystream(Snow3g.Initialized(Uia2.Key(key), Vector1(count, bearer, direction)), n + 1)[1..]
  }

  method Words1(key: seq<bv8>, count: bv32, bearer: bv8, direction: bv8, n: nat) returns (ks: array<bv32>)
    requires |key| == 16
    ensures fresh(ks) && ks[..] == Stream1(key, count, bearer, direction, n)
  {
    hide Uia2.Key, Vector1, Snow3g.Keystream, Snow3g.Initialized, Snow3g.KeyRounds;
    var state := new Snow3g.S3gState.Initialize(Uia2.Key(key), Vector1(count, bearer, direction));
    ks := new bv32[n](_ => 0);
    state.GenerateKeystream(n, ks);
    assert ks[..] == ks[..n];
  }

  method Eea1(key: seq<bv8>, count: bv32, bearer: bv8, direction: bv8, msg: array<bv8>, len: nat, out: array<bv8>)
    requires |key| == 16 && 0 < len && OctetsFor(len) <= msg.Length && OctetsFor(len) <= out.Length
    modifies out
    ensures BitsOf(out[..OctetsFor(len)]) ==
            Ciphered(old(BitsOf(msg[..OctetsFor(len)])),
                     BitsOf(Stream(Stream1(key, count, bearer, direction, WordsFor(len)), OctetsFor(len))), len)
    ensures out[OctetsFor(len)..] == old(out[OctetsFor(len)..])
  {
    hide BitsOf, Stream, Ciphered, Stream1;
    var ks := Words1(key, count, bearer, direction, WordsFor(len));
    Crypt(ks, msg, len, out);
  }

  function Octet4(bearer: bv8, direction: bv8): byte {
    (((bearer & 0x1F) << 3) | ((direction & 1) << 2)) as byte
  }

  function Vector3(count: bv32, bearer: bv8, direction: bv8): (iv: seq<byte>)
    ensures |iv| == 16
  {
    var half := [Byte3(count) as byte, Byte2(count) as byte, Byte1(count) as byte, Byte0(count) as byte]
                + [Octet4(bearer, direction), 0, 0, 0];
    half + half
  }

  function Stream3(key: seq<byte>, count: bv32, bearer: bv8, direction: bv8, n: nat): (ks: seq<bv32>)
    requires |key| == 16
    ensures |ks| == n
  {
    hide Zuc.Initialized, Zuc.Keystream, Vector3;
    Zuc.Keystream(Zuc.Initialized(key, Vector3(count, bearer, direction)), n + 1)[1..]
  }

  method Words3(key: seq<byte>, count: bv32, bearer: bv8, direction: bv8, n: nat) returns (ks: array<bv32>)
    requires |key| == 16
    ensures fresh(ks) && ks[..] == Stream3(key, count, bearer, direction, n)
  {
    hide Vector3, Zuc.Keystream, Zuc.Initialized, Zuc.WorkRounds;
    var state := new Zuc.ZucState();
    state.Initialize(key, Vector3(count, bearer, direction));
    ks := new bv32[n](_ => 0);
    state.GenerateKeystream(n, ks);
    assert ks[..] == ks[..n];
  }

  method Eea3(key: seq<byte>, count: bv32, bearer: bv8, direction: bv8, msg: array<bv8>, len: nat, out: array<bv8>)
    requires |key| == 16 && 0 < len && OctetsFor(len) <= msg.Length && OctetsFor(len) <= out.Length
    modifies out
    ensures BitsOf(out[..OctetsFor(len)]) ==
            Ciphered(old(BitsOf(msg[..OctetsFor(len)])),
                     BitsOf(Stream(Stream3(key, count, bearer, direction, WordsFor(len)), OctetsFor(len))), len)
    ensures out[OctetsFor(len)..] == old(out[OctetsFor(len)..])
  {
    hide BitsOf, Stream, Ciphered, Stream3;
    var ks := Words3(key, count, bearer, direction, WordsFor(len));
    Crypt(ks, msg, len, out);
  }
}
