/** The integrity algorithm 128-EIA3 (liblte_security.cc): for every bit that is set in the message
    the 32 key-stream bits from its position on are added up. */
module Eia3 {
  import opened BitStrings
  import opened Bytes
  import opened Gf2
  import opened OctetStrings
  import opened Word32
  import Zuc

  // ----- What is to be computed -----

  // The bits of a key stream.
  function StreamBits(ks: seq<bv32>): (z: seq<bool>)
    ensures |z| == 32 * |ks|
  {
    if ks == [] then [] else StreamBits(ks[..|ks| - 1]) + BitsOfWord(ks[|ks| - 1])
  }

  // The windows of the first n bits of the message.
  function Windows(m: seq<bool>, z: seq<bool>, n: nat): (t: seq<bool>)
    requires n <= |m| && n + 32 <= |z|
    ensures |t| == 32
  {
    if n == 0 then Zeros(32) else Add(Windows(m, z, n - 1), If(m[n - 1], z[n - 1..n + 31]))
  }

  // The window behind the message and the last word of the stream are always added.
  function Mac(m: seq<bool>, z: seq<bool>): (t: seq<bool>)
    requires |m| + 32 <= |z|
    ensures |t| == 32
  {
    Add(Add(Windows(m, z, |m|), z[|m|..|m| + 32]), z[|z| - 32..])
  }

  lemma WindowStep(m: seq<bool>, z: seq<bool>, n: nat)
    requires n <= |m| && n + 32 <= |z|
    ensures Windows(m, z, n) == if n == 0 then Zeros(32) else Add(Windows(m, z, n - 1), If(m[n - 1], z[n - 1..n + 31]))
  {
    hide Add, If, Zeros;
  }

  lemma {:induction false} WindowsLinear(a: seq<bool>, b: seq<bool>, z: seq<bool>, n: nat)
    requires |a| == |b| && n <= |a| && n + 32 <= |z|
    ensures Windows(Add(a, b), z, n) == Add(Windows(a, z, n), Windows(b, z, n))
  {
    hide *;
    WindowStep(a, z, n);
    WindowStep(b, z, n);
    WindowStep(Add(a, b), z, n);
    if n == 0 {
      AddZero(Zeros(32));
    } else {
      var w := z[n - 1..n + 31];
      WindowsLinear(a, b, z, n - 1);
      BitOfAdd(a, b, n - 1);
      IfAdds(a[n - 1], b[n - 1], w, w);
      AddExchange(Windows(a, z, n - 1), Windows(b, z, n - 1), If(a[n - 1], w), If(b[n - 1], w));
    }
  }

  lemma BitOfAdd(a: seq<bool>, b: seq<bool>, i: nat)
    requires |a| == |b| && i < |a|
    ensures Add(a, b)[i] == (a[i] != b[i])
  {
  }

  // For a fixed key stream the code of a sum of three messages of equal length is the sum of their codes.
  lemma MacIsAffine(a: seq<bool>, b: seq<bool>, c: seq<bool>, z: seq<bool>)
    requires |a| == |b| == |c| && |a| + 32 <= |z|
    ensures Mac(Add(Add(a, b), c), z) == Add(Add(Mac(a, z), Mac(b, z)), Mac(c, z))
  {
    WindowsLinear(Add(a, b), c, z, |a|);
    WindowsLinear(a, b, z, |a|);
    var n := |a|;
    OddSum(Windows(a, z, n), Windows(b, z, n), Windows(c, z, n), z[n..n + 32], z[|z| - 32..]);
    hide Add, Windows;
  }

  lemma OddSum(x: seq<bool>, y: seq<bool>, w: seq<bool>, u: seq<bool>, v: seq<bool>)
    requires |x| == |y| == |w| == |u| == |v|
    ensures Add(Add(Add(Add(x, y), w), u), v) ==
            Add(Add(Add(Add(x, u), v), Add(Add(y, u), v)), Add(Add(w, u), v))
  {
  }

  // Without a bit that is set, the code is the window behind the message and the last word.
  lemma {:induction false} MacOfZeros(n: nat, z: seq<bool>)
    requires n + 32 <= |z|
    ensures Mac(Zeros(n), z) == Add(z[n..n + 32], z[|z| - 32..])
  {
    hide *;
    NoWindows(Zeros(n), z, n) by { ZeroBits(n); }
    AddZero(z[n..n + 32]);
    MacMeans(Zeros(n), z);
  }

  lemma ZeroBits(n: nat)
    ensures forall i :: 0 <= i < n ==> !Zeros(n)[i]
  {
  }

  lemma MacMeans(m: seq<bool>, z: seq<bool>)
    requires |m| + 32 <= |z|
    ensures Mac(m, z) == Add(Add(Windows(m, z, |m|), z[|m|..|m| + 32]), z[|z| - 32..])
  {
    hide Windows, Add;
  }

  lemma {:induction false} NoWindows(m: seq<bool>, z: seq<bool>, n: nat)
    requires n <= |m| && n + 32 <= |z| && forall i :: 0 <= i < n ==> !m[i]
    ensures Windows(m, z, n) == Zeros(32)
  {
    hide Add, If, Zeros;
    if n > 0 {
      NoWindows(m, z, n - 1);
      AddZero(Zeros(32));
      NoIf(z[n - 1..n + 31]);
    }
  }

  lemma NoIf(w: seq<bool>)
    requires |w| == 32
    ensures If(false, w) == Zeros(32)
  {
  }

  // Turning bit i of the message adds the 32 bits of the key stream from i on.  With MacOfZeros this
  // determines the code of every message.
  lemma TurnedBit(m: seq<bool>, z: seq<bool>, i: nat)
    requires i < |m| && |m| + 32 <= |z|
    ensures Mac(m[i := !m[i]], z) == Add(Mac(m, z), z[i..i + 32])
  {
    hide *;
    var t := m[i := !m[i]];
    OtherWindows(m, z, i, |m|);
    MacMeans(m, z);
    MacMeans(t, z);
    Swapped(Windows(m, z, |m|), z[i..i + 32], z[|m|..|m| + 32], z[|z| - 32..]);
  }

  lemma Swapped(w: seq<bool>, a: seq<bool>, b: seq<bool>, c: seq<bool>)
    requires |w| == |a| == |b| == |c|
    ensures Add(Add(Add(w, a), b), c) == Add(Add(Add(w, b), c), a)
  {
  }

  lemma {:induction false} OtherWindows(m: seq<bool>, z: seq<bool>, i: nat, n: nat)
    requires i < |m| && n <= |m| && |m| + 32 <= |z|
    ensures var t := m[i := !m[i]];
            Windows(t, z, n) == if i < n then Add(Windows(m, z, n), z[i..i + 32]) else Windows(m, z, n)
  {
    hide *;
    var t := m[i := !m[i]];
    WindowStep(m, z, n);
    WindowStep(t, z, n);
    if n > 0 {
      OtherWindows(m, z, i, n - 1);
      var w := z[n - 1..n + 31];
      if i == n - 1 {
        OneWindow(Windows(m, z, n - 1), m[i], w);
      } else if i < n - 1 {
        AnotherWindow(Windows(m, z, n - 1), z[i..i + 32], If(m[n - 1], w));
      }
    }
  }

  lemma OneWindow(x: seq<bool>, bit: bool, w: seq<bool>)
    requires |x| == |w|
    ensures Add(x, If(!bit, w)) == Add(Add(x, If(bit, w)), w)
  {
  }

  lemma AnotherWindow(x: seq<bool>, a: seq<bool>, b: seq<bool>)
    requires |x| == |a| == |b|
    ensures Add(Add(x, a), b) == Add(Add(x, b), a)
  {
  }

  // ----- The code -----

  lemma {:induction false} WordAt(ks: seq<bv32>, i: nat)
    requires i < |ks|
    ensures StreamBits(ks)[32 * i..32 * i + 32] == BitsOfWord(ks[i])
  {
    hide BitsOfWord;
    var last := |ks| - 1;
    if i < last {
      WordAt(ks[..last], i);
      assert StreamBits(ks)[32 * i..32 * i + 32] == StreamBits(ks[..last])[32 * i..32 * i + 32];
    }
  }

  function ShiftLeft(w: seq<bool>, t: nat): (r: seq<bool>)
    requires t <= |w|
    ensures |r| == |w|
  {
    w[t..] + Zeros(t)
  }

  function ShiftRight(w: seq<bool>, t: nat): (r: seq<bool>)
    requires t <= |w|
    ensures |r| == |w|
  {
    Zeros(t) + w[..|w| - t]
  }

  function OrBits(a: seq<bool>, b: seq<bool>): (r: seq<bool>)
    requires |a| == |b|
    ensures |r| == |a|
  {
    seq(|a|, i requires 0 <= i < |a| => a[i] || b[i])
  }

  lemma AcrossWords(z: seq<bool>, k: nat, t: nat)
    requires 0 < t < 32 && 32 * k + 64 <= |z|
    ensures OrBits(ShiftLeft(z[32 * k..32 * k + 32], t), ShiftRight(z[32 * (k + 1)..32 * (k + 1) + 32], 32 - t)) ==
            z[32 * k + t..32 * k + t + 32]
  {
    var a, b := z[32 * k..32 * k + 32], z[32 * (k + 1)..32 * (k + 1) + 32];
    var left, right, w := ShiftLeft(a, t), ShiftRight(b, 32 - t), z[32 * k + t..32 * k + t + 32];
    forall j | 0 <= j < 32 ensures OrBits(left, right)[j] == w[j] {
      assert w[j] == z[32 * k + (t + j)];
      if j < 32 - t {
        assert left[j] == a[t + j] && !right[j];
      } else {
        assert !left[j] && right[j] == b[j - (32 - t)];
      }
    }
  }

  // GET_WORD
  method GetWord(ks: array<bv32>, i: nat) returns (w: seq<bool>)
    requires i + 32 <= 32 * ks.Length
    ensures w == StreamBits(ks[..])[i..i + 32]
  {
    hide BitsOfWord, StreamBits, ShiftLeft, ShiftRight, OrBits;
    var k, t := i / 32, i % 32;
    WordAt(ks[..], k);
    if t == 0 {
      w := BitsOfWord(ks[k]);
    } else {
      WordAt(ks[..], k + 1);
      AcrossWords(StreamBits(ks[..]), k, t);
      w := OrBits(ShiftLeft(BitsOfWord(ks[k]), t), ShiftRight(BitsOfWord(ks[k + 1]), 32 - t));
    }
  }

  // GET_BIT
  method GetBit(data: seq<bv8>, i: nat) returns (b: bool)
    requires i < 8 * |data|
    ensures b == BitsOf(data)[i]
  {
    hide BitsOf, Bit8, BitsOfOctet, Mask;
    b := Bit8(data[i / 8], Mask(i % 8));
    BitsAt(data, i / 8);
    BitAt(data[i / 8], i % 8);
    assert BitsOf(data)[i] == BitsOf(data)[8 * (i / 8)..8 * (i / 8) + 8][i % 8];
  }

  function Octet4(bearer: bv8): byte {
    ((bearer << 3) & 0xF8) as byte
  }

  function Turned(b: bv8, direction: bv8): byte {
    (b ^ ((direction & 1) << 7)) as byte
  }

  function Vector(count: bv32, bearer: bv8, direction: bv8): (iv: seq<byte>)
    ensures |iv| == 16
  {
    [Byte3(count) as byte, Byte2(count) as byte, Byte1(count) as byte, Byte0(count) as byte]
    + [Octet4(bearer), 0, 0, 0]
    + [Turned(Byte3(count), direction), Byte2(count) as byte, Byte1(count) as byte, Byte0(count) as byte]
    + [Octet4(bearer), 0, Turned(0, direction), 0]
  }

  // The key stream for these inputs, n words of it.
  function Stream(key: seq<byte>, count: bv32, bearer: bv8, direction: bv8, n: nat): (ks: seq<bv32>)
    requires |key| == 16
    ensures |ks| == n
  {
    hide Zuc.Initialized, Zuc.Keystream, Vector;
    Zuc.Keystream(Zuc.Initialized(key, Vector(count, bearer, direction)), n + 1)[1..]
  }

  function WordsFor(len: nat): (n: nat)
    ensures len + 32 <= 32 * n
  {
    (len + 64 + 31) / 32
  }

  method Eia3(key: seq<byte>, count: bv32, bearer: bv8, direction: bv8, msg: seq<bv8>, len: nat) returns (mac: seq<bool>)
    requires |key| == 16 && len <= 8 * |msg|
    ensures mac == Mac(BitsOf(msg)[..len], StreamBits(Stream(key, count, bearer, direction, WordsFor(len))))
  {
    hide BitsOf, StreamBits, Stream, Windows, Add, BitsOfWord;
    var l := WordsFor(len);
    var ks := Words(key, count, bearer, direction, l);
    ghost var s := ks[..];
    ghost var m, z := BitsOf(msg)[..len], StreamBits(s);
    var t := Zeros(32);
    WindowStep(m, z, 0);
    for i := 0 to len
      invariant t == Windows(m, z, i) && ks[..] == s
    {
      WindowStep(m, z, i + 1);
      var b := GetBit(msg, i);
      if b {
        var w := GetWord(ks, i);
        t := Add(t, w);
      } else {
        AddZero(t);
      }
    }
    var w := GetWord(ks, len);
    t := Add(t, w);
    WordAt(ks[..], l - 1);
    assert z[|z| - 32..] == z[32 * (l - 1)..32 * (l - 1) + 32];
    mac := Add(t, BitsOfWord(ks[l - 1]));
  }

  method Words(key: seq<byte>, count: bv32, bearer: bv8, direction: bv8, n: nat) returns (ks: array<bv32>)
    requires |key| == 16
    ensures fresh(ks) && ks[..] == Stream(key, count, bearer, direction, n)
  {
    hide Vector, Zuc.Keystream, Zuc.Initialized, Zuc.WorkRounds;
    var state := new Zuc.ZucState();
    state.Initialize(key, Vector(count, bearer, direction));
    ks := new bv32[n](_ => 0);
    state.GenerateKeystream(n, ks);
    assert ks[..] == ks[..n];
  }
}
