/** Exclusive or of 32-bit words, with the group laws the ciphers' proofs rest on. */
module Word32 {

  function Xor(a: bv32, b: bv32): bv32 {
    a ^ b
  }

  lemma Assoc(a: bv32, b: bv32, c: bv32)
    ensures Xor(Xor(a, b), c) == Xor(a, Xor(b, c))
  {
  }

  lemma Comm(a: bv32, b: bv32)
    ensures Xor(a, b) == Xor(b, a)
  {
  }

  lemma Unit(a: bv32)
    ensures Xor(a, 0) == a && Xor(0, a) == a && Xor(a, a) == 0
  {
  }

  lemma Zero(a: bv32, b: bv32)
    ensures Xor(a, b) == 0 <==> a == b
  {
    hide *;
    Unit(a);
    Unit(b);
    Assoc(a, b, b);
  }

  lemma Cancel(a: bv32, b: bv32, k: bv32)
    requires Xor(a, k) == Xor(b, k)
    ensures a == b
  {
  }

  lemma Exchange(a: bv32, b: bv32, c: bv32, d: bv32)
    ensures Xor(Xor(a, b), Xor(c, d)) == Xor(Xor(a, c), Xor(b, d))
  {
    hide *;
    Assoc(a, b, Xor(c, d));
    Assoc(b, c, d);
    Comm(b, c);
    Assoc(c, b, d);
    Assoc(a, c, Xor(b, d));
  }


  // Sum modulo 2^32.
  function Plus(a: bv32, b: bv32): bv32 {
    a + b
  }

  function Minus(a: bv32, b: bv32): bv32 {
    a - b
  }

  lemma MinusSum(a: bv32, b: bv32)
    ensures Minus(a + b, a) == b && Minus(a + b, b) == a
  {
  }

  lemma CancelLeft(k: bv32, a: bv32, b: bv32)
    requires Plus(k, a) == Plus(k, b)
    ensures a == b
  {
    hide Minus;
    MinusSum(k, a);
    MinusSum(k, b);
  }

  lemma CancelRight(a: bv32, b: bv32, k: bv32)
    requires Plus(a, k) == Plus(b, k)
    ensures a == b
  {
    hide Minus;
    MinusSum(a, k);
    MinusSum(b, k);
  }

  // A word made of four octets, most significant first, and the octets of a word.
  function MakeU32(a: bv8, b: bv8, c: bv8, d: bv8): bv32 {
    (a as bv32 << 24) | (b as bv32 << 16) | (c as bv32 << 8) | (d as bv32)
  }

  function Byte3(x: bv32): bv8 { (x >> 24) as bv8 }
  function Byte2(x: bv32): bv8 { ((x >> 16) & 0xFF) as bv8 }
  function Byte1(x: bv32): bv8 { ((x >> 8) & 0xFF) as bv8 }
  function Byte0(x: bv32): bv8 { (x & 0xFF) as bv8 }

  lemma MakeU32Injective(a: bv8, b: bv8, c: bv8, d: bv8, a': bv8, b': bv8, c': bv8, d': bv8)
    requires MakeU32(a, b, c, d) == MakeU32(a', b', c', d')
    ensures a == a' && b == b' && c == c' && d == d'
  {
  }

  lemma BytesDetermine(x: bv32, y: bv32)
    requires Byte3(x) == Byte3(y) && Byte2(x) == Byte2(y) && Byte1(x) == Byte1(y) && Byte0(x) == Byte0(y)
    ensures x == y
  {
  }
}
