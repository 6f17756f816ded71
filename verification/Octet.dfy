/** Exclusive or of octets, with its group laws. */
module Octet {

  function Xor8(a: bv8, b: bv8): bv8 {
    a ^ b
  }

  lemma Assoc8(a: bv8, b: bv8, c: bv8)
    ensures Xor8(Xor8(a, b), c) == Xor8(a, Xor8(b, c))
  {
  }

  lemma Comm8(a: bv8, b: bv8)
    ensures Xor8(a, b) == Xor8(b, a)
  {
  }

  lemma Self8(a: bv8)
    ensures Xor8(a, a) == 0 && Xor8(a, 0) == a && Xor8(0, a) == a
  {
  }

  lemma Zero8(a: bv8, b: bv8)
    ensures Xor8(a, b) == 0 <==> a == b
  {
  }

  lemma Exchange8(a: bv8, b: bv8, c: bv8, d: bv8)
    ensures Xor8(Xor8(a, b), Xor8(c, d)) == Xor8(Xor8(a, c), Xor8(b, d))
  {
    hide *;
    Assoc8(a, b, Xor8(c, d));
    Assoc8(b, c, d);
    Comm8(b, c);
    Assoc8(c, b, d);
    Assoc8(a, c, Xor8(b, d));
  }
}
