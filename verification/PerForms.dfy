/** The encodings of asn1_utils.cc as numbers: how many bits each pack function appends, and which
    number they are.  Round trips alone would allow a writer and a reader that agree on other forms. */
module PerForms {
  import opened BitStrings
  import opened Bytes
  import opened BitRefs
  import opened Options
  import opened Per
  import opened PerFields

  // What is written is start, followed by n bits that are the number v.
  ghost predicate Writes(r: Option<seq<bool>>, start: seq<bool>, v: nat, n: nat) {
    r.Some? && |r.value| == |start| + n && start <= r.value && FromBits(r.value[|start|..]) == v
  }

  lemma WritesNumber(start: seq<bool>, v: nat, n: nat)
    requires v < Pow2(n)
    ensures Writes(Some(start + ToBits(v, n)), start, v, n)
  {
    hide ToBits, FromBits, Pow2, Low;
    assert (start + ToBits(v, n))[|start|..] == ToBits(v, n);
    FromToBits(v, n);
    LowSmall(v, n);
  }

  lemma WritesTwo(start: seq<bool>, a: nat, m: nat, b: nat, n: nat)
    requires a < Pow2(m) && b < Pow2(n)
    ensures Writes(Some(start + ToBits(a, m) + ToBits(b, n)), start, Shl(a, n) + b, m + n)
  {
    hide *;
    ShlBound(a, m, n);
    ToBitsJoin(a, b, m, n);
    Associate(start, ToBits(a, m), ToBits(b, n));
    WritesNumber(start, Shl(a, n) + b, m + n);
  }

  // The number of bits for a range, from its defining property.
  lemma BitsOfRange(ra: nat, k: nat)
    requires 0 < ra <= Pow2(k) && (k > 0 ==> Pow2(k - 1) < ra)
    ensures CeilLog2(ra) == k
  {
    hide CeilLog2, Pow2;
    NarrowRange(ra, k);
    if k > 0 {
      WideRange(ra, k - 1);
    }
  }

  // ----- Lengths -----

  // Where a length starts.
  function LengthStart(out: seq<bool>, aligned: bool): seq<bool> {
    if aligned then Pad(out) else out
  }

  // One octet below 128, two with the mark 10 in front below 16384, and, only aligned, three from there on.
  lemma LengthForm(out: seq<bool>, n: nat, aligned: bool)
    ensures n < 128 ==> Writes(PutLength(out, n, aligned), LengthStart(out, aligned), n, 8)
    ensures 128 <= n < 16384 ==> Writes(PutLength(out, n, aligned), LengthStart(out, aligned), 0x8000 + n, 16)
    ensures 16384 <= n && aligned ==> (PutLength(out, n, true).Some? <==> n <= 65536)
    ensures 16384 <= n <= 65536 && aligned ==>
              Writes(PutLength(out, n, true), Pad(out), 0xC0_0000 + 65536 * (n / 16384) + n % 16384, 24)
    ensures 16384 <= n && !aligned ==> PutLength(out, n, false).None?
  {
    hide ToBits, FromBits, Pow2, Pad, Shl, Extends, Writes;
    LengthPowers();
    SmallPowers();
    var start := LengthStart(out, aligned);
    if n < 128 {
      WritesNumber(start, n, 8);
    } else if n < 16384 {
      WritesTwo(start, 2, 2, n, 14);
    } else if aligned && n <= 65536 {
      LongLengthForm(start, n);
    }
  }

  lemma LongLengthForm(start: seq<bool>, n: nat)
    requires 16384 <= n <= 65536
    ensures Writes(Some(start + ToBits(3, 2) + ToBits(n / 16384, 6) + ToBits(n - n / 16384 * 16384, 16)),
                   start, 0xC0_0000 + 65536 * (n / 16384) + n % 16384, 24)
  {
    hide *;
    LengthPowers();
    SmallPowers();
    var m := n / 16384;
    assert m < 64 && n - m * 16384 == n % 16384;
    ToBitsJoin(3, m, 2, 6);
    ShlSix(3);
    Associate(start, ToBits(3, 2), ToBits(m, 6));
    assert Shl(3, 6) + m < 256;
    WritesTwo(start, 192 + m, 8, n % 16384, 16);
    ShlByte(192 + m);
    ShlShl(192 + m, 8, 8);
    ShlByte(256 * (192 + m));
  }

  // Whatever the reader takes for a length of n has at least as many bits as the writer's form.
  lemma LengthIsShortest(data: seq<bool>, pos: nat, aligned: bool)
    ensures GetLength(data, pos, aligned).Some? ==>
              var (n, q) := GetLength(data, pos, aligned).value;
              n < 16384 && q - (if aligned then AlignUp(pos) else pos) >= (if n < 128 then 8 else 16)
  {
    hide FromBits, Pow2, AlignUp;
    LengthPowers();
  }

  // ----- Constrained whole numbers -----

  // The offset in a range that takes k bits.  Aligned, a range of 256 takes an octet and one up to
  // 65536 two of them, on octet boundaries; a larger one has its octets counted, on two bits.
  lemma ConstrainedForm(out: seq<bool>, n: nat, lb: nat, ub: nat, aligned: bool, k: nat)
    requires lb <= n <= ub && (lb < ub ==> Packable(n - lb, ub - lb + 1, aligned))
    requires ub - lb < Pow2(k) && (k > 0 ==> Pow2(k - 1) <= ub - lb)
    ensures !aligned || ub - lb < 255 ==> Writes(PutConstrained(out, n, lb, ub, aligned), out, n - lb, k)
    ensures aligned && ub - lb == 255 ==> Writes(PutConstrained(out, n, lb, ub, aligned), Pad(out), n - lb, 8)
    ensures aligned && 256 <= ub - lb < 65536 ==> Writes(PutConstrained(out, n, lb, ub, aligned), Pad(out), n - lb, 16)
    ensures aligned && 65536 <= ub - lb < 0x1_0000_0000 ==>
              LongWay(PutConstrained(out, n, lb, ub, aligned), out, n - lb)
  {
    hide ToBits, FromBits, Pow2, Pad, Writes, CeilLog2, PutOctetRange, PutLongRange, LongWay, Extends;
    SmallPowers();
    var ra := ub - lb + 1;
    BitsOfRange(ra, k);
    if lb == ub {
      OneValue(k);
      NoBits(out);
    } else if !aligned || ra < 256 {
      if aligned {
        NarrowRange(ra, 8);
      } else {
        NarrowRange(ra, 31);
      }
      WritesNumber(out, n - lb, k);
    } else if ra <= 65536 {
      OctetRangeForm(out, n - lb, ra, k);
    } else if ra <= 0x1_0000_0000 {
      LongRangeForm(out, n - lb, ra, k);
    }
  }

  lemma OneValue(k: nat)
    requires 0 < Pow2(k) && (k > 0 ==> Pow2(k - 1) <= 0)
    ensures k == 0
  {
  }

  lemma NoBits(out: seq<bool>)
    ensures Writes(Some(out), out, 0, 0)
  {
    assert out[|out|..] == [];
  }

  // m octets hold v, and no fewer do.
  ghost predicate LeastOctets(v: nat, m: nat) {
    1 <= m && v < Pow2(8 * m) && (m > 1 ==> Pow2(8 * (m - 1)) <= v)
  }

  // The number of octets, up to o, and then v on m octets, from an octet boundary on.
  ghost predicate Counted(r: Option<seq<bool>>, out: seq<bool>, v: nat, o: seq<bool>, m: nat) {
    1 <= m && LeastOctets(v, m) && Writes(Some(o), out, m - 1, 2) && Writes(r, Pad(o), v, 8 * m)
  }

  lemma CountedIntro(r: Option<seq<bool>>, out: seq<bool>, v: nat, o: seq<bool>, m: nat)
    requires 1 <= m && LeastOctets(v, m) && Writes(Some(o), out, m - 1, 2) && Writes(r, Pad(o), v, 8 * m)
    ensures LongWay(r, out, v)
  {
    assert Counted(r, out, v, o, m);
  }

  ghost predicate LongWay(r: Option<seq<bool>>, out: seq<bool>, v: nat) {
    exists o: seq<bool>, m: nat :: Counted(r, out, v, o, m)
  }

  lemma OctetRangeForm(out: seq<bool>, v: nat, ra: nat, k: nat)
    requires v < ra && 256 <= ra <= 65536 && CeilLog2(ra) == k
    ensures Writes(PutOctetRange(out, v, k), Pad(out), v, if ra == 256 then 8 else 16)
  {
    hide ToBits, FromBits, Pow2, Pad, Writes, CeilLog2, Extends;
    SmallPowers();
    NarrowRange(ra, 16);
    WideRange(ra, 7) by { Pow2Seven(); }
    if ra == 256 {
      NarrowRange(ra, 8);
    } else {
      WideRange(ra, 8);
    }
    var zeros := Octets(k) * 8 - k;
    PaddedNumber(Pad(out), zeros, v, k);
    PadPadded(Pad(out) + ToBits(0, zeros) + ToBits(v, k));
  }

  lemma Pow2Seven()
    ensures Pow2(7) == 128
  {
    assert Pow2(4) == 16;
  }

  lemma PaddedNumber(start: seq<bool>, zeros: nat, v: nat, k: nat)
    requires v < Pow2(k)
    ensures Writes(Some(start + ToBits(0, zeros) + ToBits(v, k)), start, v, zeros + k)
  {
    hide *;
    PowPositive(zeros);
    WritesTwo(start, 0, zeros, v, k);
    ShlZero(k);
  }

  lemma PowPositive(n: nat)
    ensures 0 < Pow2(n)
  {
  }

  lemma LongRangeForm(out: seq<bool>, v: nat, ra: nat, k: nat)
    requires v < ra && v < 0x8000_0000 && 65536 < ra <= 0x1_0000_0000 && CeilLog2(ra) == k
    ensures 0 < k
    ensures LongWay(PutLongRange(out, v, k), out, v)
  {
    hide *;
    SmallPowers();
    NarrowRange(ra, 32);
    WideRange(ra, 16);
    var bits := BitLength(v);
    var m := Octets(bits);
    ShortNumber(v, 31);
    BitsOfRange(Octets(k), 2) by { Pow2Two(); }
    PutLongForm(out, v, k);
    OctetsOf(v);
    var o := out + ToBits(m - 1, 2);
    WritesNumber(out, m - 1, 2) by { Pow2Two(); }
    PaddedNumber(Pad(o), m * 8 - bits, v, bits);
    assert PutLongRange(out, v, k) == Some(Pad(o) + ToBits(0, m * 8 - bits) + ToBits(v, bits)) by { LongFormIs(out, m, v, bits); }
    CountedIntro(PutLongRange(out, v, k), out, v, o, m);
  }

  lemma LongFormIs(out: seq<bool>, m: nat, v: nat, bits: nat)
    requires 0 < m && bits <= m * 8
    ensures LongForm(out, m, 2, v, bits) == Pad(out + ToBits(m - 1, 2)) + ToBits(0, m * 8 - bits) + ToBits(v, bits)
  {
  }

  lemma Pow2Two()
    ensures Pow2(1) == 2 && Pow2(2) == 4
  {
  }

  lemma OctetsOf(v: nat)
    ensures LeastOctets(v, Octets(BitLength(v)))
  {
    hide BitLength, Octets, Pow2;
    var bits := BitLength(v);
    var m := Octets(bits);
    Pow2Monotone(bits, 8 * m);
    if m > 1 {
      Pow2Monotone(8 * (m - 1), bits - 1);
    }
  }

  // ----- Small numbers and enumerations -----

  lemma SmallForm(out: seq<bool>, n: nat)
    ensures PutSmall(out, n).Some? <==> n <= 63
    ensures n <= 63 ==> Writes(PutSmall(out, n), out, n, 7)
  {
    hide ToBits, FromBits, Pow2, Writes;
    Pow2Seven();
    if n <= 63 {
      WritesNumber(out, n, 7);
    }
  }

  // k bits for the values of the root; with an extension marker a bit in front of them, or an octet
  // with the top bit set for the values behind the root.
  lemma EnumForm(out: seq<bool>, e: nat, types: nat, exts: nat, hasExt: bool, k: nat)
    requires exts < types && k < 31
    requires var root := if hasExt then types - exts else types; root <= Pow2(k) && (k > 0 ==> Pow2(k - 1) < root)
    ensures PutEnum(out, e, types, exts, hasExt).Some? <==> e < types && (hasExt ==> e <= types - exts + 63)
    ensures !hasExt && e < types ==> Writes(PutEnum(out, e, types, exts, hasExt), out, e, k)
    ensures hasExt && e < types - exts ==> Writes(PutEnum(out, e, types, exts, hasExt), out, e, k + 1)
    ensures hasExt && types - exts <= e < types && e <= types - exts + 63 ==>
              Writes(PutEnum(out, e, types, exts, hasExt), out, 128 + (e - (types - exts)), 8)
  {
    hide ToBits, FromBits, Pow2, Writes, CeilLog2, Extends, Shl;
    Pow2Two();
    Pow2Seven();
    if hasExt {
      BitsOfRange(types - exts, k);
      if e < types - exts {
        WritesTwo(out, 0, 1, e, k);
        ShlZero(k);
      } else if e <= types - exts + 63 {
        WritesTwo(out, 1, 1, e - (types - exts), 7);
        ShlSeven();
      }
    } else {
      BitsOfRange(types, k);
      if e < types {
        WritesNumber(out, e, k);
      }
    }
  }

  lemma ShlSeven()
    ensures Shl(1, 7) == 128
  {
    assert Shl(1, 4) == 16;
  }

  // ----- Octets and bit fields -----

  // The length, then eight bits for each octet, in order.
  lemma OctetsForm(out: seq<bool>, octets: seq<byte>, aligned: bool, i: nat)
    requires i < |octets| && PutLength(out, |octets|, aligned).Some?
    ensures var start := PutLength(out, |octets|, aligned).value;
            && PutOctets(out, octets, aligned).Some?
            && var r := PutOctets(out, octets, aligned).value;
            && start <= r && |r| == |start| + 8 * |octets|
            && FromBits(r[|start| + 8 * i..|start| + 8 * i + 8]) == octets[i]
  {
    hide PutLength, OctetBits, FromBits, ToBits, Pow2, Low;
    var start := PutLength(out, |octets|, aligned).value;
    OctetAt(octets, i);
    SliceBehind(start, OctetBits(octets), 8 * i, 8 * i + 8);
    FromToBits(octets[i], 8);
    EightBits();
    LowSmall(octets[i], 8);
  }

  lemma SliceBehind(a: seq<bool>, b: seq<bool>, i: nat, j: nat)
    requires i <= j <= |b|
    ensures (a + b)[|a| + i..|a| + j] == b[i..j]
  {
  }

  // The number whose octets are given from the least significant one on.
  ghost function Little(octets: seq<byte>): nat {
    if octets == [] then 0 else Little(octets[..|octets| - 1]) + Shl(octets[|octets| - 1], 8 * (|octets| - 1))
  }

  lemma {:induction false} DownIsLittle(octets: seq<byte>)
    ensures FromBits(DownBits(octets)) == Little(octets)
  {
    hide FromBits, ToBits, Pow2, Shl, Low;
    if octets == [] {
      NoNumber();
    } else {
      var last := |octets| - 1;
      DownIsLittle(octets[..last]);
      FromBitsJoin(ToBits(octets[last], 8), DownBits(octets[..last]));
      FromToBits(octets[last], 8);
      EightBits();
      LowSmall(octets[last], 8);
    }
  }

  lemma NoNumber()
    ensures FromBits([]) == 0
  {
  }

  // A bit field of a fixed size is that number, on an octet boundary if it is aligned and has more
  // than 16 bits.
  lemma BitFieldForm(out: seq<bool>, octets: seq<byte>, size: nat, aligned: bool)
    requires 0 < size && |octets| == Octets(size) && octets[|octets| - 1] < Pow2(TopBits(size))
    ensures Writes(PutBitField(out, octets, size, aligned), if aligned && size > 16 then Pad(out) else out, Little(octets), size)
  {
    hide FromBits, ToBits, Pow2, Shl, Low, DownBits, TopBits, Octets, Pad;
    var start := if aligned && size > 16 then Pad(out) else out;
    var last := |octets| - 1;
    var top, rest := ToBits(octets[last], TopBits(size)), DownBits(octets[..last]);
    DownIsLittle(octets[..last]);
    FromBitsJoin(top, rest);
    FromToBits(octets[last], TopBits(size));
    LowSmall(octets[last], TopBits(size));
    SliceBehind(start, top + rest, 0, |top + rest|);
    Associate(start, top, rest);
    assert PutBitField(out, octets, size, aligned).value[|start|..] == top + rest;
  }

  // ----- Open types and extension groups -----

  // The length in octets, the body, and fewer than eight zeros.
  lemma OpenForm(out: seq<bool>, body: seq<bool>, aligned: bool, octets: nat)
    requires 8 * octets - 8 < |body| <= 8 * octets && PutLength(out, octets, aligned).Some?
    ensures var start := PutLength(out, octets, aligned).value;
            PutOpen(out, body, aligned) == Some(start + body + Zeros(8 * octets - |body|))
  {
    hide PutLength, Zeros;
    assert Octets(|body|) == octets;
    Associate(PutLength(out, octets, aligned).value, body, Zeros(Gap(|body|)));
  }

  // A body of up to 1024 octets fits the writer's buffer.
  lemma OpenNeedsRoom(out: seq<bool>, kinds: seq<Kind>, values: seq<Value>, aligned: bool)
    ensures PutField(out, Open(kinds, aligned), Fields(values)).Some? ==>
              PutAll([], kinds, values).Some? && |PutAll([], kinds, values).value| <= 8192
    ensures PutAll([], kinds, values).Some? && |PutAll([], kinds, values).value| <= 8192 ==>
              PutField(out, Open(kinds, aligned), Fields(values)) == PutOpen(out, PutAll([], kinds, values).value, aligned)
  {
    hide PutOpen;
  }

  // With n groups up to the last one that is present: n - 1 on seven bits, then n flags, the first
  // group in front.
  lemma GroupsForm(out: seq<bool>, groups: seq<bool>, n: nat)
    requires 0 < n <= |groups| && groups[n - 1] && forall i :: n <= i < |groups| ==> !groups[i]
    ensures PutGroups(out, groups).Some? <==> n <= 64
    ensures n <= 64 ==> exists o :: Writes(Some(o), out, n - 1, 7) && PutGroups(out, groups) == Some(o + groups[..n])
  {
    hide Present, Writes, PutSmall;
    assert Present(groups) == n;
    SmallForm(out, n - 1);
    if n <= 64 {
      assert Writes(Some(PutSmall(out, n - 1).value), out, n - 1, 7);
    }
  }
}
