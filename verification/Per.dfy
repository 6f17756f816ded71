/** The PER forms of asn1_utils.cc on bit sequences: what each pack function appends to what has
    been written, and what each unpack function reads at a position. */
module Per {
  import opened BitStrings
  import opened Bytes
  import opened BitRefs
  import opened Options

  // ceil(log2(x))
  function CeilLog2(x: nat): (k: nat)
    requires 0 < x
    ensures x <= Pow2(k) && (k > 0 ==> Pow2(k - 1) < x)
  {
    if x == 1 then 0 else 1 + CeilLog2((x + 1) / 2)
  }

  // floor(log2(max(v, 1))) + 1
  function BitLength(v: nat): (k: nat)
    ensures 0 < k && v < Pow2(k) && (k > 1 ==> Pow2(k - 1) <= v)
  {
    if v < 2 then 1 else 1 + BitLength(v / 2)
  }

  // The octets that n bits take.
  function Octets(n: nat): (r: nat)
    ensures n <= 8 * r < n + 8
  {
    (n + 7) / 8
  }

  // ----- Writing and reading -----

  ghost predicate Extends(r: Option<seq<bool>>, out: seq<bool>) {
    r.Some? ==> out <= r.value
  }

  function Put(out: seq<bool>, v: nat, n: nat): (r: Option<seq<bool>>)
    ensures Extends(r, out)
  {
    if n < 32 then Some(out + ToBits(v, n)) else None
  }

  function Get(data: seq<bool>, pos: nat, n: nat, width: nat): Option<(nat, nat)> {
    if n <= width && pos + n <= |data| then Some((FromBits(data[pos..pos + n]), pos + n)) else None
  }

  lemma GetPut(out: seq<bool>, v: nat, n: nat, width: nat, data: seq<bool>)
    requires n < 32 && n <= width && v < Pow2(n) && out + ToBits(v, n) <= data
    ensures Get(data, |out|, n, width) == Some((v, |out| + n))
  {
    assert data[|out|..|out| + n] == (out + ToBits(v, n))[|out|..];
    FromToBits(v, n);
    LowSmall(v, n);
  }

  // ----- Constrained whole numbers (X.691, section 10.5) -----

  // The offset in a range of more than one number.
  function PutOffset(out: seq<bool>, v: nat, ra: nat, aligned: bool): (r: Option<seq<bool>>)
    requires 1 < ra
    ensures Extends(r, out)
  {
    var nBits := CeilLog2(ra);
    if !aligned then Some(if nBits < 32 then out + ToBits(v, nBits) else out) // the result of pack is not looked at
    else if ra < 256 then Put(out, v, nBits)
    else if ra <= 65536 then PutOctetRange(out, v, nBits)
    else PutLongRange(out, v, nBits)
  }

  // One or two octets.
  function PutOctetRange(out: seq<bool>, v: nat, nBits: nat): (r: Option<seq<bool>>)
    ensures Extends(r, out)
  {
    var padded := Pad(out) + ToBits(0, Octets(nBits) * 8 - nBits);
    var o :- Put(padded, v, nBits);
    Some(Pad(o))
  }

  // The number of octets, and as many octets as the number needs.
  function PutLongRange(out: seq<bool>, v: nat, nBits: nat): (r: Option<seq<bool>>)
    requires 0 < nBits
    ensures Extends(r, out)
  {
    var bits := BitLength(v);
    var nOctets := Octets(bits);
    var o :- Put(out, nOctets - 1, CeilLog2(Octets(nBits)));
    var padded := Pad(o) + ToBits(0, nOctets * 8 - bits);
    Put(padded, v, bits)
  }

  function PutConstrained(out: seq<bool>, n: nat, lb: nat, ub: nat, aligned: bool): (r: Option<seq<bool>>)
    ensures Extends(r, out)
  {
    if ub < lb || n < lb || n > ub then None
    else if ub == lb then Some(out)
    else PutOffset(out, n - lb, ub - lb + 1, aligned)
  }

  function GetOffset(data: seq<bool>, pos: nat, ra: nat, aligned: bool, width: nat): Option<(nat, nat)>
    requires 1 < ra
  {
    var nBits := CeilLog2(ra);
    if !aligned || ra < 256 then Get(data, pos, nBits, width)
    else if ra <= 65536 then GetOctetRange(data, pos, nBits, width)
    else GetLongRange(data, pos, nBits, width)
  }

  function GetOctetRange(data: seq<bool>, pos: nat, nBits: nat, width: nat): Option<(nat, nat)> {
    var (raw, p) :- Get(data, AlignUp(pos), Octets(nBits) * 8, width);
    Some((raw, AlignUp(p)))
  }

  function GetLongRange(data: seq<bool>, pos: nat, nBits: nat, width: nat): Option<(nat, nat)>
    requires 0 < nBits
  {
    var (count, p) :- Get(data, pos, CeilLog2(Octets(nBits)), 32);
    Get(data, AlignUp(p), (count + 1) * 8, width)
  }

  // width is that of the unsigned integer type; additions are made in that type, and only the
  // unaligned form looks at the upper bound again.
  function GetConstrained(data: seq<bool>, pos: nat, lb: nat, ub: nat, aligned: bool, width: nat): Option<(nat, nat)> {
    if ub < lb then None
    else if ub == lb then Some((lb, pos))
    else
      var (raw, p) :- GetOffset(data, pos, ub - lb + 1, aligned, width);
      var n := Low(raw + lb, width);
      if !aligned && n > ub then None else Some((n, p))
  }

  // pack writes at most 31 bits at a time.
  predicate Packable(v: nat, ra: nat, aligned: bool) {
    if aligned then v < 0x8000_0000 else ra <= 0x8000_0000
  }

  // The bits of a range that fits the type fit the type.
  lemma NarrowRange(ra: nat, k: nat)
    requires 0 < ra <= Pow2(k)
    ensures CeilLog2(ra) <= k
  {
    if CeilLog2(ra) > k {
      Pow2Monotone(k, CeilLog2(ra) - 1);
    }
  }

  lemma SomeBits(ra: nat)
    requires 1 < ra
    ensures 0 < CeilLog2(ra)
  {
  }

  lemma WideRange(ra: nat, k: nat)
    requires Pow2(k) < ra
    ensures k < CeilLog2(ra)
  {
    if CeilLog2(ra) <= k {
      Pow2Monotone(CeilLog2(ra), k);
    }
  }

  lemma ShortNumber(v: nat, k: nat)
    requires v < Pow2(k) && 0 < k
    ensures BitLength(v) <= k
  {
    if BitLength(v) > k {
      Pow2Monotone(k, BitLength(v) - 1);
    }
  }

  lemma LongNumber(v: nat, k: nat)
    requires Pow2(k) <= v
    ensures k < BitLength(v)
  {
    if BitLength(v) <= k {
      Pow2Monotone(BitLength(v), k);
    }
  }

  // A number behind zeros that fill up its octets is read with whole octets.
  lemma GetPadded(out: seq<bool>, zeros: nat, v: nat, n: nat, width: nat, data: seq<bool>)
    requires zeros + n <= width && v < Pow2(n)
    requires out + ToBits(0, zeros) + ToBits(v, n) <= data
    ensures Get(data, |out|, zeros + n, width) == Some((v, |out| + zeros + n))
  {
    hide ToBits, FromBits, Pow2, Low, Shl;
    ToBitsJoin(0, v, zeros, n);
    ShlZero(n);
    assert out + ToBits(0, zeros) + ToBits(v, n) == out + ToBits(v, zeros + n);
    assert data[|out|..|out| + zeros + n] == (out + ToBits(v, zeros + n))[|out|..];
    Pow2Monotone(n, zeros + n);
    FromToBits(v, zeros + n);
    LowSmall(v, zeros + n);
  }

  lemma PadPadded(out: seq<bool>)
    requires |out| % 8 == 0
    ensures Pad(out) == out && AlignUp(|out|) == |out|
  {
  }

  lemma OctetRange(out: seq<bool>, v: nat, nBits: nat, width: nat, data: seq<bool>)
    requires v < Pow2(nBits) && nBits <= 24 && nBits <= width && width % 8 == 0
    ensures PutOctetRange(out, v, nBits).Some?
    ensures PutOctetRange(out, v, nBits).value <= data ==>
              GetOctetRange(data, |out|, nBits, width) == Some((v, |PutOctetRange(out, v, nBits).value|))
  {
    hide ToBits, FromBits, Pow2, Get, Octets, Pad, AlignUp;
    var zeros := Octets(nBits) * 8 - nBits;
    var o := Pad(out) + ToBits(0, zeros) + ToBits(v, nBits);
    PadPadded(o);
    PadLength(out);
    if o <= data {
      GetPadded(Pad(out), zeros, v, nBits, width, data);
    }
  }

  lemma LongRange(out: seq<bool>, v: nat, nBits: nat, width: nat, data: seq<bool>)
    requires v < Pow2(nBits) && v < 0x8000_0000 && 0 < nBits <= width && width in {8, 16, 32}
    ensures PutLongRange(out, v, nBits).Some?
    ensures PutLongRange(out, v, nBits).value <= data ==>
              GetLongRange(data, |out|, nBits, width) == Some((v, |PutLongRange(out, v, nBits).value|))
  {
    hide *;
    var bits, len, nOctets := BitLength(v), CeilLog2(Octets(nBits)), Octets(BitLength(v));
    OctetCount(v, nBits, width);
    PutLongForm(out, v, nBits);
    if LongForm(out, nOctets, len, v, bits) <= data {
      ReadLongForm(out, nOctets, len, v, bits, width, data);
      GetLongForm(data, |out|, nBits, width, nOctets, v);
    }
  }

  lemma PutLongForm(out: seq<bool>, v: nat, nBits: nat)
    requires 0 < nBits && BitLength(v) <= 31 && CeilLog2(Octets(nBits)) <= 2
    ensures var bits, len, nOctets := BitLength(v), CeilLog2(Octets(nBits)), Octets(BitLength(v));
            && 0 < nOctets && bits <= nOctets * 8
            && PutLongRange(out, v, nBits) == Some(LongForm(out, nOctets, len, v, bits))
  {
    hide ToBits, Pow2, CeilLog2, BitLength, Pad, Octets, Extends;
  }

  lemma GetLongForm(data: seq<bool>, pos: nat, nBits: nat, width: nat, nOctets: nat, v: nat)
    requires 0 < nBits && 0 < nOctets
    requires Get(data, pos, CeilLog2(Octets(nBits)), 32) == Some((nOctets - 1, pos + CeilLog2(Octets(nBits))))
    ensures GetLongRange(data, pos, nBits, width) ==
            Get(data, AlignUp(pos + CeilLog2(Octets(nBits))), nOctets * 8, width)
  {
    hide Get, CeilLog2, Octets, AlignUp;
  }

  function LongForm(out: seq<bool>, nOctets: nat, len: nat, v: nat, bits: nat): seq<bool>
    requires 0 < nOctets && bits <= nOctets * 8
  {
    Pad(out + ToBits(nOctets - 1, len)) + ToBits(0, nOctets * 8 - bits) + ToBits(v, bits)
  }

  lemma ReadLongForm(out: seq<bool>, nOctets: nat, len: nat, v: nat, bits: nat, width: nat, data: seq<bool>)
    requires 0 < nOctets && nOctets - 1 < Pow2(len) && len <= 2 && v < Pow2(bits) && bits <= nOctets * 8 <= width
    requires LongForm(out, nOctets, len, v, bits) <= data
    ensures Get(data, |out|, len, 32) == Some((nOctets - 1, |out| + len))
    ensures Get(data, AlignUp(|out| + len), nOctets * 8, width) == Some((v, |LongForm(out, nOctets, len, v, bits)|))
  {
    hide ToBits, FromBits, Pow2, Get, Pad, Gap;
    var o := out + ToBits(nOctets - 1, len);
    PadLength(o);
    PrefixPrefix(Pad(o), LongForm(out, nOctets, len, v, bits), data);
    PrefixPrefix(o, Pad(o), data);
    GetPut(out, nOctets - 1, len, 32, data);
    GetPadded(Pad(o), nOctets * 8 - bits, v, bits, width, data);
  }

  lemma PrefixPrefix(a: seq<bool>, b: seq<bool>, c: seq<bool>)
    requires a <= b && b <= c
    ensures a <= c
  {
  }

  // The octets of the number are not more than those of the range, so their number fits.
  lemma OctetCount(v: nat, nBits: nat, width: nat)
    requires v < Pow2(nBits) && v < 0x8000_0000 && 0 < nBits <= width && width in {8, 16, 32}
    ensures var bits, len, nOctets := BitLength(v), CeilLog2(Octets(nBits)), Octets(BitLength(v));
            && bits <= 31 && len <= 2
            && 0 < nOctets && nOctets - 1 < Pow2(len)
            && bits <= nOctets * 8 <= width && nOctets * 8 - bits < 8
  {
    hide *;
    SmallPowers();
    ShortNumber(v, nBits);
    ShortNumber(v, 31);
    FourOctets(Octets(nBits));
  }

  lemma PadLength(out: seq<bool>)
    ensures |Pad(out)| == AlignUp(|out|)
  {
  }

  lemma FourOctets(n: nat)
    requires 0 < n <= 4
    ensures CeilLog2(n) <= 2
  {
    NarrowRange(n, 2);
  }

  // The offset comes back, with the cursor where the writer left it.
  lemma OffsetRoundTrip(out: seq<bool>, v: nat, ra: nat, aligned: bool, width: nat, data: seq<bool>)
    requires 1 < ra <= Pow2(width) && v < ra && width in {8, 16, 32} && Packable(v, ra, aligned)
    ensures PutOffset(out, v, ra, aligned).Some?
    ensures PutOffset(out, v, ra, aligned).value <= data ==>
              GetOffset(data, |out|, ra, aligned, width) == Some((v, |PutOffset(out, v, ra, aligned).value|))
  {
    hide ToBits, FromBits, CeilLog2, PutOctetRange, PutLongRange, GetOctetRange, GetLongRange, Get, Pow2;
    var nBits := CeilLog2(ra);
    NarrowRange(ra, width);
    SmallPowers();
    WideRange(ra, 0);
    if !aligned || ra < 256 {
      NarrowRange(ra, if aligned then 8 else 31);
      if PutOffset(out, v, ra, aligned).value <= data {
        GetPut(out, v, nBits, width, data);
      }
    } else if ra <= 65536 {
      NarrowRange(ra, 16);
      OctetRange(out, v, nBits, width, data);
    } else {
      LongRange(out, v, nBits, width, data);
    }
  }

  lemma SmallPowers()
    ensures Pow2(0) == 1 && Pow2(8) == 256 && Pow2(16) == 65536 && Pow2(31) == 0x8000_0000 && Pow2(32) == 0x1_0000_0000
  {
    assert Pow2(4) == 16;
    assert Pow2(12) == 4096;
    assert Pow2(20) == 0x10_0000;
    assert Pow2(24) == 0x100_0000;
    assert Pow2(28) == 0x1000_0000;
  }

  // A constrained whole number comes back exactly when its offset (or, unaligned, its range) is
  // within what pack can write; otherwise the aligned form fails and the unaligned form, which
  // does not look at the result of pack, writes nothing.
  lemma ConstrainedRoundTrip(out: seq<bool>, n: nat, lb: nat, ub: nat, aligned: bool, width: nat)
    requires lb <= n <= ub < Pow2(width) && width in {8, 16, 32}
    ensures (&& PutConstrained(out, n, lb, ub, aligned).Some?
             && forall data :: PutConstrained(out, n, lb, ub, aligned).value <= data ==>
                  GetConstrained(data, |out|, lb, ub, aligned, width) == Some((n, |PutConstrained(out, n, lb, ub, aligned).value|)))
            <==> (lb < ub ==> Packable(n - lb, ub - lb + 1, aligned))
  {
    hide Get, GetOffset, PutOffset, Pow2, CeilLog2, BitLength;
    if lb < ub {
      var v, ra := n - lb, ub - lb + 1;
      if Packable(v, ra, aligned) {
        LowSmall(n, width);
        OffsetRoundTrip(out, v, ra, aligned, width, []);
        forall data | PutConstrained(out, n, lb, ub, aligned).value <= data
          ensures GetConstrained(data, |out|, lb, ub, aligned, width) == Some((n, |PutConstrained(out, n, lb, ub, aligned).value|))
        {
          OffsetRoundTrip(out, v, ra, aligned, width, data);
        }
      } else {
        TooWide(out, v, ra, aligned, width);
        if !aligned {
          assert out <= out && GetConstrained(out, |out|, lb, ub, aligned, width).None?;
        }
      }
    }
  }

  lemma TooWide(out: seq<bool>, v: nat, ra: nat, aligned: bool, width: nat)
    requires 1 < ra <= Pow2(width) && v < ra && width <= 32 && !Packable(v, ra, aligned)
    ensures aligned ==> PutOffset(out, v, ra, aligned).None?
    ensures !aligned ==> PutOffset(out, v, ra, aligned) == Some(out) && GetOffset(out, |out|, ra, aligned, width).None?
  {
    hide ToBits, FromBits, CeilLog2, BitLength, Pow2;
    SmallPowers();
    if aligned {
      LongNumber(v, 31);
      Pow2Monotone(16, 31);
    } else {
      WideRange(ra, 31);
    }
  }

  // ----- Normally small numbers (X.691, section 10.6) -----

  function PutSmall(out: seq<bool>, n: nat): (r: Option<seq<bool>>)
    ensures Extends(r, out)
  {
    if n <= 63 then Put(out, n, 7) else None
  }

  function GetSmall(data: seq<bool>, pos: nat): Option<(nat, nat)> {
    var (ext, p) :- Get(data, pos, 1, 8);
    if ext == 0 then Get(data, p, 6, 32) else None
  }

  lemma SmallRoundTrip(out: seq<bool>, n: nat, data: seq<bool>)
    requires PutSmall(out, n).Some? && PutSmall(out, n).value <= data
    ensures GetSmall(data, |out|) == Some((n, |PutSmall(out, n).value|))
  {
    assert n < Pow2(6) by { assert Pow2(3) == 8; }
    TwoParts(out, 0, 1, n, 6, data, 8, 32);
  }

  // Two numbers written as one.
  lemma TwoParts(out: seq<bool>, a: nat, m: nat, b: nat, n: nat, data: seq<bool>, aWidth: nat, bWidth: nat)
    requires a < Pow2(m) && b < Pow2(n) && m <= aWidth && n <= bWidth && m < 32 && n < 32
    requires out + ToBits(Shl(a, n) + b, m + n) <= data
    ensures Get(data, |out|, m, aWidth) == Some((a, |out| + m))
    ensures Get(data, |out| + m, n, bWidth) == Some((b, |out| + m + n))
  {
    hide *;
    ToBitsJoin(a, b, m, n);
    var first := out + ToBits(a, m);
    assert out + ToBits(Shl(a, n) + b, m + n) == first + ToBits(b, n);
    PrefixPrefix(first, first + ToBits(b, n), data);
    GetPut(out, a, m, aWidth, data);
    GetPut(first, b, n, bWidth, data);
  }

  lemma Associate(a: seq<bool>, b: seq<bool>, c: seq<bool>)
    ensures a + (b + c) == a + b + c
  {
  }

  lemma Joined(out: seq<bool>, a: nat, m: nat, b: nat, n: nat, data: seq<bool>, width: nat)
    requires a < Pow2(m) && b < Pow2(n) && m + n <= width && m + n < 32
    requires out + ToBits(a, m) + ToBits(b, n) <= data
    ensures Get(data, |out|, m + n, width) == Some((Shl(a, n) + b, |out| + m + n))
  {
    hide *;
    ShlBound(a, m, n);
    ToBitsJoin(a, b, m, n);
    var whole := out + ToBits(Shl(a, n) + b, m + n);
    assert whole == out + ToBits(a, m) + ToBits(b, n) by { Associate(out, ToBits(a, m), ToBits(b, n)); }
    GetPut(out, Shl(a, n) + b, m + n, width, data);
  }

  // ----- Length determinants (X.691, section 10.9) -----

  function PutLength(out: seq<bool>, n: nat, aligned: bool): (r: Option<seq<bool>>)
    ensures Extends(r, out)
  {
    if aligned && n > 65536 then None
    else
      var start := if aligned then Pad(out) else out;
      if n < 128 then Put(start, n, 8)
      else if n < 16384 then
        Put(start + ToBits(2, 2), n, 14)
      else if !aligned then None
      else
        Put(start + ToBits(3, 2) + ToBits(n / 16384, 6), n - n / 16384 * 16384, 16)
  }

  function GetLength(data: seq<bool>, pos: nat, aligned: bool): Option<(nat, nat)> {
    if !aligned then
      var (ext, p) :- Get(data, pos, 1, 8);
      if ext == 0 then Get(data, p, 7, 32)
      else
        var (ext2, q) :- Get(data, p, 1, 8);
        if ext2 == 0 then Get(data, q, 14, 32) else None
    else
      var (n, p) :- Get(data, AlignUp(pos), 8, 32);
      if n < 128 then Some((n, p))
      else if n - 128 < 64 then
        var (n2, q) :- Get(data, p, 8, 32);
        Some((256 * (n - 128) + n2, q))
      else None
  }

  lemma LengthRoundTrip(out: seq<bool>, n: nat, aligned: bool, data: seq<bool>)
    requires n < 16384
    requires PutLength(out, n, aligned).Some? && PutLength(out, n, aligned).value <= data
    ensures GetLength(data, |out|, aligned) == Some((n, |PutLength(out, n, aligned).value|))
  {
    var start := if aligned then Pad(out) else out;
    PadLength(out);
    LengthPowers();
    hide ToBits, FromBits, Pow2, Get, Pad, Shl, Gap, Low;
    var r := PutLength(out, n, aligned).value;
    if n < 128 {
      if aligned {
        GetPut(start, n, 8, 32, data);
      } else {
        ShlZero(7);
        TwoParts(start, 0, 1, n, 7, data, 8, 32);
      }
    } else {
      assert r == start + ToBits(2, 2) + ToBits(n, 14);
      if aligned {
        LongLengthOctets(start, n, data);
      } else {
        LongLengthBits(start, n, data);
      }
    }
  }

  lemma LengthPowers()
    ensures Pow2(1) == 2 && Pow2(2) == 4 && Pow2(6) == 64 && Pow2(7) == 128 && Pow2(8) == 256 && Pow2(14) == 16384
    ensures Shl(1, 1) == 2 && Shl(2, 14) == 32768
  {
    assert Pow2(4) == 16;
    assert Pow2(10) == 1024;
    ShlPow2(1, 14);
    assert Pow2(15) == 32768;
  }

  lemma LongLengthBits(out: seq<bool>, n: nat, data: seq<bool>)
    requires n < 16384 && out + ToBits(2, 2) + ToBits(n, 14) <= data
    ensures Get(data, |out|, 1, 8) == Some((1, |out| + 1))
    ensures Get(data, |out| + 1, 1, 8) == Some((0, |out| + 2))
    ensures Get(data, |out| + 2, 14, 32) == Some((n, |out| + 16))
  {
    LengthPowers();
    hide *;
    PrefixPrefix(out + ToBits(2, 2), out + ToBits(2, 2) + ToBits(n, 14), data);
    TwoParts(out, 1, 1, 0, 1, data, 8, 8);
    GetPut(out + ToBits(2, 2), n, 14, 32, data);
  }

  lemma LongLengthOctets(out: seq<bool>, n: nat, data: seq<bool>)
    requires n < 16384 && out + ToBits(2, 2) + ToBits(n, 14) <= data
    ensures Get(data, |out|, 8, 32) == Some((128 + n / 256, |out| + 8))
    ensures Get(data, |out| + 8, 8, 32) == Some((n % 256, |out| + 16))
  {
    hide *;
    LengthPowers();
    ShlByte(128 + n / 256);
    ToBitsJoin(2, n, 2, 14);
    Associate(out, ToBits(2, 2), ToBits(n, 14));
    assert Shl(128 + n / 256, 8) + n % 256 == Shl(2, 14) + n;
    TwoParts(out, 128 + n / 256, 8, n % 256, 8, data, 32, 32);
  }

  // Longer lengths are refused, or, aligned, written in a form that is refused by the reader.
  lemma LongLengthIsLost(out: seq<bool>, n: nat, aligned: bool, data: seq<bool>)
    requires 16384 <= n
    ensures !aligned ==> PutLength(out, n, aligned).None?
    ensures PutLength(out, n, aligned).Some? && PutLength(out, n, aligned).value <= data ==> GetLength(data, |out|, aligned).None?
  {
    if aligned && n <= 65536 {
      PadLength(out);
      LengthPowers();
      hide ToBits, FromBits, Pow2, Get, Pad, Shl, Gap, Low;
      var r := PutLength(out, n, aligned).value;
      var m := n / 16384;
      var o := Pad(out) + ToBits(3, 2) + ToBits(m, 6);
      assert r == o + ToBits(n - m * 16384, 16);
      if r <= data {
        PrefixPrefix(o, r, data);
        LongMark(Pad(out), m, data);
      }
    }
  }

  lemma ShlSix(v: nat)
    ensures Shl(v, 6) == 64 * v
  {
    assert Shl(v, 1) == 2 * v;
    assert Shl(v, 3) == 8 * v;
    assert Shl(v, 5) == 32 * v;
  }

  lemma LongMark(out: seq<bool>, m: nat, data: seq<bool>)
    requires m < 64 && out + ToBits(3, 2) + ToBits(m, 6) <= data
    ensures Get(data, |out|, 8, 32) == Some((192 + m, |out| + 8))
  {
    LengthPowers();
    ShlSix(3);
    Joined(out, 3, 2, m, 6, data, 32);
    hide *;
  }

  // ----- Enumerations -----

  function PutEnum(out: seq<bool>, e: nat, types: nat, exts: nat, hasExt: bool): (r: Option<seq<bool>>)
    requires exts < types
    ensures Extends(r, out)
  {
    if e >= types then None
    else if hasExt then
      var plain := types - exts;
      var o := out + ToBits(if e >= plain then 1 else 0, 1);
      if e < plain then Put(o, e, CeilLog2(plain)) else PutSmall(o, e - plain)
    else Put(out, e, CeilLog2(types))
  }

  function GetEnum(data: seq<bool>, pos: nat, types: nat, exts: nat, hasExt: bool): Option<(nat, nat)>
    requires exts < types
  {
    if hasExt then
      var (ext, p) :- Get(data, pos, 1, 8);
      var (e, q) :- if ext == 0 then Get(data, p, CeilLog2(types - exts), 32) else GetSmall(data, p);
      var v := if ext == 0 then e else Low(e + types - exts, 32);
      if v >= types then None else Some((v, q))
    else
      var (e, q) :- Get(data, pos, CeilLog2(types), 32);
      if e >= types then None else Some((e, q))
  }

  lemma EnumRoundTrip(out: seq<bool>, e: nat, types: nat, exts: nat, hasExt: bool, data: seq<bool>)
    requires exts < types < 0x1_0000_0000
    requires PutEnum(out, e, types, exts, hasExt).Some? && PutEnum(out, e, types, exts, hasExt).value <= data
    ensures GetEnum(data, |out|, types, exts, hasExt) == Some((e, |PutEnum(out, e, types, exts, hasExt).value|))
  {
    hide ToBits, FromBits, Pow2, Get, CeilLog2, Low, PutSmall, GetSmall;
    SmallPowers();
    LengthPowers();
    var r := PutEnum(out, e, types, exts, hasExt).value;
    if hasExt {
      var plain := types - exts;
      var o := out + ToBits(if e >= plain then 1 else 0, 1);
      PrefixPrefix(o, r, data);
      GetPut(out, if e >= plain then 1 else 0, 1, 8, data);
      if e < plain {
        GetPut(o, e, CeilLog2(plain), 32, data);
      } else {
        SmallRoundTrip(o, e - plain, data);
        LowSmall(e, 32);
      }
    } else {
      GetPut(out, e, CeilLog2(types), 32, data);
    }
  }

  // ----- Octets -----

  function GetUp(data: seq<bool>, pos: nat, n: nat): Option<(seq<byte>, nat)>
    decreases n
  {
    if n == 0 then Some(([], pos))
    else
      EightBits();
      var (b, p) :- Get(data, pos, 8, 8);
      var (rest, q) :- GetUp(data, p, n - 1);
      Some(([b] + rest, q))
  }

  lemma {:induction false} UpRoundTrip(out: seq<bool>, octets: seq<byte>, data: seq<bool>)
    requires out + OctetBits(octets) <= data
    ensures GetUp(data, |out|, |octets|) == Some((octets, |out| + 8 * |octets|))
    decreases |octets|
  {
    hide ToBits, FromBits, Pow2, Get, OctetBits;
    if octets != [] {
      EightBits();
      OctetBitsJoin([octets[0]], octets[1..]);
      OneOctet(octets[0]);
      assert octets == [octets[0]] + octets[1..];
      var o := out + ToBits(octets[0], 8);
      Associate(out, ToBits(octets[0], 8), OctetBits(octets[1..]));
      PrefixPrefix(o, out + OctetBits(octets), data);
      GetPut(out, octets[0], 8, 8, data);
      UpRoundTrip(o, octets[1..], data);
    }
  }

  lemma OneOctet(b: byte)
    ensures OctetBits([b]) == ToBits(b, 8)
  {
    OctetBitsAppend([], b);
    assert [] + [b] == [b];
  }

  // An octet string of any length: the length, then the octets.
  function PutOctets(out: seq<bool>, octets: seq<byte>, aligned: bool): (r: Option<seq<bool>>)
    ensures Extends(r, out)
  {
    var o :- PutLength(out, |octets|, aligned);
    Some(o + OctetBits(octets))
  }

  function GetOctets(data: seq<bool>, pos: nat, aligned: bool): Option<(seq<byte>, nat)> {
    var (n, p) :- GetLength(data, pos, aligned);
    GetUp(data, p, n)
  }

  lemma OctetsRoundTrip(out: seq<bool>, octets: seq<byte>, aligned: bool, data: seq<bool>)
    requires |octets| < 16384
    requires PutOctets(out, octets, aligned).Some? && PutOctets(out, octets, aligned).value <= data
    ensures GetOctets(data, |out|, aligned) == Some((octets, |PutOctets(out, octets, aligned).value|))
  {
    hide PutLength, GetLength, OctetBits, GetUp;
    var o := PutLength(out, |octets|, aligned).value;
    PrefixPrefix(o, o + OctetBits(octets), data);
    LengthRoundTrip(out, |octets|, aligned, data);
    UpRoundTrip(o, octets, data);
  }

  // ----- Bit fields of a fixed size -----

  // The octets are kept with the least significant one first.
  function DownBits(octets: seq<byte>): (r: seq<bool>)
    ensures |r| == 8 * |octets|
  {
    if octets == [] then [] else ToBits(octets[|octets| - 1], 8) + DownBits(octets[..|octets| - 1])
  }

  function GetDown(data: seq<bool>, pos: nat, n: nat): Option<(seq<byte>, nat)>
    decreases n
  {
    if n == 0 then Some(([], pos))
    else
      EightBits();
      var (b, p) :- Get(data, pos, 8, 8);
      var (rest, q) :- GetDown(data, p, n - 1);
      Some((rest + [b], q))
  }

  lemma {:induction false} DownRoundTrip(out: seq<bool>, octets: seq<byte>, data: seq<bool>)
    requires out + DownBits(octets) <= data
    ensures GetDown(data, |out|, |octets|) == Some((octets, |out| + 8 * |octets|))
    decreases |octets|
  {
    hide ToBits, FromBits, Pow2, Get;
    if octets != [] {
      EightBits();
      var top := octets[|octets| - 1];
      var o := out + ToBits(top, 8);
      Associate(out, ToBits(top, 8), DownBits(octets[..|octets| - 1]));
      PrefixPrefix(o, out + DownBits(octets), data);
      GetPut(out, top, 8, 8, data);
      DownRoundTrip(o, octets[..|octets| - 1], data);
      assert octets[..|octets| - 1] + [top] == octets;
    }
  }

  // The bits of the octet with the leading ones.
  function TopBits(size: nat): (n: nat)
    requires 0 < size
    ensures 0 < n <= 8 && size == 8 * (Octets(size) - 1) + n
  {
    (size - 1) % 8 + 1
  }

  function PutBitField(out: seq<bool>, octets: seq<byte>, size: nat, aligned: bool): (r: Option<seq<bool>>)
    requires |octets| == Octets(size)
    ensures Extends(r, out)
  {
    if size == 0 then None
    else
      var start := if aligned && size > 16 then Pad(out) else out;
      var last := |octets| - 1;
      Some(start + ToBits(octets[last], TopBits(size)) + DownBits(octets[..last]))
  }

  function GetBitField(data: seq<bool>, pos: nat, size: nat, aligned: bool): Option<(seq<byte>, nat)> {
    if size > 65536 then None
    else if size == 0 then Some(([], pos))
    else
      var start := if aligned && size > 16 then AlignUp(pos) else pos;
      var (top, p) :- Get(data, start, TopBits(size), 8);
      TopIsOctet(data, start, TopBits(size));
      var (rest, q) :- GetDown(data, p, Octets(size) - 1);
      Some((rest + [top], q))
  }

  lemma TopIsOctet(data: seq<bool>, pos: nat, n: nat)
    requires n <= 8
    ensures Get(data, pos, n, 8).Some? ==> Get(data, pos, n, 8).value.0 < 256
  {
    EightBits();
    Pow2Monotone(n, 8);
    hide Pow2;
  }

  lemma BitFieldRoundTrip(out: seq<bool>, octets: seq<byte>, size: nat, aligned: bool, data: seq<bool>)
    requires 0 < size <= 65536 && |octets| == Octets(size) && octets[|octets| - 1] < Pow2(TopBits(size))
    requires PutBitField(out, octets, size, aligned).value <= data
    ensures GetBitField(data, |out|, size, aligned) == Some((octets, |PutBitField(out, octets, size, aligned).value|))
  {
    hide ToBits, FromBits, Pow2, Get, Pad, Gap, DownBits, GetDown, TopBits, Octets;
    PadLength(out);
    var start := if aligned && size > 16 then Pad(out) else out;
    var last := |octets| - 1;
    var o := start + ToBits(octets[last], TopBits(size));
    PrefixPrefix(o, o + DownBits(octets[..last]), data);
    GetPut(start, octets[last], TopBits(size), 8, data);
    DownRoundTrip(o, octets[..last], data);
    assert octets == octets[..last] + [octets[last]];
  }

  // ----- The length prefix of a bounded bit string, unaligned and without extension -----

  function PutPrefix(out: seq<bool>, len: nat, lb: nat, ub: nat): (r: Option<seq<bool>>)
    requires lb < ub
    ensures Extends(r, out)
  {
    if len < lb || len > ub then None else Put(out, len - lb, CeilLog2(ub - lb))
  }

  function GetPrefix(data: seq<bool>, pos: nat, lb: nat, ub: nat): Option<(nat, nat)> {
    GetConstrained(data, pos, lb, ub, false, 32)
  }

  predicate IsPow2(d: nat)
    requires 0 < d
  {
    d == Pow2(CeilLog2(d))
  }

  lemma NextLog2(d: nat)
    requires 0 < d
    ensures CeilLog2(d + 1) == CeilLog2(d) + if IsPow2(d) then 1 else 0
  {
    hide CeilLog2;
    var k := CeilLog2(d);
    if d == Pow2(k) {
      NarrowRange(d + 1, k + 1);
      WideRange(d + 1, k);
    } else {
      NarrowRange(d + 1, k);
      WideRange(d + 1, k - 1);
    }
  }

  // The writer counts ub - lb values and the reader one more, so a length comes back exactly when
  // that makes no difference to the number of bits.
  lemma PrefixRoundTrip(out: seq<bool>, len: nat, lb: nat, ub: nat)
    requires lb <= len <= ub < 0x1_0000_0000 && lb < ub && ub - lb < 0x8000_0000
    ensures (&& PutPrefix(out, len, lb, ub).Some?
             && forall data :: PutPrefix(out, len, lb, ub).value <= data ==>
                  GetPrefix(data, |out|, lb, ub) == Some((len, |PutPrefix(out, len, lb, ub).value|)))
            <==> !IsPow2(ub - lb)
  {
    hide Get, Pow2, CeilLog2, PutConstrained, GetConstrained, IsPow2, ToBits;
    var d := ub - lb;
    SmallPowers();
    NarrowRange(d, 31);
    NextLog2(d);
    if IsPow2(d) {
      var r := out + ToBits(len - lb, CeilLog2(d));
      TooFewBits(r, |out|, lb, ub);
      assert r <= r;
    } else {
      ConstrainedRoundTrip(out, len, lb, ub, false, 32);
      PrefixIsConstrained(out, len, lb, ub);
    }
  }

  lemma PrefixIsConstrained(out: seq<bool>, len: nat, lb: nat, ub: nat)
    requires lb <= len <= ub && lb < ub && CeilLog2(ub - lb) == CeilLog2(ub - lb + 1) < 32
    ensures PutPrefix(out, len, lb, ub) == PutConstrained(out, len, lb, ub, false)
  {
    hide CeilLog2, ToBits;
  }

  lemma TooFewBits(data: seq<bool>, pos: nat, lb: nat, ub: nat)
    requires lb < ub && pos <= |data| && |data| - pos < CeilLog2(ub - lb + 1)
    ensures GetPrefix(data, pos, lb, ub).None?
  {
    hide CeilLog2;
  }
}
