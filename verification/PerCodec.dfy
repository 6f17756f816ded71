/** Packing and unpacking over the cursors, as in asn1_utils.cc: each method writes what the Put
    function of the same name says, if there is room for it, and reads what the Get function says. */
module PerCodec {
  import opened BitStrings
  import opened Bytes
  import opened BitRefs
  import opened Options
  import opened Per
  import opened PerFields

  // Something can be written into a buffer of this many octets.
  predicate FitsIn(r: Option<seq<bool>>, size: nat) {
    r.Some? && |r.value| <= 8 * size
  }

  // ----- Constrained whole numbers -----

  method PackOctetRange(b: BitRef, v: nat, nBits: nat) returns (ok: bool)
    requires b.Valid()
    modifies b`ptr, b`offset, b.buf
    ensures b.Valid() && old(b.Contents()) <= b.Contents()
    ensures ok <==> FitsIn(PutOctetRange(old(b.Contents()), v, nBits), b.buf.Length)
    ensures ok ==> b.Contents() == PutOctetRange(old(b.Contents()), v, nBits).value
  {
    hide ToBits, Octets, BitRef.Contents, BitRef.Valid, Pad, Extends, CeilLog2, BitLength, Pow2, OctetBits;
    var nOctets := Octets(nBits);
    ok := b.AlignBytesZero();
    ok := b.Pack(0, nOctets * 8 - nBits);
    if !ok {
      return;
    }
    ok := b.Pack(v, nBits);
    if !ok {
      return;
    }
    ok := b.AlignBytesZero();
  }

  method PackLongRange(b: BitRef, v: nat, nBits: nat) returns (ok: bool)
    requires 0 < nBits
    requires b.Valid()
    modifies b`ptr, b`offset, b.buf
    ensures b.Valid() && old(b.Contents()) <= b.Contents()
    ensures ok <==> FitsIn(PutLongRange(old(b.Contents()), v, nBits), b.buf.Length)
    ensures ok ==> b.Contents() == PutLongRange(old(b.Contents()), v, nBits).value
  {
    hide ToBits, Octets, BitRef.Contents, BitRef.Valid, Pad, Extends, CeilLog2, BitLength, Pow2, OctetBits;
    var nBitsLen := CeilLog2(Octets(nBits));
    var bits := BitLength(v);
    var nOctets := Octets(bits);
    ok := b.Pack(nOctets - 1, nBitsLen);
    if !ok {
      return;
    }
    ok := b.AlignBytesZero();
    ok := b.Pack(0, nOctets * 8 - bits);
    if !ok {
      return;
    }
    ok := b.Pack(v, bits);
  }

  // The unaligned form does not report that there was no room.
  method PackConstrained(b: BitRef, n: nat, lb: nat, ub: nat, aligned: bool) returns (ok: bool)
    requires b.Valid()
    modifies b`ptr, b`offset, b.buf
    ensures b.Valid() && old(b.Contents()) <= b.Contents()
    ensures aligned ==> (ok <==> FitsIn(PutConstrained(old(b.Contents()), n, lb, ub, aligned), b.buf.Length))
    ensures !aligned ==> (ok <==> PutConstrained(old(b.Contents()), n, lb, ub, aligned).Some?)
    ensures ok && FitsIn(PutConstrained(old(b.Contents()), n, lb, ub, aligned), b.buf.Length) ==>
              b.Contents() == PutConstrained(old(b.Contents()), n, lb, ub, aligned).value
  {
    hide ToBits, Octets, BitRef.Contents, BitRef.Valid, Extends, CeilLog2, Pow2, PutOctetRange, PutLongRange;
    if ub < lb || n < lb || n > ub {
      return false;
    }
    var ra := ub - lb + 1;
    if ra == 1 {
      return true;
    }
    SomeBits(ra);
    var nBits := CeilLog2(ra);
    if !aligned {
      var ignored := b.Pack(n - lb, nBits);
      return true;
    }
    if ra < 256 {
      ok := b.Pack(n - lb, nBits);
    } else if ra <= 65536 {
      ok := PackOctetRange(b, n - lb, nBits);
    } else {
      ok := PackLongRange(b, n - lb, nBits);
    }
  }

  method UnpackOctetRange(c: CBitRef, nBits: nat, width: nat) returns (ok: bool, val: nat)
    requires c.Valid() && width <= 32
    modifies c`ptr, c`offset
    ensures c.Valid()
    ensures ok <==> GetOctetRange(c.Data(), old(c.Position()), nBits, width).Some?
    ensures ok ==> GetOctetRange(c.Data(), old(c.Position()), nBits, width).value == (val, c.Position())
  {
    hide FromBits, Octets, CBitRef.Valid, CBitRef.Data, Low, CeilLog2, Pow2, AlignUp;
    ok := c.AlignBytes();
    ok, val := c.Unpack(Octets(nBits) * 8, width);
    if !ok {
      return;
    }
    ok := c.AlignBytes();
  }

  method UnpackLongRange(c: CBitRef, nBits: nat, width: nat) returns (ok: bool, val: nat)
    requires 0 < nBits
    requires c.Valid() && width <= 32
    modifies c`ptr, c`offset
    ensures c.Valid()
    ensures ok <==> GetLongRange(c.Data(), old(c.Position()), nBits, width).Some?
    ensures ok ==> GetLongRange(c.Data(), old(c.Position()), nBits, width).value == (val, c.Position())
  {
    hide FromBits, Octets, CBitRef.Valid, CBitRef.Data, Low, CeilLog2, Pow2, AlignUp;
    ok, val := c.Unpack(CeilLog2(Octets(nBits)), 32);
    if !ok {
      return;
    }
    var nOctets := val + 1;
    ok := c.AlignBytes();
    ok, val := c.Unpack(nOctets * 8, width);
  }

  method UnpackConstrained(c: CBitRef, lb: nat, ub: nat, aligned: bool, width: nat) returns (ok: bool, val: nat)
    requires c.Valid() && width <= 32
    modifies c`ptr, c`offset
    ensures c.Valid()
    ensures ok <==> GetConstrained(c.Data(), old(c.Position()), lb, ub, aligned, width).Some?
    ensures ok ==> GetConstrained(c.Data(), old(c.Position()), lb, ub, aligned, width).value == (val, c.Position())
  {
    hide FromBits, Octets, CBitRef.Valid, CBitRef.Data, Low, CeilLog2, Pow2, AlignUp, GetOctetRange, GetLongRange;
    if ub < lb {
      return false, 0;
    }
    var ra := ub - lb + 1;
    if ra == 1 {
      return true, lb;
    }
    SomeBits(ra);
    var nBits := CeilLog2(ra);
    if !aligned {
      ok, val := c.Unpack(nBits, width);
      if !ok {
        return;
      }
      val := Low(val + lb, width);
      if val > ub {
        return false, val;
      }
    } else {
      if ra < 256 {
        ok, val := c.Unpack(nBits, width);
      } else if ra <= 65536 {
        ok, val := UnpackOctetRange(c, nBits, width);
      } else {
        ok, val := UnpackLongRange(c, nBits, width);
      }
      val := Low(val + lb, width);
    }
  }

  // ----- Normally small numbers -----

  method PackSmall(b: BitRef, n: nat) returns (ok: bool)
    requires b.Valid()
    modifies b`ptr, b`offset, b.buf
    ensures b.Valid() && old(b.Contents()) <= b.Contents()
    ensures ok <==> FitsIn(PutSmall(old(b.Contents()), n), b.buf.Length)
    ensures ok ==> b.Contents() == PutSmall(old(b.Contents()), n).value
  {
    hide ToBits, Octets, BitRef.Contents, BitRef.Valid, Pad, Extends, CeilLog2, BitLength, Pow2, OctetBits;
    if n <= 63 {
      ok := b.Pack(n, 7);
    } else {
      ok := b.Pack(1, 1);
      return false;
    }
  }

  method UnpackSmall(c: CBitRef) returns (ok: bool, val: nat)
    requires c.Valid()
    modifies c`ptr, c`offset
    ensures c.Valid()
    ensures ok <==> GetSmall(c.Data(), old(c.Position())).Some?
    ensures ok ==> GetSmall(c.Data(), old(c.Position())).value == (val, c.Position())
  {
    hide FromBits, Octets, CBitRef.Valid, CBitRef.Data, Low, CeilLog2, Pow2, AlignUp;
    ok, val := c.Unpack(1, 8);
    if !ok {
      return;
    }
    if val == 0 {
      ok, val := c.Unpack(6, 32);
    } else {
      return false, val;
    }
  }

  // ----- Length determinants -----

  method PackLength(b: BitRef, n: nat, aligned: bool) returns (ok: bool)
    requires b.Valid()
    modifies b`ptr, b`offset, b.buf
    ensures b.Valid() && old(b.Contents()) <= b.Contents()
    ensures ok <==> FitsIn(PutLength(old(b.Contents()), n, aligned), b.buf.Length)
    ensures ok ==> b.Contents() == PutLength(old(b.Contents()), n, aligned).value
  {
    hide ToBits, Octets, BitRef.Contents, BitRef.Valid, Pad, Extends, CeilLog2, BitLength, Pow2, OctetBits;
    if aligned {
      if n > 65536 {
        return false;
      }
      ok := b.AlignBytes();
    }
    if n < 128 {
      ok := b.Pack(n, 8);
    } else if n < 16384 {
      ok := b.Pack(2, 2);
      if !ok {
        return;
      }
      ok := b.Pack(n, 14);
    } else if !aligned {
      ok := false;
    } else {
      ok := b.Pack(3, 2);
      if !ok {
        return;
      }
      var m := n / 16384;
      ok := b.Pack(m, 6);
      if !ok {
        return;
      }
      ok := b.Pack(n - m * 16384, 16);
    }
  }

  method UnpackLength(c: CBitRef, aligned: bool) returns (ok: bool, val: nat)
    requires c.Valid()
    modifies c`ptr, c`offset
    ensures c.Valid()
    ensures ok <==> GetLength(c.Data(), old(c.Position()), aligned).Some?
    ensures ok ==> GetLength(c.Data(), old(c.Position()), aligned).value == (val, c.Position())
  {
    hide FromBits, Octets, CBitRef.Valid, CBitRef.Data, Low, CeilLog2, Pow2, AlignUp;
    if !aligned {
      ok, val := c.Unpack(1, 8);
      if !ok {
        return;
      }
      if val == 0 {
        ok, val := c.Unpack(7, 32);
      } else {
        ok, val := c.Unpack(1, 8);
        if !ok {
          return;
        }
        if val == 0 {
          ok, val := c.Unpack(14, 32);
        } else {
          return false, 0;
        }
      }
    } else {
      ok := c.AlignBytes();
      ok, val := c.Unpack(8, 32);
      if !ok || val < 128 {
        return;
      }
      val := val - 128;
      if val < 64 {
        var octet2;
        ok, octet2 := c.Unpack(8, 32);
        val := 256 * val + octet2;
      } else {
        return false, val;
      }
    }
  }

  // ----- Enumerations -----

  method PackEnum(b: BitRef, e: nat, types: nat, exts: nat, hasExt: bool) returns (ok: bool)
    requires exts < types
    requires b.Valid()
    modifies b`ptr, b`offset, b.buf
    ensures b.Valid() && old(b.Contents()) <= b.Contents()
    ensures ok <==> FitsIn(PutEnum(old(b.Contents()), e, types, exts, hasExt), b.buf.Length)
    ensures ok ==> b.Contents() == PutEnum(old(b.Contents()), e, types, exts, hasExt).value
  {
    hide ToBits, Octets, BitRef.Contents, BitRef.Valid, Pad, CeilLog2, BitLength, Pow2, OctetBits;
    hide PutSmall;
    if e >= types {
      return false;
    }
    if hasExt {
      var plain := types - exts;
      var ext := e >= plain;
      ok := b.Pack(if ext then 1 else 0, 1);
      if !ok {
        return;
      }
      if !ext {
        ok := b.Pack(e, CeilLog2(plain));
      } else {
        ok := PackSmall(b, e - plain);
      }
    } else {
      ok := b.Pack(e, CeilLog2(types));
    }
  }

  method UnpackEnum(c: CBitRef, types: nat, exts: nat, hasExt: bool) returns (ok: bool, val: nat)
    requires exts < types
    requires c.Valid()
    modifies c`ptr, c`offset
    ensures c.Valid()
    ensures ok <==> GetEnum(c.Data(), old(c.Position()), types, exts, hasExt).Some?
    ensures ok ==> GetEnum(c.Data(), old(c.Position()), types, exts, hasExt).value == (val, c.Position())
  {
    hide FromBits, Octets, CBitRef.Valid, CBitRef.Data, Low, CeilLog2, Pow2, AlignUp;
    hide GetSmall;
    if hasExt {
      var ext;
      ok, ext := c.Unpack(1, 8);
      if !ok {
        return false, 0;
      }
      if ext == 0 {
        ok, val := c.Unpack(CeilLog2(types - exts), 32);
      } else {
        ok, val := UnpackSmall(c);
        val := Low(val + types - exts, 32);
      }
    } else {
      ok, val := c.Unpack(CeilLog2(types), 32);
    }
    if val >= types {
      ok := false;
    }
  }

  // ----- Octet strings -----

  lemma NextOctet(octets: seq<byte>, i: nat)
    requires i < |octets|
    ensures OctetBits(octets[..i + 1]) == OctetBits(octets[..i]) + ToBits(octets[i], 8)
  {
    assert octets[..i + 1] == octets[..i] + [octets[i]];
    OctetBitsAppend(octets[..i], octets[i]);
    hide OctetBits, ToBits;
  }

  // Packs octets one after the other, as long as there is room.
  method PackOctetsUp(b: BitRef, octets: seq<byte>) returns (ok: bool)
    requires b.Valid()
    modifies b`ptr, b`offset, b.buf
    ensures b.Valid() && old(b.Contents()) <= b.Contents()
    ensures ok <==> |old(b.Contents())| + 8 * |octets| <= 8 * b.buf.Length
    ensures ok ==> b.Contents() == old(b.Contents()) + OctetBits(octets)
  {
    hide ToBits, OctetBits, BitRef.Contents, BitRef.Valid;
    ghost var o := b.Contents();
    assert OctetBits(octets[..0]) == [];
    for i := 0 to |octets|
      invariant b.Valid() && b.Contents() == o + OctetBits(octets[..i])
      invariant |o| + 8 * i <= 8 * b.buf.Length
    {
      NextOctet(octets, i);
      Associate(o, OctetBits(octets[..i]), ToBits(octets[i], 8));
      ok := b.Pack(octets[i], 8);
      if !ok {
        return;
      }
    }
    assert octets[..|octets|] == octets;
    ok := true;
  }

  // pack_bytes.  It wants one octet more than it needs: a string that would just fit is refused.
  method PackBytes(b: BitRef, octets: seq<byte>) returns (ok: bool)
    requires b.Valid()
    modifies b`ptr, b`offset, b.buf
    ensures b.Valid()
    ensures ok <==> octets == [] || |old(b.Contents())| / 8 + |octets| < b.buf.Length
    ensures b.Contents() == old(b.Contents()) + if ok then OctetBits(octets) else []
  {
    hide OctetBits, BitRef.Contents;
    NoOctets();
    assert |b.Contents()| / 8 == b.ptr;
    if octets == [] {
      return true;
    }
    if b.ptr + |octets| >= b.buf.Length {
      return false;
    }
    if b.offset == 0 {
      CopyOctets(b, octets);
    } else {
      var packed := PackOctetsUp(b, octets);
    }
    ok := true;
  }

  lemma NoOctets()
    ensures OctetBits([]) == []
  {
  }

  // The aligned case.
  method CopyOctets(b: BitRef, octets: seq<byte>)
    requires b.Valid() && b.offset == 0 && b.ptr + |octets| <= b.buf.Length
    modifies b`ptr, b.buf
    ensures b.Valid() && b.Contents() == old(b.Contents()) + OctetBits(octets)
  {
    hide OctetBits, ToBits, Low, Shr;
    var n := |octets|;
    ghost var before := b.buf[..b.ptr];
    TextAtBoundary(before, 0, 0);
    assert b.Contents() == OctetBits(before);
    for i := 0 to n
      modifies b.buf
      invariant b.buf[..b.ptr] == before && b.buf[b.ptr..b.ptr + i] == octets[..i]
    {
      b.buf[b.ptr + i] := octets[i];
    }
    TextAtBoundary(before + octets, 0, 0);
    OctetBitsJoin(before, octets);
    assert b.buf[..b.ptr + n] == b.buf[..b.ptr] + b.buf[b.ptr..b.ptr + n];
    assert b.buf[..b.ptr + n] == before + octets;
    b.ptr := b.ptr + n;
  }

  method PackOctets(b: BitRef, octets: seq<byte>, aligned: bool) returns (ok: bool)
    requires b.Valid()
    modifies b`ptr, b`offset, b.buf
    ensures b.Valid() && old(b.Contents()) <= b.Contents()
    ensures ok <==> FitsIn(PutOctets(old(b.Contents()), octets, aligned), b.buf.Length)
    ensures ok ==> b.Contents() == PutOctets(old(b.Contents()), octets, aligned).value
  {
    hide OctetBits, BitRef.Contents, BitRef.Valid, PutLength;
    ok := PackLength(b, |octets|, aligned);
    if ok {
      ok := PackOctetsUp(b, octets);
    }
  }

  // What reading more octets gives, together with those that have been read.
  function Behind(octets: seq<byte>, rest: Option<(seq<byte>, nat)>): Option<(seq<byte>, nat)> {
    if rest.Some? then Some((octets + rest.value.0, rest.value.1)) else None
  }

  lemma GetUpStep(data: seq<bool>, pos: nat, n: nat, octets: seq<byte>)
    requires 0 < n
    ensures Behind(octets, GetUp(data, pos, n)) ==
            if Get(data, pos, 8, 8).None? then None
            else
              (EightBits(); Behind(octets + [Get(data, pos, 8, 8).value.0], GetUp(data, pos + 8, n - 1)))
  {
    EightBits();
    hide FromBits, Pow2;
    var b := Get(data, pos, 8, 8);
    if b.Some? && GetUp(data, pos + 8, n - 1).Some? {
      var rest := GetUp(data, pos + 8, n - 1).value.0;
      assert octets + ([b.value.0] + rest) == (octets + [b.value.0]) + rest;
    }
  }

  // Reads octets one after the other.
  method UnpackOctetsUp(c: CBitRef, n: nat) returns (ok: bool, octets: seq<byte>)
    requires c.Valid()
    modifies c`ptr, c`offset
    ensures c.Valid()
    ensures ok <==> GetUp(c.Data(), old(c.Position()), n).Some?
    ensures ok ==> GetUp(c.Data(), old(c.Position()), n).value == (octets, c.Position())
  {
    hide FromBits, CBitRef.Valid, CBitRef.Data, GetUp, Pow2;
    octets := [];
    ghost var data, all := c.Data(), GetUp(c.Data(), c.Position(), n);
    GetNone(data, c.Position(), all);
    for i := 0 to n
      invariant c.Valid() && c.Data() == data
      invariant all == Behind(octets, GetUp(data, c.Position(), n - i))
    {
      GetUpStep(data, c.Position(), n - i, octets);
      EightBits();
      var octet;
      ok, octet := c.Unpack(8, 8);
      if !ok {
        return;
      }
      octets := octets + [octet];
    }
    GetUpEnd(data, c.Position(), octets);
    ok := true;
  }

  method UnpackOctets(c: CBitRef, aligned: bool) returns (ok: bool, octets: seq<byte>)
    requires c.Valid()
    modifies c`ptr, c`offset
    ensures c.Valid()
    ensures ok <==> GetOctets(c.Data(), old(c.Position()), aligned).Some?
    ensures ok ==> GetOctets(c.Data(), old(c.Position()), aligned).value == (octets, c.Position())
  {
    hide CBitRef.Valid, CBitRef.Data, GetLength, GetUp;
    var len;
    ok, len := UnpackLength(c, aligned);
    octets := [];
    if ok {
      ok, octets := UnpackOctetsUp(c, len);
    }
  }

  // unpack_bytes, with the same margin.
  method UnpackBytes(c: CBitRef, n: nat) returns (ok: bool, octets: seq<byte>)
    requires c.Valid()
    modifies c`ptr, c`offset
    ensures c.Valid()
    ensures ok <==> n == 0 || old(c.Position()) / 8 + n < c.buf.Length
    ensures ok ==> GetUp(c.Data(), old(c.Position()), n) == Some((octets, c.Position()))
  {
    octets := [];
    if n == 0 {
      return true, [];
    }
    if c.ptr + n >= c.buf.Length {
      return false, [];
    }
    if c.offset == 0 {
      octets := c.buf[c.ptr..c.ptr + n];
      SliceIsRead(c.buf[..], c.ptr, n);
      hide GetUp;
      c.ptr := c.ptr + n;
      ok := true;
    } else {
      hide GetUp, CBitRef.Data;
      ok, octets := UnpackOctetsUp(c, n);
      EnoughToRead(c.Data(), old(c.Position()), n);
    }
  }

  lemma SliceIsRead(buf: seq<byte>, k: nat, n: nat)
    requires k + n <= |buf|
    ensures GetUp(OctetBits(buf), 8 * k, n) == Some((buf[k..k + n], 8 * (k + n)))
  {
    hide OctetBits, GetUp;
    OctetBitsSplit(buf, k + n);
    OctetBitsSplit(buf[..k + n], k);
    assert buf[..k + n][..k] == buf[..k] && buf[..k + n][k..] == buf[k..k + n];
    UpRoundTrip(OctetBits(buf[..k]), buf[k..k + n], OctetBits(buf));
  }

  lemma {:induction false} EnoughToRead(data: seq<bool>, pos: nat, n: nat)
    ensures GetUp(data, pos, n).Some? <==> n == 0 || pos + 8 * n <= |data|
    decreases n
  {
    hide FromBits, Pow2;
    if n > 0 {
      EightBits();
      EnoughToRead(data, pos + 8, n - 1);
    }
  }

  lemma GetNone(data: seq<bool>, pos: nat, r: Option<(seq<byte>, nat)>)
    ensures Behind([], r) == r
  {
    if r.Some? {
      assert [] + r.value.0 == r.value.0;
    }
  }

  lemma GetUpEnd(data: seq<bool>, pos: nat, octets: seq<byte>)
    ensures Behind(octets, GetUp(data, pos, 0)) == Some((octets, pos))
  {
    assert octets + [] == octets;
  }

  // ----- Bit fields -----

  lemma NextDown(octets: seq<byte>, n: nat)
    requires 0 < n <= |octets|
    ensures DownBits(octets[..n]) == ToBits(octets[n - 1], 8) + DownBits(octets[..n - 1])
  {
    assert octets[..n][..n - 1] == octets[..n - 1];
  }

  // Packs octets from the last to the first, as long as there is room.
  method PackOctetsDown(b: BitRef, octets: seq<byte>) returns (ok: bool)
    requires b.Valid()
    modifies b`ptr, b`offset, b.buf
    ensures b.Valid() && old(b.Contents()) <= b.Contents()
    ensures ok <==> |old(b.Contents())| + 8 * |octets| <= 8 * b.buf.Length
    ensures ok ==> b.Contents() == old(b.Contents()) + DownBits(octets)
  {
    hide ToBits, BitRef.Contents, BitRef.Valid, DownBits;
    var n := |octets|;
    ghost var target := b.Contents() + DownBits(octets);
    assert octets[..n] == octets;
    for i := 0 to n
      invariant b.Valid() && old(b.Contents()) <= b.Contents()
      invariant b.Contents() + DownBits(octets[..n - i]) == target
    {
      NextDown(octets, n - i);
      Associate(b.Contents(), ToBits(octets[n - 1 - i], 8), DownBits(octets[..n - 1 - i]));
      ok := b.Pack(octets[n - 1 - i], 8);
      if !ok {
        return;
      }
    }
    assert DownBits(octets[..0]) == [];
    ok := true;
  }

  method PackBitField(b: BitRef, octets: seq<byte>, size: nat, aligned: bool) returns (ok: bool)
    requires |octets| == Octets(size)
    requires b.Valid()
    modifies b`ptr, b`offset, b.buf
    ensures b.Valid() && old(b.Contents()) <= b.Contents()
    ensures ok <==> FitsIn(PutBitField(old(b.Contents()), octets, size, aligned), b.buf.Length)
    ensures ok ==> b.Contents() == PutBitField(old(b.Contents()), octets, size, aligned).value
  {
    hide ToBits, Octets, BitRef.Contents, BitRef.Valid, Pad, TopBits, DownBits;
    if size == 0 {
      return false;
    }
    if aligned && size > 16 {
      ok := b.AlignBytes();
    }
    var last := |octets| - 1;
    ok := b.Pack(octets[last], TopBits(size));
    if ok {
      ok := PackOctetsDown(b, octets[..last]);
    }
  }

  function Above(rest: Option<(seq<byte>, nat)>, octets: seq<byte>): Option<(seq<byte>, nat)> {
    if rest.Some? then Some((rest.value.0 + octets, rest.value.1)) else None
  }

  lemma GetDownStep(data: seq<bool>, pos: nat, n: nat, octets: seq<byte>)
    requires 0 < n
    ensures Above(GetDown(data, pos, n), octets) ==
            if Get(data, pos, 8, 8).None? then None
            else
              (EightBits(); Above(GetDown(data, pos + 8, n - 1), [Get(data, pos, 8, 8).value.0] + octets))
  {
    EightBits();
    hide FromBits, Pow2;
    var b := Get(data, pos, 8, 8);
    if b.Some? && GetDown(data, pos + 8, n - 1).Some? {
      var rest := GetDown(data, pos + 8, n - 1).value.0;
      assert (rest + [b.value.0]) + octets == rest + ([b.value.0] + octets);
    }
  }

  lemma GetDownEnd(data: seq<bool>, pos: nat, octets: seq<byte>)
    ensures Above(GetDown(data, pos, 0), octets) == Some((octets, pos))
  {
    assert [] + octets == octets;
  }

  // Reads the first n octets of buf, from the last to the first.
  method UnpackOctetsDown(c: CBitRef, buf: array<byte>, n: nat) returns (ok: bool)
    requires c.Valid() && buf != c.buf && n <= buf.Length
    modifies c`ptr, c`offset, buf
    ensures c.Valid() && buf[n..] == old(buf[n..])
    ensures ok <==> GetDown(c.Data(), old(c.Position()), n).Some?
    ensures ok ==> GetDown(c.Data(), old(c.Position()), n).value == (buf[..n], c.Position())
  {
    hide FromBits, CBitRef.Valid, CBitRef.Data, GetDown, Pow2;
    ghost var data, all := c.Data(), GetDown(c.Data(), c.Position(), n);
    assert buf[n..n] == [];
    AboveNone(all);
    for i := 0 to n
      invariant c.Valid() && c.Data() == data && buf[n..] == old(buf[n..])
      invariant all == Above(GetDown(data, c.Position(), n - i), buf[n - i..n])
    {
      GetDownStep(data, c.Position(), n - i, buf[n - i..n]);
      EightBits();
      var next;
      ok, next := c.Unpack(8, 8);
      if !ok {
        return;
      }
      ghost var above := buf[n - i..n];
      buf[n - 1 - i] := next;
      assert buf[n - 1 - i..n] == [next] + above;
    }
    GetDownEnd(data, c.Position(), buf[..n]);
    assert buf[0..n] == buf[..n];
    ok := true;
  }

  lemma AboveNone(r: Option<(seq<byte>, nat)>)
    ensures Above(r, []) == r
  {
    if r.Some? {
      assert r.value.0 + [] == r.value.0;
    }
  }

  // buf has room for the octets of the field.
  method UnpackBitField(c: CBitRef, buf: array<byte>, size: nat, aligned: bool) returns (ok: bool)
    requires c.Valid() && buf != c.buf && buf.Length == Octets(size)
    modifies c`ptr, c`offset, buf
    ensures c.Valid()
    ensures ok <==> GetBitField(c.Data(), old(c.Position()), size, aligned).Some?
    ensures ok ==> GetBitField(c.Data(), old(c.Position()), size, aligned).value == (buf[..], c.Position())
  {
    hide FromBits, CBitRef.Valid, CBitRef.Data, GetDown, Pow2, TopBits, Octets, AlignUp;
    if size > 65536 {
      return false;
    }
    if size == 0 {
      assert buf[..] == [];
      return true;
    }
    if aligned && size > 16 {
      ok := c.AlignBytes();
    }
    var n := Octets(size);
    var octet;
    TopIsOctet(c.Data(), c.Position(), TopBits(size));
    ok, octet := c.Unpack(TopBits(size), 8);
    if !ok {
      return;
    }
    buf[n - 1] := octet;
    assert buf[n - 1..] == [octet];
    ok := UnpackOctetsDown(c, buf, n - 1);
    assert buf[..] == buf[..n - 1] + [octet];
  }
}
