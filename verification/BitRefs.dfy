/** bit_ref and cbit_ref (asn1_utils.cc): cursors that write and read a byte buffer bit by bit. */
module BitRefs {
  import opened BitStrings
  import opened Bytes

  // The bits up to the next octet boundary.
  function Gap(n: nat): (r: nat)
    ensures r < 8 && (n + r) % 8 == 0
  {
    if n % 8 == 0 then 0 else 8 - n % 8
  }

  // Zeros up to the next octet boundary.
  function Pad(out: seq<bool>): (r: seq<bool>)
    ensures out <= r && |r| % 8 == 0
  {
    out + Zeros(Gap(|out|))
  }

  function AlignUp(pos: nat): (r: nat)
    ensures r % 8 == 0
  {
    pos + Gap(pos)
  }

  // ----- One octet -----

  // Clears the bits of an octet from the given offset on: *ptr & keepmask
  function Keep(b: byte, offset: nat): (r: byte)
    requires offset < 8
    ensures r <= b && Shr(r, 8 - offset) == Shr(b, 8 - offset) && Low(r, 8 - offset) == 0
  {
    Decompose(b, 8 - offset);
    Recompose(Shr(b, 8 - offset), 0, 8 - offset);
    Shl(Shr(b, 8 - offset), 8 - offset)
  }

  lemma EightBits()
    ensures Pow2(8) == 256
  {
    assert Pow2(4) == 16;
  }

  // n bits fit behind the offset with room to spare.
  lemma FillPart(b: byte, offset: nat, v: nat, n: nat)
    requires offset < 8 && n < 8 - offset && v < Pow2(n)
    ensures var r := Keep(b, offset) + Shl(v, 8 - offset - n);
            && r < 256 && Low(r, 8 - offset - n) == 0
            && ToBits(Shr(r, 8 - offset - n), offset + n) == ToBits(Shr(b, 8 - offset), offset) + ToBits(v, n)
  {
    hide *;
    var left, spare := 8 - offset, 8 - offset - n;
    var kept := Shr(b, left);
    var r := Keep(b, offset) + Shl(v, spare);
    Decompose(Keep(b, offset), left);
    ShlShl(kept, n, spare);
    ShlSum(Shl(kept, n), v, spare);
    assert r == Shl(Shl(kept, n) + v, spare);
    Recompose(Shl(kept, n) + v, 0, spare);
    ToBitsJoin(kept, v, offset, n);
    EightBits();
    ShrBound(b, offset, left);
    ShlBound(kept, offset, left);
    ShlBound(v, n, spare);
  }

  // The octet is filled up with the leading bits of v.
  lemma FillRest(b: byte, offset: nat, v: nat, n: nat)
    requires offset < 8 && 8 - offset <= n && v < Pow2(n)
    ensures var r := Keep(b, offset) + Shr(v, n - (8 - offset));
            && r < 256
            && ToBits(r, 8) + ToBits(v, n - (8 - offset)) == ToBits(Shr(b, 8 - offset), offset) + ToBits(v, n)
  {
    hide *;
    var left := 8 - offset;
    var first := Shr(v, n - left);
    ShrBound(v, left, n - left);
    Decompose(Keep(b, offset), left);
    ToBitsJoin(Shr(b, left), first, offset, left);
    ToBitsSplit(v, left, n - left);
    EightBits();
    ShrBound(b, offset, left);
    ShlBound(Shr(b, left), offset, left);
  }

  // The bits of an octet behind an offset: *ptr & mask, shifted.
  lemma TakePart(b: byte, offset: nat, n: nat)
    requires offset < 8 && n <= 8 - offset
    ensures FromBits(ToBits(b, 8)[offset..offset + n]) == Shr(Low(b, 8 - offset), 8 - offset - n)
  {
    hide *;
    var left := 8 - offset;
    ToBitsSplit(b, offset, left);
    ToBitsLow(b, left);
    ToBitsSplit(Low(b, left), n, left - n);
    assert ToBits(b, 8)[offset..offset + n] == ToBits(Shr(Low(b, left), left - n), n);
    FromToBits(Shr(Low(b, left), left - n), n);
    ShrBound(Low(b, left), n, left - n);
    LowSmall(Shr(Low(b, left), left - n), n);
  }

  // Whole octets, and the leading bits of one more.
  function Text(octets: seq<byte>, b: byte, offset: nat): (r: seq<bool>)
    requires offset < 8
    ensures |r| == 8 * |octets| + offset
  {
    OctetBits(octets) + ToBits(Shr(b, 8 - offset), offset)
  }

  lemma TextAtBoundary(octets: seq<byte>, b: byte, c: byte)
    ensures Text(octets, b, 0) == Text(octets, c, 0) == OctetBits(octets)
  {
  }

  lemma NoBits(v: nat)
    ensures ToBits(v, 0) == []
  {
  }

  lemma PackPart(octets: seq<byte>, b: byte, offset: nat, v: nat, n: nat)
    requires offset < 8 && n < 8 - offset
    ensures var r := Keep(b, offset) + Shl(Low(v, n), 8 - offset - n);
            && r < 256 && Low(r, 8 - offset - n) == 0
            && Text(octets, r, offset + n) == Text(octets, b, offset) + ToBits(v, n)
  {
    hide Shl, Shr, Low, ToBits, Pow2, OctetBits, Keep;
    FillPart(b, offset, Low(v, n), n);
    ToBitsLow(v, n);
  }

  lemma PackRest(octets: seq<byte>, b: byte, offset: nat, v: nat, n: nat, c: byte)
    requires offset < 8 && 8 - offset <= n
    ensures var r := Keep(b, offset) + Shr(Low(v, n), n - (8 - offset));
            && r < 256
            && Text(octets + [r], c, 0) + ToBits(Low(v, n), n - (8 - offset)) == Text(octets, b, offset) + ToBits(v, n)
  {
    hide Shr, Low, ToBits, Pow2, OctetBits, Keep;
    FillRest(b, offset, Low(v, n), n);
    ToBitsLow(v, n);
    var r := Keep(b, offset) + Shr(Low(v, n), n - (8 - offset));
    OctetBitsAppend(octets, r);
    TextAtBoundary(octets + [r], c, c);
    var kept, rest := ToBits(Shr(b, 8 - offset), offset), ToBits(Low(v, n), n - (8 - offset));
    assert OctetBits(octets) + ToBits(r, 8) + rest == OctetBits(octets) + (ToBits(r, 8) + rest);
    assert OctetBits(octets) + kept + ToBits(v, n) == OctetBits(octets) + (kept + ToBits(v, n));
  }

  // An octet whose other bits are zero, taken as a whole.
  lemma PadOctet(octets: seq<byte>, b: byte, offset: nat)
    requires 0 < offset < 8 && Low(b, 8 - offset) == 0
    ensures Text(octets + [b], 0, 0) == Pad(Text(octets, b, offset))
  {
    hide Shr, Low, ToBits, OctetBits, Zeros;
    OctetBitsAppend(octets, b);
    ToBitsSplit(b, offset, 8 - offset);
    ToBitsLow(b, 8 - offset);
    ZeroBits(8 - offset);
    NoBits(Shr(0, 8));
  }

  // ----- The writing cursor -----

  class BitRef {
    var buf: array<byte>
    var ptr: nat
    var offset: nat

    // The bits of the current octet that are still to be written are zero.
    predicate Valid()
      reads this, buf
    {
      && offset < 8 && ptr <= buf.Length
      && (offset > 0 ==> ptr < buf.Length && Low(buf[ptr], 8 - offset) == 0)
    }

    // Everything that has been written.
    function Contents(): (r: seq<bool>)
      requires Valid()
      reads this, buf
      ensures |r| == 8 * ptr + offset <= 8 * buf.Length
    {
      Text(buf[..ptr], if offset == 0 then 0 else buf[ptr], offset)
    }

    // The octets that have been written to.
    function Used(): nat
      reads this
    {
      ptr + if offset > 0 then 1 else 0
    }

    constructor (buffer: array<byte>)
      ensures Valid() && buf == buffer && Contents() == []
    {
      buf, ptr, offset := buffer, 0, 0;
    }

    // The copy assignment.
    method Assign(other: BitRef)
      requires other.Valid()
      modifies this
      ensures Valid() && buf == other.buf && ptr == other.ptr && offset == other.offset
      ensures Contents() == old(other.Contents())
    {
      buf, ptr, offset := other.buf, other.ptr, other.offset;
    }

    // The branch of pack for bits that leave room in the current octet.
    method FillSome(v: nat, n: nat)
      requires Valid() && ptr < buf.Length && 0 < n < 8 - offset
      modifies this`offset, buf
      ensures Valid() && 8 * ptr + offset == old(8 * ptr + offset) + n
      ensures Contents() == old(Contents()) + ToBits(v, n)
      ensures forall k :: Used() <= k < buf.Length ==> buf[k] == old(buf[k])
    {
      hide Text, Keep, Shl, Shr, Low, ToBits;
      ghost var octets := buf[..ptr];
      TextAtBoundary(octets, 0, buf[ptr]);
      PackPart(octets, buf[ptr], offset, v, n);
      buf[ptr] := Keep(buf[ptr], offset) + Shl(Low(v, n), 8 - offset - n);
      offset := offset + n;
      assert buf[..ptr] == octets;
      TextAtBoundary(octets, 0, buf[ptr]);
    }

    // The branch of pack for bits that fill up the current octet.
    method FillUp(v: nat, n: nat)
      requires Valid() && ptr < buf.Length && 8 - offset <= n
      modifies this`ptr, this`offset, buf
      ensures Valid() && 8 * ptr + offset == old(8 * ptr + offset) + (8 - old(offset))
      ensures Contents() + ToBits(Low(v, n), n - (8 - old(offset))) == old(Contents()) + ToBits(v, n)
      ensures forall k :: Used() <= k < buf.Length ==> buf[k] == old(buf[k])
    {
      hide Text, Keep, Shl, Shr, Low, ToBits;
      ghost var octets := buf[..ptr];
      TextAtBoundary(octets, 0, buf[ptr]);
      PackRest(octets, buf[ptr], offset, v, n, 0);
      buf[ptr] := Keep(buf[ptr], offset) + Shr(Low(v, n), n - (8 - offset));
      offset := 0;
      ptr := ptr + 1;
      assert buf[..ptr] == octets + [buf[ptr - 1]];
    }

    method Pack(val: nat, nBits: nat) returns (ok: bool)
      requires Valid()
      modifies this`ptr, this`offset, buf
      ensures Valid()
      ensures ok <==> nBits < 32 && |old(Contents())| + nBits <= 8 * buf.Length
      ensures ok ==> Contents() == old(Contents()) + ToBits(val, nBits)
      ensures nBits >= 32 ==> Contents() == old(Contents())
      ensures !ok ==> old(Contents()) <= Contents()
      ensures forall k :: Used() <= k < buf.Length ==> buf[k] == old(buf[k])
    {
      if nBits >= 32 {
        return false;
      }
      hide Low, ToBits, Contents;
      var v: nat, n: nat := val, nBits;
      ghost var target := Contents() + ToBits(val, nBits);
      while n > 0
        invariant Valid()
        invariant Contents() + ToBits(v, n) == target
        invariant 8 * ptr + offset + n == old(8 * ptr + offset) + nBits
        invariant ptr >= old(ptr) && n <= nBits
        invariant forall k :: Used() <= k < buf.Length ==> buf[k] == old(buf[k])
      {
        if ptr >= buf.Length {
          assert Contents() == target[..|Contents()|];
          return false;
        }
        if 8 - offset > n {
          FillSome(v, n);
          n := 0;
          NoBits(v);
        } else {
          var left := 8 - offset;
          FillUp(v, n);
          v := Low(v, n);
          n := n - left;
        }
      }
      NoBits(v);
      return true;
    }

    method AlignBytes() returns (ok: bool)
      requires Valid()
      modifies this`ptr, this`offset
      ensures Valid() && ok
      ensures Contents() == Pad(old(Contents()))
    {
      if offset == 0 {
        return true;
      }
      if ptr >= buf.Length {
        return false;
      }
      ghost var left := 8 - offset;
      PadOctet(buf[..ptr], buf[ptr], offset);
      assert buf[..ptr + 1] == buf[..ptr] + [buf[ptr]];
      hide Shr, Low, ToBits, OctetBits, Text;
      offset := 0;
      ptr := ptr + 1;
      return true;
    }

    method AlignBytesZero() returns (ok: bool)
      requires Valid()
      modifies this`ptr, this`offset, buf
      ensures Valid() && ok
      ensures Contents() == Pad(old(Contents()))
      ensures buf[..] == old(buf[..])
    {
      if offset == 0 {
        return true;
      }
      if ptr >= buf.Length {
        return false;
      }
      Decompose(buf[ptr], 8 - offset);
      buf[ptr] := Keep(buf[ptr], offset);
      ok := AlignBytes();
    }
  }

  // What has been written fixes the octets of the buffer, whatever was there before: also the bits
  // behind the cursor in the last octet.
  lemma OctetsAreFixed(a: BitRef, b: BitRef)
    requires a.Valid() && b.Valid() && a.Contents() == b.Contents()
    ensures a.ptr == b.ptr && a.offset == b.offset && a.buf[..a.Used()] == b.buf[..b.Used()]
  {
    hide Shr, Low, ToBits, Pow2, OctetBits;
    assert a.ptr == |a.Contents()| / 8 && a.offset == |a.Contents()| % 8;
    var n := a.ptr;
    assert OctetBits(a.buf[..n]) == a.Contents()[..8 * n] == OctetBits(b.buf[..n]);
    OctetBitsInjective(a.buf[..n], b.buf[..n]);
    if a.offset > 0 {
      var x, y, left := a.buf[n], b.buf[n], 8 - a.offset;
      assert ToBits(Shr(x, left), a.offset) == a.Contents()[8 * n..] == ToBits(Shr(y, left), a.offset);
      EightBits();
      ShrBound(x, a.offset, left);
      ShrBound(y, a.offset, left);
      ToBitsInjective(Shr(x, left), Shr(y, left), a.offset);
      Decompose(x, left);
      Decompose(y, left);
      assert a.buf[..n + 1] == a.buf[..n] + [x];
      assert b.buf[..n + 1] == b.buf[..n] + [y];
    }
  }

  // ----- The reading cursor -----

  class CBitRef {
    const buf: array<byte>
    var ptr: nat
    var offset: nat

    predicate Valid()
      reads this
    {
      offset < 8 && ptr <= buf.Length && (offset > 0 ==> ptr < buf.Length)
    }

    function Position(): nat
      reads this
    {
      8 * ptr + offset
    }

    // All the bits there are to read.
    function Data(): (r: seq<bool>)
      reads buf
      ensures |r| == 8 * buf.Length
    {
      OctetBits(buf[..])
    }

    constructor (buffer: array<byte>)
      ensures Valid() && buf == buffer && Position() == 0
    {
      buf, ptr, offset := buffer, 0, 0;
    }

    // The branch of unpack_bits for bits that do not exhaust the current octet.
    method TakeSome(n: nat, ghost start: nat) returns (part: nat)
      requires Valid() && ptr < buf.Length && n < 8 - offset && start <= Position() <= |Data()|
      modifies this`offset
      ensures Valid() && Position() == old(Position()) + n <= |Data()|
      ensures Gathered(Data(), start, Position(), 0) == Gathered(Data(), start, old(Position()), n) + part
    {
      hide Shl, Shr, Low, OctetBits, FromBits, Gathered;
      ReadPart(buf[..], ptr, offset, start, n);
      part := Shr(Low(buf[ptr], 8 - offset), 8 - offset - n);
      offset := offset + n;
    }

    // The branch of unpack_bits for the rest of the current octet.
    method TakeRest(n: nat, ghost start: nat) returns (part: nat)
      requires Valid() && ptr < buf.Length && 8 - offset <= n && start <= Position() <= |Data()|
      modifies this`ptr, this`offset
      ensures Valid() && Position() == old(Position()) + (8 - old(offset)) <= |Data()|
      ensures Gathered(Data(), start, Position(), n - (8 - old(offset))) == Gathered(Data(), start, old(Position()), n) + part
    {
      hide Shl, Shr, Low, OctetBits, FromBits, Gathered;
      ReadRest(buf[..], ptr, offset, start, n);
      part := Shl(Low(buf[ptr], 8 - offset), n - (8 - offset));
      offset := 0;
      ptr := ptr + 1;
    }

    // width is the number of bits of the integer type that is read into.
    method Unpack(nBits: nat, width: nat) returns (ok: bool, val: nat)
      requires Valid() && width <= 32
      modifies this`ptr, this`offset
      ensures Valid()
      ensures ok <==> nBits <= width && old(Position()) + nBits <= |Data()|
      ensures ok ==> Position() == old(Position()) + nBits
      ensures ok ==> val == FromBits(Data()[old(Position())..Position()])
      ensures nBits > width ==> Position() == old(Position())
      ensures !ok && nBits <= width ==> Position() == |Data()|
    {
      val := 0;
      if nBits > width {
        return false, val;
      }
      var n: nat := nBits;
      ghost var start := Position();
      hide FromBits, Gathered;
      ReadNothing(Data(), start, n);
      while n > 0
        invariant Valid() && start <= Position() <= |Data()| && Position() + n == start + nBits
        invariant val == Gathered(Data(), start, Position(), n)
      {
        if ptr >= buf.Length {
          return false, val;
        }
        var part;
        if 8 - offset > n {
          part := TakeSome(n, start);
          n := 0;
        } else {
          var left := 8 - offset;
          part := TakeRest(n, start);
          n := n - left;
        }
        val := val + part;
      }
      ReadAll(Data(), start, Position());
      return true, val;
    }

    method AlignBytes() returns (ok: bool)
      requires Valid()
      modifies this`ptr, this`offset
      ensures Valid() && ok
      ensures Position() == AlignUp(old(Position())) <= |Data()|
    {
      if offset == 0 {
        return true;
      }
      if ptr >= buf.Length {
        return false;
      }
      offset := 0;
      ptr := ptr + 1;
      return true;
    }
  }

  // The number made of the bits that have been read, with n more to come.
  function Gathered(data: seq<bool>, start: nat, p: nat, n: nat): nat
    requires start <= p <= |data|
  {
    Shl(FromBits(data[start..p]), n)
  }

  lemma ReadNothing(data: seq<bool>, start: nat, n: nat)
    requires start <= |data|
    ensures Gathered(data, start, start, n) == 0
  {
    assert data[start..start] == [];
    ShlZero(n);
  }

  lemma ReadAll(data: seq<bool>, start: nat, p: nat)
    requires start <= p <= |data|
    ensures Gathered(data, start, p, 0) == FromBits(data[start..p])
  {
  }

  // The last n bits, out of one octet.
  lemma ReadPart(buf: seq<byte>, ptr: nat, offset: nat, start: nat, n: nat)
    requires ptr < |buf| && offset < 8 && n < 8 - offset && start <= 8 * ptr + offset
    ensures var data, p := OctetBits(buf), 8 * ptr + offset;
            Gathered(data, start, p + n, 0) ==
            Gathered(data, start, p, n) + Shr(Low(buf[ptr], 8 - offset), 8 - offset - n)
  {
    ReadSome(buf, ptr, offset, n, start, n);
    assert Shl(Shr(Low(buf[ptr], 8 - offset), 8 - offset - n), 0) == Shr(Low(buf[ptr], 8 - offset), 8 - offset - n);
    hide Shl, Shr, Low, OctetBits, FromBits;
  }

  // The rest of an octet, with n bits to read from there on.
  lemma ReadRest(buf: seq<byte>, ptr: nat, offset: nat, start: nat, n: nat)
    requires ptr < |buf| && offset < 8 && 8 - offset <= n && start <= 8 * ptr + offset
    ensures var data, p := OctetBits(buf), 8 * ptr + offset;
            Gathered(data, start, 8 * (ptr + 1), n - (8 - offset)) ==
            Gathered(data, start, p, n) + Shl(Low(buf[ptr], 8 - offset), n - (8 - offset))
  {
    ReadSome(buf, ptr, offset, 8 - offset, start, n);
    assert Shr(Low(buf[ptr], 8 - offset), 0) == Low(buf[ptr], 8 - offset);
    hide Shl, Shr, Low, OctetBits, FromBits;
  }

  // Reading k more bits out of one octet.
  lemma ReadSome(buf: seq<byte>, ptr: nat, offset: nat, k: nat, start: nat, n: nat)
    requires ptr < |buf| && offset < 8 && k <= 8 - offset && k <= n && start <= 8 * ptr + offset
    ensures var data, p := OctetBits(buf), 8 * ptr + offset;
            Shl(FromBits(data[start..p + k]), n - k) ==
            Shl(FromBits(data[start..p]), n) + Shl(Shr(Low(buf[ptr], 8 - offset), 8 - offset - k), n - k)
  {
    hide *;
    var data, p := OctetBits(buf), 8 * ptr + offset;
    OctetAt(buf, ptr);
    TakePart(buf[ptr], offset, k);
    assert data[p..p + k] == ToBits(buf[ptr], 8)[offset..offset + k];
    assert data[start..p + k] == data[start..p] + data[p..p + k];
    FromBitsJoin(data[start..p], data[p..p + k]);
    ShlShl(FromBits(data[start..p]), k, n - k);
    ShlSum(Shl(FromBits(data[start..p]), k), FromBits(data[p..p + k]), n - k);
  }
}
