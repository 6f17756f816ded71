/** The guards of asn1_utils.cc: objects that pack or unpack what surrounds a group of fields. */
module PerGuards {
  import opened BitStrings
  import opened Bytes
  import opened BitRefs
  import opened Options
  import opened Per
  import opened PerFields
  import opened PerCodec

  // ----- Open types -----

  // Between construction and Close, what is packed into the tracked cursor is the body of the field
  // and goes into a buffer of its own.
  class VarlengthFieldPackGuard {
    const bref: BitRef
    const brefStart: BitRef
    const aligned: bool

    ghost predicate Valid()
      reads this, bref, brefStart, bref.buf, brefStart.buf
    {
      && bref != brefStart && bref.buf != brefStart.buf
      && bref.Valid() && brefStart.Valid() && bref.buf.Length == RESERVED
    }

    constructor (b: BitRef, aligned: bool)
      requires b.Valid()
      modifies b
      ensures bref == b && this.aligned == aligned && fresh(brefStart) && fresh(b.buf) && Valid()
      ensures b.Contents() == []
      ensures brefStart.buf == old(b.buf) && brefStart.Contents() == old(b.Contents())
    {
      this.bref := b;
      this.aligned := aligned;
      var start := new BitRef(b.buf);
      brefStart := start;
      new;
      brefStart.Assign(b);
      var buffer := new byte[RESERVED];
      var empty := new BitRef(buffer);
      b.Assign(empty);
    }

    // The destructor.  No result of packing is looked at.
    method Close()
      requires Valid()
      modifies bref, bref.buf, brefStart, brefStart.buf
      ensures bref.buf == old(brefStart.buf) && bref.Valid()
      ensures FitsIn(PutOpen(old(brefStart.Contents()), old(bref.Contents()), aligned), old(brefStart.buf.Length)) ==>
                bref.Contents() == PutOpen(old(brefStart.Contents()), old(bref.Contents()), aligned).value
    {
      hide OctetBits, PutLength, BitRef.Contents, BitRef.Valid, Pad;
      var octets := FillUpOctets(bref);
      var ignored := PackLength(brefStart, |octets|, aligned);
      ignored := PackOctetsUp(brefStart, octets);
      bref.Assign(brefStart);
    }
  }

  // Fills the spare bits and returns the octets of a body.
  method FillUpOctets(b: BitRef) returns (octets: seq<byte>)
    requires b.Valid()
    modifies b`ptr, b`offset, b.buf
    ensures b.Valid()
    ensures OctetBits(octets) == Pad(old(b.Contents())) && |octets| == Octets(|old(b.Contents())|)
  {
    hide OctetBits, Zeros, Gap, BitRef.Contents;
    var distance := 8 * b.ptr + b.offset;
    var leftover := if distance == 0 then 0 else 7 - (distance - 1) % 8;
    LeftoverIsGap(distance, b.buf.Length);
    ZeroBits(leftover);
    var ignored := b.Pack(0, leftover);
    var nofBytes := (8 * b.ptr + b.offset) / 8;
    octets := b.buf[..nofBytes];
    WholeOctets(b);
  }

  lemma WholeOctets(b: BitRef)
    requires b.Valid() && |b.Contents()| % 8 == 0
    ensures b.offset == 0 && b.Contents() == OctetBits(b.buf[..b.ptr])
  {
    hide OctetBits;
    TextAtBoundary(b.buf[..b.ptr], 0, 0);
  }

  lemma LeftoverIsGap(n: nat, size: nat)
    requires n <= 8 * size
    ensures (if n == 0 then 0 else 7 - (n - 1) % 8) == Gap(n)
    ensures n + Gap(n) <= 8 * size
  {
  }

  class VarlengthFieldUnpackGuard {
    const bref: CBitRef
    const start: nat    // bref0
    const len: nat

    // The result of unpack_length is not looked at.
    constructor (c: CBitRef, aligned: bool)
      requires c.Valid()
      modifies c`ptr, c`offset
      ensures bref == c && c.Valid() && start == c.Position()
      ensures GetLength(c.Data(), old(c.Position()), aligned).Some? ==>
                GetLength(c.Data(), old(c.Position()), aligned).value == (len, start)
    {
      bref := c;
      var ok, n := UnpackLength(c, aligned);
      len := n;
      start := c.Position();
    }

    // The destructor.  A negative rest wraps around, and the result of unpack is not looked at.
    method Close()
      requires bref.Valid() && start <= bref.Position() < 0x4000_0000
      modifies bref`ptr, bref`offset
      ensures bref.Valid()
      ensures len < 16384 ==>
                bref.Position() == Skip(|bref.Data()|, old(bref.Position()), 8 * len - (old(bref.Position()) - start))
    {
      hide CBitRef.Data, FromBits;
      var rest := 8 * len - (bref.Position() - start);
      WrapAround(rest);
      var ignored, pad := bref.Unpack(rest % 0x1_0000_0000, 32);
    }
  }

  lemma WrapAround(rest: int)
    requires -0x4000_0000 < rest
    ensures rest < 0 ==> rest % 0x1_0000_0000 > 32
    ensures 0 <= rest < 0x1_0000_0000 ==> rest % 0x1_0000_0000 == rest
  {
  }

  // ----- Extension groups -----

  class ExtGroupsPackerGuard {
    var groups: seq<bool>

    constructor ()
      ensures groups == []
    {
      groups := [];
    }

    // operator[], assigned to
    method Set(idx: nat, present: bool)
      modifies this
      ensures forall i: nat :: IsPresent(groups, i) <==> if i == idx then present else IsPresent(old(groups), i)
    {
      if idx >= |groups| {
        groups := groups + Zeros(idx + 1 - |groups|);
      }
      groups := groups[idx := present];
    }

    method Pack(b: BitRef) returns (ok: bool)
      requires b.Valid()
      modifies b`ptr, b`offset, b.buf
      ensures b.Valid() && old(b.Contents()) <= b.Contents()
      ensures ok <==> FitsIn(PutGroups(old(b.Contents()), groups), b.buf.Length)
      ensures ok ==> b.Contents() == PutGroups(old(b.Contents()), groups).value
    {
      hide ToBits, BitRef.Contents, BitRef.Valid, PutSmall;
      var i: nat := |groups|;
      while i > 0 && !groups[i - 1]
        invariant i <= |groups| && forall j :: i <= j < |groups| ==> !groups[j]
      {
        i := i - 1;
      }
      PresentIs(groups, i);
      ok := PackSmall(b, if i == 0 then 0xffff_ffff else i - 1);
      if !ok {
        return;
      }
      if i == 0 {
        return false;
      }
      ghost var o := b.Contents();
      for j := 0 to i
        invariant b.Valid() && b.Contents() == o + groups[..j]
        invariant |o| + j <= 8 * b.buf.Length
      {
        OneBit(groups[j]);
        assert groups[..j + 1] == groups[..j] + [groups[j]];
        Associate(o, groups[..j], [groups[j]]);
        ok := b.Pack(if groups[j] then 1 else 0, 1);
        if !ok {
          return;
        }
      }
    }
  }

  lemma PresentIs(groups: seq<bool>, i: nat)
    requires i <= |groups| && (i > 0 ==> groups[i - 1]) && forall j :: i <= j < |groups| ==> !groups[j]
    ensures Present(groups) == i
  {
  }

  lemma OneBit(bit: bool)
    ensures ToBits(if bit then 1 else 0, 1) == [bit]
    ensures FromBits([bit]) == if bit then 1 else 0
  {
  }

  lemma NextFlag(data: seq<bool>, start: nat, i: nat)
    requires start + i < |data|
    ensures data[start + i..start + i + 1] == [data[start + i]]
    ensures data[start..start + i + 1] == data[start..start + i] + [data[start + i]]
  {
  }

  method UnpackFlags(c: CBitRef, n: nat) returns (ok: bool, flags: seq<bool>)
    requires c.Valid()
    modifies c`ptr, c`offset
    ensures c.Valid()
    ensures ok <==> old(c.Position()) + n <= |c.Data()|
    ensures ok ==> c.Position() == old(c.Position()) + n && flags == c.Data()[old(c.Position())..c.Position()]
  {
    hide CBitRef.Data, FromBits;
    ghost var start, data := c.Position(), c.Data();
    flags := [];
    for i := 0 to n
      invariant c.Valid() && c.Position() == start + i <= |data|
      invariant flags == data[start..start + i]
    {
      var flag;
      ok, flag := c.Unpack(1, 8);
      if !ok {
        return;
      }
      NextFlag(data, start, i);
      OneBit(data[start + i]);
      flags := flags + [flag != 0];
    }
    ok := true;
  }

  // Opens an open-type field and closes it again.
  method SkipField(c: CBitRef)
    requires c.Valid() && 8 * c.buf.Length < 0x4000_0000
    modifies c`ptr, c`offset
    ensures c.Valid()
    ensures GetLength(c.Data(), old(c.Position()), false).Some? && GetLength(c.Data(), old(c.Position()), false).value.0 < 16384 ==>
              var (len, start) := GetLength(c.Data(), old(c.Position()), false).value;
              c.Position() == Skip(|c.Data()|, start, 8 * len)
  {
    hide CBitRef.Data, GetLength, Skip;
    var scope := new VarlengthFieldUnpackGuard(c, false);
    scope.Close();
  }

  class ExtGroupsUnpackerGuard {
    const nofSupported: nat
    var groups: seq<bool>
    var nofUnpacked: nat

    constructor (nofSupportedGroups: nat)
      ensures nofSupported == nofSupportedGroups && nofUnpacked == 0
      ensures groups == Zeros(nofSupportedGroups)
    {
      nofSupported, nofUnpacked, groups := nofSupportedGroups, 0, Zeros(nofSupportedGroups);
    }

    method Unpack(c: CBitRef) returns (ok: bool)
      requires c.Valid() && groups == Zeros(nofSupported)
      modifies this, c`ptr, c`offset
      ensures c.Valid()
      ensures ok <==> GetGroups(c.Data(), old(c.Position()), nofSupported).Some?
      ensures ok ==> GetGroups(c.Data(), old(c.Position()), nofSupported).value == (groups, c.Position())
      ensures ok ==> nofUnpacked <= |groups|
    {
      hide CBitRef.Data, FromBits, GetSmall;
      var last;
      ok, last := UnpackSmall(c);
      if !ok {
        return;
      }
      nofUnpacked := last + 1;
      if |groups| < nofUnpacked {
        groups := groups + Zeros(nofUnpacked - |groups|);
      }
      var flags;
      ok, flags := UnpackFlags(c, nofUnpacked);
      if !ok {
        return;
      }
      assert groups[nofUnpacked..] == Zeros(if last + 1 < nofSupported then nofSupported - last - 1 else 0);
      groups := flags + groups[nofUnpacked..];
    }

    // The destructor: skips the groups that are not known, one by one.
    method Close(c: CBitRef)
      requires c.Valid() && nofUnpacked <= |groups| && 8 * c.buf.Length < 0x4000_0000
      modifies c`ptr, c`offset
      ensures c.Valid()
      ensures var n := Count(groups, nofSupported, nofUnpacked);
              SkipUnknown(c.Data(), old(c.Position()), n).Some? ==>
                SkipUnknown(c.Data(), old(c.Position()), n) == Some(c.Position())
    {
      hide CBitRef.Data, CBitRef.Position, GetLength, SkipUnknown, Skip;
      ghost var data := c.Data();
      ghost var all := SkipUnknown(data, c.Position(), Count(groups, nofSupported, nofUnpacked));
      var i := nofSupported;
      while i < nofUnpacked
        invariant c.Valid() && c.Data() == data
        invariant all.Some? ==> all == SkipUnknown(data, c.Position(), Count(groups, i, nofUnpacked))
      {
        if groups[i] {
          SkipUnknownStep(data, c.Position(), Count(groups, i, nofUnpacked));
          SkipField(c);
        }
        i := i + 1;
      }
      SkipUnknownEnd(data, c.Position());
    }
  }

  lemma SkipUnknownEnd(data: seq<bool>, pos: nat)
    ensures SkipUnknown(data, pos, 0) == Some(pos)
  {
  }

  lemma SkipUnknownStep(data: seq<bool>, pos: nat, n: nat)
    requires 0 < n
    ensures SkipUnknown(data, pos, n).Some? ==>
              && GetLength(data, pos, false).Some? && GetLength(data, pos, false).value.0 < 16384
              && SkipUnknown(data, pos, n) ==
                 SkipUnknown(data, Skip(|data|, GetLength(data, pos, false).value.1, 8 * GetLength(data, pos, false).value.0), n - 1)
  {
    LengthPowers();
    hide FromBits, Skip, Pow2;
  }

  // The groups that are present among those with index i and up.
  function Count(groups: seq<bool>, i: nat, end: nat): nat
    requires end <= |groups|
    decreases end - i
  {
    if i >= end then 0 else (if groups[i] then 1 else 0) + Count(groups, i + 1, end)
  }
}
