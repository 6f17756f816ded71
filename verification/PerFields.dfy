/** Sequences of PER fields, with open-type fields nested in them to any depth (asn1_utils.cc). */
module PerFields {
  import opened BitStrings
  import opened Bytes
  import opened BitRefs
  import opened Options
  import opened Per

  datatype Kind =
    | Constrained(lb: nat, ub: nat, aligned: bool, width: nat)
    | Small
    | Length(aligned: bool)
    | Enum(types: nat, exts: nat, hasExt: bool)
    | OctetString(aligned: bool)
    | BitField(size: nat, aligned: bool)
    | Open(body: seq<Kind>, aligned: bool)

  datatype Value = Number(n: nat) | Octet(octets: seq<byte>) | Fields(values: seq<Value>)

  // ----- Open types -----

  // The buffer of varlength_field_pack_guard, in octets.
  const RESERVED := 1024

  // A body of any number of bits: the number of octets, and the bits filled up with zeros.
  function PutOpen(out: seq<bool>, body: seq<bool>, aligned: bool): (r: Option<seq<bool>>)
    ensures Extends(r, out)
  {
    var o :- PutLength(out, Octets(|body|), aligned);
    Some(o + Pad(body))
  }

  // Where the cursor is after the rest of a field has been skipped: at most 32 bits can be, and the
  // result of unpack is not looked at.
  function Skip(size: nat, pos: nat, rest: int): nat {
    if 0 <= rest <= 32 then if pos + rest <= size then pos + rest else size else pos
  }

  lemma OpenOctets(out: seq<bool>, body: seq<bool>, aligned: bool, data: seq<bool>)
    requires Octets(|body|) < 16384
    requires PutOpen(out, body, aligned).Some? && PutOpen(out, body, aligned).value <= data
    ensures PutLength(out, Octets(|body|), aligned).Some?
    ensures var o := PutLength(out, Octets(|body|), aligned).value;
            && o + body <= data
            && |PutOpen(out, body, aligned).value| == |o| + 8 * Octets(|body|)
            && GetLength(data, |out|, aligned) == Some((Octets(|body|), |o|))
            && (aligned ==> |o| % 8 == 0)
  {
    hide PutLength, GetLength;
    var o := PutLength(out, Octets(|body|), aligned).value;
    PrefixPrefix(o, o + Pad(body), data);
    assert o + body <= o + Pad(body);
    PrefixPrefix(o + body, o + Pad(body), data);
    LengthRoundTrip(out, Octets(|body|), aligned, data);
    if aligned {
      LengthIsOctets(out, Octets(|body|));
    }
  }

  lemma LengthIsOctets(out: seq<bool>, n: nat)
    requires PutLength(out, n, true).Some?
    ensures |PutLength(out, n, true).value| % 8 == 0
  {
  }

  // A reader that has taken j of the k bits of a body ends at the end of the field exactly when at
  // most 32 bits are left; otherwise it stays where it is.
  lemma OpenFieldEnd(out: seq<bool>, body: seq<bool>, aligned: bool, data: seq<bool>, j: nat)
    requires Octets(|body|) < 16384 && j <= |body|
    requires PutOpen(out, body, aligned).Some? && PutOpen(out, body, aligned).value <= data
    ensures GetLength(data, |out|, aligned).Some?
    ensures var (len, start) := GetLength(data, |out|, aligned).value;
            var end := |PutOpen(out, body, aligned).value|;
            && len == Octets(|body|) && end == start + 8 * len
            && (Skip(|data|, start + j, 8 * len - j) == end <==> 8 * len - j <= 32)
            && (Skip(|data|, start + j, 8 * len - j) == start + j <==> 8 * len - j > 32 || j == 8 * len)
  {
    hide PutOpen, PutLength, GetLength, Octets;
    OpenOctets(out, body, aligned, data);
  }

  // ----- Fields -----

  function PutField(out: seq<bool>, kind: Kind, value: Value): (r: Option<seq<bool>>)
    ensures Extends(r, out)
    decreases kind
  {
    match (kind, value)
    case (Constrained(lb, ub, aligned, _), Number(n)) => PutConstrained(out, n, lb, ub, aligned)
    case (Small, Number(n)) => PutSmall(out, n)
    case (Length(aligned), Number(n)) => PutLength(out, n, aligned)
    case (Enum(types, exts, hasExt), Number(n)) => if exts < types then PutEnum(out, n, types, exts, hasExt) else None
    case (OctetString(aligned), Octet(octets)) => PutOctets(out, octets, aligned)
    case (BitField(size, aligned), Octet(octets)) =>
      if |octets| == Octets(size) then PutBitField(out, octets, size, aligned) else None
    case (Open(kinds, aligned), Fields(values)) =>
      var body :- PutAll([], kinds, values);
      if |body| <= 8 * RESERVED then PutOpen(out, body, aligned) else None
    case _ => None
  }

  function PutAll(out: seq<bool>, kinds: seq<Kind>, values: seq<Value>): (r: Option<seq<bool>>)
    ensures Extends(r, out)
    decreases kinds
  {
    if |kinds| != |values| then None
    else if kinds == [] then Some(out)
    else
      var o :- PutField(out, kinds[0], values[0]);
      PutAll(o, kinds[1..], values[1..])
  }

  function GetField(data: seq<bool>, pos: nat, kind: Kind): Option<(Value, nat)>
    decreases kind
  {
    match kind
    case Constrained(lb, ub, aligned, width) =>
      var (n, p) :- GetConstrained(data, pos, lb, ub, aligned, width);
      Some((Number(n), p))
    case Small =>
      var (n, p) :- GetSmall(data, pos);
      Some((Number(n), p))
    case Length(aligned) =>
      var (n, p) :- GetLength(data, pos, aligned);
      Some((Number(n), p))
    case Enum(types, exts, hasExt) =>
      if exts < types then
        var (n, p) :- GetEnum(data, pos, types, exts, hasExt);
        Some((Number(n), p))
      else None
    case OctetString(aligned) =>
      var (octets, p) :- GetOctets(data, pos, aligned);
      Some((Octet(octets), p))
    case BitField(size, aligned) =>
      var (octets, p) :- GetBitField(data, pos, size, aligned);
      Some((Octet(octets), p))
    case Open(kinds, aligned) =>
      var (len, start) :- GetLength(data, pos, aligned);
      var (values, p) :- GetAll(data, start, kinds);
      Some((Fields(values), Skip(|data|, p, 8 * len - (p - start))))
  }

  function GetAll(data: seq<bool>, pos: nat, kinds: seq<Kind>): Option<(seq<Value>, nat)>
    decreases kinds
  {
    if kinds == [] then Some(([], pos))
    else
      var (v, p) :- GetField(data, pos, kinds[0]);
      var (vs, q) :- GetAll(data, p, kinds[1..]);
      Some(([v] + vs, q))
  }

  // No field of this kind depends on octet boundaries.
  predicate Plain(kind: Kind)
    decreases kind
  {
    match kind
    case Constrained(_, _, aligned, _) => !aligned
    case Small => true
    case Length(aligned) => !aligned
    case Enum(_, _, _) => true
    case OctetString(aligned) => !aligned
    case BitField(_, aligned) => !aligned
    case Open(_, aligned) => !aligned
  }

  // The values that a field of this kind brings back.  The body of an open type starts at an octet
  // boundary when it is written, so it does when it is read if the length is aligned; otherwise
  // the body must not depend on it.
  predicate Fits(kind: Kind, value: Value)
    decreases kind
  {
    match (kind, value)
    case (Constrained(lb, ub, aligned, width), Number(n)) =>
      lb <= n <= ub < Pow2(width) && width in {8, 16, 32} && (lb < ub ==> Packable(n - lb, ub - lb + 1, aligned))
    case (Length(_), Number(n)) => n < 16384
    case (Enum(types, _, _), _) => types < 0x1_0000_0000
    case (OctetString(_), Octet(octets)) => |octets| < 16384
    case (BitField(size, _), Octet(octets)) =>
      0 < size <= 65536 && |octets| == Octets(size) && octets[|octets| - 1] < Pow2(TopBits(size))
    case (Open(kinds, aligned), Fields(values)) =>
      |kinds| == |values|
      && forall i :: 0 <= i < |kinds| ==> Fits(kinds[i], values[i]) && (aligned || Plain(kinds[i]))
    case _ => true
  }

  // ----- Writing behind something else -----

  // What is written does not depend on what was written before, except for octet boundaries.
  ghost predicate Moves(out: seq<bool>, there: Option<seq<bool>>, here: Option<seq<bool>>) {
    here.Some? ==> there == Some(out + here.value)
  }

  lemma GapBehind(n: nat, k: nat)
    requires n % 8 == 0
    ensures Gap(n + k) == Gap(k)
  {
    assert (n + k) % 8 == k % 8;
  }

  lemma MovePad(out: seq<bool>, x: seq<bool>)
    requires |out| % 8 == 0
    ensures Pad(out + x) == out + Pad(x)
  {
    GapBehind(|out|, |x|);
    hide Gap, Zeros;
  }

  lemma MoveBits(out: seq<bool>, x: seq<bool>, b: seq<bool>)
    ensures out + x + b == out + (x + b)
  {
  }

  lemma MoveOffset(out: seq<bool>, x: seq<bool>, v: nat, ra: nat, aligned: bool)
    requires 1 < ra && (aligned ==> |out| % 8 == 0)
    ensures Moves(out, PutOffset(out + x, v, ra, aligned), PutOffset(x, v, ra, aligned))
  {
    hide CeilLog2, ToBits, Pad, PutOctetRange, PutLongRange, Pow2;
    var nBits := CeilLog2(ra);
    MoveBits(out, x, ToBits(v, nBits));
    if aligned && 256 <= ra <= 65536 {
      MoveOctetRange(out, x, v, nBits);
    } else if aligned && 65536 < ra {
      SomeBits(ra);
      MoveLongRange(out, x, v, nBits);
    }
  }

  lemma MoveOctetRange(out: seq<bool>, x: seq<bool>, v: nat, nBits: nat)
    requires |out| % 8 == 0
    ensures Moves(out, PutOctetRange(out + x, v, nBits), PutOctetRange(x, v, nBits))
  {
    hide ToBits, Pad, Octets;
    var zeros := ToBits(0, Octets(nBits) * 8 - nBits);
    MovePad(out, x);
    MoveBits(out, Pad(x), zeros);
    MoveBits(out, Pad(x) + zeros, ToBits(v, nBits));
    MovePad(out, Pad(x) + zeros + ToBits(v, nBits));
  }

  lemma MoveLongRange(out: seq<bool>, x: seq<bool>, v: nat, nBits: nat)
    requires |out| % 8 == 0 && 0 < nBits
    ensures Moves(out, PutLongRange(out + x, v, nBits), PutLongRange(x, v, nBits))
  {
    hide ToBits, Pad, Octets, CeilLog2, BitLength, Pow2;
    var bits := BitLength(v);
    var nOctets := Octets(bits);
    var o := x + ToBits(nOctets - 1, CeilLog2(Octets(nBits)));
    var zeros := ToBits(0, nOctets * 8 - bits);
    MoveBits(out, x, ToBits(nOctets - 1, CeilLog2(Octets(nBits))));
    MovePad(out, o);
    MoveBits(out, Pad(o), zeros);
    MoveBits(out, Pad(o) + zeros, ToBits(v, bits));
  }

  lemma MoveLength(out: seq<bool>, x: seq<bool>, n: nat, aligned: bool)
    requires aligned ==> |out| % 8 == 0
    ensures Moves(out, PutLength(out + x, n, aligned), PutLength(x, n, aligned))
  {
    hide ToBits, Pad;
    if aligned {
      MovePad(out, x);
    }
    var start := if aligned then Pad(x) else x;
    MoveBits(out, start, ToBits(n, 8));
    MoveBits(out, start, ToBits(2, 2));
    MoveBits(out, start + ToBits(2, 2), ToBits(n, 14));
    var m := n / 16384;
    MoveBits(out, start, ToBits(3, 2));
    MoveBits(out, start + ToBits(3, 2), ToBits(m, 6));
    MoveBits(out, start + ToBits(3, 2) + ToBits(m, 6), ToBits(n - m * 16384, 16));
  }

  lemma MoveEnum(out: seq<bool>, x: seq<bool>, e: nat, types: nat, exts: nat, hasExt: bool)
    requires exts < types
    ensures Moves(out, PutEnum(out + x, e, types, exts, hasExt), PutEnum(x, e, types, exts, hasExt))
  {
    hide ToBits, CeilLog2, Pow2;
    var plain := types - exts;
    var mark := ToBits(if e >= plain then 1 else 0, 1);
    MoveBits(out, x, mark);
    MoveBits(out, x + mark, ToBits(e, CeilLog2(plain)));
    MoveBits(out, x, ToBits(e, CeilLog2(types)));
    if e >= plain {
      MoveBits(out, x + mark, ToBits(e - plain, 7));
    }
  }

  lemma MoveBitField(out: seq<bool>, x: seq<bool>, octets: seq<byte>, size: nat, aligned: bool)
    requires |octets| == Octets(size) && (aligned ==> |out| % 8 == 0)
    ensures Moves(out, PutBitField(out + x, octets, size, aligned), PutBitField(x, octets, size, aligned))
  {
    hide ToBits, Pad, Octets, DownBits, TopBits;
    if size > 0 {
      if aligned {
        MovePad(out, x);
      }
      var start := if aligned && size > 16 then Pad(x) else x;
      var top, rest := ToBits(octets[|octets| - 1], TopBits(size)), DownBits(octets[..|octets| - 1]);
      MoveBits(out, start, top);
      MoveBits(out, start + top, rest);
    }
  }

  lemma MoveField(out: seq<bool>, x: seq<bool>, kind: Kind, value: Value)
    requires |out| % 8 == 0 || Plain(kind)
    ensures Moves(out, PutField(out + x, kind, value), PutField(x, kind, value))
  {
    hide PutLength, PutEnum, PutBitField, PutOffset, ToBits, Octets, OctetBits, Pad, PutAll;
    match (kind, value)
    case (Constrained(lb, ub, aligned, _), Number(n)) =>
      if lb < ub && lb <= n {
        MoveOffset(out, x, n - lb, ub - lb + 1, aligned);
      }
    case (Small, Number(n)) => MoveBits(out, x, ToBits(n, 7));
    case (Length(aligned), Number(n)) => MoveLength(out, x, n, aligned);
    case (Enum(types, exts, hasExt), Number(n)) =>
      if exts < types {
        MoveEnum(out, x, n, types, exts, hasExt);
      }
    case (OctetString(aligned), Octet(octets)) =>
      MoveLength(out, x, |octets|, aligned);
      if PutLength(x, |octets|, aligned).Some? {
        MoveBits(out, PutLength(x, |octets|, aligned).value, OctetBits(octets));
      }
    case (BitField(size, aligned), Octet(octets)) =>
      if |octets| == Octets(size) {
        MoveBitField(out, x, octets, size, aligned);
      }
    case (Open(kinds, aligned), Fields(values)) =>
      var body := PutAll([], kinds, values);
      if body.Some? {
        MoveLength(out, x, Octets(|body.value|), aligned);
        if PutLength(x, Octets(|body.value|), aligned).Some? {
          MoveBits(out, PutLength(x, Octets(|body.value|), aligned).value, Pad(body.value));
        }
      }
    case _ =>
  }

  lemma {:induction false} MoveAll(out: seq<bool>, x: seq<bool>, kinds: seq<Kind>, values: seq<Value>)
    requires |out| % 8 == 0 || forall i :: 0 <= i < |kinds| ==> Plain(kinds[i])
    ensures Moves(out, PutAll(out + x, kinds, values), PutAll(x, kinds, values))
    decreases |kinds|
  {
    hide PutField, Plain;
    if |kinds| == |values| && kinds != [] {
      MoveField(out, x, kinds[0], values[0]);
      var o := PutField(x, kinds[0], values[0]);
      if o.Some? {
        MoveAll(out, o.value, kinds[1..], values[1..]);
      }
    }
  }

  // ----- Round trip -----

  lemma {:induction false} FieldRoundTrip(out: seq<bool>, kind: Kind, value: Value, data: seq<bool>)
    requires PutField(out, kind, value).Some? && PutField(out, kind, value).value <= data
    requires Fits(kind, value)
    ensures GetField(data, |out|, kind) == Some((value, |PutField(out, kind, value).value|))
    decreases kind, 0
  {
    hide PutLength, PutEnum, PutBitField, PutOffset, PutConstrained, GetConstrained, GetEnum, GetSmall, PutSmall,
      GetLength, GetOctets, PutOctets, GetBitField, Pow2, TopBits, Octets, GetAll, PutAll, PutOpen, Skip;
    match (kind, value)
    case (Constrained(lb, ub, aligned, width), Number(n)) => ConstrainedRoundTrip(out, n, lb, ub, aligned, width);
    case (Small, Number(n)) => SmallRoundTrip(out, n, data);
    case (Length(aligned), Number(n)) => LengthRoundTrip(out, n, aligned, data);
    case (Enum(types, exts, hasExt), Number(n)) => EnumRoundTrip(out, n, types, exts, hasExt, data);
    case (OctetString(aligned), Octet(octets)) => OctetsRoundTrip(out, octets, aligned, data);
    case (BitField(size, aligned), Octet(octets)) => BitFieldRoundTrip(out, octets, size, aligned, data);
    case (Open(kinds, aligned), Fields(values)) => OpenRoundTrip(out, kinds, values, aligned, data);
  }

  // The body of an open type is read where it has been put.
  lemma {:induction false} OpenRoundTrip(out: seq<bool>, kinds: seq<Kind>, values: seq<Value>, aligned: bool, data: seq<bool>)
    requires |kinds| == |values|
    requires forall i :: 0 <= i < |kinds| ==> Fits(kinds[i], values[i]) && (aligned || Plain(kinds[i]))
    requires PutAll([], kinds, values).Some? && |PutAll([], kinds, values).value| <= 8 * RESERVED
    requires PutOpen(out, PutAll([], kinds, values).value, aligned).Some?
    requires PutOpen(out, PutAll([], kinds, values).value, aligned).value <= data
    ensures GetLength(data, |out|, aligned).Some?
    ensures var (len, start) := GetLength(data, |out|, aligned).value;
            && GetAll(data, start, kinds).Some?
            && var (vs, p) := GetAll(data, start, kinds).value;
            && vs == values
            && Skip(|data|, p, 8 * len - (p - start)) == |PutOpen(out, PutAll([], kinds, values).value, aligned).value|
    decreases kinds, 1
  {
    hide PutLength, GetLength, PutOpen, PutField, GetField, Fits, Plain;
    var body := PutAll([], kinds, values).value;
    OpenOctets(out, body, aligned, data);
    var o := PutLength(out, Octets(|body|), aligned).value;
    MoveAll(o, [], kinds, values);
    assert o + [] == o;
    AllRoundTrip(o, kinds, values, data);
  }

  // Any sequence of fields, each within its range, is read back as it was, and the reader ends
  // where the writer did.
  lemma {:induction false} AllRoundTrip(out: seq<bool>, kinds: seq<Kind>, values: seq<Value>, data: seq<bool>)
    requires PutAll(out, kinds, values).Some? && PutAll(out, kinds, values).value <= data
    requires |kinds| == |values| && forall i :: 0 <= i < |kinds| ==> Fits(kinds[i], values[i])
    ensures GetAll(data, |out|, kinds) == Some((values, |PutAll(out, kinds, values).value|))
    decreases kinds, 0
  {
    hide PutField, GetField, Fits;
    if kinds != [] {
      var o := PutField(out, kinds[0], values[0]).value;
      PrefixPrefix(o, PutAll(out, kinds, values).value, data);
      FieldRoundTrip(out, kinds[0], values[0], data);
      AllRoundTrip(o, kinds[1..], values[1..], data);
      assert values == [values[0]] + values[1..];
    }
  }

  // ----- Extension groups -----

  // One more than the index of the last group that is present.
  function Present(groups: seq<bool>): (n: nat)
    ensures n <= |groups| && (n > 0 ==> groups[n - 1])
    ensures forall i :: n <= i < |groups| ==> !groups[i]
  {
    if groups == [] then 0 else if groups[|groups| - 1] then |groups| else Present(groups[..|groups| - 1])
  }

  // Their number less one, and a flag for each.
  function PutGroups(out: seq<bool>, groups: seq<bool>): (r: Option<seq<bool>>)
    ensures Extends(r, out)
  {
    if Present(groups) == 0 then None // the number wraps around and is not small
    else
      var o :- PutSmall(out, Present(groups) - 1);
      Some(o + groups[..Present(groups)])
  }

  // The flags that were read, followed by absent groups up to the number that is known.
  function GetGroups(data: seq<bool>, pos: nat, known: nat): Option<(seq<bool>, nat)> {
    var (last, p) :- GetSmall(data, pos);
    if p + last + 1 <= |data| then
      Some((data[p..p + last + 1] + Zeros(if last + 1 < known then known - last - 1 else 0), p + last + 1))
    else None
  }

  predicate IsPresent(groups: seq<bool>, i: nat) {
    i < |groups| && groups[i]
  }

  lemma GroupsRoundTrip(out: seq<bool>, groups: seq<bool>, known: nat, data: seq<bool>)
    ensures PutGroups(out, groups).Some? <==> 0 < Present(groups) <= 64
    ensures PutGroups(out, groups).Some? && PutGroups(out, groups).value <= data ==>
              && GetGroups(data, |out|, known).Some?
              && var (read, next) := GetGroups(data, |out|, known).value;
              && next == |PutGroups(out, groups).value|
              && |read| == (if known > Present(groups) then known else Present(groups))
              && forall i :: IsPresent(read, i) <==> IsPresent(groups, i)
  {
    hide GetSmall, ToBits;
    var r := PutGroups(out, groups);
    if r.Some? && r.value <= data {
      var n := Present(groups);
      var o := PutSmall(out, n - 1).value;
      PrefixPrefix(o, r.value, data);
      SmallRoundTrip(out, n - 1, data);
      assert data[|o|..|o| + n] == r.value[|o|..] == groups[..n];
    }
  }

  // Groups that the reader does not know, one open-type field each.
  function PutUnknown(out: seq<bool>, bodies: seq<seq<bool>>): (r: Option<seq<bool>>)
    ensures Extends(r, out)
    decreases |bodies|
  {
    if bodies == [] then Some(out)
    else
      var o :- PutOpen(out, bodies[0], false);
      PutUnknown(o, bodies[1..])
  }

  // The destructor of ext_groups_unpacker_guard, for n groups that are present.
  function SkipUnknown(data: seq<bool>, pos: nat, n: nat): Option<nat>
    decreases n
  {
    if n == 0 then Some(pos)
    else
      var (len, start) :- GetLength(data, pos, false);
      SkipUnknown(data, Skip(|data|, start, 8 * len), n - 1)
  }

  // The reader gets past unknown groups of at most four octets each.
  lemma {:induction false} UnknownGroupsAreSkipped(out: seq<bool>, bodies: seq<seq<bool>>, data: seq<bool>)
    requires PutUnknown(out, bodies).Some? && PutUnknown(out, bodies).value <= data
    requires forall i :: 0 <= i < |bodies| ==> |bodies[i]| <= 32
    ensures SkipUnknown(data, |out|, |bodies|) == Some(|PutUnknown(out, bodies).value|)
    decreases |bodies|
  {
    hide PutOpen, GetLength, Skip;
    if bodies != [] {
      assert |bodies[0]| <= 32;
      var o := PutOpen(out, bodies[0], false).value;
      PrefixPrefix(o, PutUnknown(out, bodies).value, data);
      OpenFieldEnd(out, bodies[0], false, data, 0);
      UnknownGroupsAreSkipped(o, bodies[1..], data);
    }
  }
}
