/** MAC PDUs of 5G NR (mac_nr_pdu.cc; section 6.1.2 of 3GPP TS 38.321): a serializer with a byte
    budget and the parser of what it writes. */
module MacNrPdu {
  import opened Bytes
  import opened Options

  // Logical channel identifiers of Tables 6.2.1-1 and 6.2.1-2.
  const CCCH_SIZE_64 := 0
  const CCCH_SIZE_48 := 52
  const CRNTI := 58
  const SHORT_TRUNC_BSR := 59
  const DRX_CMD := 60
  const SHORT_BSR := 61
  const TA_CMD := 61
  const CON_RES_ID := 62
  const PADDING := 63

  predicate IsUlCcch(ul: bool, lcid: nat) {
    ul && (lcid == CCCH_SIZE_48 || lcid == CCCH_SIZE_64)
  }

  predicate IsSdu(ul: bool, lcid: nat) {
    lcid <= 32 || (ul && lcid == 52)
  }

  predicate IsValidLcid(ul: bool, lcid: nat) {
    lcid <= 63 && ((ul && (lcid <= 32 || lcid >= 52)) || lcid <= 32 || lcid >= 47)
  }

  // The reserved values of the tables: 33 to 51 on the uplink, 33 to 46 on the downlink.
  predicate IsReserved(ul: bool, lcid: nat) {
    33 <= lcid <= if ul then 51 else 46
  }

  // The check refuses the reserved values except 47 to 51 on the uplink.
  lemma ReservedLcids(ul: bool, lcid: nat)
    requires lcid <= 63
    ensures (IsValidLcid(ul, lcid) <==> !IsReserved(ul, lcid)) <==> !(ul && 47 <= lcid <= 51)
  {
  }

  // sizeof_ce
  function CeSize(ul: bool, lcid: nat): (n: nat)
    ensures n <= 8
  {
    if ul then
      if lcid == CCCH_SIZE_48 then 6
      else if lcid == CCCH_SIZE_64 then 8
      else if lcid == CRNTI then 2
      else if lcid == SHORT_TRUNC_BSR || lcid == SHORT_BSR then 1
      else 0
    else
      if lcid == CON_RES_ID then 6
      else if lcid == TA_CMD then 1
      else 0
  }

  // Tables 6.2.1-1 and 6.2.1-2 of TS 38.321: the bits of a CCCH SDU and of the control elements.
  lemma FixedSizes()
    ensures 8 * CeSize(true, 52) == 48 && 8 * CeSize(true, 0) == 64
    ensures 8 * CeSize(true, 58) == 16 && 8 * CeSize(true, 59) == 8 && 8 * CeSize(true, 61) == 8
    ensures 8 * CeSize(false, 62) == 48 && 8 * CeSize(false, 61) == 8
  {
  }

  // ----- What is written -----

  datatype Sdu = Sdu(lcid: nat, payload: seq<byte>)

  // The subheader in front of n octets: one octet for a CCCH of the uplink, else two, or three with
  // a long length field.
  function HeaderLength(ul: bool, lcid: nat, n: nat): nat {
    if IsUlCcch(ul, lcid) then 1 else if n < 256 then 2 else 3
  }

  function HeaderOctets(ul: bool, lcid: nat, n: nat): (h: seq<byte>)
    ensures |h| == HeaderLength(ul, lcid, n)
  {
    if IsUlCcch(ul, lcid) then [lcid % 64]
    else if n < 256 then [lcid % 64, n]
    else [64 + lcid % 64, n / 256 % 256, n % 256]
  }

  function Encode(ul: bool, sdu: Sdu): (r: seq<byte>)
    ensures |r| == HeaderLength(ul, sdu.lcid, |sdu.payload|) + |sdu.payload|
  {
    HeaderOctets(ul, sdu.lcid, |sdu.payload|) + sdu.payload
  }

  function EncodeAll(ul: bool, sdus: seq<Sdu>): seq<byte> {
    if sdus == [] then [] else EncodeAll(ul, sdus[..|sdus| - 1]) + Encode(ul, sdus[|sdus| - 1])
  }

  function ZeroOctets(n: nat): (r: seq<byte>)
    ensures |r| == n
  {
    seq(n, i => 0)
  }

  // n octets of padding, the subheader among them.
  function Padding(n: nat): (r: seq<byte>)
    ensures |r| == n
  {
    if n == 0 then [] else [PADDING] + ZeroOctets(n - 1)
  }

  // ----- What is read -----

  // A subPDU that starts at an octet of the payload.
  datatype Item = Item(at: nat, lcid: nat, headerLength: nat, sduLength: nat) {
    function End(): nat { at + headerLength + sduLength }
  }

  function SubheaderAt(ul: bool, m: seq<byte>, at: nat): (r: Option<Item>)
    requires at + 2 < |m|
    ensures r.Some? ==> r.value.at == at && r.value.headerLength > 0
  {
    var f, lcid := m[at] / 64 % 2 == 1, m[at] % 64;
    if !IsValidLcid(ul, lcid) then None
    else if IsSdu(ul, lcid) && !IsUlCcch(ul, lcid) then
      if f then Some(Item(at, lcid, 3, 256 * (m[at + 1] as nat) + m[at + 2])) else Some(Item(at, lcid, 2, m[at + 1]))
    else Some(Item(at, lcid, 1, CeSize(ul, lcid)))
  }

  // The subPDUs that are found, where the parser stops, and whether it stops because of a subheader.
  datatype Parsed = Parsed(items: seq<Item>, offset: nat, failed: bool)

  function Before(item: Item, rest: Parsed): Parsed {
    rest.(items := [item] + rest.items)
  }

  // The subPDU at an octet of a payload; padding takes all that is left of it.
  function ItemAt(ul: bool, m: seq<byte>, len: nat, at: nat): (r: Option<Item>)
    requires at < len && len + 2 <= |m|
    ensures r.Some? ==> r.value.at == at && at < r.value.End()
  {
    var h := SubheaderAt(ul, m, at);
    if h.Some? && h.value.lcid == PADDING then Some(h.value.(sduLength := len - at - 1)) else h
  }

  // Up to two octets behind the payload are looked at.
  function Parse(ul: bool, m: seq<byte>, len: nat, offset: nat): Parsed
    requires len + 2 <= |m|
    decreases len - offset
  {
    if offset >= len then Parsed([], offset, false)
    else
      var item := ItemAt(ul, m, len, offset);
      if item.None? then Parsed([], offset, true) else Before(item.value, Parse(ul, m, len, item.value.End()))
  }

  // Each item starts where the one before it ends.
  predicate Tile(items: seq<Item>, from: nat, to: nat)
    decreases |items|
  {
    if items == [] then from == to else items[0].at == from < items[0].End() && Tile(items[1..], items[0].End(), to)
  }

  // Whatever the payload is, the items that are found lie side by side from its first octet on,
  // and the parser has covered the payload exactly when it ends at its length.
  lemma {:induction false} ParseTiles(ul: bool, m: seq<byte>, len: nat, offset: nat)
    requires len + 2 <= |m|
    ensures var p := Parse(ul, m, len, offset);
            Tile(p.items, offset, p.offset) && (!p.failed ==> offset <= len ==> len <= p.offset) && (p.failed ==> p.offset < len)
    decreases len - offset
  {
    if offset < len {
      var item := ItemAt(ul, m, len, offset);
      if item.Some? {
        ParseTiles(ul, m, len, item.value.End());
        var rest := Parse(ul, m, len, item.value.End());
        assert Before(item.value, rest).items[1..] == rest.items;
      }
    }
  }

  // ----- Round trip -----

  // The SDUs that the format has a place for.
  predicate Regular(ul: bool, sdu: Sdu) {
    && IsSdu(ul, sdu.lcid) && |sdu.payload| < 65536
    && (IsUlCcch(ul, sdu.lcid) ==> |sdu.payload| == CeSize(ul, sdu.lcid))
  }

  function ItemOf(ul: bool, sdu: Sdu, at: nat): Item {
    Item(at, sdu.lcid, HeaderLength(ul, sdu.lcid, |sdu.payload|), |sdu.payload|)
  }

  lemma HeaderInPlace(m: seq<byte>, at: nat, h: seq<byte>, payload: seq<byte>)
    requires at + |h| + |payload| <= |m| && m[at..at + |h| + |payload|] == h + payload
    ensures forall i :: 0 <= i < |h| ==> m[at + i] == h[i]
  {
    forall i | 0 <= i < |h| ensures m[at + i] == h[i] {
      assert m[at..at + |h| + |payload|][i] == h[i];
    }
  }

  lemma LongLength(n: nat)
    ensures 256 * (n / 256 % 256) + n % 256 == n <==> n < 65536
  {
    var q := n / 256;
    assert q % 256 == q <==> q < 256;
  }

  // The subheader of an SDU is read back exactly when the SDU is regular.
  lemma SubheaderRoundTrip(ul: bool, sdu: Sdu, m: seq<byte>, at: nat)
    requires at + 2 < |m| && at + |Encode(ul, sdu)| <= |m|
    requires m[at..at + |Encode(ul, sdu)|] == Encode(ul, sdu)
    requires IsSdu(ul, sdu.lcid)
    ensures SubheaderAt(ul, m, at) == Some(ItemOf(ul, sdu, at)) <==> Regular(ul, sdu)
  {
    var h, n := HeaderOctets(ul, sdu.lcid, |sdu.payload|), |sdu.payload|;
    HeaderInPlace(m, at, h, sdu.payload);
    assert m[at] == h[0] && (|h| > 1 ==> m[at + 1] == h[1]) && (|h| > 2 ==> m[at + 2] == h[2]);
    LongLength(n);
  }

  // The subheader as a number, the length field in its low bits and the F bit above the LCID.
  lemma HeaderNumber(ul: bool, lcid: nat, n: nat)
    requires lcid < 64 && n < 65536
    ensures var h := HeaderOctets(ul, lcid, n);
            if IsUlCcch(ul, lcid) then h == [lcid]
            else if n <= 255 then |h| == 2 && 256 * (h[0] as nat) + h[1] == 256 * lcid + n
            else |h| == 3 && 65536 * (h[0] as nat) + 256 * (h[1] as nat) + h[2] == 65536 * (64 + lcid) + n
  {
    LongLength(n);
    assert 65536 * ((64 + lcid % 64) as nat) == 65536 * (64 + lcid);
  }

  // No subheader that is read as the same LCID and length of an SDU is shorter than the one written.
  lemma HeaderIsShortest(ul: bool, m: seq<byte>, at: nat)
    requires at + 2 < |m|
    ensures var r := SubheaderAt(ul, m, at);
            r.Some? && IsSdu(ul, r.value.lcid) ==>
              HeaderLength(ul, r.value.lcid, r.value.sduLength) <= r.value.headerLength
  {
    assert m[at + 1] < 256;
  }

  // The SDUs in front of the rest, each where the one before it ends.
  function ItemsOf(ul: bool, sdus: seq<Sdu>, at: nat): (items: seq<Item>)
    ensures |items| == |sdus|
  {
    if sdus == [] then [] else [ItemOf(ul, sdus[0], at)] + ItemsOf(ul, sdus[1..], at + |Encode(ul, sdus[0])|)
  }

  lemma EncodeNone(ul: bool)
    ensures EncodeAll(ul, []) == []
  {
  }

  lemma EncodeLast(ul: bool, sdus: seq<Sdu>)
    requires sdus != []
    ensures EncodeAll(ul, sdus) == EncodeAll(ul, sdus[..|sdus| - 1]) + Encode(ul, sdus[|sdus| - 1])
  {
    hide Encode;
  }

  lemma {:induction false} EncodeFirst(ul: bool, sdus: seq<Sdu>)
    requires sdus != []
    ensures EncodeAll(ul, sdus) == Encode(ul, sdus[0]) + EncodeAll(ul, sdus[1..])
  {
    hide *;
    var last := |sdus| - 1;
    EncodeLast(ul, sdus);
    if last == 0 {
      assert sdus[..0] == [] && sdus[1..] == [];
      EncodeNone(ul);
    } else {
      EncodeFirst(ul, sdus[..last]);
      EncodeLast(ul, sdus[1..]);
      assert sdus[..last][1..] == sdus[1..last] == sdus[1..][..last - 1];
      Associate(Encode(ul, sdus[0]), EncodeAll(ul, sdus[1..last]), Encode(ul, sdus[last]));
    }
  }

  lemma Associate(a: seq<byte>, b: seq<byte>, c: seq<byte>)
    ensures a + (b + c) == a + b + c
  {
  }

  lemma PayloadBehindHeader(ul: bool, sdu: Sdu, m: seq<byte>, at: nat)
    requires at + |Encode(ul, sdu)| <= |m| && m[at..at + |Encode(ul, sdu)|] == Encode(ul, sdu)
    ensures PayloadIsAt(m, ItemOf(ul, sdu, at), sdu.payload)
  {
    var item := ItemOf(ul, sdu, at);
    hide HeaderOctets, HeaderLength;
    assert m[item.at + item.headerLength..item.End()] == m[at..item.End()][item.headerLength..];
  }

  predicate PayloadIsAt(m: seq<byte>, item: Item, payload: seq<byte>) {
    item.End() <= |m| && m[item.at + item.headerLength..item.End()] == payload
  }

  lemma Prepend(x: Item, a: seq<Item>, b: seq<Item>)
    ensures [x] + (a + b) == [x] + a + b
  {
  }

  // What has been written is read back: an item for each SDU in the same order, then at most one
  // for padding, covering the payload exactly.
  lemma {:induction false} ParseEncoded(ul: bool, sdus: seq<Sdu>, pad: nat, m: seq<byte>, len: nat, offset: nat)
    requires forall i :: 0 <= i < |sdus| ==> Regular(ul, sdus[i])
    requires len + 2 <= |m| && offset + |EncodeAll(ul, sdus)| + pad == len
    requires m[offset..len] == EncodeAll(ul, sdus) + Padding(pad)
    ensures Parse(ul, m, len, offset) ==
            Parsed(ItemsOf(ul, sdus, offset) + if pad > 0 then [Item(len - pad, PADDING, 1, pad - 1)] else [], len, false)
    decreases |sdus|
  {
    hide Encode, EncodeAll, Padding, HeaderLength, ItemAt, ItemOf, Item.End, Regular;
    if sdus == [] {
      EncodeNone(ul);
      ParsePadding(ul, pad, m, len, offset);
    } else {
      var next := offset + |Encode(ul, sdus[0])|;
      FirstSdu(ul, sdus, pad, m, len, offset);
      ParseEncoded(ul, sdus[1..], pad, m, len, next);
      Prepend(ItemOf(ul, sdus[0], offset), ItemsOf(ul, sdus[1..], next),
              if pad > 0 then [Item(len - pad, PADDING, 1, pad - 1)] else []);
    }
  }

  // The items are where the payloads are.
  lemma {:induction false} PayloadsInPlace(ul: bool, sdus: seq<Sdu>, pad: nat, m: seq<byte>, len: nat, offset: nat, i: nat)
    requires forall i :: 0 <= i < |sdus| ==> Regular(ul, sdus[i])
    requires len + 2 <= |m| && offset + |EncodeAll(ul, sdus)| + pad == len
    requires m[offset..len] == EncodeAll(ul, sdus) + Padding(pad)
    requires i < |sdus|
    ensures PayloadIsAt(m, ItemsOf(ul, sdus, offset)[i], sdus[i].payload)
    decreases |sdus|
  {
    hide Encode, Padding, HeaderLength, PayloadIsAt, SubheaderAt, Regular;
    FirstSdu(ul, sdus, pad, m, len, offset);
    if i > 0 {
      PayloadsInPlace(ul, sdus[1..], pad, m, len, offset + |Encode(ul, sdus[0])|, i - 1);
    }
  }

  lemma FirstSdu(ul: bool, sdus: seq<Sdu>, pad: nat, m: seq<byte>, len: nat, offset: nat)
    requires sdus != [] && Regular(ul, sdus[0])
    requires len + 2 <= |m| && offset + |EncodeAll(ul, sdus)| + pad == len
    requires m[offset..len] == EncodeAll(ul, sdus) + Padding(pad)
    ensures var next := offset + |Encode(ul, sdus[0])|;
            && offset < next && next + |EncodeAll(ul, sdus[1..])| + pad == len
            && m[next..len] == EncodeAll(ul, sdus[1..]) + Padding(pad)
            && ItemAt(ul, m, len, offset) == Some(ItemOf(ul, sdus[0], offset))
            && ItemOf(ul, sdus[0], offset).End() == next
            && PayloadIsAt(m, ItemOf(ul, sdus[0], offset), sdus[0].payload)
  {
    hide Encode, Padding, HeaderLength, PayloadIsAt, SubheaderAt, Regular, EncodeAll;
    var first, rest := Encode(ul, sdus[0]), EncodeAll(ul, sdus[1..]);
    EncodeFirst(ul, sdus);
    Associate(first, rest, Padding(pad));
    Halves(m, offset, offset + |first|, len, first, rest + Padding(pad));
    RegularHasOctets(ul, sdus[0]);
    SubheaderRoundTrip(ul, sdus[0], m, offset);
    PayloadBehindHeader(ul, sdus[0], m, offset);
  }

  lemma RegularHasOctets(ul: bool, sdu: Sdu)
    requires Regular(ul, sdu)
    ensures |Encode(ul, sdu)| > 0 && IsSdu(ul, sdu.lcid) && sdu.lcid != PADDING
  {
  }

  lemma ParsePadding(ul: bool, pad: nat, m: seq<byte>, len: nat, offset: nat)
    requires len + 2 <= |m| && offset + pad == len && m[offset..len] == Padding(pad)
    ensures Parse(ul, m, len, offset) ==
            Parsed(if pad > 0 then [Item(offset, PADDING, 1, pad - 1)] else [], len, false)
  {
    if pad > 0 {
      assert m[offset] == m[offset..len][0] == PADDING;
    }
  }

  lemma Halves(m: seq<byte>, i: nat, j: nat, k: nat, a: seq<byte>, b: seq<byte>)
    requires i <= j <= k <= |m| && m[i..k] == a + b && |a| == j - i
    ensures m[i..j] == a && m[j..k] == b
  {
    assert m[i..j] == m[i..k][..j - i];
    assert m[j..k] == m[i..k][j - i..];
  }

  // ----- The code: one subPDU -----

  // byte_buffer_t
  class ByteBuffer {
    const msg: array<byte>
    var nBytes: nat

    constructor (size: nat)
      ensures msg.Length == size && nBytes == 0 && fresh(msg)
    {
      msg := new byte[size](i => 0);
      nBytes := 0;
    }
  }

  // The fields of a subPDU; its SDU lies in an array, or null.
  datatype Fields = Fields(lcid: nat, headerLength: nat, sduLength: nat, fBit: bool, sdu: array?<byte>, sduStart: nat)

  // The fields of a subPDU that has been found in a payload.
  function Found(payload: array<byte>, item: Item): Fields
    requires item.at < payload.Length
    reads payload
  {
    Fields(item.lcid, item.headerLength, item.sduLength, payload[item.at] / 64 % 2 == 1, payload, item.at + item.headerLength)
  }

  function Subheader(v: Fields): (h: seq<byte>)
    requires 1 <= v.headerLength <= 3
    ensures |h| == v.headerLength
  {
    [(if v.fBit then 64 else 0) + v.lcid % 64] +
    if v.headerLength == 3 then [v.sduLength / 256 % 256, v.sduLength % 256]
    else if v.headerLength == 2 then [v.sduLength % 256]
    else []
  }

  class MacNrSchSubPdu {
    const ul: bool // of the PDU that it belongs to
    var lcid: nat
    var headerLength: nat
    var sduLength: nat
    var fBit: bool
    var sdu: array?<byte>
    var sduStart: nat

    function Value(): Fields
      reads this
    {
      Fields(lcid, headerLength, sduLength, fBit, sdu, sduStart)
    }

    constructor (ul: bool)
      ensures this.ul == ul && Value() == Fields(0, 0, 0, false, null, 0)
    {
      this.ul := ul;
      lcid, headerLength, sduLength, fBit, sdu, sduStart := 0, 0, 0, false, null, 0;
    }

    method ReadSubheader(payload: array<byte>, at: nat) returns (ok: bool)
      requires at + 2 < payload.Length
      modifies this
      ensures ok <==> SubheaderAt(ul, payload[..], at).Some?
      ensures ok ==> Value() == Found(payload, SubheaderAt(ul, payload[..], at).value)
    {
      fBit := payload[at] / 64 % 2 == 1;
      lcid := payload[at] % 64;
      headerLength := 1;
      if IsValidLcid(ul, lcid) {
        if IsSdu(ul, lcid) && !IsUlCcch(ul, lcid) {
          sduLength := payload[at + 1];
          headerLength := headerLength + 1;
          if fBit {
            sduLength := 256 * sduLength + payload[at + 2];
            headerLength := headerLength + 1;
          }
        } else {
          sduLength := CeSize(ul, lcid);
        }
        sdu, sduStart := payload, at + headerLength;
        return true;
      } else {
        return false;
      }
    }

    // The length of a CCCH of the uplink is fixed, whatever length is asked for.
    method SetSdu(lcid: nat, payload: array<byte>, len: nat)
      requires !fBit
      modifies this
      ensures var n := WrittenLength(ul, lcid, len);
              Value() == Fields(lcid, HeaderLength(ul, lcid, n), n, n >= 256, payload, 0)
    {
      this.lcid := lcid;
      sdu, sduStart := payload, 0;
      headerLength := if IsUlCcch(ul, lcid) then 1 else 2;
      sduLength := len;
      if IsUlCcch(ul, lcid) {
        fBit := false;
        sduLength := CeSize(ul, lcid);
      }
      if sduLength >= 256 {
        fBit := true;
        headerLength := headerLength + 1;
      }
    }

    method SetPadding(len: nat)
      requires 0 < len
      modifies this
      ensures Value() == old(Value()).(lcid := PADDING, sduLength := len - 1, headerLength := 1)
    {
      lcid := PADDING;
      sduLength := len - 1;
      headerLength := 1;
    }

    // The octets of the SDU, or zeros.
    ghost function Payload(): (p: seq<byte>)
      requires sdu != null ==> sduStart + sduLength <= sdu.Length
      reads this, sdu
      ensures |p| == sduLength
    {
      if sdu == null then ZeroOctets(sduLength) else sdu[sduStart..sduStart + sduLength]
    }

    method WriteSubheader(msg: array<byte>, at: nat) returns (ptr: nat)
      requires 1 <= headerLength <= 3 && at + headerLength <= msg.Length
      modifies msg
      ensures ptr == at + headerLength && msg[at..ptr] == Subheader(Value())
      ensures forall j :: 0 <= j < msg.Length && !(at <= j < ptr) ==> msg[j] == old(msg[j])
    {
      msg[at] := (if fBit then 64 else 0) + lcid % 64;
      ptr := at + 1;
      if headerLength == 3 {
        msg[ptr] := sduLength / 256 % 256;
        ptr := ptr + 1;
        msg[ptr] := sduLength % 256;
        ptr := ptr + 1;
      } else if headerLength == 2 {
        msg[ptr] := sduLength % 256;
        ptr := ptr + 1;
      }
    }

    // memcpy or memset
    method WritePayload(msg: array<byte>, ptr: nat)
      requires ptr + sduLength <= msg.Length
      requires sdu != null ==> sdu != msg && sduStart + sduLength <= sdu.Length
      modifies msg
      ensures msg[ptr..ptr + sduLength] == Payload()
      ensures forall j :: 0 <= j < msg.Length && !(ptr <= j < ptr + sduLength) ==> msg[j] == old(msg[j])
    {
      ghost var data := Payload();
      for i := 0 to sduLength
        invariant msg[ptr..ptr + i] == data[..i]
        invariant forall j :: 0 <= j < msg.Length && !(ptr <= j < ptr + i) ==> msg[j] == old(msg[j])
      {
        msg[ptr + i] := if sdu == null then 0 else sdu[sduStart + i];
        assert msg[ptr..ptr + i + 1] == msg[ptr..ptr + i] + [data[i]];
      }
    }

    method WriteSubPdu(msg: array<byte>, at: nat) returns (length: nat)
      requires 1 <= headerLength <= 3 && at + headerLength + sduLength <= msg.Length
      requires sdu != null ==> sdu != msg && sduStart + sduLength <= sdu.Length
      modifies msg
      ensures length == headerLength + sduLength
      ensures msg[at..at + length] == Subheader(Value()) + Payload()
      ensures forall j :: 0 <= j < msg.Length && !(at <= j < at + length) ==> msg[j] == old(msg[j])
    {
      hide Subheader;
      var ptr := WriteSubheader(msg, at);
      ghost var header := msg[at..ptr];
      WritePayload(msg, ptr);
      length := ptr + sduLength - at;
      assert at + length == ptr + sduLength && msg[at..ptr] == header;
      assert msg[at..at + length] == msg[at..ptr] + msg[ptr..ptr + sduLength];
    }
  }

  // The octets of the SDU that are written.
  function WrittenLength(ul: bool, lcid: nat, len: nat): nat {
    if IsUlCcch(ul, lcid) then CeSize(ul, lcid) else len
  }

  lemma EncodeNext(ul: bool, sdus: seq<Sdu>, sdu: Sdu)
    ensures EncodeAll(ul, sdus + [sdu]) == EncodeAll(ul, sdus) + (HeaderOctets(ul, sdu.lcid, |sdu.payload|) + sdu.payload)
  {
    hide HeaderOctets;
    assert (sdus + [sdu])[..|sdus|] == sdus;
  }

  lemma SubheaderIsHeader(ul: bool, v: Fields)
    requires v.headerLength == HeaderLength(ul, v.lcid, v.sduLength) && (v.fBit <==> v.sduLength >= 256)
    requires IsUlCcch(ul, v.lcid) ==> v.sduLength < 256
    ensures Subheader(v) == HeaderOctets(ul, v.lcid, v.sduLength)
  {
  }

  // ----- The code: the PDU -----

  class MacNrSchPdu {
    var ulsch: bool
    var subpdus: seq<Fields>
    var buffer: ByteBuffer
    var pduLen: nat
    var remainingLen: nat
    ghost var base: nat       // where writing began
    ghost var sent: seq<Sdu>  // the SDUs that have been written

    // What has been written is the encoding of the SDUs.
    ghost predicate Valid()
      reads this, buffer, buffer.msg
    {
      && base <= buffer.nBytes <= buffer.msg.Length
      && buffer.msg[base..buffer.nBytes] == EncodeAll(ulsch, sent)
    }

    // The octets written and the remaining ones make up the PDU.
    ghost predicate Balanced()
      reads this, buffer
    {
      buffer.nBytes - base + remainingLen == pduLen
    }

    constructor (buffer: ByteBuffer, pduLen: nat, ulsch: bool)
      requires buffer.nBytes <= buffer.msg.Length
      ensures this.buffer == buffer && this.pduLen == pduLen && this.ulsch == ulsch
      ensures base == buffer.nBytes && sent == [] && subpdus == [] && remainingLen == pduLen
      ensures Valid() && Balanced()
    {
      this.buffer, this.pduLen, this.remainingLen, this.ulsch, subpdus := buffer, pduLen, pduLen, ulsch, [];
      base, sent := buffer.nBytes, [];
    }

    // The space is checked for the length that is asked for; what is written for a CCCH of the
    // uplink may be longer, and then remaining_len wraps around.
    method AddSdu(lcid: nat, payload: array<byte>, len: nat) returns (ok: bool)
      requires Valid() && len <= payload.Length && WrittenLength(ulsch, lcid, len) <= payload.Length
      requires payload != buffer.msg && remainingLen < 0x1_0000_0000
      requires HeaderLength(ulsch, lcid, len) + len <= remainingLen ==>
                 buffer.nBytes + HeaderLength(ulsch, lcid, len) + WrittenLength(ulsch, lcid, len) <= buffer.msg.Length
      modifies this`subpdus, this`remainingLen, this`sent, buffer`nBytes, buffer.msg
      ensures Valid() && remainingLen < 0x1_0000_0000
      ensures ok <==> HeaderLength(ulsch, lcid, len) + len <= old(remainingLen)
      ensures !ok ==> sent == old(sent) && subpdus == old(subpdus) && remainingLen == old(remainingLen) && buffer.nBytes == old(buffer.nBytes)
      ensures ok ==> sent == old(sent) + [Sdu(lcid, payload[..WrittenLength(ulsch, lcid, len)])]
      ensures old(Balanced()) ==>
                (Balanced() <==> !ok || HeaderLength(ulsch, lcid, len) + WrittenLength(ulsch, lcid, len) <= old(remainingLen))
      ensures |subpdus| == |old(subpdus)| + if ok then 1 else 0
      ensures buffer.msg[..base] == old(buffer.msg[..base])
    {
      hide HeaderLength, WrittenLength, EncodeAll;
      var headerSize := HeaderLength(ulsch, lcid, len);
      if headerSize + len > remainingLen {
        return false;
      }
      var length := AppendSdu(lcid, payload, len);
      remainingLen := (remainingLen - length) % 0x1_0000_0000;
      return true;
    }

    method AppendSdu(lcid: nat, payload: array<byte>, len: nat) returns (length: nat)
      requires Valid() && payload != buffer.msg && WrittenLength(ulsch, lcid, len) <= payload.Length
      requires HeaderLength(ulsch, lcid, len) + len < 0x1_0000_0000
      requires buffer.nBytes + HeaderLength(ulsch, lcid, len) + WrittenLength(ulsch, lcid, len) <= buffer.msg.Length
      modifies this`subpdus, this`sent, buffer`nBytes, buffer.msg
      ensures Valid()
      ensures length == HeaderLength(ulsch, lcid, len) + WrittenLength(ulsch, lcid, len)
      ensures buffer.nBytes == old(buffer.nBytes) + length
      ensures sent == old(sent) + [Sdu(lcid, payload[..WrittenLength(ulsch, lcid, len)])]
      ensures |subpdus| == |old(subpdus)| + 1
      ensures buffer.msg[..base] == old(buffer.msg[..base])
    {
      hide HeaderLength, WrittenLength, HeaderOctets, Subheader, EncodeAll, MacNrSchSubPdu.Payload, MacNrSchSubPdu.Value;
      var pdu := SduOf(lcid, payload, len);
      ghost var sdu := Sdu(lcid, payload[..WrittenLength(ulsch, lcid, len)]);
      length := Append(pdu);
      EncodeNext(ulsch, sent, sdu);
      sent := sent + [sdu];
    }

    method SduOf(lcid: nat, payload: array<byte>, len: nat) returns (pdu: MacNrSchSubPdu)
      requires WrittenLength(ulsch, lcid, len) <= payload.Length
      ensures fresh(pdu) && pdu.sdu == payload && pdu.sduStart == 0 && 1 <= pdu.headerLength <= 3
      ensures pdu.headerLength == HeaderLength(ulsch, lcid, len) && pdu.sduLength == WrittenLength(ulsch, lcid, len)
      ensures Subheader(pdu.Value()) == HeaderOctets(ulsch, lcid, WrittenLength(ulsch, lcid, len))
      ensures pdu.Payload() == payload[..WrittenLength(ulsch, lcid, len)]
    {
      pdu := new MacNrSchSubPdu(ulsch);
      pdu.SetSdu(lcid, payload, len);
      SubheaderIsHeader(ulsch, pdu.Value());
      hide HeaderOctets, Subheader;
    }

    // Writes a subPDU behind the others.
    method Append(pdu: MacNrSchSubPdu) returns (length: nat)
      requires base <= buffer.nBytes && 1 <= pdu.headerLength <= 3
      requires buffer.nBytes + pdu.headerLength + pdu.sduLength <= buffer.msg.Length
      requires pdu.sdu != null ==> pdu.sdu != buffer.msg && pdu.sduStart + pdu.sduLength <= pdu.sdu.Length
      modifies this`subpdus, buffer`nBytes, buffer.msg
      ensures length == pdu.headerLength + pdu.sduLength && buffer.nBytes == old(buffer.nBytes) + length
      ensures buffer.msg[base..buffer.nBytes] == old(buffer.msg[base..buffer.nBytes]) + (Subheader(pdu.Value()) + pdu.Payload())
      ensures buffer.msg[..base] == old(buffer.msg[..base])
      ensures subpdus == old(subpdus) + [pdu.Value()]
    {
      hide Subheader;
      ghost var start, before := buffer.nBytes, buffer.msg[base..buffer.nBytes];
      length := pdu.WriteSubPdu(buffer.msg, buffer.nBytes);
      buffer.nBytes := buffer.nBytes + length;
      subpdus := subpdus + [pdu.Value()];
      assert buffer.msg[base..start] == before;
      assert buffer.msg[base..start + length] == buffer.msg[base..start] + buffer.msg[start..start + length];
    }

    // SDUs are written already; what remains is filled with padding.
    method Pack()
      requires Valid() && Balanced() && base + pduLen <= buffer.msg.Length
      modifies this`subpdus, this`remainingLen, buffer`nBytes, buffer.msg
      ensures remainingLen == 0 && buffer.nBytes == base + pduLen
      ensures buffer.msg[base..buffer.nBytes] == EncodeAll(ulsch, sent) + Padding(old(remainingLen))
      ensures |subpdus| == |old(subpdus)| + if old(remainingLen) > 0 then 1 else 0
    {
      hide EncodeAll;
      if remainingLen > 0 {
        var padding := new MacNrSchSubPdu(ulsch);
        padding.SetPadding(remainingLen);
        var length := Append(padding);
        remainingLen := remainingLen - length;
      }
    }

    // One round of the loop of Unpack.
    method UnpackOne(payload: array<byte>, len: nat, offset: nat) returns (ok: bool, fields: Fields, next: nat)
      requires offset < len && len + 2 <= payload.Length
      ensures ok <==> ItemAt(ulsch, payload[..], len, offset).Some?
      ensures ok ==> var item := ItemAt(ulsch, payload[..], len, offset).value;
                     fields == Found(payload, item) && next == item.End()
    {
      hide IsValidLcid, IsUlCcch;
      var pdu := new MacNrSchSubPdu(ulsch);
      ok := pdu.ReadSubheader(payload, offset);
      fields, next := pdu.Value(), offset;
      if !ok {
        return;
      }
      next := offset + pdu.headerLength + pdu.sduLength;
      if pdu.lcid == PADDING {
        pdu.SetPadding(len - next + 1);
        next := len;
      }
      fields := pdu.Value();
    }

    // The payload lies in an array that goes on for two more octets.
    method Unpack(payload: array<byte>, len: nat)
      requires len + 2 <= payload.Length
      modifies this`subpdus
      ensures var items := Parse(ulsch, payload[..], len, 0).items;
              && |subpdus| == |old(subpdus)| + |items| && subpdus[..|old(subpdus)|] == old(subpdus)
              && AllFound(subpdus[|old(subpdus)|..], payload, items)
    {
      hide Parse, ItemAt, Found;
      var offset := 0;
      ghost var m, n := payload[..], |subpdus|;
      ghost var done: seq<Item> := [];
      BehindNothing(Parse(ulsch, m, len, 0));
      while offset < len
        invariant Parse(ulsch, m, len, 0) == Behind(done, Parse(ulsch, m, len, offset))
        invariant |subpdus| == n + |done| && subpdus[..n] == old(subpdus)
        invariant AllFound(subpdus[n..], payload, done)
        decreases len - offset
      {
        BehindStep(ulsch, m, len, offset, done);
        var ok, fields, next := UnpackOne(payload, len, offset);
        if !ok {
          return;
        }
        done := done + [ItemAt(ulsch, m, len, offset).value];
        assert (subpdus + [fields])[n..] == subpdus[n..] + [fields];
        subpdus := subpdus + [fields];
        offset := next;
      }
      BehindEnd(ulsch, m, len, offset, done);
    }
  }

  // The fields of all the items.
  predicate AllFound(fields: seq<Fields>, payload: array<byte>, items: seq<Item>)
    reads payload
  {
    && |fields| == |items|
    && forall i :: 0 <= i < |items| ==> items[i].at < payload.Length && fields[i] == Found(payload, items[i])
  }

  function Behind(done: seq<Item>, rest: Parsed): Parsed {
    rest.(items := done + rest.items)
  }

  lemma BehindNothing(rest: Parsed)
    ensures Behind([], rest) == rest
  {
  }

  lemma BehindEnd(ul: bool, m: seq<byte>, len: nat, offset: nat, done: seq<Item>)
    requires len + 2 <= |m| && offset >= len
    ensures Behind(done, Parse(ul, m, len, offset)).items == done
  {
  }

  lemma BehindStep(ul: bool, m: seq<byte>, len: nat, offset: nat, done: seq<Item>)
    requires len + 2 <= |m| && offset < len
    ensures var item := ItemAt(ul, m, len, offset);
            if item.None? then Behind(done, Parse(ul, m, len, offset)).items == done
            else Behind(done, Parse(ul, m, len, offset)) == Behind(done + [item.value], Parse(ul, m, len, item.value.End()))
  {
    hide ItemAt;
    var item := ItemAt(ul, m, len, offset);
    if item.Some? {
      var rest := Parse(ul, m, len, item.value.End());
      assert done + ([item.value] + rest.items) == done + [item.value] + rest.items;
    }
  }
}
