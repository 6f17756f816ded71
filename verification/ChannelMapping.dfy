/** The allocation of physical channels to logical ones (channel_mapping.cc). */
module ChannelMapping {

  // Frequencies are real numbers.
  datatype Band = Band(low: real, high: real) {
    predicate Contains(freq: real) {
      (low == 0.0 && high == 0.0) || low <= freq <= high
    }
  }

  datatype Channel = Channel(band: Band, carrierIdx: nat)

  datatype Channels = Channels(available: seq<Channel>, taken: map<nat, Channel>)

  datatype Op = Allocate(logical: nat, freq: real) | Release(logical: nat)

  // The first channel from i on that supports a frequency, or the number of channels.
  function FirstFit(available: seq<Channel>, freq: real, i: nat): (k: nat)
    requires i <= |available|
    ensures i <= k <= |available|
    ensures k < |available| ==> available[k].band.Contains(freq)
    ensures forall j :: i <= j < k ==> !available[j].band.Contains(freq)
    decreases |available| - i
  {
    if i == |available| || available[i].band.Contains(freq) then i else FirstFit(available, freq, i + 1)
  }

  predicate Succeeds(s: Channels, op: Op) {
    match op
    case Allocate(logical, freq) => logical !in s.taken && FirstFit(s.available, freq, 0) < |s.available|
    case Release(logical) => logical in s.taken
  }

  function Apply(s: Channels, op: Op): Channels {
    if !Succeeds(s, op) then s
    else match op
      case Allocate(logical, freq) =>
        var k := FirstFit(s.available, freq, 0);
        Channels(s.available[..k] + s.available[k + 1..], s.taken[logical := s.available[k]])
      case Release(logical) =>
        Channels(s.available + [s.taken[logical]], s.taken - {logical})
  }

  function Run(s: Channels, ops: seq<Op>): Channels
    decreases |ops|
  {
    if ops == [] then s else Run(Apply(s, ops[0]), ops[1..])
  }

  // An allocation fails only if the logical channel has one already, or no free channel supports the frequency.
  lemma FailureIsJustified(s: Channels, logical: nat, freq: real)
    ensures Succeeds(s, Allocate(logical, freq)) <==>
            logical !in s.taken && exists i :: 0 <= i < |s.available| && s.available[i].band.Contains(freq)
  {
  }

  // A channel that was released is taken again only if no channel that has been free for longer
  // supports the frequency; among those the first one is taken.
  lemma ReleasedIsTakenLast(s: Channels, logical: nat, logical': nat, freq: real)
    requires Succeeds(s, Release(logical)) && (logical' == logical || logical' !in s.taken)
    ensures var t := Apply(Apply(s, Release(logical)), Allocate(logical', freq));
            && (forall i :: 0 <= i < |s.available| && s.available[i].band.Contains(freq)
                        && (forall j :: 0 <= j < i ==> !s.available[j].band.Contains(freq))
                        ==> logical' in t.taken && t.taken[logical'] == s.available[i])
            && ((forall i :: 0 <= i < |s.available| ==> !s.available[i].band.Contains(freq)) && s.taken[logical].band.Contains(freq)
                ==> logical' in t.taken && t.taken[logical'] == s.taken[logical] && t.available == s.available)
  {
    var u := Apply(s, Release(logical));
    var k := FirstFit(u.available, freq, 0);
    forall i | 0 <= i < |s.available| && s.available[i].band.Contains(freq)
             && (forall j :: 0 <= j < i ==> !s.available[j].band.Contains(freq))
      ensures k == i
    {
      assert forall j :: 0 <= j <= i ==> u.available[j] == s.available[j];
    }
    if (forall i :: 0 <= i < |s.available| ==> !s.available[i].band.Contains(freq)) && s.taken[logical].band.Contains(freq) {
      assert u.available[|s.available|] == s.taken[logical];
      assert forall j :: 0 <= j < |s.available| ==> u.available[j] == s.available[j];
    }
  }

  // ----- Nothing is lost, nothing is given out twice -----

  function Holders(m: map<nat, Channel>, c: Channel): set<nat> {
    set k | k in m && m[k] == c
  }

  // How often a channel occurs, free or allocated.
  function Copies(s: Channels, c: Channel): nat {
    multiset(s.available)[c] + |Holders(s.taken, c)|
  }

  lemma HolderAdded(m: map<nat, Channel>, logical: nat, x: Channel, c: Channel)
    requires logical !in m
    ensures |Holders(m[logical := x], c)| == |Holders(m, c)| + if x == c then 1 else 0
  {
    assert Holders(m[logical := x], c) == Holders(m, c) + if x == c then {logical} else {};
  }

  lemma ChannelRemoved(available: seq<Channel>, k: nat, c: Channel)
    requires k < |available|
    ensures multiset(available)[c] == multiset(available[..k] + available[k + 1..])[c] + if available[k] == c then 1 else 0
  {
    assert available == available[..k] + [available[k]] + available[k + 1..];
  }

  lemma StepConserves(s: Channels, op: Op, c: Channel)
    ensures Copies(Apply(s, op), c) == Copies(s, c)
  {
    hide Holders, FirstFit;
    if Succeeds(s, op) {
      match op
      case Allocate(logical, freq) =>
        var k := FirstFit(s.available, freq, 0);
        ChannelRemoved(s.available, k, c);
        HolderAdded(s.taken, logical, s.available[k], c);
      case Release(logical) =>
        HolderAdded(s.taken - {logical}, logical, s.taken[logical], c);
        assert (s.taken - {logical})[logical := s.taken[logical]] == s.taken;
    }
  }

  // Whatever is allocated and released, every channel keeps its number of copies.
  lemma {:induction false} RunConserves(s: Channels, ops: seq<Op>, c: Channel)
    ensures Copies(Run(s, ops), c) == Copies(s, c)
    decreases |ops|
  {
    if ops != [] {
      StepConserves(s, ops[0], c);
      RunConserves(Apply(s, ops[0]), ops[1..], c);
    }
  }

  // Each carrier occurs once, free or allocated.
  ghost predicate DistinctCarriers(s: Channels) {
    && (forall i, j :: 0 <= i < j < |s.available| ==> s.available[i].carrierIdx != s.available[j].carrierIdx)
    && (forall k, l :: k in s.taken && l in s.taken && k != l ==> s.taken[k].carrierIdx != s.taken[l].carrierIdx)
    && (forall i, k :: 0 <= i < |s.available| && k in s.taken ==> s.available[i].carrierIdx != s.taken[k].carrierIdx)
  }

  lemma StepKeepsDistinct(s: Channels, op: Op)
    requires DistinctCarriers(s)
    ensures DistinctCarriers(Apply(s, op))
  {
  }

  lemma {:induction false} RunKeepsDistinct(s: Channels, ops: seq<Op>)
    requires DistinctCarriers(s)
    ensures DistinctCarriers(Run(s, ops))
    decreases |ops|
  {
    if ops != [] {
      StepKeepsDistinct(s, ops[0]);
      RunKeepsDistinct(Apply(s, ops[0]), ops[1..]);
    }
  }

  // ----- Ports -----

  datatype Mapping = Mapping(carrierIdx: nat, deviceIdx: nat, channelIdx: nat)

  const UINT32_MAX := 0xffff_ffff

  // The channel of an antenna, in 32-bit arithmetic.
  function ChannelIndex(carrierIdx: nat, nofAntennas: nat, antenna: nat): nat {
    (carrierIdx * nofAntennas + antenna) % 0x1_0000_0000
  }

  function MappingOf(s: Channels, nofAntennas: nat, nofChannelsXDev: nat, logical: nat, antenna: nat): Mapping
    requires 0 < nofChannelsXDev
  {
    if logical in s.taken then
      var carrier := s.taken[logical].carrierIdx;
      var channel := ChannelIndex(carrier, nofAntennas, antenna);
      Mapping(carrier, channel / nofChannelsXDev, channel % nofChannelsXDev)
    else Mapping(UINT32_MAX, UINT32_MAX, UINT32_MAX)
  }

  // The device and the port of an antenna, from the number of its channel: device after device, the
  // ports of each in order.  A logical channel without a carrier has the error value throughout.
  lemma PortOfAntenna(s: Channels, nofAntennas: nat, nofChannelsXDev: nat, logical: nat, antenna: nat)
    requires 0 < nofChannelsXDev
    ensures var m := MappingOf(s, nofAntennas, nofChannelsXDev, logical, antenna);
            if logical in s.taken then
              && m.carrierIdx == s.taken[logical].carrierIdx && m.channelIdx < nofChannelsXDev
              && m.deviceIdx * nofChannelsXDev + m.channelIdx == (m.carrierIdx * nofAntennas + antenna) % 0x1_0000_0000
            else m.carrierIdx == m.deviceIdx == m.channelIdx == 0xffff_ffff
  {
    if logical in s.taken {
      Quotient(ChannelIndex(s.taken[logical].carrierIdx, nofAntennas, antenna), nofChannelsXDev);
    }
  }

  lemma Quotient(x: nat, d: nat)
    requires 0 < d
    ensures x == x / d * d + x % d && x % d < d
  {
  }

  // After any run from distinct carriers, different antennas of allocated channels have different
  // ports, as long as the channel numbers do not overflow.
  lemma {:induction false} PortsAreDistinct(s: Channels, ops: seq<Op>, nofAntennas: nat, nofChannelsXDev: nat,
                                            logical: nat, antenna: nat, logical': nat, antenna': nat)
    requires DistinctCarriers(s) && 0 < nofChannelsXDev && antenna < nofAntennas && antenna' < nofAntennas
    requires logical in Run(s, ops).taken && logical' in Run(s, ops).taken
    requires (logical, antenna) != (logical', antenna')
    requires (Run(s, ops).taken[logical].carrierIdx + 1) * nofAntennas <= 0x1_0000_0000
    requires (Run(s, ops).taken[logical'].carrierIdx + 1) * nofAntennas <= 0x1_0000_0000
    ensures var m := MappingOf(Run(s, ops), nofAntennas, nofChannelsXDev, logical, antenna);
            var m' := MappingOf(Run(s, ops), nofAntennas, nofChannelsXDev, logical', antenna');
            (m.deviceIdx, m.channelIdx) != (m'.deviceIdx, m'.channelIdx)
  {
    RunKeepsDistinct(s, ops);
    var c, c' := Run(s, ops).taken[logical].carrierIdx, Run(s, ops).taken[logical'].carrierIdx;
    assert c == c' ==> antenna != antenna';
    hide ChannelIndex, Run;
    IndexIsInjective(c, c', nofAntennas, antenna, antenna');
    QuotientAndRemainder(ChannelIndex(c, nofAntennas, antenna), ChannelIndex(c', nofAntennas, antenna'), nofChannelsXDev);
  }

  lemma QuotientAndRemainder(x: nat, y: nat, d: nat)
    requires 0 < d && x != y
    ensures (x / d, x % d) != (y / d, y % d)
  {
    assert x == x / d * d + x % d;
    assert y == y / d * d + y % d;
  }

  // Two antennas share a port exactly when their channel numbers agree in 32 bits.
  lemma SharedPorts(s: Channels, nofAntennas: nat, nofChannelsXDev: nat, logical: nat, antenna: nat, logical': nat, antenna': nat)
    requires 0 < nofChannelsXDev && logical in s.taken && logical' in s.taken
    ensures var m := MappingOf(s, nofAntennas, nofChannelsXDev, logical, antenna);
            var m' := MappingOf(s, nofAntennas, nofChannelsXDev, logical', antenna');
            (m.deviceIdx, m.channelIdx) == (m'.deviceIdx, m'.channelIdx) <==>
            (m.carrierIdx * nofAntennas + antenna) % 0x1_0000_0000 == (m'.carrierIdx * nofAntennas + antenna') % 0x1_0000_0000
  {
    var x := ChannelIndex(s.taken[logical].carrierIdx, nofAntennas, antenna);
    var y := ChannelIndex(s.taken[logical'].carrierIdx, nofAntennas, antenna');
    if x != y {
      QuotientAndRemainder(x, y, nofChannelsXDev);
    }
  }

  lemma Distribute(a: nat, b: nat, n: nat)
    ensures (a + b) * n == a * n + b * n
  {
  }

  lemma LaterCarrier(c: nat, c': nat, n: nat, a: nat, a': nat)
    requires c < c' && a < n
    ensures c * n + a < c' * n + a'
  {
    var d := c' - c - 1;
    NextRow(c, n);
    Distribute(c + 1, d, n);
    assert d * n >= 0;
  }

  lemma NextRow(c: nat, n: nat)
    ensures (c + 1) * n == c * n + n
  {
  }

  lemma IndexIsInjective(c: nat, c': nat, n: nat, a: nat, a': nat)
    requires a < n && a' < n && (c + 1) * n <= 0x1_0000_0000 && (c' + 1) * n <= 0x1_0000_0000
    requires c != c' || a != a'
    ensures ChannelIndex(c, n, a) != ChannelIndex(c', n, a')
  {
    NextRow(c, n);
    NextRow(c', n);
    NoWrap(c * n + a);
    NoWrap(c' * n + a');
    if c < c' {
      LaterCarrier(c, c', n, a, a');
    } else if c' < c {
      LaterCarrier(c', c, n, a', a);
    }
  }

  lemma NoWrap(x: nat)
    requires x < 0x1_0000_0000
    ensures x % 0x1_0000_0000 == x
  {
  }

  // With an overflow two carriers can share their ports.
  lemma OverflowSharesPorts()
    ensures ChannelIndex(0, 2, 0) == ChannelIndex(0x8000_0000, 2, 0)
  {
  }

  // ----- The code -----

  class ChannelMap {
    var availableChannels: seq<Channel>
    var allocatedChannels: map<nat, Channel>
    var nofAntennas: nat
    var nofChannelsXDev: nat

    function State(): Channels
      reads this
    {
      Channels(availableChannels, allocatedChannels)
    }

    constructor ()
      ensures State() == Channels([], map[]) && nofAntennas == 1 && nofChannelsXDev == 1
    {
      availableChannels, allocatedChannels, nofAntennas, nofChannelsXDev := [], map[], 1, 1;
    }

    method SetConfig(nofChannelsXDev: nat, nofAntennas: nat)
      modifies this`nofChannelsXDev, this`nofAntennas
      ensures this.nofChannelsXDev == nofChannelsXDev && this.nofAntennas == nofAntennas
    {
      this.nofChannelsXDev, this.nofAntennas := nofChannelsXDev, nofAntennas;
    }

    method SetChannels(channels: seq<Channel>)
      modifies this`availableChannels
      ensures State() == Channels(channels, old(allocatedChannels))
    {
      availableChannels := channels;
    }

    method AllocateFreq(logical: nat, freq: real) returns (ok: bool)
      modifies this`availableChannels, this`allocatedChannels
      ensures ok <==> Succeeds(old(State()), Allocate(logical, freq))
      ensures State() == Apply(old(State()), Allocate(logical, freq))
    {
      if logical in allocatedChannels {
        return false;
      }
      var c := 0;
      while c < |availableChannels|
        invariant c <= |availableChannels| && State() == old(State())
        invariant FirstFit(availableChannels, freq, 0) == FirstFit(availableChannels, freq, c)
      {
        if availableChannels[c].band.Contains(freq) {
          allocatedChannels := allocatedChannels[logical := availableChannels[c]];
          availableChannels := availableChannels[..c] + availableChannels[c + 1..];
          return true;
        }
        c := c + 1;
      }
      return false;
    }

    method ReleaseFreq(logical: nat) returns (ok: bool)
      modifies this`availableChannels, this`allocatedChannels
      ensures ok <==> Succeeds(old(State()), Release(logical))
      ensures State() == Apply(old(State()), Release(logical))
    {
      if logical in allocatedChannels {
        availableChannels := availableChannels + [allocatedChannels[logical]];
        allocatedChannels := allocatedChannels - {logical};
        return true;
      }
      return false;
    }

    method GetDeviceMapping(logical: nat, antenna: nat) returns (m: Mapping)
      requires 0 < nofChannelsXDev
      ensures m == MappingOf(State(), nofAntennas, nofChannelsXDev, logical, antenna)
    {
      if logical in allocatedChannels {
        var carrierIdx := allocatedChannels[logical].carrierIdx;
        var channelIdx := ChannelIndex(carrierIdx, nofAntennas, antenna);
        return Mapping(carrierIdx, channelIdx / nofChannelsXDev, channelIdx % nofChannelsXDev);
      }
      return Mapping(UINT32_MAX, UINT32_MAX, UINT32_MAX);
    }
  }
}
