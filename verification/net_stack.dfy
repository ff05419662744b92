/** The network state and the inbound frame classifier (sw/net/src/lib.rs).

    Each inbound Ethernet II frame is sorted into one filter bin: too short,
    mDNS multicast, unsupported ethertype, an IPv4 frame with options,
    fragments or a bad header checksum, an unsupported IP protocol, a UDP
    datagram for the DHCP client with a bad checksum, and the ARP cases.
    Frames for the DHCP client go on to the client's own `handle_frame`,
    which may change the client's state. The bin's counter is then
    incremented once. */
module NetStack {
  import opened Wrappers
  import opened Bits
  import opened NetFrame
  import Dhcp
  import FilterStats
  import P = NetPrng

  const MAC_MULTICAST: seq<u8> := [0x01, 0x00, 0x5E, 0x00, 0x00, 0xFB]
  const ETHERTYPE_IPV4: seq<u8> := [0x08, 0x00]
  const ETHERTYPE_ARP: seq<u8> := [0x08, 0x06]
  const ARP_FOR_ETHERNET_IPV4: seq<u8> := [0, 1, 8, 0, 6, 4]

  const VER4_LEN5: u8 := 0x45
  /** Every bit of the flags/fragment-offset byte except DF. */
  const IGNORE_DF_MASK: bv8 := 0xBF
  const PROTO_UDP: u8 := 0x11
  const PROTO_TCP: u8 := 0x06
  const PROTO_ICMP: u8 := 0x01
  const DHCP_CLIENT_PORT: u16 := 68

  const ALL_BINS: set<FilterBin> :=
    {DropNoise, DropEType, DropDhcp, DropMulti, DropProto, DropFrag,
     DropIpCk, DropUdpCk, Arp, Icmp, FilterBin.Dhcp, Udp, ComFwd}

  lemma AllBinsComplete(b: FilterBin)
    ensures b in ALL_BINS
  {
  }

  /** The thirteen counters `handle_frame` keeps hold one value per bin. */
  predicate Full(stats: map<FilterBin, u16>) {
    forall b :: b in stats
  }

  function ZeroStats(): (r: map<FilterBin, u16>)
    ensures Full(r) && forall b :: r[b] == 0
  {
    forall b ensures b in ALL_BINS {
      AllBinsComplete(b);
    }
    map b | b in ALL_BINS :: 0
  }

  /** `inc_count_for(bin)`: that counter goes up by one, saturating at 65535,
      and no other counter changes. */
  function Inc(stats: map<FilterBin, u16>, bin: FilterBin): (r: map<FilterBin, u16>)
    requires Full(stats)
    ensures Full(r)
    ensures r[bin] == FilterStats.SatInc16(stats[bin])
    ensures forall other :: other != bin ==> r[other] == stats[other]
  {
    stats[bin := FilterStats.SatInc16(stats[bin])]
  }

  /** Bits other than DF set in the flags byte, or a nonzero low offset byte. */
  predicate Fragmented(flags: u8, offset: u8) {
    ((flags as bv8) & IGNORE_DF_MASK) != 0 || offset != 0
  }

  // ---------------------------------------------------------------------
  // The classifier as functions of the DHCP client's state and the frame

  /** `handle_icmp_frame`: its length check repeats the IPv4 one, so it
      forwards every frame it is given. */
  function IcmpOf(data: seq<u8>): FilterBin {
    if |data| < IPV4_MIN_FRAME_LEN then DropNoise else ComFwd
  }

  /** `handle_arp_frame`: only once the client is Bound with an address, and
      only for the Ethernet/IPv4 ARP format: a request for our address is
      Arp, any reply is ComFwd, anything else is noise. */
  function ArpOf(c: Dhcp.Client, data: seq<u8>): FilterBin {
    if |data| < ARP_FRAME_LEN || c.state != Dhcp.Bound || c.ip.None? then DropNoise
    else if data[14..20] != ARP_FOR_ETHERNET_IPV4 then DropNoise
    else
      var oper := Be16(data[20], data[21]);
      if oper == 1 && Be32(data[38..42]) == c.ip.value then Arp
      else if oper == 2 then ComFwd
      else DropNoise
  }

  /** `handle_udp_frame`: datagrams for ports other than 68 are forwarded
      unchecked; those for the DHCP client must carry a valid UDP checksum
      and are then handed to the client. */
  function UdpOf(c: Dhcp.Client, data: seq<u8>, now: nat): (Dhcp.Client, FilterBin) {
    if |data| < MIN_UDP_FRAME_LEN then (c, DropNoise)
    else if Be16(data[36], data[37]) != DHCP_CLIENT_PORT then (c, ComFwd)
    else if Be16(data[40], data[41]) != UdpChecksumOf(data) then (c, DropUdpCk)
    else Dhcp.HandleFrameOf(c, data, now)
  }

  /** `handle_ipv4_frame`: version 4 with a 20-byte header, unfragmented,
      with a valid header checksum; then dispatch on the protocol. */
  function Ipv4Of(c: Dhcp.Client, data: seq<u8>, now: nat): (Dhcp.Client, FilterBin) {
    if |data| < IPV4_MIN_FRAME_LEN || data[14] != VER4_LEN5 then (c, DropNoise)
    else if Fragmented(data[20], data[21]) then (c, DropFrag)
    else if Ipv4ChecksumOf(data) != Be16(data[24], data[25]) then (c, DropIpCk)
    else if data[23] == PROTO_UDP then UdpOf(c, data, now)
    else if data[23] == PROTO_ICMP then (c, IcmpOf(data))
    else if data[23] == PROTO_TCP then (c, ComFwd)
    else (c, DropProto)
  }

  /** `handle_frame` without the counter: the bin of a frame and the DHCP
      client's state afterwards. */
  function ClassifyOf(c: Dhcp.Client, data: seq<u8>, now: nat): (Dhcp.Client, FilterBin) {
    if |data| < MAC_HEADER_LEN then (c, DropNoise)
    else if data[..6] == MAC_MULTICAST then (c, DropMulti)
    else if data[12..14] == ETHERTYPE_IPV4 then Ipv4Of(c, data, now)
    else if data[12..14] == ETHERTYPE_ARP then (c, ArpOf(c, data))
    else (c, DropEType)
  }

  // ---------------------------------------------------------------------
  // The network state

  class NetState {
    var mac: array<u8>
    var stats: map<FilterBin, u16>
    var prng: P.NetPrng
    var dhcp: Dhcp.DhcpClient
    var comNetBridgeEnable: bool

    ghost predicate Valid()
      reads this
    {
      mac.Length == 6 && Full(stats)
    }

    /** `new`: a zero MAC, zero counters, the generator seeded with eight
        0x55 words, a new DHCP client and the COM bridge enabled. */
    constructor New()
      ensures Valid() && fresh(mac) && fresh(prng) && fresh(prng.s) && fresh(dhcp)
      ensures mac[..] == [0, 0, 0, 0, 0, 0] && stats == ZeroStats() && comNetBridgeEnable
      ensures dhcp.Snapshot() == Dhcp.NewClient()
      ensures prng.Valid() && prng.count == 0 && prng.State() == P.Seeded(seq(8, _ => 0x55))
    {
      mac := new u8[6](_ => 0);
      stats := ZeroStats();
      prng := new P.NetPrng.NewFrom(seq(8, _ => 0x55));
      dhcp := new Dhcp.DhcpClient.New();
      comNetBridgeEnable := true;
    }

    /** `set_mac` copies all six bytes. */
    method SetMac(m: seq<u8>)
      requires Valid() && |m| == 6
      modifies mac
      ensures mac[..] == m
    {
      forall i | 0 <= i < 6 {
        mac[i] := m[i];
      }
    }

    /** `set_com_net_bridge_enable` changes that flag and nothing else. */
    method SetComNetBridgeEnable(enable: bool)
      modifies this
      requires Valid()
      ensures Valid() && comNetBridgeEnable == enable
      ensures mac == old(mac) && stats == old(stats) && prng == old(prng) && dhcp == old(dhcp)
    {
      comNetBridgeEnable := enable;
    }

    /** `handle_frame`: classify, let the DHCP client act on its frames, and
        count the frame in exactly the bin returned. */
    method HandleFrame(data: seq<u8>, now: nat) returns (bin: FilterBin)
      requires Valid()
      modifies this, dhcp
      ensures Valid()
      ensures (dhcp.Snapshot(), bin) == ClassifyOf(old(dhcp.Snapshot()), data, now)
      ensures stats == Inc(old(stats), bin)
      ensures mac == old(mac) && prng == old(prng) && dhcp == old(dhcp)
      ensures comNetBridgeEnable == old(comNetBridgeEnable)
    {
      if |data| < MAC_HEADER_LEN {
        bin := DropNoise;
      } else if data[..6] == MAC_MULTICAST {
        bin := DropMulti;
      } else if data[12..14] == ETHERTYPE_IPV4 {
        bin := HandleIpv4Frame(data, now);
      } else if data[12..14] == ETHERTYPE_ARP {
        bin := HandleArpFrame(data);
      } else {
        bin := DropEType;
      }
      stats := Inc(stats, bin);
    }

    method HandleIpv4Frame(data: seq<u8>, now: nat) returns (bin: FilterBin)
      modifies dhcp
      ensures (dhcp.Snapshot(), bin) == Ipv4Of(old(dhcp.Snapshot()), data, now)
    {
      if |data| < IPV4_MIN_FRAME_LEN || data[14] != VER4_LEN5 {
        return DropNoise;
      }
      if Fragmented(data[20], data[21]) {
        return DropFrag;
      }
      var csum := Ipv4Checksum(data);
      if csum != Be16(data[24], data[25]) {
        return DropIpCk;
      }
      if data[23] == PROTO_UDP {
        bin := HandleUdpFrame(data, now);
      } else if data[23] == PROTO_ICMP {
        bin := IcmpOf(data);
      } else if data[23] == PROTO_TCP {
        bin := ComFwd;
      } else {
        bin := DropProto;
      }
    }

    method HandleUdpFrame(data: seq<u8>, now: nat) returns (bin: FilterBin)
      modifies dhcp
      ensures (dhcp.Snapshot(), bin) == UdpOf(old(dhcp.Snapshot()), data, now)
    {
      if |data| < MIN_UDP_FRAME_LEN {
        return DropNoise;
      }
      if Be16(data[36], data[37]) != DHCP_CLIENT_PORT {
        return ComFwd;
      }
      var csum := Ipv4UdpChecksum(data);
      if Be16(data[40], data[41]) != csum {
        return DropUdpCk;
      }
      bin := dhcp.HandleFrame(data, now);
    }

    function HandleArpFrame(data: seq<u8>): FilterBin
      reads this, dhcp
    {
      ArpOf(dhcp.Snapshot(), data)
    }
  }

  // ---------------------------------------------------------------------
  // Properties of the classifier

  /** Frames shorter than a MAC header are noise, and mDNS multicast is
      dropped before the ethertype is looked at. */
  lemma ShortAndMulticastDrops(c: Dhcp.Client, data: seq<u8>, now: nat)
    ensures |data| < MAC_HEADER_LEN ==> ClassifyOf(c, data, now) == (c, DropNoise)
    ensures |data| >= MAC_HEADER_LEN && data[..6] == MAC_MULTICAST ==> ClassifyOf(c, data, now) == (c, DropMulti)
    ensures |data| >= MAC_HEADER_LEN && data[..6] != MAC_MULTICAST
            && data[12..14] != ETHERTYPE_IPV4 && data[12..14] != ETHERTYPE_ARP
            ==> ClassifyOf(c, data, now) == (c, DropEType)
  {
  }

  /** The IPv4 checks, in the order `handle_ipv4_frame` makes them, each
      leaving the DHCP client untouched. */
  lemma Ipv4Drops(c: Dhcp.Client, data: seq<u8>, now: nat)
    ensures |data| >= IPV4_MIN_FRAME_LEN && data[14] != VER4_LEN5 ==> Ipv4Of(c, data, now) == (c, DropNoise)
    ensures |data| >= IPV4_MIN_FRAME_LEN && data[14] == VER4_LEN5 && Fragmented(data[20], data[21])
            ==> Ipv4Of(c, data, now) == (c, DropFrag)
    ensures |data| >= IPV4_MIN_FRAME_LEN && data[14] == VER4_LEN5 && !Fragmented(data[20], data[21])
            && Ipv4ChecksumOf(data) != Be16(data[24], data[25])
            ==> Ipv4Of(c, data, now) == (c, DropIpCk)
  {
  }

  /** A frame that passes the IPv4 checks is dispatched on its protocol:
      UDP to the UDP handler, ICMP and TCP forwarded, anything else
      dropped. */
  lemma ProtocolDispatch(c: Dhcp.Client, data: seq<u8>, now: nat)
    requires |data| >= IPV4_MIN_FRAME_LEN && data[14] == VER4_LEN5 && !Fragmented(data[20], data[21])
    requires Ipv4ChecksumOf(data) == Be16(data[24], data[25])
    ensures data[23] == PROTO_UDP ==> Ipv4Of(c, data, now) == UdpOf(c, data, now)
    ensures data[23] == PROTO_ICMP || data[23] == PROTO_TCP ==> Ipv4Of(c, data, now) == (c, ComFwd)
    ensures data[23] !in {PROTO_UDP, PROTO_ICMP, PROTO_TCP} ==> Ipv4Of(c, data, now) == (c, DropProto)
  {
  }

  /** Only a frame that reaches the DHCP client's own handler can change the
      client, and then the bin is Dhcp: an IPv4 UDP datagram to port 68 whose
      header and UDP checksums both verify. */
  lemma {:induction false} ClientChangesOnlyThroughDhcp(c: Dhcp.Client, data: seq<u8>, now: nat)
    ensures var (c', bin) := ClassifyOf(c, data, now);
            c' != c ==> bin == FilterBin.Dhcp
    ensures ClassifyOf(c, data, now).1 == FilterBin.Dhcp ==>
              && |data| >= MIN_UDP_FRAME_LEN && data[..6] != MAC_MULTICAST && data[12..14] == ETHERTYPE_IPV4
              && data[14] == VER4_LEN5 && !Fragmented(data[20], data[21]) && data[23] == PROTO_UDP
              && Ipv4ChecksumOf(data) == Be16(data[24], data[25])
              && Be16(data[36], data[37]) == DHCP_CLIENT_PORT && Be16(data[40], data[41]) == UdpChecksumOf(data)
  {
    Dhcp.HandleFrameOutcome(c, data, now);
  }

  /** `handle_frame` never returns the Icmp or Udp bins: ICMP is forwarded
      and UDP either forwarded, dropped or decided by the DHCP client. */
  lemma {:induction false} UnusedBins(c: Dhcp.Client, data: seq<u8>, now: nat)
    ensures ClassifyOf(c, data, now).1 !in {Icmp, Udp}
  {
    Dhcp.HandleFrameOutcome(c, data, now);
  }

  /** The ARP outcomes: Arp exactly for an Ethernet/IPv4 request for our
      bound address, ComFwd exactly for an Ethernet/IPv4 reply while bound,
      noise otherwise. */
  lemma ArpOutcomes(c: Dhcp.Client, data: seq<u8>)
    ensures ArpOf(c, data) == Arp <==>
              |data| >= ARP_FRAME_LEN && c.state == Dhcp.Bound && c.ip.Some? && data[14..20] == ARP_FOR_ETHERNET_IPV4
              && Be16(data[20], data[21]) == 1 && Be32(data[38..42]) == c.ip.value
    ensures ArpOf(c, data) == ComFwd <==>
              |data| >= ARP_FRAME_LEN && c.state == Dhcp.Bound && c.ip.Some? && data[14..20] == ARP_FOR_ETHERNET_IPV4
              && Be16(data[20], data[21]) == 2
    ensures ArpOf(c, data) in {Arp, ComFwd, DropNoise}
  {
  }

  /** A frame the DHCP client builds, received back, passes every IPv4
      check and, being addressed to the server port 67, is forwarded without
      reaching the client: the builders and the receive path agree on the
      header layout and the checksums. */
  lemma OwnFramesForwarded(c: Dhcp.Client, fi: Dhcp.FrameInputs, srcMac: seq<u8>, dstMac: seq<u8>, ciaddr: u32, ipId: u16,
                           ipSrc: u32, ipDst: u32, options: seq<u8>, now: nat, f: seq<u8>, later: nat)
    requires |srcMac| == 6 && |dstMac| == 6 && |options| == Dhcp.DHCP_FRAME_LEN - Dhcp.HEADERS_LEN
    requires dstMac != MAC_MULTICAST
    requires Dhcp.FrameOf(fi, srcMac, dstMac, ciaddr, ipId, ipSrc, ipDst, options, now) == Ok(f)
    ensures ClassifyOf(c, f, later) == (c, ComFwd)
  {
    Dhcp.FrameOfHeaderBytes(fi, srcMac, dstMac, ciaddr, ipId, ipSrc, ipDst, options, now, f);
  }
}
