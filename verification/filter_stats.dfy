/** Diagnostic counters of the packet filter (sw/net/src/filter.rs): one
    saturating 16-bit counter per filter bin. */
module FilterStats {
  import opened Bits

  /** The bins incoming Ethernet frames are sorted into. */
  datatype FilterBin =
    | DropNoise   // malformed packet
    | DropEType   // unsupported Ethernet protocol
    | DropMulti   // multicast
    | DropProto   // unsupported IP protocol
    | DropFrag    // packet fragment
    | ArpReq
    | ArpReply
    | Icmp
    | Dhcp
    | Udp

  /** `x.saturating_add(1)` on a `u16`. */
  function SatInc16(x: u16): (r: u16)
    ensures x < U16_MAX ==> r == x + 1
    ensures x == U16_MAX ==> r == U16_MAX
  {
    if x < U16_MAX then x + 1 else U16_MAX
  }

  const ALL_BINS: set<FilterBin> :=
    {DropNoise, DropEType, DropMulti, DropProto, DropFrag, ArpReq, ArpReply, Icmp, Dhcp, Udp}

  lemma AllBinsComplete(b: FilterBin)
    ensures b in ALL_BINS
  {
  }

  class FilterStats {
    var dropNoise: u16
    var dropEType: u16
    var dropMulti: u16
    var dropProto: u16
    var dropFrag: u16
    var arpReq: u16
    var arpReply: u16
    var icmp: u16
    var dhcp: u16
    var udp: u16

    /** The counter of one bin. */
    function Count(bin: FilterBin): u16
      reads this
    {
      match bin
      case DropNoise => dropNoise
      case DropEType => dropEType
      case DropMulti => dropMulti
      case DropProto => dropProto
      case DropFrag => dropFrag
      case ArpReq => arpReq
      case ArpReply => arpReply
      case Icmp => icmp
      case Dhcp => dhcp
      case Udp => udp
    }

    /** All ten counters as a map from bin to count. */
    function Snapshot(): (m: map<FilterBin, u16>)
      reads this
      ensures forall b :: b in m && m[b] == Count(b)
    {
      forall b ensures b in ALL_BINS {
        AllBinsComplete(b);
      }
      map b | b in ALL_BINS :: Count(b)
    }

    constructor NewAllZero()
      ensures forall bin :: Count(bin) == 0
    {
      dropNoise, dropEType, dropMulti, dropProto, dropFrag := 0, 0, 0, 0, 0;
      arpReq, arpReply, icmp, dhcp, udp := 0, 0, 0, 0, 0;
    }

    method Reset()
      modifies this
      ensures forall bin :: Count(bin) == 0
    {
      dropNoise, dropEType, dropMulti, dropProto, dropFrag := 0, 0, 0, 0, 0;
      arpReq, arpReply, icmp, dhcp, udp := 0, 0, 0, 0, 0;
    }

    /** Count one frame in `bin`: that counter goes up by one unless it is
        already at 65535, and no other counter changes. */
    method IncCountFor(bin: FilterBin)
      modifies this
      ensures Count(bin) == SatInc16(old(Count(bin)))
      ensures forall other :: other != bin ==> Count(other) == old(Count(other))
      ensures forall b :: old(Count(b)) <= Count(b)
      ensures Snapshot() == Counted(old(Snapshot()), [bin])
    {
      ghost var before := Snapshot();
      SetCount(bin, SatInc16(Count(bin)));
      CountedOne(before, Snapshot(), bin);
    }

    /** Store `v` in the counter of `bin`, leaving the others alone. */
    method SetCount(bin: FilterBin, v: u16)
      modifies this
      ensures Count(bin) == v
      ensures forall other :: other != bin ==> Count(other) == old(Count(other))
    {
      match bin {
      case DropNoise => dropNoise := v;
      case DropEType => dropEType := v;
      case DropMulti => dropMulti := v;
      case DropProto => dropProto := v;
      case DropFrag => dropFrag := v;
      case ArpReq => arpReq := v;
      case ArpReply => arpReply := v;
      case Icmp => icmp := v;
      case Dhcp => dhcp := v;
      case Udp => udp := v;
      }
    }
  }

  /** The counters as a value, for reasoning about sequences of updates. */
  function Counted(counts: map<FilterBin, u16>, bins: seq<FilterBin>): (r: map<FilterBin, u16>)
    requires forall b :: b in counts
    ensures forall b :: b in r
    decreases |bins|
  {
    if |bins| == 0 then counts
    else Counted(counts[bins[0] := SatInc16(counts[bins[0]])], bins[1..])
  }

  /** Counting one frame changes exactly the counter of its bin. */
  lemma CountedOne(before: map<FilterBin, u16>, after: map<FilterBin, u16>, bin: FilterBin)
    requires forall b :: b in before && b in after
    requires forall b :: after[b] == if b == bin then SatInc16(before[b]) else before[b]
    ensures after == Counted(before, [bin])
  {
    var next := before[bin := SatInc16(before[bin])];
    assert Counted(before, [bin]) == Counted(next, []) == next;
    assert after == next;
  }

  function Occurrences(bins: seq<FilterBin>, b: FilterBin): nat {
    multiset(bins)[b]
  }

  /** From all-zero counters, each counter ends at the number of frames
      counted in its bin, capped at 65535. */
  lemma {:induction false} CountedIsCappedOccurrences(counts: map<FilterBin, u16>, bins: seq<FilterBin>, b: FilterBin)
    requires forall c :: c in counts
    ensures Counted(counts, bins)[b] == Min(counts[b] + Occurrences(bins, b), U16_MAX)
    decreases |bins|
  {
    if |bins| > 0 {
      var next := counts[bins[0] := SatInc16(counts[bins[0]])];
      CountedIsCappedOccurrences(next, bins[1..], b);
      assert bins == [bins[0]] + bins[1..];
      assert multiset(bins) == multiset([bins[0]]) + multiset(bins[1..]);
    }
  }

  function Min(a: int, b: int): int {
    if a < b then a else b
  }
}
