/** The frame layout constants, filter bins and one's-complement checksums of
    the network stack (sw/net/src/lib.rs), shared by the DHCP client and the
    frame classifier. Checksums follow RFC 1071, over the IPv4 header of
    RFC 791 section 3.1 and the UDP pseudo-header of RFC 768. */
module NetFrame {
  import opened Bits

  /** Fixed Ethernet II header, minimal IPv4 header, UDP header. */
  const MAC_HEADER_LEN: nat := 14
  const ARP_FRAME_LEN: nat := MAC_HEADER_LEN + 28
  const IPV4_MIN_HEADER_LEN: nat := 20
  const IPV4_MIN_FRAME_LEN: nat := MAC_HEADER_LEN + IPV4_MIN_HEADER_LEN
  const UDP_HEADER_LEN: nat := 8
  const MIN_UDP_FRAME_LEN: nat := IPV4_MIN_FRAME_LEN + UDP_HEADER_LEN

  /** The bins the stack sorts inbound frames into (the thirteen bins
      lib.rs uses). */
  datatype FilterBin =
    | DropNoise | DropEType | DropDhcp | DropMulti | DropProto | DropFrag
    | DropIpCk | DropUdpCk | Arp | Icmp | Dhcp | Udp | ComFwd

  /** The big-endian 16-bit words of `b`, two bytes at a time; an odd last
      byte is ignored (`chunks_exact(2)`). */
  function Words16(b: seq<u8>): (r: seq<u16>)
    ensures |r| == |b| / 2
    ensures forall k :: 0 <= k < |r| ==> r[k] == Be16(b[2 * k], b[2 * k + 1])
    decreases |b|
  {
    if |b| < 2 then [] else [Be16(b[0], b[1])] + Words16(b[2..])
  }

  /** `a + b` with the carry out of bit 15 added back in (`overflowing_add`
      followed by `n + 1` on overflow). */
  function OnesAdd(a: u16, b: u16): (r: u16)
    ensures r % 0xFFFF == (a + b) % 0xFFFF
  {
    if a + b > 0xFFFF then a + b - 0xFFFF else a + b
  }

  /** The end-around-carry sum of `ws`, starting from `init`, in the order
      the source adds them. */
  function OnesSum(init: u16, ws: seq<u16>): u16
    decreases |ws|
  {
    if |ws| == 0 then init else OnesSum(OnesAdd(init, ws[0]), ws[1..])
  }

  /** The plain integer sum. */
  function Total(ws: seq<u16>): nat
    decreases |ws|
  {
    if |ws| == 0 then 0 else ws[0] + Total(ws[1..])
  }

  /** The one's-complement sum is the integer sum modulo 0xFFFF, which is the
      arithmetic RFC 1071 section 1 describes. */
  lemma {:induction false} OnesSumIsSumMod(init: u16, ws: seq<u16>)
    ensures OnesSum(init, ws) % 0xFFFF == (init + Total(ws)) % 0xFFFF
    decreases |ws|
  {
    if |ws| > 0 {
      var next := OnesAdd(init, ws[0]);
      OnesSumIsSumMod(next, ws[1..]);
      ModAddCongruent(next, init + ws[0], Total(ws[1..]));
    }
  }

  lemma ModAddCongruent(a: int, b: int, c: int)
    requires a % 0xFFFF == b % 0xFFFF
    ensures (a + c) % 0xFFFF == (b + c) % 0xFFFF
  {
    var q := (a - b) / 0xFFFF;
    assert a - b == q * 0xFFFF;
    assert a + c == (b + c) + q * 0xFFFF;
  }

  /** The header words `ipv4_checksum` adds: bytes 14..24 and 26..34, which
      skips the checksum field at 24..26. */
  function Ipv4HeaderWords(data: seq<u8>): seq<u16>
    requires |data| >= IPV4_MIN_FRAME_LEN
  {
    Words16(data[14..24]) + Words16(data[26..34])
  }

  /** The value `ipv4_checksum` returns: the complement (`!sum`) of the sum. */
  function Ipv4ChecksumOf(data: seq<u8>): u16
    requires |data| >= IPV4_MIN_FRAME_LEN
  {
    U16_MAX - OnesSum(0, Ipv4HeaderWords(data))
  }

  /** The words `ipv4_udp_checksum` adds after the protocol constant 0x0011:
      source and destination address, UDP length, the UDP header up to the
      checksum field, the rest of the datagram and a zero-padded odd byte. */
  function UdpWords(data: seq<u8>): seq<u16>
    requires |data| >= MIN_UDP_FRAME_LEN
  {
    var udp := data[IPV4_MIN_FRAME_LEN..];
    var post := udp[8..];
    var tail := if |post| % 2 == 0 then [0, 0] else [post[|post| - 1], 0];
    Words16(data[26..34]) + Words16(udp[4..6])
      + Words16(udp[..6]) + Words16(post) + Words16(tail)
  }

  function UdpChecksumOf(data: seq<u8>): u16
    requires |data| >= MIN_UDP_FRAME_LEN
  {
    U16_MAX - OnesSum(0x0011, UdpWords(data))
  }

  /** `ipv4_checksum`: the accumulator loop over the header words. */
  method Ipv4Checksum(data: seq<u8>) returns (csum: u16)
    requires |data| >= IPV4_MIN_FRAME_LEN
    ensures csum == Ipv4ChecksumOf(data)
  {
    var words := Ipv4HeaderWords(data);
    var sum := SumLoop(0, words);
    csum := U16_MAX - sum;
  }

  /** `ipv4_udp_checksum`: the same loop over the pseudo-header and datagram. */
  method Ipv4UdpChecksum(data: seq<u8>) returns (csum: u16)
    requires |data| >= MIN_UDP_FRAME_LEN
    ensures csum == UdpChecksumOf(data)
  {
    var words := UdpWords(data);
    var sum := SumLoop(0x0011, words);
    csum := U16_MAX - sum;
  }

  /** The `for c in ...` loop shared by both checksums. */
  method SumLoop(init: u16, words: seq<u16>) returns (sum: u16)
    ensures sum == OnesSum(init, words)
    ensures sum % 0xFFFF == (init + Total(words)) % 0xFFFF
  {
    sum := init;
    var i := 0;
    while i < |words|
      invariant 0 <= i <= |words|
      invariant OnesSum(sum, words[i..]) == OnesSum(init, words)
    {
      assert words[i..][1..] == words[i + 1..];
      sum := OnesAdd(sum, words[i]);
      i := i + 1;
    }
    assert words[i..] == [];
    OnesSumIsSumMod(init, words);
  }

  /** `data` with the big-endian bytes of `v` written at `pos`, `pos + 1`. */
  function WithBe16At(data: seq<u8>, pos: nat, v: u16): (r: seq<u8>)
    requires pos + 2 <= |data|
    ensures |r| == |data| && Be16(r[pos], r[pos + 1]) == v
    ensures forall k :: 0 <= k < |data| && k != pos && k != pos + 1 ==> r[k] == data[k]
  {
    data[..pos] + Be16Bytes(v) + data[pos + 2..]
  }

  /** Writing two bytes at `pos` leaves any slice clear of them alone. */
  lemma WithBe16AtKeeps(data: seq<u8>, pos: nat, v: u16, lo: nat, hi: nat)
    requires pos + 2 <= |data| && lo <= hi <= |data| && (hi <= pos || pos + 2 <= lo)
    ensures WithBe16At(data, pos, v)[lo..hi] == data[lo..hi]
  {
    var d := WithBe16At(data, pos, v);
    forall j | 0 <= j < hi - lo
      ensures d[lo..hi][j] == data[lo..hi][j]
    {
      assert d[lo + j] == data[lo + j];
    }
  }

  /** `ipv4_checksum` never reads bytes 24..26, so writing the checksum there
      does not change it. */
  lemma Ipv4ChecksumSkipsField(data: seq<u8>, v: u16)
    requires |data| >= IPV4_MIN_FRAME_LEN
    ensures Ipv4ChecksumOf(WithBe16At(data, 24, v)) == Ipv4ChecksumOf(data)
  {
    WithBe16AtKeeps(data, 24, v, 14, 24);
    WithBe16AtKeeps(data, 24, v, 26, 34);
  }

  /** The UDP checksum reads neither the IPv4 checksum field (24..26) nor its
      own field (40..42). */
  lemma UdpChecksumSkipsFields(data: seq<u8>, pos: nat, v: u16)
    requires |data| >= MIN_UDP_FRAME_LEN
    requires pos == 24 || pos == 40
    ensures UdpChecksumOf(WithBe16At(data, pos, v)) == UdpChecksumOf(data)
  {
    var d := WithBe16At(data, pos, v);
    var udp, udp' := data[IPV4_MIN_FRAME_LEN..], d[IPV4_MIN_FRAME_LEN..];
    WithBe16AtKeeps(data, pos, v, 26, 34);
    WithBe16AtKeeps(data, pos, v, 34, 40);
    WithBe16AtKeeps(data, pos, v, 42, |data|);
    assert udp'[..6] == d[34..40] && udp[..6] == data[34..40];
    assert udp'[4..6] == d[34..40][4..6] && udp[4..6] == data[34..40][4..6];
    assert udp'[8..] == d[42..|data|] && udp[8..] == data[42..|data|];
  }

  /** Writing the IPv4 checksum at 24..26 and then the UDP checksum at 40..42,
      as the DHCP frame builders do, yields a frame whose stored checksums
      both equal the values the receive path computes. */
  lemma ChecksumFixupsVerify(data: seq<u8>)
    requires |data| >= MIN_UDP_FRAME_LEN
    ensures var d1 := WithBe16At(data, 24, Ipv4ChecksumOf(data));
            var d2 := WithBe16At(d1, 40, UdpChecksumOf(d1));
            Ipv4ChecksumOf(d2) == Be16(d2[24], d2[25])
            && UdpChecksumOf(d2) == Be16(d2[40], d2[41])
  {
    var d1 := WithBe16At(data, 24, Ipv4ChecksumOf(data));
    var d2 := WithBe16At(d1, 40, UdpChecksumOf(d1));
    Ipv4ChecksumSkipsField(data, Ipv4ChecksumOf(data));
    WithBe16AtKeeps(d1, 40, UdpChecksumOf(d1), 14, 24);
    WithBe16AtKeeps(d1, 40, UdpChecksumOf(d1), 26, 34);
    UdpChecksumSkipsFields(d1, 40, UdpChecksumOf(d1));
  }
}
