/** The DHCP client of sw/net/src/dhcp.rs: the client state machine of
    RFC 2131 section 4.4 (without INIT-REBOOT and REBOOTING, and with a
    Halted state for power-up and failures), the T1/T2 rules of RFC 2131
    section 4.4.5, and the byte-exact DHCPDISCOVER and DHCPREQUEST frames.

    The clock is a parameter: `now` is the current time in milliseconds. The
    countdown and stopwatch types the client uses are modelled by the values
    below (their implementation is not part of this model). */
module Dhcp {
  import opened Wrappers
  import opened Bits
  import opened NetFrame
  import opened DhcpOptions
  import RT = RetryTimers
  import opened SeqFacts

  const DHCP_HEADER_LEN: nat := 241
  const MIN_DHCP_FRAME_LEN: nat := MIN_UDP_FRAME_LEN + DHCP_HEADER_LEN
  const DHCP_FRAME_LEN: nat := 342
  /** MAC, IPv4, UDP and BOOTP headers up to the options field. */
  const HEADERS_LEN: nat := 278
  const COOKIE: seq<u8> := [0x63, 0x82, 0x53, 0x63]

  datatype State = Halted | Init | Selecting | Requesting | Bound | Renewing | Rebinding

  datatype PacketNeeded = Discover | Request | Renew | Rebind | NoPacket

  datatype DhcpEvent = ChangedToBound | ChangedToHalted

  datatype RequestType = Discover | Renew | Rebind

  /** A countdown is the absolute time, in milliseconds, at which it is done;
      cleared and never-started countdowns have none. */
  datatype Countdown = Countdown(due: Option<nat>)

  datatype CountdownStatus = NotStarted | NotDone | Done

  const CLEARED: Countdown := Countdown(None)

  function CountdownStatusAt(t: Countdown, now: nat): CountdownStatus {
    match t.due
    case None => CountdownStatus.NotStarted
    case Some(due) => if now >= due then Done else NotDone
  }

  /** `start_s(s)`: done `s` seconds from now. */
  function StartS(s: nat, now: nat): (t: Countdown)
    ensures CountdownStatusAt(t, now) == (if s == 0 then Done else NotDone)
  {
    Countdown(Some(now + 1000 * s))
  }

  /** A stopwatch is its start time, if started. */
  datatype Stopwatch = Stopwatch(start: Option<nat>)

  datatype StopwatchErr = Overflow | Underflow | NotStarted

  /** Whole seconds since the stopwatch started, as a `u32`. */
  function ElapsedS(sw: Stopwatch, now: nat): Result<u32, StopwatchErr> {
    match sw.start
    case None => Err(StopwatchErr.NotStarted)
    case Some(start) =>
      if now < start then Err(Underflow)
      else if (now - start) / 1000 > U32_MAX then Err(Overflow)
      else Ok((now - start) / 1000)
  }

  /** The whole client state as a value. The hostname is the byte string
      the client's `Hostname` holds (`as_bytes`). */
  datatype Client = Client(
    entropy0: u32,
    entropy1: u32,
    latch: Option<DhcpEvent>,
    t1: Countdown,
    t2: Countdown,
    tLease: Countdown,
    hostname: seq<u8>,
    state: State,
    secs: Stopwatch,
    retry: RT.RetryTimer,
    xid: Option<u32>,
    sid: Option<u32>,
    ip: Option<u32>,
    subnet: Option<u32>,
    gateway: Option<u32>,
    gatewayMac: Option<seq<u8>>,
    leaseSec: Option<u32>,
    dns: Option<u32>)

  /** `DhcpClient::new`: halted, nothing bound, a blank one-byte hostname. */
  function NewClient(): Client {
    Client(0, 0, None, CLEARED, CLEARED, CLEARED, [0], Halted, Stopwatch(None),
           RT.NewHalted(), None, None, None, None, None, None, None, None)
  }

  /** What the client always keeps true: a hostname that fits its 63-byte
      buffer, a six-byte gateway MAC, a consistent retry timer, an address
      only together with the server and gateway MAC it came with, and an
      address in every state past Selecting. */
  predicate Consistent(c: Client) {
    && |c.hostname| <= 63
    && (c.gatewayMac.Some? ==> |c.gatewayMac.value| == 6)
    && RT.Consistent(c.retry)
    && (c.ip.Some? ==> c.sid.Some? && c.gatewayMac.Some?)
    && (c.state in {Requesting, Bound, Renewing, Rebinding} ==> c.ip.Some?)
  }

  /** `reset_bindings`: forget what the last DHCPOFFER bound and stop the
      lease timers. The gateway MAC and the xid are kept. */
  function ResetBindingsOf(c: Client): Client {
    Client(c.entropy0, c.entropy1, c.latch, CLEARED, CLEARED, CLEARED, c.hostname, c.state, c.secs, c.retry,
           c.xid, None, None, None, None, c.gatewayMac, None, None)
  }

  function HaltAndResetOf(c: Client): Client {
    ResetBindingsOf(c.(state := Halted, latch := Some(ChangedToHalted), secs := Stopwatch(None)))
  }

  /** `begin_at_init`: keep two entropy words for the retry offsets, take the
      xid from the fifth, and start over at Init with no bindings. */
  function BeginAtInitOf(c: Client, entropy: seq<u32>): Client
    requires |entropy| == 5
  {
    ResetBindingsOf(c.(entropy0 := entropy[0], entropy1 := entropy[1], state := Init,
                       secs := Stopwatch(None), retry := RT.NewHalted(), xid := Some(entropy[4])))
  }

  /** `pop_and_ack_change_event`: hand out the latched event and clear it. */
  function PopEventOf(c: Client): (Client, Option<DhcpEvent>) {
    (c.(latch := None), c.latch)
  }

  /** `cycle_clock`: one step of the state machine at time `now`, and the
      frame to send, if any. */
  function CycleClockOf(c: Client, now: nat): (Client, PacketNeeded) {
    match c.state
    case Halted => (c, NoPacket)
    case Init =>
      (c.(secs := Stopwatch(Some(now)), retry := RT.NewFirstRandom(c.entropy0, now), state := Selecting),
       PacketNeeded.Discover)
    case Selecting =>
      if c.ip.Some? then
        (c.(state := Requesting, retry := RT.NewFirstRandom(c.entropy1, now)), Request)
      else
        (match RT.Status(c.retry, now)
         case Halted => (HaltAndResetOf(c), NoPacket)
         case TimerRunning => (c, NoPacket)
         case TimerExpired => (c.(retry := RT.ScheduleNext(c.retry, c.entropy0, now)), PacketNeeded.Discover))
    case Requesting =>
      (match RT.Status(c.retry, now)
       case Halted => (HaltAndResetOf(c), NoPacket)
       case TimerRunning => (c, NoPacket)
       case TimerExpired => (c.(retry := RT.ScheduleNext(c.retry, c.entropy1, now)), Request))
    case Bound =>
      if CountdownStatusAt(c.t1, now) == Done then
        (c.(t1 := CLEARED, state := Renewing, retry := RT.NewFirstRandom(c.entropy1, now),
            secs := Stopwatch(Some(now))), PacketNeeded.Renew)
      else (c, NoPacket)
    case Renewing =>
      if CountdownStatusAt(c.t2, now) == Done then
        (c.(t2 := CLEARED, state := Rebinding, retry := RT.NewFirstRandom(c.entropy1, now),
            secs := Stopwatch(Some(now))), PacketNeeded.Rebind)
      else if RT.Status(c.retry, now) == RT.TimerExpired then
        (c.(retry := RT.ScheduleNext(c.retry, c.entropy1, now)), PacketNeeded.Renew)
      else (c, NoPacket)
    case Rebinding =>
      if CountdownStatusAt(c.tLease, now) == Done then
        (ResetBindingsOf(c).(state := Halted, latch := Some(ChangedToHalted)), NoPacket)
      else if RT.Status(c.retry, now) == RT.TimerExpired then
        (c.(retry := RT.ScheduleNext(c.retry, c.entropy1, now)), PacketNeeded.Rebind)
      else (c, NoPacket)
  }

  /** `handle_offer`: record the offered bindings, in Selecting only. */
  function HandleOfferOf(c: Client, sid: u32, ip: u32, gw: u32, gwm: seq<u8>, ls: u32, sn: u32, dns: u32): Client {
    if c.state == Selecting then
      c.(sid := Some(sid), ip := Some(ip), gateway := Some(gw), gatewayMac := Some(gwm),
         leaseSec := Some(ls), subnet := Some(sn), dns := Some(dns))
    else c
  }

  /** The T1, T2 and lease-timer durations in seconds: `lease >> 1`,
      `(lease * 7) >> 3` and `(lease * 15) >> 4`, computed in 64 bits so none
      is truncated. */
  function T1Secs(lease: u32): nat { lease / 2 }
  function T2Secs(lease: u32): nat { lease * 7 / 8 }
  function LeaseTimerSecs(lease: u32): nat { lease * 15 / 16 }

  /** `handle_ack`: in Requesting, Renewing or Rebinding, arm the three
      timers, enter Bound and latch ChangedToBound. */
  function HandleAckOf(c: Client, lease: u32, now: nat): Client {
    if c.state in {Requesting, Renewing, Rebinding} then
      c.(leaseSec := Some(lease), t1 := StartS(T1Secs(lease), now), t2 := StartS(T2Secs(lease), now),
         tLease := StartS(LeaseTimerSecs(lease), now), state := Bound, latch := Some(ChangedToBound))
    else c
  }

  /** `handle_nak`: Requesting starts over at Init; Renewing and Rebinding
      give up and halt. */
  function HandleNakOf(c: Client): Client {
    match c.state
    case Requesting => ResetBindingsOf(c).(state := Init)
    case Renewing => ResetBindingsOf(c).(state := Halted, latch := Some(ChangedToHalted))
    case Rebinding => ResetBindingsOf(c).(state := Halted, latch := Some(ChangedToHalted))
    case _ => c
  }

  const DHCPOFFER: u8 := 2
  const DHCPACK: u8 := 5
  const DHCPNAK: u8 := 6

  /** The client after the parsed options of a reply with address `yiaddr`
      from a server at MAC `gwm`, and the bin the frame goes in. */
  function DispatchReply(c: Client, opts: DhcpOption, yiaddr: u32, gwm: seq<u8>, now: nat): (Client, FilterBin) {
    if opts.msgType == Some(DHCPOFFER) && opts.serverId.Some? && opts.gateway.Some?
       && opts.ipLeaseTime.Some? && opts.subnet.Some? && opts.dns.Some? then
      (HandleOfferOf(c, opts.serverId.value, yiaddr, opts.gateway.value, gwm,
                     opts.ipLeaseTime.value, opts.subnet.value, opts.dns.value), FilterBin.Dhcp)
    else if opts.msgType == Some(DHCPACK) && opts.ipLeaseTime.Some? then
      (HandleAckOf(c, opts.ipLeaseTime.value, now), FilterBin.Dhcp)
    else if opts.msgType == Some(DHCPNAK) then
      (HandleNakOf(c), FilterBin.Dhcp)
    else (c, DropDhcp)
  }

  /** Whether the client waits for a server reply in state `s`. */
  predicate ExpectsReply(s: State) {
    s in {Selecting, Requesting, Renewing, Rebinding}
  }

  /** `handle_frame`: accept a BOOTREPLY for Ethernet with our xid and the
      options magic cookie, and act on a DHCPOFFER carrying all five of
      server id, gateway, lease time, subnet and DNS, on a DHCPACK with a
      lease time, or on a DHCPNAK. Everything else is DropDhcp. */
  function HandleFrameOf(c: Client, data: seq<u8>, now: nat): (Client, FilterBin) {
    if |data| < MIN_DHCP_FRAME_LEN || !ExpectsReply(c.state) then (c, DropDhcp)
    else
      var dhcp := data[MIN_UDP_FRAME_LEN..];
      if dhcp[0..3] != [2, 1, 6] || c.xid != Some(Be32(dhcp[4..8])) || dhcp[236..240] != COOKIE then
        (c, DropDhcp)
      else
        match Parse(dhcp[240..])
        case Err(_) => (c, DropDhcp)
        case Ok(opts) => DispatchReply(c, opts, Be32(dhcp[16..20]), data[6..12], now)
  }

  /** `n` zero bytes. */
  function Zeros(n: nat): (r: seq<u8>)
    ensures |r| == n && forall k :: 0 <= k < n ==> r[k] == 0
  {
    seq(n, _ => 0)
  }

  /** `bytes` cut or zero-padded to exactly `n` bytes, as zipping an iterator
      chain that ends in an endless zero pad into an `n`-byte buffer does. */
  function Fill(bytes: seq<u8>, n: nat): (r: seq<u8>)
    ensures |r| == n
  {
    if |bytes| >= n then bytes[..n] else bytes + Zeros(n - |bytes|)
  }

  /** The Ethernet header: destination, source, EtherType IPv4. */
  function EthHeader(dstMac: seq<u8>, srcMac: seq<u8>): (r: seq<u8>)
    requires |srcMac| == 6 && |dstMac| == 6
    ensures |r| == MAC_HEADER_LEN
  {
    dstMac + srcMac + [8, 0]
  }

  /** The IPv4 header: version 4, 20 bytes, total length 0x0148 (the frame
      less its Ethernet header), TTL 255, protocol 17, checksum left zero. */
  function Ipv4Header(ipId: u16, ipSrc: u32, ipDst: u32): (r: seq<u8>)
    ensures |r| == IPV4_MIN_HEADER_LEN
  {
    [0x45, 0x00, 0x01, 0x48] + Be16Bytes(ipId) + [0x00, 0x00] + [255, 17, 0, 0]
    + Be32Bytes(ipSrc) + Be32Bytes(ipDst)
  }

  /** The UDP header: port 68 to port 67, length 0x0134 (the frame less its
      Ethernet and IPv4 headers), checksum left zero. */
  const UDP_HEADER: seq<u8> := [0, 68, 0, 67, 0x01, 0x34, 0, 0]

  /** The BOOTP header: a BOOTREQUEST for a six-byte Ethernet address with
      `xid`, `secs` and `ciaddr`, the client MAC in `chaddr`, every other field
      zero. */
  function BootpHeader(srcMac: seq<u8>, ciaddr: u32, xid: u32, secs: u16): (r: seq<u8>)
    requires |srcMac| == 6
    ensures |r| == 236
  {
    [1, 1, 6, 0] + Be32Bytes(xid) + Be16Bytes(secs) + [0, 0]
    + Be32Bytes(ciaddr) + Zeros(12) + srcMac + Zeros(10) + Zeros(64 + 128)
  }

  /** The fields of each header that the server reads back. */
  lemma HeaderFields(srcMac: seq<u8>, dstMac: seq<u8>, ciaddr: u32, ipId: u16, ipSrc: u32, ipDst: u32,
                     xid: u32, secs: u16)
    requires |srcMac| == 6 && |dstMac| == 6
    ensures var e := EthHeader(dstMac, srcMac);
            e[..6] == dstMac && e[6..12] == srcMac && e[12..] == [8, 0]
    ensures var i := Ipv4Header(ipId, ipSrc, ipDst);
            && i[..4] == [0x45, 0x00, 0x01, 0x48] && i[8..12] == [255, 17, 0, 0]
            && i[12..16] == Be32Bytes(ipSrc) && i[16..] == Be32Bytes(ipDst)
    ensures var b := BootpHeader(srcMac, ciaddr, xid, secs);
            && b[..4] == [1, 1, 6, 0] && b[4..8] == Be32Bytes(xid)
            && b[12..16] == Be32Bytes(ciaddr) && b[28..34] == srcMac
  {
    EthFields(srcMac, dstMac);
    Ipv4Fields(ipId, ipSrc, ipDst);
    BootpFields(srcMac, ciaddr, xid, secs);
  }

  lemma EthFields(srcMac: seq<u8>, dstMac: seq<u8>)
    requires |srcMac| == 6 && |dstMac| == 6
    ensures var e := EthHeader(dstMac, srcMac);
            e[..6] == dstMac && e[6..12] == srcMac && e[12..] == [8, 0]
  {
    var e := EthHeader(dstMac, srcMac);
    assert e == dstMac + srcMac + [8, 0];
  }

  lemma Ipv4Fields(ipId: u16, ipSrc: u32, ipDst: u32)
    ensures var i := Ipv4Header(ipId, ipSrc, ipDst);
            && i[..4] == [0x45, 0x00, 0x01, 0x48] && i[8..12] == [255, 17, 0, 0]
            && i[12..16] == Be32Bytes(ipSrc) && i[16..] == Be32Bytes(ipDst)
  {
    var front := [0x45, 0x00, 0x01, 0x48] + Be16Bytes(ipId) + [0x00, 0x00] + [255, 17, 0, 0];
    var i := Ipv4Header(ipId, ipSrc, ipDst);
    assert i == front + Be32Bytes(ipSrc) + Be32Bytes(ipDst);
    assert |front| == 12;
  }

  lemma BootpFields(srcMac: seq<u8>, ciaddr: u32, xid: u32, secs: u16)
    requires |srcMac| == 6
    ensures var b := BootpHeader(srcMac, ciaddr, xid, secs);
            && b[..4] == [1, 1, 6, 0] && b[4..8] == Be32Bytes(xid)
            && b[12..16] == Be32Bytes(ciaddr) && b[28..34] == srcMac
  {
    var head := [1, 1, 6, 0] + Be32Bytes(xid) + Be16Bytes(secs) + [0, 0];
    var front := head + Be32Bytes(ciaddr) + Zeros(12);
    var b := BootpHeader(srcMac, ciaddr, xid, secs);
    assert b == front + srcMac + Zeros(10) + Zeros(64 + 128);
    assert |head| == 12 && |front| == 28;
    assert b[..28] == front;
    assert front[..12] == head;
    assert b[28..34] == srcMac;
  }

  /** The Ethernet, IPv4, UDP and BOOTP headers `build_dhcp_headers` writes. */
  function DhcpHeaders(srcMac: seq<u8>, dstMac: seq<u8>, ciaddr: u32, ipId: u16, ipSrc: u32, ipDst: u32,
                       xid: u32, secs: u16): (r: seq<u8>)
    requires |srcMac| == 6 && |dstMac| == 6
    ensures |r| == HEADERS_LEN
  {
    EthHeader(dstMac, srcMac) + Ipv4Header(ipId, ipSrc, ipDst) + UDP_HEADER + BootpHeader(srcMac, ciaddr, xid, secs)
  }

  /** The client fields the frame builders read. */
  datatype FrameInputs = FrameInputs(xid: Option<u32>, secs: Stopwatch, hostname: seq<u8>,
                                     gatewayMac: Option<seq<u8>>, ip: Option<u32>, sid: Option<u32>)

  function InputsOf(c: Client): FrameInputs {
    FrameInputs(c.xid, c.secs, c.hostname, c.gatewayMac, c.ip, c.sid)
  }

  /** What the frame builders need of the client: a hostname that fits its
      length byte and a six-byte gateway MAC. */
  predicate Buildable(v: FrameInputs) {
    |v.hostname| < 0x100 && (v.gatewayMac.Some? ==> |v.gatewayMac.value| == 6)
  }

  /** The xid and the `secs` field (elapsed seconds truncated to 16 bits) the
      headers need, or the error code `build_dhcp_headers` returns. */
  function HeaderFieldsOf(c: FrameInputs, now: nat): (r: Result<(u32, u16), u8>)
    ensures r.Err? <==> c.xid.None? || ElapsedS(c.secs, now).Err?
    ensures r.Err? && c.xid.None? ==> r.error == 0x04
    ensures r.Err? && c.xid.Some? ==> r.error in {0x05, 0x06, 0x07}
  {
    match c.xid
    case None => Err(0x04)
    case Some(xid) =>
      match ElapsedS(c.secs, now)
      case Ok(s) => Ok((xid, s % 0x1_0000))
      case Err(Overflow) => Err(0x05)
      case Err(Underflow) => Err(0x06)
      case Err(NotStarted) => Err(0x07)
  }

  /** The frame with the IPv4 header checksum written at 24..26 and then the
      UDP checksum at 40..42. */
  function WithChecksums(f: seq<u8>): (r: seq<u8>)
    requires |f| >= MIN_UDP_FRAME_LEN
    ensures |r| == |f|
  {
    var d1 := WithBe16At(f, 24, Ipv4ChecksumOf(f));
    WithBe16At(d1, 40, UdpChecksumOf(d1))
  }

  /** Writing the checksums changes no byte outside the two checksum fields. */
  lemma ChecksumsTouchOnlyTheirFields(f: seq<u8>)
    requires |f| >= MIN_UDP_FRAME_LEN
    ensures var r := WithChecksums(f);
            r[..24] == f[..24] && r[26..40] == f[26..40] && r[42..] == f[42..]
  {
    var r := WithChecksums(f);
    assert r[..24] == f[..24] && r[26..40] == f[26..40] && r[42..] == f[42..];
  }

  /** Any range clear of both checksum fields is left as it was. */
  lemma ChecksumsKeep(f: seq<u8>, lo: nat, hi: nat)
    requires |f| >= MIN_UDP_FRAME_LEN && lo <= hi <= |f|
    requires hi <= 24 || (26 <= lo && hi <= 40) || 42 <= lo
    ensures WithChecksums(f)[lo..hi] == f[lo..hi]
  {
    var d1 := WithBe16At(f, 24, Ipv4ChecksumOf(f));
    WithBe16AtKeeps(f, 24, Ipv4ChecksumOf(f), lo, hi);
    WithBe16AtKeeps(d1, 40, UdpChecksumOf(d1), lo, hi);
  }

  /** DHCPDISCOVER options: the magic cookie, message type 1, the parameter
      request list (1, 121, 3, 6, 15, 119, 252), maximum message size 1500,
      client id (type 1 and the MAC), requested lease 0x0076A700 seconds and
      the hostname, then the end option. */
  function DiscoverOptions(srcMac: seq<u8>, hostname: seq<u8>): seq<u8>
    requires |srcMac| == 6 && |hostname| < 0x100
  {
    COOKIE + [53, 1, 1, 55, 7, 1, 121, 3, 6, 15, 119, 252, 57, 2, 0x05, 0xdc, 61, 7, 1] + srcMac
    + [51, 4, 0x00, 0x76, 0xa7, 0x00, 12, |hostname|] + hostname + [255]
  }

  /** DHCPREQUEST options: as DHCPDISCOVER but message type 3, no lease time,
      and the requested address (50) and server id (54) only in the
      Selecting-state request; RFC 2131 section 4.3.2 forbids them when
      renewing or rebinding. */
  function RequestOptions(srcMac: seq<u8>, hostname: seq<u8>, rt: RequestType, ip: u32, sid: u32): seq<u8>
    requires |srcMac| == 6 && |hostname| < 0x100
  {
    COOKIE + [53, 1, 3, 55, 7, 1, 121, 3, 6, 15, 119, 252, 57, 2, 0x05, 0xdc, 61, 7, 1] + srcMac
    + RequestBindingBytes(rt, ip, sid) + [12, |hostname|] + hostname + [255]
  }

  /** The requested address (50) and server id (54) options, present only
      when answering an offer. */
  function RequestBindingBytes(rt: RequestType, ip: u32, sid: u32): seq<u8> {
    if rt == RequestType.Discover then [50, 4] + Be32Bytes(ip) + [54, 4] + Be32Bytes(sid) else []
  }

  /** A whole frame: the headers, the 64 option bytes and both checksums,
      or the header error. */
  function FrameOf(c: FrameInputs, srcMac: seq<u8>, dstMac: seq<u8>, ciaddr: u32, ipId: u16, ipSrc: u32, ipDst: u32,
                   options: seq<u8>, now: nat): (r: Result<seq<u8>, u8>)
    requires |srcMac| == 6 && |dstMac| == 6 && |options| == DHCP_FRAME_LEN - HEADERS_LEN
    ensures r.Err? <==> HeaderFieldsOf(c, now).Err?
  {
    match HeaderFieldsOf(c, now)
    case Err(e) => Err(e)
    case Ok((xid, secs)) =>
      Ok(WithChecksums(DhcpHeaders(srcMac, dstMac, ciaddr, ipId, ipSrc, ipDst, xid, secs) + options))
  }

  const BROADCAST_MAC: seq<u8> := [255, 255, 255, 255, 255, 255]

  /** The 342-byte DHCPDISCOVER `build_discover_frame` writes into a buffer of
      `bufLen` bytes, or its error code. */
  function DiscoverFrameOf(c: FrameInputs, bufLen: nat, srcMac: seq<u8>, ipId: u16, now: nat): (r: Result<seq<u8>, u8>)
    requires Buildable(c) && |srcMac| == 6
    ensures r.Err? <==> bufLen < DHCP_FRAME_LEN || HeaderFieldsOf(c, now).Err?
    ensures bufLen < DHCP_FRAME_LEN ==> r == Err(0x08)
  {
    if bufLen < DHCP_FRAME_LEN then Err(0x08)
    else
      FrameOf(c, srcMac, BROADCAST_MAC, 0, ipId, 0, 0xFFFF_FFFF, Fill(DiscoverOptions(srcMac, c.hostname), DHCP_FRAME_LEN - HEADERS_LEN), now)
  }

  /** The addresses of a DHCPREQUEST: unicast to the server when renewing,
      broadcast otherwise, with `ciaddr` set when renewing or rebinding.
      Returns (destination MAC, ciaddr, IPv4 source, IPv4 destination). */
  function RequestAddresses(rt: RequestType, gwm: seq<u8>, ip: u32, sid: u32): (seq<u8>, u32, u32, u32) {
    match rt
    case Renew => (gwm, ip, ip, sid)
    case Rebind => (BROADCAST_MAC, ip, 0, 0xFFFF_FFFF)
    case Discover => (BROADCAST_MAC, 0, 0, 0xFFFF_FFFF)
  }

  /** The 342-byte DHCPREQUEST `build_request_frame` writes, or its error
      code: 0x09 for a short buffer, 0x0A without a gateway MAC, address and
      server id, then the header errors. */
  function RequestFrameOf(c: FrameInputs, bufLen: nat, srcMac: seq<u8>, rt: RequestType, ipId: u16, now: nat): (r: Result<seq<u8>, u8>)
    requires Buildable(c) && |srcMac| == 6
    ensures r.Err? <==> bufLen < DHCP_FRAME_LEN || c.gatewayMac.None? || c.ip.None? || c.sid.None? || HeaderFieldsOf(c, now).Err?
    ensures bufLen < DHCP_FRAME_LEN ==> r == Err(0x09)
    ensures bufLen >= DHCP_FRAME_LEN && (c.gatewayMac.None? || c.ip.None? || c.sid.None?) ==> r == Err(0x0A)
  {
    if bufLen < DHCP_FRAME_LEN then Err(0x09)
    else if c.gatewayMac.None? || c.ip.None? || c.sid.None? then Err(0x0A)
    else
      var (dstMac, ciaddr, ipSrc, ipDst) := RequestAddresses(rt, c.gatewayMac.value, c.ip.value, c.sid.value);
      var options := RequestOptions(srcMac, c.hostname, rt, c.ip.value, c.sid.value);
      FrameOf(c, srcMac, dstMac, ciaddr, ipId, ipSrc, ipDst, Fill(options, DHCP_FRAME_LEN - HEADERS_LEN), now)
  }

  class DhcpClient {
    var entropy0: u32
    var entropy1: u32
    var latch: Option<DhcpEvent>
    var t1: Countdown
    var t2: Countdown
    var tLease: Countdown
    var hostname: seq<u8>
    var state: State
    var secs: Stopwatch
    var retry: RT.RetryTimer
    var xid: Option<u32>
    var sid: Option<u32>
    var ip: Option<u32>
    var subnet: Option<u32>
    var gateway: Option<u32>
    var gatewayMac: Option<seq<u8>>
    var leaseSec: Option<u32>
    var dns: Option<u32>

    /** The client's fields as a value. */
    function Snapshot(): Client
      reads this
    {
      Client(entropy0, entropy1, latch, t1, t2, tLease, hostname, state, secs, retry,
             xid, sid, ip, subnet, gateway, gatewayMac, leaseSec, dns)
    }

    /** The fields the frame builders read, as a value. */
    function Inputs(): FrameInputs
      reads this
    {
      FrameInputs(xid, secs, hostname, gatewayMac, ip, sid)
    }

    constructor New()
      ensures Snapshot() == NewClient()
    {
      entropy0, entropy1, latch := 0, 0, None;
      t1, t2, tLease := CLEARED, CLEARED, CLEARED;
      hostname, state, secs, retry := [0], Halted, Stopwatch(None), RT.NewHalted();
      xid, sid, ip, subnet, gateway, gatewayMac, leaseSec, dns := None, None, None, None, None, None, None, None;
    }

    method PopAndAckChangeEvent() returns (e: Option<DhcpEvent>)
      modifies this
      ensures (Snapshot(), e) == PopEventOf(old(Snapshot()))
    {
      e := latch;
      if latch.Some? {
        latch := None;
      }
    }

    method ResetBindings()
      modifies this
      ensures Snapshot() == ResetBindingsOf(old(Snapshot()))
    {
      ClearTimers();
      sid := None;
      ip := None;
      subnet := None;
      gateway := None;
      leaseSec := None;
      dns := None;
    }

    /** The three `clear()` calls of `reset_bindings`. */
    method ClearTimers()
      modifies this
      ensures Snapshot() == old(Snapshot()).(t1 := CLEARED, t2 := CLEARED, tLease := CLEARED)
    {
      t1 := CLEARED;
      t2 := CLEARED;
      tLease := CLEARED;
    }

    method HaltAndReset()
      modifies this
      ensures Snapshot() == HaltAndResetOf(old(Snapshot()))
    {
      ResetBindings();
      state := Halted;
      latch := Some(ChangedToHalted);
      secs := Stopwatch(None);
    }

    method HandleLinkDrop()
      modifies this
      ensures Snapshot() == HaltAndResetOf(old(Snapshot()))
    {
      HaltAndReset();
    }

    method BeginAtInit(entropy: seq<u32>)
      requires |entropy| == 5
      modifies this
      ensures Snapshot() == BeginAtInitOf(old(Snapshot()), entropy)
    {
      ResetBindings();
      entropy0, entropy1 := entropy[0], entropy[1];
      state := Init;
      secs := Stopwatch(None);
      retry := RT.NewHalted();
      xid := Some(entropy[4]);
    }

    method CycleClock(now: nat) returns (p: PacketNeeded)
      modifies this
      ensures (Snapshot(), p) == CycleClockOf(old(Snapshot()), now)
    {
      match state {
        case Halted =>
          p := NoPacket;
        case Init =>
          secs := Stopwatch(Some(now));
          retry := RT.NewFirstRandom(entropy0, now);
          state := Selecting;
          p := PacketNeeded.Discover;
        case Selecting =>
          p := CycleSelecting(now);
        case Requesting =>
          p := CycleRequesting(now);
        case Bound =>
          if CountdownStatusAt(t1, now) == Done {
            t1 := CLEARED;
            state := Renewing;
            retry := RT.NewFirstRandom(entropy1, now);
            secs := Stopwatch(Some(now));
            p := PacketNeeded.Renew;
          } else {
            p := NoPacket;
          }
        case Renewing =>
          p := CycleRenewing(now);
        case Rebinding =>
          p := CycleRebinding(now);
      }
    }

    /** `cycle_clock` in Selecting: request the offer once one is recorded,
        otherwise resend the discover on the retry timer or give up. */
    method CycleSelecting(now: nat) returns (p: PacketNeeded)
      requires state == Selecting
      modifies this
      ensures (Snapshot(), p) == CycleClockOf(old(Snapshot()), now)
    {
      if ip.Some? {
        state := Requesting;
        retry := RT.NewFirstRandom(entropy1, now);
        p := Request;
      } else {
        match RT.Status(retry, now) {
          case Halted =>
            HaltAndReset();
            p := NoPacket;
          case TimerRunning =>
            p := NoPacket;
          case TimerExpired =>
            retry := RT.ScheduleNext(retry, entropy0, now);
            p := PacketNeeded.Discover;
        }
      }
    }

    /** `cycle_clock` in Requesting: resend the request on the retry timer
        or give up. */
    method CycleRequesting(now: nat) returns (p: PacketNeeded)
      requires state == Requesting
      modifies this
      ensures (Snapshot(), p) == CycleClockOf(old(Snapshot()), now)
    {
      match RT.Status(retry, now) {
        case Halted =>
          HaltAndReset();
          p := NoPacket;
        case TimerRunning =>
          p := NoPacket;
        case TimerExpired =>
          retry := RT.ScheduleNext(retry, entropy1, now);
          p := Request;
      }
    }

    /** `cycle_clock` in Renewing: rebind when T2 expires, otherwise resend
        the renewing request on the retry timer. */
    method CycleRenewing(now: nat) returns (p: PacketNeeded)
      requires state == Renewing
      modifies this
      ensures (Snapshot(), p) == CycleClockOf(old(Snapshot()), now)
    {
      if CountdownStatusAt(t2, now) == Done {
        t2 := CLEARED;
        state := Rebinding;
        retry := RT.NewFirstRandom(entropy1, now);
        secs := Stopwatch(Some(now));
        p := PacketNeeded.Rebind;
      } else if RT.Status(retry, now) == RT.TimerExpired {
        retry := RT.ScheduleNext(retry, entropy1, now);
        p := PacketNeeded.Renew;
      } else {
        p := NoPacket;
      }
    }

    /** `cycle_clock` in Rebinding: halt when the lease expires, otherwise
        resend the rebinding request on the retry timer. */
    method CycleRebinding(now: nat) returns (p: PacketNeeded)
      requires state == Rebinding
      modifies this
      ensures (Snapshot(), p) == CycleClockOf(old(Snapshot()), now)
    {
      if CountdownStatusAt(tLease, now) == Done {
        ResetBindings();
        state := Halted;
        latch := Some(ChangedToHalted);
        p := NoPacket;
      } else if RT.Status(retry, now) == RT.TimerExpired {
        retry := RT.ScheduleNext(retry, entropy1, now);
        p := PacketNeeded.Rebind;
      } else {
        p := NoPacket;
      }
    }

    method HandleOffer(sid': u32, ip': u32, gw: u32, gwm: seq<u8>, ls: u32, sn: u32, dns': u32)
      modifies this
      ensures Snapshot() == HandleOfferOf(old(Snapshot()), sid', ip', gw, gwm, ls, sn, dns')
    {
      if state == Selecting {
        sid := Some(sid');
        ip := Some(ip');
        gateway := Some(gw);
        gatewayMac := Some(gwm);
        leaseSec := Some(ls);
        subnet := Some(sn);
        dns := Some(dns');
      }
    }

    method HandleAck(lease: u32, now: nat)
      modifies this
      ensures Snapshot() == HandleAckOf(old(Snapshot()), lease, now)
    {
      if state in {Requesting, Renewing, Rebinding} {
        StartTimers(lease, now);
        leaseSec := Some(lease);
        state := Bound;
        latch := Some(ChangedToBound);
      }
    }

    /** The three `start_s` calls of `handle_ack`. */
    method StartTimers(lease: u32, now: nat)
      modifies this
      ensures Snapshot() == old(Snapshot()).(t1 := StartS(T1Secs(lease), now), t2 := StartS(T2Secs(lease), now),
                                             tLease := StartS(LeaseTimerSecs(lease), now))
    {
      t1 := StartS(T1Secs(lease), now);
      t2 := StartS(T2Secs(lease), now);
      tLease := StartS(LeaseTimerSecs(lease), now);
    }

    method HandleNak()
      modifies this
      ensures Snapshot() == HandleNakOf(old(Snapshot()))
    {
      match state {
        case Requesting =>
          ResetBindings();
          state := Init;
        case Renewing =>
          ResetBindings();
          state := Halted;
          latch := Some(ChangedToHalted);
        case Rebinding =>
          ResetBindings();
          state := Halted;
          latch := Some(ChangedToHalted);
        case _ =>
      }
    }

    method HandleFrame(data: seq<u8>, now: nat) returns (bin: FilterBin)
      modifies this
      ensures (Snapshot(), bin) == HandleFrameOf(old(Snapshot()), data, now)
    {
      if |data| < MIN_DHCP_FRAME_LEN {
        return DropDhcp;
      }
      if !ExpectsReply(state) {
        return DropDhcp;
      }
      var dhcp := data[MIN_UDP_FRAME_LEN..];
      if dhcp[0..3] != [2, 1, 6] {
        return DropDhcp;
      }
      var x := Be32(dhcp[4..8]);
      if xid != Some(x) {
        return DropDhcp;
      }
      var yiaddr := Be32(dhcp[16..20]);
      if dhcp[236..240] != COOKIE {
        return DropDhcp;
      }
      var parsed := ParseOptions(dhcp[240..]);
      if parsed.Err? {
        return DropDhcp;
      }
      var opts := parsed.value;
      if opts.msgType == Some(DHCPOFFER) && opts.serverId.Some? && opts.gateway.Some?
         && opts.ipLeaseTime.Some? && opts.subnet.Some? && opts.dns.Some? {
        HandleOffer(opts.serverId.value, yiaddr, opts.gateway.value, data[6..12],
                    opts.ipLeaseTime.value, opts.subnet.value, opts.dns.value);
        bin := FilterBin.Dhcp;
      } else if opts.msgType == Some(DHCPACK) && opts.ipLeaseTime.Some? {
        HandleAck(opts.ipLeaseTime.value, now);
        bin := FilterBin.Dhcp;
      } else if opts.msgType == Some(DHCPNAK) {
        HandleNak();
        bin := FilterBin.Dhcp;
      } else {
        bin := DropDhcp;
      }
    }

    /** `build_dhcp_headers`: copy the headers into the first 278 bytes of
        `pbuf`, or leave it untouched and return the error code. */
    method BuildDhcpHeaders(pbuf: array<u8>, srcMac: seq<u8>, dstMac: seq<u8>, ciaddr: u32,
                            ipId: u16, ipSrc: u32, ipDst: u32, now: nat) returns (r: Result<nat, u8>)
      requires |srcMac| == 6 && |dstMac| == 6
      modifies pbuf
      ensures pbuf.Length < DHCP_FRAME_LEN ==> r == Err(0x03) && pbuf[..] == old(pbuf[..])
      ensures pbuf.Length >= DHCP_FRAME_LEN ==>
                match HeaderFieldsOf(Inputs(), now)
                case Err(e) => r == Err(e) && pbuf[..] == old(pbuf[..])
                case Ok((x, s)) =>
                  && r == Ok(HEADERS_LEN)
                  && pbuf[..HEADERS_LEN] == DhcpHeaders(srcMac, dstMac, ciaddr, ipId, ipSrc, ipDst, x, s)
                  && pbuf[HEADERS_LEN..] == old(pbuf[HEADERS_LEN..])
    {
      if pbuf.Length < DHCP_FRAME_LEN {
        return Err(0x03);
      }
      var fields := HeaderFieldsOf(Inputs(), now);
      if fields.Err? {
        return Err(fields.error);
      }
      var (x, s) := fields.value;
      var headers := DhcpHeaders(srcMac, dstMac, ciaddr, ipId, ipSrc, ipDst, x, s);
      var k := 0;
      while k < HEADERS_LEN
        invariant 0 <= k <= HEADERS_LEN
        invariant pbuf[..k] == headers[..k]
        invariant pbuf[HEADERS_LEN..] == old(pbuf[HEADERS_LEN..])
      {
        pbuf[k] := headers[k];
        k := k + 1;
      }
      r := Ok(HEADERS_LEN);
    }

    /** Copy `options` after the headers and write both checksums: the tail
        both frame builders share. */
    method FinishFrame(pbuf: array<u8>, options: seq<u8>)
      requires pbuf.Length >= DHCP_FRAME_LEN && |options| == DHCP_FRAME_LEN - HEADERS_LEN
      modifies pbuf
      ensures pbuf[..DHCP_FRAME_LEN] == WithChecksums(old(pbuf[..HEADERS_LEN]) + options)
      ensures pbuf[DHCP_FRAME_LEN..] == old(pbuf[DHCP_FRAME_LEN..])
    {
      ghost var headers := pbuf[..HEADERS_LEN];
      var k := HEADERS_LEN;
      while k < DHCP_FRAME_LEN
        invariant HEADERS_LEN <= k <= DHCP_FRAME_LEN
        invariant pbuf[..HEADERS_LEN] == headers
        invariant pbuf[HEADERS_LEN..k] == options[..k - HEADERS_LEN]
        invariant pbuf[DHCP_FRAME_LEN..] == old(pbuf[DHCP_FRAME_LEN..])
      {
        pbuf[k] := options[k - HEADERS_LEN];
        k := k + 1;
      }
      ghost var f := pbuf[..DHCP_FRAME_LEN];
      assert f == headers + options by {
        assert f[..HEADERS_LEN] == headers;
        assert f[HEADERS_LEN..] == options;
      }
      var ipCsum := Ipv4Checksum(pbuf[..DHCP_FRAME_LEN]);
      StoreBe16(pbuf, 24, ipCsum);
      var udpCsum := Ipv4UdpChecksum(pbuf[..DHCP_FRAME_LEN]);
      StoreBe16(pbuf, 40, udpCsum);
    }

    /** Store `v` big-endian at `pos` and `pos + 1` of the frame. */
    static method StoreBe16(pbuf: array<u8>, pos: nat, v: u16)
      requires pos + 2 <= DHCP_FRAME_LEN <= pbuf.Length
      modifies pbuf
      ensures pbuf[..DHCP_FRAME_LEN] == WithBe16At(old(pbuf[..DHCP_FRAME_LEN]), pos, v)
      ensures pbuf[DHCP_FRAME_LEN..] == old(pbuf[DHCP_FRAME_LEN..])
    {
      ghost var f := pbuf[..DHCP_FRAME_LEN];
      var b := Be16Bytes(v);
      pbuf[pos], pbuf[pos + 1] := b[0], b[1];
      assert pbuf[..DHCP_FRAME_LEN] == f[..pos] + b + f[pos + 2..];
    }

    /** `build_dhcp_headers` followed by the options and both checksums:
        what both frame builders do once the buffer and bindings are
        checked. */
    method WriteFrame(pbuf: array<u8>, srcMac: seq<u8>, dstMac: seq<u8>, ciaddr: u32, ipId: u16, ipSrc: u32, ipDst: u32,
                      options: seq<u8>, now: nat) returns (r: Result<u32, u8>)
      requires pbuf.Length >= DHCP_FRAME_LEN
      requires |srcMac| == 6 && |dstMac| == 6 && |options| == DHCP_FRAME_LEN - HEADERS_LEN
      modifies pbuf
      ensures match FrameOf(Inputs(), srcMac, dstMac, ciaddr, ipId, ipSrc, ipDst, options, now)
              case Err(e) => r == Err(e) && pbuf[..] == old(pbuf[..])
              case Ok(f) =>
                && r == Ok(DHCP_FRAME_LEN)
                && pbuf[..DHCP_FRAME_LEN] == f
                && pbuf[DHCP_FRAME_LEN..] == old(pbuf[DHCP_FRAME_LEN..])
    {
      var headerBytes := BuildDhcpHeaders(pbuf, srcMac, dstMac, ciaddr, ipId, ipSrc, ipDst, now);
      if headerBytes.Err? {
        return Err(headerBytes.error);
      }
      ghost var (x, s) := HeaderFieldsOf(Inputs(), now).value;
      ghost var headers := DhcpHeaders(srcMac, dstMac, ciaddr, ipId, ipSrc, ipDst, x, s);
      assert pbuf[..HEADERS_LEN] == headers;
      assert pbuf[DHCP_FRAME_LEN..] == old(pbuf[DHCP_FRAME_LEN..]) by {
        assert pbuf[DHCP_FRAME_LEN..] == pbuf[HEADERS_LEN..][DHCP_FRAME_LEN - HEADERS_LEN..];
        assert old(pbuf[DHCP_FRAME_LEN..]) == old(pbuf[HEADERS_LEN..])[DHCP_FRAME_LEN - HEADERS_LEN..];
      }
      FinishFrame(pbuf, options);
      assert FrameOf(Inputs(), srcMac, dstMac, ciaddr, ipId, ipSrc, ipDst, options, now)
          == Ok(WithChecksums(headers + options));
      r := Ok(DHCP_FRAME_LEN);
    }

    method BuildDiscoverFrame(pbuf: array<u8>, srcMac: seq<u8>, ipId: u16, now: nat) returns (r: Result<u32, u8>)
      requires Buildable(Inputs()) && |srcMac| == 6
      modifies pbuf
      ensures match DiscoverFrameOf(Inputs(), pbuf.Length, srcMac, ipId, now)
              case Err(e) => r == Err(e) && pbuf[..] == old(pbuf[..])
              case Ok(f) =>
                && r == Ok(DHCP_FRAME_LEN)
                && pbuf[..DHCP_FRAME_LEN] == f
                && pbuf[DHCP_FRAME_LEN..] == old(pbuf[DHCP_FRAME_LEN..])
    {
      if pbuf.Length < DHCP_FRAME_LEN {
        return Err(0x08);
      }
      r := WriteFrame(pbuf, srcMac, BROADCAST_MAC, 0, ipId, 0, 0xFFFF_FFFF,
                      Fill(DiscoverOptions(srcMac, hostname), DHCP_FRAME_LEN - HEADERS_LEN), now);
    }

    method BuildRequestFrame(pbuf: array<u8>, srcMac: seq<u8>, rt: RequestType, ipId: u16, now: nat)
      returns (r: Result<u32, u8>)
      requires Buildable(Inputs()) && |srcMac| == 6
      modifies pbuf
      ensures match RequestFrameOf(Inputs(), pbuf.Length, srcMac, rt, ipId, now)
              case Err(e) => r == Err(e) && pbuf[..] == old(pbuf[..])
              case Ok(f) =>
                && r == Ok(DHCP_FRAME_LEN)
                && pbuf[..DHCP_FRAME_LEN] == f
                && pbuf[DHCP_FRAME_LEN..] == old(pbuf[DHCP_FRAME_LEN..])
    {
      if pbuf.Length < DHCP_FRAME_LEN {
        return Err(0x09);
      }
      if gatewayMac.None? || ip.None? || sid.None? {
        return Err(0x0A);
      }
      var (dstMac, ciaddr, ipSrc, ipDst) := RequestAddresses(rt, gatewayMac.value, ip.value, sid.value);
      var options := RequestOptions(srcMac, hostname, rt, ip.value, sid.value);
      r := WriteFrame(pbuf, srcMac, dstMac, ciaddr, ipId, ipSrc, ipDst, Fill(options, DHCP_FRAME_LEN - HEADERS_LEN), now);
    }
  }

  // ---------------------------------------------------------------------
  // The state machine

  /** The transitions `cycle_clock` may make, after the client diagram of
      RFC 2131 section 4.4 with Halted standing in for a restart: discover
      from Init, request once an offer is recorded, give up when the retries
      run out, renew at T1, rebind at T2, and halt when the lease runs out. */
  predicate ClockEdge(from: State, to: State) {
    || (from == Init && to == Selecting)
    || (from == Selecting && to in {Requesting, Halted})
    || (from == Requesting && to == Halted)
    || (from == Bound && to == Renewing)
    || (from == Renewing && to == Rebinding)
    || (from == Rebinding && to == Halted)
  }

  /** The frame to send always belongs to the state the client is then in. */
  predicate PacketFitsState(p: PacketNeeded, s: State) {
    match p
    case Discover => s == Selecting
    case Request => s == Requesting
    case Renew => s == Renewing
    case Rebind => s == Rebinding
    case NoPacket => true
  }

  /** Every `cycle_clock` step stays put or follows an edge of the diagram,
      and the frame it asks for matches the new state. */
  lemma CycleClockFollowsDiagram(c: Client, now: nat)
    ensures var (c', p) := CycleClockOf(c, now);
            (c'.state == c.state || ClockEdge(c.state, c'.state)) && PacketFitsState(p, c'.state)
  {
  }

  /** Halted returns no frame and changes nothing; Init always moves to
      Selecting and sends a DHCPDISCOVER, with the first retry running. */
  lemma CycleClockHaltedAndInit(c: Client, now: nat)
    ensures c.state == Halted ==> CycleClockOf(c, now) == (c, NoPacket)
    ensures c.state == Init ==>
              var (c', p) := CycleClockOf(c, now);
              c'.state == Selecting && p == PacketNeeded.Discover && RT.Status(c'.retry, now) == RT.TimerRunning
  {
  }

  /** Bound renews exactly when T1 is done; otherwise nothing happens. */
  lemma BoundRenewsAtT1(c: Client, now: nat)
    requires c.state == Bound
    ensures var (c', p) := CycleClockOf(c, now);
            && (p == PacketNeeded.Renew <==> CountdownStatusAt(c.t1, now) == Done)
            && (p == PacketNeeded.Renew ==> c'.state == Renewing && c'.t1 == CLEARED)
            && (p != PacketNeeded.Renew ==> c' == c && p == NoPacket)
  {
  }

  /** In Rebinding, once the lease timer is done the client drops its
      bindings, halts and latches ChangedToHalted. */
  lemma LeaseExpiryHalts(c: Client, now: nat)
    requires c.state == Rebinding && CountdownStatusAt(c.tLease, now) == Done
    ensures var (c', p) := CycleClockOf(c, now);
            && c'.state == Halted && c'.latch == Some(ChangedToHalted) && p == NoPacket
            && c'.ip.None? && c'.sid.None? && c'.leaseSec.None? && c'.tLease == CLEARED
  {
  }

  /** Whenever the client reaches Halted from another state, by a clock step
      or a DHCPNAK, the ChangedToHalted event is latched. */
  lemma HaltingIsLatched(c: Client, now: nat)
    requires c.state != Halted
    ensures CycleClockOf(c, now).0.state == Halted ==> CycleClockOf(c, now).0.latch == Some(ChangedToHalted)
    ensures HandleNakOf(c).state == Halted ==> HandleNakOf(c).latch == Some(ChangedToHalted)
  {
  }

  /** Only a DHCPACK binds: clock steps, offers and DHCPNAKs never enter
      Bound, and an ACK enters it from Requesting, Renewing and Rebinding. */
  lemma OnlyAckBinds(c: Client, now: nat, lease: u32, sid: u32, ip: u32, gw: u32, gwm: seq<u8>, ls: u32, sn: u32, dns: u32)
    requires c.state != Bound
    ensures CycleClockOf(c, now).0.state != Bound
    ensures HandleOfferOf(c, sid, ip, gw, gwm, ls, sn, dns).state != Bound
    ensures HandleNakOf(c).state != Bound
    ensures HandleAckOf(c, lease, now).state == Bound <==> c.state in {Requesting, Renewing, Rebinding}
  {
  }

  /** The latched event is handed out once; a second pop returns None. */
  lemma PopEventOnce(c: Client)
    ensures var (c1, e1) := PopEventOf(c);
            var (c2, e2) := PopEventOf(c1);
            e1 == c.latch && e2 == None && c2 == c1 && c1 == c.(latch := None)
  {
  }

  /** An offer is recorded in Selecting only, and recording it does not
      change the state. */
  lemma OfferOnlyInSelecting(c: Client, sid: u32, ip: u32, gw: u32, gwm: seq<u8>, ls: u32, sn: u32, dns: u32)
    ensures var c' := HandleOfferOf(c, sid, ip, gw, gwm, ls, sn, dns);
            && (c.state != Selecting ==> c' == c)
            && (c.state == Selecting ==>
                  && c'.state == Selecting && c'.sid == Some(sid) && c'.ip == Some(ip)
                  && c'.gateway == Some(gw) && c'.gatewayMac == Some(gwm) && c'.leaseSec == Some(ls)
                  && c'.subnet == Some(sn) && c'.dns == Some(dns) && c'.latch == c.latch)
  {
  }

  /** A DHCPACK arms T1 at half the lease, T2 at seven eighths and the lease
      timer at fifteen sixteenths, so T1 <= T2 <= lease timer <= end of the
      lease, as RFC 2131 section 4.4.5 asks; it binds and latches
      ChangedToBound. In any other state it changes nothing. */
  lemma AckArmsOrderedTimers(c: Client, lease: u32, now: nat)
    ensures var c' := HandleAckOf(c, lease, now);
            && (c.state !in {Requesting, Renewing, Rebinding} ==> c' == c)
            && (c.state in {Requesting, Renewing, Rebinding} ==>
                  && c'.state == Bound && c'.latch == Some(ChangedToBound) && c'.leaseSec == Some(lease)
                  && c'.t1.due.Some? && c'.t2.due.Some? && c'.tLease.due.Some?
                  && now <= c'.t1.due.value <= c'.t2.due.value <= c'.tLease.due.value <= now + 1000 * lease)
  {
    assert lease / 2 <= lease * 7 / 8 <= lease * 15 / 16 <= lease;
  }

  /** A DHCPNAK while Requesting starts over at Init with no event; while
      Renewing or Rebinding it halts with ChangedToHalted; in both cases the
      bindings and lease timers are dropped. In the other states it does
      nothing. The gateway MAC is never forgotten. */
  lemma NakOutcomes(c: Client)
    ensures var c' := HandleNakOf(c);
            && c'.gatewayMac == c.gatewayMac && c'.xid == c.xid
            && (c.state == Requesting ==> c'.state == Init && c'.latch == c.latch)
            && (c.state in {Renewing, Rebinding} ==> c'.state == Halted && c'.latch == Some(ChangedToHalted))
            && (c.state in {Requesting, Renewing, Rebinding} ==>
                  c'.ip.None? && c'.sid.None? && c'.leaseSec.None? && c'.t1 == CLEARED && c'.tLease == CLEARED)
            && (c.state !in {Requesting, Renewing, Rebinding} ==> c' == c)
  {
  }

  /** A link drop halts with ChangedToHalted, stops the stopwatch and drops
      every binding except the gateway MAC. */
  lemma LinkDropHalts(c: Client)
    ensures var c' := HaltAndResetOf(c);
            && c'.state == Halted && c'.latch == Some(ChangedToHalted) && c'.secs.start.None?
            && c'.ip.None? && c'.sid.None? && c'.gateway.None? && c'.subnet.None? && c'.dns.None?
            && c'.leaseSec.None? && c'.gatewayMac == c.gatewayMac
            && CountdownStatusAt(c'.t1, 0) == CountdownStatus.NotStarted
  {
  }

  // ---------------------------------------------------------------------
  // The client invariant

  lemma NewClientConsistent()
    ensures Consistent(NewClient()) && NewClient().state == Halted
  {
  }

  /** Every operation keeps the client consistent. */
  lemma ClockKeepsConsistent(c: Client, now: nat)
    requires Consistent(c)
    ensures Consistent(CycleClockOf(c, now).0)
  {
    if c.state == Selecting || c.state == Requesting {
      WaitingClockKeepsConsistent(c, now);
    } else if c.state == Renewing || c.state == Rebinding {
      LeaseClockKeepsConsistent(c, now);
    }
  }

  /** While waiting for an offer or an ack, a tick keeps the client
      consistent. */
  lemma WaitingClockKeepsConsistent(c: Client, now: nat)
    requires Consistent(c) && (c.state == Selecting || c.state == Requesting)
    ensures Consistent(CycleClockOf(c, now).0)
  {
  }

  /** While renewing or rebinding, a tick keeps the client consistent. */
  lemma LeaseClockKeepsConsistent(c: Client, now: nat)
    requires Consistent(c) && (c.state == Renewing || c.state == Rebinding)
    ensures Consistent(CycleClockOf(c, now).0)
  {
  }

  lemma RepliesKeepConsistent(c: Client, now: nat, lease: u32,
                              sid: u32, ip: u32, gw: u32, gwm: seq<u8>, ls: u32, sn: u32, dns: u32)
    requires Consistent(c) && |gwm| == 6
    ensures Consistent(HandleOfferOf(c, sid, ip, gw, gwm, ls, sn, dns))
    ensures Consistent(HandleAckOf(c, lease, now))
    ensures Consistent(HandleNakOf(c))
  {
  }

  lemma ResetsKeepConsistent(c: Client, entropy: seq<u32>)
    requires Consistent(c) && |entropy| == 5
    ensures Consistent(HaltAndResetOf(c))
    ensures Consistent(BeginAtInitOf(c, entropy))
    ensures Consistent(PopEventOf(c).0)
  {
  }

  lemma HandleFrameKeepsConsistent(c: Client, data: seq<u8>, now: nat)
    requires Consistent(c)
    ensures Consistent(HandleFrameOf(c, data, now).0)
  {
    if |data| >= MIN_DHCP_FRAME_LEN && ExpectsReply(c.state) {
      var dhcp := data[MIN_UDP_FRAME_LEN..];
      if dhcp[0..3] == [2, 1, 6] && c.xid == Some(Be32(dhcp[4..8])) && dhcp[236..240] == COOKIE {
        match Parse(dhcp[240..])
        case Err(_) =>
        case Ok(opts) =>
          assert |data[6..12]| == 6;
      }
    }
  }

  /** In every state that sends DHCPREQUESTs a consistent client has the
      gateway MAC, address and server id the request needs, so
      `build_request_frame` never fails with 0x0A there. */
  lemma RequestStatesHaveBindings(c: Client, bufLen: nat, srcMac: seq<u8>, rt: RequestType, ipId: u16, now: nat)
    requires Consistent(c) && |srcMac| == 6
    requires c.state in {Requesting, Renewing, Rebinding}
    ensures RequestFrameOf(InputsOf(c), bufLen, srcMac, rt, ipId, now) != Err(0x0A)
  {
  }

  /** `handle_frame` drops, and changes nothing, for a frame too short to hold
      the BOOTP header, in a state that expects no reply, for anything but a
      BOOTREPLY for six-byte Ethernet addresses, for another xid and for a
      missing magic cookie. */
  lemma HandleFrameDrops(c: Client, data: seq<u8>, now: nat)
    ensures |data| < MIN_DHCP_FRAME_LEN ==> HandleFrameOf(c, data, now) == (c, DropDhcp)
    ensures !ExpectsReply(c.state) ==> HandleFrameOf(c, data, now) == (c, DropDhcp)
    ensures |data| >= MIN_DHCP_FRAME_LEN && data[42..45] != [2, 1, 6] ==> HandleFrameOf(c, data, now) == (c, DropDhcp)
    ensures |data| >= MIN_DHCP_FRAME_LEN && c.xid != Some(Be32(data[46..50])) ==> HandleFrameOf(c, data, now) == (c, DropDhcp)
    ensures |data| >= MIN_DHCP_FRAME_LEN && data[278..282] != COOKIE ==> HandleFrameOf(c, data, now) == (c, DropDhcp)
  {
    if |data| >= MIN_DHCP_FRAME_LEN {
      var dhcp := data[MIN_UDP_FRAME_LEN..];
      assert dhcp[0..3] == data[42..45];
      assert dhcp[4..8] == data[46..50];
      assert dhcp[236..240] == data[278..282];
    }
  }

  /** A frame either changes the client through an offer, an ACK or a NAK and
      is binned Dhcp, or leaves it alone and is binned DropDhcp. */
  lemma HandleFrameOutcome(c: Client, data: seq<u8>, now: nat)
    ensures var (c', bin) := HandleFrameOf(c, data, now);
            (bin == FilterBin.Dhcp || (bin == DropDhcp && c' == c))
  {
  }

  // ---------------------------------------------------------------------
  // The frames

  /** Where `build_dhcp_headers` puts each field. */
  lemma HeadersLayout(srcMac: seq<u8>, dstMac: seq<u8>, ciaddr: u32, ipId: u16, ipSrc: u32, ipDst: u32,
                      xid: u32, secs: u16)
    requires |srcMac| == 6 && |dstMac| == 6
    ensures var h := DhcpHeaders(srcMac, dstMac, ciaddr, ipId, ipSrc, ipDst, xid, secs);
            && h[0..6] == dstMac && h[6..12] == srcMac && h[12..14] == [8, 0]
            && h[16..18] == [0x01, 0x48] && h[23] == 17
            && h[26..30] == Be32Bytes(ipSrc) && h[30..34] == Be32Bytes(ipDst)
            && h[34..40] == [0, 68, 0, 67, 0x01, 0x34]
            && h[42..45] == [1, 1, 6] && h[46..50] == Be32Bytes(xid) && h[54..58] == Be32Bytes(ciaddr)
            && h[70..76] == srcMac
  {
    EthInHeaders(srcMac, dstMac, ciaddr, ipId, ipSrc, ipDst, xid, secs);
    Ipv4InHeaders(srcMac, dstMac, ciaddr, ipId, ipSrc, ipDst, xid, secs);
    BootpInHeaders(srcMac, dstMac, ciaddr, ipId, ipSrc, ipDst, xid, secs);
  }

  lemma EthInHeaders(srcMac: seq<u8>, dstMac: seq<u8>, ciaddr: u32, ipId: u16, ipSrc: u32, ipDst: u32,
                     xid: u32, secs: u16)
    requires |srcMac| == 6 && |dstMac| == 6
    ensures var h := DhcpHeaders(srcMac, dstMac, ciaddr, ipId, ipSrc, ipDst, xid, secs);
            h[0..6] == dstMac && h[6..12] == srcMac && h[12..14] == [8, 0]
  {
    var e := EthHeader(dstMac, srcMac);
    var h := DhcpHeaders(srcMac, dstMac, ciaddr, ipId, ipSrc, ipDst, xid, secs);
    EthFields(srcMac, dstMac);
    assert h[0..14] == e;
    SliceOfSlice(h, 0, 14, e, 0, 6);
    SliceOfSlice(h, 0, 14, e, 6, 12);
    SliceOfSlice(h, 0, 14, e, 12, 14);
  }

  lemma Ipv4InHeaders(srcMac: seq<u8>, dstMac: seq<u8>, ciaddr: u32, ipId: u16, ipSrc: u32, ipDst: u32,
                      xid: u32, secs: u16)
    requires |srcMac| == 6 && |dstMac| == 6
    ensures var h := DhcpHeaders(srcMac, dstMac, ciaddr, ipId, ipSrc, ipDst, xid, secs);
            && h[16..18] == [0x01, 0x48] && h[23] == 17
            && h[26..30] == Be32Bytes(ipSrc) && h[30..34] == Be32Bytes(ipDst)
  {
    var i := Ipv4Header(ipId, ipSrc, ipDst);
    var h := DhcpHeaders(srcMac, dstMac, ciaddr, ipId, ipSrc, ipDst, xid, secs);
    Ipv4Fields(ipId, ipSrc, ipDst);
    assert h[14..34] == i;
    SliceOfSlice(h, 14, 34, i, 2, 4);
    assert i[2..4] == i[..4][2..4];
    SliceOfSlice(h, 14, 34, i, 12, 16);
    SliceOfSlice(h, 14, 34, i, 16, 20);
    assert h[23] == h[14..34][9] == i[8..12][1];
  }

  lemma BootpInHeaders(srcMac: seq<u8>, dstMac: seq<u8>, ciaddr: u32, ipId: u16, ipSrc: u32, ipDst: u32,
                       xid: u32, secs: u16)
    requires |srcMac| == 6 && |dstMac| == 6
    ensures var h := DhcpHeaders(srcMac, dstMac, ciaddr, ipId, ipSrc, ipDst, xid, secs);
            && h[34..40] == [0, 68, 0, 67, 0x01, 0x34]
            && h[42..45] == [1, 1, 6] && h[46..50] == Be32Bytes(xid) && h[54..58] == Be32Bytes(ciaddr)
            && h[70..76] == srcMac
  {
    var b := BootpHeader(srcMac, ciaddr, xid, secs);
    var h := DhcpHeaders(srcMac, dstMac, ciaddr, ipId, ipSrc, ipDst, xid, secs);
    BootpFields(srcMac, ciaddr, xid, secs);
    assert h[34..42] == UDP_HEADER;
    assert h[42..HEADERS_LEN] == b;
    SliceOfSlice(h, 34, 42, UDP_HEADER, 0, 6);
    SliceOfSlice(h, 42, HEADERS_LEN, b, 0, 3);
    assert b[0..3] == b[..4][0..3];
    SliceOfSlice(h, 42, HEADERS_LEN, b, 4, 8);
    SliceOfSlice(h, 42, HEADERS_LEN, b, 12, 16);
    SliceOfSlice(h, 42, HEADERS_LEN, b, 28, 34);
  }

  /** The layout of every frame the client sends: the Ethernet, IPv4, UDP
      and BOOTP headers with only the two checksum fields filled in, then the
      options from byte 278 on. */
  lemma FrameLayout(srcMac: seq<u8>, dstMac: seq<u8>, ciaddr: u32, ipId: u16, ipSrc: u32, ipDst: u32,
                    xid: u32, secs: u16, opts: seq<u8>)
    requires |srcMac| == 6 && |dstMac| == 6 && |opts| == DHCP_FRAME_LEN - HEADERS_LEN
    ensures var f := WithChecksums(DhcpHeaders(srcMac, dstMac, ciaddr, ipId, ipSrc, ipDst, xid, secs) + opts);
            && |f| == DHCP_FRAME_LEN
            && f[0..14] == EthHeader(dstMac, srcMac)
            && f[14..24] == Ipv4Header(ipId, ipSrc, ipDst)[0..10]
            && f[26..34] == Ipv4Header(ipId, ipSrc, ipDst)[12..20]
            && f[34..40] == UDP_HEADER[0..6]
            && f[42..HEADERS_LEN] == BootpHeader(srcMac, ciaddr, xid, secs)
            && f[HEADERS_LEN..DHCP_FRAME_LEN] == opts
  {
    var e, i := EthHeader(dstMac, srcMac), Ipv4Header(ipId, ipSrc, ipDst);
    var h := DhcpHeaders(srcMac, dstMac, ciaddr, ipId, ipSrc, ipDst, xid, secs);
    var raw := h + opts;
    HeaderParts(srcMac, dstMac, ciaddr, ipId, ipSrc, ipDst, xid, secs);
    AppendParts(h, opts);
    assert h[0..HEADERS_LEN] == h;
    ChecksumsKeep(raw, 0, 14);
    ChecksumsKeep(raw, 14, 24);
    ChecksumsKeep(raw, 26, 34);
    ChecksumsKeep(raw, 34, 40);
    ChecksumsKeep(raw, 42, HEADERS_LEN);
    ChecksumsKeep(raw, HEADERS_LEN, DHCP_FRAME_LEN);
    SubRange(raw, h, 0, HEADERS_LEN, 0, 14);
    SubRange(raw, h, 0, HEADERS_LEN, 14, 24);
    SubRange(raw, h, 0, HEADERS_LEN, 26, 34);
    SubRange(raw, h, 0, HEADERS_LEN, 34, 40);
    SubRange(raw, h, 0, HEADERS_LEN, 42, HEADERS_LEN);
    SliceOfSlice(h, 14, 34, i, 0, 10);
    SliceOfSlice(h, 14, 34, i, 12, 20);
    SliceOfSlice(h, 34, 42, UDP_HEADER, 0, 6);
  }

  /** The four headers in order: Ethernet at 0, IPv4 at 14, UDP at 34 and
      BOOTP at 42. */
  lemma HeaderParts(srcMac: seq<u8>, dstMac: seq<u8>, ciaddr: u32, ipId: u16, ipSrc: u32, ipDst: u32,
                    xid: u32, secs: u16)
    requires |srcMac| == 6 && |dstMac| == 6
    ensures var h := DhcpHeaders(srcMac, dstMac, ciaddr, ipId, ipSrc, ipDst, xid, secs);
            && h[0..14] == EthHeader(dstMac, srcMac) && h[14..34] == Ipv4Header(ipId, ipSrc, ipDst)
            && h[34..42] == UDP_HEADER && h[42..HEADERS_LEN] == BootpHeader(srcMac, ciaddr, xid, secs)
  {
    var e, i, b := EthHeader(dstMac, srcMac), Ipv4Header(ipId, ipSrc, ipDst), BootpHeader(srcMac, ciaddr, xid, secs);
    AppendParts(e + i + UDP_HEADER, b);
    AppendParts(e + i, UDP_HEADER);
    AppendParts(e, i);
    var h := DhcpHeaders(srcMac, dstMac, ciaddr, ipId, ipSrc, ipDst, xid, secs);
    assert h[0..34] == e + i;
    assert h[0..42] == e + i + UDP_HEADER;
    SubRange(h, e + i, 0, 34, 0, 14);
    SubRange(h, e + i, 0, 34, 14, 34);
    SubRange(h, e + i + UDP_HEADER, 0, 42, 34, 42);
  }

  /** The options of every frame the client sends start at byte 278. */
  lemma FrameCarriesOptions(headers: seq<u8>, opts: seq<u8>)
    requires |headers| == HEADERS_LEN
    ensures WithChecksums(headers + opts)[HEADERS_LEN..] == opts
  {
    ChecksumsTouchOnlyTheirFields(headers + opts);
    assert (headers + opts)[42..][HEADERS_LEN - 42..] == opts;
  }

  /** The options handed to `FrameOf` end up at byte 278 of its frame. */
  lemma FrameOfCarriesOptions(c: FrameInputs, srcMac: seq<u8>, dstMac: seq<u8>, ciaddr: u32, ipId: u16, ipSrc: u32, ipDst: u32,
                              options: seq<u8>, now: nat, f: seq<u8>)
    requires |srcMac| == 6 && |dstMac| == 6 && |options| == DHCP_FRAME_LEN - HEADERS_LEN
    requires FrameOf(c, srcMac, dstMac, ciaddr, ipId, ipSrc, ipDst, options, now) == Ok(f)
    ensures |f| == DHCP_FRAME_LEN && f[HEADERS_LEN..] == options
  {
    var (x, secs) := HeaderFieldsOf(c, now).value;
    FrameCarriesOptions(DhcpHeaders(srcMac, dstMac, ciaddr, ipId, ipSrc, ipDst, x, secs), options);
  }

  /** The fixed header bytes a receiver checks, in every frame `FrameOf`
      builds: ethertype IPv4, version 4 with a 20-byte header, no fragment
      bits, protocol UDP, destination port 67, and checksums that verify. */
  lemma FrameOfHeaderBytes(c: FrameInputs, srcMac: seq<u8>, dstMac: seq<u8>, ciaddr: u32, ipId: u16, ipSrc: u32, ipDst: u32,
                           options: seq<u8>, now: nat, f: seq<u8>)
    requires |srcMac| == 6 && |dstMac| == 6 && |options| == DHCP_FRAME_LEN - HEADERS_LEN
    requires FrameOf(c, srcMac, dstMac, ciaddr, ipId, ipSrc, ipDst, options, now) == Ok(f)
    ensures |f| == DHCP_FRAME_LEN && f[..6] == dstMac && f[12..14] == [8, 0]
    ensures f[14] == 0x45 && f[20] == 0 && f[21] == 0 && f[23] == 17 && f[36] == 0 && f[37] == 67
    ensures Ipv4ChecksumOf(f) == Be16(f[24], f[25]) && UdpChecksumOf(f) == Be16(f[40], f[41])
  {
    var (x, secs) := HeaderFieldsOf(c, now).value;
    assert f == WithChecksums(DhcpHeaders(srcMac, dstMac, ciaddr, ipId, ipSrc, ipDst, x, secs) + options);
    FrameFields(srcMac, dstMac, ciaddr, ipId, ipSrc, ipDst, x, secs, options);
    HeaderBytes(srcMac, dstMac, ciaddr, ipId, ipSrc, ipDst, x, secs, options);
  }

  /** The constant header bytes of a built frame, read through its layout. */
  lemma HeaderBytes(srcMac: seq<u8>, dstMac: seq<u8>, ciaddr: u32, ipId: u16, ipSrc: u32, ipDst: u32,
                    xid: u32, secs: u16, opts: seq<u8>)
    requires |srcMac| == 6 && |dstMac| == 6 && |opts| == DHCP_FRAME_LEN - HEADERS_LEN
    ensures var f := WithChecksums(DhcpHeaders(srcMac, dstMac, ciaddr, ipId, ipSrc, ipDst, xid, secs) + opts);
            && f[12..14] == [8, 0] && f[14] == 0x45 && f[20] == 0 && f[21] == 0 && f[23] == 17
            && f[36] == 0 && f[37] == 67
  {
    FrameLayout(srcMac, dstMac, ciaddr, ipId, ipSrc, ipDst, xid, secs, opts);
    var f := WithChecksums(DhcpHeaders(srcMac, dstMac, ciaddr, ipId, ipSrc, ipDst, xid, secs) + opts);
    var e, i := EthHeader(dstMac, srcMac), Ipv4Header(ipId, ipSrc, ipDst);
    assert e[12..] == [8, 0];
    assert f[12..14] == e[12..] by { assert f[..MAC_HEADER_LEN] == e; }
    var ip := f[14..24];
    assert ip == i[..10];
    assert i[..10] == [0x45, 0, 1, 0x48] + Be16Bytes(ipId) + [0, 0, 255, 17];
    assert f[14] == ip[0] && f[20] == ip[6] && f[21] == ip[7] && f[23] == ip[9];
    var udp := f[34..40];
    assert udp == UDP_HEADER[..6];
    assert f[36] == udp[2] && f[37] == udp[3];
  }

  /** The cookie and the option bytes after it, located in a frame. */
  lemma OptionsAt(f: seq<u8>, opts: seq<u8>)
    requires |f| == DHCP_FRAME_LEN && f[HEADERS_LEN..] == opts
    ensures f[HEADERS_LEN..HEADERS_LEN + 4] == opts[..4] && f[HEADERS_LEN + 4..] == opts[4..]
  {
  }

  /** The checksums stored in every frame the client sends match the ones
      computed over the frame. */
  lemma FrameChecksumsVerify(headers: seq<u8>, opts: seq<u8>)
    requires |headers| == HEADERS_LEN && |opts| == DHCP_FRAME_LEN - HEADERS_LEN
    ensures var f := WithChecksums(headers + opts);
            Ipv4ChecksumOf(f) == Be16(f[24], f[25]) && UdpChecksumOf(f) == Be16(f[40], f[41])
  {
    ChecksumFixupsVerify(headers + opts);
  }

  /** What a receiver reads back from a 342-byte frame: the destination
      and source MACs, the IPv4 source and destination, the xid and
      `ciaddr` of the BOOTP header, and IPv4 and UDP checksums that verify. */
  predicate CarriesHeaders(f: seq<u8>, dstMac: seq<u8>, srcMac: seq<u8>, ipSrc: u32, ipDst: u32, xid: u32, ciaddr: u32)
  {
    && |f| == DHCP_FRAME_LEN && f[..6] == dstMac && f[6..12] == srcMac
    && Be32(f[26..30]) == ipSrc && Be32(f[30..34]) == ipDst
    && Be32(f[46..50]) == xid && Be32(f[54..58]) == ciaddr
    && Ipv4ChecksumOf(f) == Be16(f[24], f[25]) && UdpChecksumOf(f) == Be16(f[40], f[41])
  }

  /** The values a receiver reads back from every frame the client sends:
      the MAC addresses, the IPv4 addresses, the xid and `ciaddr` as written,
      the options from byte 278 on, and checksums that verify. */
  lemma FrameFields(srcMac: seq<u8>, dstMac: seq<u8>, ciaddr: u32, ipId: u16, ipSrc: u32, ipDst: u32,
                    xid: u32, secs: u16, opts: seq<u8>)
    requires |srcMac| == 6 && |dstMac| == 6 && |opts| == DHCP_FRAME_LEN - HEADERS_LEN
    ensures var f := WithChecksums(DhcpHeaders(srcMac, dstMac, ciaddr, ipId, ipSrc, ipDst, xid, secs) + opts);
            CarriesHeaders(f, dstMac, srcMac, ipSrc, ipDst, xid, ciaddr) && f[HEADERS_LEN..] == opts
  {
    var h := DhcpHeaders(srcMac, dstMac, ciaddr, ipId, ipSrc, ipDst, xid, secs);
    var raw := h + opts;
    var f := WithChecksums(raw);
    FrameChecksumsVerify(h, opts);
    EthInHeaders(srcMac, dstMac, ciaddr, ipId, ipSrc, ipDst, xid, secs);
    Ipv4InHeaders(srcMac, dstMac, ciaddr, ipId, ipSrc, ipDst, xid, secs);
    BootpInHeaders(srcMac, dstMac, ciaddr, ipId, ipSrc, ipDst, xid, secs);
    AppendParts(h, opts);
    assert h[0..HEADERS_LEN] == h;
    ChecksumsKeep(raw, 0, 6);
    ChecksumsKeep(raw, 6, 12);
    ChecksumsKeep(raw, 26, 30);
    ChecksumsKeep(raw, 30, 34);
    ChecksumsKeep(raw, 46, 50);
    ChecksumsKeep(raw, 54, 58);
    ChecksumsKeep(raw, HEADERS_LEN, |raw|);
    SubRange(raw, h, 0, HEADERS_LEN, 0, 6);
    SubRange(raw, h, 0, HEADERS_LEN, 6, 12);
    SubRange(raw, h, 0, HEADERS_LEN, 26, 30);
    SubRange(raw, h, 0, HEADERS_LEN, 30, 34);
    SubRange(raw, h, 0, HEADERS_LEN, 46, 50);
    SubRange(raw, h, 0, HEADERS_LEN, 54, 58);
    assert f[..6] == f[0..6];
    Be32RoundTrip(ipSrc);
    Be32RoundTrip(ipDst);
    Be32RoundTrip(xid);
    Be32RoundTrip(ciaddr);
    SuffixIsRange(f, HEADERS_LEN);
  }

  /** The frame `build_discover_frame` writes goes to the broadcast MAC and
      255.255.255.255 from 0.0.0.0 with no `ciaddr`, carries the client's xid,
      and holds valid checksums. */
  lemma DiscoverFrameHeaders(c: FrameInputs, bufLen: nat, srcMac: seq<u8>, ipId: u16, now: nat, f: seq<u8>)
    requires Buildable(c) && |srcMac| == 6 && DiscoverFrameOf(c, bufLen, srcMac, ipId, now) == Ok(f)
    ensures c.xid.Some? && CarriesHeaders(f, BROADCAST_MAC, srcMac, 0, 0xFFFF_FFFF, c.xid.value, 0)
  {
    var (x, secs) := HeaderFieldsOf(c, now).value;
    var opts := Fill(DiscoverOptions(srcMac, c.hostname), DHCP_FRAME_LEN - HEADERS_LEN);
    assert f == WithChecksums(DhcpHeaders(srcMac, BROADCAST_MAC, 0, ipId, 0, 0xFFFF_FFFF, x, secs) + opts);
    FrameFields(srcMac, BROADCAST_MAC, 0, ipId, 0, 0xFFFF_FFFF, x, secs, opts);
  }

  /** A renewing DHCPREQUEST is unicast from the bound address to the
      server's MAC and address, with the bound address in `ciaddr`
      (RFC 2131 section 4.3.2). */
  lemma RenewFrameHeaders(c: FrameInputs, bufLen: nat, srcMac: seq<u8>, ipId: u16, now: nat, f: seq<u8>)
    requires Buildable(c) && |srcMac| == 6 && RequestFrameOf(c, bufLen, srcMac, RequestType.Renew, ipId, now) == Ok(f)
    ensures c.gatewayMac.Some? && c.ip.Some? && c.sid.Some? && c.xid.Some?
    ensures CarriesHeaders(f, c.gatewayMac.value, srcMac, c.ip.value, c.sid.value, c.xid.value, c.ip.value)
  {
    var (x, secs) := HeaderFieldsOf(c, now).value;
    var ip := c.ip.value;
    var opts := Fill(RequestOptions(srcMac, c.hostname, RequestType.Renew, ip, c.sid.value), DHCP_FRAME_LEN - HEADERS_LEN);
    assert RequestAddresses(RequestType.Renew, c.gatewayMac.value, ip, c.sid.value) == (c.gatewayMac.value, ip, ip, c.sid.value);
    assert f == WithChecksums(DhcpHeaders(srcMac, c.gatewayMac.value, ip, ipId, ip, c.sid.value, x, secs) + opts);
    FrameFields(srcMac, c.gatewayMac.value, ip, ipId, ip, c.sid.value, x, secs, opts);
  }

  /** A rebinding DHCPREQUEST is broadcast from 0.0.0.0, with the bound
      address in `ciaddr`. */
  lemma RebindFrameHeaders(c: FrameInputs, bufLen: nat, srcMac: seq<u8>, ipId: u16, now: nat, f: seq<u8>)
    requires Buildable(c) && |srcMac| == 6 && RequestFrameOf(c, bufLen, srcMac, RequestType.Rebind, ipId, now) == Ok(f)
    ensures c.gatewayMac.Some? && c.ip.Some? && c.sid.Some? && c.xid.Some?
    ensures CarriesHeaders(f, BROADCAST_MAC, srcMac, 0, 0xFFFF_FFFF, c.xid.value, c.ip.value)
  {
    var (x, secs) := HeaderFieldsOf(c, now).value;
    var ip := c.ip.value;
    var opts := Fill(RequestOptions(srcMac, c.hostname, RequestType.Rebind, ip, c.sid.value), DHCP_FRAME_LEN - HEADERS_LEN);
    assert RequestAddresses(RequestType.Rebind, c.gatewayMac.value, ip, c.sid.value) == (BROADCAST_MAC, ip, 0, 0xFFFF_FFFF);
    assert f == WithChecksums(DhcpHeaders(srcMac, BROADCAST_MAC, ip, ipId, 0, 0xFFFF_FFFF, x, secs) + opts);
    FrameFields(srcMac, BROADCAST_MAC, ip, ipId, 0, 0xFFFF_FFFF, x, secs, opts);
  }

  /** The DHCPREQUEST answering an offer is broadcast from 0.0.0.0 with no
      `ciaddr`. */
  lemma SelectingRequestHeaders(c: FrameInputs, bufLen: nat, srcMac: seq<u8>, ipId: u16, now: nat, f: seq<u8>)
    requires Buildable(c) && |srcMac| == 6 && RequestFrameOf(c, bufLen, srcMac, RequestType.Discover, ipId, now) == Ok(f)
    ensures c.gatewayMac.Some? && c.ip.Some? && c.sid.Some? && c.xid.Some?
    ensures CarriesHeaders(f, BROADCAST_MAC, srcMac, 0, 0xFFFF_FFFF, c.xid.value, 0)
  {
    var (x, secs) := HeaderFieldsOf(c, now).value;
    var opts := Fill(RequestOptions(srcMac, c.hostname, RequestType.Discover, c.ip.value, c.sid.value), DHCP_FRAME_LEN - HEADERS_LEN);
    assert RequestAddresses(RequestType.Discover, c.gatewayMac.value, c.ip.value, c.sid.value) == (BROADCAST_MAC, 0, 0, 0xFFFF_FFFF);
    assert f == WithChecksums(DhcpHeaders(srcMac, BROADCAST_MAC, 0, ipId, 0, 0xFFFF_FFFF, x, secs) + opts);
    FrameFields(srcMac, BROADCAST_MAC, 0, ipId, 0, 0xFFFF_FFFF, x, secs, opts);
  }

  // ---------------------------------------------------------------------
  // The options the client sends, read back with its own option parser

  /** The options of a DHCPDISCOVER after the magic cookie, as a list. */
  function DiscoverOptList(srcMac: seq<u8>, hostname: seq<u8>): (os: seq<Opt>)
    requires |srcMac| == 6 && |hostname| < 0x100
    ensures Encodable(os)
  {
    [Opt(53, [1]), Opt(55, [1, 121, 3, 6, 15, 119, 252]), Opt(57, [0x05, 0xdc]), Opt(61, [1] + srcMac),
     Opt(51, [0x00, 0x76, 0xa7, 0x00]), Opt(12, hostname)]
  }

  /** The options every DHCPREQUEST starts with: message type 3, the
      parameter request list, the maximum message size and the client id. */
  function RequestHead(srcMac: seq<u8>): (os: seq<Opt>)
    requires |srcMac| == 6
    ensures Encodable(os)
  {
    [Opt(53, [3]), Opt(55, [1, 121, 3, 6, 15, 119, 252]), Opt(57, [0x05, 0xdc]), Opt(61, [1] + srcMac)]
  }

  /** The requested address and the server id, sent only when answering an
      offer. */
  function RequestBinding(rt: RequestType, ip: u32, sid: u32): (os: seq<Opt>)
    ensures Encodable(os)
  {
    if rt == RequestType.Discover then [Opt(50, Be32Bytes(ip)), Opt(54, Be32Bytes(sid))] else []
  }

  /** The options of a DHCPREQUEST after the magic cookie, as a list. */
  function RequestOptList(srcMac: seq<u8>, hostname: seq<u8>, rt: RequestType, ip: u32, sid: u32): (os: seq<Opt>)
    requires |srcMac| == 6 && |hostname| < 0x100
    ensures Encodable(os)
  {
    RequestHead(srcMac) + RequestBinding(rt, ip, sid) + [Opt(12, hostname)]
  }

  lemma EncodeCons(o: Opt, os: seq<Opt>)
    requires o.tag != O_PAD && o.tag != O_END && |o.data| < 0x100 && Encodable(os)
    ensures Encodable([o] + os) && Encode([o] + os) == Tlv(o.tag, o.data) + Encode(os)
  {
    assert ([o] + os)[1..] == os;
  }

  /** Appending one option appends its record. */
  lemma EncodeSnoc(os: seq<Opt>, o: Opt)
    requires o.tag != O_PAD && o.tag != O_END && |o.data| < 0x100 && Encodable(os)
    ensures Encodable(os + [o]) && Encode(os + [o]) == Encode(os) + Tlv(o.tag, o.data)
  {
    EncodeCons(o, []);
    assert [o] + [] == [o];
    EncodeAppend(os, [o]);
  }

  /** A list of four options encodes as their four records in a row. */
  lemma EncodeFour(os: seq<Opt>)
    requires |os| == 4 && Encodable(os)
    ensures Encode(os) == Tlv(os[0].tag, os[0].data) + Tlv(os[1].tag, os[1].data)
                          + Tlv(os[2].tag, os[2].data) + Tlv(os[3].tag, os[3].data)
  {
    var t0 := Tlv(os[0].tag, os[0].data);
    assert os[..1][1..] == [];
    assert Encode(os[..1]) == t0 + Encode([]) == t0 + [] == t0;
    EncodeSnoc(os[..1], os[1]);
    assert os[..2] == os[..1] + [os[1]];
    EncodeSnoc(os[..2], os[2]);
    assert os[..3] == os[..2] + [os[2]];
    EncodeSnoc(os[..3], os[3]);
    assert os == os[..3] + [os[3]];
  }

  /** A list of six options encodes as their six records in a row. */
  lemma EncodeSix(os: seq<Opt>)
    requires |os| == 6 && Encodable(os)
    ensures Encode(os) == Tlv(os[0].tag, os[0].data) + Tlv(os[1].tag, os[1].data)
                          + Tlv(os[2].tag, os[2].data) + Tlv(os[3].tag, os[3].data)
                          + Tlv(os[4].tag, os[4].data) + Tlv(os[5].tag, os[5].data)
  {
    EncodeFour(os[..4]);
    assert os[..5] == os[..4] + [os[4]];
    EncodeSnoc(os[..4], os[4]);
    assert os == os[..5] + [os[5]];
    EncodeSnoc(os[..5], os[5]);
  }

  /** The option list of a DHCPDISCOVER, tag by tag. */
  lemma DiscoverOptListEncoded(srcMac: seq<u8>, hostname: seq<u8>)
    requires |srcMac| == 6 && |hostname| < 0x100
    ensures Encode(DiscoverOptList(srcMac, hostname))
            == Tlv(53, [1]) + Tlv(55, [1, 121, 3, 6, 15, 119, 252]) + Tlv(57, [0x05, 0xdc])
               + Tlv(61, [1] + srcMac) + Tlv(51, [0x00, 0x76, 0xa7, 0x00]) + Tlv(12, hostname)
  {
    EncodeSix(DiscoverOptList(srcMac, hostname));
  }

  /** The bytes `build_discover_frame` writes after the cookie are exactly the
      option list in tag-length-value form, closed by the end option. */
  lemma DiscoverOptionsEncoded(srcMac: seq<u8>, hostname: seq<u8>)
    requires |srcMac| == 6 && |hostname| < 0x100
    ensures DiscoverOptions(srcMac, hostname) == COOKIE + Encode(DiscoverOptList(srcMac, hostname)) + [O_END]
  {
    DiscoverOptListEncoded(srcMac, hostname);
    var fixedPart := Tlv(53, [1]) + Tlv(55, [1, 121, 3, 6, 15, 119, 252]) + Tlv(57, [0x05, 0xdc]);
    var clientId, lease, name := Tlv(61, [1] + srcMac), Tlv(51, [0x00, 0x76, 0xa7, 0x00]), Tlv(12, hostname);
    var head := [53, 1, 1, 55, 7, 1, 121, 3, 6, 15, 119, 252, 57, 2, 0x05, 0xdc, 61, 7, 1];
    var tail := [51, 4, 0x00, 0x76, 0xa7, 0x00, 12, |hostname|];
    assert fixedPart == [53, 1, 1, 55, 7, 1, 121, 3, 6, 15, 119, 252, 57, 2, 0x05, 0xdc];
    assert clientId == [61, 7, 1] + srcMac;
    assert fixedPart + clientId == head + srcMac;
    assert lease + name == tail + hostname;
    Pairs(fixedPart, clientId, lease, name);
    RegroupPairs(COOKIE, head, srcMac, tail, hostname, [255]);
  }

  lemma ApplyAllCons(d: DhcpOption, o: Opt, os: seq<Opt>, d': DhcpOption)
    requires ApplyOption(d, o.tag, o.data) == Ok(d')
    ensures ApplyAll(d, [o] + os) == ApplyAll(d', os)
  {
    assert ([o] + os)[1..] == os;
  }

  /** What the client's option parser makes of the DHCPDISCOVER option list:
      message type 1 and the requested lease 0x0076A700; every other option
      is one it skips. */
  lemma DiscoverOptListApplied(srcMac: seq<u8>, hostname: seq<u8>)
    requires |srcMac| == 6 && |hostname| < 0x100
    ensures ApplyAll(NO_OPTIONS, DiscoverOptList(srcMac, hostname))
            == Ok(NO_OPTIONS.(msgType := Some(1), ipLeaseTime := Some(0x76a700)))
  {
    var os := DiscoverOptList(srcMac, hostname);
    var d1 := NO_OPTIONS.(msgType := Some(1));
    var d2 := d1.(ipLeaseTime := Some(0x76a700));
    assert Be32([0x00, 0x76, 0xa7, 0x00]) == 0x76a700;
    ApplyAllCons(d2, os[5], [], d2);
    assert os[5..] == [os[5]] + [];
    ApplyAllCons(d1, os[4], os[5..], d2);
    assert os[4..] == [os[4]] + os[5..];
    ApplyAllCons(d1, os[3], os[4..], d1);
    assert os[3..] == [os[3]] + os[4..];
    ApplyAllCons(d1, os[2], os[3..], d1);
    assert os[2..] == [os[2]] + os[3..];
    ApplyAllCons(d1, os[1], os[2..], d1);
    assert os[1..] == [os[1]] + os[2..];
    ApplyAllCons(NO_OPTIONS, os[0], os[1..], d1);
    assert os == [os[0]] + os[1..];
  }

  /** Read back with the client's own option parser, the 64 option bytes
      of a DHCPDISCOVER say "message type 1, lease 0x0076A700", as long as
      the hostname leaves room for the end option (26 bytes or fewer). */
  lemma DiscoverOptionsParse(srcMac: seq<u8>, hostname: seq<u8>)
    requires |srcMac| == 6 && |hostname| <= 26
    ensures var opts := Fill(DiscoverOptions(srcMac, hostname), DHCP_FRAME_LEN - HEADERS_LEN);
            && opts[..4] == COOKIE
            && Parse(opts[4..]) == Ok(NO_OPTIONS.(msgType := Some(1), ipLeaseTime := Some(0x76a700)))
  {
    var os := DiscoverOptList(srcMac, hostname);
    var raw := DiscoverOptions(srcMac, hostname);
    var opts := Fill(raw, DHCP_FRAME_LEN - HEADERS_LEN);
    DiscoverOptionsEncoded(srcMac, hostname);
    var pad := Zeros(DHCP_FRAME_LEN - HEADERS_LEN - |raw|);
    assert opts == COOKIE + (Encode(os) + [O_END] + pad);
    ParseEncoded(os, pad);
    DiscoverOptListApplied(srcMac, hostname);
  }

  /** The same, read from the frame: the cookie at 278 and the options after
      it. */
  lemma DiscoverFrameOptions(c: FrameInputs, bufLen: nat, srcMac: seq<u8>, ipId: u16, now: nat, f: seq<u8>)
    requires Buildable(c) && |srcMac| == 6 && |c.hostname| <= 26
    requires DiscoverFrameOf(c, bufLen, srcMac, ipId, now) == Ok(f)
    ensures |f| == DHCP_FRAME_LEN && f[HEADERS_LEN..HEADERS_LEN + 4] == COOKIE
    ensures Parse(f[HEADERS_LEN + 4..]) == Ok(NO_OPTIONS.(msgType := Some(1), ipLeaseTime := Some(0x76a700)))
  {
    var opts := Fill(DiscoverOptions(srcMac, c.hostname), DHCP_FRAME_LEN - HEADERS_LEN);
    FrameOfCarriesOptions(c, srcMac, BROADCAST_MAC, 0, ipId, 0, 0xFFFF_FFFF, opts, now, f);
    OptionsAt(f, opts);
    DiscoverOptionsParse(srcMac, c.hostname);
  }

  lemma RequestHeadEncoded(srcMac: seq<u8>)
    requires |srcMac| == 6
    ensures Encode(RequestHead(srcMac))
            == [53, 1, 3, 55, 7, 1, 121, 3, 6, 15, 119, 252, 57, 2, 0x05, 0xdc, 61, 7, 1] + srcMac
  {
    var os := RequestHead(srcMac);
    EncodeFour(os);
    assert Tlv(os[3].tag, os[3].data) == [61, 7, 1] + srcMac;
    assert Tlv(os[0].tag, os[0].data) + Tlv(os[1].tag, os[1].data) + Tlv(os[2].tag, os[2].data)
           == [53, 1, 3, 55, 7, 1, 121, 3, 6, 15, 119, 252, 57, 2, 0x05, 0xdc];
  }

  lemma RequestBindingEncoded(rt: RequestType, ip: u32, sid: u32)
    ensures Encode(RequestBinding(rt, ip, sid)) == RequestBindingBytes(rt, ip, sid)
  {
    if rt == RequestType.Discover {
      var os := RequestBinding(rt, ip, sid);
      EncodeCons(os[1], []);
      assert os[1..] == [os[1]] + [];
      EncodeCons(os[0], os[1..]);
      assert os == [os[0]] + os[1..];
    }
  }

  /** The bytes `build_request_frame` writes after the cookie are exactly the
      option list in tag-length-value form, closed by the end option. */
  lemma RequestOptionsEncoded(srcMac: seq<u8>, hostname: seq<u8>, rt: RequestType, ip: u32, sid: u32)
    requires |srcMac| == 6 && |hostname| < 0x100
    ensures RequestOptions(srcMac, hostname, rt, ip, sid) == COOKIE + Encode(RequestOptList(srcMac, hostname, rt, ip, sid)) + [O_END]
  {
    RequestOptListEncoded(srcMac, hostname, rt, ip, sid);
    RequestHeadEncoded(srcMac);
    RequestBindingEncoded(rt, ip, sid);
    Regroup(COOKIE, [53, 1, 3, 55, 7, 1, 121, 3, 6, 15, 119, 252, 57, 2, 0x05, 0xdc, 61, 7, 1], srcMac,
            RequestBindingBytes(rt, ip, sid), [12, |hostname|], hostname, [255]);
  }

  lemma RequestOptListEncoded(srcMac: seq<u8>, hostname: seq<u8>, rt: RequestType, ip: u32, sid: u32)
    requires |srcMac| == 6 && |hostname| < 0x100
    ensures Encode(RequestOptList(srcMac, hostname, rt, ip, sid))
            == Encode(RequestHead(srcMac)) + Encode(RequestBinding(rt, ip, sid)) + [12, |hostname|] + hostname
  {
    var head, binding := RequestHead(srcMac), RequestBinding(rt, ip, sid);
    EncodeAppend(head, binding);
    EncodeAppend(head + binding, [Opt(12, hostname)]);
    EncodeCons(Opt(12, hostname), []);
    assert [Opt(12, hostname)] == [Opt(12, hostname)] + [];
  }

  /** What the client's option parser makes of the DHCPREQUEST option list:
      message type 3, and the server id only in the request answering an
      offer; the requested address (50) is an option it skips. */
  lemma RequestOptListApplied(srcMac: seq<u8>, hostname: seq<u8>, rt: RequestType, ip: u32, sid: u32)
    requires |srcMac| == 6 && |hostname| < 0x100
    ensures ApplyAll(NO_OPTIONS, RequestOptList(srcMac, hostname, rt, ip, sid))
            == Ok(NO_OPTIONS.(msgType := Some(3), serverId := if rt == RequestType.Discover then Some(sid) else None))
  {
    var name := Opt(12, hostname);
    var rest := RequestBinding(rt, ip, sid) + [name];
    assert RequestOptList(srcMac, hostname, rt, ip, sid) == RequestHead(srcMac) + rest;
    RequestHeadApplied(srcMac, rest);
    var d1 := NO_OPTIONS.(msgType := Some(3));
    if rt == RequestType.Discover {
      var d2 := d1.(serverId := Some(sid));
      var addr, server := Opt(50, Be32Bytes(ip)), Opt(54, Be32Bytes(sid));
      Be32RoundTrip(sid);
      assert Be32(Be32Bytes(sid)[..4]) == sid;
      ApplyAllCons(d2, name, [], d2);
      assert [name] == [name] + [];
      ApplyAllCons(d1, server, [name], d2);
      ApplyAllCons(d1, addr, [server] + [name], d1);
      assert rest == [addr] + ([server] + [name]);
    } else {
      ApplyAllCons(d1, name, [], d1);
      assert rest == [name] + [];
    }
  }

  /** The fixed head of a DHCPREQUEST sets message type 3 and nothing else
      the parser keeps. */
  lemma RequestHeadApplied(srcMac: seq<u8>, rest: seq<Opt>)
    requires |srcMac| == 6
    ensures ApplyAll(NO_OPTIONS, RequestHead(srcMac) + rest) == ApplyAll(NO_OPTIONS.(msgType := Some(3)), rest)
  {
    var h := RequestHead(srcMac);
    var d1 := NO_OPTIONS.(msgType := Some(3));
    assert h[4..] + rest == rest;
    ConsAppend(h[3..], rest);
    assert h[3..][1..] == h[4..];
    ApplyAllCons(d1, h[3], h[4..] + rest, d1);
    ConsAppend(h[2..], rest);
    assert h[2..][1..] == h[3..];
    ApplyAllCons(d1, h[2], h[3..] + rest, d1);
    ConsAppend(h[1..], rest);
    assert h[1..][1..] == h[2..];
    ApplyAllCons(d1, h[1], h[2..] + rest, d1);
    ConsAppend(h, rest);
    ApplyAllCons(NO_OPTIONS, h[0], h[1..] + rest, d1);
  }

  /** Read back with the client's own option parser, the 64 option bytes of
      a DHCPREQUEST say "message type 3", with the server id exactly in the
      request that answers an offer, as long as the hostname leaves room for
      the end option (20 bytes or fewer covers every request type). */
  lemma RequestOptionsParse(srcMac: seq<u8>, hostname: seq<u8>, rt: RequestType, ip: u32, sid: u32)
    requires |srcMac| == 6 && |hostname| <= 20
    ensures var opts := Fill(RequestOptions(srcMac, hostname, rt, ip, sid), DHCP_FRAME_LEN - HEADERS_LEN);
            && opts[..4] == COOKIE
            && Parse(opts[4..]) == Ok(NO_OPTIONS.(msgType := Some(3), serverId := if rt == RequestType.Discover then Some(sid) else None))
  {
    var os := RequestOptList(srcMac, hostname, rt, ip, sid);
    var raw := RequestOptions(srcMac, hostname, rt, ip, sid);
    var opts := Fill(raw, DHCP_FRAME_LEN - HEADERS_LEN);
    RequestOptionsEncoded(srcMac, hostname, rt, ip, sid);
    var pad := Zeros(DHCP_FRAME_LEN - HEADERS_LEN - |raw|);
    assert opts == COOKIE + (Encode(os) + [O_END] + pad);
    ParseEncoded(os, pad);
    RequestOptListApplied(srcMac, hostname, rt, ip, sid);
  }

  /** The same, read from the frame: the cookie at 278 and the options after
      it. */
  lemma RequestFrameOptions(c: FrameInputs, bufLen: nat, srcMac: seq<u8>, rt: RequestType, ipId: u16, now: nat, f: seq<u8>)
    requires Buildable(c) && |srcMac| == 6 && |c.hostname| <= 20
    requires RequestFrameOf(c, bufLen, srcMac, rt, ipId, now) == Ok(f)
    ensures c.sid.Some? && |f| == DHCP_FRAME_LEN && f[HEADERS_LEN..HEADERS_LEN + 4] == COOKIE
    ensures Parse(f[HEADERS_LEN + 4..])
            == Ok(NO_OPTIONS.(msgType := Some(3), serverId := if rt == RequestType.Discover then c.sid else None))
  {
    var (dstMac, ciaddr, ipSrc, ipDst) := RequestAddresses(rt, c.gatewayMac.value, c.ip.value, c.sid.value);
    var opts := Fill(RequestOptions(srcMac, c.hostname, rt, c.ip.value, c.sid.value), DHCP_FRAME_LEN - HEADERS_LEN);
    FrameOfCarriesOptions(c, srcMac, dstMac, ciaddr, ipId, ipSrc, ipDst, opts, now, f);
    OptionsAt(f, opts);
    RequestOptionsParse(srcMac, c.hostname, rt, c.ip.value, c.sid.value);
  }
}
