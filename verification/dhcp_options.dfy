/** The DHCP options parser of sw/net/src/dhcp.rs: the tag-length-value
    format of RFC 1533 section 2, keeping the six options the client uses. */
module DhcpOptions {
  import opened Wrappers
  import opened Bits

  const O_END: u8 := 255
  const O_PAD: u8 := 0
  const O_MSG_TYPE: u8 := 53
  const O_SERVER_ID: u8 := 54
  const O_IP_LEASE_TIME: u8 := 51
  const O_SUBNET_MASK: u8 := 1
  const O_GATEWAY_LIST: u8 := 3
  const O_DNS_LIST: u8 := 6

  /** The options a DHCP reply may carry that the client keeps. */
  datatype DhcpOption = DhcpOption(
    msgType: Option<u8>,
    serverId: Option<u32>,
    ipLeaseTime: Option<u32>,
    subnet: Option<u32>,
    gateway: Option<u32>,
    dns: Option<u32>)

  const NO_OPTIONS: DhcpOption := DhcpOption(None, None, None, None, None, None)

  /** `parse_first_be_u32`: the first address of a list whose length must be a
      non-zero multiple of four (`len & 3 == 0` is `len % 4 == 0`). */
  function ParseFirstBeU32(data: seq<u8>, e: u8): (r: Result<u32, u8>)
    ensures r.Ok? <==> |data| > 0 && |data| % 4 == 0
    ensures r.Err? ==> r.error == e
    ensures r.Ok? ==> Be32Bytes(r.value) == data[..4]
  {
    if |data| == 0 || |data| % 4 != 0 then Err(e)
    else
      Be32BytesRoundTrip(data[..4]);
      Ok(Be32(data[..4]))
  }

  /** `parse_msg_type`: exactly one byte, DHCPDISCOVER (1) to DHCPINFORM (8). */
  function ParseMsgType(d: DhcpOption, data: seq<u8>, e: u8): (r: Result<DhcpOption, u8>)
    ensures r.Ok? <==> |data| == 1 && 1 <= data[0] <= 8
    ensures r.Err? ==> r.error == e
    ensures r.Ok? ==> r.value.msgType == Some(data[0]) && r.value.(msgType := d.msgType) == d
  {
    if |data| == 1 && 1 <= data[0] <= 8 then Ok(d.(msgType := Some(data[0]))) else Err(e)
  }

  /** The six tags the client stores. */
  predicate KeptTag(tag: u8) {
    tag in {O_MSG_TYPE, O_SERVER_ID, O_IP_LEASE_TIME, O_SUBNET_MASK, O_GATEWAY_LIST, O_DNS_LIST}
  }

  /** The effect of one option on the accumulator: the six kept tags store
      their value (or fail with their own error code, 0x11 to 0x16), every
      other tag is skipped. */
  function ApplyOption(d: DhcpOption, tag: u8, data: seq<u8>): (r: Result<DhcpOption, u8>)
    ensures !KeptTag(tag) ==> r == Ok(d)
    ensures r.Err? ==> 0x11 <= r.error <= 0x16
  {
    if tag == O_MSG_TYPE then ParseMsgType(d, data, 0x11)
    else if tag == O_SERVER_ID then
      (match ParseFirstBeU32(data, 0x12) case Ok(v) => Ok(d.(serverId := Some(v))) case Err(e) => Err(e))
    else if tag == O_IP_LEASE_TIME then
      (match ParseFirstBeU32(data, 0x13) case Ok(v) => Ok(d.(ipLeaseTime := Some(v))) case Err(e) => Err(e))
    else if tag == O_SUBNET_MASK then
      (match ParseFirstBeU32(data, 0x14) case Ok(v) => Ok(d.(subnet := Some(v))) case Err(e) => Err(e))
    else if tag == O_GATEWAY_LIST then
      (match ParseFirstBeU32(data, 0x15) case Ok(v) => Ok(d.(gateway := Some(v))) case Err(e) => Err(e))
    else if tag == O_DNS_LIST then
      (match ParseFirstBeU32(data, 0x16) case Ok(v) => Ok(d.(dns := Some(v))) case Err(e) => Err(e))
    else Ok(d)
  }

  /** The options from index `i` on, as the parser reads them: stop at the
      end of the block or at tag 255, skip tag 0 alone, otherwise read a
      length byte (Err 0x01 if it is missing) and that many data bytes
      (Err 0x02 if they overrun the block). */
  function Scan(options: seq<u8>, i: nat, d: DhcpOption): Result<DhcpOption, u8>
    decreases |options| - i
  {
    if i >= |options| || options[i] == O_END then Ok(d)
    else if options[i] == O_PAD then Scan(options, i + 1, d)
    else if i + 1 >= |options| then Err(0x01)
    else
      var j := i + 2 + options[i + 1];
      if j > |options| then Err(0x02)
      else
        match ApplyOption(d, options[i], options[i + 2..j])
        case Err(e) => Err(e)
        case Ok(d') => Scan(options, j, d')
  }

  /** What `parse_options` returns for a whole options block. */
  function Parse(options: seq<u8>): Result<DhcpOption, u8> {
    Scan(options, 0, NO_OPTIONS)
  }

  /** `parse_options`, with the `for` loop bounded by `options.len()` kept and
      the index guarded against running off the end after trailing pad bytes
      (see the as-written model below). The index strictly increases on every
      iteration. */
  method ParseOptions(options: seq<u8>) returns (r: Result<DhcpOption, u8>)
    ensures r == Parse(options)
  {
    var d := NO_OPTIONS;
    var i: nat := 0;
    var n := 0;
    while n < |options|
      invariant i <= |options| && n <= i
      invariant Scan(options, i, d) == Parse(options)
      decreases |options| - i
    {
      if i >= |options| {
        break;
      }
      var tag := options[i];
      if tag == O_END {
        break;
      }
      if tag == O_PAD {
        i := i + 1;
        n := n + 1;
        continue;
      }
      ghost var at, d0 := i, d;
      i := i + 1;
      if i >= |options| {
        return Err(0x01);
      }
      var len := options[i];
      i := i + 1;
      var end := i + len;
      if end > |options| {
        return Err(0x02);
      }
      var applied := ApplyOption(d, tag, options[i..end]);
      if applied.Err? {
        return Err(applied.error);
      }
      d := applied.value;
      i := end;
      assert Scan(options, at, d0) == Scan(options, i, d);
      if i == |options| {
        break;
      }
      n := n + 1;
    }
    r := Ok(d);
  }

  /** `parse_options` exactly as written: at most `options.len()` iterations,
      and the tag at index `i` is read without checking `i < options.len()`.
      `None` stands for the out-of-bounds panic. */
  function ScanAsWritten(options: seq<u8>, i: nat, iters: nat, d: DhcpOption): Option<Result<DhcpOption, u8>>
    decreases iters
  {
    if iters == 0 then Some(Ok(d))
    else if i >= |options| then None
    else if options[i] == O_END then Some(Ok(d))
    else if options[i] == O_PAD then ScanAsWritten(options, i + 1, iters - 1, d)
    else if i + 1 >= |options| then Some(Err(0x01))
    else
      var j := i + 2 + options[i + 1];
      if j > |options| then Some(Err(0x02))
      else
        match ApplyOption(d, options[i], options[i + 2..j])
        case Err(e) => Some(Err(e))
        case Ok(d') =>
          if j == |options| then Some(Ok(d'))
          else ScanAsWritten(options, j, iters - 1, d')
  }

  function ParseOptionsAsWritten(options: seq<u8>): Option<Result<DhcpOption, u8>> {
    ScanAsWritten(options, 0, |options|, NO_OPTIONS)
  }

  /** A pad byte after the last option, with no end option, sends the index to
      `options.len()` while iterations remain, and the next tag read is out of
      bounds; the guarded parser accepts the block. */
  lemma TrailingPadPanics()
    ensures ParseOptionsAsWritten([12, 0, 0]) == None
    ensures Parse([12, 0, 0]) == Ok(NO_OPTIONS)
  {
    assert ApplyOption(NO_OPTIONS, 12, []) == Ok(NO_OPTIONS);
  }

  /** Whenever the code as written does not panic, it returns what the guarded
      parser returns. */
  lemma {:induction false} ScanAgreesUnlessPanic(options: seq<u8>, i: nat, iters: nat, d: DhcpOption)
    requires i + iters >= |options|
    requires ScanAsWritten(options, i, iters, d).Some?
    ensures ScanAsWritten(options, i, iters, d).value == Scan(options, i, d)
    decreases iters
  {
    if iters > 0 && i < |options| && options[i] != O_END {
      if options[i] == O_PAD {
        ScanAgreesUnlessPanic(options, i + 1, iters - 1, d);
      } else if i + 1 < |options| {
        var j := i + 2 + options[i + 1];
        if j <= |options| {
          match ApplyOption(d, options[i], options[i + 2..j])
          case Err(_) =>
          case Ok(d') =>
            if j < |options| {
              ScanAgreesUnlessPanic(options, j, iters - 1, d');
            }
        }
      }
    }
  }

  lemma AsWrittenAgreesUnlessPanic(options: seq<u8>)
    requires ParseOptionsAsWritten(options).Some?
    ensures ParseOptionsAsWritten(options).value == Parse(options)
  {
    ScanAgreesUnlessPanic(options, 0, |options|, NO_OPTIONS);
  }

  /** The parse from index `i` depends only on the bytes from `i` on. */
  lemma {:induction false} ScanSuffix(options: seq<u8>, i: nat, d: DhcpOption)
    requires i <= |options|
    ensures Scan(options, i, d) == Scan(options[i..], 0, d)
    decreases |options| - i
  {
    var rest := options[i..];
    if i < |options| && options[i] != O_END {
      if options[i] == O_PAD {
        ScanSuffix(options, i + 1, d);
        ScanSuffix(rest, 1, d);
        assert rest[1..] == options[i + 1..];
      } else if i + 1 < |options| {
        var j := i + 2 + options[i + 1];
        if j <= |options| {
          assert rest[2..j - i] == options[i + 2..j];
          match ApplyOption(d, options[i], options[i + 2..j])
          case Err(_) =>
          case Ok(d') =>
            ScanSuffix(options, j, d');
            ScanSuffix(rest, j - i, d');
            assert rest[j - i..] == options[j..];
        }
      }
    }
  }

  /** Pad bytes between options change nothing (RFC 1533 section 3.1). */
  lemma PadIgnored(before: seq<u8>, after: seq<u8>, d: DhcpOption)
    ensures Scan(before + [O_PAD] + after, |before|, d) == Scan(before + after, |before|, d)
  {
    var o, o' := before + [O_PAD] + after, before + after;
    ScanSuffix(o, |before| + 1, d);
    ScanSuffix(o', |before|, d);
    assert o[|before| + 1..] == after == o'[|before|..];
  }

  /** Nothing after the end option is read. */
  lemma EndStopsParse(before: seq<u8>, rest: seq<u8>, junk: seq<u8>, d: DhcpOption)
    ensures Scan(before + [O_END] + rest, |before|, d) == Scan(before + [O_END] + junk, |before|, d) == Ok(d)
  {
  }

  /** One option encoded as tag, length, data. */
  function Tlv(tag: u8, data: seq<u8>): (r: seq<u8>)
    requires |data| < 0x100
    ensures |r| == |data| + 2
  {
    [tag, |data|] + data
  }

  /** Reading one encoded option at `i` applies it and moves past it. */
  lemma ScanTlv(options: seq<u8>, i: nat, tag: u8, data: seq<u8>, d: DhcpOption)
    requires |data| < 0x100 && tag != O_PAD && tag != O_END
    requires i + |data| + 2 <= |options| && options[i..i + |data| + 2] == Tlv(tag, data)
    ensures Scan(options, i, d) ==
              match ApplyOption(d, tag, data)
              case Err(e) => Err(e)
              case Ok(d') => Scan(options, i + |data| + 2, d')
  {
    assert options[i] == tag && options[i + 1] == |data|;
    assert options[i + 2..i + 2 + |data|] == data;
  }

  /** Encoding a 32-bit value under one of the address or lease tags and
      parsing it back yields that value in the matching field. */
  lemma U32OptionRoundTrip(tag: u8, v: u32, d: DhcpOption)
    requires tag in {O_SERVER_ID, O_IP_LEASE_TIME, O_SUBNET_MASK, O_GATEWAY_LIST, O_DNS_LIST}
    ensures var r := Parse(Tlv(tag, Be32Bytes(v)) + [O_END]);
            r.Ok? &&
            (tag == O_SERVER_ID ==> r.value == NO_OPTIONS.(serverId := Some(v))) &&
            (tag == O_IP_LEASE_TIME ==> r.value == NO_OPTIONS.(ipLeaseTime := Some(v))) &&
            (tag == O_SUBNET_MASK ==> r.value == NO_OPTIONS.(subnet := Some(v))) &&
            (tag == O_GATEWAY_LIST ==> r.value == NO_OPTIONS.(gateway := Some(v))) &&
            (tag == O_DNS_LIST ==> r.value == NO_OPTIONS.(dns := Some(v)))
  {
    var o := Tlv(tag, Be32Bytes(v)) + [O_END];
    Be32RoundTrip(v);
    ScanTlv(o, 0, tag, Be32Bytes(v), NO_OPTIONS);
    assert Be32Bytes(v)[..4] == Be32Bytes(v);
  }

  /** One option to encode: its tag and data bytes. */
  datatype Opt = Opt(tag: u8, data: seq<u8>)

  predicate Encodable(os: seq<Opt>) {
    forall k :: 0 <= k < |os| ==> os[k].tag != O_PAD && os[k].tag != O_END && |os[k].data| < 0x100
  }

  /** A list of options in tag-length-value form, one after the other. */
  function Encode(os: seq<Opt>): seq<u8>
    requires Encodable(os)
    decreases |os|
  {
    if |os| == 0 then [] else Tlv(os[0].tag, os[0].data) + Encode(os[1..])
  }

  /** The accumulator after applying each option in turn. */
  function ApplyAll(d: DhcpOption, os: seq<Opt>): Result<DhcpOption, u8>
    decreases |os|
  {
    if |os| == 0 then Ok(d)
    else
      match ApplyOption(d, os[0].tag, os[0].data)
      case Err(e) => Err(e)
      case Ok(d') => ApplyAll(d', os[1..])
  }

  lemma {:induction false} ScanEncoded(os: seq<Opt>, rest: seq<u8>, d: DhcpOption)
    requires Encodable(os)
    ensures Scan(Encode(os) + rest, 0, d) ==
              match ApplyAll(d, os)
              case Err(e) => Err(e)
              case Ok(d') => Scan(rest, 0, d')
    decreases |os|
  {
    if |os| > 0 {
      ScanFirst(os, rest, d);
      match ApplyOption(d, os[0].tag, os[0].data)
      case Err(e) =>
        assert ApplyAll(d, os) == Err(e);
      case Ok(d') =>
        assert ApplyAll(d, os) == ApplyAll(d', os[1..]);
        ScanEncoded(os[1..], rest, d');
    } else {
      assert Encode(os) + rest == rest;
    }
  }

  /** Scanning an encoded list applies its first option and goes on with
      the encoding of the others. */
  lemma ScanFirst(os: seq<Opt>, rest: seq<u8>, d: DhcpOption)
    requires Encodable(os) && |os| > 0
    ensures Encodable(os[1..])
    ensures Scan(Encode(os) + rest, 0, d) ==
              match ApplyOption(d, os[0].tag, os[0].data)
              case Err(e) => Err(e)
              case Ok(d') => Scan(Encode(os[1..]) + rest, 0, d')
  {
    var o := Encode(os) + rest;
    var t := Tlv(os[0].tag, os[0].data);
    assert o == t + (Encode(os[1..]) + rest);
    assert o[0..|t|] == t;
    ScanTlv(o, 0, os[0].tag, os[0].data, d);
    if ApplyOption(d, os[0].tag, os[0].data).Ok? {
      var d' := ApplyOption(d, os[0].tag, os[0].data).value;
      assert Scan(o, 0, d) == Scan(o, |t|, d');
      ScanSuffix(o, |t|, d');
      assert o[|t|..] == Encode(os[1..]) + rest;
    }
  }

  /** Encoding distributes over concatenation of option lists. */
  lemma {:induction false} EncodeAppend(a: seq<Opt>, b: seq<Opt>)
    requires Encodable(a) && Encodable(b)
    ensures Encodable(a + b) && Encode(a + b) == Encode(a) + Encode(b)
    decreases |a|
  {
    if |a| == 0 {
      assert a + b == b;
    } else {
      assert (a + b)[1..] == a[1..] + b;
      EncodeAppend(a[1..], b);
    }
  }

  /** Encoding a list of options, closing it with the end option and padding,
      then parsing it, applies exactly those options. */
  lemma ParseEncoded(os: seq<Opt>, pad: seq<u8>)
    requires Encodable(os)
    ensures Parse(Encode(os) + [O_END] + pad) == ApplyAll(NO_OPTIONS, os)
  {
    assert Encode(os) + [O_END] + pad == Encode(os) + ([O_END] + pad);
    ScanEncoded(os, [O_END] + pad, NO_OPTIONS);
  }
}
