/** The word packing of the COM verbs handled in the EC main loop
    (sw/src/main.rs). The SoC sends a 16-bit verb, possibly followed by
    argument words, and the EC answers with 16-bit words.

    `com_rx(timeout)` is modelled by its outcome: `Some(word)` when a word
    arrived in time, `None` on a timeout. The words the EC sends with
    `com_tx` are the result of each handler. */
module ComVerbs {
  import opened Wrappers
  import opened Bits

  const FLASH_ACK: u16 := 0x3CC3
  const LOOP_TEST: u16 := 0x4000
  const BL_START: u16 := 0x6800
  const BL_END: u16 := 0x6BFF
  /** The reply to an unknown verb. */
  const ERROR: u16 := 0xDEAD
  /** The default design capacity, in mAh. */
  const DEFAULT_CAPACITY: u16 := 1100
  const WIFI_MTU: nat := 1500
  /** Words in one flash page or one PDS line. */
  const PAGE_WORDS: nat := 128

  // ---------------------------------------------------------------------
  // Backlight: the verb carries both levels

  /** The main and secondary backlight levels carried by a backlight verb. */
  function BacklightLevels(rx: u16): (r: (nat, nat))
    requires BL_START <= rx <= BL_END
    ensures r.0 <= 31 && r.1 <= 31
  {
    (rx % 0x20, (rx / 0x20) % 0x20)
  }

  /** The backlight verb the SoC sends for two levels. */
  function BacklightVerb(main: nat, secondary: nat): u16
    requires main < 32 && secondary < 32
  {
    BL_START + secondary * 0x20 + main
  }

  /** Every pair of levels has a verb in the range, which decodes back. */
  lemma BacklightRoundTrip(main: nat, secondary: nat)
    requires main < 32 && secondary < 32
    ensures BL_START <= BacklightVerb(main, secondary) <= BL_END
    ensures BacklightLevels(BacklightVerb(main, secondary)) == (main, secondary)
  {
    var rx := BacklightVerb(main, secondary);
    assert rx == (0x340 + secondary) * 0x20 + main;
    assert rx / 0x20 == 0x340 + secondary;
    assert (0x340 + secondary) % 0x20 == secondary;
  }

  /** Every verb of the range is the verb of its own levels. */
  lemma BacklightVerbsOnto(rx: u16)
    requires BL_START <= rx <= BL_END
    ensures BacklightVerb(BacklightLevels(rx).0, BacklightLevels(rx).1) == rx
  {
    var q := rx / 0x20;
    assert 0x340 <= q < 0x360;
    assert q % 0x20 == q - 0x340;
  }

  // ---------------------------------------------------------------------
  // GG_FACTORY_CAPACITY: the capacity sanity check

  /** The capacity handed to the gas gauge: one at or above 1900 mAh or
      at or below 600 mAh is taken for a protocol error and replaced. */
  function SaneCapacity(c: u16): (r: u16)
    ensures 600 < r < 1900
    ensures 600 < c < 1900 ==> r == c
    ensures c >= 1900 || c <= 600 ==> r == DEFAULT_CAPACITY
  {
    var c1 := if c >= 1900 then DEFAULT_CAPACITY else c;
    if c1 <= 600 then DEFAULT_CAPACITY else c1
  }

  /** The capacity written to the gauge (None: nothing is written and the
      reply is `ERROR`). */
  function FactoryCapacity(arg: Option<u16>): (r: Option<u16>)
    ensures r.Some? <==> arg.Some?
    ensures r.Some? ==> 600 < r.value < 1900
  {
    match arg
    case None => None
    case Some(c) => Some(SaneCapacity(c))
  }

  /** The check is idempotent: a sane capacity passes unchanged. */
  lemma SaneCapacityIdempotent(c: u16)
    ensures SaneCapacity(SaneCapacity(c)) == SaneCapacity(c)
  {
  }

  // ---------------------------------------------------------------------
  // FLASH_ERASE and FLASH_PP: 32-bit arguments and page bytes

  /** A 32-bit value sent as two words, most significant first. */
  function Word32(hi: u16, lo: u16): (r: u32)
    ensures r / 0x1_0000 == hi && r % 0x1_0000 == lo
  {
    hi * 0x1_0000 + lo
  }

  /** The two words the SoC sends for a 32-bit value. */
  function Words32(x: u32): (r: seq<u16>)
    ensures |r| == 2 && Word32(r[0], r[1]) == x
  {
    [x / 0x1_0000, x % 0x1_0000]
  }

  /** A 32-bit argument from two `com_rx` outcomes; a timeout on either
      makes it an error. */
  function Arg32(hi: Option<u16>, lo: Option<u16>): (r: Option<u32>)
    ensures r.Some? <==> hi.Some? && lo.Some?
  {
    if hi.Some? && lo.Some? then Some(Word32(hi.value, lo.value)) else None
  }

  /** FLASH_ERASE: the address and the length in bytes, from four words. */
  function FlashEraseArgs(rx: seq<Option<u16>>): (r: Option<(u32, u32)>)
    requires |rx| == 4
    ensures r.Some? <==> forall i :: 0 <= i < 4 ==> rx[i].Some?
  {
    var addr := Arg32(rx[0], rx[1]);
    var len := Arg32(rx[2], rx[3]);
    if addr.Some? && len.Some? then Some((addr.value, len.value)) else None
  }

  /** The words of a 32-bit value, as received without a timeout. */
  function Received(ws: seq<u16>): (r: seq<Option<u16>>)
    ensures |r| == |ws| && forall i :: 0 <= i < |ws| ==> r[i] == Some(ws[i])
  {
    seq(|ws|, i requires 0 <= i < |ws| => Some(ws[i]))
  }

  /** The erase arguments the SoC sends are the ones the EC uses. */
  lemma FlashEraseRoundTrip(addr: u32, len: u32)
    ensures |Received(Words32(addr) + Words32(len))| == 4
    ensures FlashEraseArgs(Received(Words32(addr) + Words32(len))) == Some((addr, len))
  {
    var rx := Received(Words32(addr) + Words32(len));
    assert rx[0] == Some(Words32(addr)[0]) && rx[1] == Some(Words32(addr)[1]);
    assert rx[2] == Some(Words32(len)[0]) && rx[3] == Some(Words32(len)[1]);
  }

  /** Byte `j` of a page received from word outcomes: words are unpacked
      little-endian, and a word that timed out leaves its bytes zero. */
  function PageByte(rx: seq<Option<u16>>, j: nat): u8
    requires j < 2 * |rx|
  {
    match rx[j / 2]
    case None => 0
    case Some(w) => if j % 2 == 0 then w % 0x100 else w / 0x100
  }

  /** The page received from the word outcomes `rx`. */
  function PageOf(rx: seq<Option<u16>>): (page: seq<u8>)
    ensures |page| == 2 * |rx|
  {
    seq(2 * |rx|, j requires 0 <= j < 2 * |rx| => PageByte(rx, j))
  }

  /** The words the SoC sends for a page: byte `2i` is the low byte of word
      `i`. */
  function PageWords(page: seq<u8>): (ws: seq<u16>)
    requires |page| % 2 == 0
    ensures |ws| == |page| / 2
  {
    seq(|page| / 2, i requires 0 <= i < |page| / 2 => page[2 * i] + page[2 * i + 1] as int * 0x100)
  }

  /** The receive loop of FLASH_PP and WFX_PDS_LINE_SET: always read 128
      words, keep going after a timeout, and report whether every word
      arrived. */
  method ReceivePage(rx: seq<Option<u16>>) returns (page: seq<u8>, ok: bool)
    requires |rx| == PAGE_WORDS
    ensures page == PageOf(rx)
    ensures ok <==> forall i :: 0 <= i < PAGE_WORDS ==> rx[i].Some?
  {
    var buf := new u8[2 * PAGE_WORDS](_ => 0);
    ok := true;
    for i := 0 to PAGE_WORDS
      invariant forall j :: 0 <= j < 2 * i ==> buf[j] == PageByte(rx, j)
      invariant forall j :: 2 * i <= j < buf.Length ==> buf[j] == 0
      invariant ok <==> forall k :: 0 <= k < i ==> rx[k].Some?
    {
      match rx[i]
      case Some(w) =>
        buf[i * 2] := w % 0x100;
        buf[i * 2 + 1] := w / 0x100;
      case None =>
        ok := false;
    }
    page := buf[..];
  }

  /** A page goes through the COM words unchanged. */
  lemma PageRoundTrip(page: seq<u8>)
    requires |page| % 2 == 0
    ensures PageOf(Received(PageWords(page))) == page
  {
    var rx := Received(PageWords(page));
    forall j | 0 <= j < |page|
      ensures PageOf(rx)[j] == page[j]
    {
      var i := j / 2;
      assert rx[i] == Some(page[2 * i] + page[2 * i + 1] as int * 0x100);
    }
  }

  /** FLASH_PP: the page address and the 256 page bytes, from 130 words;
      None when any word timed out (nothing is programmed). */
  method FlashProgramArgs(rx: seq<Option<u16>>) returns (r: Option<(u32, seq<u8>)>)
    requires |rx| == 2 + PAGE_WORDS
    ensures r.Some? <==> forall i :: 0 <= i < |rx| ==> rx[i].Some?
    ensures r.Some? ==> r.value == (Word32(rx[0].value, rx[1].value), PageOf(rx[2..]))
  {
    var addr := Arg32(rx[0], rx[1]);
    var page, ok := ReceivePage(rx[2..]);
    if addr.Some? && ok {
      r := Some((addr.value, page));
    } else {
      r := None;
      assert !(rx[0].Some? && rx[1].Some?) || exists i :: 0 <= i < PAGE_WORDS && rx[2..][i].None?;
    }
  }

  /** WFX_PDS_LINE_SET: a length in bytes and always 128 data words; the
      line is passed on only when every word arrived and the length is
      below 256. */
  method PdsLineArgs(rx: seq<Option<u16>>) returns (r: Option<(seq<u8>, u16)>)
    requires |rx| == 1 + PAGE_WORDS
    ensures r.Some? <==> (forall i :: 0 <= i < |rx| ==> rx[i].Some?) && rx[0].value < 256
    ensures r.Some? ==> r.value == (PageOf(rx[1..]), rx[0].value)
  {
    var error := false;
    var pdsLength: u16 := 0;
    match rx[0] {
      case Some(w) => pdsLength := w;
      case None => error := true;
    }
    if pdsLength >= 256 {
      error := true;
    }
    var page, ok := ReceivePage(rx[1..]);
    if !error && ok {
      r := Some((page, pdsLength));
    } else {
      r := None;
      assert rx[0].None? || rx[0].value >= 256 || exists i :: 0 <= i < PAGE_WORDS && rx[1..][i].None?;
    }
  }

  // ---------------------------------------------------------------------
  // NET_FRAME_FETCH and NET_FRAME_SEND: frames as big-endian words

  /** The number of words that carry `n` bytes. */
  function NumWords(n: nat): (w: nat)
    ensures n <= 2 * w <= n + 1
  {
    if n % 2 == 0 then n / 2 else n / 2 + 1
  }

  /** Word `k` of a fetched frame as written: the guard of the CLNetFetch handler
      subtracts 2 from the frame length, which underflows (a panic) for a
      one-byte frame; None stands for that panic. Its 0xDEAD filler
      is left out: `k` below the word count puts `2k` inside the
      frame, so it cannot be reached. */
  function FetchWordAsWritten(p: seq<u8>, k: nat): Option<u16>
    requires k < NumWords(|p|)
  {
    if |p| < 2 then None
    else if 2 * k <= |p| - 2 then Some(p[2 * k] as int * 0x100 + p[2 * k + 1])
    else Some(p[2 * k] as int * 0x100)
  }

  /** Word `k` of a fetched frame, most significant byte first; an odd last
      byte is padded with zero. */
  function FetchWord(p: seq<u8>, k: nat): u16
    requires k < NumWords(|p|)
  {
    if 2 * k + 2 <= |p| then p[2 * k] as int * 0x100 + p[2 * k + 1] else p[2 * k] as int * 0x100
  }

  /** The words the EC sends for frame `p`. */
  function FetchWordsOf(p: seq<u8>): (ws: seq<u16>)
    ensures |ws| == NumWords(|p|)
  {
    seq(NumWords(|p|), k requires 0 <= k < NumWords(|p|) => FetchWord(p, k))
  }

  /** A one-byte frame makes NET_FRAME_FETCH panic. */
  lemma OneByteFetchPanics(b: u8)
    ensures NumWords(|[b]|) == 1 && FetchWordAsWritten([b], 0) == None
  {
  }

  /** From two bytes on, the code as written sends the corrected words, and
      its 0xDEAD filler is never reached. */
  lemma FetchAsWrittenFromTwoBytes(p: seq<u8>, k: nat)
    requires |p| >= 2 && k < NumWords(|p|)
    ensures FetchWordAsWritten(p, k) == Some(FetchWord(p, k))
  {
  }

  /** NET_FRAME_FETCH: send the pending frame as `ceil(len/2)` words,
      whatever length the verb announced. */
  method FetchFrame(p: seq<u8>) returns (words: seq<u16>)
    ensures words == FetchWordsOf(p)
  {
    var packetWords := NumWords(|p|);
    words := [];
    var wordsSent := 0;
    while wordsSent < packetWords
      invariant wordsSent <= packetWords && |words| == wordsSent
      invariant forall k :: 0 <= k < wordsSent ==> words[k] == FetchWord(p, k)
    {
      if wordsSent * 2 + 2 <= |p| {
        words := words + [p[wordsSent * 2] as int * 0x100 + p[wordsSent * 2 + 1]];
      } else {
        words := words + [p[wordsSent * 2] as int * 0x100];
      }
      wordsSent := wordsSent + 1;
    }
  }

  /** Byte `j` of the big-endian unpacking of the received words. */
  function SendByte(rx: seq<Option<u16>>, j: nat): u8
    requires j < 2 * |rx| && rx[j / 2].Some?
  {
    var w := rx[j / 2].value;
    if j % 2 == 0 then w / 0x100 else w % 0x100
  }

  /** The frame NET_FRAME_SEND passes on for `numBytes` announced bytes:
      None when a word timed out or the frame does not fit the MTU. */
  function SendOf(numBytes: nat, rx: seq<Option<u16>>): (r: Option<seq<u8>>)
    requires |rx| == NumWords(numBytes)
    ensures r.Some? ==> |r.value| == numBytes <= WIFI_MTU
  {
    if numBytes > WIFI_MTU || exists k :: 0 <= k < |rx| && rx[k].None? then None
    else Some(seq(numBytes, j requires 0 <= j < numBytes => SendByte(rx, j)))
  }

  /** NET_FRAME_SEND: always drain the announced number of words, store
      them big-endian in an MTU-sized buffer, and flag an error for a
      timeout or for a word that would not fit. */
  method ReceiveFrame(verb: u16, rx: seq<Option<u16>>) returns (frame: Option<seq<u8>>)
    requires |rx| == NumWords(verb % 0x800)
    ensures frame == SendOf(verb % 0x800, rx)
  {
    var txbuf := new u8[WIFI_MTU](_ => 0);
    var numBytes := verb % 0x800;
    var numWords := NumWords(numBytes);
    var error := false;
    var wordsReceived := 0;
    while wordsReceived < numWords
      invariant wordsReceived <= numWords
      invariant error <==> exists k :: 0 <= k < wordsReceived && (rx[k].None? || 2 * k + 1 >= WIFI_MTU)
      invariant forall j :: 0 <= j < 2 * wordsReceived && j < WIFI_MTU && rx[j / 2].Some? ==>
                  txbuf[j] == SendByte(rx, j)
    {
      match rx[wordsReceived] {
        case Some(w) =>
          if wordsReceived * 2 + 1 < WIFI_MTU {
            txbuf[wordsReceived * 2] := w / 0x100;
            txbuf[wordsReceived * 2 + 1] := w % 0x100;
          } else {
            error := true;
          }
        case None =>
          error := true;
      }
      wordsReceived := wordsReceived + 1;
    }
    var last := WIFI_MTU / 2;
    assert numBytes > WIFI_MTU ==> last < numWords && 2 * last + 1 >= WIFI_MTU;
    if !error {
      assert forall k :: 0 <= k < numWords ==> rx[k].Some?;
      assert txbuf[..numBytes] == seq(numBytes, j requires 0 <= j < numBytes => SendByte(rx, j));
      frame := Some(txbuf[..numBytes]);
    } else {
      var k :| 0 <= k < numWords && (rx[k].None? || 2 * k + 1 >= WIFI_MTU);
      frame := None;
    }
  }

  /** Fetching a frame of at most the MTU and sending the words back gives
      the frame again, for even and odd lengths alike. */
  lemma FetchSendRoundTrip(p: seq<u8>)
    requires |p| <= WIFI_MTU
    ensures |Received(FetchWordsOf(p))| == NumWords(|p| % 0x800)
    ensures SendOf(|p| % 0x800, Received(FetchWordsOf(p))) == Some(p)
  {
    var rx := Received(FetchWordsOf(p));
    assert |p| % 0x800 == |p|;
    assert forall k :: 0 <= k < |rx| ==> rx[k].Some?;
    var bytes := seq(|p|, j requires 0 <= j < |p| => SendByte(rx, j));
    assert SendOf(|p|, rx) == Some(bytes);
    forall j | 0 <= j < |p|
      ensures bytes[j] == p[j]
    {
      var k := j / 2;
      assert rx[k] == Some(FetchWord(p, k));
    }
    assert bytes == p;
  }

  // ---------------------------------------------------------------------
  // UPTIME and the error counters: wide values as 16-bit words

  function Pow16(n: nat): (r: nat)
    ensures r >= 1
  {
    if n == 0 then 1 else 0x1_0000 * Pow16(n - 1)
  }

  /** The value of words sent least significant first. */
  function Assemble(ws: seq<u16>): nat {
    if ws == [] then 0 else Assemble(ws[..|ws| - 1]) + Pow16(|ws| - 1) * ws[|ws| - 1]
  }

  /** UPTIME: the 64-bit tick count as four words, least significant
      first. */
  method UptimeWords(ticks: nat) returns (words: seq<u16>)
    requires ticks < Pow16(4)
    ensures |words| == 4 && words[0] == ticks % 0x1_0000
    ensures Assemble(words) == ticks
  {
    var time: nat := ticks;
    words := [];
    var i := 0;
    while i < 4
      invariant 0 <= i <= 4 && |words| == i
      invariant ticks == Assemble(words) + Pow16(i) * time
      invariant time < Pow16(4 - i)
      invariant i > 0 ==> words[0] == ticks % 0x1_0000
    {
      UptimeStep(words, time);
      words := words + [time % 0x1_0000];
      time := time / 0x1_0000;
      i := i + 1;
    }
  }

  /** Moving the low word of `t` out of the remaining value keeps the sum. */
  lemma UptimeStep(ws: seq<u16>, t: nat)
    requires |ws| < 4 && t < Pow16(4 - |ws|)
    ensures Assemble(ws + [t % 0x1_0000]) + Pow16(|ws| + 1) * (t / 0x1_0000) == Assemble(ws) + Pow16(|ws|) * t
    ensures t / 0x1_0000 < Pow16(4 - |ws| - 1)
  {
    var w, h := t % 0x1_0000, t / 0x1_0000;
    var p, q := Pow16(|ws|), Pow16(4 - |ws| - 1);
    assert Pow16(|ws| + 1) == 0x1_0000 * p;
    assert Pow16(4 - |ws|) == 0x1_0000 * q;
    assert (ws + [w])[..|ws|] == ws;
    assert Assemble(ws + [w]) == Assemble(ws) + p * w;
    ShiftWord(t, p, q);
  }

  /** One step of UPTIME's shift: the low word moves into the sum. */
  lemma ShiftWord(t: nat, p: nat, q: nat)
    requires t < 0x1_0000 * q
    ensures p * t == p * (t % 0x1_0000) + (0x1_0000 * p) * (t / 0x1_0000)
    ensures t / 0x1_0000 < q
  {
    var h, l := t / 0x1_0000, t % 0x1_0000;
    assert t == 0x1_0000 * h + l;
    assert p * t == p * l + (0x1_0000 * p) * h;
  }

  /** WLAN_GET_ERRCOUNTS: a 32-bit counter as two words, least significant
      first, from which the SoC recovers the count. */
  function CounterWords(c: u32): (ws: seq<u16>)
    ensures |ws| == 2 && Assemble(ws) == c
  {
    var ws := [c % 0x1_0000, c / 0x1_0000];
    assert ws[..1] == [c % 0x1_0000] && [c % 0x1_0000][..0] == [];
    assert Pow16(1) == 0x1_0000;
    assert Assemble([c % 0x1_0000]) == c % 0x1_0000;
    assert Assemble(ws) == c % 0x1_0000 + 0x1_0000 * (c / 0x1_0000);
    ws
  }

  // ---------------------------------------------------------------------
  // Counters of the main loop

  /** The reply to LOOP_TEST: the verb's low byte, then the sentinel's low
      byte. */
  function LoopReply(rx: u16, sentinel: u16): (r: u16)
    ensures r % 0x100 == rx % 0x100 && r / 0x100 == sentinel % 0x100
  {
    rx % 0x100 + (sentinel % 0x100) * 0x100
  }

  /** Successive LOOP_TEST replies count up by one in their high byte,
      modulo 256, across the wrap of the 16-bit sentinel. */
  lemma LoopRepliesCount(s: u16)
    ensures LoopReply(LOOP_TEST, (s + 1) % 0x1_0000) / 0x100 == (LoopReply(LOOP_TEST, s) / 0x100 + 1) % 0x100
  {
  }

  /** WLAN_STATUS: the encoded status string, or zeros when formatting or
      encoding failed; `n` words either way. */
  function StatusReply(encoded: Option<seq<u16>>, n: nat): (ws: seq<u16>)
    requires encoded.Some? ==> |encoded.value| == n
    ensures |ws| == n
    ensures encoded.None? ==> forall i :: 0 <= i < n ==> ws[i] == 0
  {
    if encoded.Some? then encoded.value else seq(n, _ => 0)
  }

  /** The counters the main loop keeps across verbs. */
  class MainLoop {
    var comSentinel: u16
    var txErrs: u32

    constructor New()
      ensures comSentinel == 0 && txErrs == 0
    {
      comSentinel, txErrs := 0, 0;
    }

    /** LOOP_TEST: reply with the sentinel and advance it (wrapping). */
    method LoopTest() returns (reply: u16)
      modifies this`comSentinel
      ensures reply == LoopReply(LOOP_TEST, old(comSentinel))
      ensures comSentinel == (old(comSentinel) + 1) % 0x1_0000
    {
      reply := LoopReply(LOOP_TEST, comSentinel);
      comSentinel := (comSentinel + 1) % 0x1_0000;
    }

    /** NET_FRAME_SEND: receive the frame; `sendFails` is the outcome of
        handing it to the radio, and a failure counts a transmit error. */
    method NetFrameSend(verb: u16, rx: seq<Option<u16>>, sendFails: bool) returns (sent: Option<seq<u8>>)
      requires |rx| == NumWords(verb % 0x800)
      modifies this`txErrs
      ensures sent == SendOf(verb % 0x800, rx)
      ensures txErrs == if sent.Some? && sendFails then (old(txErrs) + 1) % 0x1_0000_0000 else old(txErrs)
    {
      sent := ReceiveFrame(verb, rx);
      if sent.Some? && sendFails {
        txErrs := (txErrs + 1) % 0x1_0000_0000;
      }
    }

    /** WLAN_GET_ERRCOUNTS: the transmit errors, then the dropped packets. */
    method ErrCounts(drops: u32) returns (ws: seq<u16>)
      ensures |ws| == 4 && Assemble(ws[..2]) == txErrs && Assemble(ws[2..]) == drops
    {
      ws := CounterWords(txErrs) + CounterWords(drops);
      assert ws[..2] == CounterWords(txErrs) && ws[2..] == CounterWords(drops);
    }
  }
}
