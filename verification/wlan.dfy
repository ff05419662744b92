/** WLAN credentials received over the COM bus (sw/src/wlan.rs).

    `set_ssid` and `set_pass` read a length word and then the string's
    bytes packed two per 16-bit word, low byte first. `com_rx(500)` is
    modelled by the sequence of words that arrive before it times out:
    a read past its end is a timeout. */
module Wlan {
  import opened Wrappers
  import opened Bits

  const SSID_COM_RX_WORDS: nat := 17
  const PASS_COM_RX_WORDS: nat := 33
  const SSID_BUF_SIZE: nat := (SSID_COM_RX_WORDS - 1) * 2
  const PASS_BUF_SIZE: nat := (PASS_COM_RX_WORDS - 1) * 2

  datatype WlanError = Assert | Timeout | StrLen | Utf8

  /** The numeric codes of `WlanError`. */
  function ErrorCode(e: WlanError): (code: nat)
    ensures 1 <= code <= 4
  {
    match e
    case Assert => 1
    case Timeout => 2
    case StrLen => 3
    case Utf8 => 4
  }

  // ---------------------------------------------------------------------
  // UTF-8, as `core::str::from_utf8` checks it

  predicate Cont(b: u8) { 0x80 <= b <= 0xBF }

  /** The length of the well-formed UTF-8 sequence at the start of `s`,
      or 0 when there is none (the ranges of the Unicode standard's table
      of well-formed byte sequences). */
  function Utf8Len(s: seq<u8>): (n: nat)
    requires |s| > 0
    ensures n <= |s| && n <= 4
  {
    var b := s[0];
    if b <= 0x7F then 1
    else if 0xC2 <= b <= 0xDF then
      if |s| >= 2 && Cont(s[1]) then 2 else 0
    else if 0xE0 <= b <= 0xEF then
      var lo: u8 := if b == 0xE0 then 0xA0 else 0x80;
      var hi: u8 := if b == 0xED then 0x9F else 0xBF;
      if |s| >= 3 && lo <= s[1] <= hi && Cont(s[2]) then 3 else 0
    else if 0xF0 <= b <= 0xF4 then
      var lo: u8 := if b == 0xF0 then 0x90 else 0x80;
      var hi: u8 := if b == 0xF4 then 0x8F else 0xBF;
      if |s| >= 4 && lo <= s[1] <= hi && Cont(s[2]) && Cont(s[3]) then 4 else 0
    else 0
  }

  predicate ValidUtf8(s: seq<u8>)
    decreases |s|
  {
    s == [] || (Utf8Len(s) > 0 && ValidUtf8(s[Utf8Len(s)..]))
  }

  /** `ssid()` and `pass()`: the first `len` bytes as a string. */
  function StringOf(len: nat, buf: seq<u8>): Result<seq<u8>, WlanError> {
    if len > |buf| then Err(StrLen)
    else if ValidUtf8(buf[..len]) then Ok(buf[..len])
    else Err(Utf8)
  }

  /** The byte at position `j` of the buffer after words `rx[1..got]`
      were stored two per word, low byte first; other bytes keep `was`. */
  function Stored(was: u8, rx: seq<u16>, got: nat, j: nat): u8
    requires got <= |rx|
  {
    if j / 2 + 1 < got then
      if j % 2 == 0 then rx[j / 2 + 1] % 0x100 else rx[j / 2 + 1] / 0x100
    else was
  }

  // ---------------------------------------------------------------------
  // The state

  class WlanState {
    var passLen: u16
    var ssidLen: u16
    var passBuf: array<u8>
    var ssidBuf: array<u8>

    ghost predicate Valid()
      reads this
    {
      passBuf.Length == PASS_BUF_SIZE && ssidBuf.Length == SSID_BUF_SIZE && passBuf != ssidBuf
    }

    /** `new`: zero lengths and zeroed buffers. */
    constructor New()
      ensures Valid() && fresh(passBuf) && fresh(ssidBuf)
      ensures passLen == 0 && ssidLen == 0
      ensures passBuf[..] == seq(PASS_BUF_SIZE, _ => 0) && ssidBuf[..] == seq(SSID_BUF_SIZE, _ => 0)
    {
      passLen, ssidLen := 0, 0;
      passBuf := new u8[PASS_BUF_SIZE](_ => 0);
      ssidBuf := new u8[SSID_BUF_SIZE](_ => 0);
    }

    /** `ssid()`. */
    method Ssid() returns (r: Result<seq<u8>, WlanError>)
      requires Valid()
      ensures ssidLen > SSID_BUF_SIZE ==> r == Err(StrLen)
      ensures ssidLen <= SSID_BUF_SIZE ==>
                (r.Ok? <==> ValidUtf8(ssidBuf[..ssidLen])) && (r.Ok? ==> r.value == ssidBuf[..ssidLen])
      ensures ssidLen <= SSID_BUF_SIZE && !ValidUtf8(ssidBuf[..ssidLen]) ==> r == Err(Utf8)
    {
      if ssidLen as nat > SSID_BUF_SIZE {
        return Err(StrLen);
      }
      var end := ssidLen as nat;
      if ValidUtf8(ssidBuf[..end]) {
        r := Ok(ssidBuf[..end]);
      } else {
        r := Err(Utf8);
      }
    }

    /** `pass()`. */
    method Pass() returns (r: Result<seq<u8>, WlanError>)
      requires Valid()
      ensures passLen > PASS_BUF_SIZE ==> r == Err(StrLen)
      ensures passLen <= PASS_BUF_SIZE ==>
                (r.Ok? <==> ValidUtf8(passBuf[..passLen])) && (r.Ok? ==> r.value == passBuf[..passLen])
      ensures passLen <= PASS_BUF_SIZE && !ValidUtf8(passBuf[..passLen]) ==> r == Err(Utf8)
    {
      if passLen as nat > PASS_BUF_SIZE {
        return Err(StrLen);
      }
      var end := passLen as nat;
      if ValidUtf8(passBuf[..end]) {
        r := Ok(passBuf[..end]);
      } else {
        r := Err(Utf8);
      }
    }

    /** `set_ssid`, with `rx` the words that arrive before a timeout. */
    method SetSsid(rx: seq<u16>) returns (r: Result<seq<u8>, WlanError>)
      requires Valid()
      modifies this`ssidLen, ssidBuf
      ensures Valid()
      ensures |rx| > 0 ==> ssidLen == rx[0]
      ensures |rx| == 0 ==> ssidLen == old(ssidLen)
      ensures forall j :: 0 <= j < SSID_BUF_SIZE ==>
                ssidBuf[j] == Stored(old(ssidBuf[j]), rx, Min(|rx|, SSID_COM_RX_WORDS), j)
      ensures |rx| < SSID_COM_RX_WORDS ==> r == Err(Timeout)
      ensures |rx| >= SSID_COM_RX_WORDS ==> r == StringOf(ssidLen as nat, ssidBuf[..])
    {
      AssertNeverFails();
      var lenWord, ok := Receive(ssidBuf, SSID_COM_RX_WORDS, rx);
      if lenWord.Some? {
        ssidLen := lenWord.value;
      }
      if !ok {
        return Err(Timeout);
      }
      r := Ssid();
    }

    /** `set_pass`, with `rx` the words that arrive before a timeout. */
    method SetPass(rx: seq<u16>) returns (r: Result<seq<u8>, WlanError>)
      requires Valid()
      modifies this`passLen, passBuf
      ensures Valid()
      ensures |rx| > 0 ==> passLen == rx[0]
      ensures |rx| == 0 ==> passLen == old(passLen)
      ensures forall j :: 0 <= j < PASS_BUF_SIZE ==>
                passBuf[j] == Stored(old(passBuf[j]), rx, Min(|rx|, PASS_COM_RX_WORDS), j)
      ensures |rx| < PASS_COM_RX_WORDS ==> r == Err(Timeout)
      ensures |rx| >= PASS_COM_RX_WORDS ==> r == StringOf(passLen as nat, passBuf[..])
    {
      AssertNeverFails();
      var lenWord, ok := Receive(passBuf, PASS_COM_RX_WORDS, rx);
      if lenWord.Some? {
        passLen := lenWord.value;
      }
      if !ok {
        return Err(Timeout);
      }
      r := Pass();
    }
  }

  function Min(a: nat, b: nat): nat { if a < b then a else b }

  /** The loop shared by `set_ssid` and `set_pass`: read `count` words,
      the first one being the length, the others stored two bytes each,
      stopping at the first timeout. */
  method Receive(buf: array<u8>, count: nat, rx: seq<u16>) returns (lenWord: Option<u16>, ok: bool)
    requires 0 < count && buf.Length == (count - 1) * 2
    modifies buf
    ensures ok <==> |rx| >= count
    ensures lenWord == if |rx| > 0 then Some(rx[0]) else None
    ensures forall j :: 0 <= j < buf.Length ==> buf[j] == Stored(old(buf[j]), rx, Min(|rx|, count), j)
  {
    lenWord := None;
    var i := 0;
    while i < count
      invariant 0 <= i <= count && i <= |rx|
      invariant lenWord == if i > 0 then Some(rx[0]) else None
      invariant forall j :: 0 <= j < buf.Length ==> buf[j] == Stored(old(buf[j]), rx, i, j)
    {
      if i >= |rx| {
        return lenWord, false;
      }
      if i == 0 {
        lenWord := Some(rx[0]);
      } else {
        var n := (i - 1) * 2;
        buf[n] := rx[i] % 0x100;
        buf[n + 1] := rx[i] / 0x100;
      }
      i := i + 1;
    }
    ok := true;
  }

  // ---------------------------------------------------------------------
  // Properties

  /** The size checks of `set_ssid` and `set_pass` never fail. */
  lemma AssertNeverFails()
    ensures SSID_COM_RX_WORDS * 2 == SSID_BUF_SIZE + 2 && SSID_BUF_SIZE == 32
    ensures PASS_COM_RX_WORDS * 2 == PASS_BUF_SIZE + 2 && PASS_BUF_SIZE == 64
  {
  }

  /** Word `i` (from 1) lands in bytes 2(i-1) and 2(i-1)+1, low byte first. */
  lemma StoredWord(was: u8, rx: seq<u16>, got: nat, i: nat)
    requires 1 <= i < got <= |rx|
    ensures Stored(was, rx, got, 2 * (i - 1)) == rx[i] % 0x100
    ensures Stored(was, rx, got, 2 * (i - 1) + 1) == rx[i] / 0x100
  {
  }

  /** Plain ASCII is valid UTF-8, so any ASCII SSID is accepted. */
  lemma {:induction false} AsciiIsUtf8(s: seq<u8>)
    requires forall i :: 0 <= i < |s| ==> s[i] < 0x80
    ensures ValidUtf8(s)
  {
    if s != [] {
      assert Utf8Len(s) == 1;
      AsciiIsUtf8(s[1..]);
    }
  }

  /** A lone continuation byte or an overlong lead byte is rejected. */
  lemma RejectsStrayBytes(b: u8)
    requires Cont(b) || b == 0xC0 || b == 0xC1 || b >= 0xF5
    ensures !ValidUtf8([b])
  {
  }

  /** Valid UTF-8 stays valid when another valid string is appended. */
  lemma {:induction false} Utf8Append(a: seq<u8>, b: seq<u8>)
    requires ValidUtf8(a) && ValidUtf8(b)
    ensures ValidUtf8(a + b)
  {
    if a != [] {
      var n := Utf8Len(a);
      assert (a + b)[..n] == a[..n];
      Utf8LenPrefix(a, a + b);
      assert (a + b)[n..] == a[n..] + b;
      Utf8Append(a[n..], b);
      assert Utf8Len(a + b) == n && ValidUtf8((a + b)[n..]);
    } else {
      assert a + b == b;
    }
  }

  /** `Utf8Len` only looks at the bytes it accepts. */
  lemma Utf8LenPrefix(a: seq<u8>, c: seq<u8>)
    requires |a| > 0 && Utf8Len(a) > 0 && |c| >= |a| && c[..|a|] == a
    ensures Utf8Len(c) == Utf8Len(a)
  {
    assert c[0] == a[0];
    if |a| >= 2 { assert c[1] == a[1]; }
    if |a| >= 3 { assert c[2] == a[2]; }
    if |a| >= 4 { assert c[3] == a[3]; }
  }
}
