/** The bit-banged SPI flash driver of the EC (sw/src/spi.rs).

    The controller (`PicoRVSpi` in the gateware) has a MODE register
    (bit-bang enable and chip select), a WDATA register whose every write
    pulses the SPI clock, and a 4-bit RDATA input. The driver is modelled
    by the sequence of register writes it makes and by the RDATA samples
    it reads: `sampleAt(n)` is the value the n-th read of RDATA returns. */
module SpiFlash {
  import opened Wrappers
  import opened Bits

  type Nibble = x: int | 0 <= x < 0x10

  /** A flash command and how it is framed (`SpiCmd`). */
  datatype SpiCommand = SpiCommand(
    command: u8, isQuad: bool, isRead: bool, useAddr: bool, hasData: bool,
    dummy: Option<u8>, returnCount: Option<u8>)

  const CMD_RDID: SpiCommand := SpiCommand(0x9F, false, true, false, false, None, Some(3))
  const CMD_WRSR: SpiCommand := SpiCommand(0x01, false, false, true, false, None, None)
  const CMD_NOP: SpiCommand := SpiCommand(0x00, false, false, false, false, None, None)
  const CMD_WREN: SpiCommand := SpiCommand(0x06, false, false, false, false, None, None)
  const CMD_RDSR: SpiCommand := SpiCommand(0x05, false, true, false, false, None, Some(1))
  const CMD_RDSCUR: SpiCommand := SpiCommand(0x2B, false, true, false, false, None, Some(1))
  const CMD_RDCR: SpiCommand := SpiCommand(0x15, false, true, false, false, None, Some(2))
  const CMD_SE: SpiCommand := SpiCommand(0x20, false, false, true, false, None, None)
  const CMD_BE32K: SpiCommand := SpiCommand(0x52, false, false, true, false, None, None)
  const CMD_BE64K: SpiCommand := SpiCommand(0xD8, false, false, true, false, None, None)
  const CMD_4PP: SpiCommand := SpiCommand(0x38, true, false, true, true, None, None)
  const CMD_4READ: SpiCommand := SpiCommand(0xEB, true, true, true, true, Some(6), None)
  const CMD_WRDI: SpiCommand := SpiCommand(0x04, false, false, false, false, None, None)

  const OE_MASK_1BIT: nat := 0x1
  const OE_MASK_4BIT: nat := 0xF

  /** A register write: MODE, or WDATA (which clocks the flash). */
  datatype Csr = Mode(bitbang: bool, csn: bool) | WData(oe: nat, data: nat)

  /** Enter bit-bang mode with CS high, then lower CS. */
  const ENTER: seq<Csr> := [Mode(false, true), Mode(true, true), Mode(true, false)]
  /** `exit_bb`: raise CS, turn the drivers off, leave bit-bang mode. */
  const EXIT: seq<Csr> := [Mode(true, true), WData(0, 0), Mode(false, true)]
  /** The clock pulse of a read: WDATA with the drivers off. */
  const CLOCK: Csr := WData(0, 0)

  // ---------------------------------------------------------------------
  // Bits and bytes on the wire

  function Pow2(k: nat): (r: nat)
    ensures r >= 1
  {
    if k == 0 then 1 else 2 * Pow2(k - 1)
  }

  /** Bit `k` of `b`. */
  function Bit(b: u8, k: nat): nat
    requires k < 8
  {
    (b / Pow2(k)) % 2
  }

  /** The value of bits sent most significant first. */
  function Msb(bits: seq<nat>): nat {
    if bits == [] then 0 else 2 * Msb(bits[..|bits| - 1]) + bits[|bits| - 1]
  }

  /** The data field of each WDATA write. */
  function DataBits(ws: seq<Csr>): (r: seq<nat>)
    ensures |r| == |ws|
  {
    seq(|ws|, i requires 0 <= i < |ws| => if ws[i].WData? then ws[i].data else 0)
  }

  /** `spi_1bit_write`: eight clocks on COPI, bit 7 first. */
  function OneBitWrites(b: u8): (w: seq<Csr>)
    ensures |w| == 8 && forall i :: 0 <= i < 8 ==> w[i].WData? && w[i].oe == OE_MASK_1BIT
  {
    seq(8, i requires 0 <= i < 8 => WData(OE_MASK_1BIT, Bit(b, 7 - i)))
  }

  /** `spi_quad_write`: the high nibble, then the low nibble, on all four
      lines. */
  function QuadWrites(b: u8): (w: seq<Csr>)
    ensures |w| == 2 && w[0].WData? && w[1].WData? && w[0].oe == w[1].oe == OE_MASK_4BIT
    ensures w[0].data < 0x10 && w[1].data < 0x10 && w[0].data * 0x10 + w[1].data == b
  {
    [WData(OE_MASK_4BIT, b / 0x10), WData(OE_MASK_4BIT, b % 0x10)]
  }

  /** The three address bytes: bits 23..16, 15..8 and 7..0. */
  function AddrBytes(a: u32): seq<u8> {
    [(a / 0x1_0000) % 0x100, (a / 0x100) % 0x100, a % 0x100]
  }

  /** The address bytes are the low three bytes of the big-endian
      encoding, so the flash sees the address most significant byte first. */
  lemma AddrBytesBigEndian(a: u32)
    ensures AddrBytes(a) == Be32Bytes(a)[1..]
    ensures Be32([Be32Bytes(a)[0]] + AddrBytes(a)) == a
  {
    var hi, lo := a / 0x1_0000, a % 0x1_0000;
    assert a == hi * 0x1_0000 + lo;
    assert a / 0x100 == hi * 0x100 + lo / 0x100;
    assert (a / 0x100) % 0x100 == lo / 0x100;
    assert a % 0x100 == lo % 0x100;
    assert [Be32Bytes(a)[0]] + AddrBytes(a) == Be32Bytes(a);
    Be32RoundTrip(a);
  }

  /** Every byte goes out in an order from which the receiver rebuilds it. */
  lemma OneBitRoundTrip(b: u8)
    ensures Msb(DataBits(OneBitWrites(b))) == b
  {
    MsbPrefix(b, 8);
    assert DataBits(OneBitWrites(b))[..8] == DataBits(OneBitWrites(b));
  }

  /** The first `n` bits sent are the top `n` bits of the byte. */
  lemma {:induction false} MsbPrefix(b: u8, n: nat)
    requires n <= 8
    ensures Msb(DataBits(OneBitWrites(b))[..n]) == b / Pow2(8 - n)
  {
    var bits := DataBits(OneBitWrites(b));
    if n > 0 {
      MsbPrefix(b, n - 1);
      assert bits[..n][..n - 1] == bits[..n - 1];
      assert bits[n - 1] == Bit(b, 8 - n);
      HalfOfDiv(b, 8 - n);
    }
  }

  /** Dividing by the next power of two drops one more bit. */
  lemma HalfOfDiv(b: u8, k: nat)
    requires k < 8
    ensures b / Pow2(k + 1) * 2 + Bit(b, k) == b / Pow2(k)
  {
    assert Pow2(1) == 2 && Pow2(2) == 4 && Pow2(3) == 8 && Pow2(4) == 16;
    assert Pow2(5) == 32 && Pow2(6) == 64 && Pow2(7) == 128 && Pow2(8) == 256;
  }


  /** CIPO is bit 1 of RDATA. */
  function Cipo(s: Nibble): (r: nat)
    ensures r < 2
  {
    (s / 2) % 2
  }

  /** The byte `spi_1bit_read` assembles from eight samples from `at` on. */
  function OneBitByte(sampleAt: nat -> Nibble, at: nat): u8 {
    MsbBound(CipoBits(sampleAt, at, 8));
    assert Pow2(8) == 256 by { Pow2Byte(7); }
    Msb(CipoBits(sampleAt, at, 8))
  }

  /** CIPO in `n` samples from `at` on. */
  function CipoBits(sampleAt: nat -> Nibble, at: nat, n: nat): (r: seq<nat>)
    ensures |r| == n && forall i :: 0 <= i < n ==> r[i] < 2
  {
    if n == 0 then [] else CipoBits(sampleAt, at, n - 1) + [Cipo(sampleAt(at + n - 1))]
  }

  /** The byte `spi_quad_read` assembles from two samples from `at` on. */
  function QuadByte(sampleAt: nat -> Nibble, at: nat): (r: u8)
    ensures r / 0x10 == sampleAt(at) && r % 0x10 == sampleAt(at + 1)
  {
    sampleAt(at) * 0x10 + sampleAt(at + 1)
  }

  lemma Pow2Byte(i: nat)
    requires i < 8
    ensures Pow2(i) <= 0x80 && Pow2(i + 1) == 2 * Pow2(i)
  {
    assert Pow2(1) == 2 && Pow2(2) == 4 && Pow2(3) == 8 && Pow2(4) == 16;
    assert Pow2(5) == 32 && Pow2(6) == 64 && Pow2(7) == 128;
  }

  /** A flash that drives CIPO with the bits of `b`, most significant
      first, is read back as `b`: the read inverts the write's bit order. */
  lemma OneBitReadInvertsWrite(sampleAt: nat -> Nibble, at: nat, b: u8)
    requires forall i :: 0 <= i < 8 ==> CipoBits(sampleAt, at, 8)[i] == Bit(b, 7 - i)
    ensures OneBitByte(sampleAt, at) == b
  {
    assert CipoBits(sampleAt, at, 8) == DataBits(OneBitWrites(b));
    OneBitRoundTrip(b);
  }

  /** A one-bit read yields a byte. */
  lemma MsbBound(bits: seq<nat>)
    requires forall i :: 0 <= i < |bits| ==> bits[i] < 2
    ensures Msb(bits) < Pow2(|bits|)
  {
    if bits != [] {
      MsbBound(bits[..|bits| - 1]);
    }
  }

  /** `n` read clocks. */
  function Clocks(n: nat): (r: seq<Csr>)
    ensures |r| == n
  {
    seq(n, _ => CLOCK)
  }

  function Repeat(w: seq<Csr>, n: nat): (r: seq<Csr>)
    ensures |r| == n * |w|
  {
    if n == 0 then [] else Repeat(w, n - 1) + w
  }

  /** The quad writes of a whole buffer. */
  function QuadData(d: seq<u8>): (r: seq<Csr>)
    ensures |r| == 2 * |d|
  {
    if d == [] then [] else QuadData(d[..|d| - 1]) + QuadWrites(d[|d| - 1])
  }

  /** The address phase, on one line or on four. */
  function AddrWrites(quad: bool, a: u32): seq<Csr> {
    var b := AddrBytes(a);
    if quad then QuadWrites(b[0]) + QuadWrites(b[1]) + QuadWrites(b[2])
    else OneBitWrites(b[0]) + OneBitWrites(b[1]) + OneBitWrites(b[2])
  }

  /** The dummy cycles: zero bytes on one line or on four. */
  function DummyWrites(cmd: SpiCommand): seq<Csr> {
    if cmd.dummy.None? then []
    else if cmd.isQuad then Repeat(QuadWrites(0), cmd.dummy.value)
    else Repeat(OneBitWrites(0), cmd.dummy.value)
  }

  // ---------------------------------------------------------------------
  // spi_cmd

  /** The calls `spi_cmd` accepts; `dataLen` is the length of the buffer
      passed, if any. */
  predicate Accepted(cmd: SpiCommand, address: Option<u32>, dataLen: Option<nat>) {
    !(cmd.useAddr && address.None?) && DataAccepted(cmd, dataLen)
  }

  /** The buffer checks: a one-line read with a fixed count needs a buffer
      that long, a one-line write cannot carry data, and every four-line
      command needs a buffer. */
  predicate DataAccepted(cmd: SpiCommand, dataLen: Option<nat>) {
    if !cmd.isQuad then
      (cmd.isRead && cmd.returnCount.Some? ==> dataLen.Some? && dataLen.value >= cmd.returnCount.value)
      && (!cmd.isRead ==> !cmd.hasData)
    else dataLen.Some?
  }

  /** Whether byte `i` of the buffer receives read data. */
  predicate Filled(cmd: SpiCommand, ok: bool, i: nat) {
    ok && cmd.isRead && (cmd.isQuad || (cmd.returnCount.Some? && i < cmd.returnCount.value))
  }

  function LenOf(data: Option<array<u8>>): Option<nat> {
    if data.Some? then Some(data.value.Length) else None
  }

  /** The contents of the buffer passed, if any. */
  function Contents(data: Option<array<u8>>): Option<seq<u8>>
    reads if data.Some? then {data.value} else {}
  {
    if data.Some? then Some(data.value[..]) else None
  }

  /** The one-line data phase: dummy bytes and the fixed-count read, or
      nothing for a write. */
  function OneBitPhase(cmd: SpiCommand, dataIn: Option<seq<u8>>): seq<Csr> {
    if !cmd.isRead then []
    else
      var clocks := if cmd.returnCount.Some? && dataIn.Some? && |dataIn.value| >= cmd.returnCount.value
                   then Clocks(8 * cmd.returnCount.value) else [];
      DummyWrites(cmd) + clocks
  }

  /** The four-line data phase: dummy bytes and a read of the whole
      buffer, or the buffer written out. */
  function QuadPhase(cmd: SpiCommand, dataIn: Option<seq<u8>>): seq<Csr> {
    if cmd.isRead then DummyWrites(cmd) + (if dataIn.Some? then Clocks(2 * |dataIn.value|) else [])
    else if dataIn.Some? then QuadData(dataIn.value)
    else []
  }

  /** The data phase of either path. */
  function DataPhase(cmd: SpiCommand, dataIn: Option<seq<u8>>): seq<Csr> {
    if cmd.isQuad then QuadPhase(cmd, dataIn) else OneBitPhase(cmd, dataIn)
  }

  /** What happens between sending the command byte and `exit_bb`. */
  function Middle(cmd: SpiCommand, address: Option<u32>, dataIn: Option<seq<u8>>): seq<Csr> {
    if cmd.useAddr && address.None? then []
    else if cmd.useAddr then AddrWrites(cmd.isQuad, address.value) + DataPhase(cmd, dataIn)
    else DataPhase(cmd, dataIn)
  }

  /** Every register write `spi_cmd` makes. Whatever the outcome it starts
      by selecting the chip and sending the command byte, and it ends with
      `exit_bb`: chip select high, drivers off, bit-bang mode left. */
  function CmdWrites(cmd: SpiCommand, address: Option<u32>, dataIn: Option<seq<u8>>): (r: seq<Csr>)
    ensures |r| >= 14
    ensures r[..11] == ENTER + OneBitWrites(cmd.command)
    ensures r[|r| - 3..] == EXIT
  {
    ENTER + OneBitWrites(cmd.command) + Middle(cmd, address, dataIn) + EXIT
  }

  /** How many RDATA samples `spi_cmd` reads. */
  function SamplesRead(cmd: SpiCommand, address: Option<u32>, dataLen: Option<nat>): nat {
    if !Accepted(cmd, address, dataLen) || !cmd.isRead then 0 else DataSamples(cmd, dataLen)
  }

  /** The samples an accepted read takes: eight per byte of a fixed-count
      one-line read, two per buffer byte of a four-line read. */
  function DataSamples(cmd: SpiCommand, dataLen: Option<nat>): nat {
    if !cmd.isQuad then (if cmd.returnCount.Some? then 8 * cmd.returnCount.value else 0)
    else if dataLen.Some? then 2 * dataLen.value
    else 0
  }

  /** The chip-select line after a sequence of writes (high when idle). */
  function Csn(ws: seq<Csr>): bool {
    if ws == [] then true
    else if ws[|ws| - 1].Mode? then ws[|ws| - 1].csn
    else Csn(ws[..|ws| - 1])
  }

  /** The output enables after a sequence of writes (off when idle). */
  function Oe(ws: seq<Csr>): nat {
    if ws == [] then 0
    else if ws[|ws| - 1].WData? then ws[|ws| - 1].oe
    else Oe(ws[..|ws| - 1])
  }

  /** After any call the chip is deselected and the drivers are off, and
      during the command the chip was selected. */
  lemma CmdLeavesBusIdle(before: seq<Csr>, cmd: SpiCommand, address: Option<u32>, dataIn: Option<seq<u8>>)
    ensures Csn(before + CmdWrites(cmd, address, dataIn)) && Oe(before + CmdWrites(cmd, address, dataIn)) == 0
    ensures !Csn(before + ENTER)
  {
    var all := before + CmdWrites(cmd, address, dataIn);
    assert all[|all| - 1] == Mode(false, true);
    assert all[..|all| - 1][|all| - 2] == WData(0, 0);
    assert (before + ENTER)[|before| + 2] == Mode(true, false);
  }

  /** The driver, with the register writes made so far and the number of
      RDATA samples read so far. */
  class SpiPort {
    var writes: seq<Csr>
    var samples: nat
    const sampleAt: nat -> Nibble

    constructor New(sampleAt: nat -> Nibble)
      ensures writes == [] && samples == 0 && this.sampleAt == sampleAt
    {
      writes := [];
      samples := 0;
      this.sampleAt := sampleAt;
    }

    /** `spi_1bit_write`. */
    method Write1Bit(b: u8)
      modifies this`writes
      ensures writes == old(writes) + OneBitWrites(b)
    {
      // after `i` left shifts, bit 0x80 of the shifted byte is bit `7 - i`
      for i := 0 to 8
        invariant writes == old(writes) + OneBitWrites(b)[..i]
      {
        assert OneBitWrites(b)[..i + 1] == OneBitWrites(b)[..i] + [OneBitWrites(b)[i]];
        if Bit(b, 7 - i) == 1 {
          writes := writes + [WData(OE_MASK_1BIT, 1)];
        } else {
          writes := writes + [WData(OE_MASK_1BIT, 0)];
        }
      }
    }

    /** `spi_quad_write`. */
    method QuadWrite(b: u8)
      modifies this`writes
      ensures writes == old(writes) + QuadWrites(b)
    {
      writes := writes + [WData(OE_MASK_4BIT, b / 0x10)];
      writes := writes + [WData(OE_MASK_4BIT, b % 0x10)];
    }

    /** `spi_1bit_read`: sample CIPO, then clock, eight times. */
    method Read1Bit() returns (byte: u8)
      modifies this`writes, this`samples
      ensures byte == OneBitByte(sampleAt, old(samples))
      ensures samples == old(samples) + 8 && writes == old(writes) + Clocks(8)
    {
      byte := 0;
      for i := 0 to 8
        invariant samples == old(samples) + i && writes == old(writes) + Clocks(i)
        invariant byte == Msb(CipoBits(sampleAt, old(samples), i)) && byte < Pow2(i)
      {
        ghost var bits := CipoBits(sampleAt, old(samples), i + 1);
        assert bits[..i] == CipoBits(sampleAt, old(samples), i);
        assert Msb(bits) == 2 * byte + Cipo(sampleAt(samples));
        Pow2Byte(i);
        // `byte <<= 1; byte |= bit` on a byte below 0x80
        byte := byte * 2 + Cipo(sampleAt(samples));
        samples := samples + 1;
        writes := writes + [CLOCK];
        assert Clocks(i) + [CLOCK] == Clocks(i + 1);
      }
    }

    /** `spi_quad_read`: the high nibble, a clock, the low nibble, a clock. */
    method QuadRead() returns (byte: u8)
      modifies this`writes, this`samples
      ensures byte == QuadByte(sampleAt, old(samples))
      ensures samples == old(samples) + 2 && writes == old(writes) + Clocks(2)
    {
      byte := (sampleAt(samples) * 0x10) % 0x100;
      writes := writes + [CLOCK];
      samples := samples + 1;
      byte := byte + sampleAt(samples);
      writes := writes + [CLOCK];
      samples := samples + 1;
    }

    /** `exit_bb`. */
    method ExitBb()
      modifies this`writes
      ensures writes == old(writes) + EXIT
    {
      writes := writes + [Mode(true, true)];
      writes := writes + [WData(0, 0)];
      writes := writes + [Mode(false, true)];
    }

    /** The address phase. */
    method SendAddress(quad: bool, addr: u32)
      modifies this`writes
      ensures writes == old(writes) + AddrWrites(quad, addr)
    {
      var b := AddrBytes(addr);
      if quad {
        QuadWrite(b[0]);
        QuadWrite(b[1]);
        QuadWrite(b[2]);
      } else {
        Write1Bit(b[0]);
        Write1Bit(b[1]);
        Write1Bit(b[2]);
      }
    }

    /** The dummy cycles of a read. */
    method SendDummies(cmd: SpiCommand)
      modifies this`writes
      ensures writes == old(writes) + DummyWrites(cmd)
    {
      if cmd.dummy.Some? {
        var numdum := cmd.dummy.value;
        for k := 0 to numdum
          invariant writes == old(writes) + (if cmd.isQuad then Repeat(QuadWrites(0), k) else Repeat(OneBitWrites(0), k))
        {
          if cmd.isQuad {
            QuadWrite(0);
          } else {
            Write1Bit(0);
          }
        }
      }
    }

    /** Read `count` bytes one bit at a time into `data`. */
    method ReadInto1Bit(data: array<u8>, count: nat)
      requires count <= data.Length
      modifies this`writes, this`samples, data
      ensures samples == old(samples) + 8 * count && writes == old(writes) + Clocks(8 * count)
      ensures forall i :: 0 <= i < count ==> data[i] == OneBitByte(sampleAt, old(samples) + 8 * i)
      ensures forall i :: count <= i < data.Length ==> data[i] == old(data[i])
    {
      for i := 0 to count
        invariant samples == old(samples) + 8 * i && writes == old(writes) + Clocks(8 * i)
        invariant forall j :: 0 <= j < i ==> data[j] == OneBitByte(sampleAt, old(samples) + 8 * j)
        invariant forall j :: i <= j < data.Length ==> data[j] == old(data[j])
      {
        var byte := Read1Bit();
        data[i] := byte;
        assert Clocks(8 * i) + Clocks(8) == Clocks(8 * (i + 1));
      }
    }

    /** Read the whole buffer four bits at a time. */
    method ReadIntoQuad(data: array<u8>)
      modifies this`writes, this`samples, data
      ensures samples == old(samples) + 2 * data.Length && writes == old(writes) + Clocks(2 * data.Length)
      ensures forall i :: 0 <= i < data.Length ==> data[i] == QuadByte(sampleAt, old(samples) + 2 * i)
    {
      for i := 0 to data.Length
        invariant samples == old(samples) + 2 * i && writes == old(writes) + Clocks(2 * i)
        invariant forall j :: 0 <= j < i ==> data[j] == QuadByte(sampleAt, old(samples) + 2 * j)
      {
        var byte := QuadRead();
        data[i] := byte;
        assert Clocks(2 * i) + Clocks(2) == Clocks(2 * (i + 1));
      }
    }

    /** Write the whole buffer four bits at a time. */
    method WriteQuad(data: array<u8>)
      modifies this`writes
      ensures writes == old(writes) + QuadData(data[..])
    {
      for i := 0 to data.Length
        invariant writes == old(writes) + QuadData(data[..i])
      {
        QuadWrite(data[i]);
        assert data[..i + 1][..i] == data[..i];
      }
      assert data[..data.Length] == data[..];
    }

    /** Byte `i` of the buffer after a call that started reading at sample
        `s0`: read data where the command filled it, else unchanged. */
    function ByteAfter(cmd: SpiCommand, ok: bool, i: nat, was: u8, s0: nat): u8 {
      if !Filled(cmd, ok, i) then was
      else if cmd.isQuad then QuadByte(sampleAt, s0 + 2 * i)
      else OneBitByte(sampleAt, s0 + 8 * i)
    }

    /** The buffer after a call, given its contents before. */
    predicate Buffer(cmd: SpiCommand, ok: bool, data: Option<array<u8>>, before: Option<seq<u8>>, s0: nat)
      reads if data.Some? then {data.value} else {}
    {
      data.Some? ==>
        before.Some? && |before.value| == data.value.Length
        && forall i :: 0 <= i < data.value.Length ==> data.value[i] == ByteAfter(cmd, ok, i, before.value[i], s0)
    }

    /** Appending the phases of a command one after the other appends
        the whole command. */
    static lemma WritesInOrder(w0: seq<Csr>, enter: seq<Csr>, cmdBits: seq<Csr>, mid: seq<Csr>, exit: seq<Csr>)
      ensures w0 + enter + cmdBits + mid + exit == w0 + (enter + cmdBits + mid + exit)
    {
    }

    /** `spi_cmd`: frame one command; false when the arguments do not fit
        the command, in which case it stops early but still runs
        `exit_bb`. A read stores what it read in `data`. */
    method SpiCmd(cmd: SpiCommand, address: Option<u32>, data: Option<array<u8>>) returns (ok: bool)
      modifies this`writes, this`samples, if data.Some? then {data.value} else {}
      ensures ok <==> Accepted(cmd, address, LenOf(data))
      ensures writes == old(writes) + CmdWrites(cmd, address, old(Contents(data)))
      ensures samples == old(samples) + SamplesRead(cmd, address, LenOf(data))
      ensures Buffer(cmd, ok, data, old(Contents(data)), old(samples))
    {
      ghost var w0, before, s0 := writes, Contents(data), samples;
      writes := writes + ENTER;
      Write1Bit(cmd.command);
      assert Contents(data) == before && samples == s0;
      ok := AfterCommand(cmd, address, data);
      assert Buffer(cmd, ok, data, before, s0);
      WritesInOrder(w0, ENTER, OneBitWrites(cmd.command), Middle(cmd, address, before), EXIT);
    }

    /** `spi_cmd` after the command byte. */
    method AfterCommand(cmd: SpiCommand, address: Option<u32>, data: Option<array<u8>>) returns (ok: bool)
      modifies this`writes, this`samples, if data.Some? then {data.value} else {}
      ensures ok <==> Accepted(cmd, address, LenOf(data))
      ensures writes == old(writes) + Middle(cmd, address, old(Contents(data))) + EXIT
      ensures samples == old(samples) + SamplesRead(cmd, address, LenOf(data))
      ensures Buffer(cmd, ok, data, old(Contents(data)), old(samples))
    {
      if cmd.useAddr && address.None? {
        ExitBb();
        return false;
      }
      if cmd.useAddr {
        ok := AddressAndData(cmd, address.value, data);
      } else {
        ok := Finish(cmd, data);
      }
    }

    /** The address, the data phase and `exit_bb`. */
    method AddressAndData(cmd: SpiCommand, address: u32, data: Option<array<u8>>) returns (ok: bool)
      modifies this`writes, this`samples, if data.Some? then {data.value} else {}
      ensures ok <==> DataAccepted(cmd, LenOf(data))
      ensures writes == old(writes) + AddrWrites(cmd.isQuad, address) + DataPhase(cmd, old(Contents(data))) + EXIT
      ensures samples == old(samples) + (if ok && cmd.isRead then DataSamples(cmd, LenOf(data)) else 0)
      ensures Buffer(cmd, ok, data, old(Contents(data)), old(samples))
    {
      SendAddress(cmd.isQuad, address);
      ok := Finish(cmd, data);
    }

    /** The data phase and `exit_bb`, on either path. */
    method Finish(cmd: SpiCommand, data: Option<array<u8>>) returns (ok: bool)
      modifies this`writes, this`samples, if data.Some? then {data.value} else {}
      ensures ok <==> DataAccepted(cmd, LenOf(data))
      ensures writes == old(writes) + DataPhase(cmd, old(Contents(data))) + EXIT
      ensures samples == old(samples) + (if ok && cmd.isRead then DataSamples(cmd, LenOf(data)) else 0)
      ensures Buffer(cmd, ok, data, old(Contents(data)), old(samples))
    {
      if !cmd.isQuad {
        ok := Finish1Bit(cmd, data);
      } else {
        ok := FinishQuad(cmd, data);
      }
    }

    /** The one-line path after the address. */
    method Finish1Bit(cmd: SpiCommand, data: Option<array<u8>>) returns (ok: bool)
      requires !cmd.isQuad
      modifies this`writes, this`samples, if data.Some? then {data.value} else {}
      ensures ok <==> DataAccepted(cmd, LenOf(data))
      ensures writes == old(writes) + OneBitPhase(cmd, old(Contents(data))) + EXIT
      ensures samples == old(samples) + (if ok && cmd.isRead && cmd.returnCount.Some? then 8 * cmd.returnCount.value else 0)
      ensures ok && cmd.isRead && cmd.returnCount.Some? ==>
                forall i :: 0 <= i < cmd.returnCount.value ==> data.value[i] == OneBitByte(sampleAt, old(samples) + 8 * i)
      ensures data.Some? ==> forall i :: 0 <= i < data.value.Length && !Filled(cmd, ok, i) ==> data.value[i] == old(data.value[i])
    {
      if cmd.isRead {
        SendDummies(cmd);
        if cmd.returnCount.Some? {
          if data.Some? {
            var count := cmd.returnCount.value;
            if data.value.Length < count {
              ExitBb();
              return false;
            }
            ReadInto1Bit(data.value, count);
          } else {
            ExitBb();
            return false;
          }
        }
      } else {
        if cmd.hasData {
          ExitBb();
          return false;
        }
      }
      ExitBb();
      return true;
    }

    /** The four-line path after the address. */
    method FinishQuad(cmd: SpiCommand, data: Option<array<u8>>) returns (ok: bool)
      requires cmd.isQuad
      modifies this`writes, this`samples, if data.Some? then {data.value} else {}
      ensures ok <==> data.Some?
      ensures writes == old(writes) + QuadPhase(cmd, old(Contents(data))) + EXIT
      ensures samples == old(samples) + (if ok && cmd.isRead then 2 * data.value.Length else 0)
      ensures ok && cmd.isRead ==>
                forall i :: 0 <= i < data.value.Length ==> data.value[i] == QuadByte(sampleAt, old(samples) + 2 * i)
      ensures data.Some? && !cmd.isRead ==> data.value[..] == old(data.value[..])
    {
      if cmd.isRead {
        SendDummies(cmd);
        if data.None? {
          ExitBb();
          return false;
        }
        ReadIntoQuad(data.value);
      } else {
        if data.None? {
          ExitBb();
          return false;
        }
        WriteQuad(data.value);
      }
      ExitBb();
      return true;
    }
  }

  // ---------------------------------------------------------------------
  // spi_erase_region: the block planner

  datatype Erase = Erase(cmd: SpiCommand, at: nat, size: nat)

  /** The erase chosen for `remaining` bytes at address `at`: a 64 KiB
      block when that much is left and `at` is 64 KiB aligned, else a
      32 KiB block on the same terms, else a 4 KiB sector. */
  function ChooseErase(remaining: nat, at: nat): (e: Erase)
    ensures e.at == at
    ensures e.size == 0x1_0000 <==> remaining >= 0x1_0000 && at % 0x1_0000 == 0
    ensures e.size == 0x8000 <==> !(remaining >= 0x1_0000 && at % 0x1_0000 == 0) && remaining >= 0x8000 && at % 0x8000 == 0
    ensures e.size in {0x1_0000, 0x8000, 0x1000}
  {
    if remaining >= 0x1_0000 && at % 0x1_0000 == 0 then Erase(CMD_BE64K, at, 0x1_0000)
    else if remaining >= 0x8000 && at % 0x8000 == 0 then Erase(CMD_BE32K, at, 0x8000)
    else Erase(CMD_SE, at, 0x1000)
  }

  /** The bytes covered by a list of erases. */
  function Covered(es: seq<Erase>): nat {
    if es == [] then 0 else es[0].size + Covered(es[1..])
  }

  /** The erases still to be issued once `erased` bytes are done. */
  function ErasePlan(addr: nat, len: nat, erased: nat): seq<Erase>
    decreases len - erased
  {
    if erased >= len then []
    else
      var e := ChooseErase(len - erased, addr + erased);
      [e] + ErasePlan(addr, len, erased + e.size)
  }

  /** `spi_erase_region`: the erases issued for `len` bytes from `addr`.
      Each iteration first waits for the write-enable latch, then erases,
      then waits for the flash to finish and reads the failure flags
      (which only get logged); those waits are assumed to end. */
  method EraseRegion(addr: u32, len: u32) returns (plan: seq<Erase>)
    ensures plan == ErasePlan(addr, len, 0)
  {
    var erased: nat := 0;
    plan := [];
    while erased < len
      invariant plan + ErasePlan(addr, len, erased) == ErasePlan(addr, len, 0)
      decreases len - erased
    {
      var e := ChooseErase(len - erased, addr + erased);
      assert ErasePlan(addr, len, erased) == [e] + ErasePlan(addr, len, erased + e.size);
      plan := plan + [e];
      erased := erased + e.size;
    }
    assert plan + [] == plan;
  }

  /** The erases cover the whole region and run past its end by less than
      one 4 KiB sector: a block erase is only chosen when the rest of the
      region is at least a block long. */
  lemma {:induction false} EraseExtent(addr: nat, len: nat, erased: nat)
    requires erased <= len
    ensures len - erased <= Covered(ErasePlan(addr, len, erased)) < len - erased + 0x1000
    decreases len - erased
  {
    if erased < len {
      var e := ChooseErase(len - erased, addr + erased);
      var rest := ErasePlan(addr, len, erased + e.size);
      assert ([e] + rest)[1..] == rest;
      if erased + e.size <= len {
        EraseExtent(addr, len, erased + e.size);
      } else {
        assert e.size == 0x1000;
      }
    }
  }

  /** The erases tile the region in order: the `k`-th starts where the
      ones before it end. */
  lemma {:induction false} EraseContiguous(addr: nat, len: nat, erased: nat, k: nat)
    requires k < |ErasePlan(addr, len, erased)|
    ensures ErasePlan(addr, len, erased)[k].at == addr + erased + Covered(ErasePlan(addr, len, erased)[..k])
    decreases len - erased
  {
    var plan := ErasePlan(addr, len, erased);
    var e := ChooseErase(len - erased, addr + erased);
    var rest := ErasePlan(addr, len, erased + e.size);
    assert plan == [e] + rest;
    if k > 0 {
      EraseContiguous(addr, len, erased + e.size, k - 1);
      assert plan[..k] == [e] + rest[..k - 1];
      assert plan[..k][1..] == rest[..k - 1];
    }
  }

  /** Starting on a 4 KiB boundary, every erase is aligned to its own
      size, so a block erase never reaches outside the block it names. */
  lemma {:induction false} EraseAligned(addr: nat, len: nat, erased: nat)
    requires (addr + erased) % 0x1000 == 0
    ensures forall e :: e in ErasePlan(addr, len, erased) ==> e.size > 0 && e.at % e.size == 0
    decreases len - erased
  {
    if erased < len {
      var e := ChooseErase(len - erased, addr + erased);
      EraseAligned(addr, len, erased + e.size);
    }
  }

  // ---------------------------------------------------------------------
  // spi_program_page

  /** A command issued through `spi_cmd`, with its address and the length
      of its buffer. */
  type Issued = (SpiCommand, Option<u32>, nat)

  /** One attempt to set the write-enable latch: WREN, then read the status. */
  const WREN_POLL: seq<Issued> := [(CMD_WREN, None, 0), (CMD_RDSR, None, 1)]
  /** One busy poll: read the status. */
  const BUSY_POLL: seq<Issued> := [(CMD_RDSR, None, 1)]
  /** Read the failure flags, then disable writes. */
  const CHECK_AND_DISABLE: seq<Issued> := [(CMD_RDSCUR, None, 1), (CMD_WRDI, None, 0)]

  /** The commands `spi_program_page` issues when the write-enable latch
      reads set after `wrenTries + 1` attempts and the flash reads idle
      after `busyPolls + 1` polls. */
  function ProgramPageCommands(addr: u32, page: seq<u8>, wrenTries: nat, busyPolls: nat): seq<Issued> {
    RepeatCmds(WREN_POLL, wrenTries + 1) + [(CMD_4PP, Some(addr), |page|)]
    + RepeatCmds(BUSY_POLL, busyPolls + 1) + CHECK_AND_DISABLE
  }

  function RepeatCmds(w: seq<Issued>, n: nat): (r: seq<Issued>)
    ensures |r| == n * |w|
  {
    if n == 0 then [] else RepeatCmds(w, n - 1) + w
  }

  /** `spi_program_page` as the commands it issues; `welAfter[i]` is the
      latch as read after the i-th WREN and `wipAfter[i]` the busy flag as
      read by the i-th poll. The flash is assumed to set the latch and to
      finish eventually. */
  method ProgramPage(addr: u32, page: seq<u8>, welAfter: seq<bool>, wipAfter: seq<bool>)
    returns (cmds: seq<Issued>, wrenTries: nat, busyPolls: nat)
    requires exists i :: 0 <= i < |welAfter| && welAfter[i]
    requires exists i :: 0 <= i < |wipAfter| && !wipAfter[i]
    ensures cmds == ProgramPageCommands(addr, page, wrenTries, busyPolls)
    ensures wrenTries < |welAfter| && welAfter[wrenTries] && forall i :: 0 <= i < wrenTries ==> !welAfter[i]
    ensures busyPolls < |wipAfter| && !wipAfter[busyPolls] && forall i :: 0 <= i < busyPolls ==> wipAfter[i]
  {
    cmds := [];
    wrenTries := 0;
    while !welAfter[wrenTries]
      invariant wrenTries < |welAfter| && forall i :: 0 <= i < wrenTries ==> !welAfter[i]
      invariant cmds == RepeatCmds(WREN_POLL, wrenTries)
      invariant exists i :: wrenTries <= i < |welAfter| && welAfter[i]
      decreases |welAfter| - wrenTries
    {
      cmds := cmds + WREN_POLL;
      wrenTries := wrenTries + 1;
    }
    cmds := cmds + WREN_POLL + [(CMD_4PP, Some(addr), |page|)];
    ghost var mid := cmds;
    busyPolls := 0;
    while wipAfter[busyPolls]
      invariant busyPolls < |wipAfter| && forall i :: 0 <= i < busyPolls ==> wipAfter[i]
      invariant cmds == mid + RepeatCmds(BUSY_POLL, busyPolls)
      invariant exists i :: busyPolls <= i < |wipAfter| && !wipAfter[i]
      decreases |wipAfter| - busyPolls
    {
      cmds := cmds + BUSY_POLL;
      busyPolls := busyPolls + 1;
    }
    cmds := cmds + BUSY_POLL + CHECK_AND_DISABLE;
  }

  /** Exactly one page program is issued, with the page's address and
      length, right after a WREN whose status read showed the latch set. */
  lemma OnePageProgram(addr: u32, page: seq<u8>, wrenTries: nat, busyPolls: nat)
    ensures var cmds := ProgramPageCommands(addr, page, wrenTries, busyPolls);
            var k := 2 * (wrenTries + 1);
            cmds[k] == (CMD_4PP, Some(addr), |page|)
            && cmds[k - 2].0 == CMD_WREN && cmds[k - 1].0 == CMD_RDSR
            && forall j :: 0 <= j < |cmds| && j != k ==> cmds[j].0 != CMD_4PP
  {
    var pre := RepeatCmds(WREN_POLL, wrenTries + 1);
    var post := RepeatCmds(BUSY_POLL, busyPolls + 1);
    NoPageProgramIn(WREN_POLL, wrenTries + 1);
    NoPageProgramIn(BUSY_POLL, busyPolls + 1);
    var cmds := ProgramPageCommands(addr, page, wrenTries, busyPolls);
    assert cmds == pre + [(CMD_4PP, Some(addr), |page|)] + post + CHECK_AND_DISABLE;
    assert pre[|pre| - 2..] == WREN_POLL;
    assert cmds[|pre| - 2] == pre[|pre| - 2] && cmds[|pre| - 1] == pre[|pre| - 1];
  }

  lemma {:induction false} NoPageProgramIn(w: seq<Issued>, n: nat)
    requires forall j :: 0 <= j < |w| ==> w[j].0 != CMD_4PP
    ensures forall j :: 0 <= j < |RepeatCmds(w, n)| ==> RepeatCmds(w, n)[j].0 != CMD_4PP
    ensures n > 0 ==> RepeatCmds(w, n)[n * |w| - |w|..] == w
  {
    if n > 0 {
      NoPageProgramIn(w, n - 1);
    }
  }
}
