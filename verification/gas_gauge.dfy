/** The BQ27421 gas gauge driver (sw/betrusted-hal/src/api_gasgauge.rs).

    The driver's functions take the I2C controller and return what the
    gauge answers; here the answers are parameters and every transaction
    is logged on the bus. The driver ignores the controller's status, so
    each transaction is logged once. */
module GasGauge {
  import opened I2c

  const BQ27421_ADDR: bv8 := 0x55

  // Word-width commands.
  const GG_CMD_CNTL: bv8 := 0x00
  const GG_CMD_VOLT: bv8 := 0x04
  const GG_CMD_FLAG: bv8 := 0x06
  const GG_CMD_RM: bv8 := 0x0C
  const GG_CMD_AVGCUR: bv8 := 0x10
  const GG_CMD_AVGPWR: bv8 := 0x18
  const GG_CMD_SOC: bv8 := 0x1C

  // Single-byte extended commands.
  const GG_EXT_BLKDATACTL: bv8 := 0x61
  const GG_EXT_BLKDATACLS: bv8 := 0x3E
  const GG_EXT_BLKDATAOFF: bv8 := 0x3F
  const GG_EXT_BLKDATABSE: bv8 := 0x40

  // Control codes.
  const GG_CODE_CTLSTAT: bv16 := 0x0000
  const GG_CODE_DEVTYPE: bv16 := 0x0001
  const GG_CODE_UNSEAL: bv16 := 0x8000
  const GG_CODE_SEAL: bv16 := 0x0020
  const GG_CODE_CFGUPDATE: bv16 := 0x0013
  const GG_CODE_RESET: bv16 := 0x0042
  const GG_CODE_SET_HIB: bv16 := 0x0011
  const GG_CODE_CLR_HIB: bv16 := 0x0012

  /** The size of the state subclass block, and of the block with its
      checksum byte. */
  const BLOCK_LEN: nat := 32
  const BLOCK_WITH_SUM_LEN: nat := 33

  // ---------------------------------------------------------------------
  // Frames and words

  /** The bytes `gg_set` writes: the command, then the value low byte
      first. */
  function SetFrame(cmd: bv8, val: bv16): seq<bv8> {
    [cmd, (val & 0xFF) as bv8, ((val >> 8) & 0xFF) as bv8]
  }

  /** The little-endian word of two received bytes. */
  function Word(lo: bv8, hi: bv8): bv16 {
    (lo as bv16) | ((hi as bv16) << 8)
  }

  /** The `i16` whose two's-complement bytes are `lo` and `hi`: the word
      `lo | hi << 8` reinterpreted as signed. */
  function I16Of(lo: bv8, hi: bv8): (r: int)
    ensures -0x8000 <= r < 0x8000
  {
    var w := hi as int * 0x100 + lo as int;
    if hi < 0x80 then w else w - 0x1_0000
  }

  /** The gauge reads back the value `gg_set` wrote. */
  lemma SetFrameRoundTrip(cmd: bv8, val: bv16)
    ensures |SetFrame(cmd, val)| == 3 && SetFrame(cmd, val)[0] == cmd
    ensures Word(SetFrame(cmd, val)[1], SetFrame(cmd, val)[2]) == val
  {
  }

  /** `gg_get` composes the word before the sign conversion: the sign
      comes from the high byte alone (the low byte is not sign-extended),
      and the value is the unsigned word taken modulo 2^16. */
  lemma GetIsTwosComplement(lo: bv8, hi: bv8)
    ensures I16Of(lo, hi) < 0 <==> hi >= 0x80
    ensures (I16Of(lo, hi) + 0x1_0000) % 0x1_0000 == hi as int * 0x100 + lo as int
    ensures Word(lo, hi) >= 0x8000 <==> hi >= 0x80
  {
  }

  // ---------------------------------------------------------------------
  // The checksum

  /** The wrapping byte sum of `s`. */
  function Sum(s: seq<bv8>): bv8 {
    if s == [] then 0 else Sum(s[..|s| - 1]) + s[|s| - 1]
  }

  /** `compute_checksum` on the first 32 bytes of `blockdata`: the byte
      that makes the block sum to 0xFF. The sum wraps modulo 256. */
  method ComputeChecksum(blockdata: array<bv8>) returns (checksum: bv8)
    requires blockdata.Length >= BLOCK_LEN
    ensures Sum(blockdata[..BLOCK_LEN]) + checksum == 0xFF
  {
    var sum: bv8 := 0;
    for i := 0 to BLOCK_LEN
      invariant sum == Sum(blockdata[..i])
    {
      assert blockdata[..i + 1][..i] == blockdata[..i];
      sum := sum + blockdata[i];
    }
    checksum := 255 - sum;
  }

  /** The block `gg_set_design_capacity` writes back: `mah` big-endian in
      bytes 10 and 11, then the checksum of the first 32 bytes. */
  function Written(block: seq<bv8>, mah: bv16): (w: seq<bv8>)
    requires |block| == BLOCK_LEN
    ensures |w| == BLOCK_WITH_SUM_LEN
  {
    var d := block[10 := ((mah >> 8) & 0xFF) as bv8][11 := (mah & 0xFF) as bv8];
    d + [255 - Sum(d)]
  }

  /** The written block holds the new capacity, keeps every other data
      byte, and carries a valid checksum. */
  lemma WrittenBlock(block: seq<bv8>, mah: bv16)
    requires |block| == BLOCK_LEN
    ensures var w := Written(block, mah);
            && Word(w[11], w[10]) == mah
            && (forall i :: 0 <= i < BLOCK_LEN && i != 10 && i != 11 ==> w[i] == block[i])
            && Sum(w[..BLOCK_LEN]) + w[BLOCK_LEN] == 0xFF
  {
    var w := Written(block, mah);
    assert w[..BLOCK_LEN] == block[10 := ((mah >> 8) & 0xFF) as bv8][11 := (mah & 0xFF) as bv8];
  }

  // ---------------------------------------------------------------------
  // Transactions

  function SetXfer(cmd: bv8, val: bv16): Xfer { Xfer(BQ27421_ADDR, SetFrame(cmd, val), 0) }
  function SetByteXfer(cmd: bv8, val: bv8): Xfer { Xfer(BQ27421_ADDR, [cmd, val], 0) }
  function GetXfer(cmd: bv8): Xfer { Xfer(BQ27421_ADDR, [cmd], 2) }
  function GetByteXfer(cmd: bv8): Xfer { Xfer(BQ27421_ADDR, [cmd], 1) }

  /** The reads of the first `n` block bytes. */
  function BlockReads(n: nat): seq<Xfer>
    requires n <= BLOCK_LEN
  {
    seq(n, i requires 0 <= i < n => GetByteXfer(GG_EXT_BLKDATABSE + i as bv8))
  }

  /** The writes of the first `n` bytes of `data`. */
  function BlockWrites(data: seq<bv8>, n: nat): seq<Xfer>
    requires n <= |data| <= BLOCK_WITH_SUM_LEN
  {
    seq(n, i requires 0 <= i < n => SetByteXfer(GG_EXT_BLKDATABSE + i as bv8, data[i]))
  }

  /** Unseal twice, enter configuration update, wait for the update flag
      (one read, the poll is assumed to succeed) and select the state
      subclass block. */
  function Unlock(): seq<Xfer> {
    [SetXfer(GG_CMD_CNTL, GG_CODE_UNSEAL), SetXfer(GG_CMD_CNTL, GG_CODE_UNSEAL),
     SetXfer(GG_CMD_CNTL, GG_CODE_CFGUPDATE), GetXfer(GG_CMD_FLAG),
     SetByteXfer(GG_EXT_BLKDATACTL, 0x00), SetByteXfer(GG_EXT_BLKDATACLS, 0x52),
     SetByteXfer(GG_EXT_BLKDATAOFF, 0x00)]
  }

  /** Reset, wait for the flag again, and seal. */
  function Relock(): seq<Xfer> {
    [SetXfer(GG_CMD_CNTL, GG_CODE_RESET), GetXfer(GG_CMD_FLAG), SetXfer(GG_CMD_CNTL, GG_CODE_SEAL)]
  }

  /** Every transaction of `gg_set_design_capacity`, in order. */
  function DesignCapacityXfers(block: seq<bv8>, mah: bv16): seq<Xfer>
    requires |block| == BLOCK_LEN
  {
    Unlock() + BlockReads(BLOCK_LEN) + BlockWrites(Written(block, mah), BLOCK_WITH_SUM_LEN) + Relock()
  }

  /** The command order: unseal twice and enter configuration update
      before anything else, write the 33 block bytes after the 32 reads,
      and seal last. */
  lemma DesignCapacityOrder(block: seq<bv8>, mah: bv16)
    requires |block| == BLOCK_LEN
    ensures var l := DesignCapacityXfers(block, mah);
            && |l| == 7 + BLOCK_LEN + BLOCK_WITH_SUM_LEN + 3
            && l[0] == l[1] == SetXfer(GG_CMD_CNTL, GG_CODE_UNSEAL)
            && l[2] == SetXfer(GG_CMD_CNTL, GG_CODE_CFGUPDATE)
            && (forall i :: 0 <= i < BLOCK_WITH_SUM_LEN ==>
                  l[7 + BLOCK_LEN + i] == SetByteXfer(GG_EXT_BLKDATABSE + i as bv8, Written(block, mah)[i]))
            && l[|l| - 1] == SetXfer(GG_CMD_CNTL, GG_CODE_SEAL)
  {
    var l := DesignCapacityXfers(block, mah);
    var w := BlockWrites(Written(block, mah), BLOCK_WITH_SUM_LEN);
    assert l == (Unlock() + BlockReads(BLOCK_LEN)) + w + Relock();
    forall i | 0 <= i < BLOCK_WITH_SUM_LEN
      ensures l[7 + BLOCK_LEN + i] == w[i]
    {
    }
  }

  // ---------------------------------------------------------------------
  // The driver functions

  /** `gg_set`. */
  method GgSet(i2c: Bus, cmd: bv8, val: bv16)
    modifies i2c
    ensures i2c.log == old(i2c.log) + [SetXfer(cmd, val)]
  {
    var txbuf := [cmd, (val & 0xFF) as bv8, ((val >> 8) & 0xFF) as bv8];
    i2c.Transfer(BQ27421_ADDR, txbuf, 0);
  }

  /** `gg_set_byte`. */
  method GgSetByte(i2c: Bus, cmd: bv8, val: bv8)
    modifies i2c
    ensures i2c.log == old(i2c.log) + [SetByteXfer(cmd, val)]
  {
    i2c.Transfer(BQ27421_ADDR, [cmd, val], 0);
  }

  /** `gg_get`: a two-byte read whose bytes `lo`, `hi` are composed before
      the sign conversion. */
  method GgGet(i2c: Bus, cmd: bv8, lo: bv8, hi: bv8) returns (v: int)
    modifies i2c
    ensures i2c.log == old(i2c.log) + [GetXfer(cmd)]
    ensures v == I16Of(lo, hi)
  {
    i2c.Transfer(BQ27421_ADDR, [cmd], 2);
    v := I16Of(lo, hi);
  }

  /** `gg_get_byte`: a one-byte read returning `rx`. */
  method GgGetByte(i2c: Bus, cmd: bv8, rx: bv8) returns (v: bv8)
    modifies i2c
    ensures i2c.log == old(i2c.log) + [GetByteXfer(cmd)] && v == rx
  {
    i2c.Transfer(BQ27421_ADDR, [cmd], 1);
    v := rx;
  }

  /** `gg_start`: leave hibernation. */
  method GgStart(i2c: Bus)
    modifies i2c
    ensures i2c.log == old(i2c.log) + [SetXfer(GG_CMD_CNTL, GG_CODE_CLR_HIB)]
  {
    GgSet(i2c, GG_CMD_CNTL, GG_CODE_CLR_HIB);
  }

  /** `gg_set_hibernate`. */
  method GgSetHibernate(i2c: Bus)
    modifies i2c
    ensures i2c.log == old(i2c.log) + [SetXfer(GG_CMD_CNTL, GG_CODE_SET_HIB)]
  {
    GgSet(i2c, GG_CMD_CNTL, GG_CODE_SET_HIB);
  }

  /** `gg_voltage`, `gg_avg_current`, `gg_avg_power`,
      `gg_remaining_capacity` and `gg_state_of_charge`: one word read of
      their command. */
  method GgReading(i2c: Bus, cmd: bv8, lo: bv8, hi: bv8) returns (v: int)
    requires cmd in {GG_CMD_VOLT, GG_CMD_AVGCUR, GG_CMD_AVGPWR, GG_CMD_RM, GG_CMD_SOC}
    modifies i2c
    ensures i2c.log == old(i2c.log) + [GetXfer(cmd)] && v == I16Of(lo, hi)
  {
    v := GgGet(i2c, cmd, lo, hi);
  }

  /** `gg_device_type` and `gg_control_status`: a control subcommand, then
      a read of the control word. */
  method GgControl(i2c: Bus, code: bv16, lo: bv8, hi: bv8) returns (v: int)
    requires code == GG_CODE_DEVTYPE || code == GG_CODE_CTLSTAT
    modifies i2c
    ensures i2c.log == old(i2c.log) + [SetXfer(GG_CMD_CNTL, code), GetXfer(GG_CMD_CNTL)]
    ensures v == I16Of(lo, hi)
  {
    GgSet(i2c, GG_CMD_CNTL, code);
    v := GgGet(i2c, GG_CMD_CNTL, lo, hi);
  }

  /** `gg_set_design_capacity`: `block` holds the 32 bytes the gauge
      returns. The previous capacity is returned (big-endian in bytes 10
      and 11) and `mah` is written in its place. */
  method GgSetDesignCapacity(i2c: Bus, mah: bv16, block: seq<bv8>) returns (designCapacity: bv16)
    requires |block| == BLOCK_LEN
    modifies i2c
    ensures designCapacity == Word(block[11], block[10])
    ensures i2c.log == old(i2c.log) + DesignCapacityXfers(block, mah)
  {
    UnlockBlock(i2c);
    ghost var unlocked := i2c.log;
    var blockdata := ReadBlock(i2c, block);
    designCapacity := (blockdata[11] as bv16) | ((blockdata[10] as bv16) << 8);
    UpdateBlock(blockdata, mah);
    WriteBlock(i2c, blockdata);
    ghost var written := i2c.log;
    assert written == unlocked + BlockReads(BLOCK_LEN) + BlockWrites(Written(block, mah), BLOCK_WITH_SUM_LEN);
    RelockBlock(i2c);
  }

  /** The commands before the block edit. */
  method UnlockBlock(i2c: Bus)
    modifies i2c
    ensures i2c.log == old(i2c.log) + Unlock()
  {
    GgSet(i2c, GG_CMD_CNTL, GG_CODE_UNSEAL);
    GgSet(i2c, GG_CMD_CNTL, GG_CODE_UNSEAL);
    GgSet(i2c, GG_CMD_CNTL, GG_CODE_CFGUPDATE);
    var flags := GgGet(i2c, GG_CMD_FLAG, 0x10, 0);
    GgSetByte(i2c, GG_EXT_BLKDATACTL, 0x00);
    GgSetByte(i2c, GG_EXT_BLKDATACLS, 0x52);
    GgSetByte(i2c, GG_EXT_BLKDATAOFF, 0x00);
  }

  /** The commands after the block edit. */
  method RelockBlock(i2c: Bus)
    modifies i2c
    ensures i2c.log == old(i2c.log) + Relock()
  {
    GgSet(i2c, GG_CMD_CNTL, GG_CODE_RESET);
    var flags := GgGet(i2c, GG_CMD_FLAG, 0x10, 0);
    GgSet(i2c, GG_CMD_CNTL, GG_CODE_SEAL);
  }

  /** Store `mah` big-endian in bytes 10 and 11 and the checksum in byte 32. */
  method UpdateBlock(blockdata: array<bv8>, mah: bv16)
    requires blockdata.Length == BLOCK_WITH_SUM_LEN
    modifies blockdata
    ensures blockdata[..] == Written(old(blockdata[..BLOCK_LEN]), mah)
  {
    ghost var block := blockdata[..BLOCK_LEN];
    blockdata[11] := (mah & 0xFF) as bv8;
    blockdata[10] := ((mah >> 8) & 0xFF) as bv8;
    assert blockdata[..BLOCK_LEN] == block[10 := ((mah >> 8) & 0xFF) as bv8][11 := (mah & 0xFF) as bv8];
    var checksum := ComputeChecksum(blockdata);
    blockdata[BLOCK_LEN] := checksum;
    assert blockdata[..] == blockdata[..BLOCK_LEN] + [checksum];
  }

  /** The read loop of `gg_set_design_capacity`. */
  method ReadBlock(i2c: Bus, block: seq<bv8>) returns (blockdata: array<bv8>)
    requires |block| == BLOCK_LEN
    modifies i2c
    ensures fresh(blockdata) && blockdata.Length == BLOCK_WITH_SUM_LEN
    ensures blockdata[..BLOCK_LEN] == block && blockdata[BLOCK_LEN] == 0
    ensures i2c.log == old(i2c.log) + BlockReads(BLOCK_LEN)
  {
    blockdata := new bv8[BLOCK_WITH_SUM_LEN](_ => 0);
    for i := 0 to BLOCK_LEN
      invariant blockdata[..i] == block[..i] && blockdata[BLOCK_LEN] == 0
      invariant i2c.log == old(i2c.log) + BlockReads(i)
    {
      blockdata[i] := GgGetByte(i2c, GG_EXT_BLKDATABSE + i as bv8, block[i]);
      assert blockdata[..i + 1] == blockdata[..i] + [block[i]];
      assert block[..i + 1] == block[..i] + [block[i]];
      assert BlockReads(i + 1) == BlockReads(i) + [GetByteXfer(GG_EXT_BLKDATABSE + i as bv8)];
    }
  }

  /** The write loop of `gg_set_design_capacity`. */
  method WriteBlock(i2c: Bus, blockdata: array<bv8>)
    requires blockdata.Length == BLOCK_WITH_SUM_LEN
    modifies i2c
    ensures i2c.log == old(i2c.log) + BlockWrites(blockdata[..], BLOCK_WITH_SUM_LEN)
  {
    for i := 0 to BLOCK_WITH_SUM_LEN
      invariant i2c.log == old(i2c.log) + BlockWrites(blockdata[..], i)
    {
      GgSetByte(i2c, GG_EXT_BLKDATABSE + i as bv8, blockdata[i]);
      assert BlockWrites(blockdata[..], i + 1)
          == BlockWrites(blockdata[..], i) + [SetByteXfer(GG_EXT_BLKDATABSE + i as bv8, blockdata[i])];
    }
  }
}
