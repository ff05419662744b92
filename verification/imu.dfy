/** The LSM6DS3 accelerometer driver (sw/betrusted-hal/src/api_lsm6ds3.rs).
    Unlike the other I2C drivers it does not wait forever for the bus: each
    register access is tried at most three times, and a failure returns the
    error tag of the access that failed. The bus answers the transaction
    logged at position `n` with `reply(n)` (see `I2c.Bus`), so every
    specification below takes the log so far and returns the whole log
    after the access. */
module Imu {
  import opened Wrappers
  import opened I2c

  const IMU_I2C_ADDR: bv8 := 0x6B
  const WHO_AM_I: bv8 := 0x0F
  const CTRL1_XL: bv8 := 0x10
  const CTRL2_G: bv8 := 0x11
  const CTRL3_C: bv8 := 0x12
  const TAP_SRC: bv8 := 0x1C
  const WAKE_UP_THS: bv8 := 0x5B
  const TAP_CFG: bv8 := 0x58
  const TAP_THS_6D: bv8 := 0x59
  const INT_DUR2: bv8 := 0x5A
  const MD1_CFG: bv8 := 0x5E
  const OUTX_L_XL: bv8 := 0x28
  const OUTX_H_XL: bv8 := 0x29
  const OUTY_L_XL: bv8 := 0x2A
  const OUTY_H_XL: bv8 := 0x2B
  const OUTZ_L_XL: bv8 := 0x2C
  const OUTZ_H_XL: bv8 := 0x2D

  /** A register write and the error tag it reports when it fails. */
  datatype RegWrite = RegWrite(reg: bv8, val: bv8, tag: bv8)

  /** The bus log after a sequence of accesses, and their outcome. */
  datatype Run<T> = Run(log: seq<Xfer>, result: Result<T, bv8>)

  function WriteXfer(reg: bv8, val: bv8): Xfer { Xfer(IMU_I2C_ADDR, [reg, val], 0) }

  /** A read of one register: the controller needs at least two bytes. */
  function ReadXfer(reg: bv8): Xfer { Xfer(IMU_I2C_ADDR, [reg], 2) }

  function Repeat(x: Xfer, n: nat): (r: seq<Xfer>)
    ensures |r| == n && forall i :: 0 <= i < n ==> r[i] == x
  {
    if n == 0 then [] else Repeat(x, n - 1) + [x]
  }

  /** How many times an access is tried before it gives up. */
  const TRIES: nat := 3

  /** An access that sends `x` after the transactions of `log`, trying
      again after each failure while tries are `left`: the log afterwards,
      and the first byte of the try that succeeded or else the access's
      error tag. */
  function Tries(reply: nat -> Option<bv8>, log: seq<Xfer>, x: Xfer, left: nat, tag: bv8): Run<bv8>
    decreases left
  {
    if left == 0 then Run(log, Err(tag))
    else if reply(|log|).Some? then Run(log + [x], Ok(reply(|log|).value))
    else Tries(reply, log + [x], x, left - 1, tag)
  }

  /** The retry loop sends the same transaction every time, at least once
      and at most `left` times. When it succeeds every try before the last
      failed and the byte returned is that of the last; when it fails every
      try was made, all failed, and the error is the access's tag. */
  lemma {:induction false} TriesMeaning(reply: nat -> Option<bv8>, log: seq<Xfer>, x: Xfer, left: nat, tag: bv8)
    ensures var run := Tries(reply, log, x, left, tag);
      |log| <= |run.log| <= |log| + left && run.log == log + Repeat(x, |run.log| - |log|) &&
      (left > 0 ==> |log| < |run.log|) &&
      (forall i :: |log| <= i < |run.log| - 1 ==> reply(i).None?) &&
      (run.result.Ok? ==> reply(|run.log| - 1) == Some(run.result.value)) &&
      (run.result.Err? ==> run.result.error == tag && |run.log| == |log| + left &&
                           forall i :: |log| <= i < |run.log| ==> reply(i).None?)
    decreases left
  {
    if left > 0 && reply(|log|).None? {
      TriesMeaning(reply, log + [x], x, left - 1, tag);
      var run := Tries(reply, log + [x], x, left - 1, tag);
      var m := |run.log| - |log + [x]|;
      assert run.log == log + Repeat(x, m + 1) by {
        assert (log + [x]) + Repeat(x, m) == log + ([x] + Repeat(x, m));
        assert [x] + Repeat(x, m) == Repeat(x, m + 1);
      }
    }
  }

  /** With three tries, an access succeeds exactly when one of the next
      three transactions does, and it sends them only up to the first that
      succeeds. */
  lemma ThreeTries(reply: nat -> Option<bv8>, log: seq<Xfer>, x: Xfer, tag: bv8)
    ensures var run := Tries(reply, log, x, TRIES, tag);
      (run.result.Ok? <==> reply(|log|).Some? || reply(|log| + 1).Some? || reply(|log| + 2).Some?) &&
      |run.log| == |log| + if reply(|log|).Some? then 1 else if reply(|log| + 1).Some? then 2 else 3
  {
  }

  /** One retried write: on success it returns 0. */
  function WriteRun(reply: nat -> Option<bv8>, log: seq<Xfer>, w: RegWrite): Run<bv8> {
    var run := Tries(reply, log, WriteXfer(w.reg, w.val), TRIES, w.tag);
    Run(run.log, if run.result.Ok? then Ok(0) else run.result)
  }

  /** One retried read. */
  function ReadRun(reply: nat -> Option<bv8>, log: seq<Xfer>, reg: bv8, tag: bv8): Run<bv8> {
    Tries(reply, log, ReadXfer(reg), TRIES, tag)
  }

  /** `i2c_w`: write `val` to `reg`, trying at most three times. */
  method WriteReg(i2c: Bus, reg: bv8, val: bv8, tag: bv8) returns (r: Result<bv8, bv8>)
    modifies i2c
    ensures var run := WriteRun(i2c.reply, old(i2c.log), RegWrite(reg, val, tag));
      i2c.log == run.log && r == run.result
  {
    ghost var x := WriteXfer(reg, val);
    for attempt := 0 to 3
      invariant Tries(i2c.reply, old(i2c.log), x, TRIES, tag) == Tries(i2c.reply, i2c.log, x, TRIES - attempt, tag)
    {
      var rx := i2c.TryTransfer(IMU_I2C_ADDR, [reg, val], 0);
      if rx.Some? {
        return Ok(0);
      }
    }
    return Err(tag);
  }

  /** `i2c_r`: read `reg`, trying at most three times; the value is the
      first of the two bytes read. */
  method ReadReg(i2c: Bus, reg: bv8, tag: bv8) returns (r: Result<bv8, bv8>)
    modifies i2c
    ensures var run := ReadRun(i2c.reply, old(i2c.log), reg, tag);
      i2c.log == run.log && r == run.result
  {
    ghost var x := ReadXfer(reg);
    for attempt := 0 to 3
      invariant Tries(i2c.reply, old(i2c.log), x, TRIES, tag) == Tries(i2c.reply, i2c.log, x, TRIES - attempt, tag)
    {
      var rx := i2c.TryTransfer(IMU_I2C_ADDR, [reg], 2);
      if rx.Some? {
        return Ok(rx.value);
      }
    }
    return Err(tag);
  }

  /** The first `n` writes of `ws`, each started only after the previous
      one succeeded: the `?` operator after every write. */
  function Writes(reply: nat -> Option<bv8>, log: seq<Xfer>, ws: seq<RegWrite>, n: nat): Run<bv8>
    requires n <= |ws|
    decreases n
  {
    if n == 0 then Run(log, Ok(0))
    else
      var done := Writes(reply, log, ws, n - 1);
      if done.result.Err? then done else WriteRun(reply, done.log, ws[n - 1])
  }

  /** The transactions of the first `n` writes of a list when each is
      accepted at once. */
  function WriteXfers(ws: seq<RegWrite>, n: nat): (r: seq<Xfer>)
    requires n <= |ws|
    ensures |r| == n
  {
    if n == 0 then [] else WriteXfers(ws, n - 1) + [WriteXfer(ws[n - 1].reg, ws[n - 1].val)]
  }

  /** Every transaction from log position `at` on, up to `n` of them,
      succeeds. */
  ghost predicate Healthy(reply: nat -> Option<bv8>, at: nat, n: nat) {
    forall k: nat :: at <= k < at + n ==> reply(k).Some?
  }

  /** A list of writes only appends to the log, at most three transactions
      per write; it succeeds with 0 having sent every write, or fails with
      the tag of one of its writes. */
  lemma {:induction false} WritesOutcome(reply: nat -> Option<bv8>, log: seq<Xfer>, ws: seq<RegWrite>, n: nat)
    requires n <= |ws|
    ensures var run := Writes(reply, log, ws, n);
      log <= run.log && |run.log| <= |log| + TRIES * n &&
      (run.result.Ok? ==> run.result.value == 0 && |log| + n <= |run.log|) &&
      (run.result.Err? ==> exists i :: 0 <= i < n && run.result.error == ws[i].tag)
    decreases n
  {
    if n > 0 {
      WritesOutcome(reply, log, ws, n - 1);
      var done := Writes(reply, log, ws, n - 1);
      if done.result.Ok? {
        var w := ws[n - 1];
        TriesMeaning(reply, done.log, WriteXfer(w.reg, w.val), TRIES, w.tag);
      }
    }
  }

  /** On a bus where every transaction succeeds, a list of writes sends
      each register value exactly once, in order, and succeeds. */
  lemma {:induction false} WritesOnHealthyBus(reply: nat -> Option<bv8>, log: seq<Xfer>, ws: seq<RegWrite>, n: nat)
    requires n <= |ws| && Healthy(reply, |log|, n)
    ensures Writes(reply, log, ws, n) == Run(log + WriteXfers(ws, n), Ok(0))
    decreases n
  {
    if n > 0 {
      assert Healthy(reply, |log|, n - 1);
      WritesOnHealthyBus(reply, log, ws, n - 1);
      assert reply(|log| + (n - 1)).Some?;
      var x := WriteXfer(ws[n - 1].reg, ws[n - 1].val);
      assert (log + WriteXfers(ws, n - 1)) + [x] == log + (WriteXfers(ws, n - 1) + [x]);
    }
  }

  /** Once a write of the list has failed, the writes after it are not
      sent. */
  lemma {:induction false} WritesStop(reply: nat -> Option<bv8>, log: seq<Xfer>, ws: seq<RegWrite>, k: nat, n: nat)
    requires k <= n <= |ws| && Writes(reply, log, ws, k).result.Err?
    ensures Writes(reply, log, ws, n) == Writes(reply, log, ws, k)
    decreases n
  {
    if k < n {
      WritesStop(reply, log, ws, k, n - 1);
    }
  }

  /** `boot_and_reset`: power the gyroscope down, the accelerometer up, then
      reboot and software-reset the chip. */
  const BOOT_WRITES: seq<RegWrite> := [
    RegWrite(CTRL2_G, 0x00, 0x1),
    RegWrite(CTRL1_XL, 0x60, 0x2),
    RegWrite(CTRL3_C, 0x80, 0x3),
    RegWrite(CTRL3_C, 0x01, 0x4)
  ]

  /** The part of `init` after the reset: the accelerometer at 416 Hz, block
      data update, and single-tap detection on the Z axis driving INT1. */
  const TAP_WRITES: seq<RegWrite> := [
    RegWrite(CTRL1_XL, 0x60, 0x5),
    RegWrite(CTRL3_C, 0x40, 0x6),
    RegWrite(TAP_CFG, 0x83, 0x7),
    RegWrite(TAP_THS_6D, 0x89, 0x8),
    RegWrite(INT_DUR2, 0x0E, 0x9),
    RegWrite(WAKE_UP_THS, 0x00, 0xA),
    RegWrite(MD1_CFG, 0x40, 0xB)
  ]

  /** The tag `get_who_am_i` reports. */
  const WHO_AM_I_TAG: bv8 := 0xC

  /** Every step of `init` reports its own error tag, so a failure names
      the access that failed. */
  lemma InitTagsDistinct()
    ensures forall i, j :: 0 <= i < j < |BOOT_WRITES + TAP_WRITES| ==>
              (BOOT_WRITES + TAP_WRITES)[i].tag != (BOOT_WRITES + TAP_WRITES)[j].tag
    ensures forall i :: 0 <= i < |BOOT_WRITES + TAP_WRITES| ==> (BOOT_WRITES + TAP_WRITES)[i].tag != WHO_AM_I_TAG
  {
  }

  /** The whole of `init`: reset, configure, then read WHO_AM_I, stopping
      at the first failure. */
  function InitRun(reply: nat -> Option<bv8>, log: seq<Xfer>): Run<bv8> {
    var boot := Writes(reply, log, BOOT_WRITES, |BOOT_WRITES|);
    if boot.result.Err? then boot
    else
      var tap := Writes(reply, boot.log, TAP_WRITES, |TAP_WRITES|);
      if tap.result.Err? then tap else ReadRun(reply, tap.log, WHO_AM_I, WHO_AM_I_TAG)
  }

  /** On a bus where every transaction succeeds, `init` sends the reset and
      then the tap configuration, each value once and in order, reads
      WHO_AM_I once and returns the byte read. */
  lemma InitOnHealthyBus(reply: nat -> Option<bv8>, log: seq<Xfer>)
    requires Healthy(reply, |log|, |BOOT_WRITES| + |TAP_WRITES| + 1)
    ensures InitRun(reply, log).log ==
              log + WriteXfers(BOOT_WRITES, |BOOT_WRITES|) + WriteXfers(TAP_WRITES, |TAP_WRITES|) + [ReadXfer(WHO_AM_I)]
    ensures InitRun(reply, log).result == Ok(reply(|log| + |BOOT_WRITES| + |TAP_WRITES|).value)
  {
    var n := |BOOT_WRITES|;
    var m := |TAP_WRITES|;
    HealthySplit(reply, |log|, n, m + 1);
    HealthySplit(reply, |log| + n, m, 1);
    WritesOnHealthyBus(reply, log, BOOT_WRITES, n);
    var booted := log + WriteXfers(BOOT_WRITES, n);
    WritesOnHealthyBus(reply, booted, TAP_WRITES, m);
  }

  /** `init` only appends to the log, and when it fails the error is the
      tag of the reset write, the configuration write or the WHO_AM_I read
      that failed. */
  lemma InitFailureNamesAccess(reply: nat -> Option<bv8>, log: seq<Xfer>)
    ensures var run := InitRun(reply, log);
      log <= run.log &&
      (run.result.Err? ==>
         (exists i :: 0 <= i < |BOOT_WRITES| && run.result.error == BOOT_WRITES[i].tag) ||
         (exists i :: 0 <= i < |TAP_WRITES| && run.result.error == TAP_WRITES[i].tag) ||
         run.result.error == WHO_AM_I_TAG)
  {
    WritesOutcome(reply, log, BOOT_WRITES, |BOOT_WRITES|);
    var boot := Writes(reply, log, BOOT_WRITES, |BOOT_WRITES|);
    if boot.result.Ok? {
      WritesOutcome(reply, boot.log, TAP_WRITES, |TAP_WRITES|);
      var tap := Writes(reply, boot.log, TAP_WRITES, |TAP_WRITES|);
      if tap.result.Ok? {
        TriesMeaning(reply, tap.log, ReadXfer(WHO_AM_I), TRIES, WHO_AM_I_TAG);
      }
    }
  }

  lemma HealthySplit(reply: nat -> Option<bv8>, at: nat, n: nat, m: nat)
    requires Healthy(reply, at, n + m)
    ensures Healthy(reply, at, n) && Healthy(reply, at + n, m)
  {
  }

  /** A little-endian 16-bit value. */
  function Le16(lsb: bv8, msb: bv8): bv16 {
    ((msb as bv16) << 8) | (lsb as bv16)
  }

  /** One axis: the low byte, then the high byte. */
  function AxisRun(reply: nat -> Option<bv8>, log: seq<Xfer>, lo: bv8, hi: bv8, tagLo: bv8, tagHi: bv8): Run<bv16> {
    var low := ReadRun(reply, log, lo, tagLo);
    if low.result.Err? then Run(low.log, Err(low.result.error))
    else
      var high := ReadRun(reply, low.log, hi, tagHi);
      if high.result.Err? then Run(high.log, Err(high.result.error))
      else Run(high.log, Ok(Le16(low.result.value, high.result.value)))
  }

  /** A measurement's low byte is the byte the low register read returned
      and its high byte the one the high register read returned; an error
      names the read that failed. */
  lemma AxisMeaning(reply: nat -> Option<bv8>, log: seq<Xfer>, lo: bv8, hi: bv8, tagLo: bv8, tagHi: bv8)
    ensures var run := AxisRun(reply, log, lo, hi, tagLo, tagHi);
      var low := ReadRun(reply, log, lo, tagLo);
      var high := ReadRun(reply, low.log, hi, tagHi).result;
      (run.result.Ok? <==> low.result.Ok? && high.Ok?) &&
      (run.result.Ok? ==> (run.result.value & 0xFF) as bv8 == low.result.value && (run.result.value >> 8) as bv8 == high.value) &&
      (run.result.Err? ==> run.result.error == if low.result.Err? then tagLo else tagHi)
  {
    var low := ReadRun(reply, log, lo, tagLo);
    TriesMeaning(reply, log, ReadXfer(lo), TRIES, tagLo);
    if low.result.Ok? {
      TriesMeaning(reply, low.log, ReadXfer(hi), TRIES, tagHi);
    }
  }

  /** TAP_SRC reports a tap when both TAP_IA and SINGLE_TAP are set. */
  predicate TapSeen(ts: bv8) {
    ts & 0x60 == 0x60
  }

  lemma TapSeenMeaning(ts: bv8)
    ensures TapSeen(ts) <==> (ts >> 6) & 1 == 1 && (ts >> 5) & 1 == 1
  {
  }

  /** `boot_and_reset`. The two delays that let the boot and the reset
      finish are not modelled. */
  method BootAndReset(i2c: Bus) returns (r: Result<bv8, bv8>)
    modifies i2c
    ensures var run := Writes(i2c.reply, old(i2c.log), BOOT_WRITES, |BOOT_WRITES|);
      i2c.log == run.log && r == run.result
  {
    ghost var log := i2c.log;
    r := WriteReg(i2c, CTRL2_G, 0x00, 0x1);
    if r.Err? {
      WritesStop(i2c.reply, log, BOOT_WRITES, 1, 4);
      return;
    }
    r := WriteReg(i2c, CTRL1_XL, 0x60, 0x2);
    if r.Err? {
      WritesStop(i2c.reply, log, BOOT_WRITES, 2, 4);
      return;
    }
    r := WriteReg(i2c, CTRL3_C, 0x80, 0x3);
    if r.Err? {
      WritesStop(i2c.reply, log, BOOT_WRITES, 3, 4);
      return;
    }
    r := WriteReg(i2c, CTRL3_C, 0x01, 0x4);
  }

  /** `init`: reset, configure single-tap detection, and return WHO_AM_I. */
  method Init(i2c: Bus) returns (r: Result<bv8, bv8>)
    modifies i2c
    ensures var run := InitRun(i2c.reply, old(i2c.log));
      i2c.log == run.log && r == run.result
  {
    r := BootAndReset(i2c);
    if r.Err? {
      return;
    }
    r := ConfigureTap(i2c);
    if r.Err? {
      return;
    }
    r := GetWhoAmI(i2c);
  }

  /** The seven register writes of `init` between the reset and the
      WHO_AM_I read. */
  method ConfigureTap(i2c: Bus) returns (r: Result<bv8, bv8>)
    modifies i2c
    ensures var run := Writes(i2c.reply, old(i2c.log), TAP_WRITES, |TAP_WRITES|);
      i2c.log == run.log && r == run.result
  {
    ghost var log := i2c.log;
    r := WriteNext(i2c, log, TAP_WRITES, 0, CTRL1_XL, 0x60, 0x5);
    if r.Err? {
      WritesStop(i2c.reply, log, TAP_WRITES, 1, 7);
      return;
    }
    r := WriteNext(i2c, log, TAP_WRITES, 1, CTRL3_C, 0x40, 0x6);
    if r.Err? {
      WritesStop(i2c.reply, log, TAP_WRITES, 2, 7);
      return;
    }
    r := WriteNext(i2c, log, TAP_WRITES, 2, TAP_CFG, 0x83, 0x7);
    if r.Err? {
      WritesStop(i2c.reply, log, TAP_WRITES, 3, 7);
      return;
    }
    r := WriteNext(i2c, log, TAP_WRITES, 3, TAP_THS_6D, 0x89, 0x8);
    if r.Err? {
      WritesStop(i2c.reply, log, TAP_WRITES, 4, 7);
      return;
    }
    r := WriteNext(i2c, log, TAP_WRITES, 4, INT_DUR2, 0x0E, 0x9);
    if r.Err? {
      WritesStop(i2c.reply, log, TAP_WRITES, 5, 7);
      return;
    }
    r := WriteNext(i2c, log, TAP_WRITES, 5, WAKE_UP_THS, 0x00, 0xA);
    if r.Err? {
      WritesStop(i2c.reply, log, TAP_WRITES, 6, 7);
      return;
    }
    r := WriteNext(i2c, log, TAP_WRITES, 6, MD1_CFG, 0x40, 0xB);
  }

  /** `i2c_w` as the `k`-th write of the list `ws` begun at `log`, once
      the writes before it have all succeeded. */
  method WriteNext(i2c: Bus, ghost log: seq<Xfer>, ws: seq<RegWrite>, k: nat, reg: bv8, val: bv8, tag: bv8)
    returns (r: Result<bv8, bv8>)
    requires k < |ws| && ws[k] == RegWrite(reg, val, tag)
    requires Writes(i2c.reply, log, ws, k) == Run(i2c.log, Ok(0))
    modifies i2c
    ensures Writes(i2c.reply, log, ws, k + 1) == Run(i2c.log, r)
  {
    r := WriteReg(i2c, reg, val, tag);
  }

  /** `get_who_am_i`. */
  method GetWhoAmI(i2c: Bus) returns (r: Result<bv8, bv8>)
    modifies i2c
    ensures var run := ReadRun(i2c.reply, old(i2c.log), WHO_AM_I, WHO_AM_I_TAG);
      i2c.log == run.log && r == run.result
  {
    r := ReadReg(i2c, WHO_AM_I, WHO_AM_I_TAG);
  }

  /** The body shared by `get_accel_x`, `get_accel_y` and `get_accel_z`. */
  method GetAxis(i2c: Bus, lo: bv8, hi: bv8, tagLo: bv8, tagHi: bv8) returns (r: Result<bv16, bv8>)
    modifies i2c
    ensures var run := AxisRun(i2c.reply, old(i2c.log), lo, hi, tagLo, tagHi);
      i2c.log == run.log && r == run.result
  {
    var lsb := ReadReg(i2c, lo, tagLo);
    if lsb.Err? {
      return Err(lsb.error);
    }
    var msb := ReadReg(i2c, hi, tagHi);
    if msb.Err? {
      return Err(msb.error);
    }
    return Ok(Le16(lsb.value, msb.value));
  }

  method GetAccelX(i2c: Bus) returns (r: Result<bv16, bv8>)
    modifies i2c
    ensures var run := AxisRun(i2c.reply, old(i2c.log), OUTX_L_XL, OUTX_H_XL, 0x0D, 0x0E);
      i2c.log == run.log && r == run.result
  {
    r := GetAxis(i2c, OUTX_L_XL, OUTX_H_XL, 0x0D, 0x0E);
  }

  method GetAccelY(i2c: Bus) returns (r: Result<bv16, bv8>)
    modifies i2c
    ensures var run := AxisRun(i2c.reply, old(i2c.log), OUTY_L_XL, OUTY_H_XL, 0x0F, 0x10);
      i2c.log == run.log && r == run.result
  {
    r := GetAxis(i2c, OUTY_L_XL, OUTY_H_XL, 0x0F, 0x10);
  }

  method GetAccelZ(i2c: Bus) returns (r: Result<bv16, bv8>)
    modifies i2c
    ensures var run := AxisRun(i2c.reply, old(i2c.log), OUTZ_L_XL, OUTZ_H_XL, 0x11, 0x12);
      i2c.log == run.log && r == run.result
  {
    r := GetAxis(i2c, OUTZ_L_XL, OUTZ_H_XL, 0x11, 0x12);
  }

  /** `get_single_tap`: whether a single tap has been latched. */
  method GetSingleTap(i2c: Bus) returns (r: Result<bool, bv8>)
    modifies i2c
    ensures var run := ReadRun(i2c.reply, old(i2c.log), TAP_SRC, 0x13);
      i2c.log == run.log &&
      r == if run.result.Ok? then Ok(TapSeen(run.result.value)) else Err(run.result.error)
  {
    var ts := ReadReg(i2c, TAP_SRC, 0x13);
    if ts.Err? {
      return Err(ts.error);
    }
    var tapHappened := (ts.value & 0x60) == 0x60;
    return Ok(tapHappened);
  }
}
