/** The BQ25618 battery charger driver (sw/betrusted-hal/src/api_bq25618.rs).

    `BtCharger` caches the charger's first twelve registers. Every
    transaction the driver waits on (`while i2c... != 0 {}`) is logged once
    on the bus, and the bytes it reads are parameters. */
module Bq25618 {
  import opened I2c

  const BQ25618_ADDR: bv8 := 0x6A
  const REGISTER_COUNT: nat := 0xC

  const REG_ILIM: nat := 0x00
  const REG_CHG_CTL: nat := 0x01
  const REG_CHG_ILIM: nat := 0x02
  const REG_PRE_TERM: nat := 0x03
  const REG_VOLT_LIM: nat := 0x04
  const REG_CHG_CTL1: nat := 0x05
  const REG_CHG_CTL2: nat := 0x06
  const REG_CHG_CTL3: nat := 0x07
  const REG_CHG_STAT0: nat := 0x08

  // Register 0: input current limit.
  const TS_IGNORE: bv8 := 0x40
  const IINDPM_LSB_MA: nat := 100
  const IINDPM_OFFSET_MA: nat := 100
  // Register 1: charge control.
  const SYS_MIN_3200MV: bv8 := 0x06
  const SYS_MIN_3400MV: bv8 := 0x08
  const CHARGE_ON: bv8 := 0x10
  const BOOST_ON: bv8 := 0x20
  const BOOST_OFF: bv8 := 0x00
  const WD_RST: bv8 := 0x40
  // Register 2: fast-charge current.
  const ICHG_LSB_MA: nat := 20
  // Register 3: precharge and termination currents.
  const IPRECHG_OFFSET_MA: nat := 20
  const IPRECHG_LSB_MA: nat := 20
  const ITERM_OFFSET_MA: nat := 20
  const ITERM_LSB_MA: nat := 20
  // Register 4: battery voltage limit.
  const VRECHG_THRESH_120MV: bv8 := 0x00
  const TOPOFF_TIME_30MIN: bv8 := 0x04
  const VREG_4200MV: bv8 := 0x40
  // Register 5: charge control 1.
  const JEITA_VSET_4100MV: bv8 := 0x00
  const TREG_110C: bv8 := 0x02
  const CHG_TIMER_10HRS: bv8 := 0x00
  const SAFETY_TIMER_EN: bv8 := 0x08
  const WATCHDOG_40S: bv8 := 0x10
  const CHG_TERM_ENABLE: bv8 := 0x80
  // Register 6: charge control 2.
  const VINDPM_OFFSET_MV: nat := 3900
  const VINDPM_LSB_MV: nat := 100
  const BOOSTV_5000MV: bv8 := 0x20
  const BOOSTV_5150MV: bv8 := 0x30
  const OVP_14200MV: bv8 := 0xC0
  // Register 7: charge control 3.
  const VINDPM_TRACK_300MV: bv8 := 0x03
  const BATFET_RST_EN: bv8 := 0x04
  const BATFET_DLY_10S: bv8 := 0x08
  const BATFET_RST_WAIT_VBUS: bv8 := 0x00
  const BATFET_OFF_ALLOW: bv8 := 0x20
  const BATFET_OFF_IGNORE: bv8 := 0x00
  const TMR2X_EN: bv8 := 0x40
  // Register 8: charger status 0.
  const CHG_MASK: bv8 := 0x18
  const CHG_NOT_CHARGING: bv8 := 0x00
  const CHG_PRECHARGING: bv8 := 0x08
  const CHG_FASTCHARGING: bv8 := 0x10
  const CHG_CHARGETERM: bv8 := 0x18

  // ---------------------------------------------------------------------
  // Register fields

  /** The IINDPM field (bits 4:0) for an input current limit in mA. */
  function IindpmField(ma: nat): bv8
    requires ma >= IINDPM_OFFSET_MA
  {
    ((ma - IINDPM_OFFSET_MA) / IINDPM_LSB_MA % 0x20) as bv8
  }

  /** The ICHG value for a fast-charge current in mA (shifted by 0 and cast
      to a byte without a mask). */
  function IchgField(ma: nat): bv8 {
    (ma / ICHG_LSB_MA % 0x100) as bv8
  }

  /** Register 3: IPRECHG in bits 7:4, ITERM in bits 3:0. */
  function PreTermField(prechgMa: nat, termMa: nat): bv8
    requires prechgMa >= IPRECHG_OFFSET_MA && termMa >= ITERM_OFFSET_MA
  {
    var p := ((prechgMa - IPRECHG_OFFSET_MA) / IPRECHG_LSB_MA % 0x10) as bv8;
    var t := ((termMa - ITERM_OFFSET_MA) / ITERM_LSB_MA % 0x10) as bv8;
    ((p << 4) & 0xF0) | (t & 0x0F)
  }

  /** The VINDPM field (bits 3:0) for an input voltage limit in mV. */
  function VindpmField(mv: nat): bv8
    requires mv >= VINDPM_OFFSET_MV
  {
    ((mv - VINDPM_OFFSET_MV) / VINDPM_LSB_MV % 0x10) as bv8
  }

  /** What the charger reads out of a register's fields, in mA or mV. */
  function IindpmMa(reg: bv8): nat { (reg & 0x1F) as int * IINDPM_LSB_MA + IINDPM_OFFSET_MA }
  function IchgMa(reg: bv8): nat { (reg & 0x3F) as int * ICHG_LSB_MA }
  function IprechgMa(reg: bv8): nat { (reg >> 4) as int * IPRECHG_LSB_MA + IPRECHG_OFFSET_MA }
  function ItermMa(reg: bv8): nat { (reg & 0x0F) as int * ITERM_LSB_MA + ITERM_OFFSET_MA }
  function VindpmMv(reg: bv8): nat { (reg & 0x0F) as int * VINDPM_LSB_MV + VINDPM_OFFSET_MV }

  lemma SmallByte(x: nat, bound: nat)
    requires x < bound && (bound == 0x10 || bound == 0x20)
    ensures (x as bv8) as int == x && (x as bv8) < bound as bv8
  {
  }

  /** A current the IINDPM field can hold is stored exactly, and ORing in
      a flag above bit 4 does not disturb it. */
  lemma IindpmRoundTrip(ma: nat, flags: bv8)
    requires IINDPM_OFFSET_MA <= ma < IINDPM_OFFSET_MA + 0x20 * IINDPM_LSB_MA
    requires (ma - IINDPM_OFFSET_MA) % IINDPM_LSB_MA == 0 && flags & 0x1F == 0
    ensures IindpmMa(flags | IindpmField(ma)) == ma
  {
    var x := (ma - IINDPM_OFFSET_MA) / IINDPM_LSB_MA;
    SmallByte(x, 0x20);
    var f := x as bv8;
    assert (flags | f) & 0x1F == f;
  }

  /** Both currents of register 3 are stored exactly when they fit. */
  lemma PreTermRoundTrip(prechgMa: nat, termMa: nat)
    requires IPRECHG_OFFSET_MA <= prechgMa < IPRECHG_OFFSET_MA + 0x10 * IPRECHG_LSB_MA
    requires (prechgMa - IPRECHG_OFFSET_MA) % IPRECHG_LSB_MA == 0
    requires ITERM_OFFSET_MA <= termMa < ITERM_OFFSET_MA + 0x10 * ITERM_LSB_MA
    requires (termMa - ITERM_OFFSET_MA) % ITERM_LSB_MA == 0
    ensures IprechgMa(PreTermField(prechgMa, termMa)) == prechgMa
    ensures ItermMa(PreTermField(prechgMa, termMa)) == termMa
  {
    var x := (prechgMa - IPRECHG_OFFSET_MA) / IPRECHG_LSB_MA;
    var y := (termMa - ITERM_OFFSET_MA) / ITERM_LSB_MA;
    SmallByte(x, 0x10);
    SmallByte(y, 0x10);
    var p, t := x as bv8, y as bv8;
    assert (((p << 4) & 0xF0) | (t & 0x0F)) >> 4 == p;
    assert (((p << 4) & 0xF0) | (t & 0x0F)) & 0x0F == t;
  }

  // ---------------------------------------------------------------------
  // Register values the driver writes

  const AUTO_ILIM: bv8 := TS_IGNORE | IindpmField(1500)
  const CHG_CTL_CHARGE: bv8 := WD_RST | CHARGE_ON | BOOST_OFF | SYS_MIN_3400MV
  const CHG_CTL_BOOST: bv8 := WD_RST | BOOST_ON | SYS_MIN_3200MV
  const AUTO_CHG_ILIM: bv8 := IchgField(500)
  const AUTO_PRE_TERM: bv8 := PreTermField(40, 60)
  const AUTO_VOLT_LIM: bv8 := VRECHG_THRESH_120MV | TOPOFF_TIME_30MIN | VREG_4200MV
  const AUTO_CHG_CTL1: bv8 :=
    CHG_TERM_ENABLE | WATCHDOG_40S | CHG_TIMER_10HRS | SAFETY_TIMER_EN | TREG_110C | JEITA_VSET_4100MV
  const AUTO_CHG_CTL2: bv8 := VindpmField(4500) | BOOSTV_5000MV | OVP_14200MV
  const BOOST_CHG_CTL2: bv8 := VindpmField(4500) | BOOSTV_5150MV | OVP_14200MV
  const AUTO_CHG_CTL3: bv8 := TMR2X_EN | BATFET_DLY_10S | VINDPM_TRACK_300MV
  const BOOST_CHG_CTL3: bv8 := TMR2X_EN | BATFET_DLY_10S | VINDPM_TRACK_300MV | BATFET_OFF_IGNORE
  const SHIPMODE_CHG_CTL3: bv8 := BATFET_DLY_10S | BATFET_RST_WAIT_VBUS | BATFET_OFF_ALLOW | BATFET_RST_EN

  /** Registers 0 to 7 as `chg_set_autoparams` sets them. */
  function AutoRegisters(): seq<bv8> {
    [AUTO_ILIM, CHG_CTL_CHARGE, AUTO_CHG_ILIM, AUTO_PRE_TERM, AUTO_VOLT_LIM, AUTO_CHG_CTL1, AUTO_CHG_CTL2, AUTO_CHG_CTL3]
  }

  /** The automatic parameters decode to a 1.5 A input limit, a 500 mA
      fast charge, 40 mA precharge, 60 mA termination and a 4.5 V input
      voltage limit, with the thermistor ignored and charging on. */
  lemma AutoParamsMeaning()
    ensures IindpmField(1500) == 14 && IchgField(500) == 25 && VindpmField(4500) == 6
    ensures AUTO_PRE_TERM >> 4 == 1 && AUTO_PRE_TERM & 0x0F == 2
    ensures IindpmMa(AUTO_ILIM) == 1500 && AUTO_ILIM & TS_IGNORE != 0
    ensures IchgMa(AUTO_CHG_ILIM) == 500
    ensures IprechgMa(AUTO_PRE_TERM) == 40 && ItermMa(AUTO_PRE_TERM) == 60
    ensures VindpmMv(AUTO_CHG_CTL2) == 4500
    ensures CHG_CTL_CHARGE & CHARGE_ON != 0 && CHG_CTL_CHARGE & BOOST_ON == 0
    ensures AutoRegisters() == [0x4E, 0x58, 0x19, 0x12, 0x44, 0x9A, 0xE6, 0x4B]
  {
    IindpmRoundTrip(1500, TS_IGNORE);
    PreTermRoundTrip(40, 60);
  }

  /** Ship mode sets BATFET_OFF_ALLOW, BATFET_RST_EN and the 10 s delay. */
  lemma ShipmodeValue()
    ensures SHIPMODE_CHG_CTL3 == 0x2C
    ensures SHIPMODE_CHG_CTL3 & BATFET_OFF_ALLOW != 0 && SHIPMODE_CHG_CTL3 & BATFET_RST_EN != 0
  {
  }

  /** The boost settings: register 1 turns boost on with charging off,
      register 6 selects 5.15 V, and register 7 keeps BATFET_OFF_ALLOW
      clear. */
  lemma BoostValues()
    ensures CHG_CTL_BOOST == 0x66 && CHG_CTL_BOOST & BOOST_ON != 0 && CHG_CTL_BOOST & CHARGE_ON == 0
    ensures BOOST_CHG_CTL2 == 0xF6 && BOOST_CHG_CTL2 & 0x30 == BOOSTV_5150MV
    ensures BOOST_CHG_CTL3 == 0x4B && BOOST_CHG_CTL3 & BATFET_OFF_ALLOW == 0
  {
  }

  // ---------------------------------------------------------------------
  // Charging status

  /** The decode of `chg_is_charging`: the CHG_STAT field compared with
      each of its four values. */
  predicate Charging(stat0: bv8) {
    var field := stat0 & CHG_MASK;
    if field == CHG_NOT_CHARGING then false
    else if field == CHG_PRECHARGING then true
    else if field == CHG_FASTCHARGING then true
    else if field == CHG_CHARGETERM then false
    else false
  }

  /** The charger is charging exactly when bits 4:3 of status 0 read 01
      (precharge) or 10 (fast charge). */
  lemma ChargingIffPreOrFast(stat0: bv8)
    ensures Charging(stat0) <==> (stat0 >> 3) & 3 == 1 || (stat0 >> 3) & 3 == 2
  {
  }

  /** The written-back value of `chg_keepalive_ping` sets WD_RST and keeps
      every other bit of the value read. */
  lemma KeepaliveKeepsBits(reg1: bv8)
    ensures (reg1 | WD_RST) & WD_RST == WD_RST
    ensures (reg1 | WD_RST) & !WD_RST == reg1 & !WD_RST
  {
  }

  // ---------------------------------------------------------------------
  // The driver

  function RegRead(i: nat): Xfer
    requires i < REGISTER_COUNT
  {
    Xfer(BQ25618_ADDR, [i as bv8], 2)
  }

  function RegWrite(i: nat, v: bv8): Xfer
    requires i < REGISTER_COUNT
  {
    Xfer(BQ25618_ADDR, [i as bv8, v], 0)
  }

  class BtCharger {
    var registers: array<bv8>

    ghost predicate Valid()
      reads this
    {
      registers.Length == REGISTER_COUNT
    }

    /** `new`: all cached registers zero. */
    constructor New()
      ensures Valid() && fresh(registers) && registers[..] == seq(REGISTER_COUNT, _ => 0)
    {
      registers := new bv8[REGISTER_COUNT](_ => 0);
    }

    /** `update_regs`: read the twelve registers in order; `values` are the
        bytes the charger returns. */
    method UpdateRegs(i2c: Bus, values: seq<bv8>)
      requires Valid() && |values| == REGISTER_COUNT
      modifies registers, i2c
      ensures registers[..] == values
      ensures i2c.log == old(i2c.log) + seq(REGISTER_COUNT, i requires 0 <= i < REGISTER_COUNT => RegRead(i))
    {
      for i := 0 to REGISTER_COUNT
        invariant registers[..i] == values[..i]
        invariant i2c.log == old(i2c.log) + seq(i, k requires 0 <= k < i => RegRead(k))
      {
        i2c.Transfer(BQ25618_ADDR, [i as bv8], 2);
        registers[i] := values[i];
        assert registers[..i + 1] == registers[..i] + [values[i]];
        assert values[..i + 1] == values[..i] + [values[i]];
      }
    }

    /** `set_shipmode`: one write of register 7; the cache is not updated. */
    method SetShipmode(i2c: Bus)
      modifies i2c
      ensures i2c.log == old(i2c.log) + [RegWrite(REG_CHG_CTL3, SHIPMODE_CHG_CTL3)]
    {
      i2c.Transfer(BQ25618_ADDR, [REG_CHG_CTL3 as bv8, SHIPMODE_CHG_CTL3], 0);
    }

    /** `chg_is_charging`: decode status register 8, either the cached copy
        or a fresh read returning `stat0`. */
    method ChgIsCharging(i2c: Bus, useCached: bool, stat0: bv8) returns (charging: bool)
      requires Valid()
      modifies i2c
      ensures charging == Charging(if useCached then registers[REG_CHG_STAT0] else stat0)
      ensures i2c.log == old(i2c.log) + (if useCached then [] else [RegRead(REG_CHG_STAT0)])
    {
      var status: bv8;
      if !useCached {
        i2c.Transfer(BQ25618_ADDR, [REG_CHG_STAT0 as bv8], 2);
        status := stat0;
      } else {
        status := registers[REG_CHG_STAT0];
      }
      var field := status & CHG_MASK;
      if field == CHG_NOT_CHARGING {
        charging := false;
      } else if field == CHG_PRECHARGING {
        charging := true;
      } else if field == CHG_FASTCHARGING {
        charging := true;
      } else {
        charging := false;
      }
    }

    /** `chg_keepalive_ping`: read register 1 (returning `reg1`) and write
        it back with the watchdog-reset bit set. */
    method ChgKeepalivePing(i2c: Bus, reg1: bv8)
      modifies i2c
      ensures i2c.log == old(i2c.log) + [RegRead(REG_CHG_CTL), RegWrite(REG_CHG_CTL, reg1 | WD_RST)]
    {
      i2c.Transfer(BQ25618_ADDR, [REG_CHG_CTL as bv8], 2);
      i2c.Transfer(BQ25618_ADDR, [REG_CHG_CTL as bv8, reg1 | WD_RST], 0);
    }

    /** `chg_set_autoparams`: set registers 0 to 7 and commit them in one
        write that starts at register 0. */
    method ChgSetAutoparams(i2c: Bus)
      requires Valid()
      modifies registers, i2c
      ensures registers[..8] == AutoRegisters() && registers[8..] == old(registers[8..])
      ensures i2c.log == old(i2c.log) + [Xfer(BQ25618_ADDR, [REG_ILIM as bv8] + AutoRegisters(), 0)]
    {
      registers[REG_ILIM] := AUTO_ILIM;
      registers[REG_CHG_CTL] := CHG_CTL_CHARGE;
      registers[REG_CHG_ILIM] := AUTO_CHG_ILIM;
      registers[REG_PRE_TERM] := AUTO_PRE_TERM;
      registers[REG_VOLT_LIM] := AUTO_VOLT_LIM;
      registers[REG_CHG_CTL1] := AUTO_CHG_CTL1;
      registers[REG_CHG_CTL2] := AUTO_CHG_CTL2;
      registers[REG_CHG_CTL3] := AUTO_CHG_CTL3;
      assert registers[..8] == AutoRegisters();
      CommitFromZero(i2c, 8);
    }

    /** The commit loops of `chg_set_autoparams` and `chg_start`: one write
        starting at register 0 carrying the first `count` cached registers. */
    method CommitFromZero(i2c: Bus, count: nat)
      requires Valid() && count <= 8
      modifies i2c
      ensures i2c.log == old(i2c.log) + [Xfer(BQ25618_ADDR, [REG_ILIM as bv8] + registers[..count], 0)]
    {
      var txbuf := new bv8[count + 1](_ => 0);
      txbuf[0] := REG_ILIM as bv8;
      for i := 0 to count
        modifies txbuf
        invariant txbuf[0] == REG_ILIM as bv8 && txbuf[1..i + 1] == registers[..i]
      {
        txbuf[i + 1] := registers[i];
        assert txbuf[1..i + 2] == txbuf[1..i + 1] + [registers[i]];
        assert registers[..i + 1] == registers[..i] + [registers[i]];
      }
      assert txbuf[..] == [txbuf[0]] + txbuf[1..count + 1];
      i2c.Transfer(BQ25618_ADDR, txbuf[..], 0);
    }

    /** `chg_start`: set the cached registers 0, 1 and 2 but commit only
        registers 0 and 1 (a three-byte write starting at register 0). */
    method ChgStart(i2c: Bus)
      requires Valid()
      modifies registers, i2c
      ensures registers[..3] == AutoRegisters()[..3] && registers[3..] == old(registers[3..])
      ensures i2c.log == old(i2c.log) + [Xfer(BQ25618_ADDR, [REG_ILIM as bv8] + AutoRegisters()[..2], 0)]
    {
      registers[REG_ILIM] := AUTO_ILIM;
      registers[REG_CHG_CTL] := CHG_CTL_CHARGE;
      registers[REG_CHG_ILIM] := AUTO_CHG_ILIM;
      assert registers[..2] == AutoRegisters()[..2];
      CommitFromZero(i2c, 2);
    }

    /** `chg_boost`: register 7 first, then register 1 (boost on, charging
        off), then register 6 (5.15 V boost), each cached and written. */
    method ChgBoost(i2c: Bus)
      requires Valid()
      modifies registers, i2c
      ensures registers[..] == old(registers[..])[REG_CHG_CTL3 := BOOST_CHG_CTL3][REG_CHG_CTL := CHG_CTL_BOOST]
                                                 [REG_CHG_CTL2 := BOOST_CHG_CTL2]
      ensures i2c.log == old(i2c.log) + [RegWrite(REG_CHG_CTL3, BOOST_CHG_CTL3), RegWrite(REG_CHG_CTL, CHG_CTL_BOOST),
                                         RegWrite(REG_CHG_CTL2, BOOST_CHG_CTL2)]
    {
      registers[REG_CHG_CTL3] := BOOST_CHG_CTL3;
      i2c.Transfer(BQ25618_ADDR, [REG_CHG_CTL3 as bv8, registers[REG_CHG_CTL3]], 0);
      registers[REG_CHG_CTL] := CHG_CTL_BOOST;
      i2c.Transfer(BQ25618_ADDR, [REG_CHG_CTL as bv8, registers[REG_CHG_CTL]], 0);
      registers[REG_CHG_CTL2] := BOOST_CHG_CTL2;
      i2c.Transfer(BQ25618_ADDR, [REG_CHG_CTL2 as bv8, registers[REG_CHG_CTL2]], 0);
    }

    /** `chg_boost_off`: register 1 back to charging, cached and written. */
    method ChgBoostOff(i2c: Bus)
      requires Valid()
      modifies registers, i2c
      ensures registers[..] == old(registers[..])[REG_CHG_CTL := CHG_CTL_CHARGE]
      ensures i2c.log == old(i2c.log) + [RegWrite(REG_CHG_CTL, CHG_CTL_CHARGE)]
    {
      registers[REG_CHG_CTL] := CHG_CTL_CHARGE;
      i2c.Transfer(BQ25618_ADDR, [REG_CHG_CTL as bv8, registers[REG_CHG_CTL]], 0);
    }
  }
}
