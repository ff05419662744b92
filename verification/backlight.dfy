/** The LM3509 backlight driver (sw/betrusted-hal/src/api_lm3509.rs). Every
    register write waits until the controller accepts it, so each one is
    logged once on the bus. */
module Backlight {
  import opened I2c

  const LM3509_ADDR: bv8 := 0x36
  const LM3509_GP_ADR: bv8 := 0x10
  const LM3509_BMAIN_ADR: bv8 := 0xA0

  /** The largest brightness level the BMAIN register holds. */
  const MAX_BRIGHTNESS: bv8 := 31
  const MAX_RATE_OF_CHANGE: bv8 := 3

  /** The general-purpose register with both strings in shutdown, and with
      main, sub and unison mode on; the ramp rate goes in bits 4:3. */
  function GpOff(roc: bv8): bv8 { 0xC0 | ((roc & 0x3) << 3) }
  function GpOn(roc: bv8): bv8 { ((roc & 0x3) << 3) | 0xC7 }

  /** The brightness register for a level already clamped. */
  function Bmain(level: bv8): bv8 { level | 0xE0 }

  /** The brightness level actually programmed. */
  function Clamp(level: bv8): (r: bv8)
    ensures r <= MAX_BRIGHTNESS && (level <= MAX_BRIGHTNESS ==> r == level)
  {
    if level > MAX_BRIGHTNESS then MAX_BRIGHTNESS else level
  }

  function GpWrite(v: bv8): Xfer { Xfer(LM3509_ADDR, [LM3509_GP_ADR, v], 0) }
  function BmainWrite(v: bv8): Xfer { Xfer(LM3509_ADDR, [LM3509_BMAIN_ADR, v], 0) }

  /** The writes of `set_brightness(level)` with ramp rate `roc`: level 0
      zeroes the brightness first and then shuts the strings down; any
      other level switches the strings on first and then sets the clamped
      brightness. */
  function BrightnessWrites(roc: bv8, level: bv8): seq<Xfer> {
    if level == 0 then [BmainWrite(Bmain(0)), GpWrite(GpOff(roc))]
    else [GpWrite(GpOn(roc)), BmainWrite(Bmain(Clamp(level)))]
  }

  /** Read back from the registers: the brightness field is the clamped
      level, the three upper bits stay set, and the ramp field is the rate
      of change; the strings are enabled exactly for a nonzero level. */
  lemma BrightnessFields(roc: bv8, level: bv8)
    requires roc <= MAX_RATE_OF_CHANGE
    ensures Bmain(Clamp(level)) & 0x1F == Clamp(level) && Bmain(Clamp(level)) & 0xE0 == 0xE0
    ensures Bmain(0) & 0x1F == 0
    ensures (GpOn(roc) >> 3) & 0x3 == roc && (GpOff(roc) >> 3) & 0x3 == roc
    ensures GpOn(roc) & 0x07 == 0x07 && GpOff(roc) & 0x07 == 0
  {
  }

  class BtBacklight {
    /** How fast the brightness ramps, 0 (fastest) to 3. */
    var rateOfChange: bv8

    ghost predicate Valid()
      reads this
    {
      rateOfChange <= MAX_RATE_OF_CHANGE
    }

    /** `new`: the slowest ramp. */
    constructor New()
      ensures Valid() && rateOfChange == 3
    {
      rateOfChange := 3;
    }

    /** `max_brightness`. */
    static function MaxBrightness(): (r: bv8)
      ensures forall level: bv8 :: Clamp(level) <= r
    {
      31
    }

    /** `set_rate_of_change`: values above 3 are clamped to 3. */
    method SetRateOfChange(roc: bv8)
      modifies this
      ensures Valid()
      ensures rateOfChange == if roc > MAX_RATE_OF_CHANGE then MAX_RATE_OF_CHANGE else roc
    {
      var rocLocal := roc;
      if rocLocal > 3 {
        rocLocal := 3;
      }
      rateOfChange := rocLocal;
    }

    /** `set_brightness`. */
    method SetBrightness(i2c: Bus, level: bv8)
      modifies i2c
      ensures i2c.log == old(i2c.log) + BrightnessWrites(rateOfChange, level)
    {
      var levelLocal := level;
      var txbuf := [LM3509_GP_ADR, 0xC7];
      if level == 0 {
        txbuf := [LM3509_BMAIN_ADR, level | 0xE0];
        i2c.Transfer(LM3509_ADDR, txbuf, 0);
        txbuf := [LM3509_GP_ADR, 0xC0 | ((rateOfChange & 0x3) << 3)];
        i2c.Transfer(LM3509_ADDR, txbuf, 0);
        return;
      } else {
        txbuf := txbuf[1 := ((rateOfChange & 0x3) << 3) | 0xC7];
        assert txbuf == [LM3509_GP_ADR, GpOn(rateOfChange)];
        i2c.Transfer(LM3509_ADDR, txbuf, 0);
        if levelLocal > 31 {
          levelLocal := 31;
        }
        txbuf := [LM3509_BMAIN_ADR, levelLocal | 0xE0];
        i2c.Transfer(LM3509_ADDR, txbuf, 0);
      }
    }
  }
}
