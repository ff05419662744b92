/** The battery and charger housekeeping of sw/src/power_mgmt.rs
    (`charger_handler`).

    The handler's many `&mut` arguments are the fields of `Charger`. The
    sensor readings it takes over I2C, the clock and the power block's
    STATS_STATE field are inputs (`Readings`); what it asks of the
    hardware is recorded, in order, as a list of `Op`s. */
module PowerMgmt {
  import opened Bits

  /** Below this the battery is in danger and the device ships itself. */
  const BATTERY_PANIC_VOLTAGE: int := 3500
  /** Below this the SoC should be warned; at or above it the panic clears. */
  const BATTERY_LOW_VOLTAGE: int := 3575
  /** How long, in ms, the handler waits between passes (strictly more). */
  const RUN_INTERVAL: nat := 1000
  const SHIP_SOC_PERCENT: int := 5
  const SHIP_MIN_TICKS: nat := 8000

  /** What the handler does to the hardware. */
  datatype Op =
    | KeepalivePing                 // charger watchdog ping
    | UsbCcCheck                    // `usb_cc.check_event`
    | ChargerStart                  // `chg_start`
    | ReadVoltage | ReadSoc | ReadCharging | ReadCurrent
    | BacklightOff                  // `set_brightness(0, 0)`
    | ChargerShipmode | GaugeHibernate
    | Power(selfOn: bool, socOn: bool, discharge: bool)   // a write of the POWER register
    | SleepTarget(ticks: nat)
    | Delay(ms: nat)

  /** The answers the hardware gives during one call. */
  datatype Readings = Readings(
    now: u32,               // `get_time_ms()`
    usbEvent: bool,         // what `check_event` returns
    usbStatus1: u8,         // `usb_cc.status[1]` after the check
    voltage: i16,           // first `gg_voltage`
    soc: i16,               // `gg_state_of_charge`
    ticks: nat,             // `get_time_ticks()`
    chargingAtShip: bool,   // `chg_is_charging` before shipping
    voltageAgain: i16,      // the second `gg_voltage`
    statsState: nat,        // STATS_STATE of the power block
    avgCurrent: i16,        // `gg_avg_current`
    chargingAtEnd: bool)    // the final `chg_is_charging`

  /** The handler's state: everything it reads and writes through `&mut`. */
  datatype Vars = Vars(
    lastRunTime: u32, loopcounter: u32,
    voltage: i16, lastVoltage: i16, current: i16, stbyCurrent: i16,
    socWasOn: bool, batteryPanic: bool, voltageGlitch: bool, usbCcEvent: bool)

  // ---------------------------------------------------------------------
  // The handler as a function of the state and the readings

  /** Whether a pass is due: more than a second since the last one, with
      the millisecond clock's wrap-around. */
  predicate Due(v: Vars, now: u32) {
    (now - v.lastRunTime) % 0x1_0000_0000 > RUN_INTERVAL
  }

  /** Attached.SNK in the USB-C controller's status. */
  predicate AttachedSink(status1: u8) {
    status1 / 0x40 == 2
  }

  /** The even pass: keepalive, then the USB-C check unless an event is
      still pending. */
  function EvenPass(v: Vars, r: Readings): (Vars, seq<Op>) {
    if v.usbCcEvent then (v, [KeepalivePing])
    else (v.(usbCcEvent := r.usbEvent),
          [KeepalivePing, UsbCcCheck] + (if AttachedSink(r.usbStatus1) then [ChargerStart] else []))
  }

  /** The voltage kept: a negative reading is a glitch and is replaced by
      the previous one. */
  function Filtered(v: Vars, reading: i16): i16 {
    if reading < 0 then v.lastVoltage else reading
  }

  /** Whether the battery may ship: already in panic on an earlier pass,
      state of charge under 5 %, the charger had its chance, it is not
      charging and a fresh reading confirms the low voltage. */
  predicate ShipConditions(panicBefore: bool, r: Readings) {
    r.soc < SHIP_SOC_PERCENT && panicBefore && r.ticks > SHIP_MIN_TICKS
    && !r.chargingAtShip && r.voltageAgain < BATTERY_PANIC_VOLTAGE
  }

  const SHIP_OPS: seq<Op> :=
    [BacklightOff, ChargerShipmode, GaugeHibernate, Power(true, false, true), SleepTarget(500), Delay(16_000)]

  /** The attempt to ship once the panic is confirmed. The conditions are
      evaluated left to right and stop at the first false one, so the
      charger and the gauge are only asked when the earlier ones hold. */
  function ShipAttempt(r: Readings): seq<Op> {
    if r.ticks <= SHIP_MIN_TICKS then []
    else if r.chargingAtShip then [ReadCharging]
    else if r.voltageAgain >= BATTERY_PANIC_VOLTAGE then [ReadCharging, ReadVoltage]
    else [ReadCharging, ReadVoltage] + SHIP_OPS
  }

  /** The I2C traffic of the low-voltage check, and the panic flag after it. */
  function LowVoltage(panic: bool, r: Readings): (bool, seq<Op>) {
    if r.soc < SHIP_SOC_PERCENT && panic then (panic, [ReadSoc] + ShipAttempt(r))
    else (panic || r.soc < SHIP_SOC_PERCENT, [ReadSoc])
  }

  /** The panic flag and the I2C traffic after the voltage `volt` was
      kept: a panic below 3500 mV, nothing in the band up to 3575 mV, the
      all-clear above. */
  function BatteryCheck(volt: int, panic: bool, r: Readings): (bool, seq<Op>) {
    if volt < BATTERY_PANIC_VOLTAGE then LowVoltage(panic, r)
    else if volt < BATTERY_LOW_VOLTAGE then (panic, [])
    else (false, [])
  }

  /** Whether the standby current is sampled: the SoC is off now and was
      off on the previous battery pass. */
  predicate SampleStandby(v: Vars, r: Readings) {
    r.statsState == 0 && !v.socWasOn
  }

  /** The voltage kept and the glitch flag after a reading. */
  function AfterVoltage(v: Vars, r: Readings): Vars {
    var volt := Filtered(v, r.voltage);
    v.(voltage := volt, lastVoltage := volt, voltageGlitch := v.voltageGlitch || r.voltage < 0)
  }

  /** The current samples and the SoC's power state. */
  function AfterSample(v: Vars, r: Readings): Vars {
    v.(current := if r.statsState == 1 then r.avgCurrent else v.current,
       stbyCurrent := if SampleStandby(v, r) then r.avgCurrent else v.stbyCurrent,
       socWasOn := r.statsState == 1)
  }

  /** The odd pass: the battery checks, then the current sample. */
  function OddPass(v: Vars, r: Readings): (Vars, seq<Op>) {
    var v1 := AfterVoltage(v, r);
    var check := BatteryCheck(v1.voltage, v1.batteryPanic, r);
    var v2 := v1.(batteryPanic := check.0);
    (AfterSample(v2, r), [ReadVoltage] + check.1 + (if r.statsState == 1 || SampleStandby(v, r) then [ReadCurrent] else []))
  }

  /** `charger_handler`: the new state and the operations of one call. */
  function HandlerOf(v: Vars, r: Readings): (Vars, seq<Op>) {
    if !Due(v, r.now) then (v, [])
    else
      PassOf(v.(lastRunTime := r.now, loopcounter := (v.loopcounter + 1) % 0x1_0000_0000), r)
  }

  /** A pass once it has been counted: the even or odd work, then the
      charger check. */
  function PassOf(v: Vars, r: Readings): (Vars, seq<Op>) {
    var (v', ops) := if v.loopcounter % 2 == 0 then EvenPass(v, r) else OddPass(v, r);
    (v', ops + [ReadCharging] + (if r.chargingAtEnd then [Power(true, true, false)] else []))
  }

  /** Operations appended one group after another are the groups appended
      together. */
  lemma OpsInOrder(o0: seq<Op>, a: seq<Op>, b: seq<Op>, c: seq<Op>)
    ensures o0 + a + b + c == o0 + (a + b + c)
  {
  }

  // ---------------------------------------------------------------------
  // The handler as the firmware runs it

  class Charger {
    var lastRunTime: u32
    var loopcounter: u32
    var voltage: i16
    var lastVoltage: i16
    var current: i16
    var stbyCurrent: i16
    var socWasOn: bool
    var batteryPanic: bool
    var voltageGlitch: bool
    var usbCcEvent: bool
    /** Everything asked of the hardware so far. */
    var ops: seq<Op>

    function State(): Vars
      reads this
    {
      Vars(lastRunTime, loopcounter, voltage, lastVoltage, current, stbyCurrent,
           socWasOn, batteryPanic, voltageGlitch, usbCcEvent)
    }

    /** The values `main` starts with: the clock at start-up, a zero
        counter and readings, no panic and no event pending. */
    constructor New(now: u32, statsState: nat)
      ensures State() == Vars(now, 0, 0, 0, 0, 0, statsState == 1, false, false, false) && ops == []
    {
      lastRunTime, loopcounter := now, 0;
      voltage, lastVoltage, current, stbyCurrent := 0, 0, 0, 0;
      socWasOn := statsState == 1;
      batteryPanic, voltageGlitch, usbCcEvent := false, false, false;
      ops := [];
    }

    /** `charger_handler`. */
    method ChargerHandler(r: Readings)
      modifies this
      ensures State() == HandlerOf(old(State()), r).0
      ensures ops == old(ops) + HandlerOf(old(State()), r).1
    {
      if (r.now - lastRunTime) % 0x1_0000_0000 > RUN_INTERVAL as int {
        lastRunTime := r.now;
        loopcounter := (loopcounter + 1) % 0x1_0000_0000;
        Pass(r);
      }
    }

    /** The work of a pass once it has been counted. */
    method Pass(r: Readings)
      modifies this`ops, this`voltage, this`lastVoltage, this`voltageGlitch, this`batteryPanic
      modifies this`current, this`stbyCurrent, this`socWasOn, this`usbCcEvent
      ensures State() == PassOf(old(State()), r).0
      ensures ops == old(ops) + PassOf(old(State()), r).1
    {
      if loopcounter % 2 == 0 {
        UsbPass(r);
      } else {
        BatteryPass(r);
      }
      ops := ops + [ReadCharging];
      if r.chargingAtEnd {
        ops := ops + [Power(true, true, false)];
      }
    }

    /** The even pass. */
    method UsbPass(r: Readings)
      modifies this`ops, this`usbCcEvent
      ensures State() == EvenPass(old(State()), r).0
      ensures ops == old(ops) + EvenPass(old(State()), r).1
    {
      ops := ops + [KeepalivePing];
      if !usbCcEvent {
        ops := ops + [UsbCcCheck];
        usbCcEvent := r.usbEvent;
        if AttachedSink(r.usbStatus1) {
          ops := ops + [ChargerStart];
        }
      }
    }

    /** The odd pass. */
    method BatteryPass(r: Readings)
      modifies this`ops, this`voltage, this`lastVoltage, this`voltageGlitch, this`batteryPanic
      modifies this`current, this`stbyCurrent, this`socWasOn
      ensures State() == OddPass(old(State()), r).0
      ensures ops == old(ops) + OddPass(old(State()), r).1
    {
      ghost var o0 := ops;
      ops := ops + [ReadVoltage];
      ReadVoltageFiltered(r);
      ghost var v1 := State();
      CheckBattery(r);
      ghost var checked := ops;
      SampleCurrent(r);
      OpsInOrder(o0, [ReadVoltage], BatteryCheck(v1.voltage, v1.batteryPanic, r).1, ops[|checked|..]);
    }

    /** The voltage reading and its glitch filter. */
    method ReadVoltageFiltered(r: Readings)
      modifies this`voltage, this`lastVoltage, this`voltageGlitch
      ensures State() == AfterVoltage(old(State()), r)
    {
      voltage := r.voltage;
      if voltage < 0 {
        voltage := lastVoltage;
        voltageGlitch := true;
      }
      lastVoltage := voltage;
    }

    /** The voltage thresholds. */
    method CheckBattery(r: Readings)
      modifies this`ops, this`batteryPanic
      ensures State() == old(State()).(batteryPanic := BatteryCheck(voltage, old(batteryPanic), r).0)
      ensures ops == old(ops) + BatteryCheck(voltage, old(batteryPanic), r).1
    {
      if voltage < BATTERY_PANIC_VOLTAGE {
        ops := ops + [ReadSoc];
        var cursoc := r.soc;
        if cursoc < SHIP_SOC_PERCENT && batteryPanic {
          ShipIfStillLow(r);
        } else if cursoc < SHIP_SOC_PERCENT {
          batteryPanic := true;
        }
      } else if voltage < BATTERY_LOW_VOLTAGE {
        // a warning to the SoC is still to be written
      } else {
        batteryPanic := false;
      }
    }

    /** The current sample and the SoC's power state. */
    method SampleCurrent(r: Readings)
      modifies this`ops, this`current, this`stbyCurrent, this`socWasOn
      ensures State() == AfterSample(old(State()), r)
      ensures ops == old(ops) + (if r.statsState == 1 || SampleStandby(old(State()), r) then [ReadCurrent] else [])
    {
      if r.statsState == 1 {
        ops := ops + [ReadCurrent];
        current := r.avgCurrent;
      } else if r.statsState == 0 && !socWasOn {
        ops := ops + [ReadCurrent];
        stbyCurrent := r.avgCurrent;
      }
      socWasOn := r.statsState == 1;
    }

    /** The shipmode check once the panic is confirmed. */
    method ShipIfStillLow(r: Readings)
      modifies this`ops
      ensures ops == old(ops) + ShipAttempt(r)
    {
      if r.ticks > SHIP_MIN_TICKS {
        ops := ops + [ReadCharging];
        if !r.chargingAtShip {
          ops := ops + [ReadVoltage];
          if r.voltageAgain < BATTERY_PANIC_VOLTAGE {
            ops := ops + SHIP_OPS;
          }
        }
      }
    }
  }

  // ---------------------------------------------------------------------
  // Properties

  /** Nothing happens until more than a second has passed; a pass records
      its time and counts itself. */
  lemma RunsOncePerSecond(v: Vars, r: Readings)
    ensures !Due(v, r.now) ==> HandlerOf(v, r) == (v, [])
    ensures Due(v, r.now) ==>
              HandlerOf(v, r).0.lastRunTime == r.now
              && HandlerOf(v, r).0.loopcounter == (v.loopcounter + 1) % 0x1_0000_0000
  {
  }

  /** Even passes ping the charger and leave the battery state alone; the
      USB-C controller is asked only when no event is pending. Odd passes
      never ping and never touch the USB-C controller. */
  lemma PassesAlternate(v: Vars, r: Readings)
    requires Due(v, r.now)
    ensures var n := (v.loopcounter + 1) % 0x1_0000_0000;
            var (v', ops) := HandlerOf(v, r);
            (n % 2 == 0 ==>
               ops[0] == KeepalivePing && (UsbCcCheck in ops <==> !v.usbCcEvent)
               && v'.voltage == v.voltage && v'.batteryPanic == v.batteryPanic
               && v'.current == v.current && v'.stbyCurrent == v.stbyCurrent && v'.socWasOn == v.socWasOn)
            && (n % 2 == 1 ==>
               ops[0] == ReadVoltage && KeepalivePing !in ops && UsbCcCheck !in ops
               && v'.usbCcEvent == v.usbCcEvent)
  {
    if (v.loopcounter + 1) % 0x1_0000_0000 % 2 == 0 {
      EvenPassEffect(v, r);
    } else {
      OddPassEffect(v, r);
    }
  }

  /** An even pass pings the keepalive, checks the USB CC lines unless an
      event is pending, and leaves the battery readings alone. */
  lemma EvenPassEffect(v: Vars, r: Readings)
    requires Due(v, r.now) && (v.loopcounter + 1) % 0x1_0000_0000 % 2 == 0
    ensures var (v', ops) := HandlerOf(v, r);
            ops[0] == KeepalivePing && (UsbCcCheck in ops <==> !v.usbCcEvent)
            && v'.voltage == v.voltage && v'.batteryPanic == v.batteryPanic
            && v'.current == v.current && v'.stbyCurrent == v.stbyCurrent && v'.socWasOn == v.socWasOn
  {
  }

  /** An odd pass starts with a voltage reading and neither pings nor
      checks the CC lines. */
  lemma OddPassEffect(v: Vars, r: Readings)
    requires Due(v, r.now) && (v.loopcounter + 1) % 0x1_0000_0000 % 2 == 1
    ensures var (v', ops) := HandlerOf(v, r);
            ops[0] == ReadVoltage && KeepalivePing !in ops && UsbCcCheck !in ops
            && v'.usbCcEvent == v.usbCcEvent
  {
    assert KeepalivePing !in SHIP_OPS && UsbCcCheck !in SHIP_OPS;
  }

  /** A negative voltage reading is a glitch: the last good value is kept
      and the glitch is latched. Either way the kept value becomes the
      last voltage. */
  lemma VoltageGlitchFiltered(v: Vars, r: Readings)
    requires Due(v, r.now) && (v.loopcounter + 1) % 0x1_0000_0000 % 2 == 1
    ensures var v' := HandlerOf(v, r).0;
            v'.voltage == (if r.voltage < 0 then v.lastVoltage else r.voltage)
            && v'.lastVoltage == v'.voltage
            && v'.voltageGlitch == (v.voltageGlitch || r.voltage < 0)
  {
  }

  /** The device ships itself exactly when a low, nearly empty battery was
      already seen on an earlier pass, enough time has passed since boot,
      the charger is not charging and a second reading is still low. */
  lemma ShipmodeExactly(v: Vars, r: Readings)
    ensures ChargerShipmode in HandlerOf(v, r).1 <==>
              Due(v, r.now) && (v.loopcounter + 1) % 0x1_0000_0000 % 2 == 1
              && Filtered(v, r.voltage) < BATTERY_PANIC_VOLTAGE
              && ShipConditions(v.batteryPanic, r)
  {
    assert ChargerShipmode in SHIP_OPS;
  }

  /** A first low reading only arms the panic; shipping needs a second
      pass. */
  lemma FirstLowReadingOnlyArms(v: Vars, r: Readings)
    requires Due(v, r.now) && (v.loopcounter + 1) % 0x1_0000_0000 % 2 == 1
    requires !v.batteryPanic && Filtered(v, r.voltage) < BATTERY_PANIC_VOLTAGE && r.soc < SHIP_SOC_PERCENT
    ensures HandlerOf(v, r).0.batteryPanic
    ensures ChargerShipmode !in HandlerOf(v, r).1
  {
    ShipmodeExactly(v, r);
  }

  /** A healthy voltage clears the panic; the band between the panic and
      the low voltage leaves it as it was. */
  lemma PanicHysteresis(v: Vars, r: Readings)
    requires Due(v, r.now) && (v.loopcounter + 1) % 0x1_0000_0000 % 2 == 1
    ensures Filtered(v, r.voltage) >= BATTERY_LOW_VOLTAGE ==> !HandlerOf(v, r).0.batteryPanic
    ensures BATTERY_PANIC_VOLTAGE <= Filtered(v, r.voltage) < BATTERY_LOW_VOLTAGE ==>
              HandlerOf(v, r).0.batteryPanic == v.batteryPanic
    ensures Filtered(v, r.voltage) < BATTERY_PANIC_VOLTAGE ==>
              HandlerOf(v, r).0.batteryPanic == (v.batteryPanic || r.soc < SHIP_SOC_PERCENT)
  {
  }

  /** The current is sampled while the SoC is on; the standby current only
      while it is off and was off on the previous battery pass. */
  lemma CurrentSampling(v: Vars, r: Readings)
    requires Due(v, r.now) && (v.loopcounter + 1) % 0x1_0000_0000 % 2 == 1
    ensures var v' := HandlerOf(v, r).0;
            v'.current == (if r.statsState == 1 then r.avgCurrent else v.current)
            && v'.stbyCurrent == (if r.statsState == 0 && !v.socWasOn then r.avgCurrent else v.stbyCurrent)
            && v'.socWasOn == (r.statsState == 1)
  {
  }

  /** Each pass ends by asking the charger, and a charging battery turns
      the SoC on with discharge off. */
  lemma ChargingPowersSoc(v: Vars, r: Readings)
    requires Due(v, r.now)
    ensures var ops := HandlerOf(v, r).1;
            if r.chargingAtEnd then |ops| >= 2 && ops[|ops| - 2] == ReadCharging && ops[|ops| - 1] == Power(true, true, false)
            else |ops| >= 1 && ops[|ops| - 1] == ReadCharging
  {
  }
}
