/** The soft SPI blocks of rtl/spi.py: the controller's state machine in
    the `spi` clock domain (`SpiMaster`), the responder's shift register and
    status flags (`SpiSlave`), and the bus responders of the FIFO-backed
    responder (`SpiFifoSlave`). Registers are modelled clock by clock; the
    synchronisers between clock domains are taken as already applied, so
    each block sees its inputs in its own domain. A 16-bit register is a
    sequence of 16 bits, bit 0 first, so `r[15]` is its most significant
    bit. */
module RtlSpi {
  import opened Wrappers

  /** `Cat(b, r[:15])`: the register shifted up by one with `b` in bit 0. */
  function ShiftIn(b: bool, r: seq<bool>): (s: seq<bool>)
    requires |r| == 16
    ensures |s| == 16 && s[0] == b
    ensures forall k :: 1 <= k < 16 ==> s[k] == r[k - 1]
  {
    [b] + r[..15]
  }

  // ---------------------------------------------------------------------
  // SpiMaster

  /** The controller's registers in the `spi` domain. `count` is the 4-bit
      `spicount`; `goD` is the delayed copy of the synchronised `go`. */
  datatype MasterState = MasterState(running: bool, txR: seq<bool>, rxR: seq<bool>, count: nat,
                                     csn: bool, tip: bool, txfull: bool, mosi: bool, goD: bool)

  predicate MasterValid(s: MasterState)
  {
    |s.txR| == 16 && |s.rxR| == 16 && s.count < 16
  }

  /** One `spi` clock's inputs: the synchronised `go` bit, the `tx`
      register, the synchronised `tx` write strobe and the MISO pin. */
  datatype MasterIn = MasterIn(goR: bool, tx: seq<bool>, txWritten: bool, miso: bool)

  /** One clock of the controller. In IDLE a rising edge of `go` starts a
      transfer: the top bit of `tx` goes out, the rest is loaded shifted up,
      and the first MISO bit is captured; without an edge the chip select
      is held high and `txfull` records a write of `tx`. In RUN each clock
      sends the next bit and captures one, until the count is spent, when
      the chip select rises and the machine returns to IDLE. */
  function MasterStep(s: MasterState, i: MasterIn): (t: MasterState)
    requires MasterValid(s) && |i.tx| == 16
    ensures MasterValid(t) && t.goD == i.goR
  {
    if !s.running then
      if i.goR && !s.goD then Start(s, i) else Idle(s, i)
    else if s.count > 0 then Shift(s, i)
    else Finish(s, i)
  }

  /** IDLE with a rising edge of `go`. */
  function Start(s: MasterState, i: MasterIn): (t: MasterState)
    requires MasterValid(s) && |i.tx| == 16
    ensures MasterValid(t)
  {
    MasterState(true, ShiftIn(false, i.tx), ShiftIn(i.miso, s.rxR), 15, false, true, false, i.tx[15], i.goR)
  }

  /** IDLE without an edge. */
  function Idle(s: MasterState, i: MasterIn): (t: MasterState)
  {
    s.(csn := true, tip := false, txfull := s.txfull || i.txWritten, goD := i.goR)
  }

  /** RUN with bits left. */
  function Shift(s: MasterState, i: MasterIn): (t: MasterState)
    requires MasterValid(s) && s.count > 0
    ensures MasterValid(t)
  {
    s.(mosi := s.txR[15], txR := ShiftIn(false, s.txR), count := s.count - 1,
       rxR := ShiftIn(i.miso, s.rxR), goD := i.goR)
  }

  /** RUN with the count spent. */
  function Finish(s: MasterState, i: MasterIn): (t: MasterState)
  {
    s.(csn := true, tip := false, running := false, goD := i.goR)
  }

  /** The state after the first `n` clocks of `run`. */
  function MasterAfter(s: MasterState, run: seq<MasterIn>, n: nat): (t: MasterState)
    requires MasterValid(s) && n <= |run|
    requires forall k :: 0 <= k < |run| ==> |run[k].tx| == 16
    ensures MasterValid(t)
  {
    if n == 0 then s else MasterStep(MasterAfter(s, run, n - 1), run[n - 1])
  }

  /** The inputs of a transfer: `go` rises at the first clock while `tx`
      holds `data`, and 16 more clocks follow. */
  predicate Transfer(s: MasterState, run: seq<MasterIn>, data: seq<bool>)
  {
    MasterValid(s) && !s.running && !s.goD
    && |run| == 17 && (forall k :: 0 <= k < |run| ==> |run[k].tx| == 16)
    && |data| == 16 && run[0].goR && run[0].tx == data
  }

  /** The MISO bits of the first `n` clocks of `run`, in order. */
  function MisoBits(run: seq<MasterIn>, n: nat): (m: seq<bool>)
    requires n <= |run|
    ensures |m| == n && forall k :: 0 <= k < n ==> m[k] == run[k].miso
  {
    if n == 0 then [] else MisoBits(run, n - 1) + [run[n - 1].miso]
  }

  /** The machine in the middle of a transfer of `data`, with the bits of
      `misos` captured so far, `n` of them: `16 - n` bits are left, bit
      `16 - n` of the data is on MOSI, the data not yet sent sits above `n`
      zeros in the shift register, and the captured bits sit at the bottom
      of the receive register, the latest in bit 0. */
  predicate Sending(t: MasterState, data: seq<bool>, misos: seq<bool>)
  {
    var n := |misos|;
    MasterValid(t) && |data| == 16 && 1 <= n <= 16
    && t.running && t.count == 16 - n && !t.csn && t.tip && !t.txfull && t.mosi == data[16 - n]
    && (forall j :: 0 <= j < 16 ==> t.txR[j] == (j >= n && data[j - n]))
    && (forall j :: 0 <= j < n ==> t.rxR[j] == misos[n - 1 - j])
  }

  /** The clock with the rising edge of `go` starts sending `tx`. */
  lemma SendingStarts(s: MasterState, i: MasterIn)
    requires MasterValid(s) && |i.tx| == 16 && !s.running && i.goR && !s.goD
    ensures Sending(MasterStep(s, i), i.tx, [i.miso])
  {
  }

  /** Each later clock sends the next bit and captures one more. */
  lemma SendingShifts(t: MasterState, data: seq<bool>, misos: seq<bool>, i: MasterIn)
    requires Sending(t, data, misos) && |misos| < 16 && |i.tx| == 16
    ensures Sending(MasterStep(t, i), data, misos + [i.miso])
  {
    var n := |misos|;
    var u := MasterStep(t, i);
    var m := misos + [i.miso];
    forall j | 0 <= j < n + 1
      ensures u.rxR[j] == m[n - j]
    {
      if j > 0 {
        assert u.rxR[j] == t.rxR[j - 1];
      }
    }
  }

  /** The clock after the 16th bit ends the transfer: the chip select
      rises, `tip` clears, and the 16 captured bits are in the receive
      register, the first in bit 15. */
  lemma SendingEnds(t: MasterState, data: seq<bool>, misos: seq<bool>, i: MasterIn)
    requires Sending(t, data, misos) && |misos| == 16 && |i.tx| == 16
    ensures var u := MasterStep(t, i);
      !u.running && u.csn && !u.tip && !u.txfull && forall j :: 0 <= j < 16 ==> u.rxR[j] == misos[15 - j]
  {
  }

  /** After `n` clocks of a transfer the machine is sending the data with
      the first `n` MISO bits captured. */
  lemma {:induction false} MasterSending(s: MasterState, run: seq<MasterIn>, data: seq<bool>, n: nat)
    requires Transfer(s, run, data) && 1 <= n <= 16
    ensures Sending(MasterAfter(s, run, n), data, MisoBits(run, n))
  {
    if n == 1 {
      assert MasterAfter(s, run, 0) == s;
      SendingStarts(s, run[0]);
      assert MisoBits(run, 1) == [run[0].miso];
    } else {
      MasterSending(s, run, data, n - 1);
      SendingShifts(MasterAfter(s, run, n - 1), data, MisoBits(run, n - 1), run[n - 1]);
    }
  }

  /** A transfer sends the 16 bits of `tx` most significant first, one per
      clock with the chip select low: after `k` clocks bit `16 - k` is on
      MOSI. */
  lemma MasterSends(s: MasterState, run: seq<MasterIn>, data: seq<bool>)
    requires Transfer(s, run, data)
    ensures forall k :: 1 <= k <= 16 ==>
      MasterAfter(s, run, k).mosi == data[16 - k] && !MasterAfter(s, run, k).csn
  {
    forall k | 1 <= k <= 16
      ensures MasterAfter(s, run, k).mosi == data[16 - k] && !MasterAfter(s, run, k).csn
    {
      MasterSending(s, run, data, k);
    }
  }

  /** A transfer receives 16 MISO bits, the first of which lands in bit
      15, and then raises the chip select, clears `tip` and returns to IDLE
      with `txfull` clear. */
  lemma MasterReceives(s: MasterState, run: seq<MasterIn>, data: seq<bool>)
    requires Transfer(s, run, data)
    ensures var t := MasterAfter(s, run, |run|);
      !t.running && t.csn && !t.tip && !t.txfull
      && forall j :: 0 <= j < 16 ==> t.rxR[j] == run[15 - j].miso
  {
    var n := |run| - 1;
    MasterSending(s, run, data, n);
    SendingEnds(MasterAfter(s, run, n), data, MisoBits(run, n), run[n]);
  }

  /** Holding `go` high starts only one transfer: when the transfer ends
      with `go` still high, IDLE sees no edge and stays idle. */
  lemma GoHeldStartsOnce(s: MasterState, i: MasterIn)
    requires MasterValid(s) && |i.tx| == 16 && !s.running && s.goD && i.goR
    ensures var t := MasterStep(s, i); !t.running && t.csn && !t.tip
  {
  }

  /** The controller's registers. */
  class SpiMaster {
    var running: bool
    var txR: seq<bool>
    var rxR: seq<bool>
    var count: nat
    var csn: bool
    var tip: bool
    var txfull: bool
    var mosi: bool
    var goD: bool

    function State(): MasterState
      reads this
    {
      MasterState(running, txR, rxR, count, csn, tip, txfull, mosi, goD)
    }

    /** The reset state: IDLE, chip select high, registers zero. */
    constructor ()
      ensures MasterValid(State()) && !running && csn && !tip && !txfull && !goD
    {
      running := false;
      txR := seq(16, _ => false);
      rxR := seq(16, _ => false);
      count := 0;
      csn := true;
      tip := false;
      txfull := false;
      mosi := false;
      goD := false;
    }

    method Step(goR: bool, tx: seq<bool>, txWritten: bool, miso: bool)
      requires MasterValid(State()) && |tx| == 16
      modifies this
      ensures State() == MasterStep(old(State()), MasterIn(goR, tx, txWritten, miso))
    {
      var edge := goR && !goD;
      goD := goR;
      if !running {
        if edge {
          running := true;
          txR := ShiftIn(false, tx);
          count := 15;
          txfull := false;
          tip := true;
          csn := false;
          mosi := tx[15];
          rxR := ShiftIn(miso, rxR);
        } else {
          tip := false;
          csn := true;
          if txWritten {
            txfull := true;
          }
        }
      } else if count > 0 {
        mosi := txR[15];
        txR := ShiftIn(false, txR);
        count := count - 1;
        rxR := ShiftIn(miso, rxR);
      } else {
        csn := true;
        tip := false;
        running := false;
      }
    }
  }

  // ---------------------------------------------------------------------
  // SpiSlave, shift register (`spislave` domain)

  /** The responder's shift register, its `rx` status register and the
      delayed chip select. */
  datatype Shifter = Shifter(txrx: seq<bool>, rx: seq<bool>, csnD: bool)

  predicate ShifterValid(s: Shifter)
  {
    |s.txrx| == 16 && |s.rx| == 16
  }

  /** MISO is the top bit of the shift register. */
  function Miso(s: Shifter): bool
    requires ShifterValid(s)
  {
    s.txrx[15]
  }

  /** One clock: with the chip select low MOSI shifts in at bit 0; with it
      high the register reloads from `tx`, and on the rising edge of the
      chip select `rx` takes the received word first. */
  function ShiftStep(s: Shifter, csn: bool, mosi: bool, tx: seq<bool>): (t: Shifter)
    requires ShifterValid(s) && |tx| == 16
    ensures ShifterValid(t) && t.csnD == csn
  {
    if !csn then Shifter(ShiftIn(mosi, s.txrx), s.rx, csn)
    else Shifter(tx, if !s.csnD then s.txrx else s.rx, csn)
  }

  /** The shifter after `|bits|` clocks with the chip select
      low, MOSI carrying `bits` in order. */
  function ShiftFrame(s: Shifter, bits: seq<bool>, tx: seq<bool>): (t: Shifter)
    requires ShifterValid(s) && |tx| == 16
    ensures ShifterValid(t)
    decreases |bits|
  {
    if |bits| == 0 then s
    else ShiftStep(ShiftFrame(s, bits[..|bits| - 1], tx), false, bits[|bits| - 1], tx)
  }

  /** After `n` low clocks the `n` bits received sit at the bottom of the
      shift register, the latest in bit 0, and the word loaded before the
      frame has moved up by `n`; `rx` is untouched. */
  lemma FrameShifting(s: Shifter, bits: seq<bool>, tx: seq<bool>)
    requires ShifterValid(s) && |tx| == 16 && |bits| <= 16
    ensures var t := ShiftFrame(s, bits, tx); var n := |bits|;
      t.rx == s.rx && (n > 0 ==> !t.csnD)
    ensures var t := ShiftFrame(s, bits, tx); var n := |bits|;
      forall j :: 0 <= j < n ==> t.txrx[j] == bits[n - 1 - j]
    ensures var t := ShiftFrame(s, bits, tx); var n := |bits|;
      forall j :: n <= j < 16 ==> t.txrx[j] == s.txrx[j - n]
  {
    FrameKeepsRx(s, bits, tx);
    FrameShiftsIn(s, bits, tx);
    FrameShiftsUp(s, bits, tx);
  }

  lemma {:induction false} FrameKeepsRx(s: Shifter, bits: seq<bool>, tx: seq<bool>)
    requires ShifterValid(s) && |tx| == 16
    ensures ShiftFrame(s, bits, tx).rx == s.rx
    decreases |bits|
  {
    if |bits| > 0 {
      FrameKeepsRx(s, bits[..|bits| - 1], tx);
    }
  }

  /** The bits received so far, the latest in bit 0. */
  lemma {:induction false} FrameShiftsIn(s: Shifter, bits: seq<bool>, tx: seq<bool>)
    requires ShifterValid(s) && |tx| == 16 && |bits| <= 16
    ensures forall j :: 0 <= j < |bits| ==> ShiftFrame(s, bits, tx).txrx[j] == bits[|bits| - 1 - j]
    decreases |bits|
  {
    if |bits| > 0 {
      var n := |bits|;
      var prev := bits[..n - 1];
      FrameShiftsIn(s, prev, tx);
      var t0, t := ShiftFrame(s, prev, tx), ShiftFrame(s, bits, tx);
      assert t.txrx == ShiftIn(bits[n - 1], t0.txrx);
      forall j | 0 < j < n
        ensures t.txrx[j] == bits[n - 1 - j]
      {
        assert t.txrx[j] == t0.txrx[j - 1];
        assert t0.txrx[j - 1] == prev[n - 1 - j] == bits[n - 1 - j];
      }
    }
  }

  /** The word loaded before the frame, moved up by the bits received. */
  lemma {:induction false} FrameShiftsUp(s: Shifter, bits: seq<bool>, tx: seq<bool>)
    requires ShifterValid(s) && |tx| == 16 && |bits| <= 16
    ensures forall j :: |bits| <= j < 16 ==> ShiftFrame(s, bits, tx).txrx[j] == s.txrx[j - |bits|]
    decreases |bits|
  {
    if |bits| > 0 {
      var n := |bits|;
      var prev := bits[..n - 1];
      FrameShiftsUp(s, prev, tx);
      var t0, t := ShiftFrame(s, prev, tx), ShiftFrame(s, bits, tx);
      assert t.txrx == ShiftIn(bits[n - 1], t0.txrx);
      forall j | n <= j < 16
        ensures t.txrx[j] == s.txrx[j - n]
      {
        assert t.txrx[j] == t0.txrx[j - 1];
      }
    }
  }

  /** While the chip select is low for a 16-bit frame, the responder drives
      the loaded word onto MISO most significant bit first: once the bits
      `sent` have come in, bit `15 - |sent|` is on MISO. */
  lemma ResponderSends(s: Shifter, sent: seq<bool>, tx: seq<bool>)
    requires ShifterValid(s) && |tx| == 16 && |sent| < 16
    ensures Miso(ShiftFrame(s, sent, tx)) == s.txrx[15 - |sent|]
  {
    FrameShifting(s, sent, tx);
    var t := ShiftFrame(s, sent, tx);
    assert t.txrx[15] == s.txrx[15 - |sent|];
  }

  /** When the chip select rises after a 16-bit frame, `rx` holds the 16
      MOSI bits with the first in bit 15, and the shift register reloads
      from `tx`. */
  lemma ResponderReceives(s: Shifter, bits: seq<bool>, tx: seq<bool>)
    requires ShifterValid(s) && |tx| == 16 && |bits| == 16
    ensures var t := ShiftStep(ShiftFrame(s, bits, tx), true, false, tx);
      t.txrx == tx && forall j :: 0 <= j < 16 ==> t.rx[j] == bits[15 - j]
  {
    FrameShifting(s, bits, tx);
  }

  /** The shift register as registers. */
  class SpiShifter {
    var txrx: seq<bool>
    var rx: seq<bool>
    var csnD: bool

    function State(): Shifter
      reads this
    {
      Shifter(txrx, rx, csnD)
    }

    method Step(csn: bool, mosi: bool, tx: seq<bool>)
      requires ShifterValid(State()) && |tx| == 16
      modifies this
      ensures State() == ShiftStep(old(State()), csn, mosi, tx)
    {
      var rising := csn && !csnD;
      csnD := csn;
      if !csn {
        txrx := ShiftIn(mosi, txrx);
      } else {
        if rising {
          rx := txrx;
        }
        txrx := tx;
      }
    }
  }

  // ---------------------------------------------------------------------
  // SpiSlave, status flags (system domain)

  /** One system clock of `rxfull` and `rxover`. `tip` is the inverted
      chip select and `tipD` its value one clock before; `tip` falling is
      the end of a frame. A `rx` read clears `rxfull` and holds `rxover`;
      otherwise the end of a frame sets `rxfull`, and a frame in progress
      while `rxfull` is set sets `rxover`, which `clrerr` clears only when it
      is not being set. */
  datatype Flags = Flags(tipD: bool, rxfull: bool, rxover: bool)

  function FlagsStep(f: Flags, csn: bool, rxWe: bool, clrerr: bool): (g: Flags)
    ensures g.tipD == !csn
    ensures rxWe ==> !g.rxfull && g.rxover == f.rxover
    ensures !rxWe ==> g.rxfull == (f.rxfull || (csn && f.tipD))
    ensures !rxWe && !csn && f.rxfull ==> g.rxover
    ensures g.rxover ==> f.rxover || (!csn && f.rxfull)
    ensures g.rxover && !f.rxover ==> !rxWe
  {
    var tip := !csn;
    var donepulse := !tip && f.tipD;
    if rxWe then Flags(tip, false, f.rxover)
    else
      Flags(tip, if donepulse then true else f.rxfull,
            if tip && f.rxfull then true else if clrerr then false else f.rxover)
  }

  /** `clrerr` clears an overrun only in a clock with no frame running over
      unread data and no `rx` read. */
  lemma ClearOverrun(f: Flags, csn: bool, rxWe: bool)
    ensures !FlagsStep(f, csn, rxWe, true).rxover <==> (!rxWe && !(!csn && f.rxfull)) || (rxWe && !f.rxover)
  {
  }

  datatype FlagsIn = FlagsIn(csn: bool, rxWe: bool, clrerr: bool)

  function FlagsAfter(f: Flags, run: seq<FlagsIn>): Flags
    decreases |run|
  {
    if |run| == 0 then f else FlagsAfter(FlagsStep(f, run[0].csn, run[0].rxWe, run[0].clrerr), run[1..])
  }

  /** Once set, the overrun flag stays set through any run of clocks that
      does not assert `clrerr`. */
  lemma {:induction false} OverrunSticky(f: Flags, run: seq<FlagsIn>)
    requires f.rxover
    requires forall k :: 0 <= k < |run| ==> !run[k].clrerr
    ensures FlagsAfter(f, run).rxover
    decreases |run|
  {
    if |run| > 0 {
      OverrunSticky(FlagsStep(f, run[0].csn, run[0].rxWe, run[0].clrerr), run[1..]);
    }
  }

  /** `rxfull` stays set until a `rx` read, whatever the bus does. */
  lemma {:induction false} RxfullUntilRead(f: Flags, run: seq<FlagsIn>)
    requires f.rxfull
    requires forall k :: 0 <= k < |run| ==> !run[k].rxWe
    ensures FlagsAfter(f, run).rxfull
    decreases |run|
  {
    if |run| > 0 {
      RxfullUntilRead(FlagsStep(f, run[0].csn, run[0].rxWe, run[0].clrerr), run[1..]);
    }
  }

  /** The flags as registers. */
  class SpiSlaveFlags {
    var tipD: bool
    var rxfull: bool
    var rxover: bool

    method Step(csn: bool, rxWe: bool, clrerr: bool)
      modifies this
      ensures Flags(tipD, rxfull, rxover) == FlagsStep(old(Flags(tipD, rxfull, rxover)), csn, rxWe, clrerr)
    {
      var tip := !csn;
      var donepulse := !tip && tipD;
      tipD := tip;
      if rxWe {
        rxfull := false;
      } else {
        if donepulse {
          rxfull := true;
        }
        if tip && rxfull {
          rxover := true;
        } else if clrerr {
          rxover := false;
        }
      }
    }
  }

  // ---------------------------------------------------------------------
  // SpiFifoSlave bus responders

  const RD_DEPTH: nat := 1280
  const WR_DEPTH: nat := 256
  /** What a read of the empty receive FIFO returns. */
  const EMPTY_READ: nat := 0xdeadbeef

  /** One clock of the Wishbone bus as the responders see it. */
  datatype Bus = Bus(cyc: bool, stb: bool, we: bool, cti: nat, datW: nat)

  /** A single-beat read cycle. */
  predicate BusRead(bus: Bus)
  {
    bus.cyc && bus.stb && !bus.we && bus.cti == 0
  }

  /** The bus acknowledge: the write responder's for a write cycle, the read
      responder's otherwise. */
  function Ack(we: bool, rdAck: bool, wrAck: bool): bool
  {
    if we then wrAck else rdAck
  }

  /** The receive FIFO over one clock: a pop when `re` is set and it is
      readable, and a push on its own write port when it has room. */
  function RdFifoNext(q: seq<nat>, re: bool, push: Option<nat>): seq<nat>
  {
    var popped := if re && |q| > 0 then q[1..] else q;
    if push.Some? && |q| < RD_DEPTH then popped + [push.value] else popped
  }

  /** The receive FIFO loses at most its head in a clock, and only when
      `re` is set; everything else keeps its order. */
  lemma RdFifoPops(q: seq<nat>, re: bool, push: Option<nat>)
    ensures var p := RdFifoNext(q, re, push);
      |q| - 1 <= |p| <= |q| + 1
      && (re && |q| > 0 ==> p[..|q| - 1] == q[1..])
      && (!re ==> |q| <= |p| && p[..|q|] == q)
  {
  }

  /** The transmit FIFO over one clock: a push when `we` is set and it has
      room. */
  function WrFifoNext(q: seq<nat>, we: bool, din: nat): seq<nat>
  {
    if we && |q| < WR_DEPTH then q + [din] else q
  }

  /** The read responder's registers and the receive FIFO, head first.
      `rdRe` is the registered pop strobe, which the FIFO acts on in the
      clock after it is set. */
  datatype ReadSide = ReadSide(rdFifo: seq<nat>, busReadD: bool, rdAckPipe: bool, rdAck: bool, rdRe: bool, datR: nat)

  /** A pop is only ever pending on a non-empty FIFO right after a read
      strobe. */
  predicate ReadValid(r: ReadSide)
  {
    |r.rdFifo| <= RD_DEPTH && (r.rdRe ==> r.busReadD && |r.rdFifo| > 0)
  }

  /** One clock of the read responder: the FIFO acts on last clock's pop
      strobe; a new read strobe is answered once, with the head of the FIFO
      and a pop, or with 0xdeadbeef and no pop when it is empty, and its
      acknowledge follows one clock later. */
  function ReadStep(r: ReadSide, bus: Bus, push: Option<nat>): ReadSide
  {
    var edge := BusRead(bus) && !r.busReadD;
    ReadSide(RdFifoNext(r.rdFifo, r.rdRe, push), BusRead(bus), edge, r.rdAckPipe,
             edge && |r.rdFifo| > 0,
             if !edge then r.datR else if |r.rdFifo| > 0 then r.rdFifo[0] else EMPTY_READ)
  }

  /** The invariant holds from reset and is kept by every clock. */
  lemma ReadKeepsValid(r: ReadSide, bus: Bus, push: Option<nat>)
    requires ReadValid(r)
    ensures ReadValid(ReadStep(r, bus, push))
  {
  }

  /** A read strobe of the empty FIFO is answered with 0xdeadbeef and sets
      up no pop; on a non-empty one it is answered with the head, which the
      next clock pops. Either way the acknowledge is raised one clock
      later, and the FIFO loses nothing in the clock of the strobe. */
  lemma ReadAnswer(r: ReadSide, bus: Bus, push: Option<nat>, bus2: Bus, push2: Option<nat>)
    requires ReadValid(r) && BusRead(bus) && !r.busReadD
    ensures var t := ReadStep(r, bus, push);
      ReadStep(t, bus2, push2).rdAck
      && (|r.rdFifo| == 0 ==> t.datR == EMPTY_READ && !t.rdRe)
      && (|r.rdFifo| > 0 ==>
            t.datR == r.rdFifo[0] && t.rdRe
            && ReadStep(t, bus2, push2).rdFifo[..|t.rdFifo| - 1] == t.rdFifo[1..])
      && t.rdFifo[..|r.rdFifo|] == r.rdFifo
  {
    RdFifoPops(r.rdFifo, r.rdRe, push);
    RdFifoPops(ReadStep(r, bus, push).rdFifo, ReadStep(r, bus, push).rdRe, push2);
  }

  /** At most one pop per read strobe: a pop is set up only by a new
      strobe, and never in the clock right after one. */
  lemma OnePopPerStrobe(r: ReadSide, bus: Bus, push: Option<nat>)
    requires ReadValid(r)
    ensures ReadStep(r, bus, push).rdRe ==> BusRead(bus) && !r.busReadD
    ensures r.rdRe ==> !ReadStep(r, bus, push).rdRe
  {
  }

  /** The read responder as registers. */
  class ReadResponder {
    var rdFifo: seq<nat>
    var busReadD: bool
    var rdAckPipe: bool
    var rdAck: bool
    var rdRe: bool
    var datR: nat

    function State(): ReadSide
      reads this
    {
      ReadSide(rdFifo, busReadD, rdAckPipe, rdAck, rdRe, datR)
    }

    constructor ()
      ensures ReadValid(State()) && rdFifo == [] && !rdRe && !busReadD && !rdAck
    {
      rdFifo := [];
      busReadD, rdAckPipe, rdAck, rdRe := false, false, false, false;
      datR := 0;
    }

    method Step(bus: Bus, push: Option<nat>)
      modifies this
      ensures State() == ReadStep(old(State()), bus, push)
    {
      var read := BusRead(bus);
      var edge := read && !busReadD;
      var readable := |rdFifo| > 0;
      var head := if readable then rdFifo[0] else EMPTY_READ;
      // The FIFO acts on the strobe registered last clock.
      rdFifo := RdFifoNext(rdFifo, rdRe, push);
      busReadD := read;
      rdAck := rdAckPipe;
      if edge {
        rdAckPipe := true;
        datR := head;
        rdRe := readable;
      } else {
        rdAckPipe := false;
        rdRe := false;
      }
    }
  }

  /** The write responder's registers and the transmit FIFO. `wrWe` is the
      registered push strobe, which the FIFO acts on in the clock after it
      is set. */
  datatype WriteSide = WriteSide(wrFifo: seq<nat>, wrAck: bool, wrWe: bool, wrDin: nat)

  /** A push is only ever pending on a FIFO with room, with the write
      acknowledge raised alongside it. */
  predicate WriteValid(w: WriteSide)
  {
    |w.wrFifo| <= WR_DEPTH && w.wrAck == w.wrWe && (w.wrWe ==> |w.wrFifo| < WR_DEPTH)
  }

  /** One clock of the write responder: the FIFO acts on last clock's push
      strobe; a write the bus has not yet had acknowledged is taken only
      when the FIFO has room, and acknowledged in the same clock as its push
      is set up. For a write cycle the bus acknowledge is `wrAck`. */
  function WriteStep(w: WriteSide, bus: Bus): WriteSide
  {
    var accept := bus.cyc && bus.stb && bus.we && !w.wrAck && |w.wrFifo| < WR_DEPTH;
    WriteSide(WrFifoNext(w.wrFifo, w.wrWe, w.wrDin), accept, accept, if accept then bus.datW else w.wrDin)
  }

  lemma WriteKeepsValid(w: WriteSide, bus: Bus)
    requires WriteValid(w)
    ensures WriteValid(WriteStep(w, bus))
  {
  }

  /** A write is taken, and acknowledged, exactly when it is a new write
      cycle and the transmit FIFO has room, and the push it sets up then
      lands in the next clock; a FIFO with no push pending is unchanged. */
  lemma WriteOnlyWithRoom(w: WriteSide, bus: Bus, bus2: Bus)
    requires WriteValid(w)
    ensures var t := WriteStep(w, bus);
      (t.wrAck <==> bus.cyc && bus.stb && bus.we && !Ack(bus.we, false, w.wrAck) && |w.wrFifo| < WR_DEPTH)
      && (!w.wrWe ==> t.wrFifo == w.wrFifo)
      && (t.wrWe ==> WriteStep(t, bus2).wrFifo == t.wrFifo + [bus.datW])
  {
  }

  /** The write responder as registers. */
  class WriteResponder {
    var wrFifo: seq<nat>
    var wrAck: bool
    var wrWe: bool
    var wrDin: nat

    function State(): WriteSide
      reads this
    {
      WriteSide(wrFifo, wrAck, wrWe, wrDin)
    }

    constructor ()
      ensures WriteValid(State()) && wrFifo == [] && !wrAck
    {
      wrFifo := [];
      wrAck, wrWe := false, false;
      wrDin := 0;
    }

    method Step(bus: Bus)
      modifies this
      ensures State() == WriteStep(old(State()), bus)
    {
      var room := |wrFifo| < WR_DEPTH;
      // The FIFO acts on the strobe registered last clock.
      if wrWe && room {
        wrFifo := wrFifo + [wrDin];
      }
      if bus.cyc && bus.stb && bus.we && !wrAck && room {
        wrDin := bus.datW;
        wrWe := true;
        wrAck := true;
      } else {
        wrWe := false;
        wrAck := false;
      }
    }
  }
}
