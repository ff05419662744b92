/** The register glue of the I2C controller (rtl/rtl_i2c.py) around the
    byte controller it instantiates: the command-register clear, the masked
    command inputs, and the sticky status flags. The byte controller itself
    is a Verilog core that is not part of this model; its `done` (command
    acknowledge) and `al` (arbitration lost) outputs are inputs here. */
module RtlI2c {
  /** The command register's fields (bits 7, 6, 5, 4, 3 and 0). */
  datatype Command = Command(start: bool, stop: bool, read: bool, write: bool, ack: bool, iack: bool)

  const NO_COMMAND := Command(false, false, false, false, false, false)

  /** The command register as an 8-bit value. */
  function CommandByte(c: Command): bv8
  {
    (if c.start then 0x80 else 0) | (if c.stop then 0x40 else 0) | (if c.read then 0x20 else 0)
    | (if c.write then 0x10 else 0) | (if c.ack then 0x08 else 0) | (if c.iack then 0x01 else 0)
  }

  /** The fields read back from the 8-bit value; bits 2 and 1 are unused. */
  function CommandFields(b: bv8): Command
  {
    Command(b & 0x80 != 0, b & 0x40 != 0, b & 0x20 != 0, b & 0x10 != 0, b & 0x08 != 0, b & 0x01 != 0)
  }

  lemma CommandRoundTrip(c: Command)
    ensures CommandFields(CommandByte(c)) == c
    ensures CommandByte(NO_COMMAND) == 0
  {
  }

  /** The stop, read and write inputs of the byte controller: masked while
      it acknowledges the previous command. */
  datatype ByteCtrlInputs = ByteCtrlInputs(start: bool, stop: bool, read: bool, write: bool)

  function ByteCtrlIn(c: Command, done: bool): (i: ByteCtrlInputs)
    ensures done ==> !i.stop && !i.read && !i.write
    ensures !done ==> i == ByteCtrlInputs(c.start, c.stop, c.read, c.write)
  {
    ByteCtrlInputs(c.start, c.stop && !done, c.read && !done, c.write && !done)
  }

  /** The status register: rxack in bit 7, busy in 6, arbitration lost in
      5, transfer in progress in 1, interrupt flag in 0. */
  function StatusByte(rxack: bool, busy: bool, arbLost: bool, tip: bool, intflag: bool): bv8
  {
    (if rxack then 0x80 else 0) | (if busy then 0x40 else 0) | (if arbLost then 0x20 else 0)
    | (if tip then 0x02 else 0) | (if intflag then 0x01 else 0)
  }

  /** Each flag can be read back from its own bit, and the unused bits read
      as zero. */
  lemma StatusFields(rxack: bool, busy: bool, arbLost: bool, tip: bool, intflag: bool)
    ensures var s := StatusByte(rxack, busy, arbLost, tip, intflag);
      (s & 0x80 != 0) == rxack && (s & 0x40 != 0) == busy && (s & 0x20 != 0) == arbLost
      && (s & 0x02 != 0) == tip && (s & 0x01 != 0) == intflag && s & 0x1C == 0
  {
  }

  /** The next interrupt flag: set by done or al, kept until iack, and
      iack wins over a simultaneous set. */
  function IntflagNext(intflag: bool, done: bool, al: bool, iack: bool): bool
  {
    (done || al || intflag) && !iack
  }

  /** The next arbitration-lost flag: set by al, kept until a start, and
      al wins over a simultaneous start. */
  function ArbLostNext(arbLost: bool, al: bool, start: bool): bool
  {
    al || (arbLost && !start)
  }

  /** The registers of the glue logic. */
  class Controller {
    var command: Command
    var tip: bool
    var intflag: bool
    var arbLost: bool

    constructor ()
      ensures command == NO_COMMAND && !tip && !intflag && !arbLost
    {
      command := NO_COMMAND;
      tip := false;
      intflag := false;
      arbLost := false;
    }

    /** The interrupt request: the flag, gated by the enable bit (bit 6 of
        the control register). */
    function Trigger(intEna: bool): bool
      reads this
    {
      intflag && intEna
    }

    /** The CPU writes byte `b` to the command register; the gateware's
        own write of 0 on done or arbitration lost is the other writer, in
        `Step`. The status flags are untouched. */
    method Write(b: bv8)
      modifies this
      ensures command == CommandFields(b)
      ensures tip == old(tip) && intflag == old(intflag) && arbLost == old(arbLost)
    {
      command := CommandFields(b);
    }

    /** One clock. The flags are computed from this cycle's command, and
        the command register is written with 0 when the byte controller
        reports done or arbitration lost. */
    method Step(done: bool, al: bool)
      modifies this
      ensures tip == (old(command).read || old(command).write)
      ensures intflag == IntflagNext(old(intflag), done, al, old(command).iack)
      ensures arbLost == ArbLostNext(old(arbLost), al, old(command).start)
      ensures command == if done || al then NO_COMMAND else old(command)
    {
      tip, intflag, arbLost := command.read || command.write,
                               (done || al || intflag) && !command.iack,
                               al || (arbLost && !command.start);
      if done || al {
        command := NO_COMMAND;
      }
    }
  }

  /** One cycle's inputs: done, al and the command register's iack and
      start bits. */
  datatype Inputs = Inputs(done: bool, al: bool, iack: bool, start: bool)

  function IntflagAfter(intflag: bool, run: seq<Inputs>): bool
    decreases |run|
  {
    if |run| == 0 then intflag else IntflagAfter(IntflagNext(intflag, run[0].done, run[0].al, run[0].iack), run[1..])
  }

  function ArbLostAfter(arbLost: bool, run: seq<Inputs>): bool
    decreases |run|
  {
    if |run| == 0 then arbLost else ArbLostAfter(ArbLostNext(arbLost, run[0].al, run[0].start), run[1..])
  }

  /** Once set, the interrupt flag stays set through any run of cycles
      without iack; a cycle with iack clears it whatever else happens. */
  lemma {:induction false} IntflagSticky(run: seq<Inputs>)
    requires forall i :: 0 <= i < |run| ==> !run[i].iack
    ensures IntflagAfter(true, run)
  {
    if |run| > 0 {
      IntflagSticky(run[1..]);
    }
  }

  lemma IackWins(intflag: bool, done: bool, al: bool)
    ensures !IntflagNext(intflag, done, al, true)
    ensures IntflagNext(intflag, done, al, false) == (done || al || intflag)
  {
  }

  /** Once set, arbitration lost stays set through any run of cycles
      without a start; al sets it even in a cycle with a start. */
  lemma {:induction false} ArbLostSticky(run: seq<Inputs>)
    requires forall i :: 0 <= i < |run| ==> !run[i].start
    ensures ArbLostAfter(true, run)
  {
    if |run| > 0 {
      ArbLostSticky(run[1..]);
    }
  }

  lemma AlWins(arbLost: bool, start: bool)
    ensures ArbLostNext(arbLost, true, start)
    ensures !ArbLostNext(arbLost, false, true)
  {
  }

  /** After the byte controller reports done, the command register is
      empty, and one cycle later the transfer-in-progress flag is clear. */
  method DoneClearsCommand(c: Controller)
    modifies c
    ensures c.command == NO_COMMAND && !c.tip
  {
    c.Step(true, false);
    c.Step(false, false);
  }
}
