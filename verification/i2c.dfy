/** The I2C controller as the peripheral drivers of sw/betrusted-hal see it:
    a log of the transactions they start. The register-level controller
    (hal_i2c.rs, hal_hardi2c.rs) is not part of this model. A transaction
    is the target address, the bytes written and the number of bytes read
    back. Bytes are `bv8`, the bit sets the drivers build with `|` and
    `&`. */
module I2c {
  import opened Wrappers

  datatype Xfer = Xfer(addr: bv8, tx: seq<bv8>, rxLen: nat)

  class Bus {
    /** Every transaction started, oldest first. */
    var log: seq<Xfer>
    /** How the `n`-th transaction ends: `None` when the controller
        reports an error, otherwise the first byte received. */
    const reply: nat -> Option<bv8>

    constructor New(reply: nat -> Option<bv8>)
      ensures log == [] && this.reply == reply
    {
      log := [];
      this.reply := reply;
    }

    /** A transaction whose caller waits until it succeeds (the
        `while i2c... != 0 {}` pattern) or ignores its status: it is
        logged once. */
    method Transfer(addr: bv8, tx: seq<bv8>, rxLen: nat)
      modifies this
      ensures log == old(log) + [Xfer(addr, tx, rxLen)]
    {
      log := log + [Xfer(addr, tx, rxLen)];
    }

    /** A transaction whose status the caller checks. */
    method TryTransfer(addr: bv8, tx: seq<bv8>, rxLen: nat) returns (rx: Option<bv8>)
      modifies this
      ensures log == old(log) + [Xfer(addr, tx, rxLen)]
      ensures rx == reply(|old(log)|)
    {
      rx := reply(|log|);
      log := log + [Xfer(addr, tx, rxLen)];
    }
  }
}
