/** The COM interrupt-vector manager (sw/src/com_bus.rs, `ComInterrupts`).

    `state` holds one bit per pending event, `mask` the events the host
    wants to hear about, and `rx_len_bytes` the length of the received
    packet or the connect result code. `update_irq_pin` drives the host
    interrupt line, which the model keeps as the field `hostInt`. A set on
    a bit that is already pending asks for a retrigger: the next pin update
    drops the line for one round so that the host sees a fresh edge.

    A 16-bit word is modelled as the set of the positions of its 1 bits,
    so `a & b` is `a * b`, `a | b` is `a + b`, `a & !b` is `a - b` and
    `a != 0` is `a != {}`. The bit positions live in the `com_rs` crate,
    which is not part of this model; the ones below are distinct, which is
    all that the properties use. */
module ComBus {
  import opened Bits

  /** A 16-bit word, as the set of the positions of its 1 bits. */
  type Word = s: set<nat> | forall i | i in s :: i < 16

  const INT_WLAN_CONNECT_EVENT: Word := {0}
  const INT_WLAN_DISCONNECT: Word := {1}
  const INT_WLAN_IPCONF_UPDATE: Word := {2}
  const INT_WLAN_RX_READY: Word := {3}
  const INT_BATTERY_CRITICAL: Word := {4}
  const INT_WLAN_SSID_UPDATE: Word := {5}
  const INT_WLAN_SSID_FINISHED: Word := {6}
  const INT_WLAN_TX_ERROR: Word := {7}
  const INT_WLAN_RX_ERROR: Word := {8}

  /** The event bits the simple `set_`/`ack_` pairs work on. */
  predicate IsEventBit(bit: Word) {
    bit in {INT_WLAN_CONNECT_EVENT, INT_WLAN_DISCONNECT, INT_WLAN_IPCONF_UPDATE,
            INT_WLAN_RX_READY, INT_BATTERY_CRITICAL, INT_WLAN_SSID_UPDATE,
            INT_WLAN_SSID_FINISHED, INT_WLAN_TX_ERROR, INT_WLAN_RX_ERROR}
  }

  /** The manager's fields, with the host interrupt line as `hostInt`.
      `rx_len_bytes` is a number, not a set of flags. */
  datatype Com = Com(state: Word, rxLenBytes: nat, mask: Word, retrigger: bool, hostInt: bool)

  // ---------------------------------------------------------------------
  // The operations on values

  /** `update_irq_pin`. */
  function UpdateIrqPinOf(c: Com): Com {
    if c.state * c.mask != {} then
      if !c.retrigger then c.(hostInt := true)
      else c.(hostInt := false, retrigger := false)
    else c.(hostInt := false, retrigger := false)
  }

  /** `set_rx_ready(len)`: keep a connect result code in `rx_len_bytes`. */
  function SetRxReadyOf(c: Com, len: u16): Com {
    var c1 := if c.state * INT_WLAN_CONNECT_EVENT == {} then c.(rxLenBytes := len) else c;
    RaiseOf(c1, INT_WLAN_RX_READY)
  }

  /** `ack_rx_ready`. */
  function AckRxReadyOf(c: Com): Com {
    var c1 := if c.state * INT_WLAN_CONNECT_EVENT == {} then c.(rxLenBytes := 0) else c;
    AckOf(c1, INT_WLAN_RX_READY)
  }

  /** `set_connect_result(result)`, with the result already cast to 16 bits. */
  function SetConnectResultOf(c: Com, result: u16): Com {
    RaiseOf(c, INT_WLAN_CONNECT_EVENT).(rxLenBytes := result)
  }

  /** A set that retriggers when the bit is already pending
      (`set_rx_ready`, `set_disconnect`, `set_connect_result`). */
  function RaiseOf(c: Com, bit: Word): Com {
    if c.state * bit != {} then c.(retrigger := true) else c.(state := c.state + bit)
  }

  /** A plain set (`set_ipconf_update` and the other `set_` methods). */
  function SetOf(c: Com, bit: Word): Com {
    c.(state := c.state + bit)
  }

  /** `ack(acks)`, and each `ack_` method with its own bit. */
  function AckOf(c: Com, acks: Word): Com {
    c.(state := c.state - acks)
  }

  /** `set_mask(new_mask)`. */
  function SetMaskOf(c: Com, newMask: Word): Com {
    c.(retrigger := true, mask := newMask)
  }

  /** `get_state`: the unmasked pending events and `rx_len_bytes`. */
  function GetStateOf(c: Com): (Word, nat) {
    (c.state * c.mask, c.rxLenBytes)
  }

  // ---------------------------------------------------------------------
  // The object

  class ComInterrupts {
    var state: Word
    var rxLenBytes: u16
    var mask: Word
    var retrigger: bool
    /** `CONTROL_HOST_INT` of the COM block. */
    var hostInt: bool

    function Snapshot(): Com
      reads this
    {
      Com(state, rxLenBytes, mask, retrigger, hostInt)
    }

    /** `new`: nothing pending, nothing unmasked. */
    constructor New()
      ensures state == {} && rxLenBytes == 0 && mask == {} && !retrigger
    {
      state, rxLenBytes, mask, retrigger := {}, 0, {}, false;
      hostInt := false;
    }

    method UpdateIrqPin()
      modifies this
      ensures Snapshot() == UpdateIrqPinOf(old(Snapshot()))
    {
      if state * mask != {} {
        if !retrigger {
          hostInt := true;
        } else {
          hostInt := false;
          retrigger := false;
        }
      } else {
        hostInt := false;
        retrigger := false;
      }
    }

    method SetRxReady(len: u16)
      modifies this
      ensures Snapshot() == SetRxReadyOf(old(Snapshot()), len)
    {
      if state * INT_WLAN_CONNECT_EVENT == {} {
        rxLenBytes := len;
      }
      Raise(INT_WLAN_RX_READY);
    }

    method AckRxReady()
      modifies this
      ensures Snapshot() == AckRxReadyOf(old(Snapshot()))
    {
      if state * INT_WLAN_CONNECT_EVENT == {} {
        rxLenBytes := 0;
      }
      state := state - INT_WLAN_RX_READY;
    }

    method SetDisconnect()
      modifies this
      ensures Snapshot() == RaiseOf(old(Snapshot()), INT_WLAN_DISCONNECT)
    {
      Raise(INT_WLAN_DISCONNECT);
    }

    method SetConnectResult(result: u16)
      modifies this
      ensures Snapshot() == SetConnectResultOf(old(Snapshot()), result)
    {
      Raise(INT_WLAN_CONNECT_EVENT);
      rxLenBytes := result;
    }

    method Raise(bit: Word)
      modifies this
      ensures Snapshot() == RaiseOf(old(Snapshot()), bit)
    {
      if state * bit != {} {
        retrigger := true;
      } else {
        state := state + bit;
      }
    }

    /** `set_ipconf_update`, `set_ssid_update`, `set_ssid_finished`,
        `set_battery_critical`, `set_tx_error`, `set_rx_error`. */
    method Set(bit: Word)
      requires IsEventBit(bit)
      modifies this
      ensures Snapshot() == SetOf(old(Snapshot()), bit)
    {
      state := state + bit;
    }

    /** `ack(acks)`; each `ack_` method other than `ack_rx_ready` is this
        with its own bit. */
    method Ack(acks: Word)
      modifies this
      ensures Snapshot() == AckOf(old(Snapshot()), acks)
    {
      state := state - acks;
    }

    method SetMask(newMask: Word)
      modifies this
      ensures Snapshot() == SetMaskOf(old(Snapshot()), newMask)
    {
      retrigger := true;
      mask := newMask;
    }

    method GetMask() returns (m: Word)
      ensures m == mask
    {
      m := mask;
    }

    method GetState() returns (pending: Word, len: u16)
      ensures (pending, len as nat) == GetStateOf(Snapshot())
    {
      pending, len := state * mask, rxLenBytes;
    }
  }

  // ---------------------------------------------------------------------
  // Properties

  /** The line is high exactly when an unmasked event is pending and no
      retrigger is asked for; a pin update always consumes the retrigger
      and changes nothing else. */
  lemma PinRule(c: Com)
    ensures UpdateIrqPinOf(c).hostInt <==> (exists i :: i in c.state && i in c.mask) && !c.retrigger
    ensures !UpdateIrqPinOf(c).retrigger
    ensures UpdateIrqPinOf(c).(hostInt := c.hostInt, retrigger := c.retrigger) == c
  {
    if c.state * c.mask != {} {
      var i :| i in c.state * c.mask;
    } else {
      assert forall i :: i in c.state && i in c.mask ==> i in c.state * c.mask;
    }
  }

  /** A pending retrigger drops the line once; the next update raises it
      again while the unmasked event is still pending. */
  lemma RetriggerMakesEdge(c: Com)
    requires c.state * c.mask != {} && c.retrigger
    ensures !UpdateIrqPinOf(c).hostInt
    ensures UpdateIrqPinOf(UpdateIrqPinOf(c)).hostInt
  {
  }

  /** A retriggering set makes its bit pending, and asks for a retrigger
      exactly when the bit was pending already; nothing else changes. */
  lemma RaiseSetsBit(c: Com, bit: Word)
    requires IsEventBit(bit)
    ensures RaiseOf(c, bit).state == c.state + bit
    ensures RaiseOf(c, bit).retrigger <==> c.retrigger || bit <= c.state
    ensures RaiseOf(c, bit).(state := c.state, retrigger := c.retrigger) == c
  {
    var i :| bit == {i};
    if i in c.state {
      assert c.state + bit == c.state;
    }
  }

  /** `set_rx_ready` records the length only when no connect result is
      pending, and otherwise behaves as a retriggering set of RX_READY. */
  lemma SetRxReadyRule(c: Com, len: u16)
    ensures SetRxReadyOf(c, len).rxLenBytes ==
              if 0 in c.state then c.rxLenBytes else len
    ensures SetRxReadyOf(c, len).state == c.state + {3}
    ensures SetRxReadyOf(c, len).retrigger <==> c.retrigger || 3 in c.state
    ensures SetRxReadyOf(c, len).mask == c.mask
  {
    var c1 := if c.state * INT_WLAN_CONNECT_EVENT == {} then c.(rxLenBytes := len) else c;
    RaiseSetsBit(c1, INT_WLAN_RX_READY);
  }

  /** `ack_rx_ready` clears RX_READY and only that bit, and clears the
      length unless a connect result is pending. */
  lemma AckRxReadyRule(c: Com)
    ensures AckRxReadyOf(c).state == c.state - {3}
    ensures AckRxReadyOf(c).rxLenBytes == if 0 in c.state then c.rxLenBytes else 0
  {
    SingleBit(c.state, 0);
  }

  lemma SingleBit(s: Word, i: nat)
    ensures s * {i} == {} <==> i !in s
  {
    if i in s {
      assert i in s * {i};
    }
  }

  /** `set_connect_result` always overwrites `rx_len_bytes`, and retriggers
      when a connect result is already pending. */
  lemma SetConnectResultRule(c: Com, result: u16)
    ensures SetConnectResultOf(c, result).rxLenBytes == result
    ensures 0 in SetConnectResultOf(c, result).state
    ensures SetConnectResultOf(c, result).retrigger <==> c.retrigger || 0 in c.state
  {
    RaiseSetsBit(c, INT_WLAN_CONNECT_EVENT);
  }

  /** `ack(acks)` clears exactly the bits of `acks`: none of them stays
      pending, and every other bit keeps its value. */
  lemma AckClearsExactly(c: Com, acks: Word, i: nat)
    ensures i in acks ==> i !in AckOf(c, acks).state
    ensures i !in acks ==> (i in AckOf(c, acks).state <==> i in c.state)
    ensures AckOf(c, acks).(state := c.state) == c
  {
  }

  /** Acking an event bit after setting it restores the other bits. */
  lemma SetThenAck(c: Com, bit: Word)
    requires IsEventBit(bit)
    ensures AckOf(SetOf(c, bit), bit) == AckOf(c, bit)
  {
  }

  /** `set_mask` stores the mask and asks for a retrigger, so an event that
      was already pending produces a fresh edge; `get_state` hides the
      masked events. */
  lemma MaskRule(c: Com, m: Word)
    ensures SetMaskOf(c, m).mask == m && SetMaskOf(c, m).retrigger
    ensures GetStateOf(SetMaskOf(c, m)).0 <= m
    ensures GetStateOf(SetMaskOf(c, m)).1 == c.rxLenBytes
  {
    assert GetStateOf(SetMaskOf(c, m)).0 == c.state * m;
  }
}
