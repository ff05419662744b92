/** The debug UART wake sequence (sw/src/uart.rs).

    Received bytes are swallowed ("bypass") until the sequence 'A', 'T',
    then CR or LF has been seen; from then on every byte is delivered. The
    UART's receive FIFO is modelled by the byte it has pending, if any. */
module Uart {
  import opened Wrappers
  import opened Bits

  datatype RxState = BypassOnAwaitA | ExpectT | ExpectCROrLF | Waking | BypassOff

  const CHAR_A: u8 := 0x41
  const CHAR_T: u8 := 0x54
  const CR: u8 := 0x0D
  const LF: u8 := 0x0A
  const ESC: u8 := 0x1B
  /** How many bytes `drain_rx_buf` reads at most. */
  const DRAIN_MAX: nat := 32

  /** The state transition of `rx_byte`. */
  function Next(s: RxState, b: u8): RxState {
    match s
    case BypassOff => BypassOff
    case BypassOnAwaitA => if b == CHAR_A then ExpectT else BypassOnAwaitA
    case ExpectT => if b == CHAR_A then ExpectT else if b == CHAR_T then ExpectCROrLF else BypassOnAwaitA
    case ExpectCROrLF => if b == CR || b == LF then Waking else BypassOnAwaitA
    case Waking => BypassOff
  }

  /** `rx_byte`: the new state and the delivered byte, given the byte the
      UART has pending (None when it has none). */
  function RxByteOf(s: RxState, pending: Option<u8>): (RxState, Option<u8>) {
    match pending
    case None => (s, None)
    case Some(b) =>
      var s' := Next(s, b);
      (s', if s' == BypassOff then Some(b) else None)
  }

  /** One pass of the UART block of the main loop (sw/src/main.rs): an
      escape byte turns bypass back on, and any pass on which `rx_byte`
      delivers nothing and leaves the state `Waking` finishes the wake-up,
      the pass that consumed the CR or LF included. */
  function MainPollOf(s: RxState, pending: Option<u8>): (RxState, Option<u8>) {
    var (s', r) := RxByteOf(s, pending);
    match r
    case Some(b) => (if b == ESC then BypassOnAwaitA else s', r)
    case None => (if s' == Waking then BypassOff else s', r)
  }

  /** The state after feeding `bytes` to `rx_byte` one by one. */
  function Run(s: RxState, bytes: seq<u8>): RxState {
    if bytes == [] then s else Next(Run(s, bytes[..|bytes| - 1]), bytes[|bytes| - 1])
  }

  /** `drain_rx_buf`: read and drop pending bytes, at most 32 of them;
      returns what is left in the FIFO. */
  method DrainRxBuf(fifo: seq<u8>) returns (left: seq<u8>)
    ensures |fifo| <= DRAIN_MAX ==> left == []
    ensures |fifo| > DRAIN_MAX ==> left == fifo[DRAIN_MAX..]
  {
    left := fifo;
    for i := 0 to DRAIN_MAX
      invariant i <= |fifo| ==> left == fifo[i..]
      invariant i > |fifo| ==> left == []
    {
      if left == [] {
        return;
      }
      left := left[1..];
    }
  }

  // ---------------------------------------------------------------------
  // Properties

  /** Once the bypass is off it stays off, and every byte is delivered. */
  lemma BypassOffAbsorbs(b: u8)
    ensures RxByteOf(BypassOff, Some(b)) == (BypassOff, Some(b))
  {
  }

  /** A byte is delivered exactly when the new state is `BypassOff`, and
      with nothing pending the state is unchanged. */
  lemma DeliveredIffOff(s: RxState, pending: Option<u8>)
    ensures RxByteOf(s, pending).1.Some? <==> pending.Some? && RxByteOf(s, pending).0 == BypassOff
    ensures RxByteOf(s, pending).1.Some? ==> RxByteOf(s, pending).1 == pending
    ensures pending.None? ==> RxByteOf(s, pending) == (s, None)
  {
  }

  /** The arrows of the wake automaton; every other byte goes back to
      waiting for 'A'. */
  lemma Transitions(s: RxState, b: u8)
    ensures Next(s, b) == ExpectT <==> (s == BypassOnAwaitA || s == ExpectT) && b == CHAR_A
    ensures Next(s, b) == ExpectCROrLF <==> s == ExpectT && b == CHAR_T
    ensures Next(s, b) == Waking <==> s == ExpectCROrLF && (b == CR || b == LF)
    ensures Next(s, b) == BypassOff <==> s == Waking || s == BypassOff
    ensures Next(s, b) == BypassOnAwaitA <==>
              !(s == BypassOff || s == Waking
                || ((s == BypassOnAwaitA || s == ExpectT) && b == CHAR_A)
                || (s == ExpectT && b == CHAR_T)
                || (s == ExpectCROrLF && (b == CR || b == LF)))
  {
  }

  /** No byte gets through before the wake sequence: the first byte
      delivered from a fresh start comes right after 'A', 'T' and CR or LF
      (so for "AT\r\n" the LF itself is delivered). */
  lemma {:induction false} FirstDeliveryFollowsWake(bytes: seq<u8>, k: nat)
    requires k < |bytes|
    requires Run(BypassOnAwaitA, bytes[..k]) != BypassOff
    requires Next(Run(BypassOnAwaitA, bytes[..k]), bytes[k]) == BypassOff
    ensures k >= 3
    ensures bytes[k - 3] == CHAR_A && bytes[k - 2] == CHAR_T
    ensures bytes[k - 1] == CR || bytes[k - 1] == LF
  {
    assert Run(BypassOnAwaitA, bytes[..k]) == Waking;
    RunStep(bytes, k);
    assert Run(BypassOnAwaitA, bytes[..k - 1]) == ExpectCROrLF;
    RunStep(bytes, k - 1);
    assert Run(BypassOnAwaitA, bytes[..k - 2]) == ExpectT;
    RunStep(bytes, k - 2);
  }

  /** The state after a non-empty prefix is one step on from the shorter one. */
  lemma RunStep(bytes: seq<u8>, k: nat)
    requires 0 < k <= |bytes|
    ensures Run(BypassOnAwaitA, bytes[..k]) == Next(Run(BypassOnAwaitA, bytes[..k - 1]), bytes[k - 1])
  {
    assert bytes[..k][..k - 1] == bytes[..k - 1];
  }

  /** In the main loop, the CR or LF ending the wake sequence turns the
      bypass off in the same pass without being delivered, an idle poll in
      `Waking` does the same, and an escape byte turns the bypass back on;
      no pass ends in `Waking`. */
  lemma MainPollRules(s: RxState, pending: Option<u8>)
    ensures s == ExpectCROrLF && (pending == Some(CR) || pending == Some(LF)) ==> MainPollOf(s, pending) == (BypassOff, None)
    ensures s == Waking && pending.None? ==> MainPollOf(s, pending) == (BypassOff, None)
    ensures s == BypassOff && pending == Some(ESC) ==> MainPollOf(s, pending) == (BypassOnAwaitA, Some(ESC))
    ensures MainPollOf(s, pending).1 == RxByteOf(s, pending).1
    ensures MainPollOf(s, pending).0 != Waking
  {
  }

  /** Through the main loop, "AT" and CR or LF from a fresh start turn the
      bypass off after the third byte with nothing delivered, and the next
      byte is the first one delivered. */
  lemma MainLoopWakes(end: u8, next: u8)
    requires end == CR || end == LF
    ensures var p1 := MainPollOf(BypassOnAwaitA, Some(CHAR_A));
            var p2 := MainPollOf(p1.0, Some(CHAR_T));
            var p3 := MainPollOf(p2.0, Some(end));
            && p1.1.None? && p2.1.None? && p3 == (BypassOff, None)
            && MainPollOf(p3.0, Some(next)).1 == Some(next)
  {
  }
}
