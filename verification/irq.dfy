/** The interrupt handler table of the no-MMU kernel
    (sw/xous-nommu/src/irq.rs): 32 slots, each empty or holding a handler,
    and the VexRiscv `vmim` register, in which a set bit ENABLES its
    interrupt. A 32-bit word of interrupt bits is modelled as the set of
    interrupt numbers whose bits are set: OR-ing in `1 << irq` adds `irq`,
    AND-ing with `!(1 << irq)` removes it. Handlers are identified by a
    number; what a handler does when called is outside this model, so
    `handle` records each call in a log instead of running it. */
module Irq {
  import opened Wrappers

  /** The number of slots in `IRQ_HANDLERS`. */
  const IRQ_COUNT: nat := 32

  /** A handler function, by identity. */
  type Handler = nat

  /** A word of interrupt bits, as the set of interrupts whose bit is set. */
  type Mask = set<nat>

  datatype XousError = InterruptNotFound | InterruptInUse

  /** A call `handle` made: which handler, with which interrupt number. */
  datatype Call = Call(handler: Handler, irq: nat)

  /** The table and the enable register together. */
  datatype IrqState = IrqState(handlers: seq<Option<Handler>>, vmim: Mask)

  // ----- claim and free -----

  /** `sys_interrupt_claim` on values, with the range test corrected to
      reject every number that has no slot. */
  function ClaimSpec(s: IrqState, irq: nat, f: Handler): (IrqState, Result<(), XousError>)
    requires |s.handlers| == IRQ_COUNT
  {
    if irq >= IRQ_COUNT then (s, Err(InterruptNotFound))
    else if s.handlers[irq].Some? then (s, Err(InterruptInUse))
    else (IrqState(s.handlers[irq := Some(f)], s.vmim + {irq}), Ok(()))
  }

  /** `sys_interrupt_free` on values, with the same corrected range test. */
  function FreeSpec(s: IrqState, irq: nat): (IrqState, Result<(), XousError>)
    requires |s.handlers| == IRQ_COUNT
  {
    if irq >= IRQ_COUNT then (s, Err(InterruptNotFound))
    else (IrqState(s.handlers[irq := None], s.vmim - {irq}), Ok(()))
  }

  /** `sys_interrupt_claim` as written: its range test rejects only numbers
      above 32, so 32 itself goes on to index the table, which has no slot
      32 (`None` stands for that out-of-bounds panic). */
  function ClaimAsWritten(s: IrqState, irq: nat, f: Handler): Option<(IrqState, Result<(), XousError>)>
    requires |s.handlers| == IRQ_COUNT
  {
    if irq > IRQ_COUNT then Some((s, Err(InterruptNotFound)))
    else if irq == IRQ_COUNT then None
    else if s.handlers[irq].Some? then Some((s, Err(InterruptInUse)))
    else Some((IrqState(s.handlers[irq := Some(f)], s.vmim + {irq}), Ok(())))
  }

  /** `sys_interrupt_free` as written, with the same range test. */
  function FreeAsWritten(s: IrqState, irq: nat): Option<(IrqState, Result<(), XousError>)>
    requires |s.handlers| == IRQ_COUNT
  {
    if irq > IRQ_COUNT then Some((s, Err(InterruptNotFound)))
    else if irq == IRQ_COUNT then None
    else Some((IrqState(s.handlers[irq := None], s.vmim - {irq}), Ok(())))
  }

  /** The range test as written lets exactly one number through that has no
      slot, 32; for every other number the code behaves as the corrected
      test does, and for 32 the corrected test reports `InterruptNotFound`. */
  lemma RangeTestOffByOne(s: IrqState, f: Handler)
    requires |s.handlers| == IRQ_COUNT
    ensures ClaimAsWritten(s, IRQ_COUNT, f).None? && FreeAsWritten(s, IRQ_COUNT).None?
    ensures ClaimSpec(s, IRQ_COUNT, f) == (s, Err(InterruptNotFound))
    ensures FreeSpec(s, IRQ_COUNT) == (s, Err(InterruptNotFound))
    ensures forall irq: nat :: irq != IRQ_COUNT ==>
      ClaimAsWritten(s, irq, f) == Some(ClaimSpec(s, irq, f)) && FreeAsWritten(s, irq) == Some(FreeSpec(s, irq))
  {
  }

  /** Claiming a free slot installs the handler and enables exactly that
      interrupt; no other slot and no other enable bit changes. */
  lemma ClaimInstalls(s: IrqState, irq: nat, f: Handler)
    requires |s.handlers| == IRQ_COUNT && irq < IRQ_COUNT && s.handlers[irq].None?
    ensures ClaimSpec(s, irq, f).1 == Ok(())
    ensures var t := ClaimSpec(s, irq, f).0;
      |t.handlers| == IRQ_COUNT && t.handlers[irq] == Some(f) &&
      (forall i :: 0 <= i < IRQ_COUNT && i != irq ==> t.handlers[i] == s.handlers[i]) &&
      (forall i :: i in t.vmim <==> i in s.vmim || i == irq)
  {
  }

  /** Claiming a slot that is taken, or a number with no slot, fails and
      changes nothing; claiming succeeds exactly on a free slot. */
  lemma ClaimRefuses(s: IrqState, irq: nat, f: Handler)
    requires |s.handlers| == IRQ_COUNT
    ensures irq >= IRQ_COUNT ==> ClaimSpec(s, irq, f) == (s, Err(InterruptNotFound))
    ensures irq < IRQ_COUNT && s.handlers[irq].Some? ==> ClaimSpec(s, irq, f) == (s, Err(InterruptInUse))
    ensures ClaimSpec(s, irq, f).1.Ok? <==> irq < IRQ_COUNT && s.handlers[irq].None?
  {
  }

  /** Freeing empties the slot and disables exactly that interrupt, and it
      succeeds whether or not the slot held a handler. */
  lemma FreeClears(s: IrqState, irq: nat)
    requires |s.handlers| == IRQ_COUNT
    ensures FreeSpec(s, irq).1.Ok? <==> irq < IRQ_COUNT
    ensures irq >= IRQ_COUNT ==> FreeSpec(s, irq).0 == s
    ensures var t := FreeSpec(s, irq).0;
      irq < IRQ_COUNT ==>
        |t.handlers| == IRQ_COUNT && t.handlers[irq].None? &&
        (forall i :: 0 <= i < IRQ_COUNT && i != irq ==> t.handlers[i] == s.handlers[i]) &&
        (forall i :: i in t.vmim <==> i in s.vmim && i != irq)
  {
  }

  /** Claiming a free slot and then freeing it puts the table back as it
      was, leaves that interrupt disabled and every other enable bit as it
      was. */
  lemma ClaimThenFree(s: IrqState, irq: nat, f: Handler)
    requires |s.handlers| == IRQ_COUNT && irq < IRQ_COUNT && s.handlers[irq].None?
    ensures var t := ClaimSpec(s, irq, f).0;
      FreeSpec(t, irq) == (IrqState(s.handlers, s.vmim - {irq}), Ok(()))
  {
    var t := ClaimSpec(s, irq, f).0;
    assert t.handlers[irq := None] == s.handlers;
    assert t.vmim - {irq} == s.vmim - {irq};
  }

  // ----- handle -----

  /** The handler calls `handle` makes among the first `n` interrupts:
      one for each that is pending and claimed, in ascending order. */
  function HandledCalls(handlers: seq<Option<Handler>>, pending: Mask, n: nat): seq<Call>
    requires |handlers| == IRQ_COUNT && n <= IRQ_COUNT
  {
    if n == 0 then []
    else if n - 1 in pending && handlers[n - 1].Some? then
      HandledCalls(handlers, pending, n - 1) + [Call(handlers[n - 1].value, n - 1)]
    else HandledCalls(handlers, pending, n - 1)
  }

  /** The interrupts among the first `n` that are pending but have no
      handler. */
  function Unhandled(handlers: seq<Option<Handler>>, pending: Mask, n: nat): Mask
    requires |handlers| == IRQ_COUNT && n <= IRQ_COUNT
  {
    if n == 0 then {}
    else if n - 1 in pending && handlers[n - 1].None? then
      Unhandled(handlers, pending, n - 1) + {n - 1}
    else Unhandled(handlers, pending, n - 1)
  }

  /** `handle` calls the handler of every pending, claimed interrupt and no
      other, each once, with its own number, in ascending order. */
  lemma {:induction false} HandledCallsMeaning(handlers: seq<Option<Handler>>, pending: Mask, n: nat)
    requires |handlers| == IRQ_COUNT && n <= IRQ_COUNT
    ensures var calls := HandledCalls(handlers, pending, n);
      (forall c :: c in calls <==> c.irq < n && c.irq in pending && handlers[c.irq] == Some(c.handler)) &&
      (forall j, k :: 0 <= j < k < |calls| ==> calls[j].irq < calls[k].irq)
  {
    if n > 0 {
      HandledCallsMeaning(handlers, pending, n - 1);
    }
  }

  /** An interrupt is in `Unhandled` exactly when it is below `n`, pending,
      and has no handler. */
  lemma {:induction false} UnhandledMeaning(handlers: seq<Option<Handler>>, pending: Mask, n: nat)
    requires |handlers| == IRQ_COUNT && n <= IRQ_COUNT
    ensures forall i :: i in Unhandled(handlers, pending, n) <==> i < n && i in pending && handlers[i].None?
  {
    if n > 0 {
      UnhandledMeaning(handlers, pending, n - 1);
    }
  }

  /** After `handle` as written, every pending interrupt that has no
      handler is enabled, although the code means to disable it; every
      other interrupt keeps its enable bit. */
  lemma HandleEnablesUnclaimed(handlers: seq<Option<Handler>>, pending: Mask, vmim: Mask)
    requires |handlers| == IRQ_COUNT
    ensures forall i :: 0 <= i < IRQ_COUNT ==>
      (i in vmim + Unhandled(handlers, pending, IRQ_COUNT) <==> i in vmim || (i in pending && handlers[i].None?))
  {
    UnhandledMeaning(handlers, pending, IRQ_COUNT);
  }

  /** After the corrected `handle`, every pending interrupt that has no
      handler is disabled, and every other interrupt keeps its enable bit. */
  lemma HandleMasksUnclaimed(handlers: seq<Option<Handler>>, pending: Mask, vmim: Mask)
    requires |handlers| == IRQ_COUNT
    ensures forall i :: 0 <= i < IRQ_COUNT ==>
      (i in vmim - Unhandled(handlers, pending, IRQ_COUNT) <==> i in vmim && !(i in pending && handlers[i].None?))
  {
    UnhandledMeaning(handlers, pending, IRQ_COUNT);
  }

  class IrqTable {
    /** `IRQ_HANDLERS`. */
    var handlers: array<Option<Handler>>
    /** The interrupt enable register: an interrupt in it is enabled. */
    var vmim: Mask
    /** The machine interrupt enable bit of `mstatus`. */
    var mie: bool
    /** The handler calls made by `handle`, oldest first. */
    var calls: seq<Call>

    ghost predicate Valid()
      reads this
    {
      handlers.Length == IRQ_COUNT
    }

    function State(): IrqState
      reads this, handlers
    {
      IrqState(handlers[..], vmim)
    }

    /** The table starts empty; the two registers hold whatever the
        hardware left in them. */
    constructor New(vmim: Mask, mie: bool)
      ensures Valid() && fresh(handlers)
      ensures handlers[..] == seq(IRQ_COUNT, _ => None) && this.vmim == vmim && this.mie == mie && calls == []
    {
      handlers := new Option<Handler>[IRQ_COUNT](_ => None);
      this.vmim := vmim;
      this.mie := mie;
      calls := [];
    }

    /** `sys_interrupt_claim`, with the range test corrected; interrupts
        are disabled around the update and enabled again afterwards. */
    method Claim(irq: nat, f: Handler) returns (r: Result<(), XousError>)
      requires Valid()
      modifies this`vmim, this`mie, handlers
      ensures Valid() && mie
      ensures (State(), r) == ClaimSpec(old(State()), irq, f)
    {
      mie := false;
      if irq >= IRQ_COUNT {
        r := Err(InterruptNotFound);
      } else if handlers[irq].Some? {
        r := Err(InterruptInUse);
      } else {
        handlers[irq] := Some(f);
        vmim := vmim + {irq};
        r := Ok(());
      }
      mie := true;
    }

    /** `sys_interrupt_free`, with the range test corrected. */
    method Free(irq: nat) returns (r: Result<(), XousError>)
      requires Valid()
      modifies this`vmim, this`mie, handlers
      ensures Valid() && mie
      ensures (State(), r) == FreeSpec(old(State()), irq)
    {
      mie := false;
      if irq >= IRQ_COUNT {
        r := Err(InterruptNotFound);
      } else {
        handlers[irq] := None;
        vmim := vmim - {irq};
        r := Ok(());
      }
      mie := true;
    }

    /** `handle` as written: call the handler of each pending interrupt in
        ascending order, and OR the bit of a pending interrupt without a
        handler into `vmim`. */
    method Handle(pending: Mask)
      requires Valid()
      modifies this`vmim, this`calls
      ensures calls == old(calls) + HandledCalls(handlers[..], pending, IRQ_COUNT)
      ensures vmim == old(vmim) + Unhandled(handlers[..], pending, IRQ_COUNT)
    {
      for irqNo := 0 to IRQ_COUNT
        invariant calls == old(calls) + HandledCalls(handlers[..], pending, irqNo)
        invariant vmim == old(vmim) + Unhandled(handlers[..], pending, irqNo)
      {
        if irqNo in pending {
          if handlers[irqNo].Some? {
            calls := calls + [Call(handlers[irqNo].value, irqNo)];
          } else {
            vmim := vmim + {irqNo};
          }
        }
      }
    }

    /** `handle` as its comment intends: a pending interrupt without a
        handler is disabled by clearing its bit. */
    method HandleMasking(pending: Mask)
      requires Valid()
      modifies this`vmim, this`calls
      ensures calls == old(calls) + HandledCalls(handlers[..], pending, IRQ_COUNT)
      ensures vmim == old(vmim) - Unhandled(handlers[..], pending, IRQ_COUNT)
    {
      for irqNo := 0 to IRQ_COUNT
        invariant calls == old(calls) + HandledCalls(handlers[..], pending, irqNo)
        invariant vmim == old(vmim) - Unhandled(handlers[..], pending, irqNo)
      {
        if irqNo in pending {
          if handlers[irqNo].Some? {
            calls := calls + [Call(handlers[irqNo].value, irqNo)];
          } else {
            vmim := vmim - {irqNo};
          }
        }
      }
    }
  }
}
