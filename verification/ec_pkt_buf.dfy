/** The EC's older packet queue (sw/src/pkt_buf.rs).

    Up to 20 packets are kept as (start, end) regions of one byte region of
    `PKT_BUF_LEN` bytes. The slots were meant to form a linked list from the
    dequeue end to the enqueue end, but the link write of `get_enqueue_slice` goes to a
    copy returned by `Cell::get`, the enqueue index is set only when it was
    None, and `dequeue` never frees its slot. The model keeps all three, so
    what it proves is what this queue really does: both indices always name
    the first packet of the current run, a `dequeue` empties the queue, and
    every packet ever enqueued keeps its slot. Packet contents are not
    modelled; a `Region` stands for the slice handed out. */
module EcPktBuf {
  import opened Wrappers
  import opened Bits

  const MAX_PTRS: nat := 20
  /** From sw/betrusted-hal/src/mem_locs.rs. */
  const PKT_BUF_LEN: nat := 0x6000

  datatype PktPtr = PktPtr(start: nat, end: nat, nextIndex: Option<nat>)

  /** The slice handed out: `len` bytes of the region from `start`. */
  datatype Region = Region(start: nat, len: nat)

  /** The queue's fields as a value (the byte region aside). */
  datatype Buf = Buf(slots: seq<Option<PktPtr>>, enq: Option<nat>, deq: Option<nat>)

  const EMPTY: Buf := Buf(seq(MAX_PTRS, _ => None), None, None)

  // ---------------------------------------------------------------------
  // Invariant and preconditions

  /** The shape every reachable queue has: both indices name the same
      occupied slot or are both None, no slot carries a link, and every
      region lies inside the byte region. */
  ghost predicate Inv(b: Buf) {
    && |b.slots| == MAX_PTRS
    && b.enq == b.deq
    && (b.enq.Some? ==> b.enq.value < MAX_PTRS && b.slots[b.enq.value].Some?)
    && (forall i :: 0 <= i < |b.slots| && b.slots[i].Some? ==>
          && b.slots[i].value.nextIndex.None?
          && b.slots[i].value.start <= b.slots[i].value.end < PKT_BUF_LEN)
  }

  /** What `get_enqueue_slice` relies on without checking: its `expect`s on
      the enqueue and dequeue slots hold and `len() - alloc_end` does not underflow. */
  predicate EnqueueSafe(b: Buf) {
    && |b.slots| == MAX_PTRS
    && (b.enq.Some? ==> b.enq.value < MAX_PTRS && b.slots[b.enq.value].Some?
                        && b.slots[b.enq.value].value.end <= PKT_BUF_LEN)
    && (b.deq.Some? ==> b.deq.value < MAX_PTRS && b.slots[b.deq.value].Some?)
  }

  /** What `dequeue` and `peek_dequeue_slice` rely on: the dequeue index is
      in range, the `expect` on the enqueue index in `dequeue` holds, and `end - start` of the
      slot it names does not underflow. */
  predicate DequeueSafe(b: Buf) {
    && |b.slots| == MAX_PTRS
    && (b.deq.Some? ==> b.deq.value < MAX_PTRS && b.enq.Some?)
    && (b.deq.Some? && b.slots[b.deq.value].Some? ==>
          b.slots[b.deq.value].value.start <= b.slots[b.deq.value].value.end)
  }

  // ---------------------------------------------------------------------
  // The operations on values

  /** The first free slot at or after `from`, as the slot scan of `get_enqueue_slice` finds it. */
  function FirstFree(slots: seq<Option<PktPtr>>, from: nat): (r: Option<nat>)
    ensures r.Some? ==> from <= r.value < |slots| && slots[r.value].None?
                        && forall i :: from <= i < r.value ==> slots[i].Some?
    ensures r.None? ==> forall i :: from <= i < |slots| ==> slots[i].Some?
    decreases |slots| - from
  {
    if from >= |slots| then None
    else if slots[from].None? then Some(from)
    else FirstFree(slots, from + 1)
  }

  /** The end of the region the enqueue index names, or 0. */
  function AllocEnd(b: Buf): nat
    requires EnqueueSafe(b)
  {
    if b.enq.Some? then b.slots[b.enq.value].value.end else 0
  }

  /** The start of the region the dequeue index names, or 0. */
  function AllocStart(b: Buf): nat
    requires EnqueueSafe(b)
  {
    if b.deq.Some? then b.slots[b.deq.value].value.start else 0
  }

  /** The placement of `get_enqueue_slice`: after `alloc_end` when the packet fits below the end of
      the byte region, else at 0 when it fits below `alloc_start`. */
  function Place(allocEnd: nat, allocStart: nat, len: nat): Option<nat>
    requires allocEnd <= PKT_BUF_LEN
  {
    if len < PKT_BUF_LEN - allocEnd then Some(allocEnd)
    else if len < allocStart then Some(0)
    else None
  }

  /** `get_enqueue_slice(len)`. The slot is filled before the
      check that the enqueue end has no link; the link write changes a copy, so an existing enqueue
      index is left as it is, and each index is set only when it was None. */
  function EnqueueOf(b: Buf, len: nat): (Buf, Option<Region>)
    requires EnqueueSafe(b)
  {
    match FirstFree(b.slots, 0)
    case None => (b, None)
    case Some(idx) =>
      match Place(AllocEnd(b), AllocStart(b), len)
      case None => (b, None)
      case Some(start) =>
        var filled := b.slots[idx := Some(PktPtr(start, start + len, None))];
        if b.enq.Some? && filled[b.enq.value].value.nextIndex.Some? then (b.(slots := filled), None)
        else
          var enq := if b.enq.Some? then b.enq else Some(idx);
          var deq := if b.deq.None? then Some(idx) else b.deq;
          (Buf(filled, enq, deq), Some(Region(start, len)))
  }

  /** `dequeue`: follow the link of the dequeue slot, or, when it has
      none and the enqueue index names the same slot, empty both indices.
      The slot itself is never freed. */
  function DequeueOf(b: Buf): (Buf, bool)
    requires DequeueSafe(b)
  {
    match b.deq
    case None => (b, false)
    case Some(dq) =>
      match b.slots[dq]
      case None => (b, false)
      case Some(ptr) =>
        match ptr.nextIndex
        case Some(next) => (b.(deq := Some(next)), true)
        case None =>
          if b.enq.value != dq then (b, false)
          else (b.(deq := None, enq := None), true)
  }

  /** `peek_dequeue_slice`: the region the dequeue index names, if any. */
  function PeekOf(b: Buf): Option<Region>
    requires DequeueSafe(b)
  {
    match b.deq
    case None => None
    case Some(dq) =>
      match b.slots[dq]
      case None => None
      case Some(ptr) => Some(Region(ptr.start, ptr.end - ptr.start))
  }

  /** The number of occupied slots. */
  function Used(slots: seq<Option<PktPtr>>): nat {
    if slots == [] then 0
    else (if slots[0].Some? then 1 else 0) + Used(slots[1..])
  }

  // ---------------------------------------------------------------------
  // The queue object

  class PktBuf {
    var ptrStorage: array<Option<PktPtr>>
    var enqueueIndex: Option<nat>
    var dequeueIndex: Option<nat>
    /** The `PKT_BUF_LEN`-byte region at `PKT_BUF_BASE`. */
    var rawbuf: array<u8>

    function Snapshot(): Buf
      reads this, ptrStorage
    {
      Buf(ptrStorage[..], enqueueIndex, dequeueIndex)
    }

    ghost predicate Valid()
      reads this, ptrStorage
    {
      ptrStorage.Length == MAX_PTRS && rawbuf.Length == PKT_BUF_LEN && Inv(Snapshot())
    }

    /** `new`: the byte region zeroed, every slot free, no indices. */
    constructor New()
      ensures Valid() && fresh(ptrStorage) && fresh(rawbuf)
      ensures Snapshot() == EMPTY
      ensures forall i :: 0 <= i < rawbuf.Length ==> rawbuf[i] == 0
    {
      var mem := new u8[PKT_BUF_LEN];
      var i := 0;
      while i < mem.Length
        invariant 0 <= i <= mem.Length
        invariant forall j :: 0 <= j < i ==> mem[j] == 0
      {
        mem[i] := 0;
        i := i + 1;
      }
      rawbuf := mem;
      ptrStorage := new Option<PktPtr>[MAX_PTRS](_ => None);
      enqueueIndex, dequeueIndex := None, None;
    }

    /** `get_enqueue_slice(len)`. */
    method GetEnqueueSlice(len: nat) returns (r: Option<Region>)
      requires Valid()
      modifies this, ptrStorage
      ensures Valid() && (Snapshot(), r) == EnqueueOf(old(Snapshot()), len)
      ensures ptrStorage == old(ptrStorage) && rawbuf == old(rawbuf)
    {
      ghost var b := Snapshot();
      InvIsSafe(b);
      EnqueueKeepsInv(b, len);
      var allocEnd := if enqueueIndex.Some? then ptrStorage[enqueueIndex.value].value.end else 0;
      var allocStart := if dequeueIndex.Some? then ptrStorage[dequeueIndex.value].value.start else 0;
      var idx := 0;
      while idx < MAX_PTRS
        invariant 0 <= idx <= MAX_PTRS
        invariant FirstFree(b.slots, 0) == FirstFree(b.slots, idx)
      {
        if ptrStorage[idx].None? {
          var place := Place(allocEnd, allocStart, len);
          if place.None? {
            return None;
          }
          var newpkt := PktPtr(place.value, place.value + len, None);
          ptrStorage[idx] := Some(newpkt);
          if enqueueIndex.Some? {
            if ptrStorage[enqueueIndex.value].value.nextIndex.Some? {
              return None;
            }
          } else {
            enqueueIndex := Some(idx);
          }
          if dequeueIndex.None? {
            dequeueIndex := Some(idx);
          }
          return Some(Region(newpkt.start, len));
        }
        idx := idx + 1;
      }
      return None;
    }

    /** `peek_dequeue_slice`. */
    method PeekDequeueSlice() returns (r: Option<Region>)
      requires Valid()
      ensures r == PeekOf(Snapshot())
    {
      InvIsSafe(Snapshot());
      r := None;
      if dequeueIndex.Some? {
        var p := ptrStorage[dequeueIndex.value];
        if p.Some? {
          r := Some(Region(p.value.start, p.value.end - p.value.start));
        }
      }
    }

    /** `dequeue`. */
    method Dequeue() returns (ok: bool)
      requires Valid()
      modifies this
      ensures Valid() && (Snapshot(), ok) == DequeueOf(old(Snapshot()))
      ensures ptrStorage == old(ptrStorage) && rawbuf == old(rawbuf)
    {
      InvIsSafe(Snapshot());
      DequeueKeepsInv(Snapshot());
      if dequeueIndex.None? {
        return false;
      }
      var dq := dequeueIndex.value;
      if ptrStorage[dq].None? {
        return false;
      }
      // Both branches of `dequeue` move the dequeue index to the link,
      // which is None when there is none; only that case checks `enq`.
      var next := ptrStorage[dq].value.nextIndex;
      if next.None? && enqueueIndex.value != dq {
        return false;
      }
      dequeueIndex := next;
      if next.None? {
        enqueueIndex := None;
      }
      return true;
    }
  }

  // ---------------------------------------------------------------------
  // Properties

  /** The invariant gives every precondition the operations rely on. */
  lemma InvIsSafe(b: Buf)
    requires Inv(b)
    ensures EnqueueSafe(b) && DequeueSafe(b)
  {
  }

  lemma EmptyIsInv()
    ensures Inv(EMPTY) && Used(EMPTY.slots) == 0
  {
    UsedNone(EMPTY.slots);
  }

  lemma {:induction false} UsedNone(s: seq<Option<PktPtr>>)
    requires forall i :: 0 <= i < |s| ==> s[i].None?
    ensures Used(s) == 0
  {
    if s != [] {
      UsedNone(s[1..]);
    }
  }

  /** Every packet the enqueue grants lies inside the byte region, and the
      invariant is kept. */
  lemma EnqueueKeepsInv(b: Buf, len: nat)
    requires Inv(b)
    ensures EnqueueSafe(b)
    ensures Inv(EnqueueOf(b, len).0)
    ensures EnqueueOf(b, len).1.Some? ==> EnqueueOf(b, len).1.value.start + len < PKT_BUF_LEN
  {
  }

  lemma DequeueKeepsInv(b: Buf)
    requires Inv(b)
    ensures DequeueSafe(b)
    ensures Inv(DequeueOf(b).0)
  {
  }

  /** When every one of the 20 slots is occupied, an enqueue returns None
      and changes nothing. */
  lemma FullRefuses(b: Buf, len: nat)
    requires Inv(b) && Used(b.slots) == MAX_PTRS
    ensures EnqueueSafe(b) && EnqueueOf(b, len) == (b, None)
  {
    UsedFull(b.slots);
  }

  lemma {:induction false} UsedFull(s: seq<Option<PktPtr>>)
    requires Used(s) == |s|
    ensures forall i :: 0 <= i < |s| ==> s[i].Some?
  {
    if s != [] {
      UsedBound(s[1..]);
      UsedFull(s[1..]);
      assert forall i :: 1 <= i < |s| ==> s[i] == s[1..][i - 1];
    }
  }

  lemma {:induction false} UsedBound(s: seq<Option<PktPtr>>)
    ensures Used(s) <= |s|
  {
    if s != [] {
      UsedBound(s[1..]);
    }
  }

  lemma {:induction false} UsedFill(s: seq<Option<PktPtr>>, i: nat, p: PktPtr)
    requires i < |s| && s[i].None?
    ensures Used(s[i := Some(p)]) == Used(s) + 1
  {
    if i > 0 {
      assert s[i := Some(p)][1..] == s[1..][i - 1 := Some(p)];
      UsedFill(s[1..], i - 1, p);
    } else {
      assert s[i := Some(p)][1..] == s[1..];
    }
  }

  /** The first packet of an empty queue becomes both the enqueue and the
      dequeue end. */
  lemma FirstEnqueueNamesBoth(b: Buf, len: nat)
    requires Inv(b) && b.enq.None? && EnqueueOf(b, len).1.Some?
    ensures EnqueueSafe(b)
    ensures FirstFree(b.slots, 0).Some?
    ensures EnqueueOf(b, len).0.enq == EnqueueOf(b, len).0.deq == FirstFree(b.slots, 0)
  {
  }

  /** Later enqueues leave both indices on the first packet of the run, so
      the new packet is never linked and every one of them is placed after
      that same first packet (or at 0): the regions handed out overlap. */
  lemma LaterEnqueueKeepsIndices(b: Buf, len: nat)
    requires Inv(b) && b.enq.Some?
    ensures EnqueueSafe(b)
    ensures EnqueueOf(b, len).0.enq == EnqueueOf(b, len).0.deq == b.enq
    ensures AllocEnd(EnqueueOf(b, len).0) == AllocEnd(b)
    ensures EnqueueOf(b, len).1.Some? && len < PKT_BUF_LEN - AllocEnd(b) ==>
              EnqueueOf(b, len).1.value.start == AllocEnd(b)
  {
    EnqueueKeepsInv(b, len);
  }

  /** A dequeue that succeeds always takes the last-entry branch: no slot
      is ever linked, so the queue is emptied whatever was enqueued. */
  lemma DequeueEmpties(b: Buf)
    requires Inv(b)
    ensures DequeueSafe(b)
    ensures DequeueOf(b).1 <==> b.deq.Some?
    ensures DequeueOf(b).1 ==> DequeueOf(b).0 == b.(enq := None, deq := None)
  {
  }

  /** On an empty queue, dequeue returns false and peek returns None. */
  lemma EmptyDequeue(b: Buf)
    requires DequeueSafe(b) && b.deq.None?
    ensures DequeueOf(b) == (b, false) && PeekOf(b).None?
  {
  }

  /** Slots are never given back: a dequeue keeps every slot, and a
      granted enqueue takes one more, so after 20 granted enqueues every
      later one is refused (`FullRefuses`). */
  lemma SlotsLeak(b: Buf, len: nat)
    requires Inv(b)
    ensures DequeueSafe(b) && EnqueueSafe(b)
    ensures DequeueOf(b).0.slots == b.slots
    ensures EnqueueOf(b, len).1.Some? ==> Used(EnqueueOf(b, len).0.slots) == Used(b.slots) + 1
    ensures EnqueueOf(b, len).1.None? ==> EnqueueOf(b, len).0.slots == b.slots
  {
    match FirstFree(b.slots, 0)
    case None =>
    case Some(idx) =>
      match Place(AllocEnd(b), AllocStart(b), len)
      case None =>
      case Some(start) =>
        UsedFill(b.slots, idx, PktPtr(start, start + len, None));
  }

  /** Peek names the packet the dequeue index points at. */
  lemma PeekIsOldest(b: Buf)
    requires Inv(b)
    ensures DequeueSafe(b)
    ensures PeekOf(b).Some? <==> b.deq.Some?
    ensures PeekOf(b).Some? ==>
              PeekOf(b).value.start + PeekOf(b).value.len == b.slots[b.deq.value].value.end
  {
  }
}
