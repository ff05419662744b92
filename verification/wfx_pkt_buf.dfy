/** The WF200 receive packet queue (sw/wfx_rs/src/pkt_buf.rs).

    Up to 32 packets are kept as (start, end) regions of one fixed byte
    region of `PKT_BUF_LEN` bytes. The occupied slots form a singly linked
    list from the dequeue end (oldest) to the enqueue end (newest). A new
    region starts where the newest one ends, or wraps to 0 when it does not
    fit there but fits below the oldest one. Packet contents written and
    read through the returned slices are not modelled; a `Region` stands
    for the slice. */
module WfxPktBuf {
  import opened Wrappers
  import opened Bits

  const MAX_PKTS: nat := 32
  /** From sw/betrusted-hal/src/mem_locs.rs. */
  const PKT_BUF_LEN: nat := 0x6000

  datatype PktPtr = PktPtr(start: nat, end: nat, nextIndex: Option<nat>)

  /** The slice handed out: `len` bytes of the region from `start`. */
  datatype Region = Region(start: nat, len: nat)

  /** The queue's fields as a value (the byte region and `was_init` aside). */
  datatype Buf = Buf(slots: seq<Option<PktPtr>>, enq: Option<nat>, deq: Option<nat>, wasPolled: bool)

  const EMPTY: Buf := Buf(seq(MAX_PKTS, _ => None), None, None, false)

  // ---------------------------------------------------------------------
  // Invariants

  /** Every listed slot number is in range and occupied. */
  ghost predicate Occupied(slots: seq<Option<PktPtr>>, q: seq<nat>) {
    forall k :: 0 <= k < |q| ==> q[k] < |slots| && slots[q[k]].Some?
  }

  /** `q` lists the queued slots from the dequeue end to the enqueue end:
      distinct, occupied, each linked to the next and the last unlinked;
      every occupied slot is queued, and every region ends inside the byte
      region. */
  ghost predicate Queue(b: Buf, q: seq<nat>) {
    && |b.slots| == MAX_PKTS
    && Occupied(b.slots, q)
    && (forall i, j :: 0 <= i < j < |q| ==> q[i] != q[j])
    && (|q| == 0 ==> b.enq.None? && b.deq.None?)
    && (|q| > 0 ==> b.deq == Some(q[0]) && b.enq == Some(q[|q| - 1]))
    && (forall k :: 0 <= k < |q| - 1 ==> b.slots[q[k]].value.nextIndex == Some(q[k + 1]))
    && (|q| > 0 ==> b.slots[q[|q| - 1]].value.nextIndex.None?)
    && (forall i :: 0 <= i < MAX_PKTS && b.slots[i].Some? ==> i in q)
    && (forall i :: 0 <= i < MAX_PKTS && b.slots[i].Some? ==>
          b.slots[i].value.start <= b.slots[i].value.end < PKT_BUF_LEN)
  }

  /** Where the `k`-th queued region starts. */
  ghost function Lo(slots: seq<Option<PktPtr>>, q: seq<nat>, k: nat): nat
    requires Occupied(slots, q) && k < |q|
  {
    slots[q[k]].value.start
  }

  /** Where the `k`-th queued region ends. */
  ghost function Hi(slots: seq<Option<PktPtr>>, q: seq<nat>, k: nat): nat
    requires Occupied(slots, q) && k < |q|
  {
    slots[q[k]].value.end
  }

  /** The queued regions, oldest first, climb through the byte region;
      from position `w` on (when `w < |q|`) they climb again from the
      bottom and stay below the oldest region. `w == |q|` means the queue
      has not wrapped. */
  ghost predicate Climb(slots: seq<Option<PktPtr>>, q: seq<nat>, w: nat)
    requires Occupied(slots, q)
  {
    && w <= |q|
    && (w < |q| ==> 0 < w && Hi(slots, q, |q| - 1) < Lo(slots, q, 0))
    && (forall k :: 0 <= k < |q| - 1 && k + 1 != w ==> Hi(slots, q, k) <= Lo(slots, q, k + 1))
  }

  /** The ring discipline: a well-formed queue whose regions climb. */
  ghost predicate Ring(b: Buf, q: seq<nat>, w: nat) {
    Queue(b, q) && Climb(b.slots, q, w)
  }

  /** No two queued regions share a byte. */
  ghost predicate Disjoint(b: Buf, q: seq<nat>)
    requires Queue(b, q)
  {
    forall i, j :: 0 <= i < j < |q| ==> Hi(b.slots, q, i) <= Lo(b.slots, q, j) || Hi(b.slots, q, j) <= Lo(b.slots, q, i)
  }

  /** What `get_enqueue_slice` relies on without checking: the indices it
      dereferences with `expect` point at occupied slots, a dequeue end
      implies an enqueue end, and `PKT_BUF_LEN - alloc_end` does not
      underflow. */
  predicate EnqueueSafe(b: Buf) {
    && |b.slots| == MAX_PKTS
    && (b.enq.Some? ==> b.enq.value < MAX_PKTS && b.slots[b.enq.value].Some?
                        && b.slots[b.enq.value].value.end <= PKT_BUF_LEN)
    && (b.deq.Some? ==> b.deq.value < MAX_PKTS && b.slots[b.deq.value].Some? && b.enq.Some?)
  }

  /** What `dequeue`, `peek_dequeue_slice` and `poll_new_avail` rely on:
      the dequeue index is in range, `dequeue`'s `expect` on the enqueue
      index holds, and `end - start` of the oldest region does not
      underflow. */
  predicate DequeueSafe(b: Buf) {
    && |b.slots| == MAX_PKTS
    && (b.deq.Some? ==> b.deq.value < MAX_PKTS && b.enq.Some?)
    && (b.deq.Some? && b.slots[b.deq.value].Some? ==>
          b.slots[b.deq.value].value.start <= b.slots[b.deq.value].value.end)
  }

  // ---------------------------------------------------------------------
  // The operations on values

  /** The first free slot at or after `from`, as the `iter_mut` scan finds it. */
  function FirstFree(slots: seq<Option<PktPtr>>, from: nat): (r: Option<nat>)
    ensures r.Some? ==> from <= r.value < |slots| && slots[r.value].None?
                        && forall i :: from <= i < r.value ==> slots[i].Some?
    ensures r.None? ==> forall i :: from <= i < |slots| ==> slots[i].Some?
    decreases |slots| - from
  {
    if from >= |slots| then None
    else if slots[from].None? then Some(from)
    else FirstFree(slots, from + 1)
  }

  /** The end of the newest region, or 0 when the queue is empty. */
  function AllocEnd(b: Buf): nat
    requires EnqueueSafe(b)
  {
    if b.enq.Some? then b.slots[b.enq.value].value.end else 0
  }

  /** The start of the oldest region, or 0 when the queue is empty. */
  function AllocStart(b: Buf): nat
    requires EnqueueSafe(b)
  {
    if b.deq.Some? then b.slots[b.deq.value].value.start else 0
  }

  /** Where `get_enqueue_slice` places a `len`-byte packet: after the newest one
      when it fits below `PKT_BUF_LEN`, else at 0 when it fits below the
      oldest one. After a wrap this lets a packet placed after the newest
      one run over the oldest one (see `WrappedEnqueueOverlaps`). */
  function PlaceAsWritten(allocEnd: nat, allocStart: nat, len: nat): Option<nat>
    requires allocEnd <= PKT_BUF_LEN
  {
    if len < PKT_BUF_LEN - allocEnd then Some(allocEnd)
    else if len < allocStart then Some(0)
    else None
  }

  /** The placement with the wrapped case bounded by the oldest packet:
      once the newest region lies below the oldest one, a new packet must
      also end below the oldest one. */
  function Place(allocEnd: nat, allocStart: nat, len: nat): Option<nat>
    requires allocEnd <= PKT_BUF_LEN
  {
    if allocEnd < allocStart then
      if allocEnd + len < allocStart then Some(allocEnd) else None
    else PlaceAsWritten(allocEnd, allocStart, len)
  }

  /** `get_enqueue_slice(len)` once the placement is chosen. The walk from
      the dequeue end stops at the entry with no link, which the queue
      invariant makes the enqueue end, so the new slot is linked after
      `enq`. The branch that returns None when the enqueue end already has a
      link, after the slot was filled, is kept; `EnqueueKeepsQueue` shows the invariant rules it
      out. Its link write goes to a copy of the entry and has no effect. */
  function EnqueueAt(b: Buf, len: nat, place: Option<nat>): (Buf, Option<Region>)
    requires EnqueueSafe(b)
  {
    var b0 := b.(wasPolled := false);
    match FirstFree(b.slots, 0)
    case None => (b0, None)
    case Some(idx) =>
      match place
      case None => (b0, None)
      case Some(start) =>
        var newpkt := PktPtr(start, start + len, None);
        var filled := b.slots[idx := Some(newpkt)];
        if b.enq.Some? && filled[b.enq.value].value.nextIndex.Some? then (b0.(slots := filled), None)
        else (Appended(b, idx, newpkt), Some(Region(start, len)))
  }

  /** The queue once `newpkt` is stored in slot `idx` and linked after the
      enqueue end, or made the only entry. */
  function Appended(b: Buf, idx: nat, newpkt: PktPtr): Buf
    requires EnqueueSafe(b) && idx < |b.slots|
  {
    var filled := b.slots[idx := Some(newpkt)];
    if b.deq.Some? then
      var tail := filled[b.enq.value].value;
      Buf(filled[b.enq.value := Some(tail.(nextIndex := Some(idx)))], Some(idx), b.deq, false)
    else
      Buf(filled, Some(idx), Some(idx), false)
  }

  /** `get_enqueue_slice(len)` as written. */
  function EnqueueAsWrittenOf(b: Buf, len: nat): (Buf, Option<Region>)
    requires EnqueueSafe(b)
  {
    EnqueueAt(b, len, PlaceAsWritten(AllocEnd(b), AllocStart(b), len))
  }

  /** `get_enqueue_slice(len)` with the corrected placement. */
  function EnqueueOf(b: Buf, len: nat): (Buf, Option<Region>)
    requires EnqueueSafe(b)
  {
    EnqueueAt(b, len, Place(AllocEnd(b), AllocStart(b), len))
  }

  /** `dequeue`: free the oldest slot and move to its successor; the last
      entry empties the queue. */
  function DequeueOf(b: Buf): (Buf, bool)
    requires DequeueSafe(b)
  {
    var b0 := b.(wasPolled := false);
    match b.deq
    case None => (b0, false)
    case Some(dq) =>
      match b.slots[dq]
      case None => (b0, false)
      case Some(ptr) =>
        match ptr.nextIndex
        case Some(next) => (b0.(slots := b.slots[dq := None], deq := Some(next)), true)
        case None =>
          if b.enq.value != dq then (b0, false)
          else (b0.(slots := b.slots[dq := None], deq := None, enq := None), true)
  }

  /** `peek_dequeue_slice`: the oldest region, if any. */
  function PeekOf(b: Buf): Option<Region>
    requires DequeueSafe(b)
  {
    match b.deq
    case None => None
    case Some(dq) =>
      match b.slots[dq]
      case None => None
      case Some(ptr) => Some(Region(ptr.start, ptr.end - ptr.start))
  }

  /** `poll_new_avail`: the oldest region's length cast to 16 bits, once;
      then None until an enqueue or a dequeue clears `was_polled`. */
  function PollOf(b: Buf): (Buf, Option<u16>)
    requires DequeueSafe(b)
  {
    if b.wasPolled then (b, None)
    else
      match PeekOf(b)
      case None => (b, None)
      case Some(r) => (b.(wasPolled := true), Some(r.len % 0x1_0000))
  }

  // ---------------------------------------------------------------------
  // The queue object

  class PktBuf {
    var ptrStorage: array<Option<PktPtr>>
    var enqueueIndex: Option<nat>
    var dequeueIndex: Option<nat>
    var wasPolled: bool
    var wasInit: bool
    /** The `PKT_BUF_LEN`-byte region at `PKT_BUF_BASE`. */
    var mem: array<u8>
    /** The queued slots, oldest first. */
    ghost var queue: seq<nat>
    /** Where the queue wraps (`|queue|` when it has not). */
    ghost var wrap: nat

    function Snapshot(): Buf
      reads this, ptrStorage
    {
      Buf(ptrStorage[..], enqueueIndex, dequeueIndex, wasPolled)
    }

    ghost predicate Valid()
      reads this, ptrStorage
    {
      ptrStorage.Length == MAX_PKTS && mem.Length == PKT_BUF_LEN && Ring(Snapshot(), queue, wrap)
    }

    /** The static initializer (sw/wfx_rs/src/hal_wf200.rs): every slot
        free, no indices, neither polled nor initialised. */
    constructor Empty()
      ensures Valid() && fresh(ptrStorage) && fresh(mem)
      ensures Snapshot() == EMPTY && !wasInit && queue == []
    {
      ptrStorage := new Option<PktPtr>[MAX_PKTS](_ => None);
      enqueueIndex, dequeueIndex := None, None;
      wasPolled, wasInit := false, false;
      mem := new u8[PKT_BUF_LEN];
      queue, wrap := [], 0;
    }

    /** `init`: zero the byte region, on the first call only. */
    method Init()
      requires Valid()
      modifies this, mem
      ensures Valid() && Snapshot() == old(Snapshot()) && queue == old(queue) && wasInit
      ensures ptrStorage == old(ptrStorage) && mem == old(mem)
      ensures old(wasInit) ==> mem[..] == old(mem[..])
      ensures !old(wasInit) ==> forall i :: 0 <= i < mem.Length ==> mem[i] == 0
    {
      if !wasInit {
        var i := 0;
        while i < mem.Length
          invariant 0 <= i <= mem.Length
          invariant forall k :: 0 <= k < i ==> mem[k] == 0
          modifies mem
        {
          mem[i] := 0;
          i := i + 1;
        }
        wasInit := true;
      }
    }

    /** `get_enqueue_slice`, with the corrected placement: the scan for
        a free slot. */
    method GetEnqueueSlice(len: nat) returns (r: Option<Region>)
      requires Valid()
      modifies this, ptrStorage
      ensures Valid() && (Snapshot(), r) == EnqueueOf(old(Snapshot()), len)
      ensures ptrStorage == old(ptrStorage) && mem == old(mem) && wasInit == old(wasInit)
    {
      ghost var b0 := Snapshot();
      QueueIsSafe(b0, queue);
      EnqueueIgnoresPoll(b0, len);
      RingPolled(b0, queue, wrap, false);
      wasPolled := false;
      ghost var b := Snapshot();
      var allocEnd := if enqueueIndex.Some? then ptrStorage[enqueueIndex.value].value.end else 0;
      var allocStart := if dequeueIndex.Some? then ptrStorage[dequeueIndex.value].value.start else 0;
      var idx := 0;
      while idx < MAX_PKTS
        invariant 0 <= idx <= MAX_PKTS && FirstFree(b.slots, 0) == FirstFree(b.slots, idx)
        invariant Valid() && Snapshot() == b
      {
        if ptrStorage[idx].None? {
          r := Store(idx, allocEnd, allocStart, len);
          return;
        }
        idx := idx + 1;
      }
      return None;
    }

    /** The first half of `get_enqueue_slice`: place the packet and store it in the free slot `idx`. */
    method Store(idx: nat, allocEnd: nat, allocStart: nat, len: nat) returns (r: Option<Region>)
      requires Valid() && !wasPolled && EnqueueSafe(Snapshot()) && FirstFree(ptrStorage[..], 0) == Some(idx)
      requires allocEnd == AllocEnd(Snapshot()) && allocStart == AllocStart(Snapshot())
      modifies this, ptrStorage
      ensures Valid() && (Snapshot(), r) == EnqueueOf(old(Snapshot()), len)
      ensures ptrStorage == old(ptrStorage) && mem == old(mem) && wasInit == old(wasInit)
    {
      ghost var b := Snapshot();
      EnqueueKeepsRing(b, queue, wrap, len);
      var place := Place(allocEnd, allocStart, len);
      if place.None? {
        return None;
      }
      var newpkt := PktPtr(place.value, place.value + len, None);
      EnqueueShape(b, queue, len, place);
      assert enqueueIndex.Some? ==> enqueueIndex.value != idx && b.slots[enqueueIndex.value].value.nextIndex.None?;
      ptrStorage[idx] := Some(newpkt);
      assert !(enqueueIndex.Some? && ptrStorage[enqueueIndex.value].value.nextIndex.Some?);
      if enqueueIndex.Some? && ptrStorage[enqueueIndex.value].value.nextIndex.Some? {
        return None;
      }
      Link(b, queue, idx, newpkt, NextWrap(b, queue, wrap, len));
      r := Some(Region(place.value, len));
    }

    /** The second half of `get_enqueue_slice`: make the stored slot the enqueue end and link it
        after the old one (or make it the dequeue end as well). */
    method Link(ghost b: Buf, ghost q: seq<nat>, idx: nat, newpkt: PktPtr, ghost w2: nat)
      requires ptrStorage.Length == MAX_PKTS && mem.Length == PKT_BUF_LEN
      requires Queue(b, q) && queue == q && idx < MAX_PKTS && b.slots[idx].None?
      requires Snapshot() == b.(slots := b.slots[idx := Some(newpkt)]) && !b.wasPolled
      requires Ring(Appended(b, idx, newpkt), q + [idx], w2)
      modifies this, ptrStorage
      ensures Valid() && Snapshot() == Appended(b, idx, newpkt)
      ensures queue == q + [idx] && wrap == w2
      ensures ptrStorage == old(ptrStorage) && mem == old(mem) && wasInit == old(wasInit)
    {
      QueueIsSafe(b, q);
      ghost var after := Appended(b, idx, newpkt);
      enqueueIndex := Some(idx);
      if dequeueIndex.Some? {
        LinkTail(b, q, idx, newpkt);
      } else {
        dequeueIndex := Some(idx);
      }
      queue, wrap := q + [idx], w2;
      ghost var s := Snapshot();
      assert s == after;
      assert Ring(s, queue, wrap);
    }

    /** The walk of `get_enqueue_slice`: follow the links from the dequeue end to
        the entry without one and link it to `idx`. */
    method LinkTail(ghost b: Buf, ghost q: seq<nat>, idx: nat, newpkt: PktPtr)
      requires ptrStorage.Length == MAX_PKTS && Queue(b, q) && |q| > 0
      requires idx < MAX_PKTS && b.slots[idx].None?
      requires ptrStorage[..] == b.slots[idx := Some(newpkt)]
      requires dequeueIndex == b.deq
      modifies ptrStorage
      ensures ptrStorage[..] == old(ptrStorage[..])[q[|q| - 1] := Some(b.slots[q[|q| - 1]].value.(nextIndex := Some(idx)))]
    {
      var searchIdx := dequeueIndex.value;
      ghost var k := 0;
      assert idx !in q;
      while true
        invariant 0 <= k < |q| && searchIdx == q[k]
        invariant ptrStorage[..] == old(ptrStorage[..])
        decreases |q| - k
      {
        match ptrStorage[searchIdx].value.nextIndex {
          case Some(next) =>
            searchIdx := next;
            k := k + 1;
          case None =>
            assert q[k] != idx && ptrStorage[searchIdx] == b.slots[q[k]];
            UnlinkedIsLast(b, q, k);
            var pktCopy := ptrStorage[searchIdx].value.(nextIndex := Some(idx));
            assert pktCopy == b.slots[searchIdx].value.(nextIndex := Some(idx));
            ptrStorage[searchIdx] := Some(pktCopy);
            return;
        }
      }
    }

    /** `peek_dequeue_slice`. */
    method PeekDequeueSlice() returns (r: Option<Region>)
      requires Valid()
      ensures r == PeekOf(Snapshot())
    {
      QueueIsSafe(Snapshot(), queue);
      if dequeueIndex.None? {
        return None;
      }
      match ptrStorage[dequeueIndex.value] {
        case None => r := None;
        case Some(ptr) => r := Some(Region(ptr.start, ptr.end - ptr.start));
      }
    }

    /** `dequeue`. */
    method Dequeue() returns (ok: bool)
      requires Valid()
      modifies this, ptrStorage
      ensures Valid() && (Snapshot(), ok) == DequeueOf(old(Snapshot()))
      ensures ptrStorage == old(ptrStorage) && mem == old(mem) && wasInit == old(wasInit)
    {
      ghost var b, q, w := Snapshot(), queue, wrap;
      DequeueShape(b, q, w);
      wasPolled := false;
      if dequeueIndex.None? {
        ghost var s := Snapshot();
        assert s == b.(wasPolled := false);
        RingPolled(b, q, w, false);
        assert Ring(s, queue, wrap);
        return false;
      }
      var dq := dequeueIndex.value;
      assert ptrStorage[dq].Some?;
      match ptrStorage[dq] {
        case None => return false;
        case Some(ptr) =>
          match ptr.nextIndex {
            case Some(nextDq) =>
              dequeueIndex := Some(nextDq);
            case None =>
              assert enqueueIndex.value == dq;
              if enqueueIndex.value != dq {
                return false;
              }
              dequeueIndex := None;
              enqueueIndex := None;
          }
          Release(b, q, w, dq);
          return true;
      }
    }

    /** The end of `dequeue`: free the old dequeue slot once the indices have moved on. */
    method Release(ghost b: Buf, ghost q: seq<nat>, ghost w: nat, dq: nat)
      requires ptrStorage.Length == MAX_PKTS && mem.Length == PKT_BUF_LEN
      requires Ring(b, q, w) && DequeueSafe(b) && |q| > 0 && dq == q[0]
      requires queue == q && wrap == w && ptrStorage[..] == b.slots
      requires Snapshot() == DequeueOf(b).0.(slots := b.slots)
      modifies this, ptrStorage
      ensures Valid() && Snapshot() == DequeueOf(b).0
      ensures queue == q[1..]
      ensures ptrStorage == old(ptrStorage) && mem == old(mem) && wasInit == old(wasInit)
    {
      DequeueKeepsRing(b, q, w);
      ptrStorage[dq] := None;
      queue, wrap := q[1..], if w == 1 then |q| - 1 else w - 1;
      ghost var s := Snapshot();
      assert s == DequeueOf(b).0;
      assert Ring(s, queue, wrap);
    }

    /** `poll_new_avail`. */
    method PollNewAvail() returns (r: Option<u16>)
      requires Valid()
      modifies this
      ensures Valid() && (Snapshot(), r) == PollOf(old(Snapshot()))
      ensures ptrStorage == old(ptrStorage) && mem == old(mem) && wasInit == old(wasInit)
      ensures queue == old(queue)
    {
      QueueIsSafe(Snapshot(), queue);
      if wasPolled {
        return None;
      }
      var p := PeekDequeueSlice();
      match p {
        case None => r := None;
        case Some(region) =>
          wasPolled := true;
          r := Some(region.len % 0x1_0000);
      }
    }
  }

  // ---------------------------------------------------------------------
  // What the invariants give

  lemma QueueIsSafe(b: Buf, q: seq<nat>)
    requires Queue(b, q)
    ensures EnqueueSafe(b) && DequeueSafe(b)
  {
  }

  /** What `dequeue` finds on a well-formed queue: a dequeue end exactly
      when the queue is non-empty, an occupied slot there, and the enqueue
      end there too when that slot has no link. */
  lemma DequeueShape(b: Buf, q: seq<nat>, w: nat)
    requires Ring(b, q, w)
    ensures DequeueSafe(b) && (b.deq.None? <==> |q| == 0)
    ensures b.deq.Some? ==> b.deq.value == q[0] && b.slots[q[0]].Some?
    ensures b.deq.Some? && b.slots[q[0]].value.nextIndex.None? ==> b.enq == b.deq
  {
    QueueIsSafe(b, q);
    if |q| > 0 && b.slots[q[0]].value.nextIndex.None? {
      UnlinkedIsLast(b, q, 0);
    }
  }

  /** Only the enqueue end has no link. */
  lemma UnlinkedIsLast(b: Buf, q: seq<nat>, k: nat)
    requires Queue(b, q) && k < |q| && b.slots[q[k]].value.nextIndex.None?
    ensures k == |q| - 1
  {
    forall j | 0 <= j < |q| - 1
      ensures b.slots[q[j]].value.nextIndex.Some?
    {
      assert b.slots[q[j]].value.nextIndex == Some(q[j + 1]);
    }
  }

  /** Enqueueing does not depend on `was_polled`. */
  lemma EnqueueIgnoresPoll(b: Buf, len: nat)
    requires EnqueueSafe(b)
    ensures EnqueueSafe(b.(wasPolled := false)) && EnqueueOf(b.(wasPolled := false), len) == EnqueueOf(b, len)
  {
  }

  lemma RingPolled(b: Buf, q: seq<nat>, w: nat, p: bool)
    requires Ring(b, q, w)
    ensures Ring(b.(wasPolled := p), q, w)
  {
  }

  /** The static initializer's state is an empty, unwrapped queue. */
  lemma EmptyIsRing()
    ensures Ring(EMPTY, [], 0)
  {
  }

  /** What `EnqueueAt` does on a well-formed queue: refuse without
      touching the slots, or store and append. */
  lemma EnqueueShape(b: Buf, q: seq<nat>, len: nat, place: Option<nat>)
    requires Queue(b, q)
    ensures EnqueueSafe(b)
    ensures FirstFree(b.slots, 0).None? || place.None? ==> EnqueueAt(b, len, place) == (b.(wasPolled := false), None)
    ensures FirstFree(b.slots, 0).Some? && place.Some? ==>
              EnqueueAt(b, len, place) ==
                (Appended(b, FirstFree(b.slots, 0).value, PktPtr(place.value, place.value + len, None)),
                 Some(Region(place.value, len)))
  {
    if FirstFree(b.slots, 0).Some? && place.Some? && b.enq.Some? {
      assert b.enq.value == q[|q| - 1];
    }
  }

  /** Storing a packet in a free slot and appending it keeps the
      linked-list invariant, with the slot added at the end. */
  lemma {:induction false} AppendedKeepsQueue(b: Buf, q: seq<nat>, idx: nat, newpkt: PktPtr)
    requires Queue(b, q) && idx < MAX_PKTS && b.slots[idx].None?
    requires newpkt.start <= newpkt.end < PKT_BUF_LEN && newpkt.nextIndex.None?
    ensures EnqueueSafe(b) && Queue(Appended(b, idx, newpkt), q + [idx])
  {
    assert idx !in q;
    AppendedLinks(b, q, idx, newpkt);
    AppendedMembers(b, q, idx, newpkt);
  }

  /** After an append every queued slot links to the next one and the new
      slot, at the enqueue end, links nowhere. */
  lemma AppendedLinks(b: Buf, q: seq<nat>, idx: nat, newpkt: PktPtr)
    requires Queue(b, q) && idx < MAX_PKTS && b.slots[idx].None? && idx !in q && newpkt.nextIndex.None?
    ensures EnqueueSafe(b)
    ensures var b', q' := Appended(b, idx, newpkt), q + [idx];
            && Occupied(b'.slots, q')
            && (forall k :: 0 <= k < |q'| - 1 ==> b'.slots[q'[k]].value.nextIndex == Some(q'[k + 1]))
            && b'.slots[q'[|q'| - 1]].value.nextIndex.None?
  {
    var b', q' := Appended(b, idx, newpkt), q + [idx];
    if |q| > 0 {
      var last := q[|q| - 1];
      assert b'.slots[last].value.nextIndex == Some(idx);
      forall k | 0 <= k < |q'| - 1
        ensures b'.slots[q'[k]].value.nextIndex == Some(q'[k + 1])
      {
        if k < |q| - 1 {
          assert q'[k] != last;
        }
      }
    }
  }

  /** After an append the occupied slots are exactly the queued ones, and
      every region still ends inside the byte region. */
  lemma AppendedMembers(b: Buf, q: seq<nat>, idx: nat, newpkt: PktPtr)
    requires Queue(b, q) && idx < MAX_PKTS && b.slots[idx].None? && idx !in q
    requires newpkt.start <= newpkt.end < PKT_BUF_LEN
    ensures EnqueueSafe(b)
    ensures var b', q' := Appended(b, idx, newpkt), q + [idx];
            && (forall i :: 0 <= i < MAX_PKTS && b'.slots[i].Some? ==> i in q')
            && (forall i :: 0 <= i < MAX_PKTS && b'.slots[i].Some? ==>
                  b'.slots[i].value.start <= b'.slots[i].value.end < PKT_BUF_LEN)
  {
    var b', q' := Appended(b, idx, newpkt), q + [idx];
    forall i | 0 <= i < MAX_PKTS && b'.slots[i].Some?
      ensures i in q'
    {
      if i != idx {
        assert b.slots[i].Some?;
      }
    }
  }

  /** Enqueueing keeps the linked-list invariant and appends the first free
      slot; when it refuses, only `was_polled` changes, so the slot-leaking
      branch of `get_enqueue_slice` that finds a link on the enqueue end is
      never taken. Holds for any placement inside
      the byte region. */
  lemma EnqueueKeepsQueue(b: Buf, q: seq<nat>, len: nat, place: Option<nat>)
    requires Queue(b, q)
    requires place.Some? ==> place.value + len < PKT_BUF_LEN
    ensures EnqueueSafe(b)
    ensures EnqueueAt(b, len, place).1.None? ==> EnqueueAt(b, len, place).0 == b.(wasPolled := false)
    ensures EnqueueAt(b, len, place).1.Some? ==>
              FirstFree(b.slots, 0).Some? && Queue(EnqueueAt(b, len, place).0, q + [FirstFree(b.slots, 0).value])
  {
    EnqueueShape(b, q, len, place);
    if FirstFree(b.slots, 0).Some? && place.Some? {
      AppendedKeepsQueue(b, q, FirstFree(b.slots, 0).value, PktPtr(place.value, place.value + len, None));
    }
  }

  /** The wrap position after a successful enqueue: unchanged once wrapped;
      otherwise the new entry either continues the climb or starts the
      wrapped part. */
  ghost function NextWrap(b: Buf, q: seq<nat>, w: nat, len: nat): nat
    requires EnqueueSafe(b)
  {
    if w < |q| then w
    else if Place(AllocEnd(b), AllocStart(b), len) == Some(AllocEnd(b)) then |q| + 1
    else |q|
  }

  /** Orders along one climbing stretch of the ring: for `i < j` in the
      same stretch, region `i` ends at or below where region `j` starts. */
  lemma {:induction false} RingClimb(b: Buf, q: seq<nat>, w: nat, i: nat, j: nat)
    requires Ring(b, q, w) && i < j < |q|
    requires j < w || w <= i
    ensures Hi(b.slots, q, i) <= Lo(b.slots, q, j)
    decreases j - i
  {
    if i + 1 < j {
      RingClimb(b, q, w, i, j - 1);
      assert Lo(b.slots, q, j - 1) <= Hi(b.slots, q, j - 1);
      assert Hi(b.slots, q, j - 1) <= Lo(b.slots, q, j);
    }
  }

  /** The ring discipline keeps every two queued regions apart. */
  lemma RingDisjoint(b: Buf, q: seq<nat>, w: nat)
    requires Ring(b, q, w)
    ensures Disjoint(b, q)
  {
    forall i, j | 0 <= i < j < |q|
      ensures Hi(b.slots, q, i) <= Lo(b.slots, q, j) || Hi(b.slots, q, j) <= Lo(b.slots, q, i)
    {
      if j < w || w <= i {
        RingClimb(b, q, w, i, j);
      } else {
        // i climbs from the oldest region, j lies in the wrapped part
        if i > 0 { RingClimb(b, q, w, 0, i); }
        if j < |q| - 1 { RingClimb(b, q, w, j, |q| - 1); }
      }
    }
  }

  /** The newest region has wrapped below the oldest one exactly when the
      ring has wrapped. */
  lemma RingWrapped(b: Buf, q: seq<nat>, w: nat)
    requires Ring(b, q, w)
    ensures EnqueueSafe(b)
    ensures AllocEnd(b) < AllocStart(b) <==> w < |q|
  {
    if |q| > 1 && w == |q| {
      RingClimb(b, q, w, 0, |q| - 1);
    }
  }

  /** Appending a region to a climbing list keeps it climbing: after the
      newest region when unwrapped (`w2 == |q| + 1`), as the first wrapped
      region below the oldest one (`w2 == |q|`), or after the newest region
      and below the oldest one when already wrapped (`w2 == w`). */
  lemma ClimbAppend(s: seq<Option<PktPtr>>, q: seq<nat>, w: nat, s2: seq<Option<PktPtr>>, idx: nat, w2: nat, start: nat, len: nat)
    requires Occupied(s, q) && Climb(s, q, w) && Occupied(s2, q + [idx])
    requires forall k :: 0 <= k < |q| ==> Lo(s2, q + [idx], k) == Lo(s, q, k) && Hi(s2, q + [idx], k) == Hi(s, q, k)
    requires Lo(s2, q + [idx], |q|) == start && Hi(s2, q + [idx], |q|) == start + len
    requires || (w == |q| && w2 == |q| + 1 && (|q| > 0 ==> Hi(s, q, |q| - 1) <= start))
             || (w == |q| && w2 == |q| && |q| > 0 && start + len < Lo(s, q, 0))
             || (w < |q| && w2 == w && Hi(s, q, |q| - 1) <= start && start + len < Lo(s, q, 0))
    ensures Climb(s2, q + [idx], w2)
  {
    var q' := q + [idx];
    forall k | 0 <= k < |q'| - 1 && k + 1 != w2
      ensures Hi(s2, q', k) <= Lo(s2, q', k + 1)
    {
      if k + 1 < |q| {
        assert Hi(s, q, k) <= Lo(s, q, k + 1);
      }
    }
  }

  /** A placement chosen by `Place` ends inside the byte region. */
  lemma PlaceInside(b: Buf, q: seq<nat>, len: nat)
    requires Queue(b, q)
    ensures EnqueueSafe(b)
    ensures Place(AllocEnd(b), AllocStart(b), len).Some? ==>
              Place(AllocEnd(b), AllocStart(b), len).value + len < PKT_BUF_LEN
  {
  }

  /** Appending moves no queued region. */
  lemma AppendedKeepsRegions(b: Buf, q: seq<nat>, idx: nat, newpkt: PktPtr)
    requires Queue(b, q) && idx < MAX_PKTS && b.slots[idx].None?
    ensures EnqueueSafe(b)
    ensures Occupied(Appended(b, idx, newpkt).slots, q + [idx])
    ensures forall k :: 0 <= k < |q| ==>
              Lo(Appended(b, idx, newpkt).slots, q + [idx], k) == Lo(b.slots, q, k) &&
              Hi(Appended(b, idx, newpkt).slots, q + [idx], k) == Hi(b.slots, q, k)
    ensures Lo(Appended(b, idx, newpkt).slots, q + [idx], |q|) == newpkt.start
    ensures Hi(Appended(b, idx, newpkt).slots, q + [idx], |q|) == newpkt.end
  {
    var s2 := Appended(b, idx, newpkt).slots;
    var q' := q + [idx];
    assert idx !in q;
    forall k | 0 <= k < |q'|
      ensures q'[k] < |s2| && s2[q'[k]].Some?
    {
    }
    forall k | 0 <= k < |q|
      ensures Lo(s2, q', k) == Lo(b.slots, q, k) && Hi(s2, q', k) == Hi(b.slots, q, k)
    {
      assert q'[k] == q[k] != idx;
    }
  }

  /** Appending at the corrected placement keeps the regions climbing. */
  lemma AppendedClimbs(b: Buf, q: seq<nat>, w: nat, idx: nat, start: nat, len: nat)
    requires Ring(b, q, w) && idx < MAX_PKTS && b.slots[idx].None?
    requires EnqueueSafe(b) && Place(AllocEnd(b), AllocStart(b), len) == Some(start)
    ensures Occupied(Appended(b, idx, PktPtr(start, start + len, None)).slots, q + [idx])
    ensures Climb(Appended(b, idx, PktPtr(start, start + len, None)).slots, q + [idx], NextWrap(b, q, w, len))
  {
    var s2 := Appended(b, idx, PktPtr(start, start + len, None)).slots;
    AppendedKeepsRegions(b, q, idx, PktPtr(start, start + len, None));
    RingWrapped(b, q, w);
    var w2 := NextWrap(b, q, w, len);
    if |q| > 0 {
      assert AllocEnd(b) == Hi(b.slots, q, |q| - 1) && AllocStart(b) == Lo(b.slots, q, 0);
    } else {
      assert AllocEnd(b) == 0 && AllocStart(b) == 0;
    }
    ClimbAppend(b.slots, q, w, s2, idx, w2, start, len);
  }

  /** Enqueueing with the corrected placement keeps the ring discipline. */
  lemma EnqueueKeepsRing(b: Buf, q: seq<nat>, w: nat, len: nat)
    requires Ring(b, q, w)
    ensures EnqueueSafe(b)
    ensures EnqueueOf(b, len).1.None? ==> EnqueueOf(b, len).0 == b.(wasPolled := false)
    ensures EnqueueOf(b, len).1.Some? ==>
              FirstFree(b.slots, 0).Some? &&
              Ring(EnqueueOf(b, len).0, q + [FirstFree(b.slots, 0).value], NextWrap(b, q, w, len))
  {
    PlaceInside(b, q, len);
    var place := Place(AllocEnd(b), AllocStart(b), len);
    if FirstFree(b.slots, 0).Some? && place.Some? {
      AppendedKeepsRing(b, q, w, len, FirstFree(b.slots, 0).value, place.value);
    } else {
      EnqueueShape(b, q, len, place);
    }
  }

  /** Storing the new packet at the corrected placement keeps the ring
      discipline. */
  lemma AppendedKeepsRing(b: Buf, q: seq<nat>, w: nat, len: nat, idx: nat, start: nat)
    requires Ring(b, q, w) && FirstFree(b.slots, 0) == Some(idx)
    requires EnqueueSafe(b) && Place(AllocEnd(b), AllocStart(b), len) == Some(start)
    ensures EnqueueOf(b, len).0 == Appended(b, idx, PktPtr(start, start + len, None))
    ensures Ring(Appended(b, idx, PktPtr(start, start + len, None)), q + [idx], NextWrap(b, q, w, len))
  {
    EnqueueShape(b, q, len, Some(start));
    PlaceInside(b, q, len);
    AppendedKeepsQueue(b, q, idx, PktPtr(start, start + len, None));
    AppendedClimbs(b, q, w, idx, start, len);
  }

  /** Dequeueing succeeds exactly when the queue is non-empty, and then
      drops its oldest entry. */
  lemma DequeueKeepsQueue(b: Buf, q: seq<nat>)
    requires Queue(b, q)
    ensures DequeueSafe(b)
    ensures DequeueOf(b).1 <==> |q| > 0
    ensures |q| == 0 ==> DequeueOf(b).0 == b.(wasPolled := false)
    ensures |q| > 0 ==> Queue(DequeueOf(b).0, q[1..])
  {
    if |q| > 0 {
      if |q| > 1 {
        assert b.slots[q[0]].value.nextIndex == Some(q[1]);
      }
      var b' := DequeueOf(b).0;
      assert b'.slots == b.slots[q[0] := None];
      assert b'.deq == (if |q| > 1 then Some(q[1]) else None);
      assert b'.enq == (if |q| > 1 then b.enq else None);
      DroppedOldest(b, q, b');
    }
  }

  /** Freeing the oldest slot and moving the dequeue end to its successor
      leaves a queue of the rest. */
  lemma DroppedOldest(b: Buf, q: seq<nat>, b': Buf)
    requires Queue(b, q) && |q| > 0 && b'.slots == b.slots[q[0] := None]
    requires b'.deq == (if |q| > 1 then Some(q[1]) else None)
    requires b'.enq == (if |q| > 1 then b.enq else None)
    ensures Queue(b', q[1..])
  {
    var q' := q[1..];
    forall k | 0 <= k < |q'|
      ensures q'[k] != q[0]
    {
      assert q'[k] == q[k + 1];
    }
    DroppedMembers(b, q, b');
  }

  /** After the oldest slot is freed, every occupied slot is among the rest. */
  lemma DroppedMembers(b: Buf, q: seq<nat>, b': Buf)
    requires Queue(b, q) && |q| > 0 && b'.slots == b.slots[q[0] := None]
    ensures forall i :: 0 <= i < MAX_PKTS && b'.slots[i].Some? ==> i in q[1..]
  {
    var q' := q[1..];
    forall i | 0 <= i < MAX_PKTS && b'.slots[i].Some?
      ensures i in q'
    {
      assert b.slots[i].Some? && i != q[0];
      assert i in q;
      var k :| 0 <= k < |q| && q[k] == i;
      assert q'[k - 1] == i;
    }
  }

  /** Dequeueing keeps the ring discipline. */
  lemma DequeueKeepsRing(b: Buf, q: seq<nat>, w: nat)
    requires Ring(b, q, w)
    ensures DequeueSafe(b)
    ensures DequeueOf(b).1 <==> |q| > 0
    ensures |q| == 0 ==> DequeueOf(b).0 == b.(wasPolled := false)
    ensures |q| > 0 ==> Ring(DequeueOf(b).0, q[1..], if w == 1 then |q| - 1 else w - 1)
  {
    DequeueKeepsQueue(b, q);
    if |q| > 0 {
      var b' := DequeueOf(b).0;
      var q' := q[1..];
      forall k | 0 <= k < |q'|
        ensures Lo(b'.slots, q', k) == Lo(b.slots, q, k + 1) && Hi(b'.slots, q', k) == Hi(b.slots, q, k + 1)
      {
        assert q'[k] != q[0];
      }
      if 1 < w < |q| {
        RingClimb(b, q, w, 0, 1);
      }
    }
  }

  /** A granted region lies inside the byte region and shares no byte with
      any packet still queued. */
  lemma EnqueueDisjoint(b: Buf, q: seq<nat>, w: nat, len: nat, start: nat)
    requires Ring(b, q, w)
    requires EnqueueSafe(b) && EnqueueOf(b, len).1 == Some(Region(start, len))
    ensures start + len < PKT_BUF_LEN
    ensures forall k :: 0 <= k < |q| ==> start + len <= Lo(b.slots, q, k) || Hi(b.slots, q, k) <= start
  {
    var place := Place(AllocEnd(b), AllocStart(b), len);
    PlaceInside(b, q, len);
    EnqueueShape(b, q, len, place);
    var idx := FirstFree(b.slots, 0).value;
    var ptr := PktPtr(start, start + len, None);
    AppendedKeepsRing(b, q, w, len, idx, start);
    AppendedKeepsRegions(b, q, idx, ptr);
    var b', q' := Appended(b, idx, ptr), q + [idx];
    RingDisjoint(b', q', NextWrap(b, q, w, len));
    forall k | 0 <= k < |q|
      ensures start + len <= Lo(b.slots, q, k) || Hi(b.slots, q, k) <= start
    {
      assert Hi(b'.slots, q', k) <= Lo(b'.slots, q', |q|) || Hi(b'.slots, q', |q|) <= Lo(b'.slots, q', k);
    }
  }

  /** A full set of slots refuses every packet. */
  lemma FullRefuses(b: Buf, q: seq<nat>, len: nat)
    requires Queue(b, q) && |q| == MAX_PKTS
    ensures EnqueueSafe(b) && EnqueueOf(b, len) == (b.(wasPolled := false), None)
  {
    forall i | 0 <= i < MAX_PKTS
      ensures b.slots[i].Some?
    {
      PigeonholeQueued(q, i);
    }
  }

  /** The slot numbers, in order. */
  const SLOT_IDS: seq<nat> := seq(MAX_PKTS, i => i)

  /** The slot numbers a list mentions. */
  ghost function Members(q: seq<nat>): set<nat> {
    set k | k in q
  }

  /** 32 distinct slot numbers below 32 take every slot number. */
  lemma PigeonholeQueued(q: seq<nat>, i: nat)
    requires |q| == MAX_PKTS && i < MAX_PKTS
    requires forall k :: 0 <= k < |q| ==> q[k] < MAX_PKTS
    requires forall a, c :: 0 <= a < c < |q| ==> q[a] != q[c]
    ensures i in q
  {
    var all := Members(SLOT_IDS);
    DistinctSize(SLOT_IDS);
    DistinctSize(q);
    if i !in q {
      assert SLOT_IDS[i] == i;
      forall k | k in Members(q)
        ensures k in all - {i}
      {
        assert SLOT_IDS[k] == k;
      }
      assert i in all && all == (all - {i}) + {i};
      SubsetSize(Members(q), all - {i});
      assert false;
    }
  }

  /** A list without repeats has as many members as entries. */
  lemma {:induction false} DistinctSize(q: seq<nat>)
    requires forall a, c :: 0 <= a < c < |q| ==> q[a] != q[c]
    ensures |Members(q)| == |q|
  {
    if |q| > 0 {
      var q0 := q[..|q| - 1];
      var last := q[|q| - 1];
      DistinctSize(q0);
      assert q == q0 + [last];
      assert last !in Members(q0);
      assert Members(q) == Members(q0) + {last};
    }
  }

  lemma SubsetSize(a: set<nat>, c: set<nat>)
    requires a <= c
    ensures |a| <= |c|
  {
    assert c == a + (c - a);
  }

  /** Peeking shows the oldest queued region without changing anything. */
  lemma PeekIsOldest(b: Buf, q: seq<nat>)
    requires Queue(b, q)
    ensures DequeueSafe(b)
    ensures PeekOf(b).None? <==> |q| == 0
    ensures |q| > 0 ==> PeekOf(b) == Some(Region(Lo(b.slots, q, 0), Hi(b.slots, q, 0) - Lo(b.slots, q, 0)))
  {
  }

  /** A poll reports the oldest packet's exact length (the 16-bit cast
      never truncates) and then stays silent until an enqueue or a dequeue. */
  lemma PollOnce(b: Buf, q: seq<nat>)
    requires Queue(b, q)
    ensures DequeueSafe(b) && DequeueSafe(PollOf(b).0) && Queue(PollOf(b).0, q)
    ensures PollOf(b).1.Some? <==> !b.wasPolled && |q| > 0
    ensures PollOf(b).1.Some? ==> PollOf(b).1.value == Hi(b.slots, q, 0) - Lo(b.slots, q, 0)
    ensures PollOf(PollOf(b).0).1.None?
  {
    PeekIsOldest(b, q);
  }

  /** Enqueueing and dequeueing re-arm the poll. */
  lemma PollRearmed(b: Buf, q: seq<nat>, len: nat)
    requires Queue(b, q)
    ensures EnqueueSafe(b) && DequeueSafe(b)
    ensures !EnqueueOf(b, len).0.wasPolled && !DequeueOf(b).0.wasPolled
  {
  }

  // ---------------------------------------------------------------------
  // The placement as written lets a packet overwrite a queued one

  /** The scan from slot 0 finds slot `k` when it is the first free one. */
  lemma FirstFreeIs(slots: seq<Option<PktPtr>>, k: nat)
    requires k < |slots| && slots[k].None? && forall i :: 0 <= i < k ==> slots[i].Some?
    ensures FirstFree(slots, 0) == Some(k)
  {
  }

  /** A wrapped queue of three packets: the oldest holds 0x3000..0x5F00
      (slot 1), the middle one 0..0x200 (slot 0) and the newest
      0x200..0x1200 (slot 2). */
  const WRAPPED: Buf := Buf(
    [Some(PktPtr(0, 0x200, Some(2))), Some(PktPtr(0x3000, 0x5F00, Some(0))), Some(PktPtr(0x200, 0x1200, None))]
      + seq(29, _ => None),
    Some(2), Some(1), false)

  /** `WRAPPED` satisfies the ring invariant and is what the queue holds
      after, from empty: enqueue 0x3000 bytes (slot 0 at 0) and 0x2F00
      bytes (slot 1 at 0x3000), dequeue slot 0, enqueue 0x200 bytes (slot 0,
      wrapped to 0) and 0x1000 bytes (slot 2 at 0x200); both placements
      make the same choices on the way. */
  lemma WrappedReachable()
    ensures Ring(WRAPPED, [1, 0, 2], 1)
    ensures var b1 := EnqueueAsWrittenOf(EMPTY, 0x3000).0;
            && EnqueueSafe(b1)
            && var b2 := EnqueueAsWrittenOf(b1, 0x2F00).0;
            && DequeueSafe(b2)
            && var b3 := DequeueOf(b2).0;
            && EnqueueSafe(b3)
            && var b4 := EnqueueAsWrittenOf(b3, 0x200).0;
            && EnqueueSafe(b4)
            && EnqueueAsWrittenOf(b4, 0x1000).0 == WRAPPED
    ensures var b1 := EnqueueOf(EMPTY, 0x3000).0;
            && EnqueueSafe(b1)
            && var b2 := EnqueueOf(b1, 0x2F00).0;
            && DequeueSafe(b2)
            && var b3 := DequeueOf(b2).0;
            && EnqueueSafe(b3)
            && var b4 := EnqueueOf(b3, 0x200).0;
            && EnqueueSafe(b4)
            && EnqueueOf(b4, 0x1000).0 == WRAPPED
  {
    WrapRing();
    WrapStep1();
    WrapStep2();
    WrapStep3();
    WrapStep4();
    WrapStep5();
  }

  // The states on the way to `WRAPPED`.
  const WRAP1: Buf := Buf([Some(PktPtr(0, 0x3000, None)), None, None] + seq(29, _ => None), Some(0), Some(0), false)
  const WRAP2: Buf := Buf([Some(PktPtr(0, 0x3000, Some(1))), Some(PktPtr(0x3000, 0x5F00, None)), None] + seq(29, _ => None), Some(1), Some(0), false)
  const WRAP3: Buf := Buf([None, Some(PktPtr(0x3000, 0x5F00, None)), None] + seq(29, _ => None), Some(1), Some(1), false)
  const WRAP4: Buf := Buf([Some(PktPtr(0, 0x200, None)), Some(PktPtr(0x3000, 0x5F00, Some(0))), None] + seq(29, _ => None), Some(0), Some(1), false)

  lemma WrapRing()
    ensures Ring(WRAPPED, [1, 0, 2], 1)
  {
  }

  lemma WrapStep1()
    ensures EnqueueSafe(WRAP1) && EnqueueAsWrittenOf(EMPTY, 0x3000).0 == EnqueueOf(EMPTY, 0x3000).0 == WRAP1
  {
    FirstFreeIs(EMPTY.slots, 0);
  }

  lemma WrapStep2()
    ensures DequeueSafe(WRAP2) && EnqueueAsWrittenOf(WRAP1, 0x2F00).0 == EnqueueOf(WRAP1, 0x2F00).0 == WRAP2
  {
    FirstFreeIs(WRAP1.slots, 1);
  }

  lemma WrapStep3()
    ensures EnqueueSafe(WRAP3) && DequeueOf(WRAP2).0 == WRAP3
  {
  }

  lemma WrapStep4()
    ensures EnqueueSafe(WRAP4) && EnqueueAsWrittenOf(WRAP3, 0x200).0 == EnqueueOf(WRAP3, 0x200).0 == WRAP4
  {
    FirstFreeIs(WRAP3.slots, 0);
  }

  lemma WrapStep5()
    ensures EnqueueAsWrittenOf(WRAP4, 0x1000).0 == EnqueueOf(WRAP4, 0x1000).0 == WRAPPED
  {
    FirstFreeIs(WRAP4.slots, 2);
  }

  /** As written, enqueueing 0x3000 bytes into `WRAPPED` places them in
      slot 3 at 0x1200..0x4200, over the oldest packet's 0x3000..0x5F00;
      the corrected placement refuses. */
  lemma WrappedEnqueueOverlaps()
    ensures EnqueueSafe(WRAPPED)
    ensures EnqueueAsWrittenOf(WRAPPED, 0x3000).1 == Some(Region(0x1200, 0x3000))
    ensures 0x1200 < 0x3000 < 0x1200 + 0x3000
    ensures EnqueueOf(WRAPPED, 0x3000).1.None?
  {
    FirstFreeIs(WRAPPED.slots, 3);
  }
}
