/** The host side of the WF200 Wi-Fi driver (sw/wfx_rs/src/hal_wf200.rs):
    the four-slot buffer allocator the vendor driver calls, the
    read-and-clear event flags, the scan-result log and the event-payload
    copy.

    The file keeps this state in `static mut` globals; here they are the
    fields of `Wf200`. What the vendor driver or the radio answers (the
    status of a call, a signal reading, a scan result) is passed in. */
module HalWf200 {
  import opened Wrappers
  import opened Bits
  import Wlan

  // ---------------------------------------------------------------------
  // Constants

  /** Where the allocator's RAM starts and how long it is (mem_locs.rs). */
  const WFX_RAM_OFFSET: nat := 0x1001_8000
  const WFX_RAM_LENGTH: nat := 0x2000
  const WFX_MAX_PTRS: nat := 4
  const WFX_ALLOC_MAXLEN: nat := WFX_RAM_LENGTH / WFX_MAX_PTRS

  const SSID_ARRAY_SIZE: nat := 8
  /** One scan entry: signal, SSID length, 32 bytes of SSID. */
  const SSID_ENTRY_LEN: nat := 34
  const EVENT_PAYLOAD_LEN: nat := 512
  const PDS_MAX_LEN: nat := 256

  datatype Status = StatusOk | AllocationFailed | Failed(code: nat)

  datatype LinkState = Unknown | ResetHold | Uninitialized | Initializing | Disconnected | Connecting | Connected | WFXError

  datatype ConnectResult = Pending | Success | NoMatchingAp | Aborted | Timeout | Reject | AuthFail | Error

  // ---------------------------------------------------------------------
  // The allocator as functions of the slot list

  /** The first index from `i` on where `list` holds `v`. */
  function FirstIndexFrom(list: seq<nat>, v: nat, i: nat): (r: Option<nat>)
    requires i <= |list|
    ensures r.Some? ==> i <= r.value < |list| && list[r.value] == v
                        && forall j :: i <= j < r.value ==> list[j] != v
    ensures r.None? ==> forall j :: i <= j < |list| ==> list[j] != v
    decreases |list| - i
  {
    if i == |list| then None
    else if list[i] == v then Some(i)
    else FirstIndexFrom(list, v, i + 1)
  }

  function FirstIndex(list: seq<nat>, v: nat): Option<nat> {
    FirstIndexFrom(list, v, 0)
  }

  /** The address slot `i` hands out. */
  function SlotAddress(i: nat): nat {
    WFX_RAM_OFFSET + i * WFX_ALLOC_MAXLEN
  }

  /** The number of free (zero) slots. */
  function FreeCount(list: seq<nat>): nat {
    if list == [] then 0
    else FreeCount(list[..|list| - 1]) + (if list[|list| - 1] == 0 then 1 else 0)
  }

  /** Every slot is free or holds the address that belongs to it. */
  predicate WellFormed(list: seq<nat>) {
    |list| == WFX_MAX_PTRS && forall i :: 0 <= i < |list| ==> list[i] == 0 || list[i] == SlotAddress(i)
  }

  datatype AllocOutcome = Oversize | NoSlot | Granted(slot: nat, addr: nat)

  /** What `sl_wfx_host_allocate_buffer` does with a request of `size`
      bytes: too large, no free slot, or the first free slot. */
  function AllocOf(list: seq<nat>, size: nat): AllocOutcome {
    if size > WFX_ALLOC_MAXLEN then Oversize
    else match FirstIndex(list, 0)
      case None => NoSlot
      case Some(i) => Granted(i, SlotAddress(i))
  }

  /** The slot scans of `sl_wfx_host_allocate_buffer` and
      `sl_wfx_host_free_buffer` as written: the slot is read
      before the index is checked, so a search that runs off the end reads
      past the array and panics (None). */
  function ScanAsWritten(list: seq<nat>, v: nat, i: nat): Option<nat>
    requires i <= |list|
    decreases |list| - i
  {
    if i >= |list| then None
    else if list[i] != v && i < WFX_MAX_PTRS then ScanAsWritten(list, v, i + 1)
    else Some(i)
  }

  // ---------------------------------------------------------------------
  // The driver's globals

  class Wf200 {
    var ptrList: array<nat>
    var oversizeCount: nat
    var allocFails: nat

    var packetsDropped: u32
    var droppedUpdated: bool
    var currentStatus: LinkState
    var disconnectPending: bool
    var connectResult: ConnectResult
    var wfxErrPending: bool

    var scanUpdate: bool
    var scanFinished: bool
    var ssidArray: array2<u8>
    var ssidIndex: nat
    var bestRssi: Option<u8>

    var eventBuffer: array<u8>
    var waitedEventId: u8
    var postedEventId: u8

    ghost predicate Valid()
      reads this
    {
      ptrList.Length == WFX_MAX_PTRS && ssidArray.Length0 == SSID_ARRAY_SIZE
      && ssidArray.Length1 == SSID_ENTRY_LEN && eventBuffer.Length == EVENT_PAYLOAD_LEN
    }

    /** The initial values of the globals. */
    constructor New()
      ensures Valid() && fresh(ptrList) && fresh(ssidArray) && fresh(eventBuffer)
      ensures ptrList[..] == [0, 0, 0, 0] && oversizeCount == 0 && allocFails == 0
      ensures packetsDropped == 0 && !droppedUpdated && currentStatus == Unknown
      ensures !disconnectPending && connectResult == Pending && !wfxErrPending
      ensures !scanUpdate && !scanFinished && ssidIndex == 0 && bestRssi == None
      ensures forall k, j :: 0 <= k < SSID_ARRAY_SIZE && 0 <= j < SSID_ENTRY_LEN ==> ssidArray[k, j] == 0
      ensures eventBuffer[..] == seq(EVENT_PAYLOAD_LEN, _ => 0) && waitedEventId == 0 && postedEventId == 0
    {
      ptrList := new nat[WFX_MAX_PTRS](_ => 0);
      oversizeCount, allocFails := 0, 0;
      packetsDropped, droppedUpdated := 0, false;
      currentStatus, disconnectPending, connectResult, wfxErrPending := Unknown, false, Pending, false;
      scanUpdate, scanFinished := false, false;
      ssidArray := new u8[SSID_ARRAY_SIZE, SSID_ENTRY_LEN]((_, _) => 0);
      ssidIndex, bestRssi := 0, None;
      eventBuffer := new u8[EVENT_PAYLOAD_LEN](_ => 0);
      waitedEventId, postedEventId := 0, 0;
      new;
      assert ptrList[..] == [0, 0, 0, 0];
    }

    // -------------------------------------------------------------------
    // The allocator

    /** `alloc_free_count`. */
    method AllocFreeCount() returns (count: nat)
      requires Valid()
      ensures count == FreeCount(ptrList[..])
    {
      count := 0;
      for i := 0 to ptrList.Length
        invariant count == FreeCount(ptrList[..i])
      {
        assert ptrList[..i + 1][..i] == ptrList[..i];
        if ptrList[i] == 0 {
          count := count + 1;
        }
      }
      assert ptrList[..ptrList.Length] == ptrList[..];
    }

    /** `sl_wfx_host_allocate_buffer`, with the scan's bound checked before
        the slot is read. */
    method AllocateBuffer(size: u32) returns (status: Status, buffer: Option<nat>)
      requires Valid()
      modifies this`oversizeCount, this`allocFails, ptrList
      ensures var out := AllocOf(old(ptrList[..]), size);
              (status == StatusOk <==> out.Granted?) && (status != StatusOk ==> status == AllocationFailed)
              && (out.Granted? ==> buffer == Some(out.addr) && ptrList[..] == old(ptrList[..])[out.slot := out.addr])
              && (!out.Granted? ==> buffer == None && ptrList[..] == old(ptrList[..]))
              && oversizeCount == old(oversizeCount) + (if out.Oversize? then 1 else 0)
              && allocFails == old(allocFails) + (if out.NoSlot? then 1 else 0)
    {
      if size as nat > WFX_ALLOC_MAXLEN {
        oversizeCount := oversizeCount + 1;
        return AllocationFailed, None;
      }
      var i := 0;
      while i < WFX_MAX_PTRS && ptrList[i] != 0
        invariant 0 <= i <= WFX_MAX_PTRS
        invariant forall j :: 0 <= j < i ==> ptrList[j] != 0
      {
        i := i + 1;
      }
      if i == WFX_MAX_PTRS {
        allocFails := allocFails + 1;
        return AllocationFailed, None;
      }
      ptrList[i] := WFX_RAM_OFFSET + i * WFX_ALLOC_MAXLEN;
      buffer := Some(ptrList[i]);
      status := StatusOk;
    }

    /** `sl_wfx_host_free_buffer`, with the scan's bound checked before the
        slot is read: the first slot holding `addr` is freed; an address
        no slot holds fails and changes nothing. */
    method FreeBuffer(addr: nat) returns (status: Status)
      requires Valid()
      modifies ptrList
      ensures var found := FirstIndex(old(ptrList[..]), addr);
              (status == StatusOk <==> found.Some?) && (status != StatusOk ==> status == AllocationFailed)
              && (found.Some? ==> ptrList[..] == old(ptrList[..])[found.value := 0])
              && (found.None? ==> ptrList[..] == old(ptrList[..]))
    {
      var i := 0;
      while i < WFX_MAX_PTRS && ptrList[i] != addr
        invariant 0 <= i <= WFX_MAX_PTRS
        invariant forall j :: 0 <= j < i ==> ptrList[j] != addr
      {
        i := i + 1;
      }
      if i == WFX_MAX_PTRS {
        return AllocationFailed;
      }
      ptrList[i] := 0;
      status := StatusOk;
    }

    /** `WFX_PTR_LIST = [0; WFX_MAX_PTRS]`. */
    method ClearSlots()
      requires Valid()
      modifies ptrList
      ensures ptrList[..] == [0, 0, 0, 0]
    {
      forall i | 0 <= i < ptrList.Length {
        ptrList[i] := 0;
      }
      assert ptrList[..] == [0, 0, 0, 0];
    }

    /** `sl_wfx_host_init`: free every slot and clear the posted event and
        the event payload. */
    method HostInit() returns (status: Status)
      requires Valid()
      modifies ptrList, eventBuffer, this`postedEventId
      ensures status == StatusOk && ptrList[..] == [0, 0, 0, 0] && postedEventId == 0
      ensures eventBuffer[..] == seq(EVENT_PAYLOAD_LEN, _ => 0)
    {
      ClearSlots();
      postedEventId := 0;
      ClearEventBuffer();
      status := StatusOk;
    }

    /** `sl_wfx_host_deinit`: free every slot. */
    method HostDeinit() returns (status: Status)
      requires Valid()
      modifies ptrList
      ensures status == StatusOk && ptrList[..] == [0, 0, 0, 0]
    {
      ClearSlots();
      status := StatusOk;
    }

    /** `sl_wfx_host_reset_chip`: free every slot and reset the link, the
        pending flags and the driver contexts. The scan log is kept. */
    method ResetChip() returns (status: Status)
      requires Valid()
      modifies ptrList, eventBuffer, this`wfxErrPending, this`currentStatus, this`disconnectPending
      modifies this`droppedUpdated, this`connectResult, this`scanUpdate, this`scanFinished
      modifies this`waitedEventId, this`postedEventId
      ensures status == StatusOk && ptrList[..] == [0, 0, 0, 0]
      ensures !wfxErrPending && currentStatus == Uninitialized && !disconnectPending && !droppedUpdated
      ensures connectResult == Pending && !scanUpdate && !scanFinished
      ensures waitedEventId == 0 && postedEventId == 0 && eventBuffer[..] == seq(EVENT_PAYLOAD_LEN, _ => 0)
    {
      ClearSlots();
      ResetFlags();
      ClearEventBuffer();
      status := StatusOk;
    }

    method ResetFlags()
      modifies this`wfxErrPending, this`currentStatus, this`disconnectPending
      modifies this`droppedUpdated, this`connectResult, this`scanUpdate, this`scanFinished
      modifies this`waitedEventId, this`postedEventId
      ensures !wfxErrPending && currentStatus == Uninitialized && !disconnectPending && !droppedUpdated
      ensures connectResult == Pending && !scanUpdate && !scanFinished
      ensures waitedEventId == 0 && postedEventId == 0
    {
      wfxErrPending := false;
      currentStatus := Uninitialized;
      disconnectPending := false;
      droppedUpdated := false;
      connectResult := Pending;
      scanUpdate := false;
      scanFinished := false;
      waitedEventId, postedEventId := 0, 0;
    }

    method ClearEventBuffer()
      requires Valid()
      modifies eventBuffer
      ensures eventBuffer[..] == seq(EVENT_PAYLOAD_LEN, _ => 0)
    {
      forall i | 0 <= i < eventBuffer.Length {
        eventBuffer[i] := 0;
      }
    }

    // -------------------------------------------------------------------
    // Read-and-clear flags

    /** `drop_packet`: count a dropped packet (wrapping at 2^32) and flag it. */
    method DropPacket()
      modifies this`packetsDropped, this`droppedUpdated
      ensures packetsDropped == (old(packetsDropped) + 1) % 0x1_0000_0000 && droppedUpdated
    {
      packetsDropped := (packetsDropped + 1) % 0x1_0000_0000;
      droppedUpdated := true;
    }

    /** `get_packets_dropped`: the count, which also clears the flag. */
    method GetPacketsDropped() returns (n: u32)
      modifies this`droppedUpdated
      ensures n == packetsDropped && !droppedUpdated
    {
      droppedUpdated := false;
      n := packetsDropped;
    }

    /** `poll_new_dropped`. */
    method PollNewDropped() returns (r: bool)
      modifies this`droppedUpdated
      ensures r == old(droppedUpdated) && !droppedUpdated
    {
      if droppedUpdated {
        droppedUpdated := false;
        r := true;
      } else {
        r := false;
      }
    }

    /** `poll_disconnect_pending`. */
    method PollDisconnectPending() returns (r: bool)
      modifies this`disconnectPending
      ensures r == old(disconnectPending) && !disconnectPending
    {
      r := disconnectPending;
      disconnectPending := false;
    }

    /** `poll_connect_result`: the result, which goes back to Pending. */
    method PollConnectResult() returns (r: ConnectResult)
      modifies this`connectResult
      ensures r == old(connectResult) && connectResult == Pending
    {
      r := connectResult;
      connectResult := Pending;
    }

    /** `poll_wfx_err_pending`. */
    method PollWfxErrPending() returns (r: bool)
      modifies this`wfxErrPending
      ensures r == old(wfxErrPending) && !wfxErrPending
    {
      r := wfxErrPending;
      wfxErrPending := false;
    }

    /** `poll_scan_updated`. */
    method PollScanUpdated() returns (r: bool)
      modifies this`scanUpdate
      ensures r == old(scanUpdate) && !scanUpdate
    {
      r := scanUpdate;
      scanUpdate := false;
    }

    /** `poll_scan_finished`. */
    method PollScanFinished() returns (r: bool)
      modifies this`scanFinished
      ensures r == old(scanFinished) && !scanFinished
    {
      r := scanFinished;
      scanFinished := false;
    }

    // -------------------------------------------------------------------
    // The scan log

    /** `sl_wfx_scan_result_callback` for one result: `ssid` holds the
        `ssid_length` bytes the radio reported and `dbm` the value computed
        from its RCPI. A hidden SSID is ignored. Otherwise the
        current entry gets the signal (255 when it does not fit a byte),
        the length and, when the SSID is valid UTF-8, its bytes (at most
        32); the index moves on modulo 8 and the best signal (the smallest
        byte) is kept. */
    method ScanResult(ssid: seq<u8>, dbm: nat)
      requires Valid()
      modifies ssidArray, this`ssidIndex, this`bestRssi, this`scanUpdate
      ensures Hidden(ssid) ==> unchanged(ssidArray) && ssidIndex == old(ssidIndex) && bestRssi == old(bestRssi)
                                && scanUpdate == old(scanUpdate)
      ensures !Hidden(ssid) ==>
                var k := if old(ssidIndex) >= SSID_ARRAY_SIZE then 0 else old(ssidIndex);
                && ssidIndex == (k + 1) % SSID_ARRAY_SIZE
                && bestRssi == Some(BestRssi(old(bestRssi), dbm))
                && scanUpdate
                && (forall j :: 0 <= j < SSID_ENTRY_LEN ==>
                      ssidArray[k, j] == EntryByte(old(ssidArray[k, j]), ssid, dbm, j))
                && (forall k', j :: 0 <= k' < SSID_ARRAY_SIZE && k' != k && 0 <= j < SSID_ENTRY_LEN ==>
                      ssidArray[k', j] == old(ssidArray[k', j]))
    {
      if |ssid| == 0 || ssid[0] == 0 {
        return;
      }
      var text := if Wlan.ValidUtf8(ssid) then ssid else [];
      var k := if ssidIndex >= SSID_ARRAY_SIZE then 0 else ssidIndex;
      var best := BestRssi(bestRssi, dbm);
      var n := Min(SSID_ENTRY_LEN - 2, |text|);
      for j := 0 to n
        invariant forall j' :: 0 <= j' < j ==> ssidArray[k, j' + 2] == text[j']
        invariant forall k', j' :: 0 <= k' < SSID_ARRAY_SIZE && 0 <= j' < SSID_ENTRY_LEN && !(k' == k && 2 <= j' < j + 2) ==>
                    ssidArray[k', j'] == old(ssidArray[k', j'])
      {
        ssidArray[k, j + 2] := text[j];
      }
      ssidArray[k, 1] := |ssid| % 0x100;
      ssidArray[k, 0] := if dbm < 256 then dbm else 255;
      bestRssi := Some(best);
      ssidIndex := (k + 1) % SSID_ARRAY_SIZE;
      scanUpdate := true;
    }

    /** `wfx_start_scan`: restart the log at entry 0 and zero byte 0 of
        every entry (the signal byte; the length byte is kept), then return
        what the scan command returned. */
    method StartScan(commandStatus: Status) returns (status: Status)
      requires Valid()
      modifies ssidArray, this`ssidIndex
      ensures status == commandStatus && ssidIndex == 0
      ensures forall k, j :: 0 <= k < SSID_ARRAY_SIZE && 0 <= j < SSID_ENTRY_LEN ==>
                ssidArray[k, j] == if j == 0 then 0 else old(ssidArray[k, j])
    {
      for k := 0 to SSID_ARRAY_SIZE
        invariant forall k', j :: 0 <= k' < SSID_ARRAY_SIZE && 0 <= j < SSID_ENTRY_LEN ==>
                    ssidArray[k', j] == if j == 0 && k' < k then 0 else old(ssidArray[k', j])
      {
        ssidArray[k, 0] := 0;
      }
      ssidIndex := 0;
      status := commandStatus;
    }

    /** `wf200_ssid_get_list`: copy every entry out, then clear the log
        and restart it at entry 0. */
    method SsidGetList(dst: array2<u8>)
      requires Valid() && dst.Length0 == SSID_ARRAY_SIZE && dst.Length1 == SSID_ENTRY_LEN && dst != ssidArray
      modifies dst, ssidArray, this`ssidIndex
      ensures forall k, j :: 0 <= k < SSID_ARRAY_SIZE && 0 <= j < SSID_ENTRY_LEN ==> dst[k, j] == old(ssidArray[k, j])
      ensures forall k, j :: 0 <= k < SSID_ARRAY_SIZE && 0 <= j < SSID_ENTRY_LEN ==> ssidArray[k, j] == 0
      ensures ssidIndex == 0
    {
      for k := 0 to SSID_ARRAY_SIZE
        invariant forall k', j :: 0 <= k' < k && 0 <= j < SSID_ENTRY_LEN ==> dst[k', j] == ssidArray[k', j]
        invariant unchanged(ssidArray)
      {
        for j := 0 to SSID_ENTRY_LEN
          invariant forall k', j' :: 0 <= k' < k && 0 <= j' < SSID_ENTRY_LEN ==> dst[k', j'] == ssidArray[k', j']
          invariant forall j' :: 0 <= j' < j ==> dst[k, j'] == ssidArray[k, j']
          invariant unchanged(ssidArray)
        {
          dst[k, j] := ssidArray[k, j];
        }
      }
      forall k, j | 0 <= k < SSID_ARRAY_SIZE && 0 <= j < SSID_ENTRY_LEN {
        ssidArray[k, j] := 0;
      }
      ssidIndex := 0;
    }

    // -------------------------------------------------------------------
    // Calls into the vendor driver

    /** `get_rssi`: error 0x20 unless connected; otherwise the driver's
        reading halved, or error 0x01 when the driver call fails. */
    method GetRssi(driverStatus: Status, rcpi: u32) returns (r: Result<u32, u8>)
      ensures r == RssiOf(currentStatus, driverStatus, rcpi)
    {
      if currentStatus != Connected {
        return Err(0x20);
      }
      match driverStatus {
        case StatusOk =>
          r := Ok(rcpi / 2);
        case _ =>
          r := Err(0x01);
      }
    }

    /** The tail of `sl_wfx_host_post_event`: a message whose id is the one
        being waited for is copied into the payload buffer and posted, if
        it is shorter than the buffer. `msg` holds the message's bytes,
        header included. */
    method PostEvent(id: u8, length: u16, msg: seq<u8>) returns (status: Status)
      requires Valid() && length as nat <= |msg|
      modifies eventBuffer, this`postedEventId
      ensures status == StatusOk
      ensures Posted(waitedEventId, id, length) ==>
                eventBuffer[..length] == msg[..length] && eventBuffer[length..] == old(eventBuffer[length..])
                && postedEventId == id
      ensures !Posted(waitedEventId, id, length) ==>
                eventBuffer[..] == old(eventBuffer[..]) && postedEventId == old(postedEventId)
    {
      if waitedEventId == id {
        if (length as nat) < EVENT_PAYLOAD_LEN {
          for i := 0 to length
            invariant eventBuffer[..i] == msg[..i]
            invariant eventBuffer[i..] == old(eventBuffer[i..])
          {
            eventBuffer[i] := msg[i];
            assert eventBuffer[..i + 1] == eventBuffer[..i] + [msg[i]];
            assert msg[..i + 1] == msg[..i] + [msg[i]];
          }
          postedEventId := id;
        }
      }
      status := StatusOk;
    }
  }

  function Min(a: nat, b: nat): nat { if a < b then a else b }

  /** A hidden SSID: no length or a leading zero byte. */
  predicate Hidden(ssid: seq<u8>) {
    |ssid| == 0 || ssid[0] == 0
  }

  /** The best signal so far: the smallest byte, comparing the reading as
      truncated to a byte (`dbm as u8`). */
  function BestRssi(best: Option<u8>, dbm: nat): (r: u8)
    ensures best.Some? ==> r <= best.value && (r == best.value || r == dbm % 0x100)
    ensures r <= dbm % 0x100
  {
    if best.Some? && best.value <= dbm % 0x100 then best.value else dbm % 0x100
  }

  /** Byte `j` of the entry a visible scan result writes, given the byte
      that was there. */
  function EntryByte(was: u8, ssid: seq<u8>, dbm: nat, j: nat): u8 {
    var text := if Wlan.ValidUtf8(ssid) then ssid else [];
    if j == 0 then (if dbm < 256 then dbm else 255)
    else if j == 1 then |ssid| % 0x100
    else if j - 2 < |text| && j < SSID_ENTRY_LEN then text[j - 2]
    else was
  }

  /** `get_rssi` as a function of the link state and the driver's answer. */
  function RssiOf(link: LinkState, driverStatus: Status, rcpi: u32): Result<u32, u8> {
    if link != Connected then Err(0x20)
    else if driverStatus == StatusOk then Ok(rcpi / 2)
    else Err(0x01)
  }

  /** Whether `post_event` posts the message. */
  predicate Posted(waited: u8, id: u8, length: u16) {
    waited == id && (length as nat) < EVENT_PAYLOAD_LEN
  }

  /** `wf200_send_pds`: a line of 256 bytes or more is refused before the
      driver is called; otherwise the driver's status decides. */
  function SendPds(length: u16, driverStatus: Status): (ok: bool)
    ensures ok <==> length < PDS_MAX_LEN as int && driverStatus == StatusOk
  {
    if length as nat >= PDS_MAX_LEN then false
    else driverStatus == StatusOk
  }

  // ---------------------------------------------------------------------
  // Properties of the allocator

  /** Slots hand out distinct, non-zero, non-overlapping regions inside the
      allocator's RAM. */
  lemma SlotRegionsDisjoint(i: nat, j: nat)
    requires i < j < WFX_MAX_PTRS
    ensures SlotAddress(i) != 0 && SlotAddress(i) + WFX_ALLOC_MAXLEN <= SlotAddress(j)
    ensures SlotAddress(j) + WFX_ALLOC_MAXLEN <= WFX_RAM_OFFSET + WFX_RAM_LENGTH
  {
  }

  /** Allocation fails for lack of a slot exactly when every slot is taken. */
  lemma NoSlotIffFull(list: seq<nat>, size: nat)
    requires size <= WFX_ALLOC_MAXLEN
    ensures AllocOf(list, size) == NoSlot <==> FreeCount(list) == 0
  {
    FreeCountZero(list);
  }

  lemma {:induction false} FreeCountZero(list: seq<nat>)
    ensures FreeCount(list) == 0 <==> forall j :: 0 <= j < |list| ==> list[j] != 0
  {
    if list != [] {
      FreeCountZero(list[..|list| - 1]);
      assert forall j :: 0 <= j < |list| - 1 ==> list[..|list| - 1][j] == list[j];
    }
  }

  /** A granted buffer is freed by handing its address back: the free
      finds the same slot, the slot list returns to what it was, and the
      free count goes down by one and back up. */
  lemma AllocFreeRoundTrip(list: seq<nat>, size: nat)
    requires WellFormed(list) && AllocOf(list, size).Granted?
    ensures var g := AllocOf(list, size);
            var after := list[g.slot := g.addr];
            WellFormed(after)
            && FirstIndex(after, g.addr) == Some(g.slot)
            && after[g.slot := 0] == list
            && FreeCount(after) + 1 == FreeCount(list)
  {
    var g := AllocOf(list, size);
    var after := list[g.slot := g.addr];
    assert after[g.slot] == g.addr;
    forall j | 0 <= j < g.slot
      ensures after[j] != g.addr
    {
      assert list[j] != 0;
    }
    FreeCountUpdate(list, g.slot, g.addr);
  }

  /** Freeing a granted address frees one slot. */
  lemma FreeGivesBackOne(list: seq<nat>, addr: nat)
    requires WellFormed(list) && addr != 0 && FirstIndex(list, addr).Some?
    ensures var i := FirstIndex(list, addr).value;
            WellFormed(list[i := 0]) && FreeCount(list[i := 0]) == FreeCount(list) + 1
  {
    var i := FirstIndex(list, addr).value;
    FreeCountUpdate(list, i, 0);
  }

  /** Changing one slot changes the free count by what that slot changed. */
  lemma {:induction false} FreeCountUpdate(list: seq<nat>, i: nat, v: nat)
    requires i < |list|
    ensures FreeCount(list[i := v]) + (if list[i] == 0 then 1 else 0)
            == FreeCount(list) + (if v == 0 then 1 else 0)
  {
    var n := |list|;
    if i < n - 1 {
      FreeCountUpdate(list[..n - 1], i, v);
      assert list[i := v][..n - 1] == list[..n - 1][i := v];
    } else {
      assert list[i := v][..n - 1] == list[..n - 1];
    }
  }

  /** The scans as written agree with the bounded ones when the value is
      present... */
  lemma {:induction false} ScanAsWrittenWhenFound(list: seq<nat>, v: nat, i: nat)
    requires |list| == WFX_MAX_PTRS && i <= |list|
    requires exists j :: i <= j < |list| && list[j] == v
    ensures ScanAsWritten(list, v, i) == FirstIndexFrom(list, v, i)
    decreases |list| - i
  {
    if list[i] != v {
      ScanAsWrittenWhenFound(list, v, i + 1);
    }
  }

  /** ...but when every slot is taken, an allocation reads past the end of
      the slot array instead of failing (`FreeUnknownPanics` shows the same
      for a free). */
  lemma FullAllocationPanics(a: nat, b: nat, c: nat, d: nat)
    requires a != 0 && b != 0 && c != 0 && d != 0
    ensures ScanAsWritten([a, b, c, d], 0, 0) == None
    ensures AllocOf([a, b, c, d], 0) == NoSlot
  {
    var list := [a, b, c, d];
    assert ScanAsWritten(list, 0, 4) == None;
    assert ScanAsWritten(list, 0, 3) == None;
    assert ScanAsWritten(list, 0, 2) == None;
    assert ScanAsWritten(list, 0, 1) == None;
    assert FirstIndex(list, 0) == None;
  }

  /** A free of an address no slot holds runs past the slot array in the
      same way, where the corrected scan reports that no slot holds it. */
  lemma FreeUnknownPanics(a: nat, b: nat, c: nat, d: nat, e: nat)
    requires e != a && e != b && e != c && e != d
    ensures ScanAsWritten([a, b, c, d], e, 0) == None
    ensures FirstIndex([a, b, c, d], e) == None
  {
    var list := [a, b, c, d];
    assert ScanAsWritten(list, e, 4) == None;
    assert ScanAsWritten(list, e, 3) == None;
    assert ScanAsWritten(list, e, 2) == None;
    assert ScanAsWritten(list, e, 1) == None;
  }
}
