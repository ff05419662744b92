/** The iCE40 multiboot header that both build scripts prepend to the
    bitstream (`make_multiboot_header` in betrusted_ec.py and in
    betrusted-ec.py, which are the same code): one 32-byte warm-boot entry
    per image, for the power-on image and the four images SB_WARMBOOT can
    select. */
module Multiboot {
  import opened Wrappers

  type Byte = b: int | 0 <= b < 256

  /** The number of entries the header always has at least. */
  const ENTRY_COUNT: nat := 5
  const ENTRY_SIZE: nat := 32

  /** One entry: the sync header, the boot-mode command with k = 0 (warm
      boot), the 24-bit big-endian boot address, bank offset 0, the reboot
      command, and zero padding to 32 bytes. */
  function Entry(offset: nat): (e: seq<Byte>)
    ensures |e| == ENTRY_SIZE
  {
    [0x7e, 0xaa, 0x99, 0x7e]
    + [0x92, 0x00, 0x00]
    + [0x44, 0x03, (offset / 0x1_0000) % 0x100, (offset / 0x100) % 0x100, offset % 0x100]
    + [0x82, 0x00, 0x00]
    + [0x01, 0x08]
    + seq(32 - 17, _ => 0)
  }

  /** The entries of `offsets`, in order. */
  function Header(offsets: seq<nat>): (h: seq<Byte>)
    ensures |h| == ENTRY_SIZE * |offsets|
  {
    if |offsets| == 0 then [] else Header(offsets[..|offsets| - 1]) + Entry(offsets[|offsets| - 1])
  }

  /** The offset list after the padding loop: copies of the first offset
      up to five entries. */
  function Padded(offsets: seq<nat>): (p: seq<nat>)
    requires |offsets| > 0
    ensures |p| == if |offsets| < ENTRY_COUNT then ENTRY_COUNT else |offsets|
    ensures p[..|offsets|] == offsets
    ensures forall i :: |offsets| <= i < |p| ==> p[i] == offsets[0]
  {
    if |offsets| >= ENTRY_COUNT then offsets else offsets + seq(ENTRY_COUNT - |offsets|, _ => offsets[0])
  }

  /** Padding an already padded list changes nothing, so later calls that
      share the default list write the same header. */
  lemma PaddedIdempotent(offsets: seq<nat>)
    requires |offsets| > 0
    ensures Padded(Padded(offsets)) == Padded(offsets)
  {
  }

  /** The boot address an entry holds, read back big-endian from bytes
      9..11 of each 32-byte entry. */
  function EntryOffset(header: seq<Byte>, i: nat): nat
    requires ENTRY_SIZE * (i + 1) <= |header|
  {
    var b := ENTRY_SIZE * i;
    (header[b + 9] as int) * 0x1_0000 + (header[b + 10] as int) * 0x100 + header[b + 11] as int
  }

  lemma {:induction false} ThreeBytes(o: nat)
    ensures ((o / 0x1_0000) % 0x100) * 0x1_0000 + ((o / 0x100) % 0x100) * 0x100 + o % 0x100 == o % 0x100_0000
  {
    var c := o % 0x100;
    var q1 := o / 0x100;
    var b := q1 % 0x100;
    var q2 := q1 / 0x100;
    var a := q2 % 0x100;
    var q3 := q2 / 0x100;
    assert o == 0x100 * q1 + c;
    assert q1 == 0x100 * q2 + b;
    assert q2 == 0x100 * q3 + a;
    assert q2 == o / 0x1_0000;
    assert o == 0x100_0000 * q3 + (a * 0x1_0000 + b * 0x100 + c);
  }

  lemma {:induction false} EntryOffsetOf(offsets: seq<nat>, i: nat)
    requires i < |offsets|
    ensures EntryOffset(Header(offsets), i) == offsets[i] % 0x100_0000
    decreases |offsets|
  {
    var n := |offsets|;
    var h := Header(offsets);
    assert h == Header(offsets[..n - 1]) + Entry(offsets[n - 1]);
    if i < n - 1 {
      EntryOffsetOf(offsets[..n - 1], i);
      assert EntryOffset(h, i) == EntryOffset(Header(offsets[..n - 1]), i);
    } else {
      ThreeBytes(offsets[i]);
    }
  }

  /** Reading the header back gives every offset modulo 2^24, and each
      entry starts with the sync word and ends with the reboot command and
      its padding. */
  lemma HeaderLayout(offsets: seq<nat>, i: nat)
    requires i < |offsets|
    ensures var h := Header(offsets); var b := ENTRY_SIZE * i;
      EntryOffset(h, i) == offsets[i] % 0x100_0000
      && h[b..b + ENTRY_SIZE] == Entry(offsets[i])
  {
    EntryOffsetOf(offsets, i);
    EntrySlice(offsets, i);
  }

  lemma {:induction false} EntrySlice(offsets: seq<nat>, i: nat)
    requires i < |offsets|
    ensures Header(offsets)[ENTRY_SIZE * i..ENTRY_SIZE * (i + 1)] == Entry(offsets[i])
    decreases |offsets|
  {
    var n := |offsets|;
    var h', e := Header(offsets[..n - 1]), Entry(offsets[n - 1]);
    var lo, hi := 32 * i, 32 * i + 32;
    assert ENTRY_SIZE * i == lo && ENTRY_SIZE * (i + 1) == hi;
    assert Header(offsets) == h' + e && |h'| == 32 * (n - 1);
    if i < n - 1 {
      EntrySlice(offsets[..n - 1], i);
      assert offsets[..n - 1][i] == offsets[i];
      assert (h' + e)[lo..hi] == h'[lo..hi];
    } else {
      assert lo == |h'| && hi == |h'| + |e|;
      assert (h' + e)[lo..hi] == e;
    }
  }

  /** The Python list object that holds the offsets. The default argument
      `[160]` is one such object shared by every call that omits it. */
  class OffsetList {
    var items: seq<nat>

    constructor (items0: seq<nat>)
      ensures items == items0
    {
      items := items0;
    }
  }

  /** `make_multiboot_header(filename, boot_offsets)`, with the bytes it
      writes as the result. The padding appends to the caller's list in
      place; an empty list makes `boot_offsets[0]` raise. */
  method MakeMultibootHeader(bootOffsets: OffsetList) returns (r: Option<seq<Byte>>)
    modifies bootOffsets
    ensures |old(bootOffsets.items)| == 0 ==> r == None && bootOffsets.items == old(bootOffsets.items)
    ensures |old(bootOffsets.items)| > 0 ==>
      bootOffsets.items == Padded(old(bootOffsets.items)) && r == Some(Header(bootOffsets.items))
  {
    if |bootOffsets.items| == 0 {
      return None;
    }
    ghost var original := bootOffsets.items;
    while |bootOffsets.items| < ENTRY_COUNT
      invariant |bootOffsets.items| >= |original| && bootOffsets.items[..|original|] == original
      invariant forall i :: |original| <= i < |bootOffsets.items| ==> bootOffsets.items[i] == original[0]
      invariant |original| < ENTRY_COUNT ==> |bootOffsets.items| <= ENTRY_COUNT
      invariant |original| >= ENTRY_COUNT ==> bootOffsets.items == original
      decreases ENTRY_COUNT - |bootOffsets.items|
    {
      bootOffsets.items := bootOffsets.items + [bootOffsets.items[0]];
    }
    assert bootOffsets.items == Padded(original);
    var output: seq<Byte> := [];
    var offsets := bootOffsets.items;
    for k := 0 to |offsets|
      invariant output == Header(offsets[..k])
    {
      assert offsets[..k + 1][..k] == offsets[..k];
      output := output + Entry(offsets[k]);
    }
    assert offsets[..|offsets|] == offsets;
    return Some(output);
  }

  /** Two calls that omit `boot_offsets` share the default list `[160]`:
      the first pads it in place to five entries, and the second finds it
      already padded and writes the same header. */
  method DefaultListTwice() returns (first: Option<seq<Byte>>, second: Option<seq<Byte>>, after: seq<nat>)
    ensures after == [160, 160, 160, 160, 160]
    ensures first == second == Some(Header(after))
  {
    var defaultList := new OffsetList([160]);
    first := MakeMultibootHeader(defaultList);
    assert defaultList.items == [160, 160, 160, 160, 160];
    second := MakeMultibootHeader(defaultList);
    after := defaultList.items;
  }

  /** The offsets the build passes: the power-on image and the first warm
      boot image right after the header, the others at fixed flash
      offsets. */
  const BUILD_OFFSETS: seq<nat> := [160, 160, 157696, 262144, 262144 + 32768]

  /** The build's header is 160 bytes, which is where its first image
      begins, and every offset fits the 24-bit address field. */
  lemma BuildHeaderFits()
    ensures |Header(BUILD_OFFSETS)| == BUILD_OFFSETS[0]
    ensures Padded(BUILD_OFFSETS) == BUILD_OFFSETS
    ensures forall i :: 0 <= i < |BUILD_OFFSETS| ==> EntryOffset(Header(BUILD_OFFSETS), i) == BUILD_OFFSETS[i]
  {
    forall i | 0 <= i < |BUILD_OFFSETS|
      ensures EntryOffset(Header(BUILD_OFFSETS), i) == BUILD_OFFSETS[i]
    {
      EntryOffsetOf(BUILD_OFFSETS, i);
    }
  }
}
