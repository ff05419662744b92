/** Fixed-width machine integers and the byte-order helpers shared by the
    firmware models. Values are unbounded `int`s restricted to their range;
    wrap-around and truncation are written out where the source has them. */
module Bits {

  type u8 = x: int | 0 <= x < 0x100
  type u16 = x: int | 0 <= x < 0x1_0000
  type u32 = x: int | 0 <= x < 0x1_0000_0000
  type i16 = x: int | -0x8000 <= x < 0x8000

  const U16_MAX: u16 := 0xFFFF
  const U32_MAX: u32 := 0xFFFF_FFFF

  /** `a & b` on non-negative 32-bit values. */
  function And32(a: u32, b: u32): u32 {
    ((a as bv32) & (b as bv32)) as int
  }

  /** `a | b` on non-negative 32-bit values. */
  function Or32(a: u32, b: u32): u32 {
    ((a as bv32) | (b as bv32)) as int
  }

  /** `a ^ b` on non-negative 32-bit values. */
  function Xor32(a: u32, b: u32): u32 {
    ((a as bv32) ^ (b as bv32)) as int
  }

  /** The 16-bit big-endian value of two bytes. */
  function Be16(hi: u8, lo: u8): (r: u16)
    ensures r / 0x100 == hi && r % 0x100 == lo
  {
    hi * 0x100 + lo
  }

  /** The two big-endian bytes of a 16-bit value. */
  function Be16Bytes(x: u16): (r: seq<u8>)
    ensures |r| == 2 && Be16(r[0], r[1]) == x
  {
    [x / 0x100, x % 0x100]
  }

  /** The 32-bit big-endian value of the four bytes `b[0..4]`. */
  function Be32(b: seq<u8>): u32
    requires |b| == 4
  {
    Be16(b[0], b[1]) * 0x1_0000 + Be16(b[2], b[3])
  }

  /** The four big-endian bytes of a 32-bit value (Rust's `to_be_bytes`). */
  function Be32Bytes(x: u32): (r: seq<u8>)
    ensures |r| == 4
  {
    Be16Bytes(x / 0x1_0000) + Be16Bytes(x % 0x1_0000)
  }

  lemma Be32RoundTrip(x: u32)
    ensures Be32(Be32Bytes(x)) == x
  {
  }

  lemma Be16BytesRoundTrip(hi: u8, lo: u8)
    ensures Be16Bytes(Be16(hi, lo)) == [hi, lo]
  {
  }

  lemma Split16(hi: nat, lo: nat)
    requires lo < 0x1_0000
    ensures (hi * 0x1_0000 + lo) / 0x1_0000 == hi && (hi * 0x1_0000 + lo) % 0x1_0000 == lo
  {
  }

  lemma Be32BytesRoundTrip(b: seq<u8>)
    requires |b| == 4
    ensures Be32Bytes(Be32(b)) == b
  {
    var hi, lo := Be16(b[0], b[1]), Be16(b[2], b[3]);
    var x := Be32(b);
    assert x == hi as int * 0x1_0000 + lo;
    Split16(hi, lo);
    assert Be32Bytes(x) == Be16Bytes(hi) + Be16Bytes(lo);
    Be16BytesRoundTrip(b[0], b[1]);
    Be16BytesRoundTrip(b[2], b[3]);
    assert b == [b[0], b[1]] + [b[2], b[3]];
  }
}
