/** Random host names for DHCP (sw/net/src/hostname.rs): a 63-byte buffer
    (the longest label RFC 1035 section 2.3.1 allows) and a length. */
module Hostname {
  import opened Bits

  /** The 32 symbols a random name is drawn from. */
  const CHARSET: seq<char> := "0123456789ABCDFGHJKLMNPQRSTVWXYZ"

  const BUFFER_LEN: nat := 63

  /** The four bytes of `x`, least significant first (`to_le_bytes`). */
  function LeBytes(x: u32): (r: seq<u8>)
    ensures |r| == 4 && r[0] == x % 0x100
  {
    [x % 0x100, (x / 0x100) % 0x100, (x / 0x1_0000) % 0x100, x / 0x100_0000]
  }

  /** The translation from a 5-bit symbol index to an ASCII byte. The match
      in the source ends in a default arm; this function has none, and
      `SymbolInRange` shows the index is always below 32. */
  function CharOf(x: nat): (c: u8)
    requires x < 32
  {
    if x <= 9 then '0' as int + x
    else if x <= 13 then 'A' as int + x - 10
    else if x <= 16 then 'F' as int + x - 14
    else if x <= 21 then 'J' as int + x - 17
    else if x <= 26 then 'P' as int + x - 22
    else 'V' as int + x - 27
  }

  /** The symbol index of the `i`-th character: the low five bits of the
      random byte, moved up by 11 at position 0 when they would pick a digit
      or 'A'. */
  function SymbolIndex(i: nat, src: u8): (x: nat)
    ensures x < 32
    ensures i == 0 ==> x >= 11
  {
    var masked := src % 32;
    if i == 0 && masked <= 10 then masked + 11 else masked
  }

  /** The name `randomize(entropy0, entropy1)` writes. */
  function RandomName(entropy0: u32, entropy1: u32): (r: seq<u8>)
    ensures |r| == 8 - entropy0 % 4
  {
    var rbytes := LeBytes(entropy0) + LeBytes(entropy1);
    var len := 8 - entropy0 % 4;
    seq(len, i requires 0 <= i < len => CharOf(SymbolIndex(i, rbytes[i])))
  }

  /** `c` is one of the 32 symbols. */
  predicate InCharset(c: int) {
    exists x :: 0 <= x < |CHARSET| && CHARSET[x] as int == c
  }

  /** The translation agrees with the character table: symbol `x` is
      `CHARSET[x]`. */
  lemma CharOfIsCharset(x: nat)
    requires x < 32
    ensures CharOf(x) == CHARSET[x] as int
  {
    if x <= 9 {
    } else if x <= 13 {
    } else if x <= 16 {
    } else if x <= 21 {
    } else if x <= 26 {
    } else {
    }
  }

  /** A random name has 5 to 8 characters, all from the charset, and does not
      start with a digit or 'A'. */
  lemma RandomNameShape(entropy0: u32, entropy1: u32)
    ensures var r := RandomName(entropy0, entropy1);
            5 <= |r| <= 8
            && (forall i :: 0 <= i < |r| ==> InCharset(r[i]))
            && !('0' as int <= r[0] <= '9' as int) && r[0] != 'A' as int
  {
    var r := RandomName(entropy0, entropy1);
    var rbytes := LeBytes(entropy0) + LeBytes(entropy1);
    forall i | 0 <= i < |r|
      ensures InCharset(r[i])
    {
      var x := SymbolIndex(i, rbytes[i]);
      assert r[i] == CharOf(x);
      CharOfIsCharset(x);
    }
  }

  class Hostname {
    var length: nat
    var buffer: array<u8>

    ghost predicate Valid()
      reads this
    {
      buffer.Length == BUFFER_LEN && length <= BUFFER_LEN
    }

    constructor NewBlank()
      ensures Valid() && fresh(buffer)
      ensures length == 1
      ensures forall i :: 0 <= i < buffer.Length ==> buffer[i] == 0
    {
      length := 1;
      buffer := new u8[BUFFER_LEN](_ => 0);
    }

    /** Overwrite the first 5 to 8 bytes with a random name and set the
        length; the bytes after it keep their old values. */
    method Randomize(entropy0: u32, entropy1: u32)
      requires Valid()
      modifies this, buffer
      ensures Valid() && buffer == old(buffer)
      ensures length == 8 - entropy0 % 4
      ensures buffer[..length] == RandomName(entropy0, entropy1)
      ensures buffer[length..] == old(buffer[..])[length..]
    {
      length := 8 - entropy0 % 4;
      var rbytes := LeBytes(entropy0) + LeBytes(entropy1);
      var i := 0;
      while i < length
        invariant Valid() && buffer == old(buffer) && length == 8 - entropy0 % 4
        invariant 0 <= i <= length
        invariant forall k :: 0 <= k < i ==> buffer[k] == RandomName(entropy0, entropy1)[k]
        invariant forall k :: i <= k < buffer.Length ==> buffer[k] == old(buffer[k])
      {
        var maskedSrc := rbytes[i] % 32;
        if i == 0 && maskedSrc <= 10 {
          maskedSrc := maskedSrc + 11;
        }
        buffer[i] := CharOf(maskedSrc);
        i := i + 1;
      }
    }

    /** The name: the first `length` bytes of the buffer. */
    function AsBytes(): (r: seq<u8>)
      reads this, buffer
      requires Valid()
      ensures |r| == length && forall i :: 0 <= i < length ==> r[i] == buffer[i]
    {
      buffer[..length]
    }

    function Len(): (n: nat)
      reads this
      requires Valid()
      ensures n == |AsBytes()|
    {
      length
    }
  }
}
