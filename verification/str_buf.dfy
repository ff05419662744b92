/** The bounded string buffer of sw/src/str_buf.rs (`StrBuf<N>`), which the
    firmware formats log and status text into. Strings are their UTF-8
    bytes; `as_str`'s UTF-8 check is not part of this model. */
module StrBuffer {
  import opened Bits

  class StrBuf {
    /** The `N` bytes of the buffer. */
    var buf: array<u8>
    var length: nat
    /** Every string written successfully since `new`, in order. */
    ghost var text: seq<u8>

    ghost predicate Valid()
      reads this, buf
    {
      length <= buf.Length && buf[..length] == text
    }

    /** `new`: an all-zero buffer of `n` bytes holding the empty string. */
    constructor New(n: nat)
      ensures Valid() && fresh(buf) && buf.Length == n
      ensures length == 0 && text == []
      ensures forall i :: 0 <= i < n ==> buf[i] == 0
    {
      buf := new u8[n](_ => 0);
      length := 0;
      text := [];
    }

    /** `len`. */
    method Len() returns (n: nat)
      requires Valid()
      ensures n == |text| && n <= buf.Length
    {
      n := length;
    }

    /** `bytes`: what was written since `new`. */
    method Bytes() returns (r: seq<u8>)
      requires Valid()
      ensures r == text
    {
      r := buf[..length];
    }

    /** The copy loop of `write_str`: `s` lands at `dstStart`, every other
        byte is kept. */
    method CopyAt(dstStart: nat, s: seq<u8>)
      requires dstStart + |s| <= buf.Length
      modifies buf
      ensures buf[..] == old(buf[..dstStart]) + s + old(buf[dstStart + |s|..])
    {
      var i := 0;
      while i < |s|
        invariant 0 <= i <= |s|
        invariant buf[..dstStart] == old(buf[..dstStart])
        invariant buf[dstStart..dstStart + i] == s[..i]
        invariant buf[dstStart + |s|..] == old(buf[dstStart + |s|..])
      {
        buf[dstStart + i] := s[i];
        i := i + 1;
      }
      assert buf[..] == buf[..dstStart] + buf[dstStart..dstStart + |s|] + buf[dstStart + |s|..];
    }

    /** `write_str(s)`: append `s` when it fits; otherwise fail and change
        nothing. Bytes past the new length are not touched. */
    method WriteStr(s: seq<u8>) returns (ok: bool)
      requires Valid()
      modifies this, buf
      ensures Valid() && buf == old(buf)
      ensures ok <==> old(length) + |s| <= buf.Length
      ensures ok ==> text == old(text) + s && length == old(length) + |s|
      ensures !ok ==> text == old(text) && length == old(length) && buf[..] == old(buf[..])
      ensures buf[length..] == old(buf[..])[length..]
    {
      var dstStart := length;
      if dstStart + |s| > buf.Length {
        return false;
      }
      CopyAt(dstStart, s);
      assert buf[..dstStart + |s|] == old(buf[..dstStart]) + s;
      length := dstStart + |s|;
      text := text + s;
      return true;
    }
  }
}
