/** The pseudo-random boot ROM of the build scripts (`RandomFirmwareROM` and
    the `--export-random-rom-file` writer in betrusted-ec.py, and the same
    generator in xoulon-mcu.py). A xorshift32 generator is stepped 32 times
    per word and the low bit of each step becomes one bit of the word. */
module RandomRom {
  import opened Numerals

  /** A 32-bit word as the Python code holds it: a non-negative integer
      below 2^32. */
  type Word = w: nat | w < 0x1_0000_0000

  /** One xorshift32 step. Each Python line masks the shifted term with
      0xffffffff and the input is already below 2^32, so 32-bit vector
      arithmetic is exact here. */
  function Xorshift32(x: bv32): bv32 { ShiftXor5(ShiftXor17(ShiftXor13(x))) }

  function ShiftXor13(x: bv32): bv32 { x ^ (x << 13) }
  function ShiftXor17(x: bv32): bv32 { x ^ (x >> 17) }
  function ShiftXor5(x: bv32): bv32 { x ^ (x << 5) }

  lemma ShiftXor13NonZero(x: bv32)
    requires x != 0
    ensures ShiftXor13(x) != 0
  {
  }

  lemma ShiftXor17NonZero(x: bv32)
    requires x != 0
    ensures ShiftXor17(x) != 0
  {
  }

  lemma ShiftXor5NonZero(x: bv32)
    requires x != 0
    ensures ShiftXor5(x) != 0
  {
  }

  /** A nonzero state never steps to zero, so the chain started from 1
      never collapses into the all-zero fixed point. */
  lemma XorshiftNonZero(x: bv32)
    requires x != 0
    ensures Xorshift32(x) != 0
  {
    ShiftXor13NonZero(x);
    ShiftXor17NonZero(ShiftXor13(x));
    ShiftXor5NonZero(ShiftXor17(ShiftXor13(x)));
  }

  /** The state after `n` xorshift steps from `x`. */
  function States(x: bv32, n: nat): bv32
  {
    if n == 0 then x else Xorshift32(States(x, n - 1))
  }

  lemma {:induction false} StatesNonZero(x: bv32, n: nat)
    requires x != 0
    ensures States(x, n) != 0
  {
    if n > 0 {
      StatesNonZero(x, n - 1);
      XorshiftNonZero(States(x, n - 1));
    }
  }

  predicate Lsb(x: bv32) { x & 1 == 1 }

  /** The low bits of the first `n` successive states after `x`. */
  function StateBits(x: bv32, n: nat): (bs: seq<bool>)
    ensures |bs| == n
    ensures forall i :: 0 <= i < n ==> bs[i] == Lsb(States(x, i + 1))
  {
    if n == 0 then [] else StateBits(x, n - 1) + [Lsb(States(x, n))]
  }

  /** The number whose binary digits, least significant first, are `bs`. */
  function WordValue(bs: seq<bool>): nat
  {
    if |bs| == 0 then 0 else (if bs[0] then 1 else 0) + 2 * WordValue(bs[1..])
  }

  /** Bit `i` of `n`, as `(n >> i) & 1` reads it. */
  predicate Bit(n: nat, i: nat)
  {
    if i == 0 then n % 2 == 1 else Bit(n / 2, i - 1)
  }

  lemma {:induction false} WordValueBits(bs: seq<bool>, i: nat)
    requires i < |bs|
    ensures Bit(WordValue(bs), i) == bs[i]
  {
    var b := if bs[0] then 1 else 0;
    assert (b + 2 * WordValue(bs[1..])) / 2 == WordValue(bs[1..]);
    if i > 0 {
      WordValueBits(bs[1..], i - 1);
    }
  }

  /** Setting the next higher bit, `out | (1 << |bs|)` on a value below
      2^|bs|, adds 2^|bs|. */
  lemma {:induction false} WordValueAppend(bs: seq<bool>, b: bool)
    ensures WordValue(bs + [b]) == WordValue(bs) + (if b then Pow(2, |bs|) else 0)
    ensures WordValue(bs) < Pow(2, |bs|)
  {
    if |bs| > 0 {
      assert (bs + [b])[1..] == bs[1..] + [b];
      WordValueAppend(bs[1..], b);
    }
  }

  /** The specification of `get_rand(x)`. */
  function GetRandSpec(x: Word): (r: Word)
  {
    WordValueFits(StateBits(x as bv32, 32));
    WordValue(StateBits(x as bv32, 32))
  }

  /** Bit `i` of the word is the low bit of the (i+1)-th state. */
  lemma GetRandBits(x: Word, i: nat)
    requires i < 32
    ensures Bit(GetRandSpec(x), i) == Lsb(States(x as bv32, i + 1))
  {
    WordValueBits(StateBits(x as bv32, 32), i);
  }

  lemma {:induction false} WordValueFits(bs: seq<bool>)
    requires |bs| == 32
    ensures WordValue(bs) < 0x1_0000_0000
  {
    WordValueAppend(bs, false);
    Pow2To32();
  }

  /** `get_rand(x)` (betrusted-ec.py and xoulon-mcu.py). */
  method GetRand(x0: Word) returns (out: Word)
    ensures out == GetRandSpec(x0)
  {
    var x: bv32 := x0 as bv32;
    var acc: nat := 0;
    for i := 0 to 32
      invariant x == States(x0 as bv32, i)
      invariant acc == WordValue(StateBits(x0 as bv32, i))
    {
      x := Xorshift32(x);
      WordValueAppend(StateBits(x0 as bv32, i), x & 1 == 1);
      if x & 1 == 1 {
        acc := acc + Pow(2, i);
      }
    }
    WordValueFits(StateBits(x0 as bv32, 32));
    out := acc % 0x1_0000_0000;
  }

  /** The state the ROM chain starts from; the `seed` argument is never
      read. */
  const FIRST_STATE: Word := 1

  /** The first `n` words of the ROM: the chain starts from 1 and each word
      is `get_rand` of the one before. */
  function RomWords(n: nat): (ws: seq<Word>)
    ensures |ws| == n
  {
    if n == 0 then [] else RomWords(n - 1) + [GetRandSpec(if n == 1 then FIRST_STATE else RomWords(n - 1)[n - 2])]
  }

  /** The first word of the ROM is `get_rand(1)`. */
  lemma {:induction false} RomWordsFirst(n: nat)
    requires n > 0
    ensures RomWords(n)[0] == GetRandSpec(FIRST_STATE)
  {
    if n > 1 {
      RomWordsFirst(n - 1);
      assert RomWords(n)[0] == RomWords(n - 1)[0];
    }
  }

  /** Every other word is `get_rand` of the word before. */
  lemma {:induction false} RomWordsChain(n: nat)
    ensures forall d :: 0 < d < n ==> RomWords(n)[d] == GetRandSpec(RomWords(n)[d - 1])
  {
    if n > 0 {
      RomWordsChain(n - 1);
      var ws := RomWords(n);
      assert ws[..n - 1] == RomWords(n - 1);
      forall d | 0 < d < n
        ensures ws[d] == GetRandSpec(ws[d - 1])
      {
        assert ws[d - 1] == RomWords(n - 1)[d - 1];
        if d < n - 1 {
          assert ws[d] == RomWords(n - 1)[d];
        }
      }
    }
  }

  /** `RandomFirmwareROM(size, seed)`: `seed` is never read, and the ROM
      holds `int(size / 4)` words. */
  method RandomFirmwareRom(size: nat, seed: int) returns (data: seq<Word>)
    ensures data == RomWords(size / 4)
  {
    data := [];
    var s: Word := FIRST_STATE;
    for d := 0 to size / 4
      invariant data == RomWords(d)
      invariant s == if d == 0 then FIRST_STATE else data[d - 1]
    {
      var w := GetRand(s);
      data := data + [w];
      s := w;
    }
  }

  /** The size of the exported ROM file's image. */
  const EXPORT_ROM_SIZE: nat := 0x2000

  /** `"{:08x}".format(w)` for a 32-bit word: exactly eight lower-case hex
      digits that read back as `w`. */
  function HexLine(w: Word): (line: string)
    ensures |line| == 8 && AllDigits(line, 16) && Value(line, 16) == w
    ensures forall k :: 0 <= k < 8 ==> '0' <= line[k] <= '9' || 'a' <= line[k] <= 'f'
  {
    assert Pow(16, 8) == 0x1_0000_0000;
    FormatFits(w, 8);
    LowerCased(PaddedHex(w, 8));
    PaddedHex(w, 8)
  }

  /** One `"{:08x}"` line per word, in order. */
  function HexLines(ws: seq<Word>): (lines: seq<string>)
    ensures |lines| == |ws|
    ensures forall d :: 0 <= d < |ws| ==> |lines[d]| == 8 && AllDigits(lines[d], 16) && Value(lines[d], 16) == ws[d]
  {
    if |ws| == 0 then [] else HexLines(ws[..|ws| - 1]) + [HexLine(ws[|ws| - 1])]
  }

  /** The `--export-random-rom-file` writer: one line per ROM word. */
  method ExportRomLines() returns (lines: seq<string>)
    ensures lines == HexLines(RomWords(EXPORT_ROM_SIZE / 4))
  {
    lines := [];
    var s: Word := FIRST_STATE;
    ghost var words: seq<Word> := [];
    for d := 0 to EXPORT_ROM_SIZE / 4
      invariant words == RomWords(d) && lines == HexLines(words)
      invariant s == if d == 0 then FIRST_STATE else words[d - 1]
    {
      var w := GetRand(s);
      assert (words + [w])[..d] == words;
      words := words + [w];
      lines := lines + [HexLine(w)];
      s := w;
    }
  }
}
