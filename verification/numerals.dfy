/** Digit strings in bases 2, 10 and 16, as the build scripts and the PDS
    compressor read and write them with Python's `int(s, base)`, `str(n)`,
    `"%X" % n` and `"{:08x}".format(n)`. */
module Numerals {
  import opened Wrappers

  /** A base the scripts use. */
  predicate IsBase(base: nat) { base == 2 || base == 10 || base == 16 }

  /** The value of one digit character, upper or lower case. */
  function DigitValue(c: char): nat
  {
    if '0' <= c <= '9' then c as nat - '0' as nat
    else if 'a' <= c <= 'f' then c as nat - 'a' as nat + 10
    else if 'A' <= c <= 'F' then c as nat - 'A' as nat + 10
    else 99
  }

  /** Whether `c` is a digit of `base`. */
  predicate IsDigit(c: char, base: nat) { DigitValue(c) < base }

  predicate AllDigits(s: string, base: nat) { forall i :: 0 <= i < |s| ==> IsDigit(s[i], base) }

  /** The value of a digit string, most significant digit first. */
  function Value(s: string, base: nat): nat
    requires AllDigits(s, base)
  {
    if |s| == 0 then 0 else Value(s[..|s| - 1], base) * base + DigitValue(s[|s| - 1])
  }

  /** The character of digit `d`, in upper or lower case. */
  function DigitChar(d: nat, upper: bool): (c: char)
    requires d < 16
    ensures DigitValue(c) == d
  {
    if d < 10 then ('0' as nat + d) as char
    else if upper then ('A' as nat + d - 10) as char
    else ('a' as nat + d - 10) as char
  }

  /** Every character is its digit's character in the chosen case. */
  predicate Cased(s: string, upper: bool) {
    forall i :: 0 <= i < |s| ==> DigitValue(s[i]) < 16 && DigitChar(DigitValue(s[i]), upper) == s[i]
  }

  /** Lower-case hex digits are `0`..`9` and `a`..`f`. */
  lemma LowerCased(s: string)
    requires Cased(s, false)
    ensures forall i :: 0 <= i < |s| ==> '0' <= s[i] <= '9' || 'a' <= s[i] <= 'f'
  {
    forall i | 0 <= i < |s| ensures '0' <= s[i] <= '9' || 'a' <= s[i] <= 'f' {
      assert DigitChar(DigitValue(s[i]), false) == s[i];
    }
  }

  /** `n` written in `base` with no leading zeros ("0" for zero), its
      letters in the chosen case. */
  function Format(n: nat, base: nat, upper: bool): (s: string)
    requires IsBase(base)
    ensures |s| > 0 && AllDigits(s, base)
    ensures Cased(s, upper)
    decreases n
  {
    if n < base then [DigitChar(n, upper)]
    else Format(n / base, base, upper) + [DigitChar(n % base, upper)]
  }

  /** Reading back what `Format` wrote gives the number again. */
  lemma {:induction false} FormatValue(n: nat, base: nat, upper: bool)
    requires IsBase(base)
    ensures Value(Format(n, base, upper), base) == n
    decreases n
  {
    var s := Format(n, base, upper);
    if n >= base {
      FormatValue(n / base, base, upper);
      assert s[..|s| - 1] == Format(n / base, base, upper);
    }
  }

  /** Leading zeros do not change the value. */
  lemma {:induction false} LeadingZeros(k: nat, s: string, base: nat)
    requires IsBase(base) && AllDigits(s, base)
    ensures AllDigits(Zeros(k) + s, base) && Value(Zeros(k) + s, base) == Value(s, base)
    decreases |s|
  {
    ZerosAreDigits(k, base);
    if |s| == 0 {
      assert Zeros(k) + s == Zeros(k);
      ZerosValue(k, base);
    } else {
      LeadingZeros(k, s[..|s| - 1], base);
      assert (Zeros(k) + s)[..|Zeros(k) + s| - 1] == Zeros(k) + s[..|s| - 1];
    }
  }

  function Zeros(k: nat): (z: string)
    ensures |z| == k && forall i :: 0 <= i < k ==> z[i] == '0'
    ensures Cased(z, false) && Cased(z, true)
  {
    if k == 0 then [] else Zeros(k - 1) + ['0']
  }

  lemma ZerosAreDigits(k: nat, base: nat)
    requires IsBase(base)
    ensures AllDigits(Zeros(k), base)
  {
  }

  lemma {:induction false} ZerosValue(k: nat, base: nat)
    requires IsBase(base)
    ensures AllDigits(Zeros(k), base) && Value(Zeros(k), base) == 0
  {
    if k > 0 {
      ZerosValue(k - 1, base);
      assert Zeros(k)[..k - 1] == Zeros(k - 1);
    }
  }

  /** `"{:0<w>x}".format(n)`: lower-case hex, padded with zeros to at least
      `width` digits. */
  function PaddedHex(n: nat, width: nat): (s: string)
    ensures |s| >= width && AllDigits(s, 16) && Cased(s, false)
    ensures |Format(n, 16, false)| <= width ==> |s| == width
    ensures Value(s, 16) == n
  {
    var digits := Format(n, 16, false);
    FormatValue(n, 16, false);
    LeadingZeros(if |digits| < width then width - |digits| else 0, digits, 16);
    Zeros(if |digits| < width then width - |digits| else 0) + digits
  }

  /** A value below 16^k has at most k hex digits. */
  lemma {:induction false} FormatFits(n: nat, k: nat)
    requires n < Pow(16, k) && k > 0
    ensures |Format(n, 16, false)| <= k
    decreases k
  {
    if n >= 16 {
      FormatFits(n / 16, k - 1);
    }
  }

  function Pow(b: nat, k: nat): (r: nat)
    ensures b > 0 ==> r > 0
  {
    if k == 0 then 1 else b * Pow(b, k - 1)
  }

  lemma {:induction false} PowAdd(b: nat, m: nat, n: nat)
    ensures Pow(b, m + n) == Pow(b, m) * Pow(b, n)
  {
    if m > 0 {
      PowAdd(b, m - 1, n);
      assert Pow(b, m + n) == b * Pow(b, m - 1 + n);
      MulAssoc(b, Pow(b, m - 1), Pow(b, n));
    }
  }

  lemma MulAssoc(x: nat, y: nat, z: nat)
    ensures x * (y * z) == (x * y) * z
  {
  }

  lemma Pow2To32()
    ensures Pow(2, 32) == 0x1_0000_0000
  {
    var p8 := Pow(2, 8);
    assert p8 == 256;
    PowAdd(2, 8, 8);
    var p16 := Pow(2, 16);
    assert p16 == p8 * p8 == 65536;
    PowAdd(2, 16, 16);
    assert Pow(2, 32) == p16 * p16;
  }

  /** The text with every `_` removed, as `re.sub(r'_', '', n)` gives it. */
  function RemoveUnderscores(s: string): (t: string)
    ensures |t| <= |s|
    decreases |s|
  {
    if |s| == 0 then "" else (if s[0] == '_' then "" else [s[0]]) + RemoveUnderscores(s[1..])
  }

  /** Text without a `_` is kept whole. */
  lemma {:induction false} RemoveUnderscoresKeeps(s: string)
    requires forall i :: 0 <= i < |s| ==> s[i] != '_'
    ensures RemoveUnderscores(s) == s
    decreases |s|
  {
    if |s| > 0 {
      RemoveUnderscoresKeeps(s[1..]);
      assert [s[0]] + s[1..] == s;
    }
  }

  /** The digit strings `int(s, base)` accepts: digits of the base, with
      single `_` separators between two digits. */
  predicate Separated(s: string, base: nat) {
    |s| > 0 && IsDigit(s[0], base) && forall i :: 0 <= i < |s| ==> SeparatorRule(s, base, i)
  }

  /** Position `i` holds a digit, or a `_` with a digit after it. */
  predicate SeparatorRule(s: string, base: nat, i: nat)
    requires i < |s|
  {
    IsDigit(s[i], base) || (s[i] == '_' && i + 1 < |s| && IsDigit(s[i + 1], base))
  }

  /** Digits and separators lose their separators to a digit string. */
  lemma {:induction false} DigitsWithoutSeparators(s: string, base: nat)
    requires forall i :: 0 <= i < |s| ==> IsDigit(s[i], base) || s[i] == '_'
    ensures AllDigits(RemoveUnderscores(s), base)
    decreases |s|
  {
    if |s| > 0 {
      DigitsWithoutSeparators(s[1..], base);
    }
  }

  /** Python's `int(s, base)` on separated digit strings: their value with
      the separators dropped; anything else (the empty string included)
      raises, which is `None` here. */
  function ParseInt(s: string, base: nat): (r: Option<nat>)
    ensures r.Some? <==> Separated(s, base)
    ensures r.Some? ==> AllDigits(RemoveUnderscores(s), base) && r.value == Value(RemoveUnderscores(s), base)
  {
    if Separated(s, base) then
      forall i | 0 <= i < |s| ensures IsDigit(s[i], base) || s[i] == '_' {
        assert SeparatorRule(s, base, i);
      }
      DigitsWithoutSeparators(s, base);
      Some(Value(RemoveUnderscores(s), base))
    else None
  }

  /** A plain digit string of a base reads as its value. */
  lemma ParseIntPlain(s: string, base: nat)
    requires IsBase(base) && |s| > 0 && AllDigits(s, base)
    ensures ParseInt(s, base) == Some(Value(s, base))
  {
    assert forall i :: 0 <= i < |s| ==> s[i] != '_' by {
      assert DigitValue('_') == 99;
    }
    RemoveUnderscoresKeeps(s);
    assert Separated(s, base);
  }

  /** Separators between digits are skipped; a leading, trailing or doubled
      separator makes `int` raise. */
  lemma ParseIntSeparators()
    ensures ParseInt("9_1", 10) == Some(91)
    ensures ParseInt("_1", 10).None? && ParseInt("1_", 10).None? && ParseInt("1__0", 10).None?
  {
    assert RemoveUnderscores("9_1") == "91" by {
      assert "9_1"[1..] == "_1";
      assert "_1"[1..] == "1";
      assert "1"[1..] == "";
    }
    assert "91"[..1] == "9" && "9"[..0] == "";
    assert Value("9", 10) == 9;
    assert Value("91", 10) == 91;
    assert !IsDigit('_', 10);
    assert !SeparatorRule("1_", 10, 1);
    assert !SeparatorRule("1__0", 10, 1);
    assert Separated("9_1", 10) by {
      assert SeparatorRule("9_1", 10, 0) && SeparatorRule("9_1", 10, 1) && SeparatorRule("9_1", 10, 2);
    }
  }

  /** The scripts' `makeint`: `int(s, base)`, or 0 when that raises. */
  function MakeInt(s: string, base: nat): (n: nat)
    ensures ParseInt(s, base).Some? ==> n == ParseInt(s, base).value
    ensures ParseInt(s, base).None? ==> n == 0
  {
    match ParseInt(s, base)
    case Some(v) => v
    case None => 0
  }

  /** `makeint` reads back the decimal or hex text of every number. */
  lemma MakeIntFormat(n: nat, base: nat)
    requires IsBase(base)
    ensures MakeInt(Format(n, base, false), base) == n && MakeInt(Format(n, base, true), base) == n
  {
    FormatValue(n, base, false);
    FormatValue(n, base, true);
    ParseIntPlain(Format(n, base, false), base);
    ParseIntPlain(Format(n, base, true), base);
  }
}
