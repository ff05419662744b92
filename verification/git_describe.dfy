/** Reading the output of `git describe` into version numbers, as
    `get_gitver` and `decode_version` do in betrusted_ec.py (`GitInfo`) and in
    betrusted-ec.py (`Version`). The two copies parse identically once git
    has succeeded; they differ only in what they do when git fails, which
    `EcSoc` and `LegacySoc` model. */
module GitDescribe {
  import opened Wrappers
  import opened Numerals

  /** The Python exceptions the modelled scripts can raise. */
  datatype PyError = IndexError | TypeError | ValueError | NameError

  datatype GitVersion = GitVersion(major: nat, minor: nat, rev: nat, gitrev: nat, gitextra: nat, dirty: bool)

  const ZERO_VERSION := GitVersion(0, 0, 0, 0, 0, false)

  /** Python's `s.split(c)`: the pieces between separators, empty ones
      included; there is always at least one piece. */
  function Split(s: string, c: char): (parts: seq<string>)
    ensures |parts| > 0
  {
    if |s| == 0 then [""]
    else
      var rest := Split(s[1..], c);
      if s[0] == c then [""] + rest else [[s[0]] + rest[0]] + rest[1..]
  }

  /** A string without the separator is one piece. */
  lemma {:induction false} SplitNone(s: string, c: char)
    requires c !in s
    ensures Split(s, c) == [s]
  {
    if |s| > 0 {
      SplitNone(s[1..], c);
      assert [s[0]] + s[1..] == s;
    }
  }

  /** The first separator ends the first piece. */
  lemma {:induction false} SplitJoin(a: string, c: char, b: string)
    requires c !in a
    ensures Split(a + [c] + b, c) == [a] + Split(b, c)
  {
    if |a| > 0 {
      SplitJoin(a[1..], c, b);
      assert (a + [c] + b)[1..] == a[1..] + [c] + b;
      assert [a[0]] + a[1..] == a;
    } else {
      assert (a + [c] + b)[1..] == b;
    }
  }

  /** Python's white space, as `str.isspace` and the `\s` class of `re`
      define it: `\t` to `\r`, the separators 0x1C to 0x1F, the space,
      0x85, 0xA0 and the Unicode spaces and line and paragraph separators. */
  predicate IsSpace(c: char) {
    || '\t' <= c <= '\r' || '\U{1c}' <= c <= '\U{1f}' || c == ' ' || c == '\U{85}' || c == '\U{a0}'
    || c == '\U{1680}' || '\U{2000}' <= c <= '\U{200a}' || c == '\U{2028}' || c == '\U{2029}'
    || c == '\U{202f}' || c == '\U{205f}' || c == '\U{3000}'
  }

  /** Python's `s.strip()`. */
  function Strip(s: string): (t: string)
    ensures |t| > 0 ==> !IsSpace(t[0]) && !IsSpace(t[|t| - 1])
    ensures |t| <= |s|
  {
    if |s| > 0 && IsSpace(s[0]) then Strip(s[1..])
    else if |s| > 0 && IsSpace(s[|s| - 1]) then Strip(s[..|s| - 1])
    else s
  }

  /** Stripping the newline git ends its output with gives back a line
      without white space at its ends. */
  lemma StripLine(s: string)
    requires |s| > 0 && !IsSpace(s[0]) && !IsSpace(s[|s| - 1])
    ensures Strip(s + "\n") == s
  {
    assert (s + "\n")[..|s + "\n"| - 1] == s;
  }

  function StartsWith(s: string, c: char): bool { |s| > 0 && s[0] == c }

  /** `s[1:]` after a `startswith("v")` test: drops a leading `c` if there is
      one. */
  function DropPrefix(s: string, c: char): string { if StartsWith(s, c) then s[1..] else s }

  /** `decode_version`: the first three dot-separated fields as decimal
      numbers, each 0 when missing or not a number. */
  function DecodeVersion(v: string): (mmr: (nat, nat, nat))
    ensures var parts := Split(v, '.');
      mmr.0 == MakeInt(parts[0], 10)
      && mmr.1 == (if |parts| >= 2 then MakeInt(parts[1], 10) else 0)
      && mmr.2 == (if |parts| >= 3 then MakeInt(parts[2], 10) else 0)
  {
    var version := Split(v, '.');
    var rev := if |version| >= 3 then MakeInt(version[2], 10) else 0;
    var minor := if |version| >= 2 then MakeInt(version[1], 10) else 0;
    var major := MakeInt(version[0], 10);
    (major, minor, rev)
  }

  /** `get_gitver` after git succeeded, given git's standard output. An
      empty output makes `raw_git_rev[-1]` raise; otherwise a trailing `+`
      marks a dirty tree and is cut off before the line is split at `-`. */
  function ParseDescribe(stdout: string): (r: Result<GitVersion, PyError>)
    ensures r.Err? <==> |Strip(stdout)| == 0
    ensures r.Ok? ==> (r.value.dirty <==> Strip(stdout)[|Strip(stdout)| - 1] == '+')
  {
    var raw := Strip(stdout);
    if |raw| == 0 then Err(IndexError)
    else
      var dirty := raw[|raw| - 1] == '+';
      var rawGitRev := if dirty then raw[..|raw| - 1] else raw;
      Ok(PartsVersion(Split(rawGitRev, '-'), dirty))
  }

  /** The fields read from the `-`-separated pieces: three or more pieces
      are tag, commit count and `g`-prefixed hash (the tag is decoded only
      when it starts with `v`); two are tag and hash; one is the tag. */
  function PartsVersion(parts: seq<string>, dirty: bool): (g: GitVersion)
    requires |parts| > 0
    ensures g.dirty == dirty
    ensures |parts| < 3 ==> g.gitextra == 0
    ensures |parts| == 1 ==> g.gitrev == 0
  {
    if |parts| >= 3 then
      var mmr := if StartsWith(parts[0], 'v') then DecodeVersion(parts[0][1..]) else (0, 0, 0);
      var gitextra := MakeInt(parts[1], 10);
      var gitrev := if StartsWith(parts[2], 'g') then MakeInt(parts[2][1..], 16) else 0;
      GitVersion(mmr.0, mmr.1, mmr.2, gitrev, gitextra, dirty)
    else if |parts| == 2 then
      var gitrev := if StartsWith(parts[1], 'g') then MakeInt(parts[1][1..], 16) else 0;
      var mmr := DecodeVersion(DropPrefix(parts[0], 'v'));
      GitVersion(mmr.0, mmr.1, mmr.2, gitrev, 0, dirty)
    else
      var mmr := DecodeVersion(DropPrefix(parts[0], 'v'));
      GitVersion(mmr.0, mmr.1, mmr.2, 0, 0, dirty)
  }

  /** `vMAJOR.MINOR.REV`, the tag form the parser expects. */
  function TagName(major: nat, minor: nat, rev: nat): string
  {
    ['v'] + Triple(major, minor, rev)
  }

  /** `MAJOR.MINOR.REV` in decimal. */
  function Triple(major: nat, minor: nat, rev: nat): string
  {
    Format(major, 10, false) + ['.'] + (Format(minor, 10, false) + ['.'] + Format(rev, 10, false))
  }

  /** The line `git describe --tags --long --dirty=+ --abbrev=8` prints for
      a build `gitextra` commits past tag vMAJOR.MINOR.REV, at a commit whose
      hash starts with the eight hex digits of `gitrev`. */
  function DescribeLong(g: GitVersion): string
    requires g.gitrev < 0x1_0000_0000
  {
    DescribeBody(g) + (if g.dirty then "+" else "") + "\n"
  }

  /** A digit string holds no punctuation. */
  lemma DigitsHaveNo(s: string, base: nat, c: char)
    requires AllDigits(s, base) && base <= 16 && DigitValue(c) >= 16
    ensures c !in s
  {
  }

  /** `decode_version` reads back the numbers of a dotted triple. */
  lemma DecodeTriple(major: nat, minor: nat, rev: nat)
    ensures DecodeVersion(Triple(major, minor, rev)) == (major, minor, rev)
  {
    var a, b, c := Format(major, 10, false), Format(minor, 10, false), Format(rev, 10, false);
    DigitsHaveNo(a, 10, '.');
    DigitsHaveNo(b, 10, '.');
    DigitsHaveNo(c, 10, '.');
    SplitNone(c, '.');
    SplitJoin(b, '.', c);
    SplitJoin(a, '.', b + ['.'] + c);
    MakeIntFormat(major, 10);
    MakeIntFormat(minor, 10);
    MakeIntFormat(rev, 10);
  }

  /** The line without its newline and dirty mark. */
  function DescribeBody(g: GitVersion): string
    requires g.gitrev < 0x1_0000_0000
  {
    TagName(g.major, g.minor, g.rev) + ['-'] + (Format(g.gitextra, 10, false) + ['-'] + HashPiece(g.gitrev))
  }

  /** `g` and the eight hex digits of the abbreviated hash. */
  function HashPiece(gitrev: nat): string
  {
    ['g'] + PaddedHex(gitrev, 8)
  }

  lemma DescribeLongStrip(g: GitVersion)
    requires g.gitrev < 0x1_0000_0000
    ensures var raw := Strip(DescribeLong(g));
      |raw| > 0 && (raw[|raw| - 1] == '+' <==> g.dirty)
      && (if g.dirty then raw[..|raw| - 1] else raw) == DescribeBody(g)
  {
    var hex := PaddedHex(g.gitrev, 8);
    var body := DescribeBody(g);
    var line := body + (if g.dirty then "+" else "");
    assert DescribeLong(g) == line + "\n";
    assert line[0] == 'v';
    assert line[|line| - 1] == if g.dirty then '+' else hex[|hex| - 1];
    assert IsDigit(hex[|hex| - 1], 16);
    StripLine(line);
    assert (if g.dirty then line[..|line| - 1] else line) == body;
  }

  lemma TagHasNoDash(major: nat, minor: nat, rev: nat)
    ensures '-' !in TagName(major, minor, rev)
  {
    DigitsHaveNo(Format(major, 10, false), 10, '-');
    DigitsHaveNo(Format(minor, 10, false), 10, '-');
    DigitsHaveNo(Format(rev, 10, false), 10, '-');
  }

  lemma DescribeBodySplit(g: GitVersion)
    requires g.gitrev < 0x1_0000_0000
    ensures Split(DescribeBody(g), '-')
      == [TagName(g.major, g.minor, g.rev), Format(g.gitextra, 10, false), HashPiece(g.gitrev)]
  {
    var tag := TagName(g.major, g.minor, g.rev);
    var extra := Format(g.gitextra, 10, false);
    var hash := HashPiece(g.gitrev);
    TagHasNoDash(g.major, g.minor, g.rev);
    DigitsHaveNo(extra, 10, '-');
    DigitsHaveNo(PaddedHex(g.gitrev, 8), 16, '-');
    SplitNone(hash, '-');
    SplitJoin(extra, '-', hash);
    SplitJoin(tag, '-', extra + ['-'] + hash);
  }

  lemma DescribePartsVersion(g: GitVersion)
    requires g.gitrev < 0x1_0000_0000
    ensures PartsVersion([TagName(g.major, g.minor, g.rev), Format(g.gitextra, 10, false), HashPiece(g.gitrev)], g.dirty) == g
  {
    assert TagName(g.major, g.minor, g.rev)[1..] == Triple(g.major, g.minor, g.rev);
    assert HashPiece(g.gitrev)[1..] == PaddedHex(g.gitrev, 8);
    DecodeTriple(g.major, g.minor, g.rev);
    MakeIntFormat(g.gitextra, 10);
    ParseIntPlain(PaddedHex(g.gitrev, 8), 16);
  }

  /** The parser reads back every field of the long describe line. */
  lemma ParseDescribeLong(g: GitVersion)
    requires g.gitrev < 0x1_0000_0000
    ensures ParseDescribe(DescribeLong(g)) == Ok(g)
  {
    DescribeLongStrip(g);
    DescribeBodySplit(g);
    DescribePartsVersion(g);
  }

  /** At a tagged commit the short form `git describe --tags` prints only
      the tag; the parser then reads the three numbers and nothing else. */
  lemma ParseExactTag(major: nat, minor: nat, rev: nat)
    ensures ParseDescribe(TagName(major, minor, rev) + "\n") == Ok(GitVersion(major, minor, rev, 0, 0, false))
  {
    var tag := TagName(major, minor, rev);
    var c := Format(rev, 10, false);
    assert tag[|tag| - 1] == c[|c| - 1];
    assert IsDigit(c[|c| - 1], 10);
    StripLine(tag);
    TagHasNoDash(major, minor, rev);
    SplitNone(tag, '-');
    assert DropPrefix(tag, 'v') == Triple(major, minor, rev);
    DecodeTriple(major, minor, rev);
  }
}
