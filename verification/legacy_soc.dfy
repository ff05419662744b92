/** Gateware logic of the earlier SoC script (betrusted-ec.py): the
    power-on reset counter of `_CRG`, the reset key of `SBWarmBoot`, and the
    version CSRs of `Version`. */
module LegacySoc {
  import opened Wrappers
  import opened GitDescribe
  import Multiboot

  /** The reset value of the 12-bit power-on counter. */
  const RESET_DELAY: nat := 4095

  /** The power-on reset counter, clocked in the `por` domain. */
  class PorCounter {
    var resetDelay: nat

    ghost predicate Valid()
      reads this
    {
      resetDelay <= RESET_DELAY
    }

    constructor ()
      ensures Valid() && resetDelay == RESET_DELAY
    {
      resetDelay := RESET_DELAY;
    }

    /** The system domain is held in reset while the counter is nonzero. */
    function SysReset(): bool
      reads this
    {
      resetDelay != 0
    }

    /** One clock: the `por` domain's own reset (`self.reset`) reloads the
        counter; otherwise it counts down and stops at 0. */
    method Step(porReset: bool)
      requires Valid()
      modifies this
      ensures Valid()
      ensures resetDelay == DelayNext(old(resetDelay), porReset)
    {
      if porReset {
        resetDelay := RESET_DELAY;
      } else if resetDelay != 0 {
        resetDelay := resetDelay - 1;
      }
    }
  }

  function DelayNext(delay: nat, porReset: bool): nat
  {
    if porReset then RESET_DELAY else if delay != 0 then delay - 1 else 0
  }

  /** The counter after `k` clocks with no `por` reset. */
  function DelayAfter(delay: nat, k: nat): nat
    decreases k
  {
    if k == 0 then delay else DelayAfter(DelayNext(delay, false), k - 1)
  }

  /** After power-on the system reset is held for exactly 4095 clocks: the
      counter is 4095 - k for k <= 4095 and 0 from then on. */
  lemma {:induction false} DelayCountsDown(delay: nat, k: nat)
    ensures DelayAfter(delay, k) == if k <= delay then delay - k else 0
    decreases k
  {
    if k > 0 {
      DelayCountsDown(DelayNext(delay, false), k - 1);
    }
  }

  lemma PowerOnReset(k: nat)
    ensures DelayAfter(RESET_DELAY, k) != 0 <==> k < RESET_DELAY
  {
    DelayCountsDown(RESET_DELAY, k);
  }

  /** `do_reset` of `SBWarmBoot`, bit by bit: bits 2, 3, 5 and 7 of the
      control register set and bits 4 and 6 clear. */
  predicate DoReset(ctrl: bv8)
  {
    (ctrl >> 2) & 1 == 1 && (ctrl >> 3) & 1 == 1 && (ctrl >> 4) & 1 == 0
    && (ctrl >> 5) & 1 == 1 && (ctrl >> 6) & 1 == 0 && (ctrl >> 7) & 1 == 1
  }

  /** The reset key: bits 7..2 must read 101011, so a warm boot is
      triggered by 0xAC, 0xAD, 0xAE or 0xAF and by nothing else. */
  lemma DoResetKey(ctrl: bv8)
    ensures DoReset(ctrl) <==> ctrl & 0xFC == 0xAC
  {
  }

  /** The image a warm boot selects: S1 and S0 are control bits 1 and 0,
      picking one of the four warm-boot entries after the power-on entry. */
  function WarmBootImage(ctrl: bv8): (i: nat)
    ensures 1 <= i <= 4
  {
    1 + (ctrl & 3) as nat
  }

  /** With the build's multiboot header, writing 0xAC + s boots the image
      at the s-th warm-boot offset. */
  lemma WarmBootTarget(s: bv8)
    requires s < 4
    ensures DoReset(0xAC | s)
    ensures Multiboot.EntryOffset(Multiboot.Header(Multiboot.BUILD_OFFSETS), WarmBootImage(0xAC | s))
      == Multiboot.BUILD_OFFSETS[1 + s as nat]
  {
    DoResetKey(0xAC | s);
    assert (0xAC | s) & 3 == s;
    Multiboot.BuildHeaderFits();
  }

  /** The `Version` CSRs, each as wide as its declaration. */
  datatype VersionCsrs = VersionCsrs(major: nat, minor: nat, revision: nat, gitrev: nat,
                                     gitextra: nat, dirty: bool, model: nat)

  /** The board-model letter, the upper-case initial of a known board model, or
      '?' for anything else. */
  function ModelLetter(model: string): (c: nat)
    ensures model == "evt" || model == "dvt" || model == "pvt" || model == "hacker" ==>
      c == model[0] as nat - 32
    ensures !(model == "evt" || model == "dvt" || model == "pvt" || model == "hacker") ==> c == '?' as nat
  {
    if model == "evt" then 0x45
    else if model == "dvt" then 0x44
    else if model == "pvt" then 0x50
    else if model == "hacker" then 0x48
    else 0x3f
  }

  /** The values the CSRs hold: each field cut to its width (8, 8, 8, 32
      and 10 bits). */
  function Registers(v: GitVersion, model: string): (c: VersionCsrs)
    ensures c.major < 256 && c.minor < 256 && c.revision < 256 && c.gitrev < 0x1_0000_0000 && c.gitextra < 1024
    ensures v.major < 256 && v.minor < 256 && v.rev < 256 && v.gitrev < 0x1_0000_0000 && v.gitextra < 1024 ==>
      c == VersionCsrs(v.major, v.minor, v.rev, v.gitrev, v.gitextra, v.dirty, ModelLetter(model))
  {
    VersionCsrs(v.major % 256, v.minor % 256, v.rev % 256, v.gitrev % 0x1_0000_0000, v.gitextra % 1024,
                v.dirty, ModelLetter(model))
  }

  /** How `git describe` ended. */
  datatype GitOutcome = GitFailed | GitOutput(stdout: string)

  /** `get_gitver` as written: a failed git makes it print a message and
      return None. */
  function GetGitverAsWritten(git: GitOutcome): (r: Result<Option<GitVersion>, PyError>)
    ensures git.GitFailed? ==> r == Ok(None)
  {
    match git
    case GitFailed => Ok(None)
    case GitOutput(stdout) =>
      match ParseDescribe(stdout)
      case Ok(v) => Ok(Some(v))
      case Err(e) => Err(e)
  }

  /** `Version(model)` as written: unpacking six values from the None of a
      failed git raises TypeError. */
  function VersionAsWritten(git: GitOutcome, model: string): (r: Result<VersionCsrs, PyError>)
  {
    match GetGitverAsWritten(git)
    case Err(e) => Err(e)
    case Ok(None) => Err(TypeError)
    case Ok(Some(v)) => Ok(Registers(v, model))
  }

  /** Building outside a git checkout aborts the whole build. */
  lemma GitFailureAborts(model: string)
    ensures VersionAsWritten(GitFailed, model) == Err(TypeError)
  {
  }

  /** `Version(model)` with the fallback the newer `GitInfo` has: a failed
      git gives all-zero version fields. */
  function Version(git: GitOutcome, model: string): (r: Result<VersionCsrs, PyError>)
  {
    match git
    case GitFailed => Ok(Registers(ZERO_VERSION, model))
    case GitOutput(stdout) =>
      match ParseDescribe(stdout)
      case Ok(v) => Ok(Registers(v, model))
      case Err(e) => Err(e)
  }

  /** Where git succeeds the two agree; where it fails the corrected one
      still builds, with zero version fields and the model letter. */
  lemma VersionFallback(git: GitOutcome, model: string)
    ensures git.GitOutput? ==> Version(git, model) == VersionAsWritten(git, model)
    ensures Version(GitFailed, model) == Ok(VersionCsrs(0, 0, 0, 0, 0, false, ModelLetter(model)))
  {
  }

  /** At a tagged commit the short describe line gives the CSRs the tag's
      numbers and nothing else. */
  lemma VersionAtTag(major: nat, minor: nat, rev: nat, model: string)
    requires major < 256 && minor < 256 && rev < 256
    ensures Version(GitOutput(TagName(major, minor, rev) + "\n"), model)
      == Ok(VersionCsrs(major, minor, rev, 0, 0, false, ModelLetter(model)))
  {
    ParseExactTag(major, minor, rev);
  }
}
