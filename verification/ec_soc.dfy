/** Gateware logic of the current EC SoC (betrusted_ec.py): the extcomm
    divider and the watchdog built on it, the power-pad logic of `BtPower`,
    the read handshake of `PicoRVSpi`, and the version CSRs of `GitInfo`.
    Each synchronous block is one clock step of the system domain. */
module EcSoc {
  import opened Wrappers
  import opened GitDescribe

  /** The extcomm divider's reload value, `int(12e6)`. */
  const EXTCOMM_RELOAD: nat := 12_000_000

  /** The divider is 24 bits wide and the reload value fits. */
  lemma ReloadFits()
    ensures EXTCOMM_RELOAD < 0x100_0000
  {
  }

  /** The divider's next value: reload at 0, count down otherwise. */
  function DividerNext(div: nat): nat
  {
    if div == 0 then EXTCOMM_RELOAD else div - 1
  }

  /** The divider after `k` clocks. */
  function DividerAfter(div: nat, k: nat): nat
    decreases k
  {
    if k == 0 then div else DividerAfter(DividerNext(div), k - 1)
  }

  /** From any value the divider counts straight down, and one clock after
      reaching 0 it holds the reload value again: the period is
      EXTCOMM_RELOAD + 1 clocks. */
  lemma {:induction false} DividerCountsDown(div: nat, k: nat)
    requires k <= div
    ensures DividerAfter(div, k) == div - k
    ensures DividerAfter(div, div + 1) == EXTCOMM_RELOAD
  {
    if k > 0 {
      DividerCountsDown(div - 1, k - 1);
    }
    if div > 0 {
      DividerCountsDown(div - 1, 0);
    }
  }

  /** extcomm is high in exactly the last 13 clocks of each period. */
  lemma ExtcommWindow(k: nat)
    requires k <= EXTCOMM_RELOAD
    ensures DividerAfter(EXTCOMM_RELOAD, k) < 13 <==> k > EXTCOMM_RELOAD - 13
  {
    DividerCountsDown(EXTCOMM_RELOAD, k);
  }

  datatype WdogState = Idle | WaitArm | Armed | Disarm1 | Disarmed

  /** The two codes that, written in order, disarm the watchdog. */
  const DISARM_CODE1: nat := 0x600d
  const DISARM_CODE2: nat := 0xc0de

  /** The watchdog FSM's next state. `cycle` is the rising edge of extcomm;
      `we` is a write to the watchdog CSR with reset code `code`. */
  function WdogNext(s: WdogState, enabled: bool, cycle: bool, we: bool, code: nat): WdogState
  {
    match s
    case Idle => if enabled then WaitArm else Idle
    case WaitArm => if cycle then Armed else WaitArm
    case Armed => if we && code == DISARM_CODE1 then Disarm1 else Armed
    case Disarm1 => if we then (if code == DISARM_CODE2 then Disarmed else Armed) else Disarm1
    case Disarmed => if cycle then Armed else Disarmed
  }

  /** The FSM asserts the system reset when a cycle arrives while it is
      armed or half-way through disarming. */
  predicate WdogReset(s: WdogState, cycle: bool)
  {
    cycle && (s == Armed || s == Disarm1)
  }

  /** The transitions the watchdog is designed around: it arms on the
      first cycle after it is enabled, only the sequence 0x600d, 0xc0de
      disarms it, any other second write re-arms it, and a disarmed watchdog
      re-arms on the next cycle. */
  lemma WdogTransitions(s: WdogState, enabled: bool, cycle: bool, we: bool, code: nat)
    ensures WdogNext(Idle, enabled, cycle, we, code) == (if enabled then WaitArm else Idle)
    ensures WdogNext(WaitArm, enabled, true, we, code) == Armed
    ensures WdogNext(s, enabled, cycle, we, code) == Disarmed <==>
      (s == Disarm1 && we && code == DISARM_CODE2) || (s == Disarmed && !cycle)
    ensures WdogNext(s, enabled, cycle, we, code) == Disarm1 <==>
      (s == Armed && we && code == DISARM_CODE1) || (s == Disarm1 && !we)
    ensures s == Disarm1 && we && code != DISARM_CODE2 ==> WdogNext(s, enabled, cycle, we, code) == Armed
    ensures WdogNext(Disarmed, enabled, true, we, code) == Armed
  {
  }

  /** Kicking the watchdog once per period keeps it from resetting: from
      ARMED, the two writes take it to DISARMED, where a cycle only re-arms
      it. */
  lemma WdogKick(enabled: bool)
    ensures var s1 := WdogNext(Armed, enabled, false, true, DISARM_CODE1);
      var s2 := WdogNext(s1, enabled, false, true, DISARM_CODE2);
      s2 == Disarmed && !WdogReset(s2, true) && WdogNext(s2, enabled, true, false, 0) == Armed
  {
  }

  /** The system-domain registers the watchdog logic owns. */
  class Watchdog {
    var extcommDiv: nat
    var extcomm: bool
    var cycleR: bool
    var wdogEnabled: bool
    var state: WdogState

    ghost predicate Valid()
      reads this
    {
      extcommDiv <= EXTCOMM_RELOAD
    }

    /** The reset values. */
    constructor ()
      ensures Valid()
      ensures extcommDiv == EXTCOMM_RELOAD && !extcomm && !cycleR && !wdogEnabled && state == Idle
    {
      extcommDiv := EXTCOMM_RELOAD;
      extcomm := false;
      cycleR := false;
      wdogEnabled := false;
      state := Idle;
    }

    /** `wdog_cycle`: the rising edge of extcomm. */
    function Cycle(): bool
      reads this
    {
      extcomm && !cycleR
    }

    /** One system clock. `enable` is the CSR's enable field, and `we` and
        `code` a write of the reset code. When the FSM raises the system
        reset, every register of the domain returns to its reset value
        (the enable field too, which is what disables a bitten watchdog);
        otherwise each register takes its next value. */
    method Step(enable: bool, we: bool, code: nat) returns (sysRst: bool)
      requires Valid()
      modifies this
      ensures Valid()
      ensures sysRst == WdogReset(old(state), old(Cycle()))
      ensures sysRst ==> extcommDiv == EXTCOMM_RELOAD && !extcomm && !cycleR && !wdogEnabled && state == Idle
      ensures !sysRst ==>
        extcommDiv == DividerNext(old(extcommDiv))
        && extcomm == (old(extcommDiv) < 13)
        && cycleR == old(extcomm)
        && wdogEnabled == (enable || old(wdogEnabled))
        && state == WdogNext(old(state), old(wdogEnabled), old(Cycle()), we, code)
    {
      var cycle := extcomm && !cycleR;
      sysRst := false;
      var next := state;
      match state {
        case Idle =>
          if wdogEnabled {
            next := WaitArm;
          }
        case WaitArm =>
          if cycle {
            next := Armed;
          }
        case Armed =>
          if cycle {
            sysRst := true;
          }
          if we && code == DISARM_CODE1 {
            next := Disarm1;
          }
        case Disarm1 =>
          if cycle {
            sysRst := true;
          }
          if we {
            if code == DISARM_CODE2 {
              next := Disarmed;
            } else {
              next := Armed;
            }
          }
        case Disarmed =>
          if cycle {
            next := Armed;
          }
      }
      if sysRst {
        extcommDiv, extcomm, cycleR, wdogEnabled, state := EXTCOMM_RELOAD, false, false, false, Idle;
      } else {
        var nextDiv := if extcommDiv == 0 then EXTCOMM_RELOAD else extcommDiv - 1;
        extcommDiv, extcomm, cycleR := nextDiv, extcommDiv < 13, extcomm;
        if enable {
          wdogEnabled := true;
        }
        state := next;
      }
    }
  }

  /** `wdog_enabled`'s next value given the enable field and whether the
      domain is being reset. */
  function EnabledNext(enabled: bool, enable: bool, rst: bool): bool
  {
    if rst then false else enable || enabled
  }

  /** `wdog_enabled` after a run of clocks, each with its enable field and
      reset. */
  function EnabledAfter(enabled: bool, run: seq<(bool, bool)>): bool
    decreases |run|
  {
    if |run| == 0 then enabled else EnabledAfter(EnabledNext(enabled, run[0].0, run[0].1), run[1..])
  }

  /** Once enabled, the watchdog stays enabled through any run of clocks
      without a reset, whatever is written to the enable field. */
  lemma {:induction false} EnabledSticky(run: seq<(bool, bool)>)
    requires forall i :: 0 <= i < |run| ==> !run[i].1
    ensures EnabledAfter(true, run)
  {
    if |run| > 0 {
      EnabledSticky(run[1..]);
    }
  }

  /** The reset happens only in ARMED or DISARM1 and only on a cycle. */
  lemma WdogResetOnlyArmed(s: WdogState, cycle: bool)
    ensures WdogReset(s, cycle) ==> cycle
    ensures s == Idle || s == WaitArm || s == Disarmed ==> !WdogReset(s, cycle)
  {
  }

  /** The power CSR fields `BtPower` drives pads from. */
  datatype PowerCsr = PowerCsr(self: bool, socOn: bool, discharge: bool)

  datatype PowerPads = PowerPads(sysOn: bool, uToTOn: bool, fpgaDis: bool, state: bool)

  /** `BtPower`'s combinational outputs for pad input `s0`. */
  function PowerOutputs(csr: PowerCsr, s0: bool): (p: PowerPads)
    ensures p.fpgaDis ==> !s0 && csr.discharge
    ensures p.state == s0
  {
    PowerPads(csr.self, csr.socOn, csr.discharge && !s0, s0)
  }

  /** The FPGA is discharged only while it reports itself off, and a
      discharge request is honoured as soon as it does. */
  lemma DischargeOnlyWhenOff(csr: PowerCsr, s0: bool)
    ensures PowerOutputs(csr, s0).fpgaDis <==> csr.discharge && !s0
    ensures PowerOutputs(csr, s0).sysOn == csr.self && PowerOutputs(csr, s0).uToTOn == csr.socOn
  {
  }

  /** The SPI flash read handshake of `PicoRVSpi`: `readActive` and the
      wishbone `ack`. */
  class FlashReadPort {
    var readActive: bool
    var ack: bool

    constructor ()
      ensures !readActive && !ack
    {
      readActive := false;
      ack := false;
    }

    /** One clock: a strobe with no read active starts one; an active read
        whose data is ready acknowledges and ends; anything else drops both,
        an active read that is not ready included. */
    method Step(stbCyc: bool, spiReady: bool)
      modifies this
      ensures stbCyc && !old(readActive) ==> readActive && !ack
      ensures !(stbCyc && !old(readActive)) ==> !readActive && ack == (old(readActive) && spiReady)
    {
      if stbCyc && !readActive {
        readActive := true;
        ack := false;
      } else if readActive && spiReady {
        readActive := false;
        ack := true;
      } else {
        ack := false;
        readActive := false;
      }
    }
  }

  /** The handshake as a function of the previous cycle, for reasoning
      over several clocks. */
  function ReadStep(readActive: bool, stbCyc: bool, spiReady: bool): (next: (bool, bool))
    ensures next.1 ==> readActive && spiReady
    ensures next.0 ==> !readActive
  {
    if stbCyc && !readActive then (true, false)
    else if readActive && spiReady then (false, true)
    else (false, false)
  }

  /** A read is never active two clocks running, and `ack` is never high
      two clocks running, whatever the inputs. */
  lemma AckNotRepeated(readActive: bool, s1: bool, r1: bool, s2: bool, r2: bool)
    ensures var n1 := ReadStep(readActive, s1, r1); var n2 := ReadStep(n1.0, s2, r2);
      !(n1.0 && n2.0) && !(n1.1 && n2.1)
  {
  }

  /** How `git describe` ended. */
  datatype GitOutcome = GitFailed | GitOutput(stdout: string)

  /** `GitInfo.get_gitver`: a failed git gives all zeros. */
  function GitInfoVersion(git: GitOutcome): (r: Result<GitVersion, PyError>)
    ensures git.GitFailed? ==> r == Ok(ZERO_VERSION)
    ensures git.GitOutput? ==> r == ParseDescribe(git.stdout)
  {
    match git
    case GitFailed => Ok(ZERO_VERSION)
    case GitOutput(stdout) => ParseDescribe(stdout)
  }

  /** The two CSRs `GitInfo` keeps: the 32-bit gitrev and the dirty bit. */
  datatype GitInfoCsrs = GitInfoCsrs(gitrev: nat, dirty: bool)

  function GitInfoRegisters(v: GitVersion): (c: GitInfoCsrs)
    ensures c.gitrev < 0x1_0000_0000
  {
    GitInfoCsrs(v.gitrev % 0x1_0000_0000, v.dirty)
  }

  /** Built from a described commit, the CSRs hold its abbreviated hash and
      dirty mark; built where git fails, they hold zeros. */
  lemma GitInfoFromDescribe(g: GitVersion)
    requires g.gitrev < 0x1_0000_0000
    ensures GitInfoVersion(GitOutput(DescribeLong(g))).Ok?
    ensures GitInfoRegisters(GitInfoVersion(GitOutput(DescribeLong(g))).value) == GitInfoCsrs(g.gitrev, g.dirty)
    ensures GitInfoRegisters(GitInfoVersion(GitFailed).value) == GitInfoCsrs(0, false)
  {
    ParseDescribeLong(g);
    assert GitInfoVersion(GitOutput(DescribeLong(g))) == Ok(g);
    RegistersOfShortRev(g);
    assert GitInfoVersion(GitFailed) == Ok(ZERO_VERSION);
  }

  lemma RegistersOfShortRev(g: GitVersion)
    requires g.gitrev < 0x1_0000_0000
    ensures GitInfoRegisters(g) == GitInfoCsrs(g.gitrev, g.dirty)
  {
  }
}
