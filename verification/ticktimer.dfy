/** The system tick timer (rtl/ticktimer.py): a prescaler counts system
    clocks down and, each time it passes zero, reloads and advances a 48-bit
    tick counter unless counting is paused. */
module TickTimer {
  /** The tick counter is 48 bits wide and wraps. */
  const TIMER_MODULUS: nat := 0x1_0000_0000_0000

  function Pow2(k: nat): (r: nat)
    ensures r >= 1
  {
    if k == 0 then 1 else 2 * Pow2(k - 1)
  }

  /** Migen's `bits_for(n)`: the bits an unsigned signal needs to hold `n`
      (at least one). */
  function BitsFor(n: nat): (b: nat)
    ensures b >= 1
  {
    if n < 2 then 1 else 1 + BitsFor(n / 2)
  }

  /** `n` fits in `BitsFor(n)` bits, and needs all of them. */
  lemma {:induction false} BitsForBounds(n: nat)
    ensures n < Pow2(BitsFor(n))
    ensures n >= 1 ==> Pow2(BitsFor(n) - 1) <= n
  {
    if n >= 2 {
      BitsForBounds(n / 2);
    }
  }

  /** The reload value the prescaler actually holds as written:
      `Signal(max=clkspertick)` is `BitsFor(clkspertick - 1)` bits wide, and
      storing `clkspertick` in it keeps only those low bits. */
  function ReloadAsWritten(clksPerTick: nat): nat
    requires clksPerTick >= 1
  {
    clksPerTick % Pow2(BitsFor(clksPerTick - 1))
  }

  /** The prescaler register keeps the reload value exactly unless the
      value is a power of two, which its width is one bit too small for. */
  lemma ReloadAsWrittenExact(clksPerTick: nat)
    requires clksPerTick >= 1
    ensures clksPerTick <= Pow2(BitsFor(clksPerTick - 1))
    ensures clksPerTick < Pow2(BitsFor(clksPerTick - 1)) ==> ReloadAsWritten(clksPerTick) == clksPerTick
    ensures clksPerTick == Pow2(BitsFor(clksPerTick - 1)) ==> ReloadAsWritten(clksPerTick) == 0
  {
    var m := Pow2(BitsFor(clksPerTick - 1));
    BitsForBounds(clksPerTick - 1);
    ModBelow(clksPerTick, m);
  }

  lemma ModBelow(n: nat, m: nat)
    requires 0 < n <= m
    ensures n < m ==> n % m == n
    ensures n == m ==> n % m == 0
  {
  }

  /** For 1024 clocks per tick the prescaler is 10 bits wide and reloads
      with 0, so the timer advances on every clock. */
  lemma PowerOfTwoReloadIsZero()
    ensures BitsFor(1023) == 10 && ReloadAsWritten(1024) == 0
    ensures Step(ReloadAsWritten(1024), TickState(0, 5), false, false) == TickState(0, 6)
  {
    assert BitsFor(1023) == 10;
    assert Pow2(10) == 1024;
  }

  datatype TickState = TickState(prescaler: nat, timer: nat)

  /** One clock with prescaler reload value `reload`. A reset pulse zeroes
      the timer and reloads the prescaler; otherwise the prescaler counts
      down, and when it is zero it reloads and the timer advances by one
      (modulo 2^48) unless paused. */
  function Step(reload: nat, s: TickState, reset: bool, pause: bool): (t: TickState)
    ensures reset ==> t == TickState(reload, 0)
    ensures !reset && s.prescaler > 0 ==> t == TickState(s.prescaler - 1, s.timer)
    ensures !reset && s.prescaler == 0 ==> t.prescaler == reload
    ensures !reset && s.prescaler == 0 && !pause && s.timer < TIMER_MODULUS ==> t.timer == (s.timer + 1) % TIMER_MODULUS
    ensures pause || s.prescaler > 0 ==> !reset ==> t.timer == s.timer
  {
    if reset then TickState(reload, 0)
    else if s.prescaler == 0 then TickState(reload, if pause then s.timer else (s.timer + 1) % TIMER_MODULUS)
    else TickState(s.prescaler - 1, s.timer)
  }

  /** `k` free-running clocks, no reset and no pause. */
  function Run(reload: nat, s: TickState, k: nat): TickState
    decreases k
  {
    if k == 0 then s else Run(reload, Step(reload, s, false, false), k - 1)
  }

  lemma {:induction false} RunCountsDown(reload: nat, p: nat, t: nat, k: nat)
    requires k <= p
    ensures Run(reload, TickState(p, t), k) == TickState(p - k, t)
    decreases k
  {
    if k > 0 {
      RunCountsDown(reload, p - 1, t, k - 1);
    }
  }

  /** Running unpaused from a reload, the timer advances by exactly one
      every `reload + 1` clocks and is unchanged in between. */
  lemma TickPeriod(reload: nat, t: nat, k: nat)
    requires t < TIMER_MODULUS && k <= reload
    ensures Run(reload, TickState(reload, t), k).timer == t
    ensures Run(reload, TickState(reload, t), reload + 1) == TickState(reload, (t + 1) % TIMER_MODULUS)
  {
    RunCountsDown(reload, reload, t, k);
    RunCountsDown(reload, reload, t, reload);
    RunSplit(reload, TickState(reload, t), reload, 1);
  }

  lemma {:induction false} RunSplit(reload: nat, s: TickState, a: nat, b: nat)
    ensures Run(reload, s, a + b) == Run(reload, Run(reload, s, a), b)
    decreases a
  {
    if a > 0 {
      RunSplit(reload, Step(reload, s, false, false), a - 1, b);
    }
  }

  /** The timer registers. `reload` is the prescaler's reload value: the
      intended `clkspertick` rather than its truncation, see
      `ReloadAsWritten`. */
  class Timer {
    const reload: nat
    var prescaler: nat
    var timer: nat

    ghost predicate Valid()
      reads this
    {
      prescaler <= reload && timer < TIMER_MODULUS
    }

    constructor (clksPerTick: nat)
      ensures Valid() && reload == clksPerTick && prescaler == clksPerTick && timer == 0
    {
      reload := clksPerTick;
      prescaler := clksPerTick;
      timer := 0;
    }

    /** The `time` status register. */
    function Time(): nat
      reads this
    {
      timer
    }

    /** One system clock, with the `reset` pulse field and the `pause`
        field of the control register. */
    method Tick(reset: bool, pause: bool)
      requires Valid()
      modifies this
      ensures Valid()
      ensures TickState(prescaler, timer) == Step(reload, old(TickState(prescaler, timer)), reset, pause)
    {
      if reset {
        timer := 0;
        prescaler := reload;
      } else {
        if prescaler == 0 {
          prescaler := reload;
          if !pause {
            timer := (timer + 1) % TIMER_MODULUS;
          }
        } else {
          prescaler := prescaler - 1;
        }
      }
    }
  }
}
