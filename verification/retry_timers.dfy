/** The DHCP retry/back-off timer (sw/net/src/timers.rs).

    A retry timer walks the back-off sequence 2 s, 4 s, 8 s, 16 s and then
    halts. Each step schedules an expiry at `now + base + offset`, where the
    offset is an 11-bit slice of caller-supplied entropy. The clock is not
    read here: the current time in milliseconds is a parameter. */
module RetryTimers {
  import opened Wrappers
  import opened Bits

  datatype Retry = R2s | R4s | R8s | R16s | Halted

  datatype RetryStatus = Halted | TimerRunning | TimerExpired

  /** `time` is the absolute expiry time in milliseconds, if scheduled. */
  datatype RetryTimer = RetryTimer(retry: Retry, time: Option<nat>)

  /** A timer is consistent when it carries a time exactly when it is not halted. */
  predicate Consistent(t: RetryTimer) {
    t.retry == Retry.Halted <==> t.time.None?
  }

  /** The random offset of each back-off stage: entropy bits 0..10, 7..17,
      14..24 and 21..31. (`& (2048 - 1)` is `% 2048` and `>> k` is division
      by `2^k` on these unsigned values.) */
  function Offset(retry: Retry, entropy: u32): (r: nat)
    ensures r < 2048
    ensures retry == Retry.Halted ==> r == 0
  {
    match retry
    case R2s => entropy % 2048
    case R4s => (entropy / 0x80) % 2048
    case R8s => (entropy / 0x4000) % 2048
    case R16s => (entropy / 0x20_0000) % 2048
    case Halted => 0
  }

  /** The base delay, in milliseconds, that each stage is scheduled with. */
  function BaseMs(retry: Retry): nat {
    match retry
    case R2s => 1000
    case R4s => 3000
    case R8s => 7000
    case R16s => 15000
    case Halted => 0
  }

  /** The stage that follows `retry` in the back-off sequence. */
  function NextRetry(retry: Retry): Retry {
    match retry
    case R2s => R4s
    case R4s => R8s
    case R8s => R16s
    case _ => Retry.Halted
  }

  function NewHalted(): (t: RetryTimer)
    ensures t.retry == Retry.Halted && t.time == None
    ensures Consistent(t)
  {
    RetryTimer(Retry.Halted, None)
  }

  /** A timer for stage `retry`, due `ms` plus the random offset after `now`. */
  function NewRandom(retry: Retry, ms: nat, entropy: u32, now: nat): (t: RetryTimer)
    ensures t.retry == retry && Consistent(t)
    ensures retry != Retry.Halted ==> t.time.value == now + ms + Offset(retry, entropy)
    ensures retry != Retry.Halted ==> now + ms <= t.time.value < now + ms + 2048
  {
    RetryTimer(retry, if retry == Retry.Halted then None else Some(now + ms + Offset(retry, entropy)))
  }

  function NewFirstRandom(entropy: u32, now: nat): (t: RetryTimer)
    ensures t.retry == R2s && Consistent(t)
    ensures now + 1000 <= t.time.value < now + 1000 + 2048
  {
    NewRandom(R2s, 1000, entropy, now)
  }

  /** `schedule_next` overwrites the whole timer, so it is modelled as the
      function that returns the replacement value. */
  function ScheduleNext(t: RetryTimer, entropy: u32, now: nat): (r: RetryTimer)
    ensures r.retry == NextRetry(t.retry) && Consistent(r)
    ensures r.retry != Retry.Halted ==>
      r.time.value == now + BaseMs(r.retry) + Offset(r.retry, entropy)
  {
    match t.retry
    case R2s => NewRandom(R4s, 3000, entropy, now)
    case R4s => NewRandom(R8s, 7000, entropy, now)
    case R8s => NewRandom(R16s, 15000, entropy, now)
    case _ => RetryTimer(Retry.Halted, None)
  }

  /** The status of the timer at time `now`; expiry is strict (`now > time`). */
  function Status(t: RetryTimer, now: nat): (s: RetryStatus)
    ensures s == TimerExpired <==> t.retry != Retry.Halted && t.time.Some? && now > t.time.value
    ensures s == TimerRunning <==> t.retry != Retry.Halted && t.time.Some? && now <= t.time.value
    ensures s == RetryStatus.Halted <==> t.retry == Retry.Halted || t.time.None?
  {
    match t.retry
    case Halted => RetryStatus.Halted
    case _ =>
      match t.time
      case Some(time) => if now > time then TimerExpired else TimerRunning
      case None => RetryStatus.Halted
  }

  /** A halted timer reports Halted whatever the time. */
  lemma NewHaltedStatus(now: nat)
    ensures Status(NewHalted(), now) == RetryStatus.Halted
  {
  }

  /** A freshly scheduled stage is still running at the time it was scheduled,
      and expires once `base + 2048` milliseconds have passed. */
  lemma {:induction false} FreshTimerRunsThenExpires(t: RetryTimer, entropy: u32, now: nat, later: nat)
    requires t.retry in {R2s, R4s, R8s}
    requires later >= now + BaseMs(NextRetry(t.retry)) + 2048
    ensures Status(ScheduleNext(t, entropy, now), now) == TimerRunning
    ensures Status(ScheduleNext(t, entropy, now), later) == TimerExpired
  {
    var r := ScheduleNext(t, entropy, now);
    assert r.time.value < now + BaseMs(r.retry) + 2048;
  }

  /** The back-off sequence from the first stage halts after four reschedules,
      and a halted timer stays halted. */
  lemma BackoffHalts(entropy: seq<u32>, now: seq<nat>)
    requires |entropy| == 5 && |now| == 5
    ensures var t0 := NewFirstRandom(entropy[0], now[0]);
            var t1 := ScheduleNext(t0, entropy[1], now[1]);
            var t2 := ScheduleNext(t1, entropy[2], now[2]);
            var t3 := ScheduleNext(t2, entropy[3], now[3]);
            var t4 := ScheduleNext(t3, entropy[4], now[4]);
            [t1.retry, t2.retry, t3.retry, t4.retry] == [R4s, R8s, R16s, Retry.Halted]
  {
  }

  lemma HaltedStaysHalted(t: RetryTimer, entropy: u32, now: nat)
    requires t.retry == Retry.Halted
    ensures ScheduleNext(t, entropy, now) == NewHalted()
  {
  }
}
