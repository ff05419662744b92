/** The ring-oscillator TRNG (rtl/trng/ring_osc.py): the system-clock block
    that collects the synchronised random bit into a 32-bit word on each
    rising edge of the strobe, and the stage count of the slow ring. */
module RingOsc {
  /** The width of the `rand` register. */
  const RAND_BITS: nat := 32

  /** The collector's registers. `rand` is bit 0 first. */
  datatype Collector = Collector(rand: seq<bool>, count: nat, isFresh: bool, strobeR: bool)

  predicate Valid(c: Collector)
  {
    |c.rand| == RAND_BITS && c.count < RAND_BITS
  }

  /** One system clock's inputs: `rand.we` (a read of `rand`), the
      synchronised strobe and the synchronised random bit. */
  datatype Inputs = Inputs(randWe: bool, strobe: bool, bit: bool)

  /** One clock. A read restarts the count and clears `isFresh`; otherwise a
      rising strobe edge shifts the bit into bit 0, and the count runs up to
      31, where the next edge sets `isFresh`. */
  function Next(c: Collector, i: Inputs): (d: Collector)
    requires Valid(c)
    ensures Valid(d)
    ensures d.strobeR == i.strobe
  {
    if i.randWe then Collector(c.rand, 0, false, i.strobe)
    else if i.strobe && !c.strobeR then
      var rand := [i.bit] + c.rand[..RAND_BITS - 1];
      if c.count < RAND_BITS - 1 then Collector(rand, c.count + 1, false, i.strobe)
      else Collector(rand, c.count, true, i.strobe)
    else Collector(c.rand, c.count, c.isFresh, i.strobe)
  }

  /** Without a read and without a strobe edge nothing but the edge
      detector changes; on an edge the older bits move up by one. */
  lemma NextEffect(c: Collector, i: Inputs)
    requires Valid(c) && !i.randWe
    ensures !(i.strobe && !c.strobeR) ==> Next(c, i) == c.(strobeR := i.strobe)
    ensures i.strobe && !c.strobeR ==>
      Next(c, i).rand[0] == i.bit && forall k :: 1 <= k < RAND_BITS ==> Next(c, i).rand[k] == c.rand[k - 1]
  {
  }

  /** The rising strobe edges in a run of clocks, given the strobe's value
      before it. */
  function Edges(strobeR: bool, run: seq<Inputs>): nat
    decreases |run|
  {
    if |run| == 0 then 0
    else (if run[0].strobe && !strobeR then 1 else 0) + Edges(run[0].strobe, run[1..])
  }

  function After(c: Collector, run: seq<Inputs>): (d: Collector)
    requires Valid(c)
    ensures Valid(d)
    decreases |run|
  {
    if |run| == 0 then c else After(Next(c, run[0]), run[1..])
  }

  function Min(a: nat, b: nat): nat
  {
    if a <= b then a else b
  }

  /** Through a run without reads the count climbs by one per edge up to 31,
      and `isFresh` is set exactly when the edges carried it past 31. */
  lemma {:induction false} CountsEdges(c: Collector, run: seq<Inputs>)
    requires Valid(c)
    requires forall k :: 0 <= k < |run| ==> !run[k].randWe
    ensures After(c, run).count == Min(c.count + Edges(c.strobeR, run), RAND_BITS - 1)
    ensures Edges(c.strobeR, run) > 0 ==>
      After(c, run).isFresh == (c.count + Edges(c.strobeR, run) >= RAND_BITS)
    ensures Edges(c.strobeR, run) == 0 ==> After(c, run).isFresh == c.isFresh
    decreases |run|
  {
    if |run| > 0 {
      CountsEdges(Next(c, run[0]), run[1..]);
    }
  }

  /** After a read of `rand`, `isFresh` stays clear until the 32nd strobe
      edge and is set from then on, until the next read. */
  lemma FreshAfterRead(c: Collector, read: Inputs, run: seq<Inputs>)
    requires Valid(c) && read.randWe
    requires forall k :: 0 <= k < |run| ==> !run[k].randWe
    ensures After(Next(c, read), run).isFresh <==> Edges(read.strobe, run) >= RAND_BITS
  {
    CountsEdges(Next(c, read), run);
  }

  /** The collector as registers. */
  class RandCollector {
    var rand: seq<bool>
    var count: nat
    var isFresh: bool
    var strobeR: bool

    function State(): Collector
      reads this
    {
      Collector(rand, count, isFresh, strobeR)
    }

    constructor ()
      ensures Valid(State()) && count == 0 && !isFresh && !strobeR
      ensures forall k :: 0 <= k < RAND_BITS ==> !rand[k]
    {
      rand := seq(RAND_BITS, _ => false);
      count := 0;
      isFresh := false;
      strobeR := false;
    }

    method Step(randWe: bool, strobe: bool, bit: bool)
      requires Valid(State())
      modifies this
      ensures State() == Next(old(State()), Inputs(randWe, strobe, bit))
    {
      var edge := strobe && !strobeR;
      strobeR := strobe;
      if randWe {
        count := 0;
        isFresh := false;
      } else if edge {
        rand := [bit] + rand[..RAND_BITS - 1];
        if count < RAND_BITS - 1 {
          count := count + 1;
          isFresh := false;
        } else {
          isFresh := true;
        }
      }
    }
  }

  /** The number of inverter stages for a target period and a per-stage
      delay, both in whole nanoseconds: one more than the period divided by
      the delay, made odd. */
  function Stages(periodNs: nat, stageDelay: nat): (n: nat)
    requires stageDelay > 0
    ensures n % 2 == 1
    ensures periodNs / stageDelay < n <= periodNs / stageDelay + 2
  {
    var s := periodNs / stageDelay + 1;
    if s % 2 == 0 then s + 1 else s
  }

  /** The stage delays of the two supported parts. */
  const XC7S50_STAGE_DELAY: nat := 3
  const ICE40_STAGE_DELAY: nat := 11

  /** At the default 1 MHz target (1000 ns) the UP5K ring has 91 stages
      and the Spartan-7 ring 335, and the strobe tap at the middle stage lies
      on the ring. */
  lemma DefaultStages()
    ensures Stages(1000, ICE40_STAGE_DELAY) == 91 && Stages(1000, XC7S50_STAGE_DELAY) == 335
    ensures Stages(1000, ICE40_STAGE_DELAY) / 2 < Stages(1000, ICE40_STAGE_DELAY)
  {
  }

  /** A ring of `n` inverters closed through the enable gate is settled
      when every node holds a value consistent with its driver: node `k` is
      the inverse of node `k + 1`, and node `n` is node 0 gated by `ena`. */
  predicate Settled(ring: seq<bool>, n: nat, ena: bool)
  {
    |ring| == n + 1
    && (forall k :: 0 <= k < n ==> ring[k] == !ring[k + 1])
    && ring[n] == (ring[0] && ena)
  }

  lemma {:induction false} Alternates(ring: seq<bool>, n: nat, ena: bool, k: nat)
    requires Settled(ring, n, ena) && k <= n
    ensures ring[k] == (if k % 2 == 0 then ring[0] else !ring[0])
  {
    if k > 0 {
      Alternates(ring, n, ena, k - 1);
    }
  }

  /** Why the count is made odd: an enabled ring of an odd number of
      inverters has no settled state, so it oscillates. */
  lemma OddRingNeverSettles(ring: seq<bool>, n: nat)
    requires n % 2 == 1
    ensures !Settled(ring, n, true)
  {
    if Settled(ring, n, true) {
      Alternates(ring, n, true, n);
      assert false;
    }
  }

  /** An enabled ring with an even number of stages can settle, and so
      would not oscillate. */
  lemma EvenRingCanSettle(n: nat)
    requires n % 2 == 0
    ensures Settled(seq(n + 1, k => k % 2 == 0), n, true)
  {
  }

  /** With `ena` clear the ring settles: the power-down state. */
  lemma DisabledRingSettles(n: nat)
    ensures Settled(seq(n + 1, k => (n - k) % 2 == 1), n, false)
  {
  }
}
