/** The network PRNG (sw/net/src/prng.rs): xoshiro128++ with its additions
    wrapping modulo 2^32 as in a release build (a debug build panics on
    overflow instead), with a mixing rule that discards five outputs while fewer
    than five have been drawn since seeding. */
module NetPrng {
  import opened Bits

  /** The four xoshiro128++ state words. */
  datatype Words = Words(s0: bv32, s1: bv32, s2: bv32, s3: bv32)

  /** The output of one xoshiro128++ step: rotl(s0 + s3, 7) + s0, the
      additions wrapping as in a release build. */
  function Output(w: Words): bv32 {
    (w.s0 + w.s3).RotateLeft(7) + w.s0
  }

  /** The state after one xoshiro128++ step. */
  function Advance(w: Words): Words {
    var t := w.s1 << 9;
    var s2 := w.s2 ^ w.s0;
    var s3 := w.s3 ^ w.s1;
    var s1 := w.s1 ^ s2;
    var s0 := w.s0 ^ s3;
    Words(s0, s1, s2 ^ t, s3.RotateLeft(11))
  }

  /** The state after `n` steps. */
  function AdvanceN(w: Words, n: nat): Words
    decreases n
  {
    if n == 0 then w else AdvanceN(Advance(w), n - 1)
  }

  /** The seed words packed pairwise: (seed[2k] << 16) | seed[2k+1]. */
  function Pack(hi: bv16, lo: bv16): (r: bv32)
    ensures (r >> 16) as bv16 == hi && (r & 0xFFFF) as bv16 == lo
  {
    ((hi as bv32) << 16) | (lo as bv32)
  }

  function Seeded(seed: seq<bv16>): Words
    requires |seed| == 8
  {
    Words(Pack(seed[0], seed[1]), Pack(seed[2], seed[3]), Pack(seed[4], seed[5]), Pack(seed[6], seed[7]))
  }

  /** `usize` is 32 bits wide on the EC's RISC-V core. */
  const USIZE_MAX: nat := 0xFFFF_FFFF

  /** The number of mixing outputs discarded right after seeding. */
  const MIX_MIN: nat := 5

  /** How many steps `next` takes from a draw count: six while fewer than
      five draws were made, otherwise one. */
  function StepsOfNext(count: nat): (n: nat)
    ensures count < MIX_MIN ==> n == MIX_MIN + 1
    ensures count >= MIX_MIN ==> n == 1
  {
    if count < MIX_MIN then MIX_MIN + 1 else 1
  }

  /** `count.saturating_add(1)` on a 32-bit `usize`. */
  function Bump(count: nat): (r: nat)
    ensures count < USIZE_MAX ==> r == count + 1
    ensures count >= USIZE_MAX ==> r == USIZE_MAX
  {
    if count < USIZE_MAX then count + 1 else USIZE_MAX
  }

  /** The draw count after `n` saturating increments. */
  function BumpN(count: nat, n: nat): nat
    decreases n
  {
    if n == 0 then count else BumpN(Bump(count), n - 1)
  }

  /** The whole generator as a value: the draw count and the state words. */
  datatype Gen = Gen(count: nat, w: Words)

  /** The generator after one call to `next`. */
  function NextGen(g: Gen): Gen {
    var n := StepsOfNext(g.count);
    Gen(BumpN(g.count, n), AdvanceN(g.w, n))
  }

  /** The value one call to `next` returns. */
  function NextOut(g: Gen): bv32 {
    Output(AdvanceN(g.w, StepsOfNext(g.count) - 1))
  }

  class NetPrng {
    var count: nat
    var s: array<bv32>

    ghost predicate Valid()
      reads this
    {
      s.Length == 4 && count <= USIZE_MAX
    }

    /** The abstract xoshiro state held in `s`. */
    function State(): Words
      reads this, s
      requires Valid()
    {
      Words(s[0], s[1], s[2], s[3])
    }

    constructor NewFrom(seed: seq<bv16>)
      requires |seed| == 8
      ensures Valid() && fresh(s)
      ensures count == 0 && State() == Seeded(seed)
    {
      count := 0;
      var a := new bv32[4];
      a[0], a[1], a[2], a[3] := Pack(seed[0], seed[1]), Pack(seed[2], seed[3]), Pack(seed[4], seed[5]), Pack(seed[6], seed[7]);
      s := a;
    }

    /** `reseed` leaves the generator exactly as `new_from(seed)` builds it. */
    method Reseed(seed: seq<bv16>)
      requires Valid() && |seed| == 8
      modifies this, s
      ensures Valid() && s == old(s)
      ensures count == 0 && State() == Seeded(seed)
    {
      count := 0;
      s[0], s[1], s[2], s[3] := Pack(seed[0], seed[1]), Pack(seed[2], seed[3]), Pack(seed[4], seed[5]), Pack(seed[6], seed[7]);
    }

    /** One xoshiro128++ step; the draw count saturates at `usize::MAX`. */
    method NextInner() returns (result: bv32)
      requires Valid()
      modifies this, s
      ensures Valid() && s == old(s)
      ensures result == Output(old(State()))
      ensures State() == Advance(old(State()))
      ensures count == Bump(old(count))
    {
      count := Bump(count);
      var w := State();
      result := Output(w);
      var next := Advance(w);
      s[0], s[1], s[2], s[3] := next.s0, next.s1, next.s2, next.s3;
    }

    /** Draw one value: `StepsOfNext(count)` steps, returning the output of
        the last one. */
    method Next() returns (result: bv32)
      requires Valid()
      modifies this, s
      ensures Valid() && s == old(s)
      ensures Gen(count, State()) == NextGen(Gen(old(count), old(State())))
      ensures result == NextOut(Gen(old(count), old(State())))
    {
      ghost var start := State();
      ghost var count0 := count;
      ghost var skipped := 0;
      if count < MIX_MIN {
        var i := 0;
        while i < MIX_MIN
          invariant Valid() && s == old(s)
          invariant 0 <= i <= MIX_MIN
          invariant State() == AdvanceN(start, i)
          invariant count == BumpN(count0, i)
        {
          var _ := NextInner();
          AdvanceNSucc(start, i);
          BumpNSucc(count0, i);
          i := i + 1;
        }
        skipped := MIX_MIN;
      }
      result := NextInner();
      AdvanceNSucc(start, skipped);
      BumpNSucc(count0, skipped);
    }
  }

  lemma {:induction false} AdvanceNSucc(w: Words, n: nat)
    ensures AdvanceN(w, n + 1) == Advance(AdvanceN(w, n))
    decreases n
  {
    if n > 0 {
      AdvanceNSucc(Advance(w), n - 1);
    }
  }

  lemma {:induction false} BumpNSucc(count: nat, n: nat)
    ensures BumpN(count, n + 1) == Bump(BumpN(count, n))
    decreases n
  {
    if n > 0 {
      BumpNSucc(Bump(count), n - 1);
    }
  }

  /** Saturating increments never decrease the count. */
  lemma {:induction false} BumpNGrows(count: nat, n: nat)
    requires count <= USIZE_MAX
    ensures count <= BumpN(count, n) <= USIZE_MAX
    ensures count + n <= USIZE_MAX ==> BumpN(count, n) == count + n
    decreases n
  {
    if n > 0 {
      BumpNGrows(Bump(count), n - 1);
    }
  }

  /** The values returned by `n` successive calls to `next` from `g`. */
  function Calls(g: Gen, n: nat): (r: seq<bv32>)
    ensures |r| == n
    decreases n
  {
    if n == 0 then [] else [NextOut(g)] + Calls(NextGen(g), n - 1)
  }

  /** The values a freshly seeded generator returns from its first `n` calls:
      the outputs from step five onwards, one per call. */
  function Draws(seed: seq<bv16>, n: nat): (r: seq<bv32>)
    requires |seed| == 8
    ensures |r| == n
  {
    seq(n, k requires 0 <= k => Output(AdvanceN(Seeded(seed), MIX_MIN + k)))
  }

  /** Once mixed, each call returns the output of the current state and steps
      once. */
  lemma {:induction false} CallsOnceMixed(start: Words, g: Gen, k: nat, n: nat)
    requires MIX_MIN <= g.count <= USIZE_MAX
    requires g.w == AdvanceN(start, MIX_MIN + k)
    ensures Calls(g, n) == seq(n, i requires 0 <= i => Output(AdvanceN(start, MIX_MIN + k + i)))
    decreases n
  {
    if n > 0 {
      var g' := NextGen(g);
      BumpNGrows(g.count, 1);
      AdvanceNSucc(start, MIX_MIN + k);
      assert g'.w == AdvanceN(start, MIX_MIN + k + 1) by {
        AdvanceNOne(g.w);
      }
      CallsOnceMixed(start, g', k + 1, n - 1);
    }
  }

  lemma AdvanceNOne(w: Words)
    ensures AdvanceN(w, 1) == Advance(w)
  {
  }

  /** The first call after seeding discards five outputs and returns the sixth;
      every later call returns the next output. So a generator built by
      `new_from(seed)` returns exactly `Draws(seed, n)`. */
  lemma {:induction false} CallsFromSeed(seed: seq<bv16>, n: nat)
    requires |seed| == 8
    ensures Calls(Gen(0, Seeded(seed)), n) == Draws(seed, n)
  {
    if n > 0 {
      var g := Gen(0, Seeded(seed));
      var g' := NextGen(g);
      BumpNGrows(0, MIX_MIN + 1);
      CallsOnceMixed(Seeded(seed), g', 1, n - 1);
    }
  }

  /** Two generators built from equal seeds return equal values. */
  lemma SameSeedSameCalls(a: seq<bv16>, b: seq<bv16>, n: nat)
    requires |a| == 8 && |b| == 8 && a == b
    ensures Calls(Gen(0, Seeded(a)), n) == Calls(Gen(0, Seeded(b)), n) == Draws(a, n)
  {
    CallsFromSeed(a, n);
  }
}
