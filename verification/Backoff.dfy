/** Capped doubling with jitter, as in the reconnect, restart and empty-poll loops. */
module Backoff {
  import opened Common

  const JITTER_FRACTION: real := 0.25

  function MinReal(a: real, b: real): real {
    if a <= b then a else b
  }

  /** One doubling. */
  function Next(delay: real, cap: real): real {
    MinReal(delay * 2.0, cap)
  }

  /** The base delay after `n` doublings since the last reset to `start`. */
  function Base(start: real, cap: real, n: nat): real {
    if n == 0 then start else Next(Base(start, cap, n - 1), cap)
  }

  function Pow2(n: nat): nat {
    if n == 0 then 1 else 2 * Pow2(n - 1)
  }

  /** `start` times two to the `n`. */
  function Scaled(start: real, n: nat): real {
    start * Pow2(n) as real
  }

  lemma ScaledDoubles(start: real, n: nat)
    ensures Scaled(start, 0) == start && Scaled(start, n + 1) == 2.0 * Scaled(start, n)
  {
    var p := Pow2(n) as real;
    assert Pow2(n + 1) as real == 2.0 * p;
    assert start * (2.0 * p) == 2.0 * (start * p);
  }

  /** However many doublings there were, the delay is the capped power of two; before the first one
      the cap is not applied. */
  lemma {:induction false} BaseClosedForm(start: real, cap: real, n: nat)
    requires cap >= 0.0
    ensures Base(start, cap, n) == if n == 0 then start else MinReal(Scaled(start, n), cap)
  {
    if n > 0 {
      ScaledDoubles(start, n - 1);
      BaseClosedForm(start, cap, n - 1);
    }
  }

  lemma {:induction false} BaseInRange(start: real, cap: real, n: nat)
    requires 0.0 <= start <= cap
    ensures start <= Base(start, cap, n) <= cap
  {
    if n > 0 {
      BaseInRange(start, cap, n - 1);
    }
  }

  lemma {:induction false} BaseNonNegative(start: real, cap: real, n: nat)
    requires 0.0 <= start && 0.0 <= cap
    ensures 0.0 <= Base(start, cap, n)
  {
    if n > 0 {
      BaseNonNegative(start, cap, n - 1);
    }
  }

  /** A sleep of the base delay plus a random share of it. */
  predicate Jittered(base: real, delay: real) {
    base <= delay <= base + base * JITTER_FRACTION
  }

  /** A value between 0 and `most`, `u` of the way. */
  function Uniform(most: real, u: real): real {
    u * most
  }

  lemma UniformInRange(most: real, u: real)
    requires 0.0 <= most && 0.0 <= u <= 1.0
    ensures 0.0 <= Uniform(most, u) <= most
  {
  }

  /** The sleep for a base, where `jitter` is how far into its range the random share fell. */
  function Delay(base: real, jitter: real): real {
    base + Uniform(base * JITTER_FRACTION, jitter)
  }

  lemma DelayIsJittered(base: real, jitter: real)
    requires 0.0 <= base && 0.0 <= jitter <= 1.0
    ensures Jittered(base, Delay(base, jitter))
  {
    UniformInRange(base * JITTER_FRACTION, jitter);
  }

  /** The sleeps that are possible for a base are exactly those from the base to 1.25 times the base. */
  lemma DelayIff(base: real, delay: real)
    requires 0.0 < base
    ensures (exists jitter :: 0.0 <= jitter <= 1.0 && Delay(base, jitter) == delay) <==> base <= delay <= 1.25 * base
  {
    if base <= delay <= 1.25 * base {
      var share := base * 0.25;
      var jitter := (delay - base) / share;
      assert jitter * share == delay - base;
      assert 0.0 <= jitter <= 1.0 && Delay(base, jitter) == delay;
    }
    if jitter :| 0.0 <= jitter <= 1.0 && Delay(base, jitter) == delay {
      DelayIsJittered(base, jitter);
    }
  }

  function Sum(xs: seq<real>): real {
    if xs == [] then 0.0 else xs[0] + Sum(xs[1..])
  }

  lemma {:induction false} JitteredSum(bases: seq<real>, delays: seq<real>)
    requires |bases| == |delays| && forall i | 0 <= i < |bases| :: Jittered(bases[i], delays[i])
    ensures Sum(bases) <= Sum(delays) <= 1.25 * Sum(bases)
  {
    if bases != [] {
      assert Jittered(bases[0], delays[0]);
      JitteredSum(bases[1..], delays[1..]);
    }
  }
}
