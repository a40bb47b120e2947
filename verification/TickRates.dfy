/** Rational fixed tick rates (engine/net/src/types.rs): deadlines round up, elapsed ticks round down. */
module TickRates {
  import opened NetTypes

  const NANOS: nat := 1_000_000_000
  const PHASES: nat := 65_536

  /** The longest duration: whole seconds in 64 bits and a nanosecond part. */
  const LONGEST: nat := U64_MAX * NANOS + (NANOS - 1)

  predicate ValidRate(hz: nat) {
    0 < hz <= NANOS
  }

  function CeilDiv(a: nat, b: nat): nat
    requires b > 0
  {
    (a + (b - 1)) / b
  }

  /** The instant of the end-of-tick state, in nanoseconds, ignoring the range of durations. */
  function Instant(hz: nat, tick: nat): nat
    requires ValidRate(hz)
  {
    CeilDiv(tick * NANOS, hz)
  }

  function Deadline(hz: nat, tick: nat): Option<nat>
    requires ValidRate(hz)
  {
    if Instant(hz, tick) / NANOS > U64_MAX then None else Some(Instant(hz, tick))
  }

  function ElapsedTicks(hz: nat, elapsed: nat): Option<nat>
    requires ValidRate(hz)
  {
    var ticks := elapsed * hz / NANOS;
    if ticks > U64_MAX then None else Some(ticks)
  }

  function ElapsedTickPhase(hz: nat, elapsed: nat): Option<(nat, nat)>
    requires ValidRate(hz)
  {
    var scaled := elapsed * hz;
    if scaled / NANOS > U64_MAX then None else Some((scaled / NANOS, scaled % NANOS * PHASES / NANOS))
  }

  // ---- division facts ---------------------------------------------------------------------

  lemma FloorAtLeast(a: nat, b: nat, k: nat)
    requires b > 0
    ensures k <= a / b <==> k * b <= a
  {
    var q, r := a / b, a % b;
    assert a == q * b + r;
    if k <= q {
      assert k * b <= q * b;
    } else {
      assert k * b >= (q + 1) * b;
      assert (q + 1) * b == q * b + b;
    }
  }

  lemma CeilAtMost(a: nat, b: nat, d: nat)
    requires b > 0
    ensures CeilDiv(a, b) <= d <==> a <= d * b
  {
    FloorAtLeast(a + (b - 1), b, d + 1);
    assert (d + 1) * b == d * b + b;
  }

  lemma PositiveFactor(d: nat, b: nat)
    requires d * b > 0
    ensures d > 0
  {
  }

  lemma Grows(a: nat, b: nat)
    requires b > 0
    ensures a <= a * b
  {
  }

  lemma InstantAtMost(hz: nat, tick: nat, d: nat)
    requires ValidRate(hz)
    ensures Instant(hz, tick) <= d <==> tick * NANOS <= d * hz
  {
    CeilAtMost(tick * NANOS, hz, d);
  }

  /** Rates are at most one tick per nanosecond, so deadlines strictly increase. */
  lemma InstantsIncrease(hz: nat, a: nat, b: nat)
    requires ValidRate(hz) && a < b
    ensures Instant(hz, a) < Instant(hz, b)
  {
    var d := Instant(hz, b);
    InstantAtMost(hz, b, d);
    assert d * hz >= b * NANOS >= (a + 1) * NANOS;
    PositiveFactor(d, hz);
    assert (d - 1) * hz == d * hz - hz;
    InstantAtMost(hz, a, d - 1);
  }

  /** Every tick a 64-bit counter can hold has a deadline. */
  lemma DeadlineExists(hz: nat, tick: nat)
    requires ValidRate(hz) && tick <= U64_MAX
    ensures Deadline(hz, tick) == Some(Instant(hz, tick))
  {
    Grows(tick * NANOS, hz);
    InstantAtMost(hz, tick, tick * NANOS);
    FloorAtLeast(Instant(hz, tick), NANOS, tick + 1);
  }

  // ---- the two functions are adjoint ----------------------------------------------------------

  /** A tick has elapsed exactly when its deadline has passed. */
  lemma ElapsedIffDeadlinePassed(hz: nat, tick: nat, elapsed: nat)
    requires ValidRate(hz) && tick <= U64_MAX && ElapsedTicks(hz, elapsed).Some?
    ensures Deadline(hz, tick).Some?
    ensures tick <= ElapsedTicks(hz, elapsed).value <==> Deadline(hz, tick).value <= elapsed
  {
    DeadlineExists(hz, tick);
    InstantAtMost(hz, tick, elapsed);
    FloorAtLeast(elapsed * hz, NANOS, tick);
  }

  /** Tick and phase together are the elapsed time in phase units, rounded down once. */
  lemma PhaseIsExact(hz: nat, elapsed: nat)
    requires ValidRate(hz) && ElapsedTickPhase(hz, elapsed).Some?
    ensures var (tick, phase) := ElapsedTickPhase(hz, elapsed).value;
      phase < PHASES && tick * PHASES + phase == elapsed * hz * PHASES / NANOS
  {
    var scaled := elapsed * hz;
    var tick, rest := scaled / NANOS, scaled % NANOS;
    assert scaled == tick * NANOS + rest;
    assert scaled * PHASES == tick * PHASES * NANOS + rest * PHASES;
    SplitDivision(tick * PHASES, rest * PHASES, NANOS);
    FloorAtLeast(rest * PHASES, NANOS, PHASES);
  }

  lemma SplitDivision(whole: nat, part: nat, b: nat)
    requires b > 0
    ensures (whole * b + part) / b == whole + part / b
  {
    var q := part / b;
    FloorAtLeast(whole * b + part, b, whole + q);
    FloorAtLeast(whole * b + part, b, whole + q + 1);
    FloorAtLeast(part, b, q);
    FloorAtLeast(part, b, q + 1);
    assert (whole + q) * b == whole * b + q * b;
    assert (whole + q + 1) * b == whole * b + (q + 1) * b;
  }
}
