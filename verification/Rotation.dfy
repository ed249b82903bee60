/**
 The rotation period's adaptation to the byte rate (dial9-core/src/buffer.rs).
 Durations and instants are real seconds; floating-point rounding is not modelled.
 */
module Rotation {
  import opened Wrappers
  import Numbers

  /** `Duration::MAX`, the value that disables time-based rotation. */
  const MAX_DURATION: real := 18446744073709551615.999999999
  const DEFAULT_DRAIN_INTERVAL: real := 30.0
  const ROTATION_TARGET_PERCENT: nat := 80
  const ROTATION_GROWTH_FACTOR: real := 2.0

  datatype AdaptiveConfig = AdaptiveConfig(minPeriod: real, maxPeriod: Option<real>, targetBytes: Option<nat>)

  /** The settings of one writer; fixed for its lifetime. */
  datatype Config = Config(
    maxFileSize: nat,
    maxTotalSize: nat,
    rotationPeriod: real,
    adaptive: Option<AdaptiveConfig>,
    isDisk: bool)

  function Min(a: real, b: real): real {
    if a <= b then a else b
  }

  function Max(a: real, b: real): real {
    if a <= b then b else a
  }

  function Ceiling(c: Config): real
    requires c.adaptive.Some?
  {
    match c.adaptive.value.maxPeriod
    case Some(p) => p
    case None => c.rotationPeriod
  }

  function Floor(c: Config): real
    requires c.adaptive.Some?
  {
    Min(c.adaptive.value.minPeriod, Ceiling(c))
  }

  /** What a segment aims for: the configured target, or 80% of the file limit, dividing first. */
  function TargetBytes(c: Config): nat {
    if c.adaptive.Some? && c.adaptive.value.targetBytes.Some?
    then c.adaptive.value.targetBytes.value
    else c.maxFileSize / 100 * ROTATION_TARGET_PERCENT
  }

  /** Without a configured target, segments aim for four fifths of the file limit, at most 80 bytes less. */
  lemma DefaultTarget(c: Config)
    requires c.adaptive.None? || c.adaptive.value.targetBytes.None?
    ensures 100 * TargetBytes(c) <= 80 * c.maxFileSize < 100 * TargetBytes(c) + 8000
  {
    assert c.maxFileSize == 100 * (c.maxFileSize / 100) + c.maxFileSize % 100;
  }

  function FirstPeriod(c: Config): real {
    match c.adaptive
    case Some(a) => a.minPeriod
    case None => c.rotationPeriod
  }

  function DrainInterval(period: real): real {
    Min(period, DEFAULT_DRAIN_INTERVAL)
  }

  function NextRotation(now: real, period: real): Option<real> {
    if period == MAX_DURATION then None else Some(now + period)
  }

  /** The period that would fill a segment to its target at the rate of the segment just closed. */
  function Estimate(c: Config, closedBytes: nat, elapsed: real): real
    requires closedBytes > 0 && elapsed > 0.0
  {
    TargetBytes(c) as real / (closedBytes as real / elapsed)
  }

  /** Move towards an estimate: at most one doubling up, at once down, always between floor and ceiling. */
  function Toward(c: Config, current: real, estimate: real): real
    requires c.adaptive.Some?
  {
    if estimate > MAX_DURATION then current
    else Max(Floor(c), Min(Min(estimate, current * ROTATION_GROWTH_FACTOR), Ceiling(c)))
  }

  /** The period after closing a segment of `closedBytes` bytes that was open for `elapsed` seconds. */
  function Adapt(c: Config, current: real, closedBytes: nat, elapsed: real): real {
    if c.adaptive.None? || closedBytes == 0 || elapsed <= 0.0 then current
    else Toward(c, current, Estimate(c, closedBytes, elapsed))
  }

  /** One closed segment as the adaptation sees it. */
  datatype Closing = Closing(bytes: nat, elapsed: real)

  /** The period after the given segments have been closed one after another. */
  function PeriodAfter(c: Config, start: real, closings: seq<Closing>): real
  {
    if |closings| == 0 then start
    else
      var last := closings[|closings| - 1];
      Adapt(c, PeriodAfter(c, start, closings[..|closings| - 1]), last.bytes, last.elapsed)
  }

  /** Every segment was filled at exactly `rate` bytes per second, for a positive time. */
  ghost predicate ConstantRate(closings: seq<Closing>, rate: real) {
    forall i :: 0 <= i < |closings| ==>
      closings[i].elapsed > 0.0 && closings[i].bytes as real == rate * closings[i].elapsed
  }

  /** The settings under which adaptation has an ideal period to find. */
  ghost predicate HasIdeal(c: Config, rate: real) {
    && c.adaptive.Some? && rate > 0.0
    && 0.0 < c.adaptive.value.minPeriod <= Ceiling(c) <= MAX_DURATION
    && Floor(c) <= IdealPeriod(c, rate) <= Ceiling(c)
  }

  /** The time a segment takes to reach its target at the given byte rate. */
  function IdealPeriod(c: Config, rate: real): real
    requires rate > 0.0
  {
    TargetBytes(c) as real / rate
  }

  lemma EstimateIsIdeal(c: Config, closing: Closing, rate: real)
    requires rate > 0.0 && closing.elapsed > 0.0 && closing.bytes as real == rate * closing.elapsed
    ensures closing.bytes > 0 && Estimate(c, closing.bytes, closing.elapsed) == IdealPeriod(c, rate)
  {
    MulPos(rate, closing.elapsed);
    assert closing.bytes as real / closing.elapsed == rate;
  }

  function Doubled(floor: real, n: nat): real {
    if n == 0 then floor else 2.0 * Doubled(floor, n - 1)
  }

  lemma {:induction false} DoubledIsPow2(floor: real, n: nat)
    requires floor > 0.0
    ensures Doubled(floor, n) == Numbers.Pow2(n) as real * floor && Doubled(floor, n) >= floor
  {
    if n != 0 {
      DoubledIsPow2(floor, n - 1);
      assert Numbers.Pow2(n) as real == 2.0 * (Numbers.Pow2(n - 1) as real);
      MulAssoc(2.0, Numbers.Pow2(n - 1) as real, floor);
    }
  }

  /**
   The closed form of the adaptation: under a constant byte rate whose ideal period lies between
   the floor and the ceiling, the period after n rotations is the ideal period or n doublings of
   the floor, whichever is smaller.
   */
  lemma {:induction false} ConstantRateDoubles(c: Config, rate: real, closings: seq<Closing>)
    requires HasIdeal(c, rate) && ConstantRate(closings, rate)
    ensures PeriodAfter(c, FirstPeriod(c), closings) == Min(IdealPeriod(c, rate), Doubled(Floor(c), |closings|))
  {
    if |closings| != 0 {
      var n := |closings|;
      ConstantRateDoubles(c, rate, closings[..n - 1]);
      EstimateIsIdeal(c, closings[n - 1], rate);
      DoubledIsPow2(Floor(c), n - 1);
    }
  }

  /**
   The ideal period is never overshot; it is reached exactly from the rotation on at which the
   doublings of the floor pass it, which makes the number of rotations needed logarithmic.
   */
  lemma {:induction false} ReachesAndKeepsIdeal(c: Config, rate: real, closings: seq<Closing>)
    requires HasIdeal(c, rate) && ConstantRate(closings, rate)
    ensures PeriodAfter(c, FirstPeriod(c), closings) <= IdealPeriod(c, rate)
    ensures PeriodAfter(c, FirstPeriod(c), closings) == IdealPeriod(c, rate)
       <==> IdealPeriod(c, rate) <= Doubled(Floor(c), |closings|)
  {
    ConstantRateDoubles(c, rate, closings);
  }

  /** Bytes that arrive at `rate` within a period of `target / rate` do not exceed the target. */
  lemma FilledBytes(target: real, rate: real, period: real, filled: real)
    requires rate > 0.0 && period <= target / rate && filled == rate * period
    ensures filled <= target
  {
    assert rate * (target / rate) == target;
    MulMono(rate, period, target / rate);
  }

  /** With the default target, a segment filled at the constant rate for its period keeps under the file limit. */
  lemma {:induction false} DefaultTargetStaysUnderLimit(
      c: Config, rate: real, closings: seq<Closing>, period: real, filled: real)
    requires HasIdeal(c, rate) && ConstantRate(closings, rate) && c.adaptive.value.targetBytes.None?
    requires period == PeriodAfter(c, FirstPeriod(c), closings) && filled == rate * period
    ensures filled < c.maxFileSize as real
  {
    ReachesAndKeepsIdeal(c, rate, closings);
    FilledBytes(TargetBytes(c) as real, rate, period, filled);
    IdealMeansBytes(c, rate);
  }

  lemma IdealMeansBytes(c: Config, rate: real)
    requires HasIdeal(c, rate) && c.adaptive.value.targetBytes.None?
    ensures TargetBytes(c) < c.maxFileSize
  {
    ZeroOver(rate);
  }

  lemma ZeroOver(rate: real)
    requires rate > 0.0
    ensures 0.0 / rate == 0.0
  {
  }

  lemma MulMono(r: real, a: real, b: real)
    requires r >= 0.0 && a <= b
    ensures r * a <= r * b
  {
  }

  lemma MulPos(a: real, b: real)
    requires a > 0.0 && b > 0.0
    ensures a * b > 0.0
  {
  }

  lemma MulAssoc(a: real, b: real, c: real)
    ensures a * (b * c) == (a * b) * c
  {
  }

  /** Whatever the byte rates, the period stays between floor and ceiling and at most doubles per rotation. */
  lemma {:induction false} PeriodBounded(c: Config, closings: seq<Closing>)
    requires c.adaptive.Some? && 0.0 < c.adaptive.value.minPeriod <= Ceiling(c)
    ensures Floor(c) <= PeriodAfter(c, FirstPeriod(c), closings) <= Ceiling(c)
    ensures |closings| > 0 ==>
      PeriodAfter(c, FirstPeriod(c), closings) <= 2.0 * PeriodAfter(c, FirstPeriod(c), closings[..|closings| - 1])
  {
    if |closings| != 0 {
      PeriodBounded(c, closings[..|closings| - 1]);
    }
  }
}
