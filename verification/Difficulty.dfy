/** The difficulty target and its periodic adjustment.  Targets are 256-bit and
    saturate; a larger target is easier to meet. */
module Difficulty {
  import opened Types

  const MAX_TARGET: nat := 0xffff_ffff_ffff_ffff_ffff_ffff_ffff_ffff_ffff_ffff_ffff_ffff_ffff_ffff_ffff_ffff
  const U128_RANGE: nat := 0x1_0000_0000_0000_0000_0000_0000_0000_0000

  function Min(a: int, b: int): int { if a < b then a else b }
  function Max(a: int, b: int): int { if a < b then b else a }

  function SaturatingMul(a: nat, b: nat): nat {
    Min(a * b, MAX_TARGET)
  }

  /** Subtraction of 128-bit timestamps, which wraps around below zero. */
  function TimeSpan(later: Timestamp, earlier: Timestamp): nat {
    (later - earlier) % U128_RANGE
  }

  function ExpectedSpan(config: Config): nat {
    config.averageBlockTime * config.difficultyAdjustmentPeriod
  }

  function Adjusted(target: nat, actual: nat, expected: nat): nat {
    if actual > expected * 4 then
      SaturatingMul(target, 4)
    else if actual < expected / 4 then
      Max(target / 4, 1)
    else
      // expected is zero here only together with actual, where the source divides by zero
      SaturatingMul(Max(if expected == 0 then 0 else target / expected, 1), actual)
  }

  function Adjust(config: Config, target: nat, actual: nat): nat {
    Adjusted(target, actual, ExpectedSpan(config))
  }

  predicate IsMet(target: nat, hash: nat) {
    hash < target
  }

  lemma MulMono(a: nat, b: nat, c: nat)
    requires a <= b
    ensures a * c <= b * c
    ensures c * a <= c * b
  {}

  /** Scaling: without saturation the middle branch multiplies the target by
      actual / expected, up to the rounding of one division. */
  lemma MiddleBranchScales(target: nat, actual: nat, expected: nat)
    requires 4 <= expected <= target
    requires expected / 4 <= actual <= expected * 4
    requires (target / expected) * actual <= MAX_TARGET
    ensures var next := Adjusted(target, actual, expected);
            next * expected <= target * actual < (next + actual) * expected
  {
    QuotientAtLeastOne(target, expected);
    ScaledByQuotient(target / expected, target % expected, actual, expected);
  }

  lemma QuotientAtLeastOne(target: nat, expected: nat)
    requires 1 <= expected <= target
    ensures target / expected >= 1
  {
    var q := target / expected;
    assert q * expected + target % expected == target;
  }

  lemma ScaledByQuotient(q: nat, r: nat, actual: nat, expected: nat)
    requires r < expected && actual > 0
    ensures q * actual * expected <= (q * expected + r) * actual < (q * actual + actual) * expected
  {
    calc {
      (q * expected + r) * actual;
      (q * expected) * actual + r * actual;
      q * actual * expected + r * actual;
    }
    assert 0 <= r * actual < expected * actual by {
      MulMono(r + 1, expected, actual);
    }
    assert (q * actual + actual) * expected == q * actual * expected + actual * expected;
  }

  /** The scaling factor times four never exceeds four times the larger of the two. */
  lemma FactorBound(target: nat, expected: nat)
    requires expected > 0
    ensures Max(target / expected, 1) * expected <= Max(target, expected)
  {
    var q := target / expected;
    assert q * expected <= target;
  }

  /** Range: an adjusted target is positive, fits 256 bits, and grew at most fourfold,
      measured from the larger of the old target and the expected span. */
  lemma AdjustedRange(target: nat, actual: nat, expected: nat)
    requires 1 <= target <= MAX_TARGET && expected >= 4
    ensures 1 <= Adjusted(target, actual, expected) <= Min(MAX_TARGET, 4 * Max(target, expected))
  {
    if actual > expected * 4 {
    } else if actual < expected / 4 {
    } else {
      var f := Max(target / expected, 1);
      FactorBound(target, expected);
      MulMono(actual, expected * 4, f);
      assert f * (expected * 4) == 4 * (f * expected);
      assert f * actual >= 1 by { MulMono(1, f, actual); }
    }
  }

  /** Monotonicity: from a quarter of the expected span upward, slower blocks never make
      the target smaller. */
  lemma AdjustedMonotone(target: nat, a: nat, b: nat, expected: nat)
    requires 4 <= expected <= target
    requires expected / 4 <= a <= b
    ensures Adjusted(target, a, expected) <= Adjusted(target, b, expected)
  {
    var f := Max(target / expected, 1);
    if b <= expected * 4 {
      MulMono(a, b, f);
    } else if a <= expected * 4 {
      FactorBound(target, expected);
      MulMono(a, expected * 4, f);
      assert f * (expected * 4) == 4 * (f * expected);
    }
  }

  /** Across the quarter mark monotonicity can fail: with old target 11 and expected span 6,
      a span of 0 gives target 2 and a span of 1 gives target 1.  It holds across the mark
      exactly when a quarter of the old target is at most the value at the mark. */
  lemma MonotoneAcrossQuarterIff(target: nat, expected: nat)
    requires 4 <= expected <= target <= MAX_TARGET
    ensures (forall a: nat, b: nat :: a <= b ==> Adjusted(target, a, expected) <= Adjusted(target, b, expected))
            <==> target / 4 <= (target / expected) * (expected / 4)
    ensures Adjusted(11, 0, 6) == 2 && Adjusted(11, 1, 6) == 1
  {
    var mark := expected / 4;
    var f := target / expected;
    QuotientAtLeastOne(target, expected);
    assert f * mark <= target by {
      assert f * expected <= target;
      MulMono(mark, expected, f);
    }
    assert Adjusted(target, mark, expected) == f * mark;
    assert Adjusted(target, 0, expected) == target / 4;
    if target / 4 <= f * mark {
      forall a: nat, b: nat | a <= b
        ensures Adjusted(target, a, expected) <= Adjusted(target, b, expected)
      {
        if a >= mark {
          AdjustedMonotone(target, a, b, expected);
        } else if b >= mark {
          AdjustedMonotone(target, mark, b, expected);
        }
      }
    } else {
      assert Adjusted(target, 0, expected) > Adjusted(target, mark, expected);
    }
  }

  // ---------- against the configured schedule ----------

  /** Blocks on schedule keep the target, up to the rounding of one division, if and only if it is not
      below the scheduled time: when a whole period took exactly the average time of its blocks, the
      new target is the largest multiple of that time that the old one holds, or that time itself. */
  lemma ScheduleKeepsTarget(config: Config, target: nat)
    requires 1 <= config.averageBlockTime * config.difficultyAdjustmentPeriod <= MAX_TARGET
    requires 1 <= target <= MAX_TARGET
    ensures var span := config.averageBlockTime * config.difficultyAdjustmentPeriod;
            if span <= target
            then Adjust(config, target, span) == target - target % span &&
                 target - span < Adjust(config, target, span) <= target
            else Adjust(config, target, span) == span > target
  {
    var span := config.averageBlockTime * config.difficultyAdjustmentPeriod;
    if span <= target {
      QuotientAtLeastOne(target, span);
      assert (target / span) * span == target - target % span;
    } else {
      QuotientZero(target, span);
    }
  }

  lemma QuotientZero(target: nat, span: nat)
    requires target < span
    ensures target / span == 0
  {}

  /** Between a quarter of that time and four times it, the target scales by actual over scheduled time,
      up to the rounding of one division and as long as it does not saturate. */
  lemma AdjustScales(config: Config, target: nat, actual: nat)
    requires 4 <= config.averageBlockTime * config.difficultyAdjustmentPeriod <= target
    requires var span := config.averageBlockTime * config.difficultyAdjustmentPeriod;
             span / 4 <= actual <= 4 * span && (target / span) * actual <= MAX_TARGET
    ensures var span := config.averageBlockTime * config.difficultyAdjustmentPeriod;
            var next := Adjust(config, target, actual);
            next * span <= target * actual < (next + actual) * span
  {
    MiddleBranchScales(target, actual, config.averageBlockTime * config.difficultyAdjustmentPeriod);
  }

  /** Outside it changes fourfold: harder after a period that took less than a quarter of the scheduled
      time, but never below one; easier, but within 256 bits, after one that took over four times it. */
  lemma AdjustFourfold(config: Config, target: nat, actual: nat)
    requires 1 <= target <= MAX_TARGET
    ensures var span := config.averageBlockTime * config.difficultyAdjustmentPeriod;
            var next := Adjust(config, target, actual);
            (actual < span / 4 ==> 4 * next <= target < 4 * next + 4 || (next == 1 && target < 4)) &&
            (actual > 4 * span ==> next == 4 * target || (next == MAX_TARGET && 4 * target > MAX_TARGET))
  {}

  /** A block dated before the adjustment block it is compared with seems to come after an age: the span
      wraps, and the target quadruples. */
  lemma WrappedSpanEases(config: Config, target: nat, time: Timestamp, adjustment: Timestamp)
    requires time < adjustment < U128_RANGE && 1 <= target <= MAX_TARGET
    requires 4 * (config.averageBlockTime * config.difficultyAdjustmentPeriod) < U128_RANGE - (adjustment - time)
    ensures var next := Adjust(config, target, TimeSpan(time, adjustment));
            next == 4 * target || (next == MAX_TARGET && 4 * target > MAX_TARGET)
  {
    assert time - adjustment == -1 * U128_RANGE + (U128_RANGE - (adjustment - time));
    assert TimeSpan(time, adjustment) == U128_RANGE - (adjustment - time);
    AdjustFourfold(config, target, TimeSpan(time, adjustment));
  }

  // ---------- what a target means ----------

  function HashesMeeting(target: nat, hashes: nat): set<nat> {
    set hash | 0 <= hash < hashes && IsMet(target, hash)
  }

  /** Of any number of hashes, counted from zero, a target is met by as many as it says, or by all. */
  lemma {:induction false} TargetIsCount(target: nat, hashes: nat)
    ensures |HashesMeeting(target, hashes)| == Min(target, hashes)
  {
    if hashes == 0 {
      assert HashesMeeting(target, 0) == {};
    } else {
      TargetIsCount(target, hashes - 1);
      if hashes - 1 < target {
        assert HashesMeeting(target, hashes) == HashesMeeting(target, hashes - 1) + {hashes - 1};
      } else {
        assert HashesMeeting(target, hashes) == HashesMeeting(target, hashes - 1);
      }
    }
  }
}
