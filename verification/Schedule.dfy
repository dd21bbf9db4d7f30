/** The target along a branch that keeps to the configured schedule. */
module Schedule {
  import opened Types
  import opened Difficulty
  import opened Ledger
  import opened Rules
  import opened Acceptance

  /** At every adjustment number of the branch, the blocks since the one before took exactly the average
      time each. */
  ghost predicate OnSchedule(config: Config, b: Block) {
    b.prevId.HashOf? ==>
      var p := config.difficultyAdjustmentPeriod;
      OnSchedule(config, b.prevId.block) &&
      (b.seqno % p == 0 && p <= b.seqno < p + |Branch(b.prevId.block)| ==>
        b.timestamp == Branch(b.prevId.block)[b.seqno - p].timestamp + config.averageBlockTime * p)
  }

  /** What one step on schedule does to a target that is already a multiple of the span, or to the first. */
  lemma TargetStep(config: Config, first: nat, target: nat)
    requires 1 <= config.averageBlockTime * config.difficultyAdjustmentPeriod <= first <= MAX_TARGET
    requires target == first || target == first - first % (config.averageBlockTime * config.difficultyAdjustmentPeriod)
    ensures var span := config.averageBlockTime * config.difficultyAdjustmentPeriod;
            Adjust(config, target, span) == first - first % span
  {
    var span := config.averageBlockTime * config.difficultyAdjustmentPeriod;
    var q := first / span;
    QuotientAtLeastOne(first, span);
    assert first == q * span + first % span;
    MulMono(1, q, span);
    if target != first {
      DivModUnique(target, span, q, 0);
    }
    ScheduleKeepsTarget(config, target);
  }

  lemma FirstAdjustment(n: nat, p: nat)
    requires p > 0 && n > 0 && n % p == 0
    ensures n >= p
  {
    if n < p {
      DivModUnique(n, p, 0, n);
    }
  }

  /** The target on an accepted branch on schedule, exactly: the genesis target through the first period,
      and from then on, for good, the largest multiple of the scheduled span that it holds. */
  lemma {:induction false} TargetOnSchedule(config: Config, b: Block)
    requires Accepted(config, b) && OnSchedule(config, b)
    requires var span := config.averageBlockTime * config.difficultyAdjustmentPeriod;
             1 <= span < U128_RANGE && span <= config.genesisDifficulty <= MAX_TARGET
    ensures var span := config.averageBlockTime * config.difficultyAdjustmentPeriod;
            b.difficulty == if b.seqno < config.difficultyAdjustmentPeriod then config.genesisDifficulty
                            else config.genesisDifficulty - config.genesisDifficulty % span
  {
    if b != Genesis(config) {
      var prev := b.prevId.block;
      TargetOnSchedule(config, prev);
      AcceptedIsRooted(config, prev);
      RootedBranch(config, prev);
      ScheduledStep(config, prev, b);
    }
  }

  lemma ScheduledStep(config: Config, prev: Block, b: Block)
    requires b.prevId == prev.Id() && AcceptedAfter(config, prev, b) && OnSchedule(config, b)
    requires |Branch(prev)| == prev.seqno + 1
    requires var span := config.averageBlockTime * config.difficultyAdjustmentPeriod;
             1 <= span < U128_RANGE && span <= config.genesisDifficulty <= MAX_TARGET &&
             prev.difficulty == if prev.seqno < config.difficultyAdjustmentPeriod then config.genesisDifficulty
                                else config.genesisDifficulty - config.genesisDifficulty % span
    ensures var span := config.averageBlockTime * config.difficultyAdjustmentPeriod;
            b.difficulty == if b.seqno < config.difficultyAdjustmentPeriod then config.genesisDifficulty
                            else config.genesisDifficulty - config.genesisDifficulty % span
  {
    hide Types.Branch, Adjust, Spends, Utxo, RewardOk;
    var p, span := config.difficultyAdjustmentPeriod, config.averageBlockTime * config.difficultyAdjustmentPeriod;
    if b.seqno % p == 0 {
      FirstAdjustment(b.seqno, p);
      SpanIs(b.timestamp, Branch(prev)[b.seqno - p].timestamp, span);
      TargetStep(config, config.genesisDifficulty, prev.difficulty);
    } else {
      NotAtPeriod(prev.seqno, p);
    }
  }

  lemma SpanIs(later: Timestamp, earlier: Timestamp, span: nat)
    requires later == earlier + span && span < U128_RANGE
    ensures TimeSpan(later, earlier) == span
  {}

  lemma NotAtPeriod(n: nat, p: nat)
    requires p > 0 && (n + 1) % p != 0
    ensures n < p <==> n + 1 < p
  {
    if n + 1 == p {
      DivModUnique(p, p, 1, 0);
    }
  }
}
