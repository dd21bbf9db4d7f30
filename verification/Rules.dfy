/** The consensus rules: what a block must satisfy relative to its parent, and what the
    rules alone guarantee along a whole branch. */
module Rules {
  import opened Types
  import opened Difficulty
  import opened Ledger
  import opened Transactions

  // ---------- rewards ----------

  function Halved(word: U64, times: nat): U64 {
    if times == 0 then word else Halved(word, times - 1) / 2
  }

  /** The right shift of a 64-bit word: only the low six bits of the distance count. */
  function ShiftRight64(word: U64, distance: nat): U64 {
    Halved(word, distance % 64)
  }

  function Subsidy(config: Config, seqno: nat): U64 {
    ShiftRight64(config.initialBlockSubsidy, seqno / config.blockSubsidyHalfPeriod)
  }

  function ExpectedReward(config: Config, seqno: nat, txns: seq<Transaction>): U64 {
    Wrap(Fees(txns) + Subsidy(config, seqno))
  }

  predicate RewardOk(config: Config, b: Block) {
    b.reward.amount == ExpectedReward(config, b.seqno, b.transactions)
  }

  /** The reward a block is due without wrapping fits a 64-bit word. */
  predicate RewardFits(config: Config, b: Block) {
    0 <= ExactFees(b.transactions) + Subsidy(config, b.seqno) < U64_RANGE
  }

  /** A reward that is exactly due passes the check; and a reward that passes the check is
      exactly due if and only if what is due fits 64 bits. */
  lemma RewardExactIff(config: Config, b: Block)
    ensures var due := ExactFees(b.transactions) + Subsidy(config, b.seqno);
            (b.reward.amount == due ==> RewardOk(config, b)) &&
            (RewardOk(config, b) ==> (b.reward.amount == due <==> RewardFits(config, b)))
  {
    hide Fees, ExactFees, Subsidy, Wrap;
    FeesWrap(b.transactions);
    var exact, subsidy: U64 := ExactFees(b.transactions), Subsidy(config, b.seqno);
    WrapOfWord(subsidy);
    WrapSum(exact, subsidy);
    if 0 <= exact + subsidy < U64_RANGE {
      WrapOfWord(exact + subsidy);
    }
  }

  // ---------- headers ----------

  /** How far back from `seqno` the last adjustment lies. */
  function RewindNumber(config: Config, seqno: nat): nat {
    var rewind := seqno % config.difficultyAdjustmentPeriod;
    if rewind == 0 then config.difficultyAdjustmentPeriod else rewind
  }

  lemma RewindFits(config: Config, seqno: nat)
    ensures seqno > 0 ==> RewindNumber(config, seqno) <= seqno
  {
    var p := config.difficultyAdjustmentPeriod;
    if 0 < seqno < p {
      assert seqno % p == seqno;
    }
  }

  /** The block of the previous adjustment in a chain indexed by sequence number; None
      stands for an index outside the chain, on which the source panics. */
  function AdjustmentBlock(config: Config, chain: seq<Block>, seqno: nat): Option<Block> {
    var index := seqno - RewindNumber(config, seqno);
    if 0 <= index < |chain| then Some(chain[index]) else None
  }

  /** The lookup finds the greatest multiple of the period below `seqno`; it is in range
      exactly when `seqno` is positive and that multiple is on the chain, so always from 1 to
      one past the chain's last number. */
  lemma AdjustmentFound(config: Config, chain: seq<Block>, seqno: nat)
    ensures var p := config.difficultyAdjustmentPeriod;
            AdjustmentBlock(config, chain, seqno).Some? <==> 0 < seqno && ((seqno - 1) / p) * p < |chain|
    ensures var p := config.difficultyAdjustmentPeriod;
            AdjustmentBlock(config, chain, seqno).Some? ==>
              AdjustmentBlock(config, chain, seqno).value == chain[((seqno - 1) / p) * p]
    ensures 0 < seqno <= |chain| ==> AdjustmentBlock(config, chain, seqno).Some?
  {
    RewindFits(config, seqno);
    if seqno > 0 {
      LastMultipleBelow(config, seqno);
    }
  }

  lemma LastMultipleBelow(config: Config, seqno: nat)
    requires seqno > 0
    ensures seqno - RewindNumber(config, seqno)
            == ((seqno - 1) / config.difficultyAdjustmentPeriod) * config.difficultyAdjustmentPeriod
  {
    var p := config.difficultyAdjustmentPeriod;
    var q, r := (seqno - 1) / p, (seqno - 1) % p;
    assert seqno - 1 == q * p + r;
    PeriodStep(seqno - 1, p);
    if seqno % p == 0 {
      assert (q + 1) * p == q * p + p;
      assert seqno == (seqno / p) * p;
    }
  }

  /** The target a block must carry, given the chain in which the previous adjustment is
      looked up. */
  function ExpectedDifficulty(config: Config, prev: Block, seqno: nat, timestamp: Timestamp, chain: seq<Block>): nat
    requires 0 < seqno <= |chain|
  {
    if seqno % config.difficultyAdjustmentPeriod == 0 then
      AdjustmentFound(config, chain, seqno);
      var adjustment := AdjustmentBlock(config, chain, seqno).value;
      Adjust(config, prev.difficulty, TimeSpan(timestamp, adjustment.timestamp))
    else
      prev.difficulty
  }

  predicate HeaderOk(config: Config, prev: Block, b: Block, chain: seq<Block>)
    requires prev.seqno < |chain|
  {
    && b.timestamp >= prev.timestamp
    && b.seqno == prev.seqno + 1
    && b.difficulty == ExpectedDifficulty(config, prev, b.seqno, b.timestamp, chain)
  }

  /** All checks the validator makes, given the chain for the adjustment lookup and the
      unspent set for the inputs. */
  predicate Checks(config: Config, prev: Block, b: Block, chain: seq<Block>, cash: set<Cash>)
    requires prev.seqno < |chain|
  {
    HeaderOk(config, prev, b, chain) && Spends(b) <= cash && RewardOk(config, b)
  }

  // ---------- what holds along a branch whatever the lookups returned ----------

  /** The part of the checks that does not depend on the chain or the unspent set in use. */
  ghost predicate LocalOk(config: Config, prev: Block, b: Block) {
    && b.timestamp >= prev.timestamp
    && b.seqno == prev.seqno + 1
    && (if b.seqno % config.difficultyAdjustmentPeriod == 0
        then exists span: nat :: b.difficulty == Adjust(config, prev.difficulty, span)
        else b.difficulty == prev.difficulty)
    && RewardOk(config, b)
  }

  lemma ChecksImplyLocal(config: Config, prev: Block, b: Block, chain: seq<Block>, cash: set<Cash>)
    requires prev.seqno < |chain| && Checks(config, prev, b, chain, cash)
    ensures LocalOk(config, prev, b)
  {}

  /** The branch of `b` starts at genesis and every link on it passed the local rules. */
  ghost predicate Rooted(config: Config, b: Block) {
    b == Genesis(config) ||
    (b.prevId.HashOf? && Rooted(config, b.prevId.block) && LocalOk(config, b.prevId.block, b))
  }

  lemma GenesisBranch(config: Config)
    ensures Branch(Genesis(config)) == [Genesis(config)]
  {}

  /** A rooted branch has one block per sequence number, from genesis up. */
  lemma {:induction false} RootedBranch(config: Config, b: Block)
    requires Rooted(config, b)
    ensures |Branch(b)| == b.seqno + 1
    ensures Branch(b)[0] == Genesis(config)
    ensures forall k :: 0 <= k <= b.seqno ==> Branch(b)[k].seqno == k && Rooted(config, Branch(b)[k])
  {
    if b != Genesis(config) {
      RootedBranch(config, b.prevId.block);
    }
  }

  /** Timestamps never decrease along a rooted branch. */
  lemma {:induction false} TimestampsMonotone(config: Config, b: Block, i: nat, j: nat)
    requires Rooted(config, b) && i <= j <= b.seqno
    ensures j < |Branch(b)| && Branch(b)[i].timestamp <= Branch(b)[j].timestamp
  {
    RootedBranch(config, b);
    if b == Genesis(config) {
    } else if j < b.seqno {
      RootedBranch(config, b.prevId.block);
      TimestampsMonotone(config, b.prevId.block, i, j);
    } else if i < j {
      RootedBranch(config, b.prevId.block);
      TimestampsMonotone(config, b.prevId.block, i, j - 1);
    }
  }

  lemma RootedPrefix(config: Config, b: Block, a: Block)
    requires Rooted(config, b) && OnBranch(a, b)
    ensures Rooted(config, a)
  {
    RootedBranch(config, b);
  }

  lemma Height(config: Config, b: Block, a: Block)
    requires Rooted(config, b) && OnBranch(a, b)
    ensures |Branch(a)| == a.seqno + 1
  {
    RootedBranch(config, b);
    RootedBranch(config, a);
  }

  /** Two blocks of one rooted branch: the lower one is an ancestor of the higher. */
  lemma LowerIsAncestor(config: Config, b: Block, x: Block, y: Block)
    requires Rooted(config, b) && OnBranch(x, b) && OnBranch(y, b) && x.seqno <= y.seqno
    ensures OnBranch(x, y)
  {
    Height(config, b, x);
    Height(config, b, y);
    BranchesNest(x, y, b);
  }

  lemma SameHeightSame(config: Config, b: Block, x: Block, y: Block)
    requires Rooted(config, b) && OnBranch(x, b) && OnBranch(y, b) && x.seqno == y.seqno
    ensures x == y
  {
    LowerIsAncestor(config, b, x, y);
    LowerIsAncestor(config, b, y, x);
    BranchIsPrefix(x, y);
    BranchIsPrefix(y, x);
  }

  lemma BelowTop(config: Config, b: Block, a: Block)
    requires Rooted(config, b) && OnBranch(a, b)
    ensures OnBranch(b, b) && a.seqno <= b.seqno && (a.seqno == b.seqno ==> a == b)
  {
    assert OnBranch(b, b);
    BranchIsPrefix(a, b);
    Height(config, b, a);
    Height(config, b, b);
  }

  /** When the adjustment block is looked up in a chain that agrees with the block's own
      branch up to there, it is the block's own ancestor and the span does not wrap. */
  lemma AdjustmentSpanDoesNotWrap(config: Config, prev: Block, b: Block, chain: seq<Block>)
    requires Rooted(config, prev) && b.prevId == prev.Id()
    requires b.seqno == prev.seqno + 1 && prev.timestamp <= b.timestamp < U128_RANGE
    requires b.seqno <= |chain|
    requires AdjustmentBlock(config, chain, b.seqno) == AdjustmentBlock(config, Branch(prev), b.seqno)
    ensures AdjustmentBlock(config, chain, b.seqno).Some?
    ensures var adjustment := AdjustmentBlock(config, chain, b.seqno).value;
            OnBranch(adjustment, b) &&
            TimeSpan(b.timestamp, adjustment.timestamp) == b.timestamp - adjustment.timestamp
  {
    AdjustmentFound(config, chain, b.seqno);
    RootedBranch(config, prev);
    TimestampsMonotone(config, prev, b.seqno - RewindNumber(config, b.seqno), prev.seqno);
  }

  function Pow4(n: nat): (r: nat)
    ensures r > 0
  {
    if n == 0 then 1 else 4 * Pow4(n - 1)
  }

  /** One adjustment keeps a target positive and at most quadruples the bound. */
  lemma AdjustStep(difficulty: nat, span: nat, expected: nat, most: nat, k: nat)
    requires 1 <= difficulty <= MAX_TARGET && 4 <= expected <= most
    requires difficulty <= Pow4(k) * most
    ensures 1 <= Adjusted(difficulty, span, expected) <= MAX_TARGET
    ensures Adjusted(difficulty, span, expected) <= Pow4(k + 1) * most
  {
    AdjustedRange(difficulty, span, expected);
    MulMono(1, Pow4(k), most);
    assert 4 * (Pow4(k) * most) == Pow4(k + 1) * most;
  }

  /** Difficulty over whole chains: a target starts positive, stays positive and at most
      quadruples at each adjustment. */
  lemma {:induction false} DifficultyOnChain(config: Config, b: Block)
    requires Rooted(config, b)
    requires 1 <= config.genesisDifficulty <= MAX_TARGET
    requires config.averageBlockTime * config.difficultyAdjustmentPeriod >= 4
    ensures 1 <= b.difficulty <= MAX_TARGET
    ensures var span := config.averageBlockTime * config.difficultyAdjustmentPeriod;
            b.difficulty <= Pow4(b.seqno / config.difficultyAdjustmentPeriod) * Max(config.genesisDifficulty, span)
  {
    var p := config.difficultyAdjustmentPeriod;
    var most := Max(config.genesisDifficulty, ExpectedSpan(config));
    if b == Genesis(config) {
      DivModUnique(0, p, 0, 0);
    } else {
      var prev := b.prevId.block;
      DifficultyOnChain(config, prev);
      PeriodStep(prev.seqno, p);
      if b.seqno % p == 0 {
        var span: nat :| b.difficulty == Adjust(config, prev.difficulty, span);
        AdjustStep(prev.difficulty, span, ExpectedSpan(config), most, prev.seqno / p);
      }
    }
  }

  lemma PeriodStep(n: nat, p: nat)
    requires p > 0
    ensures (n + 1) % p == 0 ==> (n + 1) / p == n / p + 1
    ensures (n + 1) % p != 0 ==> (n + 1) / p == n / p && (n + 1) % p == n % p + 1
    ensures n % p < p && n / p >= 0
  {
    var q, r := n / p, n % p;
    assert n == q * p + r;
    if r + 1 < p {
      DivModUnique(n + 1, p, q, r + 1);
    } else {
      assert (q + 1) * p == q * p + p;
      DivModUnique(n + 1, p, q + 1, 0);
    }
  }

  lemma DivModUnique(n: nat, p: nat, q: nat, r: nat)
    requires n == q * p + r && r < p
    ensures n / p == q && n % p == r
  {
    var q', r' := n / p, n % p;
    assert n == q' * p + r';
    if q < q' {
      assert (q' - q) * p >= p by { MulMono(1, q' - q, p); }
      assert false;
    } else if q' < q {
      assert (q - q') * p >= p by { MulMono(1, q - q', p); }
      assert false;
    }
  }
}
