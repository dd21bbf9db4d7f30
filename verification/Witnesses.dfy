/** Runs of the hub as written that end where one would not expect: the order of delivery decides,
    an exchange stalls, and blocks that raise the supply are accepted. */
module Witnesses {
  import opened Types
  import opened Difficulty
  import opened Ledger
  import opened Transactions
  import opened Rules
  import opened HubState
  import opened Drain
  import opened Walks
  import opened Runs
  import opened Acceptance
  import opened AsWritten
  import opened OrderIndependence
  import opened Deliveries
  import opened BranchVerdicts
  import opened CatchUp
  import Supply

  // ---------- blocks without transactions ----------

  /** A block without transactions on `prev`: its own cash id tells it from its siblings. */
  function Link(config: Config, prev: Block, id: nat): Block {
    Block(prev.seqno + 1, prev.difficulty, prev.Id(), [], Cash(id, config.initialBlockSubsidy, id), id,
          prev.timestamp, 0, 0)
  }

  /** The first numbers need no adjustment and pay the first subsidy. */
  predicate FirstNumbers(config: Config, n: nat) {
    config.difficultyAdjustmentPeriod > n && config.blockSubsidyHalfPeriod > n
  }

  lemma SmallSeqno(config: Config, n: nat, seqno: nat)
    requires FirstNumbers(config, n) && seqno <= n
    ensures Subsidy(config, seqno) == config.initialBlockSubsidy
    ensures seqno > 0 ==> seqno % config.difficultyAdjustmentPeriod != 0
  {
    FirstSubsidy(config, seqno);
    DivModUnique(seqno, config.difficultyAdjustmentPeriod, 0, seqno);
  }

  lemma FirstSubsidy(config: Config, seqno: nat)
    requires seqno < config.blockSubsidyHalfPeriod
    ensures Subsidy(config, seqno) == config.initialBlockSubsidy
  {
    DivModUnique(seqno, config.blockSubsidyHalfPeriod, 0, seqno);
  }

  lemma EmptyBlock(b: Block)
    requires b.transactions == []
    ensures Spends(b) == {} && Creates(b) == {b.reward} && Fees(b.transactions) == 0
  {}

  /** Such a block passes in every state in which its parent is valid. */
  lemma LinkPasses(su: Setup, s: State, prev: Block, id: nat, n: nat)
    requires Judgeable(su, s, Link(su.config, prev, id)) && FirstNumbers(su.config, n) && prev.seqno < n
    ensures HeaderVerdict(su, s, Link(su.config, prev, id)) && Verdict(su, s, Link(su.config, prev, id))
  {
    hide HubState.IsTree, HubState.CashMoved, Types.Branch, Rules.Subsidy;
    var b := Link(su.config, prev, id);
    TreeNode(su, s, b.prevId);
    SmallSeqno(su.config, n, prev.seqno + 1);
    LookupInRange(su, s, prev);
    EmptyBlock(b);
    WrapUnique(su.config.initialBlockSubsidy, 0, su.config.initialBlockSubsidy);
  }

  lemma LinkLedger(config: Config, prev: Block, id: nat)
    ensures var b := Link(config, prev, id);
            Branch(b) == Branch(prev) + [b] && Utxo(b) == Utxo(prev) + {b.reward} &&
            CreatedOn(Branch(b)) == CreatedOn(Branch(prev)) + {b.reward} && SpentOn(Branch(b)) == SpentOn(Branch(prev))
  {
    var b := Link(config, prev, id);
    EmptyBlock(b);
    UtxoUnfold(b);
    assert ApplyTxns(Utxo(prev), []) == Utxo(prev);
    assert Branch(b)[..|Branch(b)| - 1] == Branch(prev);
  }

  // ---------- the order of delivery: leftover cash ----------

  function Rival(config: Config, id: nat): Block {
    Link(config, Genesis(config), id)
  }

  function Nephew(config: Config): Block {
    Link(config, Rival(config, 1), 3)
  }

  /** A child of the second rival that claims the first one's reward. */
  function Claimant(config: Config): Block {
    Link(config, Rival(config, 2), 4).(
      transactions := [Transaction([Rival(config, 1).reward], [], 0)],
      reward := Cash(4, Wrap(config.initialBlockSubsidy + config.initialBlockSubsidy), 4))
  }

  function Family(config: Config): set<Block> {
    {Rival(config, 1), Nephew(config), Rival(config, 2), Claimant(config)}
  }

  lemma FamilyLedger(config: Config, id: nat)
    ensures var g, b := Genesis(config), Rival(config, id);
            Spends(b) == {} && SpentOn(Branch(g)) == {} && SpentOn(Branch(b)) == {} &&
            Utxo(g) == {g.reward} && Utxo(b) == {g.reward, b.reward} &&
            CreatedOn(Branch(b)) == {g.reward, b.reward}
    ensures id > 0 ==> Fresh(Rival(config, id))
    ensures Fresh(Nephew(config))
  {
    Supply.GenesisUtxo(config);
    LinkLedger(config, Genesis(config), id);
    LinkLedger(config, Genesis(config), 1);
  }

  lemma ClaimantLedger(config: Config)
    ensures var b := Claimant(config);
            Spends(b) == {Rival(config, 1).reward} && Fees(b.transactions) == config.initialBlockSubsidy && Fresh(b)
  {
    var b := Claimant(config);
    var coin := Rival(config, 1).reward;
    Supply.OneTransaction(b.transactions[0]);
    FamilyLedger(config, 2);
    assert [coin][..0] == [];
    assert Sum64([coin]) == Wrap(Sum64([]) + coin.amount);
    assert Elems([coin]) == {coin};
  }

  /** The claimant's verdict hangs on what the cache was left with. */
  lemma ClaimantVerdict(su: Setup, s: State)
    requires Unrepaired(su) && FirstNumbers(su.config, 2) && Judgeable(su, s, Claimant(su.config))
    ensures Verdict(su, s, Claimant(su.config)) <==> Rival(su.config, 1).reward in s.cashSet
  {
    hide HubState.IsTree, HubState.Verdict;
    var b, prev := Claimant(su.config), Rival(su.config, 2);
    TreeNode(su, s, prev.Id());
    SmallSeqno(su.config, 2, 2);
    LookupInRange(su, s, prev);
    VerdictAsWritten(su, s, b);
    FamilyLedger(su.config, 2);
    ClaimantLedger(su.config);
  }

  /** What is left in the cache after a move to genesis or to the first rival. */
  lemma CashAfter(su: Setup, s: State, at: Block)
    requires Unrepaired(su) && Tree(su, s) && at.Id() in s.validBlocks
    requires at == su.GenesisBlock() || at == Rival(su.config, 1)
    ensures CashMoved(su, s, at) == Utxo(at) + s.cashSet
  {
    hide HubState.IsTree, HubState.CashMoved;
    CashMovedAsWritten(su, s, at);
    FamilyLedger(su.config, 1);
  }

  lemma AcceptingRun(su: Setup) returns (run: Run)
    requires Unrepaired(su) && FirstNumbers(su.config, 2)
    ensures Plain(su, run) && Delivered(run) == Family(su.config)
    ensures Claimant(su.config).Id() in StateOf(su, run).validBlocks
  {
    hide HubState.Verdict, HubState.HeaderVerdict, HubState.CashMoved, HubState.Tree, Plain, Utxo;
    hide Ledger.SpentOn, Ledger.CreatedOn, Types.Branch, Ledger.Spends, Ledger.Fresh;
    var config, now := su.config, su.GenesisBlock().timestamp;
    FamilyLedger(config, 1);
    var start := StartRun(su);
    LinkPasses(su, Initial(su), Genesis(config), 1, 2);
    var run1 := Deliver(su, start, Rival(config, 1), now);
    LinkPasses(su, StateOf(su, run1), Rival(config, 1), 3, 2);
    CashAfter(su, StateOf(su, run1), Rival(config, 1));
    var run2 := Deliver(su, run1, Nephew(config), now);
    LinkPasses(su, StateOf(su, run2), Genesis(config), 2, 2);
    CashAfter(su, StateOf(su, run2), Genesis(config));
    var run3 := Deliver(su, run2, Rival(config, 2), now);
    ClaimantVerdict(su, StateOf(su, run3));
    run := Deliver(su, run3, Claimant(config), now);
  }

  lemma RejectingRun(su: Setup) returns (run: Run)
    requires Unrepaired(su) && FirstNumbers(su.config, 2)
    ensures Plain(su, run) && Delivered(run) == Family(su.config)
    ensures Claimant(su.config).Id() in StateOf(su, run).invalidBlocks
  {
    hide HubState.Verdict, HubState.HeaderVerdict, HubState.CashMoved, HubState.Tree, Plain, Utxo;
    hide Ledger.SpentOn, Ledger.CreatedOn, Types.Branch, Ledger.Spends, Ledger.Fresh;
    var config, now := su.config, su.GenesisBlock().timestamp;
    FamilyLedger(config, 1);
    var start := StartRun(su);
    LinkPasses(su, Initial(su), Genesis(config), 2, 2);
    CashAfter(su, Initial(su), Genesis(config));
    var run1 := Deliver(su, start, Rival(config, 2), now);
    ClaimantVerdict(su, StateOf(su, run1));
    var run2 := Deliver(su, run1, Claimant(config), now);
    LinkPasses(su, StateOf(su, run2), Genesis(config), 1, 2);
    var run3 := Deliver(su, run2, Rival(config, 1), now);
    LinkPasses(su, StateOf(su, run3), Rival(config, 1), 3, 2);
    run := Deliver(su, run3, Nephew(config), now);
  }

  lemma FamilyUndisputed(su: Setup)
    requires FirstNumbers(su.config, 2)
    ensures Undisputed(su, Family(su.config))
  {
    SmallSeqno(su.config, 2, 1);
    SmallSeqno(su.config, 2, 2);
    AgreeingLookupsUndisputed(su, Family(su.config));
  }

  /** As written the order of delivery matters.  The same four blocks, delivered in two orders and
      nothing else, all creating fresh cash and none disputed: one run accepts the
      claimant, although no ancestor of it created what it spends; the other rejects it for good. */
  lemma OrderMatters(su: Setup) returns (run1: Run, run2: Run)
    requires Unrepaired(su) && FirstNumbers(su.config, 2)
    ensures Plain(su, run1) && Plain(su, run2) && Delivered(run1) == Delivered(run2) == Family(su.config)
    ensures Claimant(su.config).Id() in StateOf(su, run1).validBlocks
    ensures Claimant(su.config).Id() in StateOf(su, run2).invalidBlocks
    ensures Undisputed(su, Family(su.config)) && forall b :: b in Family(su.config) ==> Fresh(b)
    ensures Spends(Claimant(su.config)) != {} && Spends(Claimant(su.config)) !! CreatedOn(Branch(Rival(su.config, 2)))
  {
    hide Plain, Ledger.SpentOn, Ledger.CreatedOn, Types.Branch, Ledger.Spends, Ledger.Fresh, Undisputed;
    ClaimantLedger(su.config);
    FamilyLedger(su.config, 1);
    FamilyLedger(su.config, 2);
    FamilyUndisputed(su);
    run1 := AcceptingRun(su);
    run2 := RejectingRun(su);
  }

  /** The cache itself, across a fork that a hub can hold: two rival children of genesis, both valid,
      and the first one's reward is still in the set returned for the second. */
  lemma StaleRewardAcrossFork(su: Setup) returns (run: Run)
    requires FirstNumbers(su.config, 1)
    ensures Plain(su, run)
    ensures Rival(su.config, 1).Id() in StateOf(su, run).validBlocks
    ensures Rival(su.config, 2).Id() in StateOf(su, run).validBlocks
    ensures var root, left, right := su.GenesisBlock(), Rival(su.config, 1), Rival(su.config, 2);
            RootedAt(root, [left, right]) &&
            left.reward in AsWrittenRun(root, [left, right]) && left.reward !in Utxo(right)
  {
    hide HubState.Verdict, HubState.HeaderVerdict, HubState.CashMoved, HubState.Tree, Plain, Utxo;
    hide Ledger.SpentOn, Ledger.CreatedOn, Types.Branch, RootedAt, AsWrittenRun;
    var config, now := su.config, su.GenesisBlock().timestamp;
    run := StartRun(su);
    LinkPasses(su, Initial(su), Genesis(config), 1, 1);
    run := Deliver(su, run, Rival(config, 1), now);
    LinkPasses(su, StateOf(su, run), Genesis(config), 2, 1);
    run := Deliver(su, run, Rival(config, 2), now);
    StaleReward(config);
  }

  lemma StaleReward(config: Config)
    ensures var root, left, right := Genesis(config), Rival(config, 1), Rival(config, 2);
            RootedAt(root, [left, right]) &&
            left.reward in AsWrittenRun(root, [left, right]) && left.reward !in Utxo(right)
  {
    var root, left, right := Genesis(config), Rival(config, 1), Rival(config, 2);
    GenesisBranch(config);
    LinkLedger(config, root, 1);
    LinkLedger(config, root, 2);
    FamilyLedger(config, 1);
    FamilyLedger(config, 2);
    hide Utxo, SpentOn, CreatedOn, AsWrittenRun, Types.Branch;
    RootedTwo(root, left, right);
    assert left.reward in AsWrittenRun(root, [left, right]) by {
      assert LeftFrom(left.reward, [left, right], 0);
      AsWrittenContents(root, [left, right], left.reward);
    }
  }

  lemma RootedTwo(root: Block, left: Block, right: Block)
    requires Branch(root) == [root] && Branch(left)[0] == root && Branch(right)[0] == root
    ensures RootedAt(root, [left, right])
  {
    assert [left, right][..1] == [left] && [left][..0] == [];
    assert RootedAt(root, [left]);
  }

  // ---------- the order of delivery: the lookup on the leader's chain ----------

  /** Every number is an adjustment number, and four ticks are expected between two blocks. */
  predicate AlwaysAdjusting(config: Config) {
    config.difficultyAdjustmentPeriod == 1 && config.averageBlockTime == 4 && config.genesisDifficulty == 64 &&
    config.blockSubsidyHalfPeriod > 2
  }

  /** A block mined at once, one mined late, and a child of the late one. */
  function Prompt(config: Config): Block {
    Link(config, Genesis(config), 1).(difficulty := 16)
  }

  function Late(config: Config): Block {
    Link(config, Genesis(config), 2).(difficulty := 256, timestamp := config.genesisTimestamp + 17)
  }

  function LateChild(config: Config): Block {
    Link(config, Late(config), 3).(difficulty := 64)
  }

  /** A block without transactions whose difficulty is the one the lookup calls for passes, any other
      does not. */
  lemma AdjustedVerdict(su: Setup, s: State, b: Block)
    requires !su.repairs.ownLookup && AlwaysAdjusting(su.config) && Judgeable(su, s, b)
    requires var prev := s.validBlocks[b.prevId];
             b.transactions == [] && b.seqno == prev.seqno + 1 <= 2 && b.timestamp >= prev.timestamp &&
             b.reward.amount == su.config.initialBlockSubsidy
    ensures var prev, chain := s.validBlocks[b.prevId], Branch(s.validBlocks[s.leadingBlock]);
            prev.seqno < |chain| &&
            (Verdict(su, s, b) <==>
              b.difficulty == Adjusted(prev.difficulty, TimeSpan(b.timestamp, chain[prev.seqno].timestamp), 4))
  {
    hide HubState.IsTree, HubState.CashMoved, Types.Branch, Rules.Subsidy, Difficulty.Adjusted, Difficulty.TimeSpan;
    var prev := s.validBlocks[b.prevId];
    TreeNode(su, s, b.prevId);
    LookupInRange(su, s, prev);
    FirstSubsidy(su.config, b.seqno);
    EmptyBlock(b);
    WrapUnique(su.config.initialBlockSubsidy, 0, su.config.initialBlockSubsidy);
    assert b.seqno % 1 == 0;
  }

  lemma LookupBranches(config: Config)
    ensures var g := Genesis(config);
            Branch(g) == [g] && Branch(Prompt(config)) == [g, Prompt(config)] &&
            Branch(Late(config)) == [g, Late(config)] &&
            Branch(LateChild(config)) == [g, Late(config), LateChild(config)]
  {}

  lemma AdjustedValues(time: Timestamp)
    ensures TimeSpan(time, time) == 0 && TimeSpan(time + 17, time) == 17
    ensures Adjusted(64, 0, 4) == 16 && Adjusted(64, 17, 4) == 256
    ensures Adjusted(256, 0, 4) == 64 && Adjusted(256, 17, 4) == 1024
  {}

  /** Delivered last, the child of the late block is judged by the prompt block, which leads. */
  lemma LookupRejects(su: Setup) returns (run: Run)
    requires !su.repairs.ownLookup && AlwaysAdjusting(su.config)
    ensures Plain(su, run) && Delivered(run) == {Prompt(su.config), Late(su.config), LateChild(su.config)}
    ensures LateChild(su.config).Id() in StateOf(su, run).invalidBlocks
  {
    hide HubState.Verdict, HubState.HeaderVerdict, HubState.CashMoved, HubState.Tree, Plain, Types.Branch;
    var config, now := su.config, su.config.genesisTimestamp + 17;
    hide Difficulty.Adjusted, Difficulty.TimeSpan;
    AdjustedValues(config.genesisTimestamp);
    AdjustedValues(now);
    LookupBranches(config);
    var start := StartRun(su);
    AdjustedVerdict(su, Initial(su), Prompt(config));
    var run1 := Deliver(su, start, Prompt(config), now);
    AdjustedVerdict(su, StateOf(su, run1), Late(config));
    var run2 := Deliver(su, run1, Late(config), now);
    AdjustedVerdict(su, StateOf(su, run2), LateChild(config));
    run := Deliver(su, run2, LateChild(config), now);
  }

  /** Delivered before the prompt block, it is judged by its own parent. */
  lemma LookupAccepts(su: Setup) returns (run: Run)
    requires !su.repairs.ownLookup && AlwaysAdjusting(su.config)
    ensures Plain(su, run) && Delivered(run) == {Prompt(su.config), Late(su.config), LateChild(su.config)}
    ensures LateChild(su.config).Id() in StateOf(su, run).validBlocks
  {
    hide HubState.Verdict, HubState.HeaderVerdict, HubState.CashMoved, HubState.Tree, Plain, Types.Branch;
    var config, now := su.config, su.config.genesisTimestamp + 17;
    hide Difficulty.Adjusted, Difficulty.TimeSpan;
    AdjustedValues(config.genesisTimestamp);
    AdjustedValues(now);
    LookupBranches(config);
    var start := StartRun(su);
    AdjustedVerdict(su, Initial(su), Late(config));
    var run1 := Deliver(su, start, Late(config), now);
    AdjustedVerdict(su, StateOf(su, run1), LateChild(config));
    var run2 := Deliver(su, run1, LateChild(config), now);
    AdjustedVerdict(su, StateOf(su, run2), Prompt(config));
    run := Deliver(su, run2, Prompt(config), now);
  }

  lemma LateChildDeserves(config: Config)
    requires AlwaysAdjusting(config)
    ensures Accepted(config, Late(config)) && Accepted(config, LateChild(config))
  {
    hide Rules.Subsidy;
    LookupBranches(config);
    FirstSubsidy(config, 1);
    FirstSubsidy(config, 2);
    EmptyBlock(Late(config));
    EmptyBlock(LateChild(config));
    WrapUnique(config.initialBlockSubsidy, 0, config.initialBlockSubsidy);
  }

  /** The lookup alone makes the order matter: the same three blocks, none of which spends anything,
      delivered in two orders.  One run rejects a block that deserves acceptance. */
  lemma LookupOrderMatters(su: Setup) returns (run1: Run, run2: Run)
    requires !su.repairs.ownLookup && AlwaysAdjusting(su.config)
    ensures Plain(su, run1) && Plain(su, run2)
    ensures Delivered(run1) == Delivered(run2) && forall b :: b in Delivered(run1) ==> b.transactions == []
    ensures Accepted(su.config, LateChild(su.config))
    ensures LateChild(su.config).Id() in StateOf(su, run1).validBlocks
    ensures LateChild(su.config).Id() in StateOf(su, run2).invalidBlocks
  {
    hide Accepted, Plain;
    LateChildDeserves(su.config);
    run1 := LookupAccepts(su);
    run2 := LookupRejects(su);
  }

  // ---------- an exchange that stalls ----------

  function Third(config: Config): Block {
    Link(config, Nephew(config), 5)
  }

  lemma PeerRun(su: Setup) returns (run: Run)
    requires FirstNumbers(su.config, 3)
    ensures Plain(su, run)
    ensures Rival(su.config, 1).Id() in StateOf(su, run).validBlocks
    ensures Nephew(su.config).Id() in StateOf(su, run).validBlocks
    ensures Third(su.config).Id() in StateOf(su, run).validBlocks
  {
    hide HubState.Verdict, HubState.HeaderVerdict, HubState.CashMoved, HubState.Tree, Plain;
    var config, now := su.config, su.GenesisBlock().timestamp;
    var start := StartRun(su);
    LinkPasses(su, Initial(su), Genesis(config), 1, 3);
    var run1 := Deliver(su, start, Rival(config, 1), now);
    LinkPasses(su, StateOf(su, run1), Rival(config, 1), 3, 3);
    var run2 := Deliver(su, run1, Nephew(config), now);
    LinkPasses(su, StateOf(su, run2), Nephew(config), 5, 3);
    run := Deliver(su, run2, Third(config), now);
  }

  /** A block is valid in no run to which some ancestor of it was not delivered. */
  lemma NeverWithout(su: Setup, run: Run, a: Block, b: Block)
    requires Legal(su, run) && OnBranch(a, b) && a != su.GenesisBlock() && a !in Delivered(run)
    ensures b.Id() !in StateOf(su, run).validBlocks
  {
    hide Legal, Types.OnBranch, Rules.Rooted;
    KnownIsDelivered(su, run);
    ReachableState(su, run);
  }

  lemma FirstBelowThird(config: Config)
    ensures OnBranch(Rival(config, 1), Third(config)) && Rival(config, 1) != Genesis(config)
  {
    LinkLedger(config, Genesis(config), 1);
    LinkLedger(config, Rival(config, 1), 3);
    LinkLedger(config, Nephew(config), 5);
  }

  /** The stall, reached: a peer holds three blocks in line as valid; the receiver was given the
      second once before, and now the third.  As written it requests the second, which it holds;
      that answer, like any further delivery of the two, changes nothing.  The first, the one it
      lacks, is not asked for, as it would be with the deep root; and whatever happens later, the
      third is not valid as long as the first is not delivered. */
  lemma ExchangeStalls(su: Setup) returns (receiver: Run, peer: Run)
    requires FirstNumbers(su.config, 3)
    ensures Plain(su, receiver) && Plain(su, peer) && Delivered(receiver) == {Nephew(su.config), Third(su.config)}
    ensures Third(su.config).Id() in StateOf(su, peer).validBlocks
    ensures var s := StateOf(su, receiver);
            Third(su.config).Id() !in s.validBlocks && ContentAddressed(s.unconfirmedBlocks) &&
            RootFound(su, s.unconfirmedBlocks, Third(su.config).prevId)
              == (if su.repairs.deepRoot then Rival(su.config, 1) else Nephew(su.config)).Id() &&
            forall b, now, order, t :: b in Delivered(receiver) && Received(su, s, b, now, order, t) ==> t == s
    ensures forall later ::
              Legal(su, later) && Continues(receiver, later) && Rival(su.config, 1) !in Delivered(later) ==>
              Third(su.config).Id() !in StateOf(su, later).validBlocks
  {
    hide Plain, Legal;
    var now := su.GenesisBlock().timestamp;
    peer := PeerRun(su);
    var start := StartRun(su);
    var run1 := ParkOne(su, start, Nephew(su.config), now);
    receiver := ParkOne(su, run1, Third(su.config), now);
    var s := StateOf(su, receiver);
    var second, third := Nephew(su.config), Third(su.config);
    assert s.unconfirmedBlocks == map[second.Id() := second, third.Id() := third];
    assert MissingRoot(su, s.unconfirmedBlocks, Rival(su.config, 1).Id()) == Rival(su.config, 1).Id();
    FirstBelowThird(su.config);
    forall later | Legal(su, later) && Continues(receiver, later) && Rival(su.config, 1) !in Delivered(later)
      ensures Third(su.config).Id() !in StateOf(su, later).validBlocks
    {
      NeverWithout(su, later, Rival(su.config, 1), Third(su.config));
    }
  }

  // ---------- an exchange that the lookup breaks ----------

  /** To the late block's child it matters whether the prompt block leads. */
  lemma PromptMatters(config: Config)
    requires AlwaysAdjusting(config)
    ensures LookupMatters(config, Prompt(config), LateChild(config))
  {
    LookupBranches(config);
    FirstSubsidy(config, 2);
    EmptyBlock(LateChild(config));
    WrapUnique(config.initialBlockSubsidy, 0, config.initialBlockSubsidy);
  }

  lemma LateFamilyFresh(config: Config)
    ensures Fresh(Prompt(config)) && Fresh(Late(config)) && Fresh(LateChild(config))
  {
    var g, late := Genesis(config), Late(config);
    Supply.GenesisUtxo(config);
    LookupBranches(config);
    EmptyBlock(Prompt(config));
    EmptyBlock(late);
    EmptyBlock(LateChild(config));
    assert [g, late][..1] == [g];
    assert CreatedOn([g, late]) == CreatedOn([g]) + Creates(late);
  }

  /** What the receiver holds after the prompt block. */
  lemma PromptRun(su: Setup) returns (run: Run)
    requires !su.repairs.ownLookup && AlwaysAdjusting(su.config)
    ensures Plain(su, run) && EmptyPool(StateOf(su, run)) && Delivered(run) == {Prompt(su.config)}
    ensures var g, s := su.GenesisBlock(), StateOf(su, run);
            s.validBlocks == map[g.Id() := g, Prompt(su.config).Id() := Prompt(su.config)] &&
            s.invalidBlocks == {} && s.leadingBlock == Prompt(su.config).Id()
  {
    hide HubState.Verdict, HubState.HeaderVerdict, HubState.CashMoved, HubState.Tree, Plain, Types.Branch;
    LookupBranches(su.config);
    run := StartRun(su);
    AdjustedVerdict(su, Initial(su), Prompt(su.config));
    run := Deliver(su, run, Prompt(su.config), su.config.genesisTimestamp + 17);
  }

  lemma PromptCovered(su: Setup, run: Run)
    requires Legal(su, run) && Delivered(run) == {Prompt(su.config)}
    ensures Covered(su, StateOf(su, run))
  {
    hide Legal;
    if su.repairs.writeBack {
      LateFamilyFresh(su.config);
      RunLedger(su, {su.GenesisBlock().reward}, run);
    }
  }

  /** A broken exchange, reached: the receiver holds the prompt block and has nothing parked; the peer
      holds the late block's child, which deserves acceptance.  All that an exchange asks for is
      there, no ancestor is in the way, and still the lookup breaks the branch: the exchange ends with
      the block rejected. */
  lemma ExchangeBreaks(su: Setup) returns (receiver: Run, peer: Run)
    requires !su.repairs.ownLookup && AlwaysAdjusting(su.config)
    ensures Plain(su, receiver) && Plain(su, peer) && LateChild(su.config).Id() in StateOf(su, peer).validBlocks
    ensures var s, b := StateOf(su, receiver), LateChild(su.config);
            Covered(su, s) && NoneRejected(s, b) && Deliverable(su, s, b, b.timestamp) && !s.Knows(b.Id()) &&
            OnlyBranchParked(s, b) && Unobstructed(su, s, b) && LookupBreaks(su, s, b)
  {
    hide Plain, Accepted, LookupMatters, Covered, Ledger.Fresh;
    LookupBranches(su.config);
    receiver := PromptRun(su);
    peer := LookupAccepts(su);
    LateFamilyFresh(su.config);
    LateChildDeserves(su.config);
    PromptMatters(su.config);
    PlainLegal(su, receiver);
    PromptCovered(su, receiver);
    assert OnBranch(LateChild(su.config), LateChild(su.config));
    assert BreaksAt(su, StateOf(su, receiver), LateChild(su.config), LateChild(su.config));
  }

  lemma PlainLegal(su: Setup, run: Run)
    requires Plain(su, run)
    ensures Legal(su, run)
  {}

  // ---------- accepted blocks that raise the supply ----------

  /** A block on genesis with one transaction, which lists the genesis reward some times. */
  function Spender(config: Config, inputs: seq<Cash>, outputs: seq<Cash>): Block {
    var t := Transaction(inputs, outputs, 0);
    Link(config, Genesis(config), 9).(
      transactions := [t],
      reward := Cash(9, Wrap(Fee(t) + config.initialBlockSubsidy), 9))
  }

  lemma SpenderDeserves(config: Config, inputs: seq<Cash>, outputs: seq<Cash>)
    requires FirstNumbers(config, 1) && Elems(inputs) == {Genesis(config).reward}
    ensures Accepted(config, Spender(config, inputs, outputs))
    ensures RewardOk(config, Spender(config, inputs, outputs))
  {
    hide Wrap, Sum64, Subsidy, Fee;
    var b := Spender(config, inputs, outputs);
    Supply.OneTransaction(b.transactions[0]);
    Supply.GenesisUtxo(config);
    GenesisBranch(config);
    SmallSeqno(config, 1, 1);
  }

  /** As the first block of all it is accepted, whatever its outputs and however often it lists the
      genesis reward. */
  lemma SpenderRun(su: Setup, inputs: seq<Cash>, outputs: seq<Cash>) returns (run: Run)
    requires FirstNumbers(su.config, 1) && Elems(inputs) == {su.GenesisBlock().reward}
    ensures Plain(su, run) && Spender(su.config, inputs, outputs).Id() in StateOf(su, run).validBlocks
  {
    hide HubState.Tree, HubState.Verdict, HubState.HeaderVerdict, HubState.CashMoved, Plain, Accepted, LedgerExact;
    var b := Spender(su.config, inputs, outputs);
    run := StartRun(su);
    SpenderDeserves(su.config, inputs, outputs);
    SmallSeqno(su.config, 1, 1);
    InitialLedger(su, {su.GenesisBlock().reward});
    OrdinaryNumber(su.config, su.GenesisBlock(), b);
    DeservedIsGivenIff(su, {su.GenesisBlock().reward}, Initial(su), b);
    run := Deliver(su, run, b, b.timestamp);
  }

  /** What such a block does to the supply. */
  lemma SpenderSupply(config: Config, inputs: seq<Cash>, outputs: seq<Cash>)
    requires FirstNumbers(config, 1) && Elems(inputs) == {Genesis(config).reward}
    requires var b := Spender(config, inputs, outputs);
             Genesis(config).reward !in Creates(b) && Supply.DistinctOutputs(b)
    ensures var b := Spender(config, inputs, outputs);
            Supply.Total(Utxo(b)) == Supply.Minted(config, 1) + (Sum(inputs) - config.initialBlockSubsidy)
                                     + Supply.RewardExcess(config, b)
  {
    hide Wrap, Sum64, Fee, Supply.DistinctOutputs, Supply.RewardExcess, Subsidy;
    var b, g := Spender(config, inputs, outputs), Genesis(config);
    Supply.OneTransaction(b.transactions[0]);
    Supply.GenesisUtxo(config);
    Supply.GenesisSupply(config);
    Supply.MintedNext(config, 0);
    UtxoUnfold(b);
    Supply.SupplyStep(config, Utxo(g), b);
    Supply.TotalRemove({g.reward}, g.reward);
    assert {g.reward} - {g.reward} == {};
  }

  function TwicePaid(config: Config): Block {
    var coin := Genesis(config).reward;
    Spender(config, [coin, coin], [Cash(8, Wrap(coin.amount + coin.amount), 8)])
  }

  lemma TwicePaidSums(config: Config)
    requires 2 * config.initialBlockSubsidy < U64_RANGE
    ensures var b := TwicePaid(config);
            var t := b.transactions[0];
            Admissible(t) && Fee(t) == 0 && ExactFee(t) == 0 && Sum(t.inputs) == 2 * config.initialBlockSubsidy &&
            b.reward.amount == config.initialBlockSubsidy
  {
    var coin, t := Genesis(config).reward, TwicePaid(config).transactions[0];
    WrapUnique(coin.amount + coin.amount, 0, coin.amount + coin.amount);
    SumOfTwo(coin, coin);
    SumOfOne(t.outputs[0]);
    Sum64Wraps(t.inputs);
    Sum64Wraps(t.outputs);
  }

  lemma TwicePaidBooks(config: Config)
    requires FirstNumbers(config, 1) && 0 < 2 * config.initialBlockSubsidy < U64_RANGE
    ensures var b := TwicePaid(config);
            Admissible(b.transactions[0]) && RewardFits(config, b) &&
            Supply.Total(Utxo(b)) == Supply.Minted(config, 1) + config.initialBlockSubsidy
  {
    var b := TwicePaid(config);
    var t := b.transactions[0];
    TwicePaidSums(config);
    hide Supply.Minted, Supply.Total, Subsidy, Utxo, Wrap, Fee, ExactFee, Sum, Sum64, Admissible;
    Supply.OneTransaction(t);
    SmallSeqno(config, 1, 1);
    assert t.outputs + [b.reward] == [t.outputs[0], b.reward];
    SpenderSupply(config, t.inputs, t.outputs);
  }

  /** An input listed twice, accepted: in a legal run of every setup a valid block spends the genesis
      reward once and is paid for it twice, so more cash is unspent than was ever minted. */
  lemma RepeatedInputAccepted(su: Setup) returns (run: Run)
    requires FirstNumbers(su.config, 1) && 0 < 2 * su.config.initialBlockSubsidy < U64_RANGE
    ensures var b := TwicePaid(su.config);
            Plain(su, run) && b.Id() in StateOf(su, run).validBlocks && b.seqno == 1 &&
            Admissible(b.transactions[0]) && RewardFits(su.config, b) &&
            Supply.Total(Utxo(b)) == Supply.Minted(su.config, 1) + su.config.initialBlockSubsidy
  {
    hide Plain, Utxo, Supply.Total, Supply.Minted, RewardFits, Admissible, Spender;
    var coin := su.GenesisBlock().reward;
    assert Elems([coin, coin]) == {coin};
    TwicePaidBooks(su.config);
    run := SpenderRun(su, [coin, coin], [Cash(8, Wrap(coin.amount + coin.amount), 8)]);
    SpenderNumber(su.config, [coin, coin], [Cash(8, Wrap(coin.amount + coin.amount), 8)]);
  }

  lemma SpenderNumber(config: Config, inputs: seq<Cash>, outputs: seq<Cash>)
    ensures Spender(config, inputs, outputs).seqno == 1
    ensures Spender(config, inputs, outputs).transactions == [Transaction(inputs, outputs, 0)]
  {}

  function Overpaid(config: Config): Block {
    Spender(config, [Genesis(config).reward], [Cash(7, U64_RANGE / 2, 7), Cash(8, U64_RANGE / 2, 8)])
  }

  lemma OverpaidSums(config: Config)
    requires 2 * config.initialBlockSubsidy < U64_RANGE
    ensures var b := Overpaid(config);
            var t := b.transactions[0];
            Admissible(t) && ExactFee(t) == config.initialBlockSubsidy - U64_RANGE &&
            Sum(t.inputs) == config.initialBlockSubsidy && b.reward.amount == 2 * config.initialBlockSubsidy
  {
    var coin, t := Genesis(config).reward, Overpaid(config).transactions[0];
    WrapUnique(coin.amount + coin.amount, 0, coin.amount + coin.amount);
    SumOfOne(coin);
    SumOfTwo(t.outputs[0], t.outputs[1]);
    Sum64Wraps(t.inputs);
    Sum64Wraps(t.outputs);
  }

  lemma OverpaidBooks(config: Config)
    requires FirstNumbers(config, 1) && 2 * config.initialBlockSubsidy < U64_RANGE
    ensures var b := Overpaid(config);
            Admissible(b.transactions[0]) && Supply.NoPaidRepeat(Supply.InputList(b.transactions)) &&
            Supply.Total(Utxo(b)) == Supply.Minted(config, 1) + U64_RANGE
  {
    var b := Overpaid(config);
    var t := b.transactions[0];
    OverpaidSums(config);
    hide Supply.Minted, Supply.Total, Subsidy, Utxo, Wrap, Fee, ExactFee, Sum, Sum64, Admissible;
    Supply.OneTransaction(t);
    SmallSeqno(config, 1, 1);
    assert t.outputs + [b.reward] == [t.outputs[0], t.outputs[1], b.reward];
    SpenderSupply(config, t.inputs, t.outputs);
  }

  /** Outputs whose sum wraps, accepted: a valid block pays out 2^64 more than it takes in. */
  lemma WrappedOutputsAccepted(su: Setup) returns (run: Run)
    requires FirstNumbers(su.config, 1) && 2 * su.config.initialBlockSubsidy < U64_RANGE
    ensures var b := Overpaid(su.config);
            Plain(su, run) && b.Id() in StateOf(su, run).validBlocks && b.seqno == 1 &&
            Admissible(b.transactions[0]) && Supply.NoPaidRepeat(Supply.InputList(b.transactions)) &&
            Supply.Total(Utxo(b)) == Supply.Minted(su.config, 1) + U64_RANGE
  {
    hide Plain, Utxo, Supply.Total, Supply.Minted, Admissible, Spender, Supply.NoPaidRepeat;
    var coin := su.GenesisBlock().reward;
    assert Elems([coin]) == {coin};
    OverpaidBooks(su.config);
    run := SpenderRun(su, [coin], [Cash(7, U64_RANGE / 2, 7), Cash(8, U64_RANGE / 2, 8)]);
    SpenderNumber(su.config, [coin], [Cash(7, U64_RANGE / 2, 7), Cash(8, U64_RANGE / 2, 8)]);
  }
}
