/** When what a hub accepts depends only on which blocks it was given, not on their order or
    repetition: for the code as written, as long as no delivered block is disputed between chains
    or claims cash created off its branch; each repair lifts one of the two conditions. */
module OrderIndependence {
  import opened Types
  import opened Ledger
  import opened Rules
  import opened HubState
  import opened Drain
  import opened Walks
  import opened Runs
  import opened Acceptance
  import Supply

  // ---------- what is expected of a hub given some blocks ----------

  /** What a hub should hold as valid, given the blocks it was delivered. */
  ghost predicate Expected(su: Setup, delivered: set<Block>, b: Block) {
    Accepted(su.config, b) && forall a :: OnBranch(a, b) ==> a == su.GenesisBlock() || a in delivered
  }

  lemma ExpectedBelow(su: Setup, delivered: set<Block>, b: Block)
    requires Expected(su, delivered, b) && b != su.GenesisBlock()
    ensures b.prevId.HashOf? && Expected(su, delivered, b.prevId.block)
  {
    forall a | OnBranch(a, b.prevId.block) ensures a == su.GenesisBlock() || a in delivered {
      assert OnBranch(a, b);
    }
  }

  lemma ExpectedAbove(su: Setup, delivered: set<Block>, b: Block)
    requires b in delivered && Accepted(su.config, b)
    requires b.prevId.HashOf? && Expected(su, delivered, b.prevId.block)
    ensures Expected(su, delivered, b)
  {}

  /** A delivered block on an expected parent, all else in order, whose header passes on one of two
      chains but not on the other: on the chain of some expected `x` at least as high as the
      parent, and on its own branch. */
  ghost predicate Disputed(su: Setup, delivered: set<Block>, a: Block, x: Block) {
    a in delivered && a.prevId.HashOf? && Expected(su, delivered, a.prevId.block) &&
    Expected(su, delivered, x) && LookupMatters(su.config, x, a)
  }

  /** No delivered block is disputed, or each is looked up on its own branch. */
  ghost predicate Undisputed(su: Setup, delivered: set<Block>) {
    su.repairs.ownLookup || forall a, x :: !Disputed(su, delivered, a, x)
  }

  /** A set of blocks is undisputed when each of them sits at no adjustment number or finds the same
      adjustment block on all expected chains that are high enough to lead. */
  lemma AgreeingLookupsUndisputed(su: Setup, delivered: set<Block>)
    requires forall a :: a in delivered && a.seqno % su.config.difficultyAdjustmentPeriod == 0 && a.prevId.HashOf? ==>
               forall x :: Expected(su, delivered, x) && x.seqno >= a.prevId.block.seqno ==> FindSame(su.config, a, x)
    ensures Undisputed(su, delivered)
  {
    hide LookupMatters, Accepted, Expected, FindSame;
    forall a, x ensures !Disputed(su, delivered, a, x) {
      if Disputed(su, delivered, a, x) {
        DisputedHeights(su, delivered, a, x);
        if a.seqno % su.config.difficultyAdjustmentPeriod != 0 {
          OrdinaryNumber(su.config, x, a);
        } else {
          FoundSame(su.config, a, x);
        }
        assert false;
      }
    }
  }

  /** So is one in which every expected block as high as a delivered block's parent descends from
      that parent: above all, the blocks of a single chain. */
  lemma OneChainUndisputed(su: Setup, delivered: set<Block>)
    requires forall a :: a in delivered && a.prevId.HashOf? ==>
               forall x :: Expected(su, delivered, x) && x.seqno >= a.prevId.block.seqno ==> OnBranch(a.prevId.block, x)
    ensures Undisputed(su, delivered)
  {
    hide LookupMatters, Accepted, Types.OnBranch, Expected;
    forall a, x ensures !Disputed(su, delivered, a, x) {
      if Disputed(su, delivered, a, x) {
        DisputedHeights(su, delivered, a, x);
        ParentOnChain(su.config, x, a);
        assert false;
      }
    }
  }

  lemma DisputedHeights(su: Setup, delivered: set<Block>, a: Block, x: Block)
    requires Disputed(su, delivered, a, x)
    ensures x.seqno >= a.prevId.block.seqno
  {
    AcceptedIsRooted(su.config, x);
    RootedBranch(su.config, x);
  }

  // ---------- every verdict is the one deserved ----------

  ghost predicate NoneAccepted(config: Config, invalid: set<BlockId>) {
    forall id :: id in invalid ==> id.HashOf? && !Accepted(config, id.block)
  }

  /** Valid blocks are expected, rejected ones deserve no acceptance, parked ones were delivered. */
  ghost predicate VerdictsExact(su: Setup, delivered: set<Block>, s: State) {
    && (forall id :: id in s.validBlocks ==> Expected(su, delivered, s.validBlocks[id]))
    && NoneAccepted(su.config, s.invalidBlocks)
    && (forall id :: id in s.unconfirmedBlocks ==> s.unconfirmedBlocks[id] in delivered)
  }

  /** Rejecting an unacceptable block condemns only unacceptable blocks. */
  lemma CascadeNoneAccepted(config: Config, orphans: Blocks, next: Index, b: Block)
    requires forall p, c :: p in next && c in next[p] ==> c in orphans && ChildOf(c, p)
    requires !Accepted(config, b)
    ensures NoneAccepted(config, Reached(next, b.Id()))
  {
    var gone := Reached(next, b.Id());
    var bad := set c | c in gone && c.HashOf? && !Accepted(config, c.block);
    ReachedIsCascade(next, b.Id());
    GenesisHasNoParent(config);
    forall p, c | p in bad && p in next && c in next[p] ensures c in bad {
      assert ChildOf(c, p);
    }
    assert Closed(next, bad);
  }

  lemma AdoptExpected(su: Setup, delivered: set<Block>, s: State, b: Block)
    requires s.leadingBlock in s.validBlocks && VerdictsExact(su, delivered, s) && Expected(su, delivered, b)
    ensures VerdictsExact(su, delivered, Adopt(s, b))
  {
    hide Accepted, Expected;
  }

  lemma NoneAcceptedUnion(config: Config, a: set<BlockId>, b: set<BlockId>)
    requires NoneAccepted(config, a) && NoneAccepted(config, b)
    ensures NoneAccepted(config, a + b)
  {
    hide Accepted;
  }

  lemma PoolFiled(s: State, pending: set<BlockId>)
    requires Pool(s, pending)
    ensures forall p, c :: p in s.nextBlocks && c in s.nextBlocks[p] ==> c in s.unconfirmedBlocks && ChildOf(c, p)
  {}

  lemma RejectUnaccepted(su: Setup, delivered: set<Block>, s: State, pending: set<BlockId>, b: Block)
    requires Pool(s, pending) && VerdictsExact(su, delivered, s) && !Accepted(su.config, b)
    ensures VerdictsExact(su, delivered, Reject(s, b.Id()))
  {
    hide Accepted, Expected, Reached, HubState.IsPool, NoneAccepted;
    PoolFiled(s, pending);
    CascadeNoneAccepted(su.config, s.unconfirmedBlocks, s.nextBlocks, b);
    NoneAcceptedUnion(su.config, s.invalidBlocks, Reached(s.nextBlocks, b.Id()));
  }

  lemma OutcomeExact(su: Setup, delivered: set<Block>, s: State, b: Block, pending: set<BlockId>)
    requires Inv(su, s, pending) && VerdictsExact(su, delivered, s)
    requires b in delivered && b.prevId.HashOf? && Expected(su, delivered, b.prevId.block)
    ensures s.leadingBlock in s.validBlocks
    ensures VerdictsExact(su, delivered, Outcome(s, b, Accepted(su.config, b)))
  {
    hide Accepted, Expected, HubState.Inv, VerdictsExact, HubState.Adopt, HubState.Reject;
    InvLeader(su, s, pending);
    if Accepted(su.config, b) {
      ExpectedAbove(su, delivered, b);
      AdoptExpected(su, delivered, s, b);
    } else {
      InvPool(su, s, pending);
      RejectUnaccepted(su, delivered, s, pending, b);
    }
  }

  lemma SameBlocksExact(su: Setup, delivered: set<Block>, s: State, t: State)
    requires VerdictsExact(su, delivered, s)
    requires t.validBlocks == s.validBlocks && t.invalidBlocks == s.invalidBlocks
    requires forall id :: id in t.unconfirmedBlocks ==>
               id in s.unconfirmedBlocks && t.unconfirmedBlocks[id] == s.unconfirmedBlocks[id]
    ensures VerdictsExact(su, delivered, t)
  {}

  /** What the pool and the tree say of the block to be judged next. */
  lemma JudgedNext(su: Setup, delivered: set<Block>, s: State, pending: set<BlockId>, b: Block)
    requires Inv(su, s, pending) && VerdictsExact(su, delivered, s) && b.Id() in pending && Judgeable(su, s, b)
    requires Undisputed(su, delivered)
    ensures b in delivered && b.prevId.HashOf? && Expected(su, delivered, b.prevId.block)
    ensures s.validBlocks[b.prevId] == b.prevId.block
    ensures s.leadingBlock in s.validBlocks && LeaderFair(su, s, b)
  {
    hide Expected, LookupMatters, HubState.IsTree;
    assert b.Id() in s.unconfirmedBlocks;
    TreeNode(su, s, b.prevId);
    LeaderIsValid(su, s);
    if !su.repairs.ownLookup {
      assert !Disputed(su, delivered, b, s.validBlocks[s.leadingBlock]);
    }
  }

  lemma ExpectedIsAccepted(su: Setup, delivered: set<Block>, b: Block)
    requires Expected(su, delivered, b)
    ensures Accepted(su.config, b)
  {}

  lemma JudgeExact(su: Setup, known: set<Cash>, delivered: set<Block>, s: State, pending: set<BlockId>, b: Block)
    requires Inv(su, s, pending) && LedgerExact(su, known, s) && VerdictsExact(su, delivered, s)
    requires b.Id() in pending && Judgeable(su, s, b) && Undisputed(su, delivered)
    ensures VerdictsExact(su, delivered, Judge(su, s, b))
  {
    hide LedgerExact, VerdictsExact, HubState.Inv, HubState.Verdict, HubState.AtVerdict, HubState.Outcome, Accepted;
    hide Undisputed, Expected, LeaderFair;
    FairOrphan(su, known, s, pending, b);
    JudgedNext(su, delivered, s, pending, b);
    ExpectedIsAccepted(su, delivered, b.prevId.block);
    VerdictIsAcceptedIff(su, known, s, b);
    AtVerdictFrame(su, s, b);
    AtVerdictInv(su, s, pending, b);
    SameBlocksExact(su, delivered, s, AtVerdict(su, s, b));
    OutcomeExact(su, delivered, AtVerdict(su, s, b), b, pending - {b.Id()});
  }

  lemma {:induction false} DrainsExact(su: Setup, known: set<Cash>, delivered: set<Block>, s: State,
                                       pending: set<BlockId>, order: seq<Block>, t: State, left: set<BlockId>)
    requires Inv(su, s, pending) && LedgerExact(su, known, s) && VerdictsExact(su, delivered, s)
    requires Drains(su, s, pending, order, t, left) && Undisputed(su, delivered)
    ensures VerdictsExact(su, delivered, t)
    decreases |order|
  {
    hide LedgerExact, VerdictsExact, HubState.Inv, HubState.Judge, HubState.Verdict, HubState.Judgeable,
         HubState.PendingAfter, Undisputed;
    if order != [] {
      var b := order[0];
      JudgeInv(su, s, pending, b);
      JudgeKeepsLedger(su, known, s, pending, b);
      JudgeExact(su, known, delivered, s, pending, b);
      DrainsExact(su, known, delivered, Judge(su, s, b), PendingAfter(s, pending, b, Verdict(su, s, b)),
                  order[1..], t, left);
    }
  }

  // ---------- one message ----------

  lemma ReceivedLedger(su: Setup, known: set<Cash>, s: State, b: Block, now: Timestamp, order: seq<Block>, t: State)
    requires Inv(su, s, {}) && LedgerExact(su, known, s) && LedgerFair(su, known, b)
    requires Received(su, s, b, now, order, t)
    ensures LedgerExact(su, known, t)
  {
    hide LedgerExact, LedgerFair, HubState.Inv, Drain.Drains;
    HeldKeepsLedger(su, known, s, b);
    if s.Knows(b.Id()) {
    } else if b.timestamp > now {
      RejectExact(su, known, s, b.Id());
    } else if b.prevId in s.validBlocks {
      HeldInv(su, s, {}, b);
      assert {} + {b.Id()} == {b.Id()};
      DrainsKeepLedger(su, known, Held(s, b), {b.Id()}, order, t, {});
    }
  }

  lemma HeldVerdictsExact(su: Setup, delivered: set<Block>, s: State, b: Block)
    requires VerdictsExact(su, delivered, s) && b in delivered
    ensures VerdictsExact(su, delivered, Held(s, b)) && VerdictsExact(su, delivered, Park(s, b))
  {}

  lemma ReceivedExact(su: Setup, known: set<Cash>, delivered: set<Block>, s: State, b: Block, now: Timestamp,
                      order: seq<Block>, t: State)
    requires Inv(su, s, {}) && LedgerExact(su, known, s) && VerdictsExact(su, delivered, s)
    requires Received(su, s, b, now, order, t)
    requires b.timestamp <= now && LedgerFair(su, known, b) && b in delivered && Undisputed(su, delivered)
    ensures VerdictsExact(su, delivered, t)
  {
    hide LedgerExact, VerdictsExact, LedgerFair, Undisputed, HubState.Inv, Drain.Drains;
    HeldKeepsLedger(su, known, s, b);
    HeldVerdictsExact(su, delivered, s, b);
    if !s.Knows(b.Id()) && b.prevId in s.validBlocks {
      HeldInv(su, s, {}, b);
      assert {} + {b.Id()} == {b.Id()};
      DrainsExact(su, known, delivered, Held(s, b), {b.Id()}, order, t, {});
    }
  }

  // ---------- runs ----------

  /** Every delivered block's timestamp has passed on arrival. */
  predicate OnTime(run: Run) {
    match run
    case Start => true
    case Then(earlier, NewBlock(b, now), _) => OnTime(earlier) && b.timestamp <= now
    case Then(earlier, _, _) => OnTime(earlier)
  }

  /** All cash created by genesis and the given blocks. */
  function CashOf(config: Config, blocks: set<Block>): set<Cash> {
    {Genesis(config).reward} + set b, x | b in blocks && x in Creates(b) :: x
  }

  /** Among the delivered blocks: new cash is new, and unless the cache position is written back
      no block claims cash that another of them created off its branch. */
  ghost predicate FairLedger(su: Setup, delivered: set<Block>) {
    forall b :: b in delivered ==>
      Fresh(b) && (su.repairs.writeBack || OwnClaims(CashOf(su.config, delivered), b))
  }

  lemma FairBlock(su: Setup, delivered: set<Block>, b: Block)
    requires FairLedger(su, delivered) && b in delivered
    ensures LedgerFair(su, CashOf(su.config, delivered), b)
  {}

  lemma InitialLedger(su: Setup, known: set<Cash>)
    requires su.GenesisBlock().reward in known
    ensures LedgerExact(su, known, Initial(su))
  {
    assert Creates(su.GenesisBlock()) == {su.GenesisBlock().reward};
  }

  lemma InitialExact(su: Setup, delivered: set<Block>)
    ensures VerdictsExact(su, delivered, Initial(su))
  {
    GenesisBranch(su.config);
  }

  lemma SameButMempool(su: Setup, known: set<Cash>, s: State, t: State)
    requires t == s.(mempool := t.mempool)
    ensures LedgerExact(su, known, s) ==> LedgerExact(su, known, t)
  {}

  lemma {:induction false} RunLedger(su: Setup, known: set<Cash>, run: Run)
    requires Legal(su, run) && su.GenesisBlock().reward in known
    requires forall b :: b in Delivered(run) ==> LedgerFair(su, known, b)
    ensures LedgerExact(su, known, StateOf(su, run))
  {
    hide LedgerExact, LedgerFair, HubState.Inv, HubState.MoveCashTo;
    match run
    case Start => InitialLedger(su, known);
    case Then(earlier, e, t) =>
      var s := StateOf(su, earlier);
      RunLedger(su, known, earlier);
      RunInv(su, earlier);
      match e
      case NewBlock(b, now) =>
        var order :| Received(su, s, b, now, order, t);
        ReceivedLedger(su, known, s, b, now, order, t);
      case QueryLeadingCashSet =>
        TreeNode(su, s, s.leadingBlock);
        MoveCashExact(su, known, s, s.validBlocks[s.leadingBlock]);
      case NewTransaction(_) =>
        SameButMempool(su, known, s, t);
  }

  lemma MoveKeepsVerdicts(su: Setup, delivered: set<Block>, s: State, at: Block)
    requires Tree(su, s) && at.Id() in s.validBlocks && VerdictsExact(su, delivered, s)
    ensures VerdictsExact(su, delivered, MoveCashTo(su, s, at))
  {
    hide HubState.CashMoved;
    SameBlocksExact(su, delivered, s, MoveCashTo(su, s, at));
  }

  lemma {:induction false} RunExact(su: Setup, known: set<Cash>, delivered: set<Block>, run: Run)
    requires Legal(su, run) && OnTime(run) && Delivered(run) <= delivered
    requires su.GenesisBlock().reward in known && Undisputed(su, delivered)
    requires forall b :: b in delivered ==> LedgerFair(su, known, b)
    ensures VerdictsExact(su, delivered, StateOf(su, run))
  {
    hide LedgerExact, VerdictsExact, LedgerFair, Undisputed, HubState.Inv, HubState.MoveCashTo;
    match run
    case Start => InitialExact(su, delivered);
    case Then(earlier, e, t) =>
      var s := StateOf(su, earlier);
      RunExact(su, known, delivered, earlier);
      RunLedger(su, known, earlier);
      RunInv(su, earlier);
      match e
      case NewBlock(b, now) =>
        var order :| Received(su, s, b, now, order, t);
        ReceivedExact(su, known, delivered, s, b, now, order, t);
      case QueryLeadingCashSet =>
        TreeNode(su, s, s.leadingBlock);
        MoveKeepsVerdicts(su, delivered, s, s.validBlocks[s.leadingBlock]);
      case NewTransaction(_) =>
        SameBlocksExact(su, delivered, s, t);
  }

  /** A run fairly given its blocks. */
  ghost predicate Fair(su: Setup, run: Run) {
    OnTime(run) && FairLedger(su, Delivered(run)) && Undisputed(su, Delivered(run))
  }

  /** On a fair run all verdicts are the ones deserved, in every reachable state. */
  lemma FairRunExact(su: Setup, run: Run)
    requires Legal(su, run) && Fair(su, run)
    ensures VerdictsExact(su, Delivered(run), StateOf(su, run))
  {
    hide Legal, OnTime, VerdictsExact, LedgerFair, FairLedger, Undisputed;
    var delivered := Delivered(run);
    forall b | b in delivered ensures LedgerFair(su, CashOf(su.config, delivered), b) {
      FairBlock(su, delivered, b);
    }
    RunExact(su, CashOf(su.config, delivered), delivered, run);
  }

  lemma {:induction false} ExpectedIsValid(su: Setup, run: Run, b: Block)
    requires Legal(su, run) && Fair(su, run)
    requires Expected(su, Delivered(run), b)
    ensures b.Id() in StateOf(su, run).validBlocks
    decreases b
  {
    hide Fair;
    var s := StateOf(su, run);
    RunInv(su, run);
    if b != su.GenesisBlock() {
      var prev := b.prevId.block;
      ExpectedBelow(su, Delivered(run), b);
      ExpectedIsValid(su, run, prev);
      KnownIsDelivered(su, run);
      assert OnBranch(b, b);
      assert s.Knows(b.Id());
      FairRunExact(su, run);
      if b.Id() in s.unconfirmedBlocks {
        DrainedPool(su, s, b.Id());
      }
    }
  }

  /** The accepted set is determined by the delivered set: on a fair run a block is valid exactly
      when it is acceptable on its own branch and it and all its ancestors were delivered.  For
      the code as written, fair means: on time, fresh, undisputed, no claim on cash created off
      the branch. */
  lemma AcceptedSetDetermined(su: Setup, run: Run, b: Block)
    requires Legal(su, run) && Fair(su, run)
    ensures b.Id() in StateOf(su, run).validBlocks <==> Expected(su, Delivered(run), b)
  {
    hide Fair, Expected, Legal;
    var s := StateOf(su, run);
    if b.Id() in s.validBlocks {
      RunInv(su, run);
      TreeNode(su, s, b.Id());
      FairRunExact(su, run);
    }
    if Expected(su, Delivered(run), b) {
      ExpectedIsValid(su, run, b);
    }
  }

  lemma SameValidBlocks(su: Setup, run1: Run, run2: Run)
    requires Legal(su, run1) && Fair(su, run1) && Legal(su, run2) && Fair(su, run2)
    requires Delivered(run1) == Delivered(run2)
    ensures StateOf(su, run1).validBlocks == StateOf(su, run2).validBlocks
  {
    hide Expected, HubState.IsTree, HubState.Pool, Legal, Fair;
    var s, t := StateOf(su, run1), StateOf(su, run2);
    RunInv(su, run1);
    RunInv(su, run2);
    TreeContent(su, s);
    TreeContent(su, t);
    forall id ensures id in s.validBlocks <==> id in t.validBlocks {
      if id.HashOf? {
        AcceptedSetDetermined(su, run1, id.block);
        AcceptedSetDetermined(su, run2, id.block);
      }
    }
  }

  /** Order independence: two hubs fairly given the same blocks, in whatever order, however often
      and mixed with whatever queries, hold the same valid blocks and agree on the height of the
      leader. */
  lemma SameBlocksSameVerdicts(su: Setup, run1: Run, run2: Run)
    requires Legal(su, run1) && OnTime(run1) && Legal(su, run2) && OnTime(run2)
    requires Delivered(run1) == Delivered(run2)
    requires FairLedger(su, Delivered(run1)) && Undisputed(su, Delivered(run1))
    ensures var s, t := StateOf(su, run1), StateOf(su, run2);
            s.validBlocks == t.validBlocks &&
            s.leadingBlock in s.validBlocks && t.leadingBlock in t.validBlocks &&
            s.validBlocks[s.leadingBlock].seqno == t.validBlocks[t.leadingBlock].seqno
  {
    hide Legal, OnTime, Delivered, FairLedger, Undisputed, Rules.Rooted, Types.OnBranch;
    SameValidBlocks(su, run1, run2);
    ReachableState(su, run1);
    ReachableState(su, run2);
  }

  /** Every valid block of a hub fairly given blocks, on time or not and at whatever numbers, has a
      sound branch: along it no cash is spent twice or before it was created, and, where outputs
      are distinct and rewards fit, the unspent amounts are what was minted unless some block
      lists a paid input twice. */
  lemma ReachableLedger(su: Setup, run: Run, id: BlockId)
    requires Legal(su, run) && FairLedger(su, Delivered(run))
    requires id in StateOf(su, run).validBlocks
    ensures var b := StateOf(su, run).validBlocks[id];
            Sound(b) &&
            (Supply.OutputsDistinctOn(b) && Supply.RewardsFitOn(su.config, b) ==>
              (Supply.Total(Utxo(b)) == Supply.Minted(su.config, b.seqno) <==> Supply.InputsDistinctOn(b))) &&
            forall i, x :: 0 <= i < |Branch(b)| && x in Spends(Branch(b)[i]) ==>
              (exists k :: 0 <= k < i && x in Creates(Branch(b)[k])) &&
              (forall j :: 0 <= j < |Branch(b)| && x in Spends(Branch(b)[j]) ==> j == i)
  {
    hide Legal, FairLedger, Rules.Rooted, Ledger.Sound, LedgerFair;
    var delivered := Delivered(run);
    forall d | d in delivered ensures LedgerFair(su, CashOf(su.config, delivered), d) {
      FairBlock(su, delivered, d);
    }
    RunLedger(su, CashOf(su.config, delivered), run);
    ReachableState(su, run);
    var b := StateOf(su, run).validBlocks[id];
    if Supply.OutputsDistinctOn(b) && Supply.RewardsFitOn(su.config, b) {
      Supply.SupplyOnChainIff(su.config, b);
    }
    forall i, x | 0 <= i < |Branch(b)| && x in Spends(Branch(b)[i])
      ensures exists k :: 0 <= k < i && x in Creates(Branch(b)[k])
      ensures forall j :: 0 <= j < |Branch(b)| && x in Spends(Branch(b)[j]) ==> j == i
    {
      Supply.NoDoubleSpend(su.config, b, i, x);
    }
  }
}
