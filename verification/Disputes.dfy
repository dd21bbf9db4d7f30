/** When the order of delivery matters, exactly: for blocks that are fair to the ledger, all runs
    over them end with the same valid blocks if and only if no block among them is disputed. */
module Disputes {
  import opened Types
  import opened Ledger
  import opened Rules
  import opened HubState
  import opened Runs
  import opened Acceptance
  import opened OrderIndependence
  import opened Deliveries

  /** All runs over the given blocks end with the same valid blocks. */
  ghost predicate OrderFree(su: Setup, delivered: set<Block>) {
    forall run1, run2 :: RunOver(su, delivered, run1) && RunOver(su, delivered, run2) ==>
      StateOf(su, run1).validBlocks == StateOf(su, run2).validBlocks
  }

  /** Where the cache position is written back, the blocks are fair to the ledger. */
  ghost predicate LedgerTracked(su: Setup, delivered: set<Block>) {
    su.repairs.writeBack ==> FairLedger(su, delivered)
  }

  lemma LedgerOf(su: Setup, delivered: set<Block>, run: Run)
    requires LedgerTracked(su, delivered) && Timely(su, run) && Delivered(run) <= delivered
    ensures su.repairs.writeBack ==> LedgerExact(su, CashOf(su.config, delivered), StateOf(su, run))
  {
    hide Legal, FairLedger, LedgerFair, LedgerExact;
    if su.repairs.writeBack {
      forall b | b in delivered ensures LedgerFair(su, CashOf(su.config, delivered), b) {
        FairBlock(su, delivered, b);
      }
      RunLedger(su, CashOf(su.config, delivered), run);
    }
  }

  /** The ancestors of a block that have to be delivered, and the block itself. */
  function ToDeliver(su: Setup, b: Block): set<Block> {
    Elems(Branch(b)) - {su.GenesisBlock()}
  }

  lemma ToDeliverStep(su: Setup, b: Block)
    requires b.prevId.HashOf? && Genesis(su.config) != b
    ensures ToDeliver(su, b) == ToDeliver(su, b.prevId.block) + {b}
  {}

  lemma ToDeliverWithin(su: Setup, delivered: set<Block>, b: Block)
    requires Expected(su, delivered, b)
    ensures ToDeliver(su, b) <= delivered
  {
    forall a | a in ToDeliver(su, b) ensures a in delivered {
      assert OnBranch(a, b);
    }
  }

  /** A block is not on its parent's branch. */
  lemma NotBelowParent(b: Block)
    requires b.prevId.HashOf?
    ensures !OnBranch(b, b.prevId.block)
  {
    if OnBranch(b, b.prevId.block) {
      BranchIsPrefix(b, b.prevId.block);
    }
  }

  // ---------- one chain ----------

  /** The hub knows the branch of `x`, nothing else, `x` leads, and as written the cache holds nothing
      that was not created on the branch. */
  ghost predicate Holds(su: Setup, run: Run, x: Block) {
    var s := StateOf(su, run);
    Plain(su, run) && EmptyPool(s) && s.invalidBlocks == {} && s.leadingBlock == x.Id() &&
    Delivered(run) == ToDeliver(su, x) &&
    (!su.repairs.writeBack ==> s.cashSet <= CreatedOn(Branch(x))) &&
    forall id :: id in s.validBlocks <==> id.HashOf? && OnBranch(id.block, x)
  }

  lemma HoldsGenesis(su: Setup) returns (run: Run)
    ensures Holds(su, run, su.GenesisBlock())
  {
    run := StartRun(su);
    GenesisBranch(su.config);
  }

  lemma ExpectedStep(su: Setup, delivered: set<Block>, x: Block)
    requires Expected(su, delivered, x) && x != su.GenesisBlock()
    ensures x.prevId.HashOf? && Accepted(su.config, x)
    ensures x.seqno == x.prevId.block.seqno + 1
  {}

  /** Delivered in line, an expected chain is accepted as it stands: every block is judged on the
      chain of its own parent. */
  lemma {:induction false} FollowChain(su: Setup, delivered: set<Block>, x: Block) returns (run: Run)
    requires LedgerTracked(su, delivered) && Expected(su, delivered, x)
    ensures Holds(su, run, x)
    decreases x
  {
    hide HubState.Tree, HubState.Verdict, HubState.HeaderVerdict, HubState.CashMoved, LedgerTracked, Expected;
    hide LookupMatters, Accepted, LedgerExact, Plain, Judged, Holds;
    if x == su.GenesisBlock() {
      run := HoldsGenesis(su);
    } else {
      ExpectedBelow(su, delivered, x);
      ExpectedStep(su, delivered, x);
      var prev := x.prevId.block;
      var below := FollowChain(su, delivered, prev);
      run := Lengthen(su, delivered, below, x);
    }
  }

  lemma Lengthen(su: Setup, delivered: set<Block>, below: Run, x: Block) returns (run: Run)
    requires LedgerTracked(su, delivered) && x.prevId.HashOf? && Holds(su, below, x.prevId.block)
    requires x != su.GenesisBlock() && Expected(su, delivered, x.prevId.block)
    requires Accepted(su.config, x) && x.seqno == x.prevId.block.seqno + 1
    ensures Holds(su, run, x)
  {
    hide HubState.Verdict, HubState.HeaderVerdict, HubState.CashMoved, LedgerTracked, Expected, HubState.IsTree;
    hide LookupMatters, Accepted, LedgerExact, Legal, OnTime, Types.Branch, CreatedOn;
    var prev, s := x.prevId.block, StateOf(su, below);
    NotBelowParent(x);
    assert OnBranch(prev, prev) by { TipOnBranch(prev); }
    run := Deliver(su, below, x, x.timestamp);
    TreeNode(su, s, x.prevId);
    ParentOnChain(su.config, prev, x);
    ToDeliverWithin(su, delivered, prev);
    LedgerOf(su, delivered, below);
    DeservedIsGivenIff(su, CashOf(su.config, delivered), s, x);
    ToDeliverStep(su, x);
    BranchStep(x);
    CreatedStep(x);
    if !su.repairs.writeBack {
      MovedWithin(su, s, prev);
    }
  }

  lemma CreatedStep(b: Block)
    requires b.prevId.HashOf?
    ensures CreatedOn(Branch(b)) == CreatedOn(Branch(b.prevId.block)) + Creates(b)
    ensures SpentOn(Branch(b)) == SpentOn(Branch(b.prevId.block)) + Spends(b)
  {
    assert Branch(b)[..|Branch(b)| - 1] == Branch(b.prevId.block);
  }

  /** Moving the cache adds nothing that was not created on the target's branch. */
  lemma MovedWithin(su: Setup, s: State, at: Block)
    requires !su.repairs.writeBack && Tree(su, s) && at.Id() in s.validBlocks
    requires s.cashSet <= CreatedOn(Branch(at))
    ensures CashMoved(su, s, at) <= CreatedOn(Branch(at))
  {
    hide HubState.CashMoved, HubState.IsTree;
    CashMovedAsWritten(su, s, at);
    ReplayNormal({}, Branch(at));
  }

  lemma TipOnBranch(b: Block)
    ensures OnBranch(b, b)
  {}

  lemma BranchStep(b: Block)
    requires b.prevId.HashOf?
    ensures forall a :: OnBranch(a, b) <==> OnBranch(a, b.prevId.block) || a == b
  {}

  // ---------- another chain below a leader ----------

  /** `x` leads and nothing is parked. */
  ghost predicate UnderLeader(su: Setup, run: Run, x: Block) {
    var s := StateOf(su, run);
    Timely(su, run) && EmptyPool(s) && s.leadingBlock == x.Id() && x.Id() in s.validBlocks
  }

  /** `b` has got its verdict, and one that is not higher than the leader leaves it in place. */
  ghost predicate Told(su: Setup, more: Run, x: Block, b: Block, lost: Option<Block>) {
    Timely(su, more) &&
    match lost
    case None => UnderLeader(su, more, x) && b.Id() in StateOf(su, more).validBlocks
    case Some(c) => OnBranch(c, b) && c.Id() in StateOf(su, more).invalidBlocks
  }

  /** As written, what the branch of `at` does not spend stays in the cache. */
  ghost predicate KeepsCash(su: Setup, run: Run, more: Run, at: Block) {
    !su.repairs.writeBack ==> StateOf(su, run).cashSet - SpentOn(Branch(at)) <= StateOf(su, more).cashSet
  }

  lemma KeepsCashAbove(su: Setup, run: Run, some: Run, more: Run, b: Block)
    requires b.prevId.HashOf? && KeepsCash(su, run, some, b.prevId.block)
    requires some == more || KeepsCash(su, some, more, b.prevId.block)
    ensures KeepsCash(su, run, more, b)
  {
    CreatedStep(b);
  }

  lemma TellOne(su: Setup, run: Run, x: Block, b: Block) returns (more: Run, lost: Option<Block>)
    requires UnderLeader(su, run, x) && b.seqno <= x.seqno && b.prevId in StateOf(su, run).validBlocks
    ensures Told(su, more, x, b, lost)
    ensures Delivered(run) <= Delivered(more) <= Delivered(run) + {b} && (OnlyBlocks(run) ==> OnlyBlocks(more))
    ensures b.prevId.HashOf? && KeepsCash(su, run, more, b.prevId.block)
  {
    hide HubState.Verdict, HubState.HeaderVerdict, HubState.CashMoved, HubState.IsTree, HubState.IsPool, Legal, OnTime;
    hide SpentOn, Types.Branch;
    var s := StateOf(su, run);
    TipOnBranch(b);
    RunInv(su, run);
    TreeNode(su, s, x.Id());
    TreeNode(su, s, b.prevId);
    if !su.repairs.writeBack {
      CashMovedAsWritten(su, s, b.prevId.block);
    }
    more, lost := run, None;
    if s.Knows(b.Id()) {
      lost := if b.Id() in s.validBlocks then None else Some(b);
    } else {
      more := DeliverTimely(su, run, b, b.timestamp);
      lost := if Verdict(su, s, b) then None else Some(b);
    }
  }

  lemma ToldAbove(su: Setup, more: Run, x: Block, b: Block, c: Block)
    requires b.prevId.HashOf? && Told(su, more, x, b.prevId.block, Some(c))
    ensures Told(su, more, x, b, Some(c))
  {
    BranchStep(b);
  }

  /** Telling a hub led by `x` of an expected chain that is not higher: the whole chain becomes valid,
      or some block of it is rejected. */
  lemma {:induction false} TellChain(su: Setup, delivered: set<Block>, run: Run, x: Block, b: Block)
      returns (more: Run, lost: Option<Block>)
    requires UnderLeader(su, run, x) && b.seqno <= x.seqno && Expected(su, delivered, b)
    ensures Told(su, more, x, b, lost)
    ensures Delivered(run) <= Delivered(more) <= Delivered(run) + ToDeliver(su, b)
    ensures KeepsCash(su, run, more, b) && (OnlyBlocks(run) ==> OnlyBlocks(more))
    decreases b
  {
    hide Expected, Accepted, Legal, OnTime, OnlyBlocks, SpentOn, Types.Branch;
    if b == su.GenesisBlock() {
      more, lost := run, None;
      RunInv(su, run);
      GenesisIsValid(su, StateOf(su, run));
    } else {
      ExpectedBelow(su, delivered, b);
      ExpectedStep(su, delivered, b);
      ToDeliverStep(su, b);
      var some;
      some, lost := TellChain(su, delivered, run, x, b.prevId.block);
      more := some;
      if lost.Some? {
        ToldAbove(su, more, x, b, lost.value);
      } else {
        more, lost := TellOne(su, some, x, b);
      }
      KeepsCashAbove(su, run, some, more, b);
    }
  }

  lemma GenesisIsValid(su: Setup, s: State)
    requires Inv(su, s, {})
    ensures su.GenesisId() in s.validBlocks
  {}

  // ---------- a dispute ----------

  /** The disputed block is known to no hub that holds only the two chains in question. */
  lemma DisputedIsNew(su: Setup, delivered: set<Block>, a: Block, x: Block, run: Run)
    requires Disputed(su, delivered, a, x) && Legal(su, run)
    requires Delivered(run) <= ToDeliver(su, x) + ToDeliver(su, a.prevId.block)
    ensures !StateOf(su, run).Knows(a.Id())
  {
    hide Legal, Expected, Types.Branch;
    KnownIsDelivered(su, run);
    NotBelowParent(a);
    GenesisHasNoParent(su.config);
    if OnBranch(a, x) {
      BranchStep(a);
      TipOnBranch(a.prevId.block);
      OnBranchTransitive(a.prevId.block, a, x);
      ParentOnChain(su.config, x, a);
      assert false;
    }
  }

  /** The run ends with `a` valid, or with `a` rejected. */
  predicate Decided(su: Setup, run: Run, a: Block, passes: bool) {
    if passes then a.Id() in StateOf(su, run).validBlocks else a.Id() in StateOf(su, run).invalidBlocks
  }

  /** With `x` leading, the disputed block is judged on the chain of `x`. */
  lemma JudgedUnder(su: Setup, delivered: set<Block>, run: Run, x: Block, a: Block) returns (more: Run)
    requires !su.repairs.ownLookup && FairLedger(su, delivered) && UnderLeader(su, run, x)
    requires Delivered(run) <= delivered && a in delivered && !StateOf(su, run).Knows(a.Id())
    requires a.prevId.HashOf? && a.prevId in StateOf(su, run).validBlocks
    requires var prev := a.prevId.block;
             Spends(a) <= Utxo(prev) && RewardOk(su.config, a) && prev.seqno < |Branch(x)|
    ensures Timely(su, more) && (OnlyBlocks(run) ==> OnlyBlocks(more)) && Delivered(more) == Delivered(run) + {a}
    ensures forall id :: id in StateOf(su, run).validBlocks ==> id in StateOf(su, more).validBlocks
    ensures Decided(su, more, a, HeaderOk(su.config, a.prevId.block, a, Branch(x)))
  {
    hide HubState.Verdict, HubState.HeaderVerdict, HubState.CashMoved, HubState.IsTree, FairLedger, LedgerExact;
    hide Legal, OnTime, Types.Branch, Rules.HeaderOk, LeaderFair, Utxo;
    var s := StateOf(su, run);
    more := DeliverTimely(su, run, a, a.timestamp);
    TreeNode(su, s, a.prevId);
    TreeNode(su, s, x.Id());
    LedgerOf(su, delivered, run);
    HeaderDecides(su, CashOf(su.config, delivered), s, a);
  }

  /** The run in which `x` leads when the disputed block comes, unless its parent's chain has been
      rejected before. */
  lemma DisputedElsewhere(su: Setup, delivered: set<Block>, a: Block, x: Block) returns (run: Run, lost: Option<Block>)
    requires !su.repairs.ownLookup && FairLedger(su, delivered) && Disputed(su, delivered, a, x)
    ensures Plain(su, run) && Delivered(run) <= delivered
    ensures lost.Some? ==> OnBranch(lost.value, a.prevId.block) && lost.value.Id() in StateOf(su, run).invalidBlocks
    ensures lost.None? ==> a.prevId.block.seqno < |Branch(x)| &&
                           Decided(su, run, a, HeaderOk(su.config, a.prevId.block, a, Branch(x)))
  {
    hide Expected, Accepted, Legal, OnTime, FairLedger, Rules.HeaderOk, Types.Branch, Utxo;
    var prev := a.prevId.block;
    DisputedHeights(su, delivered, a, x);
    TipOnBranch(x);
    run := FollowChain(su, delivered, x);
    run, lost := TellChain(su, delivered, run, x, prev);
    ToDeliverWithin(su, delivered, x);
    ToDeliverWithin(su, delivered, prev);
    if lost.None? {
      DisputedIsNew(su, delivered, a, x, run);
      run := JudgedUnder(su, delivered, run, x, a);
    }
  }

  /** The run in which its own parent leads. */
  lemma DisputedAtHome(su: Setup, delivered: set<Block>, a: Block, x: Block) returns (run: Run)
    requires !su.repairs.ownLookup && FairLedger(su, delivered) && Disputed(su, delivered, a, x)
    ensures Plain(su, run) && Delivered(run) <= delivered
    ensures forall c :: OnBranch(c, a.prevId.block) ==> c.Id() in StateOf(su, run).validBlocks
    ensures a.prevId.block.seqno < |Branch(a.prevId.block)| &&
            Decided(su, run, a, HeaderOk(su.config, a.prevId.block, a, Branch(a.prevId.block)))
  {
    hide Expected, Accepted, FairLedger, Rules.HeaderOk, Types.Branch, Utxo, HubState.IsTree, HubState.IsPool;
    var prev := a.prevId.block;
    TipOnBranch(prev);
    var home := FollowChain(su, delivered, prev);
    ToDeliverWithin(su, delivered, prev);
    DisputedIsNew(su, delivered, a, x, home);
    run := JudgedUnder(su, delivered, home, prev, a);
  }

  /** A run can be continued to all of the delivered blocks, and a verdict on a block stays. */
  lemma Finish(su: Setup, delivered: set<Block>, run: Run, c: Block) returns (full: Run)
    requires Timely(su, run) && Delivered(run) <= delivered
    ensures RunOver(su, delivered, full) && (OnlyBlocks(run) ==> OnlyBlocks(full))
    ensures c.Id() in StateOf(su, run).validBlocks ==> c.Id() in StateOf(su, full).validBlocks
    ensures c.Id() in StateOf(su, run).invalidBlocks ==>
              c.Id() in StateOf(su, full).invalidBlocks && c.Id() !in StateOf(su, full).validBlocks
  {
    hide Legal, OnTime;
    full := DeliverAll(su, run, delivered);
    assert Delivered(run) + delivered == delivered;
    PermanentVerdicts(su, run, full, c.Id());
  }

  /** A dispute decides: over the same blocks, by deliveries alone, one run accepts some block that
      another rejects. */
  lemma DisputeDecides(su: Setup, delivered: set<Block>, a: Block, x: Block) returns (run1: Run, run2: Run, c: Block)
    requires !su.repairs.ownLookup && FairLedger(su, delivered) && Disputed(su, delivered, a, x)
    ensures RunOver(su, delivered, run1) && RunOver(su, delivered, run2) && OnlyBlocks(run1) && OnlyBlocks(run2)
    ensures c.Id() in StateOf(su, run1).validBlocks && c.Id() in StateOf(su, run2).invalidBlocks
    ensures c.Id() !in StateOf(su, run2).validBlocks
  {
    hide Expected, Accepted, FairLedger, Rules.HeaderOk, Types.Branch, Utxo, RunOver, Legal, OnTime, OnlyBlocks;
    var prev := a.prevId.block;
    var elsewhere, lost := DisputedElsewhere(su, delivered, a, x);
    var home := DisputedAtHome(su, delivered, a, x);
    c := if lost.Some? then lost.value else a;
    var atHome := Finish(su, delivered, home, c);
    var away := Finish(su, delivered, elsewhere, c);
    run1, run2 := atHome, away;
    if lost.None? && HeaderOk(su.config, prev, a, Branch(x)) {
      run1, run2 := away, atHome;
    }
  }

  /** Order independence, exactly: when the blocks are fair to the ledger, all runs over them that are
      on time, in whatever order, with whatever repeats and queries, end with the same valid blocks if
      and only if none of them is disputed.  As written this is where the lookup breaks it; under
      `ownLookup` nothing is ever disputed. */
  lemma OrderFreeIff(su: Setup, delivered: set<Block>)
    requires FairLedger(su, delivered)
    ensures OrderFree(su, delivered) <==> Undisputed(su, delivered)
  {
    hide Legal, OnTime, FairLedger, Disputed;
    if Undisputed(su, delivered) {
      forall run1, run2 | RunOver(su, delivered, run1) && RunOver(su, delivered, run2)
        ensures StateOf(su, run1).validBlocks == StateOf(su, run2).validBlocks
      {
        SameBlocksSameVerdicts(su, run1, run2);
      }
    } else {
      var a, x :| Disputed(su, delivered, a, x);
      var run1, run2, c := DisputeDecides(su, delivered, a, x);
    }
  }
}
