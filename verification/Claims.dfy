/** When leftover cash makes the order of delivery matter: a block that claims what another expected
    block leaves unspent, and that its own branch does not offer, is accepted or rejected according
    to what the hub has followed before. */
module Claims {
  import opened Types
  import opened Ledger
  import opened Rules
  import opened HubState
  import opened Runs
  import opened Acceptance
  import opened OrderIndependence
  import opened Deliveries
  import opened Disputes
  import Supply

  ghost predicate AllFresh(blocks: set<Block>) {
    forall b :: b in blocks ==> Fresh(b)
  }

  /** `c` stands on an expected parent, and all but its inputs is in order where `t` leads.  Its inputs
      are not all unspent at its parent; but what is missing is unspent at `t`, an expected block at
      least as high as the parent, and not spent on the parent's branch. */
  ghost predicate ClaimsFrom(su: Setup, delivered: set<Block>, c: Block, t: Block) {
    c in delivered && c.prevId.HashOf? &&
    var prev := c.prevId.block;
    Expected(su, delivered, prev) && Expected(su, delivered, t) &&
    prev.seqno < |Branch(prev)| && prev.seqno < |Branch(t)| && RewardOk(su.config, c) &&
    HeaderOk(su.config, prev, c, if su.repairs.ownLookup then Branch(prev) else Branch(t)) &&
    !(Spends(c) <= Utxo(prev)) && Spends(c) <= Utxo(prev) + (Utxo(t) - SpentOn(Branch(prev)))
  }

  /** Expected blocks of fresh cash have sound branches. */
  lemma {:induction false} ExpectedIsSound(su: Setup, delivered: set<Block>, b: Block)
    requires AllFresh(delivered) && Expected(su, delivered, b)
    ensures Sound(b) && Rooted(su.config, b)
    decreases b
  {
    AcceptedIsRooted(su.config, b);
    if b != su.GenesisBlock() {
      assert OnBranch(b, b);
      ExpectedBelow(su, delivered, b);
      ExpectedIsSound(su, delivered, b.prevId.block);
    }
  }

  lemma ClaimHeights(su: Setup, delivered: set<Block>, c: Block, t: Block)
    requires ClaimsFrom(su, delivered, c, t)
    ensures c.prevId.block.seqno <= t.seqno
  {
    AcceptedIsRooted(su.config, t);
    RootedBranch(su.config, t);
  }

  /** The claimant deserves no acceptance, so it is on no expected branch. */
  lemma ClaimantIsNew(su: Setup, delivered: set<Block>, c: Block, t: Block, run: Run)
    requires ClaimsFrom(su, delivered, c, t) && Timely(su, run)
    requires Delivered(run) <= ToDeliver(su, t) + ToDeliver(su, c.prevId.block)
    ensures !StateOf(su, run).Knows(c.Id())
  {
    hide Legal, OnTime, Expected, Types.Branch, Utxo, SpentOn, HeaderOk;
    KnownIsDelivered(su, run);
    NotBelowParent(c);
    GenesisHasNoParent(su.config);
    if OnBranch(c, t) {
      ClaimantUnaccepted(su, delivered, c, t);
      ExpectedIsAccepted(su, delivered, t);
      AcceptedDown(su.config, t, c);
      assert false;
    }
  }

  lemma ClaimantUnaccepted(su: Setup, delivered: set<Block>, c: Block, t: Block)
    requires ClaimsFrom(su, delivered, c, t)
    ensures !Accepted(su.config, c)
  {
    GenesisHasNoParent(su.config);
  }

  // ---------- at home ----------

  /** A hub that has followed nothing but the parent's branch rejects the claimant. */
  lemma ClaimAtHome(su: Setup, delivered: set<Block>, c: Block, t: Block) returns (run: Run)
    requires !su.repairs.writeBack && AllFresh(delivered) && ClaimsFrom(su, delivered, c, t)
    ensures Timely(su, run) && Delivered(run) <= delivered && c.Id() in StateOf(su, run).invalidBlocks
    ensures forall a :: OnBranch(a, c.prevId.block) ==> a.Id() in StateOf(su, run).validBlocks
  {
    hide Expected, Accepted, HeaderOk, Types.Branch, Utxo, SpentOn, CreatedOn, HubState.IsTree, HubState.CashMoved;
    hide Legal, OnTime, OnlyBlocks, RewardOk, AllFresh;
    var prev := c.prevId.block;
    TipOnBranch(prev);
    var home := FollowChain(su, delivered, prev);
    var s := StateOf(su, home);
    ToDeliverWithin(su, delivered, prev);
    ClaimantIsNew(su, delivered, c, t, home);
    run := DeliverTimely(su, home, c, c.timestamp);
    TreeNode(su, s, c.prevId);
    LookupInRange(su, s, prev);
    CashMovedAsWritten(su, s, prev);
    ExpectedIsSound(su, delivered, prev);
    Supply.UtxoIsCreatedMinusSpent(su.config, prev);
  }

  // ---------- elsewhere ----------

  /** A hub that has answered a query at `t` accepts it, unless it has rejected the parent's chain. */
  lemma ClaimElsewhere(su: Setup, delivered: set<Block>, c: Block, t: Block) returns (run: Run, lost: Option<Block>)
    requires !su.repairs.writeBack && ClaimsFrom(su, delivered, c, t)
    ensures Timely(su, run) && Delivered(run) <= delivered
    ensures lost.Some? ==> OnBranch(lost.value, c.prevId.block) && lost.value.Id() in StateOf(su, run).invalidBlocks
    ensures lost.None? ==> c.Id() in StateOf(su, run).validBlocks
  {
    hide Expected, Accepted, HeaderOk, Types.Branch, Utxo, SpentOn, CreatedOn, HubState.IsTree, HubState.CashMoved;
    hide Legal, OnTime, OnlyBlocks, RewardOk;
    var prev := c.prevId.block;
    ClaimHeights(su, delivered, c, t);
    TipOnBranch(t);
    var followed := FollowChain(su, delivered, t);
    var asked := AskLeader(su, followed);
    TreeNode(su, StateOf(su, followed), t.Id());
    CashMovedAsWritten(su, StateOf(su, followed), t);
    run, lost := TellChain(su, delivered, asked, t, prev);
    ToDeliverWithin(su, delivered, t);
    ToDeliverWithin(su, delivered, prev);
    if lost.None? {
      ClaimantIsNew(su, delivered, c, t, run);
      run := ClaimGranted(su, delivered, run, c, t);
    }
  }

  lemma ClaimGranted(su: Setup, delivered: set<Block>, run: Run, c: Block, t: Block) returns (more: Run)
    requires !su.repairs.writeBack && ClaimsFrom(su, delivered, c, t) && UnderLeader(su, run, t)
    requires c.prevId in StateOf(su, run).validBlocks && !StateOf(su, run).Knows(c.Id())
    requires Utxo(t) - SpentOn(Branch(c.prevId.block)) <= StateOf(su, run).cashSet
    ensures Timely(su, more) && Delivered(more) == Delivered(run) + {c} && c.Id() in StateOf(su, more).validBlocks
  {
    hide Expected, Accepted, HeaderOk, Types.Branch, Utxo, SpentOn, HubState.IsTree, HubState.CashMoved;
    hide Legal, OnTime, OnlyBlocks, RewardOk;
    var prev, s := c.prevId.block, StateOf(su, run);
    more := DeliverTimely(su, run, c, c.timestamp);
    TreeNode(su, s, c.prevId);
    TreeNode(su, s, t.Id());
    LookupInRange(su, s, prev);
    CashMovedAsWritten(su, s, prev);
  }

  /** Without the write-back such a claim decides: over the same blocks, one run on time accepts some
      block that another rejects. */
  lemma ClaimDecides(su: Setup, delivered: set<Block>, c: Block, t: Block) returns (run1: Run, run2: Run, d: Block)
    requires !su.repairs.writeBack && AllFresh(delivered) && ClaimsFrom(su, delivered, c, t)
    ensures RunOver(su, delivered, run1) && RunOver(su, delivered, run2)
    ensures d.Id() in StateOf(su, run1).validBlocks && d.Id() in StateOf(su, run2).invalidBlocks
    ensures d.Id() !in StateOf(su, run2).validBlocks && !OrderFree(su, delivered)
  {
    hide ClaimsFrom, AllFresh, Types.Branch, RunOver, Legal, OnTime, OnlyBlocks;
    var elsewhere, lost := ClaimElsewhere(su, delivered, c, t);
    var home := ClaimAtHome(su, delivered, c, t);
    d := if lost.Some? then lost.value else c;
    var atHome := Finish(su, delivered, home, d);
    var away := Finish(su, delivered, elsewhere, d);
    run1 := if lost.Some? then atHome else away;
    run2 := if lost.Some? then away else atHome;
  }
}
