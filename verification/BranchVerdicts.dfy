/** What a drain does to one branch: when it adopts every block of it, whatever else is in the pool,
    and exactly when it does so if nothing else is. */
module BranchVerdicts {
  import opened Types
  import opened Ledger
  import opened Rules
  import opened HubState
  import opened Drain
  import opened Walks
  import opened Runs
  import opened Acceptance

  /** Where the cache position is written back, the ledger is exact. */
  ghost predicate Covered(su: Setup, s: State) {
    su.repairs.writeBack ==> LedgerExact(su, {}, s)
  }

  /** No block of the branch has been rejected. */
  ghost predicate NoneRejected(s: State, b: Block) {
    forall a :: OnBranch(a, b) ==> a.Id() !in s.invalidBlocks
  }

  // ---------- no judgement off the branch touches it ----------

  /** A rejection condemns only descendants of the rejected block. */
  lemma ReachedDescends(next: Index, from: Block)
    requires forall p, c :: p in next && c in next[p] ==> ChildOf(c, p)
    ensures forall c :: c in Reached(next, from.Id()) ==> c.HashOf? && OnBranch(from, c.block)
  {
    var gone := Reached(next, from.Id());
    var below := set c | c in gone && c.HashOf? && OnBranch(from, c.block);
    ReachedIsCascade(next, from.Id());
    forall p, c | p in below && p in next && c in next[p] ensures c in below {
      assert ChildOf(c, p);
      assert OnBranch(p.block, c.block);
      OnBranchTransitive(from, p.block, c.block);
    }
    assert Closed(next, below);
  }

  lemma RejectSpares(s: State, pending: set<BlockId>, c: Block, b: Block)
    requires Pool(s, pending) && NoneRejected(s, b) && !OnBranch(c, b)
    ensures NoneRejected(Reject(s, c.Id()), b)
  {
    ReachedDescends(s.nextBlocks, c);
    forall a | OnBranch(a, b) ensures a.Id() !in Reached(s.nextBlocks, c.Id()) {
      if OnBranch(c, a) {
        OnBranchTransitive(c, a, b);
      }
    }
  }

  /** A judgement rejects nothing of a deserving branch, if the lookup does not matter to the block
      judged or the block is not on the branch. */
  lemma JudgeSpares(su: Setup, s: State, pending: set<BlockId>, c: Block, b: Block)
    requires Inv(su, s, pending) && c.Id() in pending && Judgeable(su, s, c)
    requires Covered(su, s) && NoneRejected(s, b) && Accepted(su.config, b)
    requires OnBranch(c, b) ==> LeaderFair(su, s, c)
    ensures NoneRejected(Judge(su, s, c), b)
  {
    hide HubState.Inv, HubState.AtVerdict, HubState.Reject, HubState.Judgeable, HubState.Verdict, LedgerExact, Accepted;
    hide LeaderFair;
    var m := AtVerdict(su, s, c);
    JudgeProgress(su, s, pending, c);
    AtVerdictInv(su, s, pending, c);
    AtVerdictFrame(su, s, c);
    InvPool(su, m, pending - {c.Id()});
    if OnBranch(c, b) {
      AcceptedDown(su.config, b, c);
      DeservedIsGivenIff(su, {}, s, c);
    } else if !Verdict(su, s, c) {
      RejectSpares(m, pending - {c.Id()}, c, b);
    }
  }

  lemma JudgeCovered(su: Setup, s: State, pending: set<BlockId>, c: Block)
    requires Inv(su, s, pending) && c.Id() in pending && Judgeable(su, s, c) && Covered(su, s)
    ensures Covered(su, Judge(su, s, c))
  {
    if su.repairs.writeBack {
      JudgeKeepsLedger(su, {}, s, pending, c);
    }
  }

  /** On a drained pool a block that deserves acceptance is valid as soon as it and all its
      ancestors are known and none was rejected. */
  lemma {:induction false} KnownAndUnrejectedIsValid(su: Setup, s: State, b: Block)
    requires Inv(su, s, {}) && Accepted(su.config, b) && NoneRejected(s, b)
    requires forall a :: OnBranch(a, b) ==> s.Knows(a.Id())
    ensures b.Id() in s.validBlocks
    decreases b
  {
    if b != su.GenesisBlock() {
      var prev := b.prevId.block;
      forall a | OnBranch(a, prev) ensures s.Knows(a.Id()) && a.Id() !in s.invalidBlocks {
        assert OnBranch(a, b);
      }
      KnownAndUnrejectedIsValid(su, s, prev);
      assert OnBranch(b, b);
      if b.Id() in s.unconfirmedBlocks {
        DrainedPool(su, s, b.Id());
      }
    }
  }

  lemma ValidIsUnrejected(su: Setup, s: State, b: Block)
    requires Inv(su, s, {}) && b.Id() in s.validBlocks
    ensures NoneRejected(s, b)
  {
    forall a | OnBranch(a, b) ensures a.Id() !in s.invalidBlocks {
      AncestorsValid(su, s, b, a);
    }
  }

  // ---------- a branch to which no possible leader matters ----------

  /** `x` may lead while the branch of `b` is adopted: it is valid or parked, or on the branch. */
  ghost predicate MayLead(s: State, b: Block, x: Block) {
    x.Id() in s.validBlocks || x.Id() in s.unconfirmedBlocks || OnBranch(x, b)
  }

  /** The lookup matters to no block of the branch that is not valid yet, whoever may lead. */
  ghost predicate BranchFair(su: Setup, s: State, b: Block) {
    su.repairs.ownLookup ||
    forall a, x :: OnBranch(a, b) && a.Id() !in s.validBlocks && MayLead(s, b, x) ==> !LookupMatters(su.config, x, a)
  }

  /** Everything valid or parked in `s` might have led from the start. */
  ghost predicate LedFrom(s0: State, b: Block, s: State) {
    s0.validBlocks.Keys <= s.validBlocks.Keys &&
    forall id :: id in s.validBlocks || id in s.unconfirmedBlocks ==> id.HashOf? && MayLead(s0, b, id.block)
  }

  lemma LedFromNext(su: Setup, s0: State, b: Block, s: State, pending: set<BlockId>, c: Block)
    requires Inv(su, s, pending) && c.Id() in pending && Judgeable(su, s, c) && LedFrom(s0, b, s)
    ensures LedFrom(s0, b, Judge(su, s, c))
  {
    hide HubState.Inv, HubState.Judge, HubState.Judgeable, HubState.Verdict, Progress, MayLead;
    JudgeProgress(su, s, pending, c);
  }

  lemma FairLeader(su: Setup, s0: State, b: Block, s: State, pending: set<BlockId>, c: Block)
    requires Inv(su, s, pending) && c.Id() in pending && Judgeable(su, s, c) && LedFrom(s0, b, s)
    requires BranchFair(su, s0, b) && OnBranch(c, b)
    ensures s.leadingBlock in s.validBlocks && LeaderFair(su, s, c)
  {
    hide HubState.IsTree, MayLead, LookupMatters;
    LeaderIsValid(su, s);
    TreeNode(su, s, s.leadingBlock);
    JudgeProgress(su, s, pending, c);
  }

  /** Draining the pool then rejects no block of the branch, whatever else it judges. */
  lemma {:induction false} DrainsSpare(su: Setup, s0: State, s: State, pending: set<BlockId>, order: seq<Block>,
                                       t: State, left: set<BlockId>, b: Block)
    requires Inv(su, s, pending) && Drains(su, s, pending, order, t, left) && LedFrom(s0, b, s)
    requires Covered(su, s) && NoneRejected(s, b) && Accepted(su.config, b) && BranchFair(su, s0, b)
    ensures NoneRejected(t, b)
    decreases |order|
  {
    hide HubState.Inv, HubState.Judge, HubState.Verdict, HubState.Judgeable, HubState.PendingAfter;
    hide Covered, NoneRejected, Accepted, BranchFair, LedFrom, LeaderFair;
    if order != [] {
      var c := order[0];
      JudgeInv(su, s, pending, c);
      if OnBranch(c, b) {
        FairLeader(su, s0, b, s, pending, c);
      }
      JudgeSpares(su, s, pending, c, b);
      JudgeCovered(su, s, pending, c);
      LedFromNext(su, s0, b, s, pending, c);
      DrainsSpare(su, s0, Judge(su, s, c), PendingAfter(s, pending, c, Verdict(su, s, c)), order[1..], t, left, b);
    }
  }

  // ---------- a pool that holds nothing off the branch ----------

  /** Every parked block is on the branch of `b`. */
  ghost predicate OnlyBranchParked(s: State, b: Block) {
    forall id :: id in s.unconfirmedBlocks ==> id.HashOf? && OnBranch(id.block, b)
  }

  /** The lookup breaks the branch: to some block of it that is not valid yet it matters that the
      present leader leads. */
  ghost predicate LookupBreaks(su: Setup, s: State, b: Block) {
    !su.repairs.ownLookup && exists a :: BreaksAt(su, s, b, a)
  }

  ghost predicate BreaksAt(su: Setup, s: State, b: Block, a: Block) {
    OnBranch(a, b) && a.Id() !in s.validBlocks && s.leadingBlock in s.validBlocks &&
    LookupMatters(su.config, s.validBlocks[s.leadingBlock], a)
  }

  /** While only the branch is adopted, the old leader leads until the branch has outgrown it, and
      nothing adopted so far was a block at which the lookup breaks. */
  ghost predicate Adopting(su: Setup, s0: State, s: State, b: Block) {
    && s0.leadingBlock in s0.validBlocks && s.leadingBlock in s.validBlocks
    && s0.validBlocks.Keys <= s.validBlocks.Keys
    && s.validBlocks[s0.leadingBlock] == s0.validBlocks[s0.leadingBlock]
    && OnlyBranchParked(s, b)
    && (s.leadingBlock == s0.leadingBlock ||
        (s.leadingBlock.HashOf? && OnBranch(s.leadingBlock.block, b) &&
         s.leadingBlock.block.seqno > s0.validBlocks[s0.leadingBlock].seqno))
    && (!su.repairs.ownLookup ==>
          forall a :: OnBranch(a, b) && a.Id() in s.validBlocks ==> !BreaksAt(su, s0, b, a))
  }

  /** A block of the branch whose parent is valid, and which is not, is higher than all valid ones. */
  lemma NextOnBranch(su: Setup, s: State, c: Block, b: Block, x: Block)
    requires Judgeable(su, s, c) && c.Id() !in s.validBlocks && Rooted(su.config, b)
    requires OnBranch(c, b) && OnBranch(x, b) && x.Id() in s.validBlocks
    ensures c.prevId.HashOf? && s.validBlocks[c.prevId] == c.prevId.block && OnBranch(c.prevId.block, b)
    ensures c.seqno == c.prevId.block.seqno + 1
    ensures x.seqno <= c.prevId.block.seqno
    ensures x.seqno == c.prevId.block.seqno ==> x == c.prevId.block
  {
    hide HubState.IsTree, Rules.Rooted;
    TreeNode(su, s, c.prevId);
    var prev := c.prevId.block;
    OnBranchUp(c, b);
    RootedStep(su.config, b, c);
    if c.seqno <= x.seqno {
      LowerIsAncestor(su.config, b, c, x);
      AncestorsValid(su, s, x, c);
      assert false;
    }
    if x.seqno == prev.seqno {
      SameHeightSame(su.config, b, x, prev);
    }
  }

  lemma OnBranchUp(c: Block, b: Block)
    requires OnBranch(c, b) && c.prevId.HashOf?
    ensures OnBranch(c.prevId.block, b)
  {
    assert OnBranch(c.prevId.block, c);
    OnBranchTransitive(c.prevId.block, c, b);
  }

  lemma RootedStep(config: Config, b: Block, c: Block)
    requires Rooted(config, b) && OnBranch(c, b) && c.prevId.HashOf?
    ensures c.seqno == c.prevId.block.seqno + 1
  {
    RootedPrefix(config, b, c);
  }

  /** The next block of the branch gets what it deserves if and only if the lookup does not break at
      it. */
  lemma BreaksHereIff(su: Setup, s0: State, s: State, c: Block, b: Block)
    requires Judgeable(su, s, c) && c.Id() !in s.validBlocks && Adopting(su, s0, s, b)
    requires Rooted(su.config, b) && OnBranch(c, b) && !su.repairs.ownLookup
    ensures LeaderFair(su, s, c) <==> !BreaksAt(su, s0, b, c)
  {
    hide HubState.IsTree, Rules.Rooted;
    TreeNode(su, s, s.leadingBlock);
    var first := s0.validBlocks[s0.leadingBlock];
    if s.leadingBlock != s0.leadingBlock {
      var x := s.leadingBlock.block;
      NextOnBranch(su, s, c, b, x);
      LeaderAsHigh(su, s, c.prevId);
      ParentOnChain(su.config, x, c);
      TreeBranch(su, s, s0.leadingBlock);
      assert !LookupMatters(su.config, first, c);
    }
  }

  lemma LeaderAsHigh(su: Setup, s: State, id: BlockId)
    requires Tree(su, s) && id in s.validBlocks
    ensures s.leadingBlock in s.validBlocks && s.validBlocks[id].seqno <= s.validBlocks[s.leadingBlock].seqno
  {}

  lemma JudgeLeader(su: Setup, s: State, c: Block)
    requires Judgeable(su, s, c)
    ensures s.leadingBlock in s.validBlocks
    ensures Judge(su, s, c).leadingBlock ==
            if Verdict(su, s, c) && c.seqno > s.validBlocks[s.leadingBlock].seqno then c.Id() else s.leadingBlock
  {
    LeaderIsValid(su, s);
    hide HubState.IsTree, HubState.CashMoved, HubState.Reached;
  }

  lemma AdoptingNext(su: Setup, s0: State, s: State, b: Block, t: State, c: Block, accepted: bool)
    requires Adopting(su, s0, s, b) && OnBranch(c, b) && t.unconfirmedBlocks.Keys <= s.unconfirmedBlocks.Keys
    requires t.validBlocks == if accepted then s.validBlocks[c.Id() := c] else s.validBlocks
    requires t.leadingBlock ==
             if accepted && c.seqno > s.validBlocks[s.leadingBlock].seqno then c.Id() else s.leadingBlock
    requires s.leadingBlock.HashOf? ==> s.validBlocks[s.leadingBlock] == s.leadingBlock.block
    requires accepted ==> c.Id() !in s.validBlocks && (!su.repairs.ownLookup ==> !BreaksAt(su, s0, b, c))
    ensures Adopting(su, s0, t, b)
  {
    hide BreaksAt, Types.OnBranch;
  }

  lemma JudgeAdopting(su: Setup, s0: State, s: State, pending: set<BlockId>, c: Block, b: Block)
    requires Inv(su, s, pending) && c.Id() in pending && Judgeable(su, s, c)
    requires Adopting(su, s0, s, b) && Covered(su, s) && Accepted(su.config, b)
    ensures Adopting(su, s0, Judge(su, s, c), b)
    ensures NoneRejected(s, b) && !LookupBreaks(su, s0, b) ==> NoneRejected(Judge(su, s, c), b)
  {
    hide HubState.Inv, HubState.Judge, HubState.Judgeable, HubState.Verdict, Progress, LedgerExact, Accepted, BreaksAt;
    hide LeaderFair, Rules.Rooted, Types.OnBranch;
    JudgeProgress(su, s, pending, c);
    JudgeLeader(su, s, c);
    LeaderAddressed(su, s, c);
    assert OnBranch(c, b);
    AcceptedDown(su.config, b, c);
    AcceptedIsRooted(su.config, b);
    DeservedIsGivenIff(su, {}, s, c);
    if !su.repairs.ownLookup {
      BreaksHereIff(su, s0, s, c, b);
    }
    AdoptingNext(su, s0, s, b, Judge(su, s, c), c, Verdict(su, s, c));
    if NoneRejected(s, b) && !LookupBreaks(su, s0, b) {
      if su.repairs.ownLookup {
        OwnLookupFair(su, s, c);
      }
      JudgeSpares(su, s, pending, c, b);
    }
  }

  lemma LeaderAddressed(su: Setup, s: State, c: Block)
    requires Judgeable(su, s, c)
    ensures s.leadingBlock in s.validBlocks && s.leadingBlock == s.validBlocks[s.leadingBlock].Id()
  {
    LeaderIsValid(su, s);
    TreeNode(su, s, s.leadingBlock);
  }

  lemma OwnLookupFair(su: Setup, s: State, c: Block)
    requires su.repairs.ownLookup && s.leadingBlock in s.validBlocks
    ensures LeaderFair(su, s, c)
  {}

  /** A drain of such a pool adopts the branch up to the first block at which the lookup breaks. */
  lemma {:induction false} DrainsAdopt(su: Setup, s0: State, s: State, pending: set<BlockId>, order: seq<Block>,
                                       t: State, left: set<BlockId>, b: Block)
    requires Inv(su, s, pending) && Drains(su, s, pending, order, t, left)
    requires Adopting(su, s0, s, b) && Covered(su, s) && Accepted(su.config, b)
    ensures Adopting(su, s0, t, b)
    ensures NoneRejected(s, b) && !LookupBreaks(su, s0, b) ==> NoneRejected(t, b)
    decreases |order|
  {
    hide HubState.Inv, HubState.Judge, HubState.Verdict, HubState.Judgeable, HubState.PendingAfter;
    hide Covered, NoneRejected, Accepted, Adopting, LookupBreaks;
    if order != [] {
      var c := order[0];
      JudgeInv(su, s, pending, c);
      JudgeAdopting(su, s0, s, pending, c, b);
      JudgeCovered(su, s, pending, c);
      DrainsAdopt(su, s0, Judge(su, s, c), PendingAfter(s, pending, c, Verdict(su, s, c)), order[1..], t, left, b);
    }
  }

  /** So a branch that became valid was broken nowhere. */
  lemma AdoptedUnbroken(su: Setup, s0: State, t: State, b: Block)
    requires Inv(su, t, {}) && Adopting(su, s0, t, b) && b.Id() in t.validBlocks
    ensures !LookupBreaks(su, s0, b)
  {
    hide HubState.IsTree, HubState.IsPool, BreaksAt;
    if LookupBreaks(su, s0, b) {
      var a :| BreaksAt(su, s0, b, a);
      BreaksOnBranch(su, s0, b, a);
      AncestorsValid(su, t, b, a);
      assert false;
    }
  }

  lemma BreaksOnBranch(su: Setup, s: State, b: Block, a: Block)
    requires BreaksAt(su, s, b, a)
    ensures OnBranch(a, b)
  {}

  /** The lookup breaks nothing on the leader's own chain, at whatever numbers. */
  lemma LeaderOnBranchUnbroken(su: Setup, s: State, b: Block)
    requires Tree(su, s) && Accepted(su.config, b)
    requires s.leadingBlock in s.validBlocks && OnBranch(s.validBlocks[s.leadingBlock], b)
    ensures !LookupBreaks(su, s, b)
  {
    hide HubState.IsTree, Accepted, Rules.Rooted, LookupMatters, Types.OnBranch;
    var x := s.validBlocks[s.leadingBlock];
    TreeNode(su, s, s.leadingBlock);
    AcceptedIsRooted(su.config, b);
    forall a ensures su.repairs.ownLookup || !BreaksAt(su, s, b, a) {
      if BreaksAt(su, s, b, a) {
        UnbrokenAbove(su, s, b, x, a);
      }
    }
  }

  lemma UnbrokenAbove(su: Setup, s: State, b: Block, x: Block, a: Block)
    requires Tree(su, s) && Rooted(su.config, b) && OnBranch(a, b) && a.Id() !in s.validBlocks
    requires OnBranch(x, b) && x.Id() in s.validBlocks
    ensures !LookupMatters(su.config, x, a)
  {
    hide HubState.IsTree, Rules.Rooted;
    if LookupMatters(su.config, x, a) {
      var prev := a.prevId.block;
      OnBranchUp(a, b);
      RootedStep(su.config, b, a);
      Height(su.config, b, x);
      if prev.seqno < x.seqno {
        LowerIsAncestor(su.config, b, a, x);
        AncestorsValid(su, s, x, a);
      } else {
        SameHeightSame(su.config, b, x, prev);
        assert OnBranch(prev, x);
        ParentOnChain(su.config, x, a);
      }
      assert false;
    }
  }

  /** Nor where the blocks still missing sit at no adjustment number, or find the same adjustment block
      whoever leads: then the branch is fair. */
  lemma AgreeingLookupsFair(su: Setup, s: State, b: Block)
    requires forall a :: OnBranch(a, b) && a.Id() !in s.validBlocks && a.prevId.HashOf? &&
                         a.seqno % su.config.difficultyAdjustmentPeriod == 0 ==>
               forall x :: MayLead(s, b, x) ==> FindSame(su.config, a, x)
    ensures BranchFair(su, s, b)
  {
    hide MayLead, LookupMatters, FindSame, Types.OnBranch;
    forall a, x | OnBranch(a, b) && a.Id() !in s.validBlocks && MayLead(s, b, x)
      ensures !LookupMatters(su.config, x, a)
    {
      if a.seqno % su.config.difficultyAdjustmentPeriod != 0 {
        OrdinaryNumber(su.config, x, a);
      } else if a.prevId.HashOf? {
        FoundSame(su.config, a, x);
      } else {
        NoParentNoLookup(su.config, x, a);
      }
    }
  }

  lemma NoParentNoLookup(config: Config, x: Block, a: Block)
    requires a.prevId.Raw?
    ensures !LookupMatters(config, x, a)
  {}
}
