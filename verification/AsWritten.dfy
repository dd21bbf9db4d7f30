/** The validator as written, compared with the verdict a block deserves on its own branch:
    exactly which blocks it judges wrongly, and why. */
module AsWritten {
  import opened Types
  import opened Difficulty
  import opened Ledger
  import opened Rules
  import opened HubState
  import opened Acceptance
  import opened Runs
  import opened OrderIndependence

  /** Neither the lookup nor the cache position is repaired. */
  predicate Unrepaired(su: Setup) {
    !su.repairs.ownLookup && !su.repairs.writeBack
  }

  /** The verdict as written: the adjustment comes from the leader's chain, and inputs may be
      unspent at the parent or left over from other calls. */
  lemma VerdictAsWritten(su: Setup, s: State, b: Block)
    requires Unrepaired(su) && Judgeable(su, s, b)
    ensures var prev := s.validBlocks[b.prevId];
            prev.seqno < |Branch(s.validBlocks[s.leadingBlock])| &&
            (Verdict(su, s, b) <==>
              HeaderOk(su.config, prev, b, Branch(s.validBlocks[s.leadingBlock])) && RewardOk(su.config, b) &&
              Spends(b) <= Utxo(prev) + Leftover(s, prev))
  {
    hide HubState.CashMoved, HubState.IsTree, Types.Branch, Rules.HeaderOk;
    var prev := s.validBlocks[b.prevId];
    TreeNode(su, s, b.prevId);
    LookupInRange(su, s, prev);
    CashMovedAsWritten(su, s, prev);
  }

  /** The block sits at an adjustment number, and the leader's chain and its own branch call for
      different targets there. */
  ghost predicate LookupsDiffer(su: Setup, s: State, b: Block)
    requires Judgeable(su, s, b)
  {
    var prev, leader := s.validBlocks[b.prevId], s.validBlocks[s.leadingBlock];
    b.seqno == prev.seqno + 1 && b.seqno % su.config.difficultyAdjustmentPeriod == 0 &&
    prev.seqno < |Branch(prev)| && prev.seqno < |Branch(leader)| &&
    ExpectedDifficulty(su.config, prev, b.seqno, b.timestamp, Branch(prev))
      != ExpectedDifficulty(su.config, prev, b.seqno, b.timestamp, Branch(leader))
  }

  /** The two lookups give the same header verdict unless they differ; and if they do, at most one
      of them passes. */
  lemma HeadersCompared(su: Setup, s: State, b: Block)
    requires Judgeable(su, s, b)
    ensures var prev, leader := s.validBlocks[b.prevId], s.validBlocks[s.leadingBlock];
            prev.seqno < |Branch(prev)| && prev.seqno < |Branch(leader)| &&
            (if LookupsDiffer(su, s, b)
             then !(HeaderOk(su.config, prev, b, Branch(prev)) && HeaderOk(su.config, prev, b, Branch(leader)))
             else HeaderOk(su.config, prev, b, Branch(prev)) <==> HeaderOk(su.config, prev, b, Branch(leader)))
  {
    hide HubState.IsTree, Types.Branch, Rules.AdjustmentBlock;
    var prev := s.validBlocks[b.prevId];
    TreeNode(su, s, b.prevId);
    TreeBranch(su, s, b.prevId);
    LeaderIsValid(su, s);
    TreeBranch(su, s, s.leadingBlock);
    LeaderHighest(su, s, b.prevId);
  }

  lemma LeaderHighest(su: Setup, s: State, id: BlockId)
    requires Tree(su, s) && id in s.validBlocks
    ensures s.validBlocks[id].seqno <= s.validBlocks[s.leadingBlock].seqno
  {}

  /** Wrong rejections: the code as written rejects a block that deserves acceptance if and only if
      the block sits at an adjustment number where the leader's chain calls for another target
      than its own branch. */
  lemma WronglyRejectedIff(su: Setup, s: State, b: Block)
    requires Unrepaired(su) && Judgeable(su, s, b) && Accepted(su.config, s.validBlocks[b.prevId])
    ensures !Verdict(su, s, b) && Accepted(su.config, b) <==> Accepted(su.config, b) && LookupsDiffer(su, s, b)
  {
    hide HubState.Verdict, HubState.Judgeable, LookupsDiffer, Accepted, Rules.HeaderOk, Types.Branch;
    VerdictAsWritten(su, s, b);
    HeadersCompared(su, s, b);
    AcceptedBelow(su, s, b);
  }

  /** Wrong acceptances: it accepts a block that does not deserve it if and only if everything
      passes with the leader's chain, and either the leader's chain calls for another target
      than the block's own branch or leftover cash is needed to cover its inputs. */
  lemma WronglyAcceptedIff(su: Setup, s: State, b: Block)
    requires Unrepaired(su) && Judgeable(su, s, b) && Accepted(su.config, s.validBlocks[b.prevId])
    ensures var prev, leader := s.validBlocks[b.prevId], s.validBlocks[s.leadingBlock];
            prev.seqno < |Branch(leader)| &&
            (Verdict(su, s, b) && !Accepted(su.config, b) <==>
              HeaderOk(su.config, prev, b, Branch(leader)) && RewardOk(su.config, b) &&
              Spends(b) <= Utxo(prev) + Leftover(s, prev) &&
              (LookupsDiffer(su, s, b) || !(Spends(b) <= Utxo(prev))))
  {
    hide HubState.Verdict, HubState.Judgeable, LookupsDiffer, Accepted, Rules.HeaderOk, Types.Branch;
    VerdictAsWritten(su, s, b);
    HeadersCompared(su, s, b);
    AcceptedBelow(su, s, b);
  }

  /** No adjustment is looked up for a child of `prev`, or the leader's chain and its own branch give
      the same block for it. */
  predicate LookupsAgree(config: Config, leader: Block, prev: Block) {
    (prev.seqno + 1) % config.difficultyAdjustmentPeriod == 0 ==>
      AdjustmentBlock(config, Branch(leader), prev.seqno + 1) == AdjustmentBlock(config, Branch(prev), prev.seqno + 1)
  }

  lemma AgreeingLookups(su: Setup, s: State, b: Block)
    requires Judgeable(su, s, b)
    requires LookupsAgree(su.config, s.validBlocks[s.leadingBlock], s.validBlocks[b.prevId])
    ensures !LookupsDiffer(su, s, b)
  {
    hide HubState.IsTree, Types.Branch, Rules.AdjustmentBlock, Difficulty.Adjust, Difficulty.TimeSpan;
  }

  /** Where no adjustment is looked up, or both lookups find the same block, the code never rejects
      what deserves acceptance, and wrongly accepts exactly what is covered only by leftovers. */
  lemma DiffersOnlyByLeftovers(su: Setup, s: State, b: Block)
    requires Unrepaired(su) && Judgeable(su, s, b) && Accepted(su.config, s.validBlocks[b.prevId])
    requires LookupsAgree(su.config, s.validBlocks[s.leadingBlock], s.validBlocks[b.prevId])
    ensures Accepted(su.config, b) ==> Verdict(su, s, b)
    ensures var prev := s.validBlocks[b.prevId];
            prev.seqno < |Branch(prev)| &&
            (Verdict(su, s, b) && !Accepted(su.config, b) <==>
              HeaderOk(su.config, prev, b, Branch(prev)) && RewardOk(su.config, b) &&
              Spends(b) <= Utxo(prev) + Leftover(s, prev) && !(Spends(b) <= Utxo(prev)))
  {
    hide HubState.Verdict, HubState.Judgeable, LookupsDiffer, LookupsAgree, Accepted, Rules.HeaderOk, Types.Branch;
    AgreeingLookups(su, s, b);
    WronglyRejectedIff(su, s, b);
    WronglyAcceptedIff(su, s, b);
    HeadersCompared(su, s, b);
    AcceptedBelow(su, s, b);
  }

  // ---------- whole runs ----------

  /** The accepted set of the code as written: on a run on time, in which every delivered block
      creates fresh cash and claims no cash that genesis or a delivered block created off its
      branch, and no delivered block's header comes out differently on the chains that may lead, a
      block is valid exactly when it deserves acceptance and it and all its ancestors were
      delivered. */
  lemma AcceptedSetAsWritten(su: Setup, run: Run, b: Block)
    requires Unrepaired(su) && Legal(su, run) && OnTime(run)
    requires forall d :: d in Delivered(run) ==> Fresh(d) && OwnClaims(CashOf(su.config, Delivered(run)), d)
    requires forall a, x :: !Disputed(su, Delivered(run), a, x)
    ensures b.Id() in StateOf(su, run).validBlocks <==>
              Accepted(su.config, b) &&
              forall a :: OnBranch(a, b) ==> a == su.GenesisBlock() || a in Delivered(run)
  {
    hide Legal, OnTime, Ledger.Fresh, OwnClaims, Accepted, Disputed;
    AcceptedSetDetermined(su, run, b);
  }
}
