/** The verdict a block deserves on its own branch, and exactly when the validator gives it.

    Two things can make the validator differ: the adjustment block is looked up on the
    leader's chain, and the cached unspent set may hold cash left over from other branches.
    Either a repair removes the difference, or the block does not touch it: its header comes
    out the same on both chains, or it claims no cash that was created off its branch. */
module Acceptance {
  import opened Types
  import opened Difficulty
  import opened Ledger
  import opened Rules
  import opened HubState
  import opened Drain
  import Supply

  // ---------- verdicts on a block's own branch ----------

  /** A block is acceptable when it and all its ancestors pass every check, with the
      adjustment looked up on the branch and the inputs unspent at the parent. */
  ghost predicate Accepted(config: Config, b: Block) {
    b == Genesis(config) ||
    (b.prevId.HashOf? && Accepted(config, b.prevId.block) && AcceptedAfter(config, b.prevId.block, b))
  }

  ghost predicate AcceptedAfter(config: Config, prev: Block, b: Block) {
    prev.seqno < |Branch(prev)| && Checks(config, prev, b, Branch(prev), Utxo(prev))
  }

  lemma {:induction false} AcceptedIsRooted(config: Config, b: Block)
    requires Accepted(config, b)
    ensures Rooted(config, b)
  {
    if b != Genesis(config) {
      AcceptedIsRooted(config, b.prevId.block);
      ChecksImplyLocal(config, b.prevId.block, b, Branch(b.prevId.block), Utxo(b.prevId.block));
    }
  }

  lemma GenesisHasNoParent(config: Config)
    ensures Genesis(config).prevId.Raw?
  {}

  /** All ancestors of a block that deserves acceptance deserve it. */
  lemma {:induction false} AcceptedDown(config: Config, b: Block, a: Block)
    requires Accepted(config, b) && OnBranch(a, b)
    ensures Accepted(config, a)
  {
    if a != b {
      GenesisHasNoParent(config);
      AcceptedDown(config, b.prevId.block, a);
    }
  }

  // ---------- what a block must be like ----------

  /** All else about `b` is in order, and its header passes on one of two chains but not on the
      other: on the chain of `x`, and on its own branch. */
  predicate LookupMatters(config: Config, x: Block, b: Block) {
    b.prevId.HashOf? &&
    var prev := b.prevId.block;
    Spends(b) <= Utxo(prev) && RewardOk(config, b) &&
    prev.seqno < |Branch(prev)| && prev.seqno < |Branch(x)| &&
    HeaderOk(config, prev, b, Branch(x)) != HeaderOk(config, prev, b, Branch(prev))
  }

  /** The header of `b` does not hang on whether the adjustment is looked up on the leader's chain. */
  predicate LeaderFair(su: Setup, s: State, b: Block)
    requires s.leadingBlock in s.validBlocks
  {
    su.repairs.ownLookup || !LookupMatters(su.config, s.validBlocks[s.leadingBlock], b)
  }

  /** Nothing is looked up outside the adjustment numbers. */
  lemma OrdinaryNumber(config: Config, x: Block, b: Block)
    requires b.seqno % config.difficultyAdjustmentPeriod != 0
    ensures !LookupMatters(config, x, b)
  {}

  /** `a` finds the same adjustment block on the chain of `x` as on its own branch. */
  predicate FindSame(config: Config, a: Block, x: Block)
    requires a.prevId.HashOf?
  {
    AdjustmentBlock(config, Branch(x), a.seqno) == AdjustmentBlock(config, Branch(a.prevId.block), a.seqno)
  }

  /** Nor does it matter where the same block is found. */
  lemma FoundSame(config: Config, a: Block, x: Block)
    requires a.prevId.HashOf? && FindSame(config, a, x)
    ensures !LookupMatters(config, x, a)
  {
    hide Spends, Utxo, RewardOk, Types.Branch, AdjustmentBlock, Adjust, TimeSpan;
  }

  /** As on the chain of any descendant of the parent. */
  lemma FoundAbove(config: Config, x: Block, b: Block)
    requires b.prevId.HashOf? && OnBranch(b.prevId.block, x)
    requires b.prevId.block.seqno < |Branch(b.prevId.block)| && b.seqno == b.prevId.block.seqno + 1
    ensures FindSame(config, b, x)
  {
    var prev := b.prevId.block;
    BranchIsPrefix(prev, x);
    hide Types.Branch;
    AdjustmentFound(config, Branch(prev), b.seqno);
    AdjustmentFound(config, Branch(x), b.seqno);
    var index := b.seqno - RewindNumber(config, b.seqno);
    assert Branch(prev)[index] == Branch(x)[index];
  }

  /** So there the lookup is as good as on the own branch. */
  lemma ParentOnChain(config: Config, x: Block, b: Block)
    requires b.prevId.HashOf? && OnBranch(b.prevId.block, x)
    ensures !LookupMatters(config, x, b)
  {
    hide Types.Branch;
    if b.prevId.block.seqno < |Branch(b.prevId.block)| && b.seqno == b.prevId.block.seqno + 1 {
      FoundAbove(config, x, b);
      FoundSame(config, b, x);
    }
  }

  /** Of all the cash in `known`, the block claims only what its own ancestors created. */
  predicate OwnClaims(known: set<Cash>, b: Block) {
    b.prevId.HashOf? ==> Spends(b) * known <= CreatedOn(Branch(b.prevId.block))
  }

  /** A block that creates fresh cash and, unless the cache position is written back, claims
      no known cash created off its branch. */
  ghost predicate LedgerFair(su: Setup, known: set<Cash>, b: Block) {
    Fresh(b) && (su.repairs.writeBack || (OwnClaims(known, b) && Creates(b) <= known))
  }

  // ---------- the ledger invariant ----------

  /** The cached set is the true unspent set at its position; before the first move it is
      empty, at genesis. */
  ghost predicate CashExact(su: Setup, s: State) {
    s.cashBlockId in s.validBlocks &&
    (s.cashSet == Utxo(s.validBlocks[s.cashBlockId]) ||
     (s.cashSet == {} && s.cashBlockId == su.GenesisId()))
  }

  /** All valid branches are sound, what is parked is fair, and the cache is exact or, where its
      position is not written back, holds nothing but known cash. */
  ghost predicate LedgerExact(su: Setup, known: set<Cash>, s: State) {
    && (forall id :: id in s.validBlocks ==>
         Sound(s.validBlocks[id]) && (su.repairs.writeBack || Creates(s.validBlocks[id]) <= known))
    && (forall id :: id in s.unconfirmedBlocks ==> LedgerFair(su, known, s.unconfirmedBlocks[id]))
    && (if su.repairs.writeBack then CashExact(su, s) else s.cashSet <= known)
  }

  /** Cash left in the cache by earlier calls that the parent's branch does not spend. */
  function Leftover(s: State, prev: Block): set<Cash> {
    s.cashSet - SpentOn(Branch(prev))
  }

  /** Without the write-back a call returns the true unspent set and the leftovers. */
  lemma CashMovedAsWritten(su: Setup, s: State, at: Block)
    requires !su.repairs.writeBack && Tree(su, s) && at.Id() in s.validBlocks
    ensures CashMoved(su, s, at) == Utxo(at) + Leftover(s, at)
  {
    TreeBranch(su, s, at.Id());
    TreeBranch(su, s, s.cashBlockId);
    GenesisBranch(su.config);
    MoveFromRoot(s.cashSet, su.GenesisBlock(), at);
  }

  /** With it, moving an exact cache gives the true unspent set of the target. */
  lemma CashMovedExact(su: Setup, s: State, at: Block)
    requires Tree(su, s) && at.Id() in s.validBlocks && CashExact(su, s)
    requires Sound(s.validBlocks[s.cashBlockId])
    ensures CashMoved(su, s, at) == Utxo(at)
  {
    var from := s.validBlocks[s.cashBlockId];
    TreeBranch(su, s, s.cashBlockId);
    TreeBranch(su, s, at.Id());
    if s.cashSet == Utxo(from) {
      MoveExact(from, at);
    } else {
      GenesisBranch(su.config);
      MoveFromRoot({}, from, at);
    }
  }

  /** Either way the result covers the true unspent set. */
  lemma CashCoversUtxo(su: Setup, known: set<Cash>, s: State, at: Block)
    requires Tree(su, s) && at.Id() in s.validBlocks
    requires su.repairs.writeBack ==> LedgerExact(su, known, s)
    ensures Utxo(at) <= CashMoved(su, s, at)
  {
    if su.repairs.writeBack {
      CashMovedExact(su, s, at);
    } else {
      CashMovedAsWritten(su, s, at);
    }
  }

  /** And of a fair block it passes exactly the inputs that are unspent at the parent. */
  lemma InputsJudged(su: Setup, known: set<Cash>, s: State, b: Block)
    requires Judgeable(su, s, b) && LedgerExact(su, known, s) && LedgerFair(su, known, b)
    ensures var prev := s.validBlocks[b.prevId];
            prev.Id() in s.validBlocks && (Spends(b) <= CashMoved(su, s, prev) <==> Spends(b) <= Utxo(prev))
  {
    hide HubState.CashMoved, Ledger.Utxo, Types.Branch, Ledger.Spends, Ledger.CreatedOn, Ledger.SpentOn;
    TreeNode(su, s, b.prevId);
    var prev := s.validBlocks[b.prevId];
    if su.repairs.writeBack {
      CashMovedExact(su, s, prev);
    } else {
      CashMovedAsWritten(su, s, prev);
      ValidIsRooted(su, s, b.prevId);
      Supply.UtxoIsCreatedMinusSpent(su.config, prev);
    }
  }

  lemma ValidIsRooted(su: Setup, s: State, id: BlockId)
    requires Tree(su, s) && id in s.validBlocks
    ensures Rooted(su.config, s.validBlocks[id])
  {}

  // ---------- every judgement keeps the ledger invariant ----------

  lemma {:induction false} CreatedOnKnown(blocks: seq<Block>, known: set<Cash>)
    requires forall b :: b in blocks ==> Creates(b) <= known
    ensures CreatedOn(blocks) <= known
  {
    if blocks != [] {
      CreatedOnKnown(blocks[..|blocks| - 1], known);
    }
  }

  lemma UtxoKnown(su: Setup, known: set<Cash>, s: State, at: Block)
    requires Tree(su, s) && at.Id() in s.validBlocks
    requires forall id :: id in s.validBlocks ==> Creates(s.validBlocks[id]) <= known
    ensures Utxo(at) <= known
  {
    hide HubState.IsTree;
    forall b | b in Branch(at) ensures Creates(b) <= known {
      assert OnBranch(b, at);
      AncestorsValid(su, s, at, b);
      TreeNode(su, s, b.Id());
    }
    CreatedOnKnown(Branch(at), known);
    ReplayNormal({}, Branch(at));
  }

  lemma MoveCashExact(su: Setup, known: set<Cash>, s: State, at: Block)
    requires Tree(su, s) && LedgerExact(su, known, s) && at.Id() in s.validBlocks
    ensures LedgerExact(su, known, MoveCashTo(su, s, at))
  {
    hide HubState.CashMoved, HubState.IsTree, Ledger.Utxo, Ledger.Sound;
    TreeNode(su, s, at.Id());
    if su.repairs.writeBack {
      CashMovedExact(su, s, at);
    } else {
      CashMovedAsWritten(su, s, at);
      UtxoKnown(su, known, s, at);
    }
  }

  lemma UnparkedExact(su: Setup, known: set<Cash>, s: State, id: BlockId)
    requires LedgerExact(su, known, s)
    ensures LedgerExact(su, known, Unparked(s, id))
  {}

  lemma AtVerdictExact(su: Setup, known: set<Cash>, s: State, b: Block)
    requires Judgeable(su, s, b) && LedgerExact(su, known, s)
    ensures LedgerExact(su, known, AtVerdict(su, s, b))
  {
    hide LedgerExact, HubState.IsTree, HubState.CashMoved, HubState.HeaderVerdict;
    UnparkedExact(su, known, s, b.Id());
    TreeNode(su, s, b.prevId);
    if HeaderVerdict(su, s, b) {
      MoveCashExact(su, known, Unparked(s, b.Id()), s.validBlocks[b.prevId]);
    }
  }

  lemma AdoptExact(su: Setup, known: set<Cash>, s: State, b: Block)
    requires s.leadingBlock in s.validBlocks && LedgerExact(su, known, s) && LedgerFair(su, known, b)
    requires !s.Knows(b.Id()) && Sound(b)
    ensures LedgerExact(su, known, Adopt(s, b))
  {
    hide Ledger.Sound, Ledger.Fresh, OwnClaims;
  }

  lemma RejectExact(su: Setup, known: set<Cash>, s: State, id: BlockId)
    requires LedgerExact(su, known, s)
    ensures LedgerExact(su, known, Reject(s, id))
  {
    hide Reached;
  }

  lemma FairOrphan(su: Setup, known: set<Cash>, s: State, pending: set<BlockId>, b: Block)
    requires Inv(su, s, pending) && LedgerExact(su, known, s) && b.Id() in pending
    ensures LedgerFair(su, known, b)
  {
    assert b.Id() in s.unconfirmedBlocks;
  }

  /** An accepted fair block has a sound branch. */
  lemma VerdictIsSound(su: Setup, known: set<Cash>, s: State, b: Block)
    requires Judgeable(su, s, b) && LedgerExact(su, known, s) && LedgerFair(su, known, b)
    requires Verdict(su, s, b)
    ensures Sound(b)
  {
    hide HubState.CashMoved, HubState.IsTree, Rules.HeaderOk, HubState.LookupChain;
    InputsJudged(su, known, s, b);
    TreeNode(su, s, b.prevId);
    LookupInRange(su, s, s.validBlocks[b.prevId]);
  }

  lemma JudgeKeepsLedger(su: Setup, known: set<Cash>, s: State, pending: set<BlockId>, b: Block)
    requires Inv(su, s, pending) && LedgerExact(su, known, s) && b.Id() in pending && Judgeable(su, s, b)
    ensures LedgerExact(su, known, Judge(su, s, b))
  {
    hide LedgerExact, LedgerFair, HubState.Inv, HubState.Verdict, HubState.AtVerdict, HubState.Reject, HubState.Adopt;
    FairOrphan(su, known, s, pending, b);
    AtVerdictExact(su, known, s, b);
    AtVerdictInv(su, s, pending, b);
    InvLeader(su, AtVerdict(su, s, b), pending - {b.Id()});
    if Verdict(su, s, b) {
      VerdictIsSound(su, known, s, b);
      AdoptExact(su, known, AtVerdict(su, s, b), b);
    } else {
      RejectExact(su, known, AtVerdict(su, s, b), b.Id());
    }
  }

  // ---------- when the verdict is the one deserved ----------

  /** When all else is in order, the header decides: as it comes out on the block's own branch if
      and only if the lookup on the leader's chain does not matter. */
  lemma HeaderDecides(su: Setup, known: set<Cash>, s: State, b: Block)
    requires Judgeable(su, s, b) && (su.repairs.writeBack ==> LedgerExact(su, known, s))
    requires Spends(b) <= Utxo(s.validBlocks[b.prevId]) && RewardOk(su.config, b)
    ensures b.prevId == s.validBlocks[b.prevId].Id() && s.leadingBlock in s.validBlocks
    ensures var prev := s.validBlocks[b.prevId];
            prev.seqno < |LookupChain(su, s, prev)| && prev.seqno < |Branch(prev)| &&
            (Verdict(su, s, b) <==> HeaderOk(su.config, prev, b, LookupChain(su, s, prev))) &&
            ((Verdict(su, s, b) <==> HeaderOk(su.config, prev, b, Branch(prev))) <==> LeaderFair(su, s, b))
  {
    hide HubState.CashMoved, HubState.IsTree, Rules.HeaderOk, Types.Branch, LedgerExact, Utxo;
    var prev := s.validBlocks[b.prevId];
    TreeNode(su, s, b.prevId);
    TreeBranch(su, s, b.prevId);
    LeaderIsValid(su, s);
    LookupInRange(su, s, prev);
    CashCoversUtxo(su, known, s, prev);
  }

  lemma AcceptedBelow(su: Setup, s: State, b: Block)
    requires Judgeable(su, s, b) && Accepted(su.config, s.validBlocks[b.prevId])
    ensures b.prevId == s.validBlocks[b.prevId].Id()
    ensures var prev := s.validBlocks[b.prevId];
            prev.seqno < |Branch(prev)| &&
            (Accepted(su.config, b) <==>
              HeaderOk(su.config, prev, b, Branch(prev)) && Spends(b) <= Utxo(prev) && RewardOk(su.config, b))
  {
    hide HubState.IsTree, Rules.HeaderOk, Types.Branch;
    TreeNode(su, s, b.prevId);
    TreeBranch(su, s, b.prevId);
    GenesisHasNoParent(su.config);
  }

  /** On a sound ledger the verdict on a block that is fair to it is the one its branch deserves if
      and only if the lookup on the leader's chain does not matter to it. */
  lemma VerdictIsAcceptedIff(su: Setup, known: set<Cash>, s: State, b: Block)
    requires Judgeable(su, s, b) && LedgerExact(su, known, s) && LedgerFair(su, known, b)
    requires Accepted(su.config, s.validBlocks[b.prevId])
    ensures s.leadingBlock in s.validBlocks
    ensures (Verdict(su, s, b) <==> Accepted(su.config, b)) <==> LeaderFair(su, s, b)
  {
    hide HubState.CashMoved, HubState.IsTree, Rules.HeaderOk, Types.Branch, LedgerExact, LedgerFair, Accepted, Utxo;
    var prev := s.validBlocks[b.prevId];
    AcceptedBelow(su, s, b);
    LeaderIsValid(su, s);
    LookupInRange(su, s, prev);
    InputsJudged(su, known, s, b);
    if Spends(b) <= Utxo(prev) && RewardOk(su.config, b) {
      HeaderDecides(su, known, s, b);
    }
  }

  lemma AcceptedParent(su: Setup, s: State, b: Block)
    requires Judgeable(su, s, b) && Accepted(su.config, b)
    ensures Accepted(su.config, s.validBlocks[b.prevId])
  {
    hide HubState.IsTree;
    TreeNode(su, s, b.prevId);
    GenesisHasNoParent(su.config);
  }

  /** Whatever the ledger, as long as the cache, where it is written back, is exact: a block that
      deserves acceptance gets it if and only if the lookup does not matter to it. */
  lemma DeservedIsGivenIff(su: Setup, known: set<Cash>, s: State, b: Block)
    requires Judgeable(su, s, b) && (su.repairs.writeBack ==> LedgerExact(su, known, s))
    requires Accepted(su.config, b)
    ensures s.leadingBlock in s.validBlocks
    ensures Verdict(su, s, b) <==> LeaderFair(su, s, b)
  {
    hide HubState.CashMoved, HubState.IsTree, Rules.HeaderOk, Types.Branch, LedgerExact, Accepted, Utxo, LeaderFair;
    AcceptedParent(su, s, b);
    AcceptedBelow(su, s, b);
    HeaderDecides(su, known, s, b);
  }

  // ---------- drains ----------

  lemma {:induction false} DrainsKeepLedger(su: Setup, known: set<Cash>, s: State, pending: set<BlockId>,
                                            order: seq<Block>, t: State, left: set<BlockId>)
    requires Inv(su, s, pending) && LedgerExact(su, known, s) && Drains(su, s, pending, order, t, left)
    ensures LedgerExact(su, known, t)
    decreases |order|
  {
    hide LedgerExact, HubState.Inv, HubState.Judge, HubState.Verdict, HubState.Judgeable, HubState.PendingAfter;
    if order != [] {
      var b := order[0];
      JudgeInv(su, s, pending, b);
      JudgeKeepsLedger(su, known, s, pending, b);
      DrainsKeepLedger(su, known, Judge(su, s, b), PendingAfter(s, pending, b, Verdict(su, s, b)),
                       order[1..], t, left);
    }
  }

  lemma HeldKeepsLedger(su: Setup, known: set<Cash>, s: State, b: Block)
    requires LedgerExact(su, known, s) && LedgerFair(su, known, b)
    ensures LedgerExact(su, known, Held(s, b)) && LedgerExact(su, known, Park(s, b))
  {}
}
