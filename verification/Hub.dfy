/** The peer hub's state, updated in place.  Each method is proved to compute the
    corresponding step on the hub's abstract value. */
module Hub {
  import opened Types
  import opened Difficulty
  import opened Ledger
  import opened Rules
  import opened Transactions
  import opened HubState
  import opened Drain
  import opened Walks
  import opened Runs

  class PeerHub {
    const setup: Setup

    var cashBlockId: BlockId
    var cashSet: set<Cash>
    var mempool: map<TransactionId, Transaction>
    var validBlocks: map<BlockId, Block>
    var unconfirmedBlocks: map<BlockId, Block>
    var invalidBlocks: set<BlockId>
    var nextBlocks: map<BlockId, set<BlockId>>
    var leadingBlock: BlockId

    ghost function View(): State
      reads this
    {
      State(cashBlockId, cashSet, mempool, validBlocks, unconfirmedBlocks, invalidBlocks, nextBlocks, leadingBlock)
    }

    ghost predicate Valid(pending: set<BlockId>)
      reads this
    {
      Inv(setup, View(), pending)
    }

    constructor (setup: Setup)
      ensures this.setup == setup && View() == Initial(setup) && Valid({})
    {
      this.setup := setup;
      var genesis := setup.GenesisBlock();
      cashBlockId, cashSet := genesis.Id(), {};
      mempool := map[];
      validBlocks := map[genesis.Id() := genesis];
      unconfirmedBlocks, invalidBlocks, nextBlocks := map[], {}, map[];
      leadingBlock := genesis.Id();
      new;
      InitialInv(setup);
    }

    // ---------- walking the tree ----------

    /** The ids of a block and its ancestors, newest first; none for an unknown block. */
    method AncestorsId(blockId: BlockId) returns (ids: seq<BlockId>)
      requires ContentAddressed(validBlocks)
      ensures ids == Lineage(validBlocks, blockId)
    {
      ids := [];
      var currentId := blockId;
      while currentId in validBlocks
        invariant ids + Lineage(validBlocks, currentId) == Lineage(validBlocks, blockId)
        decreases currentId
      {
        ids := ids + [currentId];
        currentId := validBlocks[currentId].prevId;
      }
    }

    /** The chain from genesis to `tip`, written backwards into a buffer of uninitialised
        slots.  Every slot is written once, in bounds, and none is left unwritten. */
    method ChainEndingAt(tip: BlockId) returns (chain: seq<Block>)
      requires Tree(setup, View()) && tip in validBlocks
      ensures chain == Branch(validBlocks[tip])
    {
      hide HubState.Tree, Types.Branch, Types.OnBranch;
      ghost var s, top := View(), validBlocks[tip];
      TipOnBranch(s, tip);
      var blockId := tip;
      BranchSlot(setup, s, top, top);
      var slots := new Option<Block>[validBlocks[tip].seqno + 1](_ => None);
      while true
        invariant blockId.HashOf? && OnBranch(blockId.block, top)
        invariant blockId.block.seqno < slots.Length == |Branch(top)|
        invariant forall i :: 0 <= i <= blockId.block.seqno ==> slots[i] == None
        invariant forall i :: blockId.block.seqno < i < slots.Length ==> slots[i] == Some(Branch(top)[i])
        decreases blockId
      {
        BranchSlot(setup, s, top, blockId.block);
        var block := validBlocks[blockId];
        var prevBlockId := block.prevId;
        assert slots[block.seqno].None?;
        slots[block.seqno] := Some(block);
        if blockId == setup.GenesisId() {
          break;
        }
        blockId := prevBlockId;
      }
      assert forall i :: 0 <= i < slots.Length ==> slots[i] == Some(Branch(top)[i]);
      chain := seq(slots.Length, i requires 0 <= i < slots.Length && slots[i].Some? reads slots => slots[i].value);
    }

    lemma TipOnBranch(s: State, tip: BlockId)
      requires Tree(setup, s) && tip in s.validBlocks
      ensures OnBranch(s.validBlocks[tip], s.validBlocks[tip]) && s.validBlocks[tip].Id() == tip
    {}

    method ConfirmedChain() returns (chain: seq<Block>)
      requires Tree(setup, View())
      ensures chain == Branch(validBlocks[leadingBlock])
    {
      chain := ChainEndingAt(leadingBlock);
    }

    /** The block of the previous adjustment on the chain ending at `tip`, which is the leader
        in the code as written. */
    method PrevDifficultyAdjustedBlock(seqno: nat, tip: BlockId) returns (found: Option<Block>)
      requires Tree(setup, View()) && tip in validBlocks
      ensures found == AdjustmentBlock(setup.config, Branch(validBlocks[tip]), seqno)
    {
      var chain := ChainEndingAt(tip);
      var rewind := seqno % setup.config.difficultyAdjustmentPeriod;
      var rewindNumber := if rewind == 0 then setup.config.difficultyAdjustmentPeriod else rewind;
      var index := seqno - rewindNumber;
      if 0 <= index < |chain| {
        found := Some(chain[index]);
      } else {
        found := None;
      }
    }

    // ---------- the cached unspent set ----------

    method RemoveAll(coins: seq<Cash>)
      modifies this`cashSet
      ensures cashSet == old(cashSet) - Elems(coins)
    {
      for i := 0 to |coins|
        invariant cashSet == old(cashSet) - Elems(coins[..i])
      {
        cashSet := cashSet - {coins[i]};
        assert Elems(coins[..i + 1]) == Elems(coins[..i]) + {coins[i]};
      }
      assert coins[..|coins|] == coins;
    }

    method InsertAll(coins: seq<Cash>)
      modifies this`cashSet
      ensures cashSet == old(cashSet) + Elems(coins)
    {
      for i := 0 to |coins|
        invariant cashSet == old(cashSet) + Elems(coins[..i])
      {
        cashSet := cashSet + {coins[i]};
        assert Elems(coins[..i + 1]) == Elems(coins[..i]) + {coins[i]};
      }
      assert coins[..|coins|] == coins;
    }

    method ApplyOne(block: Block)
      modifies this`cashSet
      ensures cashSet == ApplyBlock(old(cashSet), block)
    {
      var txns := block.transactions;
      for i := 0 to |txns|
        invariant cashSet == ApplyTxns(old(cashSet), txns[..i])
      {
        RemoveAll(txns[i].inputs);
        InsertAll(txns[i].outputs);
        assert txns[..i + 1][..i] == txns[..i];
      }
      assert txns[..|txns|] == txns;
      cashSet := cashSet + {block.reward};
    }

    method UndoOne(block: Block)
      modifies this`cashSet
      ensures cashSet == UndoBlock(old(cashSet), block)
    {
      cashSet := cashSet - {block.reward};
      var txns := block.transactions;
      var i := |txns|;
      assert txns[..i] == txns;
      while i > 0
        invariant 0 <= i <= |txns|
        invariant UndoTxns(cashSet, txns[..i]) == UndoBlock(old(cashSet), block)
      {
        i := i - 1;
        RemoveAll(txns[i].outputs);
        InsertAll(txns[i].inputs);
        assert txns[..i + 1][..i] == txns[..i];
      }
    }

    /** The first listed id on the way down from the cached set's position. */
    method FindCommonAncestor(ancestors: seq<BlockId>) returns (common: Option<BlockId>)
      requires ContentAddressed(validBlocks)
      ensures common == FirstListed(validBlocks, ancestors, cashBlockId)
    {
      var currentId := cashBlockId;
      while currentId !in ancestors
        invariant FirstListed(validBlocks, ancestors, currentId) == FirstListed(validBlocks, ancestors, cashBlockId)
        decreases currentId
      {
        if currentId !in validBlocks {
          return None;
        }
        currentId := validBlocks[currentId].prevId;
      }
      common := Some(currentId);
    }

    method RewindCash(commonAncestor: BlockId, ghost ancestors: seq<BlockId>) returns (found: bool)
      requires ContentAddressed(validBlocks)
      requires FirstListed(validBlocks, ancestors, cashBlockId) == Some(commonAncestor)
      modifies this`cashSet
      ensures found && cashSet == Rewound(validBlocks, old(cashSet), cashBlockId, commonAncestor)
    {
      var currentId := cashBlockId;
      while currentId != commonAncestor
        invariant Rewound(validBlocks, cashSet, currentId, commonAncestor)
               == Rewound(validBlocks, old(cashSet), cashBlockId, commonAncestor)
        invariant FirstListed(validBlocks, ancestors, currentId) == Some(commonAncestor)
        decreases currentId
      {
        if currentId !in validBlocks {
          return false;
        }
        UndoOne(validBlocks[currentId]);
        currentId := validBlocks[currentId].prevId;
      }
      found := true;
    }

    method ReplayCash(ids: seq<BlockId>) returns (found: bool)
      modifies this`cashSet
      ensures found <==> AllIn(validBlocks, ids)
      ensures found ==> cashSet == Replay(old(cashSet), BlocksOf(validBlocks, ids))
      ensures !found && |ids| == 1 ==> cashSet == old(cashSet)
    {
      for i := 0 to |ids|
        invariant AllIn(validBlocks, ids[..i])
        invariant cashSet == Replay(old(cashSet), BlocksOf(validBlocks, ids[..i]))
        invariant i == 0 ==> cashSet == old(cashSet)
      {
        if ids[i] !in validBlocks {
          return false;
        }
        ApplyOne(validBlocks[ids[i]]);
        BlocksOfSnoc(validBlocks, ids, i);
        ReplaySnoc(old(cashSet), BlocksOf(validBlocks, ids[..i]), validBlocks[ids[i]]);
      }
      assert ids[..|ids|] == ids;
      found := true;
    }

    /** Moves the cached unspent set to a block, from wherever it stands.  The position is
        written back only under the repair. */
    method CashSetAt(blockId: BlockId) returns (found: bool)
      requires Tree(setup, View())
      modifies this`cashSet, this`cashBlockId
      ensures found <==> blockId in validBlocks
      ensures found ==> View() == MoveCashTo(setup, old(View()), validBlocks[blockId])
      ensures !found ==> cashBlockId == old(cashBlockId) && (blockId != ZERO_HASH ==> cashSet == old(cashSet))
    {
      hide HubState.IsTree;
      ghost var s := View();
      TreeContent(setup, s);
      var ancestors := AncestorsId(blockId);
      ancestors := Reverse(ancestors) + [blockId];
      if blockId in validBlocks {
        MoveFinds(setup, s, blockId);
      } else {
        MoveFails(setup, s, blockId);
      }
      var common := FindCommonAncestor(ancestors);
      if common.None? {
        return false;
      }
      var commonAncestor := common.value;
      FirstListedIn(validBlocks, ancestors, cashBlockId);
      found := RewindCash(commonAncestor, ancestors);
      var index := IndexOf(ancestors, commonAncestor);
      if blockId in validBlocks {
        MoveReplays(setup, s, blockId, index);
      } else {
        assert ancestors[index..] == [blockId];
      }
      found := ReplayCash(ancestors[index..]);
      if found && setup.repairs.writeBack {
        cashBlockId := blockId;
      }
    }

    // ---------- verdicts ----------

    /** Rejects a block with everything filed below it, on any index, cyclic ones included. */
    method AddInvalidBlock(blockId: BlockId)
      modifies this`invalidBlocks, this`nextBlocks
      ensures View() == Reject(old(View()), blockId)
      ensures forall c :: c in invalidBlocks <==> c in old(invalidBlocks) || Reaches(old(nextBlocks), blockId, c)
      ensures forall p :: p in nextBlocks <==> p in old(nextBlocks) && !Reaches(old(nextBlocks), blockId, p)
      ensures forall p :: p in nextBlocks ==> nextBlocks[p] == old(nextBlocks)[p]
      decreases nextBlocks.Keys
    {
      hide HubState.Reaches, HubState.Reached, HubState.IsCascade;
      ghost var next := nextBlocks;
      invalidBlocks := invalidBlocks + {blockId};
      var children := if blockId in nextBlocks then nextBlocks[blockId] else {};
      nextBlocks := nextBlocks - {blockId};
      ghost var gone := {blockId};
      CascadeStart(next, blockId);
      while children != {}
        invariant PartialCascade(next, blockId, gone, children)
        invariant nextBlocks == Pruned(next, gone)
        invariant invalidBlocks == old(invalidBlocks) + gone
        invariant children != {} ==> blockId in next
        decreases children
      {
        var c :| c in children;
        CascadeStep(next, blockId, gone, children, c);
        gone := gone + Reached(nextBlocks, c);
        AddInvalidBlock(c);
        children := children - {c};
      }
      CascadeDone(next, blockId, gone);
      RejectMeans(old(View()), blockId);
    }

    /** The checks on a block whose parent is valid.  The cached unspent set is moved to the
        parent once the header has passed. */
    method Examine(block: Block) returns (ok: bool)
      requires Judgeable(setup, View(), block)
      modifies this`cashSet, this`cashBlockId
      ensures ok <==> Verdict(setup, old(View()), block)
      ensures View() == if HeaderVerdict(setup, old(View()), block)
                        then MoveCashTo(setup, old(View()), old(validBlocks)[block.prevId]) else old(View())
    {
      hide HubState.IsTree, HubState.CashMoved, Types.Branch;
      var prevBlock := validBlocks[block.prevId];
      ghost var s := View();
      TreeNode(setup, s, block.prevId);
      LookupInRange(setup, s, prevBlock);
      if block.timestamp < prevBlock.timestamp {
        return false;
      }
      if block.seqno != prevBlock.seqno + 1 {
        return false;
      }
      var expectedDifficulty := prevBlock.difficulty;
      if block.seqno % setup.config.difficultyAdjustmentPeriod == 0 {
        TreeContent(setup, s);
        LeaderIsValid(setup, s);
        var tip := if setup.repairs.ownLookup then block.prevId else leadingBlock;
        var adjustment := PrevDifficultyAdjustedBlock(block.seqno, tip);
        AdjustmentFound(setup.config, LookupChain(setup, s, prevBlock), block.seqno);
        var timeSpanActual := TimeSpan(block.timestamp, adjustment.value.timestamp);
        expectedDifficulty := Adjust(setup.config, prevBlock.difficulty, timeSpanActual);
      }
      if block.difficulty != expectedDifficulty {
        return false;
      }
      var found := CashSetAt(block.prevId);
      if !found {
        return false;
      }
      var covered := ContainsInputs(block.transactions);
      if !covered {
        return false;
      }
      var expectedFees := Fees(block.transactions);
      var expectedReward := Wrap(expectedFees + Subsidy(setup.config, block.seqno));
      ok := block.reward.amount == expectedReward;
    }

    /** Whether every input of every transaction is in the cached unspent set. */
    method ContainsInputs(txns: seq<Transaction>) returns (all: bool)
      ensures all <==> InputsOf(txns) <= cashSet
    {
      for i := 0 to |txns|
        invariant InputsOf(txns[..i]) <= cashSet
      {
        assert txns[..i + 1][..i] == txns[..i];
        var inputs := txns[i].inputs;
        for j := 0 to |inputs|
          invariant Elems(inputs[..j]) <= cashSet
        {
          if inputs[j] !in cashSet {
            assert inputs[j] in Elems(inputs);
            InputsContain(txns, i, inputs[j]);
            return false;
          }
          assert Elems(inputs[..j + 1]) == Elems(inputs[..j]) + {inputs[j]};
        }
        assert inputs[..|inputs|] == inputs;
      }
      assert txns[..|txns|] == txns;
      all := true;
    }

    /** Enters an accepted block: collects its transactions from the mempool, makes it the
        leader if it is higher, and takes the blocks that waited for it out of the index. */
    method EnterBlock(block: Block) returns (waiting: set<BlockId>)
      requires leadingBlock in validBlocks && !View().Knows(block.Id())
      modifies this
      ensures View() == Adopt(old(View()), block) && waiting == old(View()).Waiting(block.Id())
    {
      mempool := Collected(mempool, block);
      var seqno, blockId := block.seqno, block.Id();
      validBlocks := validBlocks[blockId := block];
      if seqno > validBlocks[leadingBlock].seqno {
        leadingBlock := blockId;
      }
      waiting := if blockId in nextBlocks then nextBlocks[blockId] else {};
      nextBlocks := nextBlocks - {blockId};
    }

    /** Enters an accepted block, then judges every block that waited for it, recursively.
        Returns the ids of the newly valid blocks. */
    method AddValidBlock(block: Block, ghost pending: set<BlockId>)
        returns (validIds: seq<BlockId>, ghost order: seq<Block>)
      requires Valid(pending) && !View().Knows(block.Id())
      requires block.prevId in validBlocks && LocalOk(setup.config, validBlocks[block.prevId], block)
      modifies this
      ensures var adopted := Adopt(old(View()), block);
              Drains(setup, adopted, pending + old(View().Waiting(block.Id())), order, View(), pending) &&
              validIds == [block.Id()] + Adopted(setup, adopted, order)
      decreases unconfirmedBlocks.Keys, 0
    {
      hide HubState.Inv, HubState.Judge, HubState.Verdict, HubState.Judgeable, Rules.LocalOk, Progress, HubState.Adopt;
      ghost var before := View();
      InvLeader(setup, before, pending);
      ghost var adopted := Adopt(before, block);
      WaitingNotPending(setup, before, pending, block.Id());
      AdoptInv(setup, before, pending, block);
      AdoptKeepsPool(before, block);
      validIds := [block.Id()];
      var waiting := EnterBlock(block);
      order := [];
      ghost var all := pending + waiting;
      while waiting != {}
        invariant Inv(setup, View(), pending + waiting) && pending !! waiting
        invariant Drains(setup, adopted, all, order, View(), pending + waiting)
        invariant validIds == [block.Id()] + Adopted(setup, adopted, order)
        invariant unconfirmedBlocks.Keys <= old(unconfirmedBlocks.Keys)
        decreases waiting
      {
        hide Drain.Drains, Drain.Adopted;
        var nextBlockId :| nextBlockId in waiting;
        ghost var s, toJudge := View(), waiting;
        BeforeChild(setup, s, pending, waiting, nextBlockId);
        waiting := waiting - {nextBlockId};
        if nextBlockId in unconfirmedBlocks {
          var nextBlock := unconfirmedBlocks[nextBlockId];
          unconfirmedBlocks := unconfirmedBlocks - {nextBlockId};
          assert View() == Unparked(s, nextBlockId);
          var ids, more := ValidateBlock(nextBlock, pending + waiting);
          AfterChild(setup, adopted, all, order, s, pending + toJudge, more, View(), pending + waiting);
          validIds := validIds + ids;
          order := order + more;
        }
      }
      assert pending + {} == pending;
    }

    /** Judges a block whose parent is valid and drains the pool below it; parks a block
        whose parent is missing. */
    method ValidateBlock(block: Block, ghost pending: set<BlockId>)
        returns (ids: seq<BlockId>, ghost order: seq<Block>)
      requires Valid(pending) && !View().Knows(block.Id())
      modifies this
      ensures block.prevId !in old(validBlocks) ==> View() == Park(old(View()), block) && ids == [] && order == []
      ensures block.prevId in old(validBlocks) ==>
        var held := Held(old(View()), block);
        Drains(setup, held, pending + {block.Id()}, order, View(), pending) &&
        ids == Adopted(setup, held, order) && order != [] && order[0] == block
      decreases unconfirmedBlocks.Keys, 1
    {
      hide HubState.Tree, HubState.Pool, HubState.Judge, HubState.Verdict, HubState.HeaderVerdict, Rules.LocalOk;
      ghost var before := View();
      ids, order := [], [];
      if block.prevId in validBlocks {
        VerdictOnHeld(setup, before, pending, block);
        var ok := Examine(block);
        ghost var m := View();
        LeaderIsValid(setup, m);
        if !ok {
          AddInvalidBlock(block.Id());
          assert pending + {} == pending;
        } else {
          ids, order := AddValidBlock(block, pending);
        }
        DrainFromHeld(setup, before, pending, block, m, order, View());
        order := [block] + order;
      } else {
        var waiting := if block.prevId in nextBlocks then nextBlocks[block.prevId] else {};
        nextBlocks := nextBlocks[block.prevId := waiting + {block.Id()}];
        unconfirmedBlocks := unconfirmedBlocks[block.Id() := block];
      }
    }

    // ---------- the message handlers ----------

    /** The walk from a missing parent through the orphan pool. */
    method BlockRoot(blockId: BlockId) returns (root: BlockId)
      requires ContentAddressed(unconfirmedBlocks)
      ensures root == RootFound(setup, unconfirmedBlocks, blockId)
    {
      var currentId := blockId;
      while true
        invariant MissingRoot(setup, unconfirmedBlocks, currentId) == MissingRoot(setup, unconfirmedBlocks, blockId)
        decreases currentId
      {
        if currentId == setup.GenesisId() {
          return setup.GenesisId();
        }
        if currentId in unconfirmedBlocks {
          currentId := unconfirmedBlocks[currentId].prevId;
        } else {
          return if setup.repairs.deepRoot then currentId else blockId;
        }
      }
    }

    /** A block arrives from a peer, or from the local miner when `from` is None. */
    method ReceiveBlock(from: Option<NodeId>, block: Block, now: Timestamp)
        returns (sent: seq<Message>, ghost order: seq<Block>)
      requires Valid({})
      modifies this
      ensures Valid({}) && Received(setup, old(View()), block, now, order, View())
      ensures ContentAddressed(unconfirmedBlocks)
      ensures sent == Replies(setup, old(View()), from, block, now, order, View())
    {
      hide HubState.Inv, HubState.Reject, Drain.Drains, Drain.Adopted;
      ghost var s := View();
      sent, order := [], [];
      ghost var done := false;
      OrphansAddressed(setup, s, {});
      if block.Id() in invalidBlocks {
        return;
      }
      if block.Id() in validBlocks || block.Id() in unconfirmedBlocks {
        return;
      }
      if block.timestamp > now {
        AddInvalidBlock(block.Id());
        ReceivedKeeps(setup, s, block, now, order, View());
        OrphansAddressed(setup, View(), {});
        return;
      }
      var blockPrevId := block.prevId;
      var validIds;
      validIds, order := ValidateBlock(block, {});
      assert {} + {block.Id()} == {block.Id()};
      ReceivedKeeps(setup, s, block, now, order, View());
      OrphansAddressed(setup, View(), {});
      if validIds == [] {
        if block.Id() in unconfirmedBlocks {
          ParkedBecauseParentMissing(setup, s, block, order, View());
          var missingRoot := BlockRoot(blockPrevId);
          MissingRootIsMissing(setup, View(), blockPrevId);
          assert missingRoot != setup.GenesisId();
          if from.Some? {
            sent := [GetBlockRequest(from.value, missingRoot)];
          }
        }
      } else {
        for i := 0 to |validIds|
          invariant sent == Announcements(validIds[..i])
        {
          sent := sent + [Announce(validIds[i])];
        }
        assert validIds[..|validIds|] == validIds;
      }
    }

    /** Only valid blocks are handed out. */
    method GetBlock(blockId: BlockId) returns (response: Option<Block>)
      ensures response == if blockId in validBlocks then Some(validBlocks[blockId]) else None
    {
      response := if blockId in validBlocks then Some(validBlocks[blockId]) else None;
    }

    /** An announced block is requested from the announcer when it is unknown. */
    method AnnounceBlock(from: NodeId, blockId: BlockId) returns (sent: seq<Message>)
      ensures sent == if View().Knows(blockId) then [] else [GetBlockRequest(from, blockId)]
    {
      if blockId in validBlocks || blockId in unconfirmedBlocks || blockId in invalidBlocks {
        return [];
      }
      sent := [GetBlockRequest(from, blockId)];
    }

    /** The unspent set at the leader. */
    method LeadingCashSet() returns (cash: set<Cash>)
      requires Valid({})
      modifies this`cashSet, this`cashBlockId
      ensures Step(setup, old(View()), QueryLeadingCashSet, View()) && cash == cashSet
    {
      TreeNode(setup, View(), leadingBlock);
      var found := CashSetAt(leadingBlock);
      assert found;
      cash := cashSet;
    }

    method ReceiveTransaction(txn: Transaction)
      modifies this`mempool
      ensures Step(setup, old(View()), NewTransaction(txn), View())
    {
      if txn.Id() !in mempool {
        mempool := mempool[txn.Id() := txn];
      }
    }

    method TransactionDepth(id: TransactionId) returns (depth: Option<nat>)
      requires Tree(setup, View())
      ensures leadingBlock in validBlocks && IsDepth(Branch(validBlocks[leadingBlock]), id, depth)
    {
      LeaderIsValid(setup, View());
      var chain := ConfirmedChain();
      depth := DepthIn(chain, id);
      DepthCountsBack(chain, id);
    }
  }

  method IndexOf(ids: seq<BlockId>, id: BlockId) returns (index: nat)
    requires id in ids
    ensures index < |ids| && ids[index] == id && forall j :: 0 <= j < index ==> ids[j] != id
  {
    index := 0;
    while ids[index] != id
      invariant 0 <= index < |ids|
      invariant forall j :: 0 <= j < index ==> ids[j] != id
      decreases |ids| - index
    {
      index := index + 1;
    }
  }
}
