/** The walks the hub makes over its maps of blocks, following previous-block ids, and what
    they find when the maps form a tree. */
module Walks {
  import opened Types
  import opened Ledger
  import opened Rules
  import opened HubState

  function Ids(chain: seq<Block>): seq<BlockId> {
    seq(|chain|, i requires 0 <= i < |chain| => chain[i].Id())
  }

  function Reverse<T>(s: seq<T>): seq<T> {
    if s == [] then [] else Reverse(s[1..]) + [s[0]]
  }

  // ---------- ancestors ----------

  /** A valid id and those of its ancestors, newest first; nothing for an unknown id. */
  function Lineage(valid: Blocks, id: BlockId): seq<BlockId>
    requires ContentAddressed(valid)
    decreases id
  {
    if id in valid then [id] + Lineage(valid, valid[id].prevId) else []
  }

  lemma ReverseCons<T>(x: T, rest: seq<T>)
    ensures Reverse([x] + rest) == Reverse(rest) + [x]
  {
    assert ([x] + rest)[1..] == rest;
  }

  lemma IdsSnoc(chain: seq<Block>, b: Block)
    ensures Ids(chain + [b]) == Ids(chain) + [b.Id()]
  {}

  /** Reversed, the ancestors of a valid block are its branch. */
  lemma {:induction false} LineageIsBranch(su: Setup, s: State, b: Block)
    requires Tree(su, s) && b.Id() in s.validBlocks
    ensures ContentAddressed(s.validBlocks)
    ensures Reverse(Lineage(s.validBlocks, b.Id())) == Ids(Branch(b))
  {
    hide HubState.Tree, Ids, Reverse;
    TreeContent(su, s);
    TreeNode(su, s, b.Id());
    ReverseCons(b.Id(), Lineage(s.validBlocks, b.prevId));
    if b == su.GenesisBlock() {
      NoIds();
      IdsSnoc([], b);
      assert [] + [b] == [b];
    } else {
      LineageIsBranch(su, s, b.prevId.block);
      IdsSnoc(Branch(b.prevId.block), b);
    }
  }

  lemma NoIds()
    ensures Ids([]) == [] && Reverse<BlockId>([]) == []
  {}

  /** Where a valid ancestor of a valid block stands on its branch, and what comes before. */
  lemma BranchSlot(su: Setup, s: State, tip: Block, b: Block)
    requires Tree(su, s) && tip.Id() in s.validBlocks && OnBranch(b, tip)
    ensures b.Id() in s.validBlocks && s.validBlocks[b.Id()] == b
    ensures |Branch(tip)| == tip.seqno + 1 && b.seqno <= tip.seqno && Branch(tip)[b.seqno] == b
    ensures if b == su.GenesisBlock() then b.seqno == 0
            else b.prevId.HashOf? && b.seqno > 0 && OnBranch(b.prevId.block, tip) && b.prevId.block.seqno == b.seqno - 1
  {
    AncestorsValid(su, s, tip, b);
    RootedBranch(su.config, tip);
    var k :| 0 <= k < |Branch(tip)| && Branch(tip)[k] == b;
    if k > 0 {
      BranchAt(tip, k);
      assert b.seqno == k && Genesis(su.config).seqno == 0;
      assert Branch(tip)[k - 1] == b.prevId.block;
    }
  }

  // ---------- the common ancestor ----------

  /** The first listed id met when walking down from `from`; None when the walk leaves the
      map first. */
  function FirstListed(valid: Blocks, listed: seq<BlockId>, from: BlockId): Option<BlockId>
    requires ContentAddressed(valid)
    decreases from
  {
    if from in listed then Some(from)
    else if from !in valid then None
    else FirstListed(valid, listed, valid[from].prevId)
  }

  lemma IdsContain(chain: seq<Block>, tip: BlockId, b: Block)
    requires chain != [] && chain[|chain| - 1].Id() == tip
    ensures b.Id() in Ids(chain) + [tip] <==> b in chain
  {
    var ids := Ids(chain) + [tip];
    if b in chain {
      var i :| 0 <= i < |chain| && chain[i] == b;
      assert ids[i] == b.Id();
    }
    if b.Id() in ids {
      var i :| 0 <= i < |ids| && ids[i] == b.Id();
      assert b == chain[if i < |chain| then i else |chain| - 1];
    }
  }

  /** Walking from a valid block, the first listed ancestor of the target is the common
      ancestor. */
  lemma {:induction false} FirstListedIsCommon(su: Setup, s: State, from: Block, to: Block)
    requires Tree(su, s) && from.Id() in s.validBlocks && to.Id() in s.validBlocks
    ensures Branch(from)[0] == Branch(to)[0]
    ensures FirstListed(s.validBlocks, Ids(Branch(to)) + [to.Id()], from.Id())
            == Some(CommonAncestor(from, to).Id())
  {
    TreeBranch(su, s, from.Id());
    TreeBranch(su, s, to.Id());
    IdsContain(Branch(to), to.Id(), from);
    if !OnBranch(from, to) {
      FirstListedIsCommon(su, s, from.prevId.block, to);
    }
  }

  /** A walk meets only valid ids and, below genesis, the zero hash. */
  lemma {:induction false} UnknownNeverListed(su: Setup, s: State, id: BlockId, from: BlockId)
    requires Tree(su, s) && from in s.validBlocks && id !in s.validBlocks && id != ZERO_HASH
    ensures FirstListed(s.validBlocks, [id], from) == None
    decreases from
  {
    var prev := s.validBlocks[from].prevId;
    if prev in s.validBlocks {
      UnknownNeverListed(su, s, id, prev);
    } else {
      assert s.validBlocks[from] == Genesis(su.config);
    }
  }

  // ---------- rewinding ----------

  /** The cash left after undoing blocks from `from` down to, not including, `common`. */
  function Rewound(valid: Blocks, cash: set<Cash>, from: BlockId, common: BlockId): set<Cash>
    requires ContentAddressed(valid)
    decreases from
  {
    if from == common || from !in valid then cash
    else Rewound(valid, UndoBlock(cash, valid[from]), valid[from].prevId, common)
  }

  lemma {:induction false} RewoundIsRewindTo(su: Setup, s: State, cash: set<Cash>, from: Block, to: Block)
    requires Tree(su, s) && from.Id() in s.validBlocks && to.Id() in s.validBlocks
    ensures Branch(from)[0] == Branch(to)[0]
    ensures Rewound(s.validBlocks, cash, from.Id(), CommonAncestor(from, to).Id()) == RewindTo(cash, from, to)
    decreases from
  {
    TreeBranch(su, s, from.Id());
    TreeBranch(su, s, to.Id());
    if !OnBranch(from, to) {
      var prev := from.prevId.block;
      RewoundIsRewindTo(su, s, UndoBlock(cash, from), prev, to);
    }
  }

  // ---------- replaying ----------

  /** In the list of a block's branch, an ancestor's first place is where its own branch
      ends. */
  lemma PlaceOnBranch(a: Block, to: Block, index: nat)
    requires OnBranch(a, to)
    requires var ids := Ids(Branch(to)) + [to.Id()];
             index < |ids| && ids[index] == a.Id() && forall j :: 0 <= j < index ==> ids[j] != a.Id()
    ensures |Branch(a)| <= |Branch(to)| && index == |Branch(a)| - 1
  {
    hide Types.Branch, Types.OnBranch;
    BranchIsPrefix(a, to);
    var k := |Branch(a)| - 1;
    assert (Ids(Branch(to)) + [to.Id()])[k] == a.Id();
    BranchAt(to, index);
  }

  lemma IdsFrom(chain: seq<Block>, tip: Block, k: nat)
    requires k < |chain|
    ensures (Ids(chain) + [tip.Id()])[k..] == Ids(chain[k..] + [tip])
  {}

  /** So the list from there on names the blocks to replay, all of them valid. */
  lemma ReplayPosition(su: Setup, s: State, from: Block, to: Block, index: nat)
    requires Tree(su, s) && from.Id() in s.validBlocks && to.Id() in s.validBlocks
    requires Branch(from)[0] == Branch(to)[0]
    requires var ids := Ids(Branch(to)) + [to.Id()];
             var a := CommonAncestor(from, to).Id();
             index < |ids| && ids[index] == a && forall j :: 0 <= j < index ==> ids[j] != a
    ensures (Ids(Branch(to)) + [to.Id()])[index..] == Ids(ReplayList(from, to))
    ensures forall b :: b in ReplayList(from, to) ==> b.Id() in s.validBlocks
  {
    hide HubState.Tree, Types.Branch, Ids;
    var a := CommonAncestor(from, to);
    PlaceOnBranch(a, to, index);
    IdsFrom(Branch(to), to, index);
    forall b | b in ReplayList(from, to) ensures b.Id() in s.validBlocks {
      assert OnBranch(b, to);
      AncestorsValid(su, s, to, b);
    }
  }

  predicate AllIn(valid: Blocks, ids: seq<BlockId>) {
    forall i :: 0 <= i < |ids| ==> ids[i] in valid
  }

  function BlocksOf(valid: Blocks, ids: seq<BlockId>): seq<Block>
    requires AllIn(valid, ids)
  {
    seq(|ids|, i requires 0 <= i < |ids| => valid[ids[i]])
  }

  lemma BlocksOfSnoc(valid: Blocks, ids: seq<BlockId>, i: nat)
    requires i < |ids| && AllIn(valid, ids[..i]) && ids[i] in valid
    ensures AllIn(valid, ids[..i + 1])
    ensures BlocksOf(valid, ids[..i + 1]) == BlocksOf(valid, ids[..i]) + [valid[ids[i]]]
  {
    assert ids[..i + 1] == ids[..i] + [ids[i]];
  }

  /** For a known target, moving the cached set finds the common ancestor in the list of the
      target's ancestors. */
  lemma MoveFinds(su: Setup, s: State, blockId: BlockId)
    requires Tree(su, s) && blockId in s.validBlocks
    ensures s.validBlocks[blockId].Id() == blockId
    ensures FirstListed(s.validBlocks, Reverse(Lineage(s.validBlocks, blockId)) + [blockId], s.cashBlockId).Some?
  {
    LineageIsBranch(su, s, s.validBlocks[blockId]);
    FirstListedIsCommon(su, s, s.validBlocks[s.cashBlockId], s.validBlocks[blockId]);
  }

  /** Then rewinding to the common ancestor and replaying from it is one exact move. */
  lemma MoveReplays(su: Setup, s: State, blockId: BlockId, index: nat)
    requires Tree(su, s) && blockId in s.validBlocks
    requires var list := Reverse(Lineage(s.validBlocks, blockId)) + [blockId];
             var common := FirstListed(s.validBlocks, list, s.cashBlockId);
             common.Some? && index < |list| && list[index] == common.value &&
             forall j :: 0 <= j < index ==> list[j] != common.value
    ensures s.validBlocks[blockId].Id() == blockId
    ensures var list := Reverse(Lineage(s.validBlocks, blockId)) + [blockId];
            var rewound := Rewound(s.validBlocks, s.cashSet, s.cashBlockId, list[index]);
            AllIn(s.validBlocks, list[index..]) &&
            Replay(rewound, BlocksOf(s.validBlocks, list[index..])) == CashMoved(su, s, s.validBlocks[blockId])
  {
    var from, to := s.validBlocks[s.cashBlockId], s.validBlocks[blockId];
    var list := Reverse(Lineage(s.validBlocks, blockId)) + [blockId];
    LineageIsBranch(su, s, to);
    FirstListedIsCommon(su, s, from, to);
    RewoundIsRewindTo(su, s, s.cashSet, from, to);
    ReplayPosition(su, s, from, to, index);
    ReplayListBlocks(su, s, ReplayList(from, to));
    assert list[index..] == Ids(ReplayList(from, to));
  }

  lemma ReplayListBlocks(su: Setup, s: State, blocks: seq<Block>)
    requires Tree(su, s) && forall b :: b in blocks ==> b.Id() in s.validBlocks
    ensures AllIn(s.validBlocks, Ids(blocks)) && BlocksOf(s.validBlocks, Ids(blocks)) == blocks
  {}

  /** For an unknown target the walk finds nothing, or nothing that can be replayed. */
  lemma MoveFails(su: Setup, s: State, blockId: BlockId)
    requires Tree(su, s) && blockId !in s.validBlocks
    ensures Reverse(Lineage(s.validBlocks, blockId)) + [blockId] == [blockId]
    ensures blockId != ZERO_HASH ==> FirstListed(s.validBlocks, [blockId], s.cashBlockId) == None
  {
    if blockId != ZERO_HASH {
      UnknownNeverListed(su, s, blockId, s.cashBlockId);
    }
  }

  lemma {:induction false} FirstListedIn(valid: Blocks, listed: seq<BlockId>, from: BlockId)
    requires ContentAddressed(valid) && FirstListed(valid, listed, from).Some?
    ensures FirstListed(valid, listed, from).value in listed
    decreases from
  {
    if from !in listed {
      FirstListedIn(valid, listed, valid[from].prevId);
    }
  }

  // ---------- the missing root ----------

  /** The first ancestor that is not parked, or genesis. */
  function MissingRoot(su: Setup, orphans: Blocks, id: BlockId): BlockId
    requires ContentAddressed(orphans)
    decreases id
  {
    if id == su.GenesisId() || id !in orphans then id
    else MissingRoot(su, orphans, orphans[id].prevId)
  }

  /** What the code returns: the walk's end only when it is genesis, else its start.  Under
      the repair it returns the walk's end. */
  function RootFound(su: Setup, orphans: Blocks, id: BlockId): BlockId
    requires ContentAddressed(orphans)
  {
    var m := MissingRoot(su, orphans, id);
    if m == su.GenesisId() || su.repairs.deepRoot then m else id
  }

  /** On a drained pool the walk from a missing parent ends at an id that is neither valid
      nor parked, so never at genesis. */
  lemma {:induction false} MissingRootIsMissing(su: Setup, s: State, id: BlockId)
    requires Inv(su, s, {}) && id !in s.validBlocks
    ensures var m := MissingRoot(su, s.unconfirmedBlocks, id);
            m !in s.validBlocks && m !in s.unconfirmedBlocks && m != su.GenesisId()
    decreases id
  {
    if id in s.unconfirmedBlocks {
      DrainedPool(su, s, id);
      MissingRootIsMissing(su, s, s.unconfirmedBlocks[id].prevId);
    }
  }

  /** With nothing pending, no parked block has a valid parent. */
  lemma DrainedPool(su: Setup, s: State, id: BlockId)
    requires Inv(su, s, {}) && id in s.unconfirmedBlocks
    ensures s.unconfirmedBlocks[id].prevId !in s.validBlocks
  {
    assert FiledIn(s.nextBlocks, id) || CondemnedIn(s.invalidBlocks, id);
  }

  /** The repaired root is the only ancestor of the walk that is not parked: everything the
      walk passed is. */
  lemma {:induction false} MissingRootUnique(su: Setup, s: State, b: Block, m: Block)
    requires Inv(su, s, {}) && b.Id() !in s.validBlocks
    requires m.Id() == MissingRoot(su, s.unconfirmedBlocks, b.Id())
    ensures OnBranch(m, b)
    ensures forall a :: OnBranch(a, b) && |Branch(a)| > |Branch(m)| ==> a.Id() in s.unconfirmedBlocks
    decreases b
  {
    if b.Id() in s.unconfirmedBlocks {
      DrainedPool(su, s, b.Id());
      match b.prevId
      case HashOf(prev) =>
        MissingRootUnique(su, s, prev, m);
      case Raw(_) =>
    } else {
      forall a | OnBranch(a, b) ensures |Branch(a)| <= |Branch(b)| {
        BranchIsPrefix(a, b);
      }
    }
  }

  lemma OrphansAddressed(su: Setup, s: State, pending: set<BlockId>)
    requires Inv(su, s, pending)
    ensures ContentAddressed(s.unconfirmedBlocks)
  {}

  // ---------- transaction depth ----------

  predicate Carries(b: Block, id: TransactionId) {
    exists t :: t in b.transactions && t.Id() == id
  }

  /** The first block of a chain that carries a transaction. */
  function FirstCarrier(chain: seq<Block>, id: TransactionId): Option<nat> {
    if chain == [] then None
    else
      var n := |chain| - 1;
      var before := FirstCarrier(chain[..n], id);
      if before.Some? then before else if Carries(chain[n], id) then Some(n) else None
  }

  /** How many blocks follow the first one that carries the transaction. */
  function DepthIn(chain: seq<Block>, id: TransactionId): Option<nat> {
    var found := FirstCarrier(chain, id);
    FirstCarrierIsFirst(chain, id);
    if found.Some? then Some(|chain| - 1 - found.value) else None
  }

  lemma {:induction false} FirstCarrierIsFirst(chain: seq<Block>, id: TransactionId)
    ensures var found := FirstCarrier(chain, id);
            (found.None? ==> forall k :: 0 <= k < |chain| ==> !Carries(chain[k], id)) &&
            (found.Some? ==> found.value < |chain| && Carries(chain[found.value], id) &&
                             forall k :: 0 <= k < found.value ==> !Carries(chain[k], id))
  {
    if chain != [] {
      FirstCarrierIsFirst(chain[..|chain| - 1], id);
    }
  }

  /** Counted back from the tip: a depth of d means that the block d places below the tip holds the
      transaction and no block below that one does; no depth means that no block does. */
  predicate IsDepth(chain: seq<Block>, id: TransactionId, depth: Option<nat>) {
    match depth
    case Some(d) =>
      d < |chain| && HasTransaction(chain[|chain| - 1 - d], id) &&
      forall k :: 0 <= k < |chain| - 1 - d ==> !HasTransaction(chain[k], id)
    case None => forall k :: 0 <= k < |chain| ==> !HasTransaction(chain[k], id)
  }

  lemma DepthCountsBack(chain: seq<Block>, id: TransactionId)
    ensures IsDepth(chain, id, DepthIn(chain, id))
  {
    FirstCarrierIsFirst(chain, id);
    forall k | 0 <= k < |chain| ensures Carries(chain[k], id) <==> HasTransaction(chain[k], id) {
      CarriesMeans(chain[k], id);
    }
  }

  /** There is only one such answer. */
  lemma DepthUnique(chain: seq<Block>, id: TransactionId, a: Option<nat>, b: Option<nat>)
    requires IsDepth(chain, id, a) && IsDepth(chain, id, b)
    ensures a == b
  {}

  /** A block holds the transaction with this id. */
  predicate HasTransaction(b: Block, id: TransactionId) {
    id.transaction in b.transactions
  }

  lemma CarriesMeans(b: Block, id: TransactionId)
    ensures Carries(b, id) <==> HasTransaction(b, id)
  {
    if HasTransaction(b, id) {
      assert id.transaction.Id() == id;
    }
  }

  /** When the leading chain changes but keeps the part that carries a transaction, its depth
      changes by exactly the change in length. */
  lemma DepthFollowsLength(chain: seq<Block>, other: seq<Block>, keep: nat, id: TransactionId)
    requires keep <= |chain| && keep <= |other| && chain[..keep] == other[..keep]
    requires exists k :: 0 <= k < keep && Carries(chain[k], id)
    ensures DepthIn(chain, id).Some? && DepthIn(other, id).Some?
    ensures DepthIn(other, id).value - DepthIn(chain, id).value == |other| - |chain|
  {
    FirstCarrierIsFirst(chain, id);
    FirstCarrierIsFirst(other, id);
    var k :| 0 <= k < keep && Carries(chain[k], id);
    assert forall i :: 0 <= i < keep ==> chain[i] == chain[..keep][i] == other[..keep][i] == other[i];
  }
}
