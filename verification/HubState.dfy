/** The hub's block tree and ledger as a value, and its elementary steps: judging a block
    against its parent, adopting it, rejecting it with its descendants, parking it as an
    orphan, and draining the orphan pool. */
module HubState {
  import opened Types
  import opened Ledger
  import opened Rules

  /** Named repairs of the code.  `Repairs(false, false, false)` is the code as written.
      - ownLookup: the adjustment block is looked up on the judged block's own branch;
      - writeBack: the cached unspent set records the block it was moved to;
      - deepRoot: an orphan's missing root is the first ancestor that is not parked. */
  datatype Repairs = Repairs(ownLookup: bool, writeBack: bool, deepRoot: bool)

  datatype Setup = Setup(config: Config, repairs: Repairs) {
    function GenesisBlock(): Block { Genesis(config) }
    function GenesisId(): BlockId { Genesis(config).Id() }
  }

  datatype State = State(
    cashBlockId: BlockId,
    cashSet: set<Cash>,
    mempool: map<TransactionId, Transaction>,
    validBlocks: map<BlockId, Block>,
    unconfirmedBlocks: map<BlockId, Block>,
    invalidBlocks: set<BlockId>,
    nextBlocks: map<BlockId, set<BlockId>>,
    leadingBlock: BlockId)
  {
    predicate Knows(id: BlockId) {
      id in validBlocks || id in unconfirmedBlocks || id in invalidBlocks
    }

    /** The parked blocks filed under a missing parent. */
    function Waiting(id: BlockId): set<BlockId> {
      if id in nextBlocks then nextBlocks[id] else {}
    }
  }

  function Initial(su: Setup): State {
    var g := su.GenesisBlock();
    State(g.Id(), {}, map[], map[g.Id() := g], map[], {}, map[], g.Id())
  }

  // ---------- the invariant ----------

  type Blocks = map<BlockId, Block>
  type Index = map<BlockId, set<BlockId>>

  /** Every block is stored under its own hash. */
  predicate ContentAddressed(blocks: Blocks) {
    forall id :: id in blocks ==> id.HashOf? && id.block == blocks[id]
  }

  /** The valid blocks form a tree rooted at genesis, every link of it passed the local
      rules, and the leader is as high as any block in it. */
  ghost predicate IsTree(config: Config, valid: Blocks, leader: BlockId) {
    && ContentAddressed(valid)
    && Genesis(config).Id() in valid
    && (forall id :: id in valid ==>
         Rooted(config, valid[id]) && (id == Genesis(config).Id() || valid[id].prevId in valid))
    && leader in valid
    && (forall id :: id in valid ==> valid[id].seqno <= valid[leader].seqno)
  }

  predicate ChildOf(c: BlockId, p: BlockId) {
    c.HashOf? && c.block.prevId == p
  }

  predicate FiledIn(next: Index, c: BlockId) {
    c.HashOf? && c.block.prevId in next && c in next[c.block.prevId]
  }

  predicate CondemnedIn(invalid: set<BlockId>, c: BlockId) {
    c.HashOf? && c in invalid && c.block.prevId in invalid
  }

  predicate ParentIn(valid: Blocks, c: BlockId) {
    c.HashOf? && c.block.prevId in valid
  }

  /** The orphan pool.  `pending` are the orphans whose parent has become valid and that are
      about to be judged; when it is empty, no orphan has a valid parent. */
  ghost predicate IsPool(valid: Blocks, orphans: Blocks, invalid: set<BlockId>, next: Index, pending: set<BlockId>) {
    && ContentAddressed(orphans)
    && (forall id :: id in orphans ==> id !in valid)
    && (forall id :: id in invalid ==> id !in valid)
    && (forall p :: p in next ==> p !in valid)
    && (forall p, c :: p in next && c in next[p] ==> c in orphans && ChildOf(c, p) && c !in invalid)
    && (forall c :: c in pending ==> c in orphans && ParentIn(valid, c) && c !in invalid)
    && (forall c :: c in orphans && c !in pending ==> FiledIn(next, c) || CondemnedIn(invalid, c))
  }

  ghost predicate Tree(su: Setup, s: State) {
    && IsTree(su.config, s.validBlocks, s.leadingBlock)
    && s.cashBlockId in s.validBlocks
    && (!su.repairs.writeBack ==> s.cashBlockId == su.GenesisId())
  }

  ghost predicate Pool(s: State, pending: set<BlockId>) {
    IsPool(s.validBlocks, s.unconfirmedBlocks, s.invalidBlocks, s.nextBlocks, pending)
  }

  ghost predicate Inv(su: Setup, s: State, pending: set<BlockId>) {
    Tree(su, s) && Pool(s, pending)
  }

  lemma InitialInv(su: Setup)
    ensures Inv(su, Initial(su), {})
  {}

  lemma LeaderIsValid(su: Setup, s: State)
    requires Tree(su, s)
    ensures s.leadingBlock in s.validBlocks
  {}

  lemma InvLeader(su: Setup, s: State, pending: set<BlockId>)
    requires Inv(su, s, pending)
    ensures s.leadingBlock in s.validBlocks
  {}

  lemma TreeContent(su: Setup, s: State)
    requires Tree(su, s)
    ensures ContentAddressed(s.validBlocks) && s.cashBlockId in s.validBlocks
  {}

  /** What the tree says of one valid block. */
  lemma TreeNode(su: Setup, s: State, id: BlockId)
    requires Tree(su, s) && id in s.validBlocks
    ensures id == s.validBlocks[id].Id()
    ensures s.validBlocks[id] != su.GenesisBlock() ==>
              s.validBlocks[id].prevId in s.validBlocks &&
              s.validBlocks[id].prevId == s.validBlocks[s.validBlocks[id].prevId].Id()
    ensures s.validBlocks[id] == su.GenesisBlock() ==> s.validBlocks[id].prevId !in s.validBlocks
  {}

  lemma TreeBranch(su: Setup, s: State, id: BlockId)
    requires Tree(su, s) && id in s.validBlocks
    ensures id.HashOf? && s.validBlocks[id] == id.block
    ensures |Branch(id.block)| == id.block.seqno + 1 && Branch(id.block)[0] == su.GenesisBlock()
  {
    RootedBranch(su.config, id.block);
  }

  /** All ancestors of a valid block are valid. */
  lemma {:induction false} AncestorsValid(su: Setup, s: State, b: Block, a: Block)
    requires Tree(su, s) && b.Id() in s.validBlocks && OnBranch(a, b)
    ensures a.Id() in s.validBlocks
  {
    if a != b {
      AncestorsValid(su, s, b.prevId.block, a);
    }
  }

  // ---------- rejecting: everything filed below goes too ----------

  /** A walk through the orphan index, from parents to the blocks filed under them. */
  ghost predicate Walk(next: Index, path: seq<BlockId>) {
    path != [] &&
    forall i :: 0 <= i < |path| - 1 ==> path[i] in next && path[i + 1] in next[path[i]]
  }

  ghost predicate Reaches(next: Index, from: BlockId, to: BlockId) {
    exists path :: Walk(next, path) && path[0] == from && path[|path| - 1] == to
  }

  function FiledIds(next: Index): set<BlockId> {
    set p, c | p in next && c in next[p] :: c
  }

  /** The ids reachable through the orphan index. */
  ghost function Reached(next: Index, from: BlockId): set<BlockId> {
    set c | c in {from} + FiledIds(next) && Reaches(next, from, c)
  }

  ghost predicate Closed(next: Index, ids: set<BlockId>) {
    forall p, c :: p in ids && p in next && c in next[p] ==> c in ids
  }

  /** `ids` is the least set that holds `from` and is closed under the orphan index. */
  ghost predicate IsCascade(next: Index, from: BlockId, ids: set<BlockId>) {
    from in ids && Closed(next, ids) &&
    forall other: set<BlockId> :: from in other && Closed(next, other) ==> ids <= other
  }

  lemma ReachesStep(next: Index, from: BlockId, p: BlockId, c: BlockId)
    requires Reaches(next, from, p) && p in next && c in next[p]
    ensures Reaches(next, from, c)
  {
    var path :| Walk(next, path) && path[0] == from && path[|path| - 1] == p;
    var longer := path + [c];
    assert Walk(next, longer) by {
      forall i | 0 <= i < |longer| - 1 ensures longer[i] in next && longer[i + 1] in next[longer[i]] {
        if i < |path| - 1 {
          assert path[i] in next;
        }
      }
    }
    assert longer[0] == from && longer[|longer| - 1] == c;
  }

  lemma {:induction false} WalkStaysIn(next: Index, path: seq<BlockId>, ids: set<BlockId>)
    requires Walk(next, path) && path[0] in ids && Closed(next, ids)
    ensures path[|path| - 1] in ids
  {
    var n := |path| - 1;
    if n > 0 {
      var shorter := path[..n];
      assert forall i :: 0 <= i < n - 1 ==> path[i] in next && path[i + 1] in next[path[i]];
      assert Walk(next, shorter);
      WalkStaysIn(next, shorter, ids);
      assert path[n - 1] in next && path[n] in next[path[n - 1]];
    }
  }

  /** What is reachable through the index is exactly the least closed set, on any index. */
  lemma ReachedIsCascade(next: Index, from: BlockId)
    ensures IsCascade(next, from, Reached(next, from))
    ensures forall c :: c in Reached(next, from) <==> Reaches(next, from, c)
  {
    var ids := Reached(next, from);
    assert Reaches(next, from, from) by {
      assert Walk(next, [from]);
    }
    forall c | Reaches(next, from, c) ensures c in {from} + FiledIds(next) {
      var path :| Walk(next, path) && path[0] == from && path[|path| - 1] == c;
      if |path| > 1 {
        assert path[|path| - 2] in next;
      }
    }
    forall p, c | p in ids && p in next && c in next[p] ensures c in ids {
      ReachesStep(next, from, p, c);
    }
    forall other: set<BlockId> | from in other && Closed(next, other) ensures ids <= other {
      forall c | c in ids ensures c in other {
        var path :| Walk(next, path) && path[0] == from && path[|path| - 1] == c;
        WalkStaysIn(next, path, other);
      }
    }
  }

  lemma ReachedClosed(next: Index, from: BlockId)
    ensures from in Reached(next, from) && Closed(next, Reached(next, from))
  {
    ReachedIsCascade(next, from);
  }

  lemma CascadeUnique(next: Index, from: BlockId, ids: set<BlockId>)
    requires IsCascade(next, from, ids)
    ensures ids == Reached(next, from)
  {
    ReachedIsCascade(next, from);
  }

  /** Everything reached but the start is filed under something reached. */
  lemma ReachedParents(next: Index, from: BlockId, c: BlockId)
    requires c in Reached(next, from) && c != from
    ensures exists p :: p in Reached(next, from) && p in next && c in next[p]
  {
    ReachedIsCascade(next, from);
    var path :| Walk(next, path) && path[0] == from && path[|path| - 1] == c;
    var n := |path| - 1;
    var p := path[n - 1];
    assert p in next && c in next[p];
    assert Walk(next, path[..n]) by {
      assert forall i :: 0 <= i < n - 1 ==> path[i] in next && path[i + 1] in next[path[i]];
    }
    assert path[..n][0] == from && path[..n][n - 1] == p;
    assert Reaches(next, from, p);
  }

  function Pruned(next: Index, gone: set<BlockId>): Index {
    map p | p in next && p !in gone :: next[p]
  }

  ghost function Reject(s: State, id: BlockId): State {
    var gone := Reached(s.nextBlocks, id);
    s.(invalidBlocks := s.invalidBlocks + gone, nextBlocks := Pruned(s.nextBlocks, gone))
  }

  /** What a rejection does, by reachability alone: exactly what can be reached through the index from
      the rejected id is condemned, and exactly its entries leave the index. */
  lemma RejectMeans(s: State, id: BlockId)
    ensures forall c :: c in Reject(s, id).invalidBlocks <==> c in s.invalidBlocks || Reaches(s.nextBlocks, id, c)
    ensures forall p :: p in Reject(s, id).nextBlocks <==> p in s.nextBlocks && !Reaches(s.nextBlocks, id, p)
    ensures forall p :: p in Reject(s, id).nextBlocks ==> Reject(s, id).nextBlocks[p] == s.nextBlocks[p]
  {
    ReachedIsCascade(s.nextBlocks, id);
  }

  /** What a rejection condemns: the start, and orphans filed under something condemned. */
  lemma ReachedOrphans(orphans: Blocks, next: Index, id: BlockId)
    requires forall p, c :: p in next && c in next[p] ==> c in orphans && ChildOf(c, p)
    ensures var gone := Reached(next, id);
            id in gone && Closed(next, gone) &&
            forall c :: c in gone && c != id ==> c in orphans && FiledIn(next, c) && c.block.prevId in gone
  {
    ReachedClosed(next, id);
    hide Closed, Reached;
    forall c | c in Reached(next, id) && c != id
      ensures c in orphans && FiledIn(next, c) && c.block.prevId in Reached(next, id)
    {
      ReachedParents(next, id, c);
    }
  }

  lemma PrunedPool(valid: Blocks, orphans: Blocks, invalid: set<BlockId>, next: Index, pending: set<BlockId>,
                   id: BlockId, gone: set<BlockId>)
    requires IsPool(valid, orphans, invalid, next, pending) && id !in valid && id !in orphans
    requires id in gone && Closed(next, gone)
    requires forall c :: c in gone && c != id ==> c in orphans && FiledIn(next, c) && c.block.prevId in gone
    ensures IsPool(valid, orphans, invalid + gone, Pruned(next, gone), pending)
  {
    forall c | c in orphans && c !in pending
      ensures FiledIn(Pruned(next, gone), c) || CondemnedIn(invalid + gone, c)
    {
      assert FiledIn(next, c) || CondemnedIn(invalid, c);
    }
    forall c | c in pending ensures c !in gone {
      assert ParentIn(valid, c);
    }
    forall p, c | p in Pruned(next, gone) && c in next[p] ensures c !in gone {
      assert ChildOf(c, p);
    }
  }

  lemma RejectPool(s: State, pending: set<BlockId>, id: BlockId)
    requires Pool(s, pending) && id !in s.validBlocks && id !in s.unconfirmedBlocks
    ensures Pool(Reject(s, id), pending)
  {
    ReachedOrphans(s.unconfirmedBlocks, s.nextBlocks, id);
    PrunedPool(s.validBlocks, s.unconfirmedBlocks, s.invalidBlocks, s.nextBlocks, pending,
               id, Reached(s.nextBlocks, id));
  }

  // ---------- computing the cascade one branch at a time ----------

  /** `gone` has been collected below `id` except below the `todo` children of `id`. */
  ghost predicate PartialCascade(next: Index, id: BlockId, gone: set<BlockId>, todo: set<BlockId>) {
    && id in gone
    && (forall p, c :: p in gone && p != id && p in next && c in next[p] ==> c in gone)
    && (id in next ==> next[id] <= gone + todo)
    && (forall other: set<BlockId> :: id in other && Closed(next, other) ==> gone + todo <= other)
  }

  lemma CascadeStart(next: Index, id: BlockId)
    ensures PartialCascade(next, id, {id}, if id in next then next[id] else {})
    ensures next - {id} == Pruned(next, {id})
  {}

  /** Collecting below one more child, in the index without what is already gone. */
  lemma CascadeStep(next: Index, id: BlockId, gone: set<BlockId>, todo: set<BlockId>, c: BlockId)
    requires PartialCascade(next, id, gone, todo) && c in todo
    ensures var more := Reached(Pruned(next, gone), c);
            PartialCascade(next, id, gone + more, todo - {c}) &&
            Pruned(Pruned(next, gone), more) == Pruned(next, gone + more)
  {
    var rest := Pruned(next, gone);
    var more := Reached(rest, c);
    ReachedIsCascade(rest, c);
    forall other: set<BlockId> | id in other && Closed(next, other) ensures gone + more + (todo - {c}) <= other {
      assert Closed(rest, other);
    }
    forall p, x | p in gone + more && p != id && p in next && x in next[p] ensures x in gone + more {
      if p !in gone {
        assert p in rest && rest[p] == next[p];
      }
    }
  }

  lemma CascadeDone(next: Index, id: BlockId, gone: set<BlockId>)
    requires PartialCascade(next, id, gone, {})
    ensures gone == Reached(next, id)
  {
    assert gone + {} == gone;
    CascadeUnique(next, id, gone);
  }

  lemma RejectInv(su: Setup, s: State, pending: set<BlockId>, id: BlockId)
    requires Inv(su, s, pending) && id !in s.validBlocks && id !in s.unconfirmedBlocks
    ensures Inv(su, Reject(s, id), pending)
  {
    RejectPool(s, pending, id);
  }

  // ---------- judging, adopting, parking ----------

  /** The chain in which the validator looks up the previous adjustment. */
  function LookupChain(su: Setup, s: State, prev: Block): seq<Block>
    requires s.leadingBlock in s.validBlocks
  {
    Branch(if su.repairs.ownLookup then prev else s.validBlocks[s.leadingBlock])
  }

  /** The chain of the lookup is long enough, because no valid block is higher than the
      leader. */
  lemma LookupInRange(su: Setup, s: State, prev: Block)
    requires Tree(su, s) && prev.Id() in s.validBlocks
    ensures prev.seqno < |LookupChain(su, s, prev)|
  {
    TreeBranch(su, s, prev.Id());
    TreeBranch(su, s, s.leadingBlock);
  }

  /** The cached unspent set once it has been moved to `at`. */
  ghost function CashMoved(su: Setup, s: State, at: Block): set<Cash>
    requires Tree(su, s) && at.Id() in s.validBlocks
  {
    TreeBranch(su, s, at.Id());
    TreeBranch(su, s, s.cashBlockId);
    MoveCash(s.cashSet, s.cashBlockId.block, at)
  }

  ghost function MoveCashTo(su: Setup, s: State, at: Block): State
    requires Tree(su, s) && at.Id() in s.validBlocks
  {
    s.(cashSet := CashMoved(su, s, at), cashBlockId := if su.repairs.writeBack then at.Id() else s.cashBlockId)
  }

  ghost predicate Judgeable(su: Setup, s: State, b: Block) {
    Tree(su, s) && b.prevId in s.validBlocks
  }

  ghost predicate HeaderVerdict(su: Setup, s: State, b: Block)
    requires Judgeable(su, s, b)
  {
    var prev := s.validBlocks[b.prevId];
    LookupInRange(su, s, prev);
    HeaderOk(su.config, prev, b, LookupChain(su, s, prev))
  }

  /** Whether the validator accepts `b` in state `s`. */
  ghost predicate Verdict(su: Setup, s: State, b: Block)
    requires Judgeable(su, s, b)
  {
    var prev := s.validBlocks[b.prevId];
    LookupInRange(su, s, prev);
    Checks(su.config, prev, b, LookupChain(su, s, prev), CashMoved(su, s, prev))
  }

  function Collected(mempool: map<TransactionId, Transaction>, b: Block): map<TransactionId, Transaction> {
    map id | id in mempool && (forall t :: t in b.transactions ==> t.Id() != id) :: mempool[id]
  }

  /** Enters an accepted block: the blocks filed under it leave the index. */
  function Adopt(s: State, b: Block): State
    requires s.leadingBlock in s.validBlocks
  {
    s.(mempool := Collected(s.mempool, b),
       validBlocks := s.validBlocks[b.Id() := b],
       leadingBlock := if b.seqno > s.validBlocks[s.leadingBlock].seqno then b.Id() else s.leadingBlock,
       nextBlocks := Pruned(s.nextBlocks, {b.Id()}))
  }

  /** A block taken out of the pool. */
  function Unparked(s: State, id: BlockId): State {
    s.(unconfirmedBlocks := s.unconfirmedBlocks - {id})
  }

  function Held(s: State, b: Block): State {
    s.(unconfirmedBlocks := s.unconfirmedBlocks[b.Id() := b])
  }

  /** Parks a block whose parent is missing. */
  function Park(s: State, b: Block): State {
    Held(s, b).(nextBlocks := s.nextBlocks[b.prevId := s.Waiting(b.prevId) + {b.Id()}])
  }

  /** The state when the verdict falls: the block is out of the pool and the unspent set has
      been moved if the header passed. */
  ghost function AtVerdict(su: Setup, s: State, b: Block): State
    requires Judgeable(su, s, b)
  {
    var s1 := Unparked(s, b.Id());
    if HeaderVerdict(su, s, b) then MoveCashTo(su, s1, s.validBlocks[b.prevId]) else s1
  }

  ghost function Outcome(s: State, b: Block, accepted: bool): State
    requires s.leadingBlock in s.validBlocks
  {
    if accepted then Adopt(s, b) else Reject(s, b.Id())
  }

  /** One judgement: the block leaves the pool, the unspent set is moved when the header
      passes, and the block is adopted or rejected. */
  ghost function Judge(su: Setup, s: State, b: Block): State
    requires Judgeable(su, s, b)
  {
    Outcome(AtVerdict(su, s, b), b, Verdict(su, s, b))
  }

  /** The orphans awaiting judgement after one judgement: those filed under an adopted
      block join. */
  function PendingAfter(s: State, pending: set<BlockId>, b: Block, accepted: bool): set<BlockId> {
    pending - {b.Id()} + if accepted then s.Waiting(b.Id()) else {}
  }

  lemma ParkInv(su: Setup, s: State, pending: set<BlockId>, b: Block)
    requires Inv(su, s, pending) && !s.Knows(b.Id()) && b.prevId !in s.validBlocks
    ensures Inv(su, Park(s, b), pending)
  {
    ParkPool(s, pending, b);
  }

  lemma UnparkPool(s: State, pending: set<BlockId>, id: BlockId)
    requires Pool(s, pending) && id in pending
    ensures Pool(Unparked(s, id), pending - {id})
    ensures !Unparked(s, id).Knows(id)
  {
    var t := Unparked(s, id);
    assert ParentIn(s.validBlocks, id);
    forall p, c | p in t.nextBlocks && c in t.nextBlocks[p] ensures c != id {
      assert ChildOf(c, p);
    }
    forall c | c in t.unconfirmedBlocks && c !in pending - {id}
      ensures FiledIn(t.nextBlocks, c) || CondemnedIn(t.invalidBlocks, c)
    {
      assert c !in pending;
    }
  }

  lemma AdoptKeepsPool(s: State, b: Block)
    requires s.leadingBlock in s.validBlocks
    ensures Adopt(s, b).unconfirmedBlocks == s.unconfirmedBlocks
  {}

  lemma AdoptTree(su: Setup, s: State, b: Block)
    requires Tree(su, s) && b.prevId in s.validBlocks && LocalOk(su.config, s.validBlocks[b.prevId], b)
    ensures Tree(su, Adopt(s, b))
  {
    assert Rooted(su.config, b);
  }

  lemma AdoptPool(s: State, pending: set<BlockId>, b: Block)
    requires s.leadingBlock in s.validBlocks
    requires Pool(s, pending) && !s.Knows(b.Id())
    ensures Pool(Adopt(s, b), pending + s.Waiting(b.Id()))
  {
    var t, after := Adopt(s, b), pending + s.Waiting(b.Id());
    forall c | c in t.unconfirmedBlocks && c !in after
      ensures FiledIn(t.nextBlocks, c) || CondemnedIn(t.invalidBlocks, c)
    {
      assert FiledIn(s.nextBlocks, c) || CondemnedIn(s.invalidBlocks, c);
    }
    forall c | c in after ensures c in t.unconfirmedBlocks && ParentIn(t.validBlocks, c) && c !in t.invalidBlocks {
      if c in s.Waiting(b.Id()) {
        assert ChildOf(c, b.Id());
      } else {
        assert ParentIn(s.validBlocks, c);
      }
    }
  }

  lemma AdoptInv(su: Setup, s: State, pending: set<BlockId>, b: Block)
    requires Inv(su, s, pending) && !s.Knows(b.Id())
    requires b.prevId in s.validBlocks && LocalOk(su.config, s.validBlocks[b.prevId], b)
    ensures s.leadingBlock in s.validBlocks
    ensures Inv(su, Adopt(s, b), pending + s.Waiting(b.Id()))
  {
    AdoptTree(su, s, b);
    AdoptPool(s, pending, b);
  }

  lemma ParkPool(s: State, pending: set<BlockId>, b: Block)
    requires Pool(s, pending) && !s.Knows(b.Id()) && b.prevId !in s.validBlocks
    ensures Pool(Park(s, b), pending)
  {
    var t := Park(s, b);
    forall c | c in t.unconfirmedBlocks && c !in pending
      ensures FiledIn(t.nextBlocks, c) || CondemnedIn(t.invalidBlocks, c)
    {
      if c != b.Id() {
        assert FiledIn(s.nextBlocks, c) || CondemnedIn(s.invalidBlocks, c);
      }
    }
    forall p, c | p in t.nextBlocks && c in t.nextBlocks[p]
      ensures c in t.unconfirmedBlocks && ChildOf(c, p) && c !in t.invalidBlocks
    {
      if c != b.Id() {
        assert p in s.nextBlocks && c in s.nextBlocks[p];
      }
    }
  }

  lemma MoveCashInv(su: Setup, s: State, pending: set<BlockId>, at: Block)
    requires Inv(su, s, pending) && at.Id() in s.validBlocks
    ensures Inv(su, MoveCashTo(su, s, at), pending)
  {}

  lemma AtVerdictFrame(su: Setup, s: State, b: Block)
    requires Judgeable(su, s, b)
    ensures var t := AtVerdict(su, s, b);
            t == Unparked(s, b.Id()).(cashSet := t.cashSet, cashBlockId := t.cashBlockId)
    ensures AtVerdict(su, s, b).cashBlockId == s.cashBlockId ||
            (su.repairs.writeBack && AtVerdict(su, s, b).cashBlockId in s.validBlocks)
  {}

  lemma AtVerdictInv(su: Setup, s: State, pending: set<BlockId>, b: Block)
    requires Inv(su, s, pending) && b.Id() in pending && Judgeable(su, s, b)
    ensures Inv(su, AtVerdict(su, s, b), pending - {b.Id()})
    ensures !AtVerdict(su, s, b).Knows(b.Id())
    ensures AtVerdict(su, s, b).validBlocks == s.validBlocks
    ensures AtVerdict(su, s, b).nextBlocks == s.nextBlocks
  {
    UnparkPool(s, pending, b.Id());
    AtVerdictFrame(su, s, b);
  }

  /** Judging a block does not depend on whether it is in the pool meanwhile. */
  lemma JudgeHeld(su: Setup, s: State, b: Block)
    requires Judgeable(su, s, b) && b.Id() !in s.unconfirmedBlocks
    ensures Judgeable(su, Held(s, b), b)
    ensures Verdict(su, Held(s, b), b) <==> Verdict(su, s, b)
    ensures AtVerdict(su, Held(s, b), b)
            == if HeaderVerdict(su, s, b) then MoveCashTo(su, s, s.validBlocks[b.prevId]) else s
  {
    hide Ledger.MoveCash, Rules.Checks, Rules.HeaderOk, IsTree;
    assert Unparked(Held(s, b), b.Id()) == s;
  }

  lemma VerdictImpliesLocal(su: Setup, s: State, b: Block)
    requires Judgeable(su, s, b) && Verdict(su, s, b)
    ensures LocalOk(su.config, s.validBlocks[b.prevId], b)
  {
    var prev := s.validBlocks[b.prevId];
    LookupInRange(su, s, prev);
    ChecksImplyLocal(su.config, prev, b, LookupChain(su, s, prev), CashMoved(su, s, prev));
  }

  lemma OutcomeInv(su: Setup, s: State, pending: set<BlockId>, b: Block, accepted: bool)
    requires Inv(su, s, pending - {b.Id()}) && !s.Knows(b.Id()) && b.prevId in s.validBlocks
    requires accepted ==> LocalOk(su.config, s.validBlocks[b.prevId], b)
    ensures Inv(su, Outcome(s, b, accepted), PendingAfter(s, pending, b, accepted))
  {
    hide Inv, Adopt, Reject, Rules.LocalOk;
    if accepted {
      AdoptInv(su, s, pending - {b.Id()}, b);
    } else {
      RejectInv(su, s, pending - {b.Id()}, b.Id());
      assert PendingAfter(s, pending, b, false) == pending - {b.Id()};
    }
  }

  /** Every judgement keeps the invariant. */
  lemma JudgeInv(su: Setup, s: State, pending: set<BlockId>, b: Block)
    requires Inv(su, s, pending) && b.Id() in pending && Judgeable(su, s, b)
    ensures Inv(su, Judge(su, s, b), PendingAfter(s, pending, b, Verdict(su, s, b)))
  {
    AtVerdictInv(su, s, pending, b);
    if Verdict(su, s, b) {
      VerdictImpliesLocal(su, s, b);
    }
    OutcomeInv(su, AtVerdict(su, s, b), pending, b, Verdict(su, s, b));
  }
}
