/** Runs of the hub: any sequence of messages, each processed in one step, and what holds in
    every reachable state and between any two states of a run. */
module Runs {
  import opened Types
  import opened HubState
  import opened Drain
  import opened Rules
  import opened Walks
  import Difficulty

  /** What processing a received block does.  When its parent is valid the pool is drained
      completely, in the order `order`. */
  ghost predicate Received(su: Setup, s: State, b: Block, now: Timestamp, order: seq<Block>, t: State) {
    if s.Knows(b.Id()) then t == s && order == []
    else if b.timestamp > now then t == Reject(s, b.Id()) && order == []
    else if b.prevId !in s.validBlocks then t == Park(s, b) && order == []
    else order != [] && order[0] == b && Drains(su, Held(s, b), {b.Id()}, order, t, {})
  }

  datatype Event =
    | NewBlock(block: Block, now: Timestamp)
    | QueryLeadingCashSet
    | NewTransaction(txn: Transaction)

  ghost predicate Step(su: Setup, s: State, e: Event, t: State) {
    match e
    case NewBlock(b, now) => exists order :: Received(su, s, b, now, order, t)
    case QueryLeadingCashSet =>
      Tree(su, s) && t == MoveCashTo(su, s, s.validBlocks[s.leadingBlock])
    case NewTransaction(x) =>
      t == if x.Id() in s.mempool then s else s.(mempool := s.mempool[x.Id() := x])
  }

  /** A run, newest step last, with the state after each step. */
  datatype Run = Start | Then(earlier: Run, event: Event, state: State)

  function StateOf(su: Setup, run: Run): State {
    match run
    case Start => Initial(su)
    case Then(_, _, s) => s
  }

  ghost predicate Legal(su: Setup, run: Run) {
    match run
    case Start => true
    case Then(earlier, e, s) => Legal(su, earlier) && Step(su, StateOf(su, earlier), e, s)
  }

  /** Whether `later` continues `run`. */
  predicate Continues(run: Run, later: Run) {
    run == later || (later.Then? && Continues(run, later.earlier))
  }

  /** The blocks delivered in a run. */
  function Delivered(run: Run): set<Block> {
    match run
    case Start => {}
    case Then(earlier, NewBlock(b, _), _) => Delivered(earlier) + {b}
    case Then(earlier, _, _) => Delivered(earlier)
  }

  // ---------- one step ----------

  lemma HeldProgress(s: State, b: Block)
    requires !s.Knows(b.Id()) && s.leadingBlock in s.validBlocks
    ensures Progress(s, Held(s, b)) && Progress(s, Park(s, b))
  {}

  lemma ProgressTransitive(s: State, m: State, t: State)
    requires Progress(s, m) && Progress(m, t)
    ensures Progress(s, t)
  {}

  /** Processing a block keeps the invariant with a drained pool, only makes progress, and
      makes known exactly that block. */
  lemma ReceivedKeeps(su: Setup, s: State, b: Block, now: Timestamp, order: seq<Block>, t: State)
    requires Inv(su, s, {}) && Received(su, s, b, now, order, t)
    ensures Inv(su, t, {}) && Progress(s, t)
    ensures forall x :: t.Knows(x) <==> s.Knows(x) || x == b.Id()
  {
    hide HubState.Inv, Progress, Drain.Drains, HubState.Reject;
    InvLeader(su, s, {});
    if s.Knows(b.Id()) {
      ProgressSame(su, s, {});
    } else if b.timestamp > now {
      InvPool(su, s, {});
      RejectInv(su, s, {}, b.Id());
      RejectProgress(s, {}, b.Id());
    } else if b.prevId !in s.validBlocks {
      ParkInv(su, s, {}, b);
      HeldProgress(s, b);
      ParkKnows(s, b);
    } else {
      HeldInv(su, s, {}, b);
      assert {} + {b.Id()} == {b.Id()};
      DrainsKeeps(su, Held(s, b), {b.Id()}, order, t, {});
      HeldProgress(s, b);
      ProgressTransitive(s, Held(s, b), t);
      ProgressKnows(Held(s, b), t);
      ParkKnows(s, b);
    }
  }

  lemma ParkKnows(s: State, b: Block)
    ensures forall x :: Park(s, b).Knows(x) <==> s.Knows(x) || x == b.Id()
    ensures forall x :: Held(s, b).Knows(x) <==> s.Knows(x) || x == b.Id()
  {}

  lemma ProgressKnows(s: State, t: State)
    requires Progress(s, t) && OnlyFromPool(s, t)
    ensures forall x :: t.Knows(x) <==> s.Knows(x)
  {}

  lemma InvPool(su: Setup, s: State, pending: set<BlockId>)
    requires Inv(su, s, pending)
    ensures Pool(s, pending) && Tree(su, s)
  {}

  lemma QueryKeeps(su: Setup, s: State)
    requires Inv(su, s, {})
    ensures Inv(su, MoveCashTo(su, s, s.validBlocks[s.leadingBlock]), {})
    ensures Progress(s, MoveCashTo(su, s, s.validBlocks[s.leadingBlock]))
  {
    hide Ledger.MoveCash;
    TreeNode(su, s, s.leadingBlock);
    MoveCashInv(su, s, {}, s.validBlocks[s.leadingBlock]);
  }

  lemma NewTransactionKeeps(su: Setup, s: State, t: State)
    requires Inv(su, s, {}) && t == s.(mempool := t.mempool)
    ensures Inv(su, t, {}) && Progress(s, t)
  {}

  lemma StepKeeps(su: Setup, s: State, e: Event, t: State)
    requires Inv(su, s, {}) && Step(su, s, e, t)
    ensures Inv(su, t, {}) && Progress(s, t)
  {
    hide HubState.Inv, Progress, HubState.MoveCashTo;
    match e
    case NewBlock(b, now) =>
      var order :| Received(su, s, b, now, order, t);
      ReceivedKeeps(su, s, b, now, order, t);
    case QueryLeadingCashSet =>
      QueryKeeps(su, s);
    case NewTransaction(_) =>
      NewTransactionKeeps(su, s, t);
  }

  // ---------- every reachable state ----------

  lemma {:induction false} RunInv(su: Setup, run: Run)
    requires Legal(su, run)
    ensures Inv(su, StateOf(su, run), {})
  {
    hide HubState.Inv;
    match run
    case Start => InitialInv(su);
    case Then(earlier, e, s) =>
      RunInv(su, earlier);
      StepKeeps(su, StateOf(su, earlier), e, s);
  }

  /** In every reachable state: the valid blocks are closed under parents and follow the
      local rules back to genesis; no valid block is rejected or parked; no parked block has a
      valid parent; and the leader is valid and as high as any valid block. */
  lemma ReachableState(su: Setup, run: Run)
    requires Legal(su, run)
    ensures var s := StateOf(su, run);
            (forall id :: id in s.validBlocks ==>
               id == s.validBlocks[id].Id() && Rooted(su.config, s.validBlocks[id]) &&
               id !in s.invalidBlocks && id !in s.unconfirmedBlocks) &&
            (forall id, a :: id in s.validBlocks && OnBranch(a, s.validBlocks[id]) ==> a.Id() in s.validBlocks) &&
            (forall id :: id in s.unconfirmedBlocks ==> s.unconfirmedBlocks[id].prevId !in s.validBlocks) &&
            s.leadingBlock in s.validBlocks &&
            (forall id :: id in s.validBlocks ==> s.validBlocks[id].seqno <= s.validBlocks[s.leadingBlock].seqno)
  {
    RunInv(su, run);
    var s := StateOf(su, run);
    forall id, a | id in s.validBlocks && OnBranch(a, s.validBlocks[id]) ensures a.Id() in s.validBlocks {
      AncestorsValid(su, s, s.validBlocks[id], a);
    }
    forall id | id in s.unconfirmedBlocks ensures s.unconfirmedBlocks[id].prevId !in s.validBlocks {
      DrainedPool(su, s, id);
    }
  }

  lemma {:induction false} RunProgress(su: Setup, run: Run, later: Run)
    requires Legal(su, later) && Continues(run, later)
    ensures Legal(su, run) && Progress(StateOf(su, run), StateOf(su, later))
  {
    hide HubState.Inv, Progress;
    if run == later {
      RunInv(su, run);
      ProgressSame(su, StateOf(su, run), {});
    } else {
      RunProgress(su, run, later.earlier);
      RunInv(su, later.earlier);
      StepKeeps(su, StateOf(su, later.earlier), later.event, later.state);
      ProgressTransitive(StateOf(su, run), StateOf(su, later.earlier), later.state);
    }
  }

  /** Permanent verdicts: an accepted block stays accepted, a rejected id stays rejected and
      is never accepted, and nothing known is forgotten. */
  lemma PermanentVerdicts(su: Setup, run: Run, later: Run, id: BlockId)
    requires Legal(su, later) && Continues(run, later)
    ensures var s, t := StateOf(su, run), StateOf(su, later);
            (id in s.validBlocks ==> id in t.validBlocks && t.validBlocks[id] == s.validBlocks[id]) &&
            (id in s.invalidBlocks ==> id in t.invalidBlocks && id !in t.validBlocks) &&
            (s.Knows(id) ==> t.Knows(id))
  {
    RunProgress(su, run, later);
    ReachableState(su, later);
  }

  /** Fork choice: the leader's sequence number never decreases, and a leader is replaced
      only by a strictly higher block, however many orphans one message adopts. */
  lemma LeaderOnlyRises(su: Setup, run: Run, later: Run)
    requires Legal(su, later) && Continues(run, later)
    ensures var s, t := StateOf(su, run), StateOf(su, later);
            s.leadingBlock in s.validBlocks && t.leadingBlock in t.validBlocks &&
            (t.leadingBlock == s.leadingBlock ||
             t.validBlocks[t.leadingBlock].seqno > s.validBlocks[s.leadingBlock].seqno)
  {
    RunProgress(su, run, later);
  }

  /** The known ids are those of genesis and of the delivered blocks. */
  lemma {:induction false} KnownIsDelivered(su: Setup, run: Run)
    requires Legal(su, run)
    ensures forall b: Block :: StateOf(su, run).Knows(b.Id()) <==> b == su.GenesisBlock() || b in Delivered(run)
    ensures forall id :: StateOf(su, run).Knows(id) ==> id.HashOf?
  {
    hide HubState.Inv, HubState.MoveCashTo;
    match run
    case Start =>
    case Then(earlier, e, t) =>
      var s := StateOf(su, earlier);
      KnownIsDelivered(su, earlier);
      match e
      case NewBlock(b, now) =>
        RunInv(su, earlier);
        var order :| Received(su, s, b, now, order, t);
        ReceivedKeeps(su, s, b, now, order, t);
      case QueryLeadingCashSet =>
        MoveCashKnows(su, s);
      case NewTransaction(_) =>
  }

  lemma MoveCashKnows(su: Setup, s: State)
    requires Tree(su, s)
    ensures forall id :: MoveCashTo(su, s, s.validBlocks[s.leadingBlock]).Knows(id) <==> s.Knows(id)
  {}

  /** In every reachable state every valid block's target is positive and at most quadrupled
      with each adjustment period. */
  lemma ReachableDifficulty(su: Setup, run: Run, id: BlockId)
    requires Legal(su, run) && id in StateOf(su, run).validBlocks
    requires 1 <= su.config.genesisDifficulty <= Difficulty.MAX_TARGET
    requires su.config.averageBlockTime * su.config.difficultyAdjustmentPeriod >= 4
    ensures var b := StateOf(su, run).validBlocks[id];
            var span := su.config.averageBlockTime * su.config.difficultyAdjustmentPeriod;
            1 <= b.difficulty <= Difficulty.MAX_TARGET &&
            b.difficulty <= Pow4(b.seqno / su.config.difficultyAdjustmentPeriod)
                            * Difficulty.Max(su.config.genesisDifficulty, span)
  {
    hide Legal;
    ReachableState(su, run);
    DifficultyOnChain(su.config, StateOf(su, run).validBlocks[id]);
  }

  // ---------- the mempool ----------

  predicate Uncollected(s: State, t: State, id: TransactionId) {
    forall x :: x in t.validBlocks && x !in s.validBlocks ==> !Carries(t.validBlocks[x], id)
  }

  lemma JudgeCollects(su: Setup, s: State, pending: set<BlockId>, b: Block)
    requires Inv(su, s, pending) && b.Id() in pending && Judgeable(su, s, b)
    ensures forall id :: id in Judge(su, s, b).mempool <==> id in s.mempool && Uncollected(s, Judge(su, s, b), id)
  {
    hide HubState.Verdict, HubState.AtVerdict, HubState.Inv, Progress;
    JudgeProgress(su, s, pending, b);
    AtVerdictFrame(su, s, b);
    var t := Judge(su, s, b);
    forall id ensures id in t.mempool <==> id in s.mempool && Uncollected(s, t, id) {
      if Verdict(su, s, b) && id in s.mempool {
        assert t.validBlocks[b.Id()] == b;
        assert id in t.mempool <==> !Carries(b, id);
      }
    }
  }

  lemma UncollectedThrough(s: State, m: State, t: State, id: TransactionId)
    requires Progress(s, m) && Progress(m, t)
    ensures Uncollected(s, t, id) <==> Uncollected(s, m, id) && Uncollected(m, t, id)
  {
    if Uncollected(s, t, id) {
      forall x | x in m.validBlocks && x !in s.validBlocks ensures !Carries(m.validBlocks[x], id) {
        assert t.validBlocks[x] == m.validBlocks[x];
      }
    }
  }

  /** A drain leaves in the mempool exactly the transactions that no newly valid block
      carries. */
  lemma {:induction false} DrainsCollect(su: Setup, s: State, pending: set<BlockId>, order: seq<Block>,
                                         t: State, left: set<BlockId>)
    requires Inv(su, s, pending) && Drains(su, s, pending, order, t, left)
    ensures forall id :: id in t.mempool <==> id in s.mempool && Uncollected(s, t, id)
    decreases |order|
  {
    hide HubState.Judge, HubState.Verdict, HubState.Judgeable, HubState.PendingAfter, HubState.Inv;
    hide Progress, Uncollected;
    if order == [] {
      NothingCollected(s);
    } else {
      var b := order[0];
      var m, accepted := Judge(su, s, b), Verdict(su, s, b);
      var next := PendingAfter(s, pending, b, accepted);
      JudgeInv(su, s, pending, b);
      JudgeProgress(su, s, pending, b);
      JudgeCollects(su, s, pending, b);
      DrainsCollect(su, m, next, order[1..], t, left);
      DrainsKeeps(su, m, next, order[1..], t, left);
      forall id ensures id in t.mempool <==> id in s.mempool && Uncollected(s, t, id) {
        UncollectedThrough(s, m, t, id);
      }
    }
  }

  lemma NothingCollected(s: State)
    ensures forall id :: Uncollected(s, s, id)
  {}

  // ---------- clocks ----------

  /** No block of the run was received after `now`. */
  ghost predicate ClockWithin(run: Run, now: Timestamp) {
    match run
    case Start => true
    case Then(earlier, NewBlock(_, at), _) => ClockWithin(earlier, now) && at <= now
    case Then(earlier, _, _) => ClockWithin(earlier, now)
  }

  ghost predicate InThePast(su: Setup, s: State, now: Timestamp) {
    (forall id :: id in s.validBlocks ==> id == su.GenesisId() || s.validBlocks[id].timestamp <= now) &&
    (forall id :: id in s.unconfirmedBlocks ==> s.unconfirmedBlocks[id].timestamp <= now)
  }

  /** A drain makes valid only what was in the pool. */
  lemma DrainInThePast(su: Setup, s: State, pending: set<BlockId>, order: seq<Block>, t: State, now: Timestamp)
    requires Inv(su, s, pending) && InThePast(su, s, now) && Drains(su, s, pending, order, t, {})
    ensures InThePast(su, t, now)
  {
    hide Drain.Drains;
    DrainsKeeps(su, s, pending, order, t, {});
    forall id | id in t.validBlocks ensures id == su.GenesisId() || t.validBlocks[id].timestamp <= now {
      assert s.Knows(id);
    }
  }

  lemma ReceivedInThePast(su: Setup, s: State, b: Block, at: Timestamp, order: seq<Block>, t: State, now: Timestamp)
    requires Inv(su, s, {}) && InThePast(su, s, now) && Received(su, s, b, at, order, t) && at <= now
    ensures InThePast(su, t, now)
  {
    hide HubState.Inv, Drain.Drains;
    if !s.Knows(b.Id()) && b.timestamp <= at && b.prevId in s.validBlocks {
      HeldInv(su, s, {}, b);
      assert {} + {b.Id()} == {b.Id()};
      DrainInThePast(su, Held(s, b), {b.Id()}, order, t, now);
    }
  }

  /** On a clock that has not passed `now`, no valid block but genesis is dated after `now`. */
  lemma {:induction false} ValidInThePast(su: Setup, run: Run, now: Timestamp)
    requires Legal(su, run) && ClockWithin(run, now)
    ensures InThePast(su, StateOf(su, run), now)
  {
    hide HubState.Inv, InThePast, HubState.MoveCashTo;
    match run
    case Start => InitialInThePast(su, now);
    case Then(earlier, e, t) =>
      var s := StateOf(su, earlier);
      ValidInThePast(su, earlier, now);
      RunInv(su, earlier);
      match e
      case NewBlock(b, at) =>
        var order :| Received(su, s, b, at, order, t);
        ReceivedInThePast(su, s, b, at, order, t, now);
      case QueryLeadingCashSet => MoveCashInThePast(su, s, now);
      case NewTransaction(_) => SameBlocksInThePast(su, s, t, now);
  }

  lemma InitialInThePast(su: Setup, now: Timestamp)
    ensures InThePast(su, Initial(su), now)
  {}

  lemma MoveCashInThePast(su: Setup, s: State, now: Timestamp)
    requires Tree(su, s) && InThePast(su, s, now)
    ensures InThePast(su, MoveCashTo(su, s, s.validBlocks[s.leadingBlock]), now)
  {}

  lemma SameBlocksInThePast(su: Setup, s: State, t: State, now: Timestamp)
    requires InThePast(su, s, now) && t == s.(mempool := t.mempool)
    ensures InThePast(su, t, now)
  {}

  // ---------- messages sent in answer ----------

  datatype Message = Announce(id: BlockId) | GetBlockRequest(to: NodeId, id: BlockId)

  function Announcements(ids: seq<BlockId>): seq<Message> {
    seq(|ids|, i requires 0 <= i < |ids| => Announce(ids[i]))
  }

  /** What a hub sends on receiving a block: nothing for a known, late or rejected block, one
      announcement per newly valid block, and for an orphan a request for its missing root
      to the peer it came from. */
  ghost function Replies(su: Setup, s: State, from: Option<NodeId>, b: Block, now: Timestamp,
                         order: seq<Block>, t: State): seq<Message>
    requires ContentAddressed(t.unconfirmedBlocks)
  {
    if s.Knows(b.Id()) || b.timestamp > now then []
    else if b.prevId in s.validBlocks then Announcements(Adopted(su, Held(s, b), order))
    else if from.Some? then [GetBlockRequest(from.value, RootFound(su, t.unconfirmedBlocks, b.prevId))]
    else []
  }

  lemma AnnouncementsMean(ids: seq<BlockId>)
    ensures |Announcements(ids)| == |ids|
    ensures forall i :: 0 <= i < |ids| ==> Announcements(ids)[i] == Announce(ids[i])
    ensures forall id :: Announce(id) in Announcements(ids) <==> id in ids
    ensures forall m :: m in Announcements(ids) ==> m.Announce?
  {
    forall id | id in ids ensures Announce(id) in Announcements(ids) {
      var i :| 0 <= i < |ids| && ids[i] == id;
      assert Announcements(ids)[i] == Announce(id);
    }
  }

  /** The parent of an announced block was valid before, or is announced before it. */
  predicate AnnouncedAfterParent(s: State, sent: seq<Message>, j: nat)
    requires j < |sent| && sent[j].Announce?
  {
    sent[j].id.HashOf? &&
    (sent[j].id.block.prevId in s.validBlocks || Announce(sent[j].id.block.prevId) in sent[..j])
  }

  /** Every block that became valid is announced, once, after its parent if that became valid too, and
      nothing else is announced. */
  ghost predicate AnnouncesNew(s: State, t: State, sent: seq<Message>) {
    (forall id :: Announce(id) in sent <==> id in t.validBlocks.Keys - s.validBlocks.Keys) &&
    (forall i, j :: 0 <= i < j < |sent| ==> sent[i] != sent[j]) &&
    (forall j :: 0 <= j < |sent| && sent[j].Announce? ==> AnnouncedAfterParent(s, sent, j))
  }

  lemma RepliesAnnounce(su: Setup, s: State, from: Option<NodeId>, b: Block, now: Timestamp, order: seq<Block>,
                        t: State, sent: seq<Message>)
    requires Inv(su, s, {}) && Received(su, s, b, now, order, t) && ContentAddressed(t.unconfirmedBlocks)
    requires sent == Replies(su, s, from, b, now, order, t)
    ensures AnnouncesNew(s, t, sent)
  {
    hide HubState.Inv, Progress, Drain.Drains, HubState.Reject, Drain.Adopted;
    if s.Knows(b.Id()) || b.timestamp > now {
      NothingNew(su, s, b, now, order, t);
    } else if b.prevId in s.validBlocks {
      HeldInv(su, s, {}, b);
      assert {} + {b.Id()} == {b.Id()};
      AdoptedIsNewlyValid(su, Held(s, b), {b.Id()}, order, t, {});
      ListAnnounced(s, t, Adopted(su, Held(s, b), order));
    } else {
      assert t.validBlocks == s.validBlocks;
    }
  }

  lemma ListAnnounced(s: State, t: State, ids: seq<BlockId>)
    requires Lists(s.validBlocks.Keys, t.validBlocks.Keys, ids)
    ensures AnnouncesNew(s, t, Announcements(ids))
  {
    var sent := Announcements(ids);
    AnnouncementsMean(ids);
    forall j | 0 <= j < |sent| ensures AnnouncedAfterParent(s, sent, j) {
      ParentAnnounced(s, ids, sent, j);
    }
  }

  /** A request goes out exactly for a block that came from a peer and has no valid parent, to that
      peer; what it asks for is neither valid nor genesis, and with the deep root not parked either. */
  lemma RepliesRequest(su: Setup, s: State, from: Option<NodeId>, b: Block, now: Timestamp, order: seq<Block>,
                       t: State, sent: seq<Message>, to: NodeId, id: BlockId)
    requires Inv(su, s, {}) && Received(su, s, b, now, order, t) && ContentAddressed(t.unconfirmedBlocks)
    requires sent == Replies(su, s, from, b, now, order, t)
    ensures GetBlockRequest(to, id) in sent <==>
              from == Some(to) && !s.Knows(b.Id()) && b.timestamp <= now && b.prevId !in s.validBlocks &&
              id == RootFound(su, t.unconfirmedBlocks, b.prevId)
    ensures GetBlockRequest(to, id) in sent ==>
              id !in t.validBlocks && id != su.GenesisId() &&
              (if su.repairs.deepRoot then id !in t.unconfirmedBlocks else id == b.prevId)
  {
    hide HubState.Inv, Progress, Drain.Drains, HubState.Reject, Drain.Adopted;
    if !s.Knows(b.Id()) && b.timestamp <= now && b.prevId in s.validBlocks {
      AnnouncementsMean(Adopted(su, Held(s, b), order));
    } else if !s.Knows(b.Id()) && b.timestamp <= now {
      ReceivedKeeps(su, s, b, now, order, t);
      GenesisKnown(su, t);
      MissingRootIsMissing(su, t, b.prevId);
    }
  }

  lemma GenesisKnown(su: Setup, s: State)
    requires Inv(su, s, {})
    ensures su.GenesisId() in s.validBlocks
  {}

  lemma ParentAnnounced(s: State, ids: seq<BlockId>, sent: seq<Message>, j: nat)
    requires ParentsFirst(s.validBlocks.Keys, ids) && sent == Announcements(ids) && j < |sent|
    ensures sent[j].Announce? && AnnouncedAfterParent(s, sent, j)
  {
    AnnouncementsMean(ids);
    assert ParentBefore(s.validBlocks.Keys, ids, j);
    var p := ids[j].block.prevId;
    if p !in s.validBlocks.Keys {
      var i :| 0 <= i < j && ids[i] == p;
      assert sent[..j][i] == Announce(p);
    }
  }

  lemma NothingNew(su: Setup, s: State, b: Block, now: Timestamp, order: seq<Block>, t: State)
    requires Received(su, s, b, now, order, t) && (s.Knows(b.Id()) || b.timestamp > now)
    ensures t.validBlocks == s.validBlocks
  {}
}
