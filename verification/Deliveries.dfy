/** Building runs: every message can be processed, so runs can be continued at will. */
module Deliveries {
  import opened Types
  import opened HubState
  import opened Drain
  import opened Runs
  import opened OrderIndependence

  // ---------- one block at a time, with nothing parked ----------

  /** Nothing is parked. */
  predicate EmptyPool(s: State) {
    s.nextBlocks == map[] && s.unconfirmedBlocks == map[]
  }

  /** Only blocks are delivered, and the hub is asked nothing. */
  predicate OnlyBlocks(run: Run) {
    run.Start? || (run.event.NewBlock? && OnlyBlocks(run.earlier))
  }

  ghost predicate Timely(su: Setup, run: Run) {
    Legal(su, run) && OnTime(run)
  }

  /** A well-behaved run: legal, on time, and made of deliveries only. */
  ghost predicate Plain(su: Setup, run: Run) {
    Timely(su, run) && OnlyBlocks(run)
  }

  /** What one verdict leaves when nothing is parked. */
  ghost predicate Judged(su: Setup, s: State, b: Block, t: State)
    requires Judgeable(su, s, b)
  {
    EmptyPool(t) && Tree(su, t) &&
    t.cashSet == (if HeaderVerdict(su, s, b) then CashMoved(su, s, s.validBlocks[b.prevId]) else s.cashSet) &&
    (if Verdict(su, s, b)
     then t.validBlocks == s.validBlocks[b.Id() := b] && t.invalidBlocks == s.invalidBlocks &&
          t.leadingBlock == if b.seqno > s.validBlocks[s.leadingBlock].seqno then b.Id() else s.leadingBlock
     else t.validBlocks == s.validBlocks && t.invalidBlocks == s.invalidBlocks + {b.Id()} &&
          t.leadingBlock == s.leadingBlock)
  }

  /** Delivering one block below a valid parent, with nothing parked. */
  lemma DeliverTimely(su: Setup, run: Run, b: Block, now: Timestamp) returns (more: Run)
    requires Timely(su, run) && b.timestamp <= now
    requires var s := StateOf(su, run);
             !s.Knows(b.Id()) && b.prevId in s.validBlocks && EmptyPool(s)
    ensures Timely(su, more) && (OnlyBlocks(run) ==> OnlyBlocks(more)) && Delivered(more) == Delivered(run) + {b}
    ensures Judgeable(su, StateOf(su, run), b) && Judged(su, StateOf(su, run), b, StateOf(su, more))
  {
    hide HubState.Verdict, HubState.HeaderVerdict, HubState.CashMoved, HubState.IsTree, HubState.IsPool, Legal;
    var s := StateOf(su, run);
    RunInv(su, run);
    VerdictOnHeld(su, s, {}, b);
    var t := Judge(su, Held(s, b), b);
    assert {} + {b.Id()} == {b.Id()};
    NothingFiled(b.Id());
    assert PendingAfter(Held(s, b), {b.Id()}, b, Verdict(su, Held(s, b), b)) == {};
    assert Drains(su, Held(s, b), {b.Id()}, [b], t, {}) by {
      assert [b][1..] == [];
    }
    assert Received(su, s, b, now, [b], t);
    more := Then(run, NewBlock(b, now), t);
    StepExtends(su, run, NewBlock(b, now), t);
    RunInv(su, more);
  }

  lemma Deliver(su: Setup, run: Run, b: Block, now: Timestamp) returns (more: Run)
    requires Plain(su, run) && b.timestamp <= now
    requires var s := StateOf(su, run);
             !s.Knows(b.Id()) && b.prevId in s.validBlocks && EmptyPool(s)
    ensures Plain(su, more) && Delivered(more) == Delivered(run) + {b}
    ensures Judgeable(su, StateOf(su, run), b) && Judged(su, StateOf(su, run), b, StateOf(su, more))
  {
    hide Legal, OnTime, OnlyBlocks, Judged, EmptyPool;
    more := DeliverTimely(su, run, b, now);
  }

  lemma StepExtends(su: Setup, run: Run, e: Event, t: State)
    requires Legal(su, run) && Step(su, StateOf(su, run), e, t)
    ensures Legal(su, Then(run, e, t))
  {}

  lemma NothingFiled(id: BlockId)
    ensures Reached(map[], id) == {id}
  {
    ReachedIsCascade(map[], id);
    assert Closed(map[], {id});
  }

  lemma StartRun(su: Setup) returns (run: Run)
    ensures run == Start && Plain(su, run) && Delivered(run) == {}
    ensures StateOf(su, run) == Initial(su) && EmptyPool(Initial(su)) && Tree(su, Initial(su))
  {
    run := Start;
    InitialInv(su);
    InvPool(su, Initial(su), {});
  }

  lemma ParkOne(su: Setup, run: Run, b: Block, now: Timestamp) returns (more: Run)
    requires Plain(su, run) && b.timestamp <= now
    requires !StateOf(su, run).Knows(b.Id()) && b.prevId !in StateOf(su, run).validBlocks
    ensures Plain(su, more) && Delivered(more) == Delivered(run) + {b}
    ensures StateOf(su, more) == Park(StateOf(su, run), b)
  {
    var t := Park(StateOf(su, run), b);
    assert Received(su, StateOf(su, run), b, now, [], t);
    more := Then(run, NewBlock(b, now), t);
  }

  /** Asking for the unspent set at the leader. */
  lemma AskLeader(su: Setup, run: Run) returns (more: Run)
    requires Timely(su, run)
    ensures Timely(su, more) && Delivered(more) == Delivered(run)
    ensures var s := StateOf(su, run);
            Tree(su, s) && s.validBlocks[s.leadingBlock].Id() in s.validBlocks &&
            StateOf(su, more) == MoveCashTo(su, s, s.validBlocks[s.leadingBlock])
  {
    hide HubState.IsPool, HubState.CashMoved, Legal;
    var s := StateOf(su, run);
    RunInv(su, run);
    LeaderIsValid(su, s);
    TreeNode(su, s, s.leadingBlock);
    var t := MoveCashTo(su, s, s.validBlocks[s.leadingBlock]);
    more := Then(run, QueryLeadingCashSet, t);
    StepExtends(su, run, QueryLeadingCashSet, t);
  }

  // ---------- any block, in any state ----------

  /** A pool can always be drained: each judgement takes a block out of it. */
  lemma {:induction false} DrainExists(su: Setup, s: State, pending: set<BlockId>) returns (order: seq<Block>, t: State)
    requires Inv(su, s, pending)
    ensures Drains(su, s, pending, order, t, {})
    decreases |s.unconfirmedBlocks|
  {
    hide HubState.Inv, HubState.Judge, HubState.Verdict, HubState.PendingAfter, Progress, Drain.Drains;
    order, t := [], s;
    if pending == {} {
      EmptyDrain(su, s);
    } else {
      var id :| id in pending;
      PendingIsJudgeable(su, s, pending, id);
      var b := s.unconfirmedBlocks[id];
      var m, next := Judge(su, s, b), PendingAfter(s, pending, b, Verdict(su, s, b));
      JudgeInv(su, s, pending, b);
      JudgeProgress(su, s, pending, b);
      FewerParked(s.unconfirmedBlocks, b.Id());
      order, t := DrainExists(su, m, next);
      DrainsFirst(su, s, pending, b, order, t, {});
      order := [b] + order;
    }
  }

  lemma EmptyDrain(su: Setup, s: State)
    ensures Drains(su, s, {}, [], s, {})
  {}

  lemma PendingIsJudgeable(su: Setup, s: State, pending: set<BlockId>, id: BlockId)
    requires Inv(su, s, pending) && id in pending
    ensures id in s.unconfirmedBlocks && s.unconfirmedBlocks[id].Id() == id
    ensures Judgeable(su, s, s.unconfirmedBlocks[id])
  {
    assert ParentIn(s.validBlocks, id);
  }

  lemma FewerParked(blocks: Blocks, id: BlockId)
    requires id in blocks
    ensures |blocks - {id}| < |blocks|
  {
    assert (blocks - {id}).Keys == blocks.Keys - {id};
    assert |(blocks - {id}).Keys| == |blocks.Keys| - 1;
  }

  /** Every block can be received in every state. */
  lemma ReceivedExists(su: Setup, s: State, b: Block, now: Timestamp) returns (order: seq<Block>, t: State)
    requires Inv(su, s, {})
    ensures Received(su, s, b, now, order, t)
  {
    hide HubState.Inv, Drain.Drains;
    order, t := [], s;
    if s.Knows(b.Id()) {
    } else if b.timestamp > now {
      t := Reject(s, b.Id());
    } else if b.prevId !in s.validBlocks {
      t := Park(s, b);
    } else {
      HeldInv(su, s, {}, b);
      assert {} + {b.Id()} == {b.Id()};
      PendingIsJudgeable(su, Held(s, b), {b.Id()}, b.Id());
      var m, next := Judge(su, Held(s, b), b), PendingAfter(Held(s, b), {b.Id()}, b, Verdict(su, Held(s, b), b));
      JudgeInv(su, Held(s, b), {b.Id()}, b);
      order, t := DrainExists(su, m, next);
      DrainsFirst(su, Held(s, b), {b.Id()}, b, order, t, {});
      order := [b] + order;
    }
  }

  /** A legal run, on time, over exactly the given blocks. */
  ghost predicate RunOver(su: Setup, blocks: set<Block>, run: Run) {
    Legal(su, run) && OnTime(run) && Delivered(run) == blocks
  }

  lemma DeliverAny(su: Setup, run: Run, b: Block) returns (more: Run)
    requires Legal(su, run) && OnTime(run)
    ensures RunOver(su, Delivered(run) + {b}, more) && Continues(run, more) && (OnlyBlocks(run) ==> OnlyBlocks(more))
  {
    hide HubState.Inv, Received;
    RunInv(su, run);
    var order, t := ReceivedExists(su, StateOf(su, run), b, b.timestamp);
    more := Then(run, NewBlock(b, b.timestamp), t);
    assert Step(su, StateOf(su, run), NewBlock(b, b.timestamp), t);
    assert Continues(run, run);
  }

  /** So a run over some blocks can be continued to one over more of them. */
  lemma {:induction false} DeliverAll(su: Setup, run: Run, blocks: set<Block>) returns (more: Run)
    requires Legal(su, run) && OnTime(run)
    ensures RunOver(su, Delivered(run) + blocks, more) && Continues(run, more) && (OnlyBlocks(run) ==> OnlyBlocks(more))
    decreases |blocks|
  {
    hide Legal, OnTime, OnlyBlocks, Delivered, Continues;
    if blocks == {} {
      more := run;
      ContinuesItself(run);
      assert Delivered(run) + {} == Delivered(run);
    } else {
      var b :| b in blocks;
      var some := DeliverAll(su, run, blocks - {b});
      more := DeliverAny(su, some, b);
      ContinuesThrough(run, some, more);
      assert (Delivered(run) + (blocks - {b})) + {b} == Delivered(run) + blocks;
    }
  }

  lemma ContinuesItself(run: Run)
    ensures Continues(run, run)
  {}

  lemma {:induction false} ContinuesThrough(run: Run, some: Run, more: Run)
    requires Continues(run, some) && Continues(some, more)
    ensures Continues(run, more)
  {
    if some != more {
      ContinuesThrough(run, some, more.earlier);
    }
  }
}
