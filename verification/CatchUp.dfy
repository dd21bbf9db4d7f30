/** Catching up with a peer: an unknown block arrives, its missing root is requested from the
    peer, the answer is received like any block, and so on until nothing more is asked. */
module CatchUp {
  import opened Types
  import opened Ledger
  import opened Rules
  import opened HubState
  import opened Drain
  import opened Walks
  import opened Runs
  import opened Acceptance
  import opened BranchVerdicts
  import opened Hub

  // ---------- what is asked of the block and of the receiver ----------

  /** `b` deserves acceptance, and what is not valid yet of its branch is in the past and, where the
      cache position is written back, creates fresh cash. */
  ghost predicate Deliverable(su: Setup, s: State, b: Block, now: Timestamp) {
    Accepted(su.config, b) &&
    forall a :: OnBranch(a, b) ==> a.Id() in s.validBlocks || Arrivable(su, a, now)
  }

  ghost predicate Arrivable(su: Setup, a: Block, now: Timestamp) {
    a.timestamp <= now && (su.repairs.writeBack ==> Fresh(a))
  }

  lemma DeliverableAt(su: Setup, s: State, b: Block, a: Block, now: Timestamp)
    requires Deliverable(su, s, b, now) && OnBranch(a, b)
    ensures a.Id() in s.validBlocks || Arrivable(su, a, now)
  {}

  lemma DeliverableTop(su: Setup, s: State, b: Block, now: Timestamp)
    requires Deliverable(su, s, b, now)
    ensures Accepted(su.config, b) && Rooted(su.config, b)
  {
    AcceptedIsRooted(su.config, b);
  }

  // ---------- receiving one block of the branch ----------

  lemma ReceivedCovered(su: Setup, s: State, m: Block, now: Timestamp, order: seq<Block>, t: State)
    requires Inv(su, s, {}) && Received(su, s, m, now, order, t) && Arrivable(su, m, now) && Covered(su, s)
    ensures Covered(su, t)
  {
    hide HubState.Inv, LedgerExact, Drain.Drains, Ledger.Fresh;
    if su.repairs.writeBack {
      HeldKeepsLedger(su, {}, s, m);
      if !s.Knows(m.Id()) && m.prevId in s.validBlocks {
        HeldInv(su, s, {}, m);
        assert {} + {m.Id()} == {m.Id()};
        DrainsKeepLedger(su, {}, Held(s, m), {m.Id()}, order, t, {});
      }
    }
  }

  lemma HeldCovered(su: Setup, s: State, m: Block, now: Timestamp)
    requires Covered(su, s) && Arrivable(su, m, now)
    ensures Covered(su, Held(s, m))
  {
    if su.repairs.writeBack {
      HeldKeepsLedger(su, {}, s, m);
    }
  }

  /** Whoever else waits in the pool, draining it rejects none of the branch if the lookup matters to
      no block of it. */
  lemma ReceivedSpares(su: Setup, s0: State, s: State, m: Block, now: Timestamp, order: seq<Block>, t: State, b: Block)
    requires Inv(su, s, {}) && Received(su, s, m, now, order, t) && Arrivable(su, m, now)
    requires !s.Knows(m.Id()) && m.prevId in s.validBlocks && OnBranch(m, b)
    requires Covered(su, s) && NoneRejected(s, b) && Accepted(su.config, b)
    requires BranchFair(su, s0, b) && LedFrom(s0, b, s)
    ensures NoneRejected(t, b)
  {
    hide HubState.Inv, LedgerExact, Covered, Drain.Drains, Accepted, BranchFair, Ledger.Fresh, Types.OnBranch;
    HeldInv(su, s, {}, m);
    assert {} + {m.Id()} == {m.Id()};
    HeldCovered(su, s, m, now);
    DrainsSpare(su, s0, Held(s, m), {m.Id()}, order, t, {}, b);
  }

  /** And if the pool holds nothing off the branch, it adopts the branch exactly up to where the lookup
      breaks it. */
  lemma ReceivedAdopts(su: Setup, s0: State, s: State, m: Block, now: Timestamp, order: seq<Block>, t: State, b: Block)
    requires Inv(su, s, {}) && Received(su, s, m, now, order, t) && Arrivable(su, m, now)
    requires !s.Knows(m.Id()) && m.prevId in s.validBlocks && OnBranch(m, b)
    requires Covered(su, s) && NoneRejected(s, b) && Accepted(su.config, b)
    requires Adopting(su, s0, s, b)
    ensures Adopting(su, s0, t, b)
    ensures !LookupBreaks(su, s0, b) ==> NoneRejected(t, b)
  {
    hide HubState.Inv, LedgerExact, Covered, Drain.Drains, Accepted, Ledger.Fresh, Types.OnBranch;
    hide LookupBreaks, BreaksAt;
    HeldInv(su, s, {}, m);
    assert {} + {m.Id()} == {m.Id()};
    HeldCovered(su, s, m, now);
    assert Adopting(su, s0, Held(s, m), b);
    DrainsAdopt(su, s0, Held(s, m), {m.Id()}, order, t, {}, b);
  }

  /** Nothing else would do: once a block of the branch is rejected, `b` is never valid. */
  lemma RejectedBranchIsLost(su: Setup, run: Run, later: Run, b: Block)
    requires Legal(su, later) && Continues(run, later) && !NoneRejected(StateOf(su, run), b)
    ensures b.Id() !in StateOf(su, later).validBlocks
  {
    hide Legal, Rules.Rooted;
    var a :| OnBranch(a, b) && a.Id() in StateOf(su, run).invalidBlocks;
    PermanentVerdicts(su, run, later, a.Id());
    ReachableState(su, later);
  }

  // ---------- the state between two messages ----------

  /** `m` is the next block to arrive.  Since the start, blocks have only been parked; every
      block of `b`'s branch above `m` is parked, and those between `m` and `b` were not
      parked at the start unless the deep root is requested. */
  ghost predicate Gap(su: Setup, s0: State, s: State, b: Block, m: Block) {
    && Inv(su, s, {}) && Covered(su, s) && NoneRejected(s, b)
    && OnBranch(m, b) && !s.Knows(m.Id())
    && s.validBlocks == s0.validBlocks && s0.unconfirmedBlocks.Keys <= s.unconfirmedBlocks.Keys
    && (forall a :: OnBranch(a, b) && a.seqno > m.seqno ==> a.Id() in s.unconfirmedBlocks)
    && (forall x :: x in s.unconfirmedBlocks ==>
         x in s0.unconfirmedBlocks || (x.HashOf? && OnBranch(x.block, b) && x.block.seqno > m.seqno))
    && s.leadingBlock == s0.leadingBlock
    && (!su.repairs.deepRoot ==>
          forall a :: OnBranch(a, b) && m.seqno < a.seqno < b.seqno ==> a.Id() !in s0.unconfirmedBlocks)
  }

  /** No strict ancestor of `b` is parked. */
  ghost predicate NoAncestorParked(s: State, b: Block) {
    forall a :: OnBranch(a, b) && a != b ==> a.Id() !in s.unconfirmedBlocks
  }

  lemma GapStart(su: Setup, s: State, b: Block)
    requires Inv(su, s, {}) && Covered(su, s) && NoneRejected(s, b) && !s.Knows(b.Id()) && Rooted(su.config, b)
    ensures Gap(su, s, s, b, b)
  {
    assert OnBranch(b, b);
    forall a | OnBranch(a, b) ensures a.seqno <= b.seqno {
      BelowTop(su.config, b, a);
    }
  }

  /** An unknown block is not genesis. */
  lemma GapTip(su: Setup, s: State, m: Block)
    requires Inv(su, s, {}) && !s.Knows(m.Id())
    ensures m != su.GenesisBlock()
  {}

  /** Below a block whose parent is valid everything is valid. */
  lemma BelowGap(su: Setup, s: State, b: Block, m: Block, a: Block)
    requires Inv(su, s, {}) && Rooted(su.config, b)
    requires OnBranch(m, b) && OnBranch(a, b) && a.seqno <= m.seqno && a != m
    requires m.prevId in s.validBlocks
    ensures a.Id() in s.validBlocks && a.Id() !in s.unconfirmedBlocks
  {
    LowerIsAncestor(su.config, b, a, m);
    TreeNode(su, s, m.prevId);
    AncestorsValid(su, s, s.validBlocks[m.prevId], a);
  }

  /** When the block that arrives has a valid parent, the whole branch is known, and `b` is valid if and
      only if nothing of the branch is rejected now: it is not where the branch is fair, and, where
      nothing off the branch was parked, exactly where the lookup does not break it. */
  lemma GapCloses(su: Setup, s0: State, s: State, b: Block, m: Block, now: Timestamp, order: seq<Block>, t: State)
    requires Gap(su, s0, s, b, m) && Deliverable(su, s, b, now)
    requires m.prevId in s.validBlocks && Received(su, s, m, now, order, t)
    ensures Inv(su, t, {}) && Covered(su, t)
    ensures b.Id() in t.validBlocks <==> NoneRejected(t, b)
    ensures BranchFair(su, s0, b) ==> b.Id() in t.validBlocks
    ensures OnlyBranchParked(s0, b) ==> (b.Id() in t.validBlocks <==> !LookupBreaks(su, s0, b))
    ensures !su.repairs.deepRoot ==> NoAncestorParked(s0, b)
  {
    hide HubState.IsTree, HubState.IsPool, Drain.Drains, Accepted, Received, Arrivable, Covered, Rules.Rooted;
    hide Adopting, LookupBreaks, BranchFair, LedFrom;
    DeliverableTop(su, s, b, now);
    DeliverableAt(su, s, b, m, now);
    ReceivedKeeps(su, s, m, now, order, t);
    ReceivedCovered(su, s, m, now, order, t);
    forall a | OnBranch(a, b) ensures t.Knows(a.Id()) {
      if a.seqno <= m.seqno && a != m {
        BelowGap(su, s, b, m, a);
      }
    }
    if NoneRejected(t, b) {
      KnownAndUnrejectedIsValid(su, t, b);
    }
    if b.Id() in t.validBlocks {
      ValidIsUnrejected(su, t, b);
    }
    if BranchFair(su, s0, b) {
      GapLedFrom(su, s0, s, b, m);
      ReceivedSpares(su, s0, s, m, now, order, t, b);
    }
    if OnlyBranchParked(s0, b) {
      GapAdopting(su, s0, s, b, m);
      ReceivedAdopts(su, s0, s, m, now, order, t, b);
      if b.Id() in t.validBlocks {
        AdoptedUnbroken(su, s0, t, b);
      }
    }
    if !su.repairs.deepRoot {
      forall a | OnBranch(a, b) && a != b ensures a.Id() !in s0.unconfirmedBlocks {
        BelowTop(su.config, b, a);
        if a.seqno <= m.seqno && a != m {
          BelowGap(su, s, b, m, a);
        }
      }
    }
  }

  lemma GapLedFrom(su: Setup, s0: State, s: State, b: Block, m: Block)
    requires Gap(su, s0, s, b, m)
    ensures LedFrom(s0, b, s)
  {
    hide Types.OnBranch;
    forall id | id in s.validBlocks || id in s.unconfirmedBlocks ensures id.HashOf? && MayLead(s0, b, id.block) {
      if id in s.validBlocks {
        TreeNode(su, s, id);
      }
    }
  }

  lemma GapAdopting(su: Setup, s0: State, s: State, b: Block, m: Block)
    requires Gap(su, s0, s, b, m) && OnlyBranchParked(s0, b)
    ensures Adopting(su, s0, s, b)
  {
    hide Types.OnBranch;
    LeaderIsValid(su, s);
  }

  /** The parent of a block in the gap is on the branch, one below. */
  lemma GapParent(su: Setup, s: State, b: Block, m: Block)
    requires Inv(su, s, {}) && !s.Knows(m.Id()) && OnBranch(m, b) && Rooted(su.config, b)
    ensures m.prevId.HashOf? && OnBranch(m.prevId.block, b) && m.prevId.block.seqno == m.seqno - 1
  {
    hide HubState.IsPool;
    GapTip(su, s, m);
    RootedBranch(su.config, b);
    var prev := m.prevId.block;
    assert OnBranch(prev, m);
    OnBranchTransitive(prev, m, b);
  }

  lemma NextGap(su: Setup, s0: State, s: State, b: Block, m: Block, t: State, prev: Block)
    requires Gap(su, s0, s, b, m) && Rooted(su.config, b)
    requires Inv(su, t, {}) && Covered(su, t) && NoneRejected(t, b) && t == Park(s, m)
    requires OnBranch(prev, b) && prev.seqno == m.seqno - 1 && prev.Id() !in s.validBlocks
    requires prev.Id() !in t.unconfirmedBlocks
    ensures Gap(su, s0, t, b, prev)
  {
    hide HubState.Inv, Covered, Rules.Rooted;
    forall a | OnBranch(a, b) && a.seqno > prev.seqno ensures a.Id() in t.unconfirmedBlocks {
      if a.seqno == m.seqno {
        SameHeightSame(su.config, b, a, m);
      }
    }
    forall a | !su.repairs.deepRoot && OnBranch(a, b) && prev.seqno < a.seqno < b.seqno
      ensures a.Id() !in s0.unconfirmedBlocks
    {
      if a.seqno == m.seqno {
        SameHeightSame(su.config, b, a, m);
      }
    }
  }

  lemma ParkSpares(s: State, m: Block, b: Block)
    requires NoneRejected(s, b)
    ensures NoneRejected(Park(s, m), b)
  {}

  /** When its parent is missing too, the block is parked and its parent, unless parked
      already, is the next to arrive. */
  lemma GapMoves(su: Setup, s0: State, s: State, b: Block, m: Block, now: Timestamp, order: seq<Block>, t: State)
    requires Gap(su, s0, s, b, m) && Deliverable(su, s, b, now)
    requires m.prevId !in s.validBlocks && Received(su, s, m, now, order, t)
    ensures Inv(su, t, {}) && Covered(su, t) && NoneRejected(t, b) && t == Park(s, m)
    ensures m.prevId.HashOf? && OnBranch(m.prevId.block, b) && m.prevId.block.seqno == m.seqno - 1
    ensures m.prevId !in t.unconfirmedBlocks ==> Gap(su, s0, t, b, m.prevId.block)
    ensures m.prevId in t.unconfirmedBlocks ==> m.prevId in s0.unconfirmedBlocks
  {
    hide HubState.Inv, Deliverable, Covered, NoneRejected, Accepted, Rules.Rooted;
    DeliverableTop(su, s, b, now);
    DeliverableAt(su, s, b, m, now);
    GapParent(su, s, b, m);
    ReceivedKeeps(su, s, m, now, order, t);
    ReceivedCovered(su, s, m, now, order, t);
    ParkSpares(s, m, b);
    if m.prevId !in t.unconfirmedBlocks {
      NextGap(su, s0, s, b, m, t, m.prevId.block);
    }
  }

  /** The deep root of a parked block's parent is the next block to arrive. */
  lemma GapJumps(su: Setup, s0: State, t: State, b: Block, m: Block) returns (next: Block)
    requires su.repairs.deepRoot && Rooted(su.config, b)
    requires Inv(su, t, {}) && Covered(su, t) && NoneRejected(t, b)
    requires t.validBlocks == s0.validBlocks && s0.unconfirmedBlocks.Keys <= t.unconfirmedBlocks.Keys
    requires OnBranch(m, b) && forall a :: OnBranch(a, b) && a.seqno >= m.seqno ==> a.Id() in t.unconfirmedBlocks
    requires forall x :: x in t.unconfirmedBlocks ==>
               x in s0.unconfirmedBlocks || (x.HashOf? && OnBranch(x.block, b) && x.block.seqno >= m.seqno)
    requires t.leadingBlock == s0.leadingBlock
    requires m.prevId.HashOf? && m.prevId !in t.validBlocks && OnBranch(m.prevId.block, b)
    requires m.prevId.block.seqno == m.seqno - 1
    ensures ContentAddressed(t.unconfirmedBlocks)
    ensures next.Id() == MissingRoot(su, t.unconfirmedBlocks, m.prevId)
    ensures Gap(su, s0, t, b, next) && next.seqno < m.seqno
  {
    hide Covered, Rules.Rooted;
    var prev := m.prevId.block;
    MissingRootIsMissing(su, t, m.prevId);
    RootedPrefix(su.config, b, prev);
    MissingRootIsBlock(su, t, prev);
    next := MissingRoot(su, t.unconfirmedBlocks, m.prevId).block;
    MissingRootUnique(su, t, prev, next);
    OnBranchTransitive(next, prev, b);
    BranchIsPrefix(next, prev);
    Height(su.config, b, prev);
    Height(su.config, b, next);
    forall a | OnBranch(a, b) && a.seqno > next.seqno ensures a.Id() in t.unconfirmedBlocks {
      if a.seqno < m.seqno {
        LowerIsAncestor(su.config, b, a, prev);
        Height(su.config, b, a);
      }
    }
  }

  lemma {:induction false} MissingRootIsBlock(su: Setup, s: State, b: Block)
    requires Inv(su, s, {}) && b.Id() !in s.validBlocks && Rooted(su.config, b)
    ensures ContentAddressed(s.unconfirmedBlocks)
    ensures MissingRoot(su, s.unconfirmedBlocks, b.Id()).HashOf?
    decreases b
  {
    if b.Id() in s.unconfirmedBlocks {
      DrainedPool(su, s, b.Id());
      MissingRootIsBlock(su, s, b.prevId.block);
    }
  }

  /** A parked block whose request was answered with a block already parked: the exchange
      ends there. */
  ghost predicate Stalled(su: Setup, s0: State, s: State, b: Block, m: Block) {
    && Inv(su, s, {}) && Covered(su, s) && NoneRejected(s, b) && !su.repairs.deepRoot
    && s.validBlocks == s0.validBlocks
    && OnBranch(m, b) && m != b && m.Id() in s0.unconfirmedBlocks && m.Id() in s.unconfirmedBlocks
    && b.Id() in s.unconfirmedBlocks
  }

  lemma AboveParked(su: Setup, s: State, b: Block, m: Block, t: State)
    requires Rooted(su.config, b) && OnBranch(m, b) && t == Park(s, m)
    requires forall a :: OnBranch(a, b) && a.seqno > m.seqno ==> a.Id() in s.unconfirmedBlocks
    ensures forall a :: OnBranch(a, b) && a.seqno >= m.seqno ==> a.Id() in t.unconfirmedBlocks
  {
    forall a | OnBranch(a, b) && a.seqno >= m.seqno ensures a.Id() in t.unconfirmedBlocks {
      if a.seqno == m.seqno {
        SameHeightSame(su.config, b, a, m);
      }
    }
  }

  /** After parking `m`, what the peer's answer to the request leads to. */
  lemma AfterRequest(su: Setup, s0: State, s: State, b: Block, m: Block, now: Timestamp, order: seq<Block>, t: State)
      returns (next: Block)
    requires Gap(su, s0, s, b, m) && Deliverable(su, s, b, now)
    requires m.prevId !in s.validBlocks && Received(su, s, m, now, order, t)
    ensures ContentAddressed(t.unconfirmedBlocks) && next.Id() == RootFound(su, t.unconfirmedBlocks, m.prevId)
    ensures OnBranch(next, b) && next.seqno < m.seqno
    ensures Gap(su, s0, t, b, next) || Stalled(su, s0, t, b, next)
    ensures t.validBlocks == s.validBlocks
  {
    hide HubState.Inv, Covered, NoneRejected, Accepted, Deliverable, Rules.Rooted, Types.Branch;
    DeliverableTop(su, s, b, now);
    GapMoves(su, s0, s, b, m, now, order, t);
    InvPool(su, t, {});
    OrphansAddressed(su, t, {});
    MissingRootIsMissing(su, t, m.prevId);
    if su.repairs.deepRoot {
      AboveParked(su, s, b, m, t);
      next := GapJumps(su, s0, t, b, m);
    } else {
      next := m.prevId.block;
      if m.prevId in t.unconfirmedBlocks {
        AboveParked(su, s, b, m, t);
        BelowTop(su.config, b, m);
      }
    }
  }

  /** Wherever the exchange stands, the valid ancestors lie strictly below. */
  lemma RequestedAboveValid(su: Setup, s0: State, s: State, b: Block, m: Block)
    requires Gap(su, s0, s, b, m) || Stalled(su, s0, s, b, m)
    requires Rooted(su.config, b)
    ensures forall c :: OnBranch(c, b) && c.Id() in s.validBlocks ==> c.seqno < m.seqno
  {
    assert m.Id() !in s.validBlocks;
    forall c | OnBranch(c, b) && c.Id() in s.validBlocks ensures c.seqno < m.seqno {
      if m.seqno <= c.seqno {
        LowerIsAncestor(su.config, b, m, c);
        AncestorsValid(su, s, c, m);
      }
    }
  }

  /** What arrives is unknown in a gap and known after a stall; in a gap it is not late. */
  lemma Arriving(su: Setup, s0: State, s: State, b: Block, m: Block, now: Timestamp)
    requires Gap(su, s0, s, b, m) || Stalled(su, s0, s, b, m)
    requires Deliverable(su, s, b, now)
    ensures OnBranch(m, b) && s.validBlocks == s0.validBlocks && Rooted(su.config, b)
    ensures s.Knows(m.Id()) ==> Stalled(su, s0, s, b, m)
    ensures !s.Knows(m.Id()) ==> Gap(su, s0, s, b, m) && m.timestamp <= now
  {
    DeliverableTop(su, s, b, now);
    if !s.Knows(m.Id()) {
      DeliverableAt(su, s, b, m, now);
    }
  }

  lemma ArrivingNext(su: Setup, s0: State, s: State, t: State, b: Block, next: Block, now: Timestamp)
    requires Gap(su, s0, t, b, next) || Stalled(su, s0, t, b, next)
    requires Deliverable(su, s, b, now) && t.validBlocks == s.validBlocks
    ensures Inv(su, t, {}) && Covered(su, t) && Deliverable(su, t, b, now)
  {}

  lemma StallEnds(su: Setup, s0: State, s: State, b: Block, m: Block, now: Timestamp, order: seq<Block>, t: State)
    requires Stalled(su, s0, s, b, m) && s.Knows(m.Id()) && Received(su, s, m, now, order, t)
    ensures t == s && Covered(su, t) && NoneRejected(t, b) && !su.repairs.deepRoot
    ensures b.Id() !in t.validBlocks && !NoAncestorParked(s0, b)
  {}

  // ---------- the exchange ----------

  /** No request will be answered with a block that is parked already. */
  ghost predicate Unobstructed(su: Setup, s: State, b: Block) {
    su.repairs.deepRoot || NoAncestorParked(s, b)
  }

  /** Everything the hub holds as valid or parked is on the branch of `b`. */
  ghost predicate OneBranch(s: State, b: Block) {
    OnlyBranchParked(s, b) && forall id :: id in s.validBlocks ==> OnBranch(s.validBlocks[id], b)
  }

  /** Then the lookup breaks nothing: the leader's chain is the block's own. */
  lemma OneBranchUnbroken(su: Setup, s: State, b: Block)
    requires Inv(su, s, {}) && Accepted(su.config, b) && OneBranch(s, b)
    ensures OnlyBranchParked(s, b) && !LookupBreaks(su, s, b)
  {
    hide Accepted, Types.OnBranch, HubState.IsTree, HubState.IsPool, LookupBreaks;
    LeaderIsValid(su, s);
    LeaderOnBranchUnbroken(su, s, b);
  }

  /** The whole exchange, from the arrival of an unknown block held as valid by the peer, for the
      code as written and under every repair.
      - With the request as written the block stays out if an ancestor of it was parked before: the
        exchange stalls.  With the deep root requested it never does.
      - Otherwise the whole branch arrives, and the block is valid unless some block of the branch was
        rejected.  That happens to no branch that is fair; and, if nothing off the branch was parked
        before, it happens exactly where the lookup breaks the branch, so never on a single branch.
      - Either way it takes fewer round trips than the block is above its newest valid ancestor. */
  method Exchange(receiver: PeerHub, peer: PeerHub, peerId: NodeId, b: Block, now: Timestamp) returns (rounds: nat)
    requires receiver != peer && receiver.setup.config == peer.setup.config
    requires receiver.Valid({}) && Covered(receiver.setup, receiver.View()) && NoneRejected(receiver.View(), b)
    requires peer.Valid({}) && b.Id() in peer.validBlocks
    requires Deliverable(receiver.setup, receiver.View(), b, now) && !receiver.View().Knows(b.Id())
    modifies receiver
    ensures receiver.Valid({}) && Covered(receiver.setup, receiver.View())
    ensures b.Id() in receiver.validBlocks <==>
            Unobstructed(receiver.setup, old(receiver.View()), b) && NoneRejected(receiver.View(), b)
    ensures BranchFair(receiver.setup, old(receiver.View()), b) ==>
            (b.Id() in receiver.validBlocks <==> Unobstructed(receiver.setup, old(receiver.View()), b))
    ensures OnlyBranchParked(old(receiver.View()), b) ==>
            (b.Id() in receiver.validBlocks <==>
              Unobstructed(receiver.setup, old(receiver.View()), b) &&
              !LookupBreaks(receiver.setup, old(receiver.View()), b))
    ensures OneBranch(old(receiver.View()), b) ==>
            (b.Id() in receiver.validBlocks <==> Unobstructed(receiver.setup, old(receiver.View()), b))
    ensures forall c :: OnBranch(c, b) && c.Id() in old(receiver.validBlocks) ==> rounds + c.seqno < b.seqno
  {
    hide HubState.Inv, Covered, Deliverable, Received, Gap, Stalled, NoAncestorParked, Drain.Drains, Types.OnBranch;
    hide NoneRejected, Rules.Rooted, BranchFair, OnlyBranchParked, LookupBreaks, Arrivable, OneBranch, Accepted;
    ghost var su, s0, held := receiver.setup, receiver.View(), peer.View();
    DeliverableTop(su, s0, b, now);
    GapStart(su, s0, b);
    if OneBranch(s0, b) {
      OneBranchUnbroken(su, s0, b);
    }
    InvPool(peer.setup, held, {});
    var m := b;
    rounds := 0;
    while true
      invariant peer.View() == held
      invariant Gap(su, s0, receiver.View(), b, m) || Stalled(su, s0, receiver.View(), b, m)
      invariant Deliverable(su, receiver.View(), b, now)
      invariant m.seqno <= b.seqno && rounds <= b.seqno - m.seqno
      invariant receiver.Valid({})
      decreases m.seqno, if receiver.View().Knows(m.Id()) then 0 else 1
    {
      ghost var s := receiver.View();
      RequestedAboveValid(su, s0, s, b, m);
      Arriving(su, s0, s, b, m, now);
      var sent, order := receiver.ReceiveBlock(Some(peerId), m, now);
      ghost var t := receiver.View();
      if |sent| != 1 || sent[0].Announce? {
        if s.Knows(m.Id()) {
          StallEnds(su, s0, s, b, m, now, order, t);
        } else {
          GapCloses(su, s0, s, b, m, now, order, t);
        }
        return;
      }
      var next := AfterRequest(su, s0, s, b, m, now, order, t);
      var response := peer.GetBlock(sent[0].id);
      AncestorsValid(peer.setup, held, b, next);
      TreeNode(peer.setup, held, next.Id());
      ArrivingNext(su, s0, s, t, b, next, now);
      m := response.value;
      rounds := rounds + 1;
    }
  }

  /** The same, started by the peer's announcement: a known block is not asked for, an unknown
      one is requested and then exchanged. */
  method Announced(receiver: PeerHub, peer: PeerHub, peerId: NodeId, b: Block, now: Timestamp) returns (rounds: nat)
    requires receiver != peer && receiver.setup.config == peer.setup.config
    requires receiver.Valid({}) && Covered(receiver.setup, receiver.View()) && NoneRejected(receiver.View(), b)
    requires peer.Valid({}) && b.Id() in peer.validBlocks
    requires Deliverable(receiver.setup, receiver.View(), b, now)
    modifies receiver
    ensures receiver.Valid({}) && Covered(receiver.setup, receiver.View())
    ensures old(receiver.View()).Knows(b.Id()) ==> receiver.View() == old(receiver.View()) && rounds == 0
    ensures !old(receiver.View()).Knows(b.Id()) ==>
      (b.Id() in receiver.validBlocks <==>
        Unobstructed(receiver.setup, old(receiver.View()), b) && NoneRejected(receiver.View(), b)) &&
      (BranchFair(receiver.setup, old(receiver.View()), b) ==>
        (b.Id() in receiver.validBlocks <==> Unobstructed(receiver.setup, old(receiver.View()), b))) &&
      (OnlyBranchParked(old(receiver.View()), b) ==>
        (b.Id() in receiver.validBlocks <==>
          Unobstructed(receiver.setup, old(receiver.View()), b) &&
          !LookupBreaks(receiver.setup, old(receiver.View()), b))) &&
      forall c :: OnBranch(c, b) && c.Id() in old(receiver.validBlocks) ==> rounds <= b.seqno - c.seqno
  {
    hide Covered, Deliverable, NoAncestorParked, NoneRejected, Types.OnBranch, HubState.IsTree, HubState.IsPool;
    hide Unobstructed, BranchFair, OnlyBranchParked, LookupBreaks;
    TreeNode(peer.setup, peer.View(), b.Id());
    var sent := receiver.AnnounceBlock(peerId, b.Id());
    if sent == [] {
      return 0;
    }
    var response := peer.GetBlock(sent[0].id);
    rounds := Exchange(receiver, peer, peerId, response.value, now);
    rounds := rounds + 1;
  }
}
