/** What is rejected by one message: the blocks that failed their checks, and with them, in the same
    step, everything that was filed below them at any depth. */
module Rejections {
  import opened Types
  import opened HubState
  import opened Drain
  import opened Runs

  /** The ids refused along an order, in that order. */
  ghost function Refused(su: Setup, s: State, order: seq<Block>): seq<BlockId>
    decreases |order|
  {
    if order == [] || !Judgeable(su, s, order[0]) then []
    else
      (if Verdict(su, s, order[0]) then [] else [order[0].Id()]) +
      Refused(su, Judge(su, s, order[0]), order[1..])
  }

  /** Something listed reaches `c` through the index. */
  ghost predicate ReachedFrom(next: Index, ids: seq<BlockId>, c: BlockId) {
    exists x :: x in ids && Reaches(next, x, c)
  }

  // ---------- reachability in an index with entries removed ----------

  lemma ReachesLess(next: Index, gone: set<BlockId>, x: BlockId, c: BlockId)
    requires Reaches(Pruned(next, gone), x, c)
    ensures Reaches(next, x, c)
  {
    var path :| Walk(Pruned(next, gone), path) && path[0] == x && path[|path| - 1] == c;
    assert Walk(next, path);
  }

  /** A set that holds the start and is closed holds everything reached. */
  lemma ReachesStaysIn(next: Index, ids: set<BlockId>, x: BlockId, c: BlockId)
    requires x in ids && Closed(next, ids) && Reaches(next, x, c)
    ensures c in ids
  {
    var path :| Walk(next, path) && path[0] == x && path[|path| - 1] == c;
    WalkStaysIn(next, path, ids);
  }

  /** Removing a cascade loses nothing but what the cascade itself holds. */
  lemma ReachesBeyondCascade(next: Index, gone: set<BlockId>, x: BlockId, c: BlockId)
    requires Closed(next, gone) && Reaches(next, x, c)
    ensures c in gone || Reaches(Pruned(next, gone), x, c)
  {
    var rest := Pruned(next, gone);
    var ids := Reached(rest, x) + gone;
    ReachedIsCascade(rest, x);
    forall p, y | p in ids && p in next && y in next[p] ensures y in ids {
      if p !in gone {
        assert p in rest && rest[p] == next[p];
      }
    }
    ReachesStaysIn(next, ids, x, c);
  }

  /** Removing the entry of an id that is filed nowhere changes nothing for the others. */
  lemma ReachesWithout(next: Index, id: BlockId, x: BlockId, c: BlockId)
    requires x != id && id !in FiledIds(next) && Reaches(next, x, c)
    ensures Reaches(Pruned(next, {id}), x, c)
  {
    var rest := Pruned(next, {id});
    ReachedIsCascade(rest, x);
    forall p, y | p in Reached(rest, x) && p in next && y in next[p] ensures y in Reached(rest, x) {
      assert p != id by {
        assert FiledIds(rest) <= FiledIds(next);
      }
      assert p in rest && rest[p] == next[p];
    }
    ReachesStaysIn(next, Reached(rest, x), x, c);
  }

  // ---------- one judgement ----------

  /** What one judgement leaves of the index and of the rejected ids. */
  lemma JudgeIndex(su: Setup, s: State, pending: set<BlockId>, b: Block)
    requires Inv(su, s, pending) && b.Id() in pending && Judgeable(su, s, b)
    ensures b.Id() !in FiledIds(s.nextBlocks)
    ensures Verdict(su, s, b) ==> Judge(su, s, b).nextBlocks == Pruned(s.nextBlocks, {b.Id()}) &&
                                  Judge(su, s, b).invalidBlocks == s.invalidBlocks
    ensures !Verdict(su, s, b) ==>
              Judge(su, s, b).nextBlocks == Pruned(s.nextBlocks, Reached(s.nextBlocks, b.Id())) &&
              Judge(su, s, b).invalidBlocks == s.invalidBlocks + Reached(s.nextBlocks, b.Id())
  {
    hide HubState.Verdict, HubState.AtVerdict, HubState.IsTree, Reached;
    PendingNotFiled(s, pending, b.Id());
    AtVerdictFrame(su, s, b);
    LeaderIsValid(su, s);
    RejectIndex(AtVerdict(su, s, b), b.Id());
  }

  lemma RejectIndex(s: State, id: BlockId)
    ensures Reject(s, id).nextBlocks == Pruned(s.nextBlocks, Reached(s.nextBlocks, id))
    ensures Reject(s, id).invalidBlocks == s.invalidBlocks + Reached(s.nextBlocks, id)
  {}

  lemma PendingNotFiled(s: State, pending: set<BlockId>, id: BlockId)
    requires Pool(s, pending) && id in pending
    ensures id !in FiledIds(s.nextBlocks)
  {
    assert ParentIn(s.validBlocks, id);
    forall p | p in s.nextBlocks ensures id !in s.nextBlocks[p] {
      assert id in s.nextBlocks[p] ==> ChildOf(id, p);
    }
  }

  /** Only parked blocks are refused. */
  lemma {:induction false} RefusedWereParked(su: Setup, s: State, pending: set<BlockId>, order: seq<Block>,
                                             t: State, left: set<BlockId>)
    requires Inv(su, s, pending) && Drains(su, s, pending, order, t, left)
    ensures forall x :: x in Refused(su, s, order) ==> x in s.unconfirmedBlocks
    decreases |order|
  {
    hide HubState.Judge, HubState.Verdict, HubState.PendingAfter, HubState.Judgeable, HubState.Inv, Progress;
    if order != [] {
      var b := order[0];
      JudgeInv(su, s, pending, b);
      JudgeProgress(su, s, pending, b);
      RefusedWereParked(su, Judge(su, s, b), PendingAfter(s, pending, b, Verdict(su, s, b)), order[1..], t, left);
    }
  }

  // ---------- a whole drain ----------

  /** A drain rejects exactly what was rejected before, what fails its checks, and what was filed below
      that at any depth when the drain began. */
  lemma {:induction false} DrainRejects(su: Setup, s: State, pending: set<BlockId>, order: seq<Block>,
                                        t: State, left: set<BlockId>)
    requires Inv(su, s, pending) && Drains(su, s, pending, order, t, left)
    ensures forall c :: c in t.invalidBlocks <==>
              c in s.invalidBlocks || ReachedFrom(s.nextBlocks, Refused(su, s, order), c)
    decreases |order|
  {
    hide HubState.Judge, HubState.Verdict, HubState.PendingAfter, HubState.Judgeable, HubState.Inv, Progress;
    hide ReachedFrom, Reached, Reaches, Pruned;
    if order == [] {
      NothingReached(s.nextBlocks);
    } else {
      var b := order[0];
      var m, rest := Judge(su, s, b), Refused(su, Judge(su, s, b), order[1..]);
      JudgeInv(su, s, pending, b);
      JudgeProgress(su, s, pending, b);
      JudgeIndex(su, s, pending, b);
      DrainRejects(su, m, PendingAfter(s, pending, b, Verdict(su, s, b)), order[1..], t, left);
      RefusedWereParked(su, m, PendingAfter(s, pending, b, Verdict(su, s, b)), order[1..], t, left);
      if Verdict(su, s, b) {
        assert [] + rest == rest;
        AcceptedIndex(s.nextBlocks, b.Id(), rest);
      } else {
        RefusedIndex(s.nextBlocks, b.Id(), rest);
      }
    }
  }

  lemma NothingReached(next: Index)
    ensures forall c :: !ReachedFrom(next, [], c)
  {}

  lemma AcceptedIndexAt(next: Index, id: BlockId, rest: seq<BlockId>, c: BlockId)
    requires id !in FiledIds(next) && id !in rest
    ensures ReachedFrom(Pruned(next, {id}), rest, c) <==> ReachedFrom(next, rest, c)
  {
    hide Reaches;
    if ReachedFrom(Pruned(next, {id}), rest, c) {
      var x :| x in rest && Reaches(Pruned(next, {id}), x, c);
      ReachesLess(next, {id}, x, c);
    }
    if ReachedFrom(next, rest, c) {
      var x :| x in rest && Reaches(next, x, c);
      ReachesWithout(next, id, x, c);
    }
  }

  lemma AcceptedIndex(next: Index, id: BlockId, rest: seq<BlockId>)
    requires id !in FiledIds(next) && id !in rest
    ensures forall c :: ReachedFrom(Pruned(next, {id}), rest, c) <==> ReachedFrom(next, rest, c)
  {
    hide ReachedFrom;
    forall c ensures ReachedFrom(Pruned(next, {id}), rest, c) <==> ReachedFrom(next, rest, c) {
      AcceptedIndexAt(next, id, rest, c);
    }
  }

  lemma RefusedIndexAt(next: Index, id: BlockId, rest: seq<BlockId>, c: BlockId)
    ensures var gone := Reached(next, id);
            ReachedFrom(next, [id] + rest, c) <==> c in gone || ReachedFrom(Pruned(next, gone), rest, c)
  {
    var gone := Reached(next, id);
    ReachedClosed(next, id);
    ReachedIsCascade(next, id);
    hide Reaches, Reached;
    if ReachedFrom(next, [id] + rest, c) {
      var x :| x in [id] + rest && Reaches(next, x, c);
      if x != id {
        ReachesBeyondCascade(next, gone, x, c);
      }
    }
    if c in gone {
      assert id in [id] + rest && Reaches(next, id, c);
    }
    if ReachedFrom(Pruned(next, gone), rest, c) {
      var x :| x in rest && Reaches(Pruned(next, gone), x, c);
      ReachesLess(next, gone, x, c);
      assert x in [id] + rest;
    }
  }

  lemma RefusedIndex(next: Index, id: BlockId, rest: seq<BlockId>)
    ensures forall c :: ReachedFrom(next, [id] + rest, c) <==>
              c in Reached(next, id) || ReachedFrom(Pruned(next, Reached(next, id)), rest, c)
  {
    hide ReachedFrom, Reached;
    forall c ensures ReachedFrom(next, [id] + rest, c) <==>
                     c in Reached(next, id) || ReachedFrom(Pruned(next, Reached(next, id)), rest, c) {
      RefusedIndexAt(next, id, rest, c);
    }
  }

  // ---------- a whole message ----------

  /** The blocks that fail while a received block is processed. */
  ghost function Dismissed(su: Setup, s: State, b: Block, now: Timestamp, order: seq<Block>): seq<BlockId> {
    if s.Knows(b.Id()) then []
    else if b.timestamp > now then [b.Id()]
    else if b.prevId in s.validBlocks then Refused(su, Held(s, b), order)
    else []
  }

  /** One message rejects exactly the blocks that fail and everything filed below them when it came. */
  lemma ReceivedRejects(su: Setup, s: State, b: Block, now: Timestamp, order: seq<Block>, t: State)
    requires Inv(su, s, {}) && Received(su, s, b, now, order, t)
    ensures forall c :: c in t.invalidBlocks <==>
              c in s.invalidBlocks || ReachedFrom(s.nextBlocks, Dismissed(su, s, b, now, order), c)
  {
    hide HubState.Inv, Drain.Drains, Refused, Reaches, HubState.Reject;
    if !s.Knows(b.Id()) && b.timestamp > now {
      RejectMeans(s, b.Id());
    } else if !s.Knows(b.Id()) && b.prevId in s.validBlocks {
      HeldInv(su, s, {}, b);
      assert {} + {b.Id()} == {b.Id()};
      DrainRejects(su, Held(s, b), {b.Id()}, order, t, {});
    }
  }

  lemma {:induction false} ReachesThrough(next: Index, x: BlockId, y: BlockId, c: BlockId)
    requires Reaches(next, x, y) && Reaches(next, y, c)
    ensures Reaches(next, x, c)
  {
    ReachedIsCascade(next, x);
    ReachesStaysIn(next, Reached(next, x), x, y);
    ReachesStaysIn(next, Reached(next, x), y, c);
  }

  /** So a block is never rejected alone: whatever is rejected by a message takes with it every orphan
      filed below it, at any depth, in the same step. */
  lemma RejectedTogether(su: Setup, s: State, b: Block, now: Timestamp, order: seq<Block>, t: State,
                         x: BlockId, c: BlockId)
    requires Inv(su, s, {}) && Received(su, s, b, now, order, t)
    requires x in t.invalidBlocks && x !in s.invalidBlocks && Reaches(s.nextBlocks, x, c)
    ensures c in t.invalidBlocks
  {
    hide HubState.Inv, Received, Dismissed, Reaches;
    ReceivedRejects(su, s, b, now, order, t);
    assert ReachedFrom(s.nextBlocks, Dismissed(su, s, b, now, order), x);
    var first :| first in Dismissed(su, s, b, now, order) && Reaches(s.nextBlocks, first, x);
    ReachesThrough(s.nextBlocks, first, x, c);
  }
}
