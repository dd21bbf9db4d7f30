/** Draining the orphan pool, flattened: a worklist of pending orphans from which any one
    may be judged next, each adoption adding the orphans that waited for it.  The recursive
    validator is proved to do exactly this, in some order. */
module Drain {
  import opened Types
  import opened Rules
  import opened HubState

  /** Judging the blocks of `order` one after the other, each of them pending when its turn
      comes, leads from `s` and `pending` to `t` and `left`. */
  ghost predicate Drains(su: Setup, s: State, pending: set<BlockId>, order: seq<Block>, t: State, left: set<BlockId>)
    decreases |order|
  {
    if order == [] then s == t && pending == left
    else
      var b := order[0];
      b.Id() in pending && Judgeable(su, s, b) &&
      Drains(su, Judge(su, s, b), PendingAfter(s, pending, b, Verdict(su, s, b)), order[1..], t, left)
  }

  /** The ids adopted along an order, in that order. */
  ghost function Adopted(su: Setup, s: State, order: seq<Block>): seq<BlockId>
    decreases |order|
  {
    if order == [] || !Judgeable(su, s, order[0]) then []
    else
      (if Verdict(su, s, order[0]) then [order[0].Id()] else []) +
      Adopted(su, Judge(su, s, order[0]), order[1..])
  }

  // ---------- composing drains ----------

  lemma {:induction false} DrainsConcat(su: Setup, s: State, p: set<BlockId>, first: seq<Block>,
                                        t: State, q: set<BlockId>, second: seq<Block>, u: State, r: set<BlockId>)
    requires Drains(su, s, p, first, t, q) && Drains(su, t, q, second, u, r)
    ensures Drains(su, s, p, first + second, u, r)
    ensures Adopted(su, s, first + second) == Adopted(su, s, first) + Adopted(su, t, second)
    decreases |first|
  {
    hide HubState.Judge, HubState.Verdict, HubState.Judgeable, HubState.PendingAfter;
    if first == [] {
      assert first + second == second;
    } else {
      var b := first[0];
      assert (first + second)[1..] == first[1..] + second;
      DrainsConcat(su, Judge(su, s, b), PendingAfter(s, p, b, Verdict(su, s, b)), first[1..], t, q, second, u, r);
    }
  }

  lemma DrainsFirst(su: Setup, s: State, p: set<BlockId>, b: Block, rest: seq<Block>, t: State, q: set<BlockId>)
    requires b.Id() in p && Judgeable(su, s, b)
    requires Drains(su, Judge(su, s, b), PendingAfter(s, p, b, Verdict(su, s, b)), rest, t, q)
    ensures Drains(su, s, p, [b] + rest, t, q)
    ensures Adopted(su, s, [b] + rest) ==
            (if Verdict(su, s, b) then [b.Id()] else []) + Adopted(su, Judge(su, s, b), rest)
  {
    assert ([b] + rest)[1..] == rest;
  }

  // ---------- what one judgement does ----------

  /** `t` was reached from `s` by judgements: nothing is forgotten, verdicts are final, and
      the leader is only ever replaced by a strictly higher block. */
  ghost predicate Progress(s: State, t: State) {
    && (forall id :: id in s.validBlocks ==> id in t.validBlocks && t.validBlocks[id] == s.validBlocks[id])
    && s.invalidBlocks <= t.invalidBlocks
    && (forall id :: s.Knows(id) ==> t.Knows(id))
    && s.leadingBlock in s.validBlocks && t.leadingBlock in t.validBlocks
    && (t.leadingBlock == s.leadingBlock ||
        t.validBlocks[t.leadingBlock].seqno > s.validBlocks[s.leadingBlock].seqno)
  }

  /** Judgements only use up the pool, and judge nothing that was not in it. */
  ghost predicate OnlyFromPool(s: State, t: State) {
    t.unconfirmedBlocks.Keys <= s.unconfirmedBlocks.Keys && (forall id :: t.Knows(id) ==> s.Knows(id))
  }

  lemma RejectProgress(s: State, pending: set<BlockId>, id: BlockId)
    requires Pool(s, pending) && s.leadingBlock in s.validBlocks
    ensures Progress(s, Reject(s, id))
    ensures Reject(s, id).unconfirmedBlocks == s.unconfirmedBlocks
    ensures forall x :: Reject(s, id).Knows(x) <==> s.Knows(x) || x == id
  {
    ReachedOrphans(s.unconfirmedBlocks, s.nextBlocks, id);
  }

  lemma OutcomeProgress(su: Setup, s: State, pending: set<BlockId>, b: Block, accepted: bool)
    requires Inv(su, s, pending) && !s.Knows(b.Id())
    ensures Progress(s, Outcome(s, b, accepted))
    ensures Outcome(s, b, accepted).unconfirmedBlocks == s.unconfirmedBlocks
    ensures forall x :: Outcome(s, b, accepted).Knows(x) <==> s.Knows(x) || x == b.Id()
    ensures Outcome(s, b, accepted).validBlocks == if accepted then s.validBlocks[b.Id() := b] else s.validBlocks
  {
    if !accepted {
      RejectProgress(s, pending, b.Id());
    }
  }

  lemma JudgeProgress(su: Setup, s: State, pending: set<BlockId>, b: Block)
    requires Inv(su, s, pending) && b.Id() in pending && Judgeable(su, s, b)
    ensures var t := Judge(su, s, b);
            Progress(s, t) && OnlyFromPool(s, t) &&
            t.unconfirmedBlocks == s.unconfirmedBlocks - {b.Id()} &&
            t.validBlocks == if Verdict(su, s, b) then s.validBlocks[b.Id() := b] else s.validBlocks
    ensures b.Id() !in s.validBlocks && b.Id() in s.unconfirmedBlocks
  {
    hide HubState.Verdict, HubState.AtVerdict, HubState.Outcome, HubState.IsTree;
    var m := AtVerdict(su, s, b);
    AtVerdictFrame(su, s, b);
    AtVerdictInv(su, s, pending, b);
    OutcomeProgress(su, m, pending - {b.Id()}, b, Verdict(su, s, b));
  }

  // ---------- what a whole drain does ----------

  lemma ProgressSame(su: Setup, s: State, pending: set<BlockId>)
    requires Inv(su, s, pending)
    ensures Progress(s, s) && OnlyFromPool(s, s)
  {}

  lemma ProgressThrough(s: State, m: State, t: State)
    requires Progress(s, m) && Progress(m, t) && OnlyFromPool(s, m) && OnlyFromPool(m, t)
    ensures Progress(s, t) && OnlyFromPool(s, t)
  {}

  /** A drain keeps the invariant and makes progress only. */
  lemma {:induction false} DrainsKeeps(su: Setup, s: State, pending: set<BlockId>, order: seq<Block>,
                                       t: State, left: set<BlockId>)
    requires Inv(su, s, pending) && Drains(su, s, pending, order, t, left)
    ensures Inv(su, t, left) && Progress(s, t) && OnlyFromPool(s, t)
    ensures order != [] ==> t.unconfirmedBlocks.Keys <= s.unconfirmedBlocks.Keys - {order[0].Id()}
    decreases |order|
  {
    hide HubState.Judge, HubState.Verdict, HubState.PendingAfter, HubState.Judgeable, HubState.Inv, Progress;
    if order == [] {
      ProgressSame(su, s, pending);
    } else {
      var b := order[0];
      var m, accepted := Judge(su, s, b), Verdict(su, s, b);
      JudgeInv(su, s, pending, b);
      JudgeProgress(su, s, pending, b);
      DrainsKeeps(su, m, PendingAfter(s, pending, b, accepted), order[1..], t, left);
      ProgressThrough(s, m, t);
    }
  }

  /** No id occurs twice. */
  ghost predicate NoRepeats(ids: seq<BlockId>) {
    forall i, j :: 0 <= i < j < |ids| ==> ids[i] != ids[j]
  }

  /** Each listed block's parent was valid before or is listed before it. */
  ghost predicate ParentsFirst(valid: set<BlockId>, ids: seq<BlockId>) {
    forall j :: 0 <= j < |ids| ==> ParentBefore(valid, ids, j)
  }

  ghost predicate ParentBefore(valid: set<BlockId>, ids: seq<BlockId>, j: nat)
    requires j < |ids|
  {
    ids[j].HashOf? &&
    (ids[j].block.prevId in valid || exists i :: 0 <= i < j && ids[i] == ids[j].block.prevId)
  }

  /** `ids` lists exactly the ids in `after` and not in `before`, once each, parents first. */
  ghost predicate Lists(before: set<BlockId>, after: set<BlockId>, ids: seq<BlockId>) {
    (forall id :: id in ids <==> id in after && id !in before) && NoRepeats(ids) && ParentsFirst(before, ids)
  }

  lemma ConsIds(before: set<BlockId>, after: set<BlockId>, id: BlockId, rest: seq<BlockId>)
    requires id.HashOf? && id.block.prevId in before && id !in before && id in after
    requires Lists(before + {id}, after, rest)
    ensures Lists(before, after, [id] + rest)
  {
    var all := [id] + rest;
    forall j | 0 <= j < |all| ensures ParentBefore(before, all, j) {
      if j > 0 {
        assert ParentBefore(before + {id}, rest, j - 1);
        var p := rest[j - 1].block.prevId;
        if p == id {
          assert all[0] == p;
        } else if p !in before {
          var i :| 0 <= i < j - 1 && rest[i] == p;
          assert all[i + 1] == p;
        }
      }
    }
  }

  lemma NothingListed(s: State)
    ensures Lists(s.validBlocks.Keys, s.validBlocks.Keys, [])
  {}

  lemma ProgressKeys(s: State, t: State)
    requires Progress(s, t)
    ensures s.validBlocks.Keys <= t.validBlocks.Keys
  {}

  lemma JudgedParentValid(su: Setup, s: State, b: Block)
    requires Judgeable(su, s, b)
    ensures b.prevId in s.validBlocks.Keys
  {}

  /** The adopted ids are exactly the newly valid ones, once each, parents before children. */
  lemma {:induction false} AdoptedIsNewlyValid(su: Setup, s: State, pending: set<BlockId>, order: seq<Block>,
                                               t: State, left: set<BlockId>)
    requires Inv(su, s, pending) && Drains(su, s, pending, order, t, left)
    ensures Lists(s.validBlocks.Keys, t.validBlocks.Keys, Adopted(su, s, order))
    decreases |order|
  {
    hide HubState.Judge, HubState.Verdict, HubState.PendingAfter, HubState.Judgeable, HubState.Inv, Progress, Lists;
    if order == [] {
      NothingListed(s);
    } else {
      var b := order[0];
      var m, accepted := Judge(su, s, b), Verdict(su, s, b);
      var next := PendingAfter(s, pending, b, accepted);
      JudgeInv(su, s, pending, b);
      JudgeProgress(su, s, pending, b);
      JudgedParentValid(su, s, b);
      AdoptedIsNewlyValid(su, m, next, order[1..], t, left);
      DrainsKeeps(su, m, next, order[1..], t, left);
      ProgressKeys(m, t);
      if accepted {
        assert m.validBlocks.Keys == s.validBlocks.Keys + {b.Id()};
        ConsIds(s.validBlocks.Keys, t.validBlocks.Keys, b.Id(), Adopted(su, m, order[1..]));
      } else {
        assert [] + Adopted(su, m, order[1..]) == Adopted(su, m, order[1..]);
      }
    }
  }

  // ---------- the recursion unrolls into a drain ----------

  /** A block whose parent is valid may be treated as one more pending orphan. */
  lemma HeldInv(su: Setup, s: State, pending: set<BlockId>, b: Block)
    requires Inv(su, s, pending) && !s.Knows(b.Id()) && b.prevId in s.validBlocks
    ensures Inv(su, Held(s, b), pending + {b.Id()}) && b.Id() !in pending
    ensures Judgeable(su, Held(s, b), b)
  {
    var t, more := Held(s, b), pending + {b.Id()};
    forall c | c in t.unconfirmedBlocks && c !in more
      ensures FiledIn(t.nextBlocks, c) || CondemnedIn(t.invalidBlocks, c)
    {
      assert c in s.unconfirmedBlocks && c !in pending;
    }
  }

  /** What holds when the verdict on a held block falls, and what judging it comes to. */
  lemma VerdictOnHeld(su: Setup, s: State, pending: set<BlockId>, b: Block)
    requires Inv(su, s, pending) && !s.Knows(b.Id()) && b.prevId in s.validBlocks
    ensures Judgeable(su, s, b) && Judgeable(su, Held(s, b), b)
    ensures var m := if HeaderVerdict(su, s, b) then MoveCashTo(su, s, s.validBlocks[b.prevId]) else s;
            Inv(su, m, pending) && !m.Knows(b.Id()) && m.validBlocks == s.validBlocks &&
            (Verdict(su, s, b) <==> Verdict(su, Held(s, b), b)) &&
            (Verdict(su, s, b) ==> LocalOk(su.config, m.validBlocks[b.prevId], b)) &&
            Judge(su, Held(s, b), b) == Outcome(m, b, Verdict(su, s, b)) &&
            PendingAfter(Held(s, b), pending + {b.Id()}, b, Verdict(su, s, b))
              == pending + (if Verdict(su, s, b) then m.Waiting(b.Id()) else {})
  {
    hide HubState.IsTree, HubState.Verdict, HubState.HeaderVerdict, HubState.AtVerdict, HubState.Outcome, Rules.LocalOk;
    HeldInv(su, s, pending, b);
    JudgeHeld(su, s, b);
    AtVerdictInv(su, Held(s, b), pending + {b.Id()}, b);
    assert pending + {b.Id()} - {b.Id()} == pending;
    if Verdict(su, s, b) {
      VerdictImpliesLocal(su, s, b);
    }
  }

  /** Blocks waiting for an unknown block are not pending already. */
  lemma WaitingNotPending(su: Setup, s: State, pending: set<BlockId>, id: BlockId)
    requires Inv(su, s, pending)
    ensures pending !! s.Waiting(id)
  {
    forall c | c in s.Waiting(id) ensures !ParentIn(s.validBlocks, c) {
      assert ChildOf(c, id);
    }
  }

  /** Taking one waiting orphan out of the pool, to be judged. */
  lemma BeforeChild(su: Setup, s: State, pending: set<BlockId>, waiting: set<BlockId>, c: BlockId)
    requires Inv(su, s, pending + waiting) && c in waiting && pending !! waiting
    ensures c in s.unconfirmedBlocks && s.unconfirmedBlocks[c].Id() == c
    ensures s.unconfirmedBlocks[c].prevId in s.validBlocks
    ensures Inv(su, Unparked(s, c), pending + (waiting - {c})) && !Unparked(s, c).Knows(c)
    ensures Held(Unparked(s, c), s.unconfirmedBlocks[c]) == s
    ensures (pending + (waiting - {c})) + {c} == pending + waiting
  {
    assert ParentIn(s.validBlocks, c);
    UnparkPool(s, pending + waiting, c);
    assert pending + waiting - {c} == pending + (waiting - {c});
  }

  /** One more waiting orphan has been judged, and the pool drained below it. */
  lemma AfterChild(su: Setup, s0: State, all: set<BlockId>, order: seq<Block>, s: State, p: set<BlockId>,
                   more: seq<Block>, t: State, q: set<BlockId>)
    requires Inv(su, s, p)
    requires Drains(su, s0, all, order, s, p) && Drains(su, s, p, more, t, q)
    ensures Inv(su, t, q) && Drains(su, s0, all, order + more, t, q)
    ensures Adopted(su, s0, order + more) == Adopted(su, s0, order) + Adopted(su, s, more)
    ensures t.unconfirmedBlocks.Keys <= s.unconfirmedBlocks.Keys
  {
    hide HubState.Inv, Drains, Adopted;
    DrainsConcat(su, s0, all, order, s, p, more, t, q);
    DrainsKeeps(su, s, p, more, t, q);
  }

  /** A new block is pending, is judged first, and the pool is drained after it. */
  lemma DrainFromHeld(su: Setup, s: State, pending: set<BlockId>, b: Block, m: State, rest: seq<Block>, t: State)
    requires Inv(su, s, pending) && !s.Knows(b.Id()) && b.prevId in s.validBlocks
    requires Judgeable(su, s, b)
    requires m == if HeaderVerdict(su, s, b) then MoveCashTo(su, s, s.validBlocks[b.prevId]) else s
    requires m.leadingBlock in m.validBlocks
    requires var accepted := Verdict(su, s, b);
             var after := pending + if accepted then m.Waiting(b.Id()) else {};
             Drains(su, Outcome(m, b, accepted), after, rest, t, pending)
    ensures Drains(su, Held(s, b), pending + {b.Id()}, [b] + rest, t, pending)
    ensures Adopted(su, Held(s, b), [b] + rest) ==
            (if Verdict(su, s, b) then [b.Id()] else []) + Adopted(su, Outcome(m, b, Verdict(su, s, b)), rest)
  {
    hide HubState.Inv, HubState.Verdict, HubState.HeaderVerdict, HubState.Judge, HubState.Outcome;
    VerdictOnHeld(su, s, pending, b);
    DrainsFirst(su, Held(s, b), pending + {b.Id()}, b, rest, t, pending);
  }

  /** A block that is still in the pool after it was received was parked, because its parent
      is missing. */
  lemma ParkedBecauseParentMissing(su: Setup, s: State, b: Block, order: seq<Block>, t: State)
    requires Inv(su, s, {}) && !s.Knows(b.Id()) && b.Id() in t.unconfirmedBlocks
    requires b.prevId in s.validBlocks ==>
               order != [] && order[0] == b && Drains(su, Held(s, b), {b.Id()}, order, t, {})
    requires b.prevId !in s.validBlocks ==> t == Park(s, b)
    ensures b.prevId !in s.validBlocks && b.prevId !in t.validBlocks
  {
    hide HubState.Inv, Drains, Progress;
    if b.prevId in s.validBlocks {
      HeldInv(su, s, {}, b);
      assert {} + {b.Id()} == {b.Id()};
      DrainsKeeps(su, Held(s, b), {b.Id()}, order, t, {});
      assert false;
    }
  }
}
