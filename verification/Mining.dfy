/** Building a block on the leader, mining it and submitting it. */
module Mining {
  import opened Types
  import opened Difficulty
  import opened Ledger
  import opened Rules
  import opened HubState
  import opened Drain
  import opened Walks
  import opened Runs
  import opened Transactions
  import opened Acceptance
  import opened Transfer
  import opened Hub
  import opened ProofOfWork
  import Supply

  /** A block to be mined on `prev`, with the current time and a new cash id for its reward. */
  function NewUnconfirmed(prev: Block, miner: Address, txns: seq<Transaction>, prevAdjustmentTime: Option<Timestamp>,
                          config: Config, now: Timestamp, rewardId: nat): Result<Unconfirmed, MiningError>
  {
    var seqno := prev.seqno + 1;
    var adjusting := seqno % config.difficultyAdjustmentPeriod == 0;
    if adjusting && prevAdjustmentTime.None? then Failure(AdjustmentTimeRequired)
    else
      var difficulty :=
        if adjusting then Adjust(config, prev.difficulty, TimeSpan(now, prevAdjustmentTime.value))
        else prev.difficulty;
      var reward := Cash(rewardId, Wrap(Subsidy(config, seqno) + Fees(txns)), miner);
      Success(Unconfirmed(seqno, difficulty, prev.Id(), txns, reward, miner, now))
  }

  // ---------- the validator agrees with the producer ----------

  /** The time the producer is told for the adjustment, when it asks. */
  function AdjustmentTime(config: Config, chain: seq<Block>, seqno: nat): Option<Timestamp> {
    match AdjustmentBlock(config, chain, seqno)
    case Some(b) => Some(b.timestamp)
    case None => None
  }

  /** The unspent set that the hub uses at its leader. */
  ghost function LeaderCash(su: Setup, s: State): set<Cash>
    requires Tree(su, s)
  {
    TreeNode(su, s, s.leadingBlock);
    CashMoved(su, s, s.validBlocks[s.leadingBlock])
  }

  /** A block built on the leader with the queried adjustment time, at a time not before the
      leader's, passes every check if and only if its inputs are in the unspent set that the hub
      uses at the leader. */
  lemma ProducedPassesIff(su: Setup, s: State, miner: Address, txns: seq<Transaction>, now: Timestamp, rewardId: nat,
                          nonce: nat, signature: nat)
    requires Tree(su, s) && s.leadingBlock in s.validBlocks
    requires s.validBlocks[s.leadingBlock].timestamp <= now
    ensures var leader := s.validBlocks[s.leadingBlock];
            var adjustmentTime := AdjustmentTime(su.config, Branch(leader), leader.seqno + 1);
            var r := NewUnconfirmed(leader, miner, txns, adjustmentTime, su.config, now, rewardId);
            r.Success? &&
            var b := Sealed(r.value, nonce, signature);
            BuiltOn(s, b, now) && Pays(su.config, b, miner, txns, rewardId) && Judgeable(su, s, b) &&
            (Verdict(su, s, b) <==> InputsOf(txns) <= LeaderCash(su, s))
  {
    hide HubState.IsTree, HubState.CashMoved, Types.Branch, Rules.AdjustmentBlock, Transactions.Wrap;
    var leader := s.validBlocks[s.leadingBlock];
    TreeNode(su, s, s.leadingBlock);
    LookupInRange(su, s, leader);
    AdjustmentFound(su.config, Branch(leader), leader.seqno + 1);
  }

  /** What the coins of one owner in a set of cash are worth. */
  ghost function CoinsWorth(cash: set<Cash>, owner: Address): nat {
    Supply.Total(CoinsOf(cash, owner))
  }

  /** The owner has got the reward: it is unspent at the block, and, being new, makes the owner's coins
      worth just that much more than what the block's transactions alone would leave. */
  ghost predicate PaidOut(b: Block, owner: Address) {
    b.prevId.HashOf? && b.reward.owner == owner && b.reward in Utxo(b) &&
    var before := ApplyTxns(Utxo(b.prevId.block), b.transactions);
    (b.reward !in before ==> CoinsWorth(Utxo(b), owner) == CoinsWorth(before, owner) + b.reward.amount)
  }

  lemma RewardUnspent(b: Block)
    requires b.prevId.HashOf?
    ensures PaidOut(b, b.reward.owner)
  {
    hide Utxo, ApplyTxns, Supply.Total;
    UtxoUnfold(b);
    var before := ApplyTxns(Utxo(b.prevId.block), b.transactions);
    assert Utxo(b) == before + {b.reward};
    if b.reward !in before {
      var coins := CoinsOf(before, b.reward.owner);
      assert CoinsOf(before + {b.reward}, b.reward.owner) == coins + {b.reward};
      Supply.TotalRemove(coins + {b.reward}, b.reward);
      assert coins + {b.reward} - {b.reward} == coins;
    }
  }

  /** A block of this moment, one above the leader. */
  predicate BuiltOn(s: State, b: Block, now: Timestamp) {
    s.leadingBlock in s.validBlocks && b.prevId == s.leadingBlock &&
    b.seqno == s.validBlocks[s.leadingBlock].seqno + 1 && b.timestamp == now
  }

  /** The block pays subsidy and fees, as one new coin, to its miner. */
  predicate Pays(config: Config, b: Block, miner: Address, txns: seq<Transaction>, rewardId: nat) {
    b.miner == miner && b.transactions == txns &&
    b.reward == Cash(rewardId, Wrap(Subsidy(config, b.seqno) + Fees(txns)), miner)
  }

  // ---------- mining on the leader ----------

  /** What becomes of a received block that passes its checks. */
  lemma AcceptedOnArrival(su: Setup, s: State, b: Block, now: Timestamp, order: seq<Block>, t: State)
    requires Inv(su, s, {}) && Received(su, s, b, now, order, t)
    requires !s.Knows(b.Id()) && b.timestamp <= now
    requires Judgeable(su, s, b) && Verdict(su, s, b)
    ensures b.Id() in t.validBlocks
    ensures t.leadingBlock in t.validBlocks && t.validBlocks[t.leadingBlock].seqno >= b.seqno
    ensures s.Waiting(b.Id()) == {} ==> t == Outcome(AtVerdict(su, Held(s, b), b), b, true)
  {
    hide HubState.Judge, HubState.Verdict, HubState.HeaderVerdict, HubState.AtVerdict, HubState.Outcome;
    hide HubState.Inv, Progress;
    var held := Held(s, b);
    HeldInv(su, s, {}, b);
    assert {} + {b.Id()} == {b.Id()};
    VerdictOnHeld(su, s, {}, b);
    JudgeInv(su, held, {b.Id()}, b);
    JudgeProgress(su, held, {b.Id()}, b);
    var m, pending := Judge(su, held, b), PendingAfter(held, {b.Id()}, b, true);
    DrainsKeeps(su, m, pending, order[1..], t, {});
    ProgressKeeps(m, t, b.Id());
    InvLeaderHighest(su, t, b);
    if s.Waiting(b.Id()) == {} {
      assert pending == {};
      NothingToDrain(su, m, order[1..], t);
      JudgeOutcome(su, held, b);
    }
  }

  lemma JudgeOutcome(su: Setup, s: State, b: Block)
    requires Judgeable(su, s, b) && Verdict(su, s, b)
    ensures Judge(su, s, b) == Outcome(AtVerdict(su, s, b), b, true)
  {}

  lemma ProgressKeeps(s: State, t: State, id: BlockId)
    requires Progress(s, t) && id in s.validBlocks
    ensures id in t.validBlocks
  {}

  lemma InvLeaderHighest(su: Setup, s: State, b: Block)
    requires Inv(su, s, {}) && b.Id() in s.validBlocks
    ensures s.leadingBlock in s.validBlocks && s.validBlocks[s.leadingBlock].seqno >= b.seqno
  {}

  lemma NothingToDrain(su: Setup, s: State, order: seq<Block>, t: State)
    requires Drains(su, s, {}, order, t, {})
    ensures t == s
  {
    assert order == [];
  }

  lemma AdoptLeads(s: State, b: Block)
    requires s.leadingBlock in s.validBlocks && b.seqno == s.validBlocks[s.leadingBlock].seqno + 1
    ensures Adopt(s, b).leadingBlock == b.Id() && Adopt(s, b).validBlocks == s.validBlocks[b.Id() := b]
  {}

  /** And of one that does not. */
  lemma RejectedOnArrival(su: Setup, s: State, b: Block, now: Timestamp, order: seq<Block>, t: State)
    requires Inv(su, s, {}) && Received(su, s, b, now, order, t)
    requires !s.Knows(b.Id()) && b.timestamp <= now
    requires Judgeable(su, s, b) && !Verdict(su, s, b)
    ensures b.Id() in t.invalidBlocks && b.Id() !in t.validBlocks
  {
    hide HubState.Judge, HubState.Verdict, HubState.HeaderVerdict, HubState.AtVerdict, HubState.Outcome;
    hide HubState.Inv, Progress;
    var held := Held(s, b);
    HeldInv(su, s, {}, b);
    assert {} + {b.Id()} == {b.Id()};
    VerdictOnHeld(su, s, {}, b);
    JudgeInv(su, held, {b.Id()}, b);
    var m, pending := Judge(su, held, b), PendingAfter(held, {b.Id()}, b, false);
    DrainsKeeps(su, m, pending, order[1..], t, {});
    RejectedIsInvalid(if HeaderVerdict(su, s, b) then MoveCashTo(su, s, s.validBlocks[b.prevId]) else s, b);
    ProgressKeepsRejected(su, m, t, b.Id());
  }

  lemma RejectedIsInvalid(s: State, b: Block)
    requires s.leadingBlock in s.validBlocks
    ensures b.Id() in Outcome(s, b, false).invalidBlocks
  {
    ReachedClosed(s.nextBlocks, b.Id());
  }

  lemma ProgressKeepsRejected(su: Setup, s: State, t: State, id: BlockId)
    requires Progress(s, t) && Inv(su, t, {}) && id in s.invalidBlocks
    ensures id in t.invalidBlocks && id !in t.validBlocks
  {}

  /** `u` is a block for the leader that passes, whatever its nonce, exactly when its inputs are in
      the unspent set in use there. */
  ghost predicate FitForLeader(su: Setup, s: State, u: Unconfirmed, now: Timestamp, rewardId: nat)
    requires Tree(su, s)
  {
    forall nonce: nat, signature: nat ::
      var b := Sealed(u, nonce, signature);
      BuiltOn(s, b, now) && Pays(su.config, b, u.miner, u.transactions, rewardId) && Judgeable(su, s, b) &&
      (Verdict(su, s, b) <==> InputsOf(u.transactions) <= LeaderCash(su, s))
  }

  /** Asks the hub for the leader and, when needed, the adjustment time, and builds a block. */
  method BuildOnLeader(hub: PeerHub, miner: Address, txns: seq<Transaction>, rewardId: nat, now: Timestamp)
      returns (u: Unconfirmed)
    requires Tree(hub.setup, hub.View()) && hub.leadingBlock in hub.validBlocks
    requires hub.validBlocks[hub.leadingBlock].timestamp <= now
    ensures FitForLeader(hub.setup, hub.View(), u, now, rewardId) && u.transactions == txns && u.miner == miner
  {
    hide HubState.Tree, HubState.Judgeable, HubState.Verdict, LeaderCash, BuiltOn, Pays;
    ghost var su, s := hub.setup, hub.View();
    var leading := hub.validBlocks[hub.leadingBlock];
    var newSeqno := leading.seqno + 1;
    var prevAdjustmentTime: Option<Timestamp> := None;
    if newSeqno % hub.setup.config.difficultyAdjustmentPeriod == 0 {
      var adjustment := hub.PrevDifficultyAdjustedBlock(newSeqno, hub.leadingBlock);
      prevAdjustmentTime := if adjustment.Some? then Some(adjustment.value.timestamp) else None;
    }
    ProducedPassesIff(su, s, miner, txns, now, rewardId, 0, 0);
    u := NewUnconfirmed(leading, miner, txns, prevAdjustmentTime, hub.setup.config, now, rewardId).value;
    forall nonce: nat, signature: nat
      ensures var b := Sealed(u, nonce, signature);
              BuiltOn(s, b, now) && Pays(su.config, b, miner, txns, rewardId) && Judgeable(su, s, b) &&
              (Verdict(su, s, b) <==> InputsOf(txns) <= LeaderCash(su, s))
    {
      ProducedPassesIff(su, s, miner, txns, now, rewardId, nonce, signature);
    }
  }

  /** One undisturbed round of the miner: build a block on the leader, mine it and submit it.  On a
      clock that does not go back the hub accepts a new block if and only if its inputs are in the
      unspent set that it uses at the leader, and otherwise rejects it; the miner is paid.  An accepted block becomes
      the leader itself unless orphans were already waiting for it. */
  method MineRound(hub: PeerHub, codec: Codec, miner: Address, sign: seq<Byte> -> nat, txns: seq<Transaction>,
                   rewardId: nat, now: Timestamp, later: Timestamp) returns (r: Result<Block, MiningError>)
    requires hub.Valid({}) && hub.leadingBlock in hub.validBlocks
    requires hub.validBlocks[hub.leadingBlock].timestamp <= now <= later
    modifies hub
    ensures hub.Valid({})
    ensures r.Failure? ==> r.error == NoNonce && hub.View() == old(hub.View())
    ensures r.Success? ==>
      r.value.prevId == old(hub.leadingBlock) && r.value.transactions == txns && VerifyNonce(codec, r.value)
    ensures r.Success? ==> Pays(hub.setup.config, r.value, miner, txns, rewardId) && PaidOut(r.value, miner)
    ensures Tree(hub.setup, old(hub.View()))
    ensures r.Success? && !old(hub.View()).Knows(r.value.Id()) ==>
      var id := r.value.Id();
      if InputsOf(txns) <= LeaderCash(hub.setup, old(hub.View()))
      then id in hub.validBlocks && hub.leadingBlock in hub.validBlocks &&
           hub.validBlocks[hub.leadingBlock].seqno >= r.value.seqno &&
           (old(hub.View()).Waiting(id) == {} ==>
             hub.leadingBlock == id && hub.validBlocks == old(hub.validBlocks)[id := r.value])
      else id in hub.invalidBlocks && id !in hub.validBlocks
  {
    hide HubState.Inv, HubState.Judgeable, HubState.Verdict, LeaderCash, Received, VerifyNonce;
    hide PaidOut;
    ghost var su, s := hub.setup, hub.View();
    InvPool(su, s, {});
    var u := BuildOnLeader(hub, miner, txns, rewardId, now);
    r := TryConfirm(codec, u, miner, sign);
    if r.Success? {
      var block := r.value;
      assert BuiltOn(s, block, now) && Pays(su.config, block, miner, txns, rewardId) && Judgeable(su, s, block);
      RewardPaidOut(su, s, block);
      var sent, order := hub.ReceiveBlock(None, block, later);
      if !s.Knows(block.Id()) {
        if Verdict(su, s, block) {
          AcceptedOnArrival(su, s, block, later, order, hub.View());
          HeldLeader(su, s, block);
        } else {
          RejectedOnArrival(su, s, block, later, order, hub.View());
        }
      }
    }
  }

  lemma RewardPaidOut(su: Setup, s: State, b: Block)
    requires Judgeable(su, s, b)
    ensures PaidOut(b, b.reward.owner)
  {
    TreeNode(su, s, b.prevId);
    RewardUnspent(b);
  }

  /** An unobstructed adoption on the leader replaces it. */
  lemma HeldLeader(su: Setup, s: State, b: Block)
    requires Inv(su, s, {}) && !s.Knows(b.Id()) && Judgeable(su, s, b)
    requires s.leadingBlock in s.validBlocks && b.seqno == s.validBlocks[s.leadingBlock].seqno + 1
    ensures Judgeable(su, Held(s, b), b)
    ensures var t := Outcome(AtVerdict(su, Held(s, b), b), b, true);
            t.leadingBlock == b.Id() && t.validBlocks == s.validBlocks[b.Id() := b]
  {
    HeldInv(su, s, {}, b);
    AtVerdictFrame(su, Held(s, b), b);
    AdoptLeads(AtVerdict(su, Held(s, b), b), b);
  }

  // ---------- submitting later ----------

  /** `b` is in order on top of `prev`, but for its target and its inputs. */
  predicate StandsOn(config: Config, prev: Block, b: Block) {
    b.prevId == prev.Id() && b.seqno == prev.seqno + 1 && b.timestamp >= prev.timestamp && RewardOk(config, b)
  }

  /** Whatever time the producer is told for the adjustment, and whatever it knows by then, the block it
      builds stands on the block it was built on. */
  lemma ProducedStands(prev: Block, miner: Address, txns: seq<Transaction>, prevAdjustmentTime: Option<Timestamp>,
                       config: Config, now: Timestamp, rewardId: nat, nonce: nat, signature: nat)
    requires prev.timestamp <= now
    ensures var r := NewUnconfirmed(prev, miner, txns, prevAdjustmentTime, config, now, rewardId);
            r.Success? ==> StandsOn(config, prev, Sealed(r.value, nonce, signature)) &&
                           Sealed(r.value, nonce, signature).transactions == txns
  {
    hide Transactions.Wrap, Rules.Subsidy;
  }

  /** The target of `b` is the one that a lookup on `chain` calls for. */
  predicate TargetAgrees(config: Config, prev: Block, b: Block, chain: seq<Block>)
    requires 0 < b.seqno <= |chain|
  {
    b.difficulty == ExpectedDifficulty(config, prev, b.seqno, b.timestamp, chain)
  }

  /** A block that stands on a valid block passes if and only if its target agrees with the lookup at
      the time and its inputs are in the unspent set in use at its parent. */
  lemma StandingPassesIff(su: Setup, s: State, b: Block)
    requires Judgeable(su, s, b) && StandsOn(su.config, s.validBlocks[b.prevId], b)
    ensures var prev := s.validBlocks[b.prevId];
            prev.Id() in s.validBlocks && 0 < b.seqno <= |LookupChain(su, s, prev)| &&
            (Verdict(su, s, b) <==>
              TargetAgrees(su.config, prev, b, LookupChain(su, s, prev)) && Spends(b) <= CashMoved(su, s, prev))
  {
    hide HubState.IsTree, HubState.CashMoved, Types.Branch, ExpectedDifficulty;
    TreeNode(su, s, b.prevId);
    LookupInRange(su, s, s.validBlocks[b.prevId]);
  }

  /** Submission at any later time.  Whatever messages the hub has received since the block was built,
      the parent is still valid, and a new block is accepted if and only if its target agrees with the
      lookup now and its inputs are in the unspent set now in use at its parent; otherwise it is
      rejected. */
  lemma SubmittedLater(su: Setup, run: Run, later: Run, b: Block, now: Timestamp, order: seq<Block>, t: State)
    requires Legal(su, later) && Continues(run, later)
    requires b.prevId in StateOf(su, run).validBlocks
    requires StandsOn(su.config, StateOf(su, run).validBlocks[b.prevId], b)
    requires Received(su, StateOf(su, later), b, now, order, t) && b.timestamp <= now
    requires !StateOf(su, later).Knows(b.Id())
    ensures var s := StateOf(su, later);
            Judgeable(su, s, b) && s.validBlocks[b.prevId] == StateOf(su, run).validBlocks[b.prevId]
    ensures var s := StateOf(su, later);
            var prev := s.validBlocks[b.prevId];
            prev.Id() in s.validBlocks && 0 < b.seqno <= |LookupChain(su, s, prev)| &&
            if TargetAgrees(su.config, prev, b, LookupChain(su, s, prev)) && Spends(b) <= CashMoved(su, s, prev)
            then b.Id() in t.validBlocks
            else b.Id() in t.invalidBlocks && b.Id() !in t.validBlocks
  {
    hide Legal, Received, HubState.Inv, HubState.Verdict, HubState.CashMoved, HubState.LookupChain, StandsOn;
    hide TargetAgrees, Spends;
    var s := StateOf(su, later);
    PermanentVerdicts(su, run, later, b.prevId);
    RunInv(su, later);
    InvPool(su, s, {});
    StandingPassesIff(su, s, b);
    if Verdict(su, s, b) {
      AcceptedOnArrival(su, s, b, now, order, t);
    } else {
      RejectedOnArrival(su, s, b, now, order, t);
    }
  }

  /** Inputs that are truly unspent at the parent stay covered, whatever other branches the hub has
      followed: then only the target decides. */
  lemma TrueCashLater(su: Setup, run: Run, later: Run, known: set<Cash>, b: Block, now: Timestamp,
                      order: seq<Block>, t: State)
    requires Legal(su, later) && Continues(run, later)
    requires b.prevId in StateOf(su, run).validBlocks
    requires StandsOn(su.config, StateOf(su, run).validBlocks[b.prevId], b)
    requires Spends(b) <= Utxo(StateOf(su, run).validBlocks[b.prevId])
    requires su.repairs.writeBack ==> LedgerExact(su, known, StateOf(su, later))
    requires Received(su, StateOf(su, later), b, now, order, t) && b.timestamp <= now
    requires !StateOf(su, later).Knows(b.Id())
    ensures var s, prev := StateOf(su, later), StateOf(su, run).validBlocks[b.prevId];
            s.leadingBlock in s.validBlocks && 0 < b.seqno <= |LookupChain(su, s, prev)| &&
            (b.Id() in t.validBlocks <==> TargetAgrees(su.config, prev, b, LookupChain(su, s, prev)))
  {
    hide Legal, Received, HubState.Inv, HubState.CashMoved, HubState.LookupChain, StandsOn, TargetAgrees, Spends, Utxo;
    hide LedgerExact;
    SubmittedLater(su, run, later, b, now, order, t);
    RunInv(su, later);
    InvPool(su, StateOf(su, later), {});
    LeaderIsValid(su, StateOf(su, later));
    CashCoversUtxo(su, known, StateOf(su, later), StateOf(su, run).validBlocks[b.prevId]);
  }

  /** A target taken from the parent's own chain still agrees as long as the leader descends from the
      parent, or the number is no adjustment number. */
  lemma TargetStillAgrees(config: Config, prev: Block, b: Block, leader: Block)
    requires b.prevId == prev.Id() && b.seqno == prev.seqno + 1
    requires prev.seqno < |Branch(prev)| && prev.seqno < |Branch(leader)|
    requires TargetAgrees(config, prev, b, Branch(prev))
    requires OnBranch(prev, leader) || b.seqno % config.difficultyAdjustmentPeriod != 0
    ensures TargetAgrees(config, prev, b, Branch(leader))
  {
    hide Types.Branch, AdjustmentBlock, Adjust, TimeSpan;
    if OnBranch(prev, leader) {
      FoundAbove(config, leader, b);
    }
  }

  // ---------- from a transfer to a block ----------

  /** Moving the cached set to where it was just moved leaves it as it is. */
  lemma MoveTwice(su: Setup, s: State, at: Block)
    requires Tree(su, s) && at.Id() in s.validBlocks
    ensures var t := MoveCashTo(su, s, at);
            Tree(su, t) && CashMoved(su, t, at) == CashMoved(su, s, at)
  {
    TreeBranch(su, s, at.Id());
    TreeBranch(su, s, s.cashBlockId);
    var from := s.cashBlockId.block;
    assert CashMoved(su, s, at) == MoveCash(s.cashSet, from, at);
    if su.repairs.writeBack {
      MovedAgain(s.cashSet, from, at);
    } else {
      GenesisBranch(su.config);
      MovedAgainFromRoot(s.cashSet, from, at);
    }
  }

  lemma MovedAgainFromRoot(cash: set<Cash>, root: Block, at: Block)
    requires Branch(root) == [root] && Branch(at)[0] == root
    ensures MoveCash(MoveCash(cash, root, at), root, at) == MoveCash(cash, root, at)
  {
    MoveFromRoot(cash, root, at);
    MoveFromRoot(MoveCash(cash, root, at), root, at);
  }

  lemma MovedAgain(cash: set<Cash>, from: Block, to: Block)
    requires Branch(from)[0] == Branch(to)[0]
    ensures MoveCash(MoveCash(cash, from, to), to, to) == MoveCash(cash, from, to)
  {
    ReplayAgain(RewindTo(cash, from, to), from, to);
  }

  /** A replay ends with its target, which may be applied again without effect. */
  lemma ReplayAgain(cash: set<Cash>, from: Block, to: Block)
    requires Branch(from)[0] == Branch(to)[0]
    ensures MoveCash(Replay(cash, ReplayList(from, to)), to, to) == Replay(cash, ReplayList(from, to))
  {
    var a := CommonAncestor(from, to);
    BranchIsPrefix(a, to);
    var some := Branch(to)[|Branch(a)| - 1..];
    var all := Replay(cash, some + [to]);
    ReplaySnoc(cash, some, to);
    assert all == ApplyBlock(Replay(cash, some), to);
    ApplyIdempotent(Replay(cash, some), to);
    assert ReplayList(to, to) == [to] + [to];
    ReplaySnoc(all, [to], to);
    ReplaySnoc(all, [], to);
    assert [] + [to] == [to];
  }

  /** Iterates a set of cash in some order. */
  method Listed(cash: set<Cash>) returns (coins: seq<Cash>)
    ensures AllDifferent(coins) && Elems(coins) == cash
  {
    coins := [];
    var rest := cash;
    while rest != {}
      invariant Elems(coins) == cash - rest && rest <= cash && AllDifferent(coins)
      decreases rest
    {
      var c :| c in rest;
      assert forall i :: 0 <= i < |coins| ==> coins[i] in Elems(coins);
      assert Elems(coins + [c]) == Elems(coins) + {c};
      coins := coins + [c];
      rest := rest - {c};
    }
  }

  /** Choosing coins from a listing of a set of cash, in any order. */
  method TransferFrom(cash: set<Cash>, sender: Address, receiver: Address, amount: U64, fee: U64,
                      paidId: nat, changeId: nat, signature: nat) returns (t: Result<Transaction, TransactionError>)
    ensures var owned := CoinsOf(cash, sender);
            Supply.Total(owned) < U64_RANGE && amount + fee < U64_RANGE ==>
              (t.Success? <==> owned != {} && Supply.Total(owned) >= amount + fee)
    ensures t.Success? ==>
      Admissible(t.value) && Fee(t.value) == fee && InputsOf([t.value]) <= CoinsOf(cash, sender) &&
      |t.value.outputs| == 2 && t.value.outputs[0] == Cash(paidId, amount, receiver)
  {
    hide FirstCover, ShortestCover, Supply.Total, Transactions.Wrap, Transactions.Sum64, Sum;
    var coins := Listed(cash);
    OwnedTotal(coins, sender);
    assert OwnedBy(coins, sender) == [] <==> Elems(OwnedBy(coins, sender)) == {} by {
      if OwnedBy(coins, sender) != [] {
        assert OwnedBy(coins, sender)[0] in Elems(OwnedBy(coins, sender));
      }
    }
    t := NewTransfer(coins, sender, receiver, amount, fee, paidId, changeId, signature);
    if t.Success? {
      InputsOfOne(t.value);
    }
  }

  lemma InputsOfOne(t: Transaction)
    ensures InputsOf([t]) == Elems(t.inputs)
  {
    assert [t][..0] == [];
  }

  /** The sender's coins at the leader, and amount and fee together, fit 64 bits. */
  ghost predicate Fits(su: Setup, s: State, sender: Address, amount: U64, fee: U64)
    requires Tree(su, s)
  {
    Supply.Total(CoinsOf(LeaderCash(su, s), sender)) < U64_RANGE && amount + fee < U64_RANGE
  }

  /** The sender has coins at the leader, and they cover amount and fee. */
  ghost predicate Affordable(su: Setup, s: State, sender: Address, amount: U64, fee: U64)
    requires Tree(su, s)
  {
    var owned := CoinsOf(LeaderCash(su, s), sender);
    owned != {} && Supply.Total(owned) >= amount + fee
  }

  /** Transfers from the unspent set at the leader: as long as sums fit, a transfer is built exactly
      when the sender's coins cover it; it spends coins of the sender in that set, and is then in the
      mempool.  The blocks stay as they are. */
  method SubmitTransfer(hub: PeerHub, sender: Address, receiver: Address, amount: U64, fee: U64,
                        paidId: nat, changeId: nat, signature: nat) returns (t: Result<Transaction, TransactionError>)
    requires hub.Valid({})
    modifies hub
    ensures Tree(hub.setup, old(hub.View())) && hub.Valid({})
    ensures Fits(hub.setup, old(hub.View()), sender, amount, fee) ==>
              (t.Success? <==> Affordable(hub.setup, old(hub.View()), sender, amount, fee))
    ensures t.Success? ==>
      Admissible(t.value) && Fee(t.value) == fee && t.value.Id() in hub.mempool &&
      InputsOf([t.value]) <= CoinsOf(LeaderCash(hub.setup, old(hub.View())), sender) &&
      |t.value.outputs| == 2 && t.value.outputs[0] == Cash(paidId, amount, receiver)
    ensures hub.validBlocks == old(hub.validBlocks) && hub.leadingBlock == old(hub.leadingBlock)
    ensures Tree(hub.setup, hub.View()) && LeaderCash(hub.setup, hub.View()) == LeaderCash(hub.setup, old(hub.View()))
    ensures forall id :: hub.View().Knows(id) <==> old(hub.View()).Knows(id)
  {
    hide HubState.Inv, HubState.CashMoved, Supply.Total, CoinsOf, Admissible, Fee;
    ghost var su, s := hub.setup, hub.View();
    InvPool(su, s, {});
    TreeNode(su, s, s.leadingBlock);
    var cash := hub.LeadingCashSet();
    ghost var moved := hub.View();
    QueryKeeps(su, s);
    MoveTwice(su, s, s.validBlocks[s.leadingBlock]);
    t := TransferFrom(cash, sender, receiver, amount, fee, paidId, changeId, signature);
    if t.Success? {
      hub.ReceiveTransaction(t.value);
    }
    NewTransactionKeeps(su, moved, hub.View());
    SameCash(su, moved, hub.View(), s.validBlocks[s.leadingBlock]);
  }

  /** From a transfer to a confirmed block, for the code as written and under every repair: once a
      transfer is built, mined on the leader at once, it is accepted. */
  method TransferAndMine(hub: PeerHub, codec: Codec, sign: seq<Byte> -> nat, sender: Address, receiver: Address,
                         amount: U64, fee: U64, paidId: nat, changeId: nat, signature: nat,
                         miner: Address, rewardId: nat, now: Timestamp, later: Timestamp)
      returns (t: Result<Transaction, TransactionError>, r: Result<Block, MiningError>)
    requires hub.Valid({}) && hub.leadingBlock in hub.validBlocks
    requires hub.validBlocks[hub.leadingBlock].timestamp <= now <= later
    modifies hub
    ensures Tree(hub.setup, old(hub.View())) && hub.Valid({})
    ensures Fits(hub.setup, old(hub.View()), sender, amount, fee) ==>
              (t.Success? <==> Affordable(hub.setup, old(hub.View()), sender, amount, fee))
    ensures t.Failure? ==> r.Failure? && hub.validBlocks == old(hub.validBlocks)
    ensures t.Success? ==>
      Fee(t.value) == fee && t.value.outputs != [] && t.value.outputs[0] == Cash(paidId, amount, receiver)
    ensures t.Success? && r.Success? ==> r.value.transactions == [t.value] && r.value.prevId == old(hub.leadingBlock)
    ensures t.Success? && r.Success? && !old(hub.View()).Knows(r.value.Id()) ==> r.value.Id() in hub.validBlocks
  {
    hide HubState.Inv, LeaderCash, Fits, Affordable, HubState.Tree, VerifyNonce, Supply.Total, Admissible, Fee;
    t := SubmitTransfer(hub, sender, receiver, amount, fee, paidId, changeId, signature);
    r := Failure(NoNonce);
    if t.Success? {
      r := MineRound(hub, codec, miner, sign, [t.value], rewardId, now, later);
    }
  }

  lemma SameCash(su: Setup, s: State, t: State, at: Block)
    requires Tree(su, s) && at.Id() in s.validBlocks && t == s.(mempool := t.mempool)
    ensures Tree(su, t) && CashMoved(su, t, at) == CashMoved(su, s, at)
  {}
}
