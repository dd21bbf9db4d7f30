/** The unspent-cash ledger: applying, undoing and replaying blocks, and the cached
    unspent set that the hub moves from block to block. */
module Ledger {
  import opened Types

  // ---------- applying and undoing blocks ----------

  function InputsOf(txns: seq<Transaction>): set<Cash> {
    if txns == [] then {} else InputsOf(txns[..|txns| - 1]) + Elems(txns[|txns| - 1].inputs)
  }

  function OutputsOf(txns: seq<Transaction>): set<Cash> {
    if txns == [] then {} else OutputsOf(txns[..|txns| - 1]) + Elems(txns[|txns| - 1].outputs)
  }

  /** The cash a block consumes, and the cash it creates. */
  function Spends(b: Block): set<Cash> { InputsOf(b.transactions) }

  function Creates(b: Block): set<Cash> { OutputsOf(b.transactions) + {b.reward} }

  /** Removes the inputs, then inserts the outputs: an output that is also an input stays. */
  function ApplyTxn(cash: set<Cash>, t: Transaction): set<Cash> {
    (cash - Elems(t.inputs)) + Elems(t.outputs)
  }

  function ApplyTxns(cash: set<Cash>, txns: seq<Transaction>): set<Cash> {
    if txns == [] then cash else ApplyTxn(ApplyTxns(cash, txns[..|txns| - 1]), txns[|txns| - 1])
  }

  function ApplyBlock(cash: set<Cash>, b: Block): set<Cash> {
    ApplyTxns(cash, b.transactions) + {b.reward}
  }

  function UndoTxn(cash: set<Cash>, t: Transaction): set<Cash> {
    (cash - Elems(t.outputs)) + Elems(t.inputs)
  }

  /** Undoes the transactions from the last to the first. */
  function UndoTxns(cash: set<Cash>, txns: seq<Transaction>): set<Cash>
    decreases |txns|
  {
    if txns == [] then cash else UndoTxns(UndoTxn(cash, txns[|txns| - 1]), txns[..|txns| - 1])
  }

  function UndoBlock(cash: set<Cash>, b: Block): set<Cash> {
    UndoTxns(cash - {b.reward}, b.transactions)
  }

  function Replay(cash: set<Cash>, blocks: seq<Block>): set<Cash> {
    if blocks == [] then cash else ApplyBlock(Replay(cash, blocks[..|blocks| - 1]), blocks[|blocks| - 1])
  }

  function SpentOn(blocks: seq<Block>): set<Cash> {
    if blocks == [] then {} else SpentOn(blocks[..|blocks| - 1]) + Spends(blocks[|blocks| - 1])
  }

  function CreatedOn(blocks: seq<Block>): set<Cash> {
    if blocks == [] then {} else CreatedOn(blocks[..|blocks| - 1]) + Creates(blocks[|blocks| - 1])
  }

  /** The true unspent set at `b`: the ledger replayed from the root of its branch. */
  function Utxo(b: Block): set<Cash> {
    Replay({}, Branch(b))
  }

  /** A block creates cash that no ancestor of it created.  Cash ids are random 128-bit
      values in the source, which is what makes this hold. */
  ghost predicate Fresh(b: Block) {
    b.prevId.HashOf? ==> Creates(b) !! CreatedOn(Branch(b.prevId.block))
  }

  /** Along its whole ancestry, `b` spends only cash unspent at the parent and creates
      only fresh cash. */
  ghost predicate Sound(b: Block) {
    b.prevId.HashOf? ==>
      var prev := b.prevId.block;
      Sound(prev) && Spends(b) <= Utxo(prev) && Fresh(b)
  }

  // ---------- a block is one removal and one insertion ----------

  lemma {:induction false} ApplyTxnsNormal(cash: set<Cash>, txns: seq<Transaction>)
    ensures ApplyTxns(cash, txns) == (cash - InputsOf(txns)) + ApplyTxns({}, txns)
    ensures ApplyTxns({}, txns) <= OutputsOf(txns)
  {
    if txns != [] {
      ApplyTxnsNormal(cash, txns[..|txns| - 1]);
    }
  }

  lemma ApplyNormal(cash: set<Cash>, b: Block)
    ensures ApplyBlock(cash, b) == (cash - Spends(b)) + ApplyBlock({}, b)
    ensures ApplyBlock({}, b) <= Creates(b)
  {
    ApplyTxnsNormal(cash, b.transactions);
  }

  lemma {:induction false} ReplayNormal(cash: set<Cash>, blocks: seq<Block>)
    ensures Replay(cash, blocks) == (cash - SpentOn(blocks)) + Replay({}, blocks)
    ensures Replay({}, blocks) <= CreatedOn(blocks)
  {
    if blocks != [] {
      var last := blocks[|blocks| - 1];
      var rest := blocks[..|blocks| - 1];
      ReplayNormal(cash, rest);
      ApplyNormal(Replay(cash, rest), last);
      ApplyNormal(Replay({}, rest), last);
    }
  }

  lemma {:induction false} ReplayConcat(cash: set<Cash>, first: seq<Block>, second: seq<Block>)
    ensures Replay(cash, first + second) == Replay(Replay(cash, first), second)
  {
    if second == [] {
      assert first + second == first;
    } else {
      var rest := second[..|second| - 1];
      ReplayConcat(cash, first, rest);
      assert (first + second)[..|first + second| - 1] == first + rest;
    }
  }

  lemma {:induction false} InputsContain(txns: seq<Transaction>, i: nat, x: Cash)
    requires i < |txns| && x in txns[i].inputs
    ensures x in InputsOf(txns)
  {
    if i < |txns| - 1 {
      InputsContain(txns[..|txns| - 1], i, x);
    }
  }

  lemma {:induction false} SpentOnContains(blocks: seq<Block>, k: nat)
    requires k < |blocks|
    ensures Spends(blocks[k]) <= SpentOn(blocks)
    ensures Creates(blocks[k]) <= CreatedOn(blocks)
  {
    if k < |blocks| - 1 {
      SpentOnContains(blocks[..|blocks| - 1], k);
    }
  }

  /** Applying a block a second time changes nothing, whatever the block. */
  lemma ApplyIdempotent(cash: set<Cash>, b: Block)
    ensures ApplyBlock(ApplyBlock(cash, b), b) == ApplyBlock(cash, b)
  {
    ApplyNormal(cash, b);
    ApplyNormal(ApplyBlock(cash, b), b);
  }

  lemma UtxoUnfold(b: Block)
    requires b.prevId.HashOf?
    ensures Utxo(b) == ApplyBlock(Utxo(b.prevId.block), b)
  {
    assert Branch(b)[..|Branch(b)| - 1] == Branch(b.prevId.block);
  }

  /** Replaying a chain's last block once more changes nothing. */
  lemma ReplayLastAgain(cash: set<Cash>, before: seq<Block>, last: Block)
    ensures Replay(Replay(cash, before + [last]), [last]) == Replay(cash, before + [last])
  {
    ReplaySnoc(cash, before, last);
    ReplaySnoc(Replay(cash, before + [last]), [], last);
    assert [] + [last] == [last];
    ApplyIdempotent(Replay(cash, before), last);
  }

  lemma ReplaySnoc(cash: set<Cash>, before: seq<Block>, last: Block)
    ensures Replay(cash, before + [last]) == ApplyBlock(Replay(cash, before), last)
  {
    assert (before + [last])[..|before|] == before;
  }

  /** A replay may stop anywhere and resume with the block it stopped at. */
  lemma ReplayResume(before: seq<Block>, mid: Block, after: seq<Block>)
    ensures Replay(Replay({}, before + [mid]), [mid] + after) == Replay({}, (before + [mid]) + after)
  {
    var stop := before + [mid];
    ReplayConcat(Replay({}, stop), [mid], after);
    ReplayLastAgain({}, before, mid);
    ReplayConcat({}, stop, after);
  }

  lemma SplitAt(chain: seq<Block>, k: nat)
    requires k < |chain|
    ensures chain[..k + 1] == chain[..k] + [chain[k]]
    ensures chain[k..] == [chain[k]] + chain[k + 1..]
    ensures chain == (chain[..k] + [chain[k]]) + chain[k + 1..]
  {}

  // ---------- which transaction of a block decides ----------

  /** Transaction `i` creates `x`, and no later one takes it. */
  predicate CreatedLast(txns: seq<Transaction>, i: nat, x: Cash) {
    i < |txns| && x in txns[i].outputs && forall j :: i < j < |txns| ==> x !in txns[j].inputs
  }

  /** Applying transactions, the last one that touches a coin decides: it is there afterwards if that one
      creates it, even where the same transaction takes it, or if none takes it and it was there. */
  lemma {:induction false} LastTouchDecides(cash: set<Cash>, txns: seq<Transaction>, x: Cash)
    ensures x in ApplyTxns(cash, txns) <==>
              (exists i: nat :: CreatedLast(txns, i, x)) ||
              (x in cash && forall j :: 0 <= j < |txns| ==> x !in txns[j].inputs)
  {
    if txns != [] {
      var n := |txns| - 1;
      var rest := txns[..n];
      LastTouchDecides(cash, rest, x);
      if x in txns[n].outputs {
        assert CreatedLast(txns, n, x);
      } else if x !in txns[n].inputs {
        if i: nat :| CreatedLast(rest, i, x) {
          assert CreatedLast(txns, i, x);
        }
        if i: nat :| CreatedLast(txns, i, x) {
          assert CreatedLast(rest, i, x);
        }
        if forall j :: 0 <= j < n ==> x !in rest[j].inputs {
          assert forall j :: 0 <= j < n ==> txns[j] == rest[j];
        }
      }
    }
  }

  /** Transaction `i` takes `x`, and no earlier one creates it. */
  predicate TakenFirst(txns: seq<Transaction>, i: nat, x: Cash) {
    i < |txns| && x in txns[i].inputs && forall j :: 0 <= j < i ==> x !in txns[j].outputs
  }

  /** Undoing them, the first one that touches it decides, the other way round. */
  lemma {:induction false} FirstTouchDecides(cash: set<Cash>, txns: seq<Transaction>, x: Cash)
    ensures x in UndoTxns(cash, txns) <==>
              (exists i: nat :: TakenFirst(txns, i, x)) ||
              (x in cash && forall j :: 0 <= j < |txns| ==> x !in txns[j].outputs)
    decreases |txns|
  {
    if txns != [] {
      var n := |txns| - 1;
      var rest := txns[..n];
      FirstTouchDecides(UndoTxn(cash, txns[n]), rest, x);
      if i: nat :| TakenFirst(rest, i, x) {
        assert TakenFirst(txns, i, x);
      }
      if i: nat :| TakenFirst(txns, i, x) {
        if i < n {
          assert TakenFirst(rest, i, x);
        } else {
          assert forall j :: 0 <= j < n ==> txns[j] == rest[j];
        }
      }
      if (forall j :: 0 <= j < n ==> x !in rest[j].outputs) && x in txns[n].inputs {
        assert TakenFirst(txns, n, x);
      }
    }
  }

  /** A block's reward is there after it, and gone after it is undone unless the block itself took it. */
  lemma RewardComesAndGoes(cash: set<Cash>, b: Block)
    ensures b.reward in ApplyBlock(cash, b)
    ensures b.reward in UndoBlock(cash, b) <==> exists i: nat :: TakenFirst(b.transactions, i, b.reward)
  {
    FirstTouchDecides(cash - {b.reward}, b.transactions, b.reward);
  }

  // ---------- undo is the inverse of apply ----------

  lemma {:induction false} DisjointOutputsStay(txns: seq<Transaction>)
    requires InputsOf(txns) !! OutputsOf(txns)
    ensures ApplyTxns({}, txns) == OutputsOf(txns)
  {
    if txns != [] {
      DisjointOutputsStay(txns[..|txns| - 1]);
    }
  }

  lemma {:induction false} UndoTxnsNormal(cash: set<Cash>, txns: seq<Transaction>)
    requires InputsOf(txns) !! OutputsOf(txns)
    ensures UndoTxns(cash, txns) == (cash - OutputsOf(txns)) + InputsOf(txns)
    decreases |txns|
  {
    if txns != [] {
      UndoTxnsNormal(UndoTxn(cash, txns[|txns| - 1]), txns[..|txns| - 1]);
    }
  }

  /** Undoing a block restores the unspent set exactly, when the block spent only unspent
      cash and created only cash that was not there. */
  lemma UndoIsInverse(cash: set<Cash>, b: Block)
    requires Spends(b) <= cash && Creates(b) !! cash
    ensures UndoBlock(ApplyBlock(cash, b), b) == cash
  {
    ApplyTxnsNormal(cash, b.transactions);
    DisjointOutputsStay(b.transactions);
    UndoTxnsNormal(ApplyBlock(cash, b) - {b.reward}, b.transactions);
  }

  // ---------- the cached unspent set ----------

  /** The newest block that is on both branches. */
  function CommonAncestor(from: Block, to: Block): (a: Block)
    requires Branch(from)[0] == Branch(to)[0]
    ensures OnBranch(a, from) && OnBranch(a, to)
  {
    if OnBranch(from, to) then from
    else
      assert from.prevId.HashOf?;
      CommonAncestor(from.prevId.block, to)
  }

  /** Undoes blocks from `from` down to, but not including, the common ancestor. */
  function RewindTo(cash: set<Cash>, from: Block, to: Block): set<Cash>
    requires Branch(from)[0] == Branch(to)[0]
    decreases from
  {
    if OnBranch(from, to) then cash
    else
      assert from.prevId.HashOf?;
      RewindTo(UndoBlock(cash, from), from.prevId.block, to)
  }

  /** The blocks replayed to reach `to`: from the common ancestor, itself included, with
      the target once more at the end. */
  function ReplayList(from: Block, to: Block): seq<Block>
    requires Branch(from)[0] == Branch(to)[0]
  {
    var a := CommonAncestor(from, to);
    BranchIsPrefix(a, to);
    Branch(to)[|Branch(a)| - 1..] + [to]
  }

  /** What moving the cached set from `from` to `to` leaves in it. */
  function MoveCash(cash: set<Cash>, from: Block, to: Block): set<Cash>
    requires Branch(from)[0] == Branch(to)[0]
  {
    Replay(RewindTo(cash, from, to), ReplayList(from, to))
  }

  lemma {:induction false} RewindExact(from: Block, to: Block)
    requires Branch(from)[0] == Branch(to)[0]
    requires Sound(from)
    ensures RewindTo(Utxo(from), from, to) == Utxo(CommonAncestor(from, to))
  {
    if !OnBranch(from, to) {
      var prev := from.prevId.block;
      UtxoUnfold(from);
      ReplayNormal({}, Branch(prev));
      UndoIsInverse(Utxo(prev), from);
      RewindExact(prev, to);
    }
  }

  /** Resuming a replay and then replaying the last block once more. */
  lemma ReplayToTip(before: seq<Block>, mid: Block, after: seq<Block>, init: seq<Block>, tip: Block)
    requires (before + [mid]) + after == init + [tip]
    ensures Replay(Replay({}, before + [mid]), ([mid] + after) + [tip]) == Replay({}, init + [tip])
  {
    ReplayResume(before, mid, after);
    ReplayConcat(Replay({}, before + [mid]), [mid] + after, [tip]);
    ReplayLastAgain({}, init, tip);
  }

  lemma ReplayFromAncestor(a: Block, to: Block)
    requires OnBranch(a, to)
    ensures |Branch(a)| <= |Branch(to)|
    ensures Replay(Utxo(a), Branch(to)[|Branch(a)| - 1..] + [to]) == Utxo(to)
  {
    BranchIsPrefix(a, to);
    var chain, k := Branch(to), |Branch(a)| - 1;
    var before, after, init := chain[..k], chain[k + 1..], chain[..|chain| - 1];
    assert Branch(a) == before + [a];
    assert chain[k..] == [a] + after by { SplitAt(chain, k); }
    assert chain == init + [to];
    assert (before + [a]) + after == init + [to] by { SplitAt(chain, k); SplitAt(chain, |chain| - 1); }
    ReplayToTip(before, a, after, init, to);
  }

  /** Cache refinement, one move: an exact cache stays exact across any fork. */
  lemma MoveExact(from: Block, to: Block)
    requires Branch(from)[0] == Branch(to)[0]
    requires Sound(from)
    ensures MoveCash(Utxo(from), from, to) == Utxo(to)
  {
    RewindExact(from, to);
    ReplayFromAncestor(CommonAncestor(from, to), to);
  }

  /** All targets lie on branches that start at `root`, which starts its own. */
  ghost predicate RootedAt(root: Block, targets: seq<Block>) {
    if targets == [] then Branch(root) == [root]
    else RootedAt(root, targets[..|targets| - 1]) && Branch(targets[|targets| - 1])[0] == root
  }

  lemma {:induction false} RootIsAlone(root: Block, targets: seq<Block>)
    requires RootedAt(root, targets)
    ensures Branch(root) == [root]
  {
    if targets != [] {
      RootIsAlone(root, targets[..|targets| - 1]);
    }
  }

  ghost predicate AllSound(targets: seq<Block>) {
    targets == [] || (AllSound(targets[..|targets| - 1]) && Sound(targets[|targets| - 1]))
  }

  function Position(root: Block, targets: seq<Block>): Block {
    if targets == [] then root else targets[|targets| - 1]
  }

  lemma PositionRooted(root: Block, targets: seq<Block>)
    requires RootedAt(root, targets)
    ensures Branch(Position(root, targets))[0] == root
  {
    RootIsAlone(root, targets);
  }

  /** The cache after a run of calls, its position written back after each. */
  ghost function WrittenBackRun(root: Block, targets: seq<Block>): set<Cash>
    requires RootedAt(root, targets)
  {
    if targets == [] then {}
    else
      var rest := targets[..|targets| - 1];
      PositionRooted(root, rest);
      MoveCash(WrittenBackRun(root, rest), Position(root, rest), targets[|targets| - 1])
  }

  lemma WrittenBackSnoc(root: Block, earlier: seq<Block>, to: Block)
    requires RootedAt(root, earlier) && Branch(to)[0] == root
    ensures RootedAt(root, earlier + [to])
    ensures Branch(Position(root, earlier))[0] == root
    ensures WrittenBackRun(root, earlier + [to])
            == MoveCash(WrittenBackRun(root, earlier), Position(root, earlier), to)
  {
    var all := earlier + [to];
    assert all[..|all| - 1] == earlier;
    PositionRooted(root, earlier);
  }

  lemma WrittenBackStep(root: Block, earlier: seq<Block>, to: Block)
    requires RootedAt(root, earlier) && Branch(to)[0] == root
    requires earlier != [] ==> WrittenBackRun(root, earlier) == Utxo(Position(root, earlier))
    requires earlier != [] ==> Sound(Position(root, earlier))
    ensures RootedAt(root, earlier + [to])
    ensures WrittenBackRun(root, earlier + [to]) == Utxo(to)
  {
    WrittenBackSnoc(root, earlier, to);
    if earlier == [] {
      MoveFromRoot({}, root, to);
    } else {
      MoveExact(Position(root, earlier), to);
    }
  }

  /** Cache refinement, whole runs: with the write-back, every call of every sequence of
      calls, across forks, returns the replay of its target from the root. */
  lemma {:induction false} WrittenBackRunExact(root: Block, targets: seq<Block>)
    requires RootedAt(root, targets) && AllSound(targets) && targets != []
    ensures WrittenBackRun(root, targets) == Utxo(targets[|targets| - 1])
  {
    var rest, to := targets[..|targets| - 1], targets[|targets| - 1];
    assert targets == rest + [to];
    if rest != [] {
      WrittenBackRunExact(root, rest);
    }
    WrittenBackStep(root, rest, to);
  }

  // ---------- the cache as written: its position stays at genesis ----------

  /** A move from the root keeps every earlier cash that the target's branch does not
      spend, and adds the true unspent set. */
  lemma MoveFromRoot(cash: set<Cash>, root: Block, to: Block)
    requires Branch(root) == [root] && Branch(to)[0] == root
    ensures MoveCash(cash, root, to) == (cash - SpentOn(Branch(to))) + Utxo(to)
    ensures cash == {} ==> MoveCash(cash, root, to) == Utxo(to)
  {
    var whole := Branch(to);
    assert whole[0..] == whole;
    ReplayConcat(cash, whole, [to]);
    SplitAt(whole, |whole| - 1);
    ReplayLastAgain(cash, whole[..|whole| - 1], to);
    ReplayNormal(cash, whole);
  }

  /** The cache after a run of calls, its position left at the root. */
  ghost function AsWrittenRun(root: Block, targets: seq<Block>): set<Cash>
    requires RootedAt(root, targets)
  {
    RootIsAlone(root, targets);
    if targets == [] then {}
    else MoveCash(AsWrittenRun(root, targets[..|targets| - 1]), root, targets[|targets| - 1])
  }

  /** Cash is left over from target `i` when no later target's branch spends it. */
  ghost predicate LeftFrom(x: Cash, targets: seq<Block>, i: nat) {
    i < |targets| && x in Utxo(targets[i]) &&
    forall j :: i < j < |targets| ==> x !in SpentOn(Branch(targets[j]))
  }

  ghost predicate LeftOver(x: Cash, targets: seq<Block>) {
    exists i: nat :: LeftFrom(x, targets, i)
  }

  lemma LeftOverStep(x: Cash, earlier: seq<Block>, to: Block)
    ensures LeftOver(x, earlier + [to]) <==>
            x in Utxo(to) || (LeftOver(x, earlier) && x !in SpentOn(Branch(to)))
  {
    var n, all := |earlier|, earlier + [to];
    if x in Utxo(to) {
      assert LeftFrom(x, all, n);
    }
    if i: nat :| LeftFrom(x, earlier, i) {
      if x !in SpentOn(Branch(to)) {
        assert LeftFrom(x, all, i);
      }
    }
    if i: nat :| LeftFrom(x, all, i) {
      if i < n {
        assert all[n] == to;
        forall j | i < j < n ensures x !in SpentOn(Branch(earlier[j])) {
          assert all[j] == earlier[j];
        }
        assert LeftFrom(x, earlier, i);
      }
    }
  }

  lemma AsWrittenStep(root: Block, earlier: seq<Block>, to: Block)
    requires RootedAt(root, earlier) && Branch(to)[0] == root
    ensures RootedAt(root, earlier + [to])
    ensures AsWrittenRun(root, earlier + [to]) == (AsWrittenRun(root, earlier) - SpentOn(Branch(to))) + Utxo(to)
  {
    var all := earlier + [to];
    assert all[..|all| - 1] == earlier;
    RootIsAlone(root, earlier);
    MoveFromRoot(AsWrittenRun(root, earlier), root, to);
  }

  /** The exact contents of the cache as written, after any sequence of calls. */
  lemma {:induction false} AsWrittenContents(root: Block, targets: seq<Block>, x: Cash)
    requires RootedAt(root, targets)
    ensures x in AsWrittenRun(root, targets) <==> LeftOver(x, targets)
  {
    if targets != [] {
      var rest, to := targets[..|targets| - 1], targets[|targets| - 1];
      assert targets == rest + [to];
      AsWrittenContents(root, rest, x);
      AsWrittenStep(root, rest, to);
      LeftOverStep(x, rest, to);
    }
  }

  /** As written the cache returns a superset of the true unspent set, and exactly that set
      if and only if everything left over from earlier targets is unspent at this one or
      spent on its branch. */
  lemma AsWrittenExactIff(root: Block, earlier: seq<Block>, to: Block)
    requires RootedAt(root, earlier + [to])
    ensures Utxo(to) <= AsWrittenRun(root, earlier + [to])
    ensures AsWrittenRun(root, earlier + [to]) == Utxo(to) <==>
            forall x :: LeftOver(x, earlier) ==> x in Utxo(to) || x in SpentOn(Branch(to))
  {
    var after := AsWrittenRun(root, earlier + [to]);
    forall x ensures x in after <==> x in Utxo(to) || (LeftOver(x, earlier) && x !in SpentOn(Branch(to))) {
      AsWrittenContents(root, earlier + [to], x);
      LeftOverStep(x, earlier, to);
    }
  }

  /** Cash unspent at a block is, at each of its descendants, either still unspent or spent
      on the way. */
  lemma UnspentOrSpentLater(t: Block, to: Block, x: Cash)
    requires OnBranch(t, to) && x in Utxo(t)
    ensures x in Utxo(to) || x in SpentOn(Branch(to))
  {
    BranchIsPrefix(t, to);
    var beyond := Branch(to)[|Branch(t)|..];
    assert Branch(to) == Branch(t) + beyond;
    ReplayConcat({}, Branch(t), beyond);
    ReplayNormal(Utxo(t), beyond);
    SpentOnSuffix(Branch(t), beyond);
  }

  /** Whenever all earlier targets were ancestors of this one, or this one itself, the
      cache as written is exact. */
  lemma AsWrittenExactOnOneBranch(root: Block, earlier: seq<Block>, to: Block)
    requires RootedAt(root, earlier + [to])
    requires forall i :: 0 <= i < |earlier| ==> OnBranch(earlier[i], to)
    ensures AsWrittenRun(root, earlier + [to]) == Utxo(to)
  {
    forall x | LeftOver(x, earlier) ensures x in Utxo(to) || x in SpentOn(Branch(to)) {
      var i: nat :| LeftFrom(x, earlier, i);
      UnspentOrSpentLater(earlier[i], to, x);
    }
    AsWrittenExactIff(root, earlier, to);
  }

  lemma {:induction false} SpentOnSuffix(first: seq<Block>, second: seq<Block>)
    ensures SpentOn(first + second) == SpentOn(first) + SpentOn(second)
  {
    if second == [] {
      assert first + second == first;
    } else {
      SpentOnSuffix(first, second[..|second| - 1]);
      assert (first + second)[..|first + second| - 1] == first + second[..|second| - 1];
    }
  }
}
