/** How much cash exists: conservation along a branch, the bound on the total, and the
    absence of double spending. */
module Supply {
  import opened Types
  import opened Ledger
  import opened Rules
  import opened Transactions
  import Difficulty

  // ---------- adding up sets ----------

  ghost function Total(s: set<Cash>): nat {
    if s == {} then 0 else var x :| x in s; x.amount + Total(s - {x})
  }

  lemma {:induction false} TotalRemove(s: set<Cash>, x: Cash)
    requires x in s
    ensures Total(s) == x.amount + Total(s - {x})
    decreases |s|
  {
    var y :| y in s && Total(s) == y.amount + Total(s - {y});
    if x != y {
      TotalRemove(s - {y}, x);
      TotalRemove(s - {x}, y);
      assert s - {y} - {x} == s - {x} - {y};
    }
  }

  lemma {:induction false} TotalDisjoint(a: set<Cash>, b: set<Cash>)
    requires a !! b
    ensures Total(a + b) == Total(a) + Total(b)
    decreases |b|
  {
    if b == {} {
      assert a + b == a;
    } else {
      var x :| x in b;
      TotalDisjoint(a, b - {x});
      TotalRemove(b, x);
      TotalRemove(a + b, x);
      assert a + b - {x} == a + (b - {x});
    }
  }

  function InputList(txns: seq<Transaction>): seq<Cash> {
    if txns == [] then [] else InputList(txns[..|txns| - 1]) + txns[|txns| - 1].inputs
  }

  function OutputList(txns: seq<Transaction>): seq<Cash> {
    if txns == [] then [] else OutputList(txns[..|txns| - 1]) + txns[|txns| - 1].outputs
  }

  /** No cash of positive amount is listed twice. */
  ghost predicate NoPaidRepeat(coins: seq<Cash>) {
    forall i, j :: 0 <= i < j < |coins| && coins[i] == coins[j] ==> coins[i].amount == 0
  }

  lemma {:induction false} SumConcat(a: seq<Cash>, b: seq<Cash>)
    ensures Sum(a + b) == Sum(a) + Sum(b)
  {
    if b == [] {
      assert a + b == a;
    } else {
      SumConcat(a, b[..|b| - 1]);
      assert (a + b)[..|a + b| - 1] == a + b[..|b| - 1];
    }
  }

  lemma NoPaidRepeatSnoc(rest: seq<Cash>, x: Cash)
    ensures NoPaidRepeat(rest + [x]) <==> NoPaidRepeat(rest) && (x in rest ==> x.amount == 0)
  {
    var coins := rest + [x];
    if NoPaidRepeat(coins) {
      assert forall i :: 0 <= i < |rest| ==> coins[i] == rest[i];
      if x in rest {
        var i :| 0 <= i < |rest| && rest[i] == x;
        assert coins[i] == coins[|rest|];
      }
    }
  }

  /** A list is worth at least the set of its elements, and exactly that when no cash of
      positive amount is listed twice. */
  lemma {:induction false} SumVersusTotal(coins: seq<Cash>)
    ensures Sum(coins) >= Total(Elems(coins))
    ensures Sum(coins) == Total(Elems(coins)) <==> NoPaidRepeat(coins)
  {
    if coins != [] {
      var n := |coins| - 1;
      var rest, x := coins[..n], coins[n];
      SumVersusTotal(rest);
      assert coins == rest + [x];
      NoPaidRepeatSnoc(rest, x);
      if x in rest {
        assert Elems(coins) == Elems(rest);
      } else {
        assert Elems(coins) == Elems(rest) + {x};
        TotalRemove(Elems(coins), x);
        assert Elems(coins) - {x} == Elems(rest);
      }
    }
  }

  lemma {:induction false} ListsMatchSets(txns: seq<Transaction>)
    ensures Elems(InputList(txns)) == InputsOf(txns)
    ensures Elems(OutputList(txns)) == OutputsOf(txns)
    ensures ExactFees(txns) == Sum(InputList(txns)) - Sum(OutputList(txns))
  {
    if txns != [] {
      var rest, last := txns[..|txns| - 1], txns[|txns| - 1];
      ListsMatchSets(rest);
      SumConcat(InputList(rest), last.inputs);
      SumConcat(OutputList(rest), last.outputs);
      assert Elems(InputList(rest) + last.inputs) == Elems(InputList(rest)) + Elems(last.inputs);
      assert Elems(OutputList(rest) + last.outputs) == Elems(OutputList(rest)) + Elems(last.outputs);
    }
  }

  // ---------- conservation ----------

  /** Everything a block creates carries its own id, as random ids do. */
  ghost predicate DistinctOutputs(b: Block) {
    NoPaidRepeat(OutputList(b.transactions) + [b.reward])
  }

  /** How much more a block's inputs are worth as a list than as a set. */
  ghost function RepeatExcess(b: Block): int {
    Sum(InputList(b.transactions)) - Total(Spends(b))
  }

  /** How much more a block pays its miner than fees and subsidy come to without wrapping. */
  function RewardExcess(config: Config, b: Block): int {
    b.reward.amount - (ExactFees(b.transactions) + Subsidy(config, b.seqno))
  }

  /** The books of one block, whatever was checked of it: the supply grows by the subsidy, by
      what is counted twice, and by what the reward exceeds its due. */
  lemma SupplyStep(config: Config, cash: set<Cash>, b: Block)
    requires Spends(b) <= cash && Creates(b) !! cash && DistinctOutputs(b)
    ensures Total(ApplyBlock(cash, b))
            == Total(cash) + Subsidy(config, b.seqno) + RepeatExcess(b) + RewardExcess(config, b)
  {
    hide Subsidy;
    var ins, outs := InputList(b.transactions), OutputList(b.transactions);
    ListsMatchSets(b.transactions);
    SoundApply(cash, b);
    TotalDisjoint(cash - Spends(b), Creates(b));
    TotalDisjoint(cash - Spends(b), Spends(b));
    assert cash - Spends(b) + Spends(b) == cash;
    SumVersusTotal(outs + [b.reward]);
    SumConcat(outs, [b.reward]);
    SumOfOne(b.reward);
    assert Elems(outs + [b.reward]) == Elems(outs) + {b.reward};
  }

  /** The validator neither looks for an input listed twice nor for sums that wrap.  Of a block
      that passes its reward check: when what its miner is due fits 64 bits, it adds exactly its
      subsidy to the supply if and only if it lists no input of positive amount twice, and
      otherwise more; and when it lists none twice, it adds exactly its subsidy if and only if
      what is due fits. */
  lemma SupplyStepIff(config: Config, cash: set<Cash>, b: Block)
    requires Spends(b) <= cash && Creates(b) !! cash
    requires RewardOk(config, b) && DistinctOutputs(b)
    ensures RewardFits(config, b) ==>
              Total(ApplyBlock(cash, b)) >= Total(cash) + Subsidy(config, b.seqno) &&
              (NoPaidRepeat(InputList(b.transactions)) <==>
                Total(ApplyBlock(cash, b)) == Total(cash) + Subsidy(config, b.seqno))
    ensures NoPaidRepeat(InputList(b.transactions)) ==>
              (RewardFits(config, b) <==> Total(ApplyBlock(cash, b)) == Total(cash) + Subsidy(config, b.seqno))
  {
    hide Subsidy, RewardOk, RewardFits, NoPaidRepeat;
    SupplyStep(config, cash, b);
    RewardExactIff(config, b);
    ListsMatchSets(b.transactions);
    SumVersusTotal(InputList(b.transactions));
  }

  lemma OneTransaction(t: Transaction)
    ensures InputsOf([t]) == Elems(t.inputs) && OutputsOf([t]) == Elems(t.outputs)
    ensures InputList([t]) == t.inputs && OutputList([t]) == t.outputs
    ensures Fees([t]) == Fee(t) && ExactFees([t]) == ExactFee(t)
  {
    assert [t][..0] == [];
  }

  /** Along the whole ancestry, outputs are distinct. */
  ghost predicate OutputsDistinctOn(b: Block) {
    b.prevId.HashOf? ==> OutputsDistinctOn(b.prevId.block) && DistinctOutputs(b)
  }

  /** Along the whole ancestry, no input of positive amount is listed twice in one block. */
  ghost predicate InputsDistinctOn(b: Block) {
    b.prevId.HashOf? ==> InputsDistinctOn(b.prevId.block) && NoPaidRepeat(InputList(b.transactions))
  }

  /** Along the whole ancestry, what the miner is due fits 64 bits. */
  ghost predicate RewardsFitOn(config: Config, b: Block) {
    b.prevId.HashOf? ==> RewardsFitOn(config, b.prevId.block) && RewardFits(config, b)
  }

  function Minted(config: Config, seqno: nat): nat {
    Subsidy(config, seqno) + if seqno == 0 then 0 else Minted(config, seqno - 1)
  }

  /** Supply: at every sound block whose branch's rewards fit 64 bits, the unspent amounts add
      up to at least the subsidies of the blocks on its branch, and to exactly that if and only
      if no block on the branch lists an input of positive amount twice. */
  lemma {:induction false} SupplyOnChainIff(config: Config, b: Block)
    requires Rooted(config, b) && Sound(b) && OutputsDistinctOn(b) && RewardsFitOn(config, b)
    ensures Total(Utxo(b)) >= Minted(config, b.seqno)
    ensures Total(Utxo(b)) == Minted(config, b.seqno) <==> InputsDistinctOn(b)
  {
    if b == Genesis(config) {
      GenesisSupply(config);
    } else {
      var prev := b.prevId.block;
      SupplyOnChainIff(config, prev);
      UtxoUnfold(b);
      FreshIsUnspent(b);
      SupplyStepIff(config, Utxo(prev), b);
    }
  }

  lemma FreshIsUnspent(b: Block)
    requires b.prevId.HashOf? && Fresh(b)
    ensures Creates(b) !! Utxo(b.prevId.block)
  {
    ReplayNormal({}, Branch(b.prevId.block));
  }

  lemma GenesisUtxo(config: Config)
    ensures var g := Genesis(config);
            Utxo(g) == {g.reward} && CreatedOn(Branch(g)) == {g.reward} && SpentOn(Branch(g)) == {}
  {
    var g := Genesis(config);
    assert [g][..0] == [];
    assert CreatedOn([g]) == CreatedOn([]) + Creates(g);
    assert SpentOn([g]) == SpentOn([]) + Spends(g);
    assert Replay({}, [g]) == ApplyBlock(Replay({}, []), g);
    assert ApplyTxns({}, []) == {} && OutputsOf([]) == {} && InputsOf([]) == {};
  }

  lemma GenesisSupply(config: Config)
    ensures Total(Utxo(Genesis(config))) == Minted(config, 0)
  {
    var g := Genesis(config);
    GenesisUtxo(config);
    TotalRemove({g.reward}, g.reward);
    assert {g.reward} - {g.reward} == {};
    DivModUnique(0, config.blockSubsidyHalfPeriod, 0, 0);
  }

  // ---------- the bound ----------

  /** What is still to come in the current era and, at half price, in all later ones. */
  function Remaining(config: Config, seqno: nat): nat {
    var h := config.blockSubsidyHalfPeriod;
    (2 * h - seqno % h) * Subsidy(config, seqno)
  }

  /** What was minted before the block at `seqno`. */
  function MintedBefore(config: Config, seqno: nat): nat {
    if seqno == 0 then 0 else Minted(config, seqno - 1)
  }

  /** Inside an era one block moves its subsidy from what remains to what was minted; at the
      end of an era the price halves. */
  lemma RemainingShrinks(h: nat, r: nat, now: nat, r': nat, next: nat)
    requires r < h
    requires (r' == r + 1 < h && next == now) || (r == h - 1 && r' == 0 && 2 * next <= now)
    ensures now + (2 * h - r') * next <= (2 * h - r) * now
    ensures now > 0 ==> now + 1 <= (2 * h - r) * now
  {
    if r' == r + 1 {
      assert (2 * h - r) * now == (2 * h - r') * now + now;
    } else {
      assert (2 * h - r) * now == h * now + now;
      assert 2 * h * next == h * (2 * next);
      Difficulty.MulMono(2 * next, now, h);
    }
    if now > 0 {
      if h == 1 {
        assert (2 * h - r) * now == 2 * now;
      } else {
        Difficulty.MulMono(2, 2 * h - r, now);
      }
    }
  }

  /** Before each block, what was minted plus what remains stays within the bound, and the
      bound is not reached even once the subsidy is down to zero. */
  lemma {:induction false} MintedInvariant(config: Config, seqno: nat)
    requires seqno < 64 * config.blockSubsidyHalfPeriod && config.initialBlockSubsidy > 0
    ensures MintedBefore(config, seqno) + Remaining(config, seqno)
              <= 2 * config.initialBlockSubsidy * config.blockSubsidyHalfPeriod
    ensures MintedBefore(config, seqno) + 1
              <= 2 * config.initialBlockSubsidy * config.blockSubsidyHalfPeriod
  {
    if seqno == 0 {
      FirstRemaining(config);
    } else {
      var n := seqno - 1;
      MintedInvariant(config, n);
      RemainingStep(config, n);
    }
  }

  lemma FirstRemaining(config: Config)
    requires config.initialBlockSubsidy > 0
    ensures Remaining(config, 0) == 2 * config.initialBlockSubsidy * config.blockSubsidyHalfPeriod
    ensures Remaining(config, 0) >= 1
  {
    var h: nat, s: nat := config.blockSubsidyHalfPeriod, config.initialBlockSubsidy;
    DivModUnique(0, h, 0, 0);
    assert (2 * h) * s == 2 * s * h;
    Difficulty.MulMono(1, h, s);
  }

  lemma RemainingStep(config: Config, n: nat)
    requires n + 1 < 64 * config.blockSubsidyHalfPeriod
    ensures Subsidy(config, n) + Remaining(config, n + 1) <= Remaining(config, n)
    ensures Subsidy(config, n) > 0 ==> Subsidy(config, n) + 1 <= Remaining(config, n)
  {
    var h := config.blockSubsidyHalfPeriod;
    EraStep(config, n);
    RemainingShrinks(h, n % h, Subsidy(config, n), (n + 1) % h, Subsidy(config, n + 1));
  }

  lemma EraStep(config: Config, n: nat)
    requires n + 1 < 64 * config.blockSubsidyHalfPeriod
    ensures var h := config.blockSubsidyHalfPeriod;
            var now, next := Subsidy(config, n), Subsidy(config, n + 1);
            n % h < h &&
            (((n + 1) % h == n % h + 1 < h && next == now) ||
             (n % h == h - 1 && (n + 1) % h == 0 && 2 * next <= now))
  {
    var h := config.blockSubsidyHalfPeriod;
    EraBelow64(n, h);
    EraBelow64(n + 1, h);
    PeriodStep(n, h);
    if (n + 1) % h == 0 {
      LastOfEra(n, h);
    }
  }

  lemma MintedNext(config: Config, seqno: nat)
    ensures Minted(config, seqno + 1) == Minted(config, seqno) + Subsidy(config, seqno + 1)
  {}

  lemma EraBelow64(n: nat, h: nat)
    requires h > 0 && n < 64 * h
    ensures (n / h) % 64 == n / h
  {
    var q := n / h;
    assert q * h <= n;
    if q >= 64 {
      Difficulty.MulMono(64, q, h);
      assert false;
    }
  }

  lemma LastOfEra(n: nat, h: nat)
    requires h > 0 && (n + 1) % h == 0
    ensures n % h == h - 1
  {
    var r := n % h;
    if r < h - 1 {
      assert n == (n / h) * h + r;
      DivModUnique(n + 1, h, n / h, r + 1);
      assert false;
    }
  }

  /** The bound: up to the last block whose subsidy the 64-bit shift defines, the supply
      stays below twice the first era's issue. */
  lemma MintedBelowTwoEras(config: Config, seqno: nat)
    requires seqno < 64 * config.blockSubsidyHalfPeriod && config.initialBlockSubsidy > 0
    ensures Minted(config, seqno) < 2 * config.initialBlockSubsidy * config.blockSubsidyHalfPeriod
  {
    MintedInvariant(config, seqno);
    var h := config.blockSubsidyHalfPeriod;
    PeriodStep(seqno, h);
    RemainingShrinks(h, seqno % h, Subsidy(config, seqno), if seqno % h == h - 1 then 0 else seqno % h + 1,
                     if seqno % h == h - 1 then 0 else Subsidy(config, seqno));
  }

  /** From there on the shift distance wraps around: the subsidy starts over. */
  lemma SubsidyStartsOver(config: Config, seqno: nat)
    ensures Subsidy(config, seqno + 64 * config.blockSubsidyHalfPeriod) == Subsidy(config, seqno)
  {
    var h := config.blockSubsidyHalfPeriod;
    var q, r := seqno / h, seqno % h;
    assert seqno == q * h + r;
    assert (q + 64) * h == q * h + 64 * h;
    DivModUnique(seqno + 64 * h, h, q + 64, r);
    assert (q + 64) % 64 == q % 64 by {
      DivModUnique(q + 64, 64, q / 64 + 1, q % 64);
    }
  }

  lemma {:induction false} MintedInFirstEra(config: Config, seqno: nat)
    requires seqno < config.blockSubsidyHalfPeriod
    ensures Minted(config, seqno) == (seqno + 1) * config.initialBlockSubsidy
  {
    DivModUnique(seqno, config.blockSubsidyHalfPeriod, 0, seqno);
    if seqno > 0 {
      MintedInFirstEra(config, seqno - 1);
      OneMore(seqno, config.initialBlockSubsidy);
    }
  }

  /** In the era after the last, the first subsidy is minted again with every block. */
  lemma {:induction false} MintedAfterLast(config: Config, blocks: nat)
    requires blocks <= config.blockSubsidyHalfPeriod
    ensures var last := 64 * config.blockSubsidyHalfPeriod - 1;
            Minted(config, last + blocks) == Minted(config, last) + blocks * config.initialBlockSubsidy
  {
    if blocks > 0 {
      MintedAfterLast(config, blocks - 1);
      FirstSubsidyAgain(config, blocks - 1);
      hide Subsidy;
      MintedNext(config, 64 * config.blockSubsidyHalfPeriod - 1 + (blocks - 1));
      OneMore(blocks - 1, config.initialBlockSubsidy);
    }
  }

  lemma FirstSubsidyAgain(config: Config, offset: nat)
    requires offset < config.blockSubsidyHalfPeriod
    ensures Subsidy(config, 64 * config.blockSubsidyHalfPeriod + offset) == config.initialBlockSubsidy
  {
    SubsidyStartsOver(config, offset);
    DivModUnique(offset, config.blockSubsidyHalfPeriod, 0, offset);
  }

  lemma OneMore(n: nat, s: nat)
    ensures (n + 1) * s == n * s + s
  {}

  lemma {:induction false} MintedMonotone(config: Config, a: nat, b: nat)
    requires a < b
    ensures Minted(config, b) >= Minted(config, a) + Subsidy(config, b)
  {
    if a < b - 1 {
      MintedMonotone(config, a, b - 1);
    }
  }

  /** Exactly how long the bound holds: through all eras of the 64-bit shift, and into the one
      after them as long as its blocks, each paying the first subsidy again, still fit. */
  lemma MintedBelowTwoErasIff(config: Config, seqno: nat)
    requires config.initialBlockSubsidy > 0
    ensures var h, s := config.blockSubsidyHalfPeriod, config.initialBlockSubsidy;
            Minted(config, seqno) < 2 * s * h <==>
              seqno < 64 * h ||
              (seqno < 65 * h && Minted(config, 64 * h - 1) + (seqno - 64 * h + 1) * s < 2 * s * h)
  {
    var h := config.blockSubsidyHalfPeriod;
    if seqno < 64 * h {
      MintedBelowTwoEras(config, seqno);
    } else if seqno < 65 * h {
      MintedAfterLast(config, seqno - 64 * h + 1);
    } else {
      TwoFullEras(config);
      if seqno > 65 * h - 1 {
        MintedMonotone(config, 65 * h - 1, seqno);
      }
    }
  }

  /** The first era and its repetition alone reach the bound. */
  lemma TwoFullEras(config: Config)
    ensures var h, s := config.blockSubsidyHalfPeriod, config.initialBlockSubsidy;
            Minted(config, 65 * h - 1) >= 2 * s * h
  {
    var h: nat, s: nat := config.blockSubsidyHalfPeriod, config.initialBlockSubsidy;
    hide Minted, Subsidy;
    MintedAfterLast(config, h);
    MintedInFirstEra(config, h - 1);
    MintedMonotone(config, h - 1, 64 * h - 1);
    assert h * s + h * s == 2 * s * h;
  }

  /** Every 64 eras the whole first subsidy is minted again, without end. */
  lemma {:induction false} MintedUnbounded(config: Config, cycles: nat)
    requires config.initialBlockSubsidy > 0
    ensures Minted(config, CycleStart(config, cycles)) > cycles
    ensures Subsidy(config, CycleStart(config, cycles)) == config.initialBlockSubsidy
  {
    if cycles == 0 {
      DivModUnique(0, config.blockSubsidyHalfPeriod, 0, 0);
    } else {
      var before := CycleStart(config, cycles - 1);
      MintedUnbounded(config, cycles - 1);
      SubsidyStartsOver(config, before);
      MintedMonotone(config, before, CycleStart(config, cycles));
    }
  }

  function CycleStart(config: Config, cycles: nat): nat {
    if cycles == 0 then 0 else CycleStart(config, cycles - 1) + 64 * config.blockSubsidyHalfPeriod
  }

  // ---------- 64-bit sums ----------

  lemma TotalSubset(a: set<Cash>, b: set<Cash>)
    requires a <= b
    ensures Total(a) <= Total(b)
  {
    TotalDisjoint(a, b - a);
    assert a + (b - a) == b;
  }

  /** What a block's transactions must satisfy beyond the checks for no sum to wrap: they were
      decoded, and no transaction's outputs sum to 2^64 or more. */
  predicate OutputsFit(b: Block) {
    forall t :: t in b.transactions ==> Admissible(t) && Sum(t.outputs) < U64_RANGE
  }

  lemma {:induction false} ListSumsBound(txns: seq<Transaction>, t: Transaction)
    requires t in txns
    ensures Sum(t.inputs) <= Sum(InputList(txns))
  {
    var rest, last := txns[..|txns| - 1], txns[|txns| - 1];
    SumConcat(InputList(rest), last.inputs);
    if t != last {
      ListSumsBound(rest, t);
    }
  }

  lemma {:induction false} ExactFeesNotNegative(txns: seq<Transaction>)
    requires forall t :: t in txns ==> ExactFee(t) >= 0
    ensures ExactFees(txns) >= 0
  {
    if txns != [] {
      ExactFeesNotNegative(txns[..|txns| - 1]);
    }
  }

  /** A block whose outputs fit, spending cash worth less than 2^64 without repeats, pays fees
      that do not go below zero nor above what it spends. */
  lemma FeesWithin(b: Block, available: nat)
    requires OutputsFit(b) && Sum(InputList(b.transactions)) <= available < U64_RANGE
    ensures 0 <= ExactFees(b.transactions) <= available
  {
    forall t | t in b.transactions ensures ExactFee(t) >= 0 {
      ListSumsBound(b.transactions, t);
      AdmissibleIsCoveredIff(t);
    }
    ExactFeesNotNegative(b.transactions);
    ListsMatchSets(b.transactions);
  }

  /** Along the whole ancestry, outputs fit, are distinct, and no input is listed twice. */
  ghost predicate CleanOn(b: Block) {
    b.prevId.HashOf? ==>
      CleanOn(b.prevId.block) && OutputsFit(b) && DistinctOutputs(b) && NoPaidRepeat(InputList(b.transactions))
  }

  /** On a clean branch, as long as what was minted fits 64 bits, no sum of the validator wraps, and
      the unspent amounts add up to exactly what was minted. */
  lemma {:induction false} CleanBranchConserves(config: Config, b: Block)
    requires Rooted(config, b) && Sound(b) && CleanOn(b) && Minted(config, b.seqno) < U64_RANGE
    ensures RewardsFitOn(config, b) && Total(Utxo(b)) == Minted(config, b.seqno)
  {
    if b == Genesis(config) {
      GenesisSupply(config);
    } else {
      TopOfBranch(config, b);
      MintedNext(config, b.prevId.block.seqno);
      CleanBranchConserves(config, b.prevId.block);
      CleanStep(config, b);
    }
  }

  lemma TopOfBranch(config: Config, b: Block)
    requires Rooted(config, b) && b != Genesis(config) && Sound(b) && CleanOn(b)
    ensures b.prevId.HashOf? && b.seqno == b.prevId.block.seqno + 1 && RewardOk(config, b)
    ensures Spends(b) <= Utxo(b.prevId.block) && Fresh(b) && OutputsFit(b) && DistinctOutputs(b)
    ensures NoPaidRepeat(InputList(b.transactions))
  {}

  lemma CleanStep(config: Config, b: Block)
    requires b.prevId.HashOf? && b.seqno == b.prevId.block.seqno + 1 && RewardOk(config, b)
    requires Spends(b) <= Utxo(b.prevId.block) && Fresh(b) && OutputsFit(b) && DistinctOutputs(b)
    requires NoPaidRepeat(InputList(b.transactions))
    requires RewardsFitOn(config, b.prevId.block)
    requires Total(Utxo(b.prevId.block)) == Minted(config, b.prevId.block.seqno) < U64_RANGE
    requires Minted(config, b.seqno) < U64_RANGE
    ensures RewardsFitOn(config, b) && Total(Utxo(b)) == Minted(config, b.seqno)
  {
    hide Minted, Subsidy, Fresh, NoPaidRepeat, Utxo, Total, OutputsFit, RewardOk, DistinctOutputs;
    var prev := b.prevId.block;
    ListsMatchSets(b.transactions);
    SumVersusTotal(InputList(b.transactions));
    TotalSubset(Spends(b), Utxo(prev));
    FeesWithin(b, Minted(config, prev.seqno));
    MintedNext(config, prev.seqno);
    assert RewardFits(config, b);
    UtxoUnfold(b);
    FreshIsUnspent(b);
    SupplyStepIff(config, Utxo(prev), b);
  }

  /** The default subsidy and half period do not meet that condition: sixteen blocks already
      mint more than a 64-bit word holds. */
  lemma DefaultSupplyOutgrows64(config: Config)
    requires config.initialBlockSubsidy == 0x1000_0000_0000_0000 && config.blockSubsidyHalfPeriod == 210_000
    ensures Minted(config, 14) < U64_RANGE <= Minted(config, 15)
  {
    MintedInFirstEra(config, 14);
    MintedInFirstEra(config, 15);
  }

  // ---------- double spending ----------

  /** At a sound block, unspent is exactly created and not spent; nothing is spent that was
      not created. */
  lemma {:induction false} UtxoIsCreatedMinusSpent(config: Config, b: Block)
    requires Rooted(config, b) && Sound(b)
    ensures Utxo(b) == CreatedOn(Branch(b)) - SpentOn(Branch(b))
    ensures SpentOn(Branch(b)) <= CreatedOn(Branch(b))
  {
    if b == Genesis(config) {
      GenesisUtxo(config);
    } else {
      var prev := b.prevId.block;
      assert Branch(b)[..|Branch(b)| - 1] == Branch(prev);
      UtxoIsCreatedMinusSpent(config, prev);
      UtxoUnfold(b);
      SoundApply(Utxo(prev), b);
    }
  }

  /** A block that spends unspent cash and creates new cash replaces the one by the other. */
  lemma SoundApply(cash: set<Cash>, b: Block)
    requires Spends(b) <= cash && Spends(b) !! Creates(b)
    ensures ApplyBlock(cash, b) == (cash - Spends(b)) + Creates(b)
  {
    DisjointOutputsStay(b.transactions);
    ApplyTxnsNormal(cash, b.transactions);
  }

  /** No double spend: cash spent by a block of a sound branch was created by a strict
      ancestor of that block, and no other block of the branch spends it. */
  lemma NoDoubleSpend(config: Config, b: Block, i: nat, x: Cash)
    requires Rooted(config, b) && Sound(b)
    requires i < |Branch(b)| && x in Spends(Branch(b)[i])
    ensures exists k :: 0 <= k < i && x in Creates(Branch(b)[k])
    ensures forall j :: 0 <= j < |Branch(b)| && x in Spends(Branch(b)[j]) ==> j == i
  {
    var k := SpentWasCreated(config, b, i, x);
    forall j | 0 <= j < |Branch(b)| && x in Spends(Branch(b)[j]) ensures j == i {
      if j < i {
        SpentOnce(config, b, j, i, x);
      } else if i < j {
        SpentOnce(config, b, i, j, x);
      }
    }
  }

  lemma {:induction false} SoundBelow(b: Block, k: nat)
    requires Sound(b) && k < |Branch(b)|
    ensures Sound(Branch(b)[k])
  {
    if b.prevId.HashOf? && k < |Branch(b)| - 1 {
      SoundBelow(b.prevId.block, k);
    }
  }

  /** The parent of a block that spends something, and its unspent set. */
  lemma ParentOfSpender(config: Config, b: Block, i: nat)
    requires Rooted(config, b) && Sound(b) && i < |Branch(b)| && Spends(Branch(b)[i]) != {}
    ensures i > 0
    ensures Spends(Branch(b)[i]) <= CreatedOn(Branch(b)[..i]) - SpentOn(Branch(b)[..i])
  {
    RootedBranch(config, b);
    assert i > 0 by {
      assert Spends(Genesis(config)) == {};
    }
    BranchAt(b, i);
    BranchAt(b, i - 1);
    SoundBelow(b, i);
    UtxoIsCreatedMinusSpent(config, Branch(b)[i - 1]);
  }

  lemma {:induction false} CreatedSomewhere(blocks: seq<Block>, x: Cash) returns (k: nat)
    requires x in CreatedOn(blocks)
    ensures k < |blocks| && x in Creates(blocks[k])
  {
    var n := |blocks| - 1;
    if x in Creates(blocks[n]) {
      k := n;
    } else {
      k := CreatedSomewhere(blocks[..n], x);
    }
  }

  lemma SpentWasCreated(config: Config, b: Block, i: nat, x: Cash) returns (k: nat)
    requires Rooted(config, b) && Sound(b)
    requires i < |Branch(b)| && x in Spends(Branch(b)[i])
    ensures k < i && x in Creates(Branch(b)[k])
  {
    ParentOfSpender(config, b, i);
    k := CreatedSomewhere(Branch(b)[..i], x);
  }

  lemma SpentOnce(config: Config, b: Block, i: nat, j: nat, x: Cash)
    requires Rooted(config, b) && Sound(b)
    requires i < j < |Branch(b)| && x in Spends(Branch(b)[i])
    ensures x !in Spends(Branch(b)[j])
  {
    if x in Spends(Branch(b)[j]) {
      ParentOfSpender(config, b, j);
      SpentOnContains(Branch(b)[..j], i);
      assert false;
    }
  }
}
