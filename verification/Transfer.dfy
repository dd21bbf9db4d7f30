/** The coin selection of a transfer, in 64-bit arithmetic, and when it is exact. */
module Transfer {
  import opened Types
  import opened Transactions
  import Supply

  /** The coins of one owner, in the order in which the set is iterated. */
  function OwnedBy(coins: seq<Cash>, owner: Address): seq<Cash> {
    if coins == [] then []
    else
      var rest := OwnedBy(coins[..|coins| - 1], owner);
      var last := coins[|coins| - 1];
      if last.owner == owner then rest + [last] else rest
  }

  ghost predicate AllDifferent(coins: seq<Cash>) {
    forall i, j :: 0 <= i < j < |coins| ==> coins[i] != coins[j]
  }

  lemma {:induction false} OwnedByFacts(coins: seq<Cash>, owner: Address)
    ensures forall c :: c in OwnedBy(coins, owner) <==> c in coins && c.owner == owner
    ensures AllDifferent(coins) ==> AllDifferent(OwnedBy(coins, owner))
  {
    if coins != [] {
      var n := |coins| - 1;
      OwnedByFacts(coins[..n], owner);
      assert coins == coins[..n] + [coins[n]];
    }
  }

  function CoinsOf(cash: set<Cash>, owner: Address): set<Cash> {
    set c | c in cash && c.owner == owner
  }

  /** Whatever the order, an owner's coins are worth the same. */
  lemma OwnedTotal(coins: seq<Cash>, owner: Address)
    requires AllDifferent(coins)
    ensures Elems(OwnedBy(coins, owner)) == CoinsOf(Elems(coins), owner)
    ensures Sum(OwnedBy(coins, owner)) == Supply.Total(CoinsOf(Elems(coins), owner))
  {
    OwnedByFacts(coins, owner);
    Supply.SumVersusTotal(OwnedBy(coins, owner));
  }

  lemma {:induction false} OwnedByPrefix(coins: seq<Cash>, n: nat, owner: Address)
    requires n <= |coins|
    ensures OwnedBy(coins[..n], owner) <= OwnedBy(coins, owner)
  {
    if n < |coins| {
      OwnedByPrefix(coins[..|coins| - 1], n, owner);
      assert coins[..|coins| - 1][..n] == coins[..n];
    } else {
      assert coins[..n] == coins;
    }
  }

  lemma {:induction false} SumPrefix(coins: seq<Cash>, n: nat)
    requires n <= |coins|
    ensures Sum(coins[..n]) <= Sum(coins)
  {
    if n < |coins| {
      SumPrefix(coins[..|coins| - 1], n);
      assert coins[..|coins| - 1][..n] == coins[..n];
    } else {
      assert coins[..n] == coins;
    }
  }

  // ---------- which coins are chosen ----------

  /** The first coins of a list whose running 64-bit sum reaches `need`, and at least one; all of
      them if none does. */
  ghost predicate FirstCover(chosen: seq<Cash>, owned: seq<Cash>, need: U64) {
    chosen <= owned && (chosen == owned || (chosen != [] && Sum64(chosen) >= need)) &&
    forall n :: 0 < n < |chosen| ==> Sum64(owned[..n]) < need
  }

  lemma FirstCoverUnique(a: seq<Cash>, b: seq<Cash>, owned: seq<Cash>, need: U64)
    requires FirstCover(a, owned, need) && FirstCover(b, owned, need)
    ensures a == b
  {
    assert owned[..|a|] == a && owned[..|b|] == b;
  }

  lemma FirstCoverOwned(chosen: seq<Cash>, owned: seq<Cash>, need: U64)
    requires FirstCover(chosen, owned, need)
    ensures forall i :: 0 <= i < |chosen| ==> chosen[i] in owned
    ensures forall c :: c in chosen ==> c in owned
    ensures AllDifferent(owned) ==> AllDifferent(chosen)
    ensures chosen == [] ==> owned == []
  {
    assert forall i :: 0 <= i < |chosen| ==> chosen[i] == owned[i];
  }

  /** The shortest prefix of a list of coins worth at least `need`, but never empty. */
  ghost predicate ShortestCover(chosen: seq<Cash>, owned: seq<Cash>, need: nat) {
    chosen <= owned && chosen != [] && Sum(chosen) >= need &&
    forall n :: 0 < n < |chosen| ==> Sum(owned[..n]) < need
  }

  lemma PrefixSum64(owned: seq<Cash>, n: nat)
    requires n <= |owned| && Sum(owned) < U64_RANGE
    ensures Sum64(owned[..n]) == Sum(owned[..n]) <= Sum(owned)
  {
    SumPrefix(owned, n);
    Sum64Wraps(owned[..n]);
  }

  /** When the coins sum below 2^64, the running sums are exact: the choice covers the need if and
      only if all coins together do, and is then the shortest that does. */
  lemma FirstCoverIsShortest(chosen: seq<Cash>, owned: seq<Cash>, need: U64)
    requires FirstCover(chosen, owned, need) && Sum(owned) < U64_RANGE
    ensures Sum64(chosen) == Sum(chosen)
    ensures Sum(chosen) >= need <==> Sum(owned) >= need
    ensures owned != [] && Sum(owned) >= need <==> ShortestCover(chosen, owned, need)
  {
    assert owned[..|chosen|] == chosen;
    PrefixSum64(owned, |chosen|);
    forall n | 0 < n < |chosen| ensures Sum64(owned[..n]) == Sum(owned[..n]) {
      PrefixSum64(owned, n);
    }
  }

  /** Picks coins of the sender, in iteration order, until they cover the amount and the fee. */
  method SelectInputs(coins: seq<Cash>, sender: Address, need: U64) returns (inputs: seq<Cash>)
    ensures FirstCover(inputs, OwnedBy(coins, sender), need)
  {
    ghost var owned := OwnedBy(coins, sender);
    inputs := [];
    for i := 0 to |coins|
      invariant inputs == OwnedBy(coins[..i], sender)
      invariant forall n :: 0 < n <= |inputs| ==> Sum64(inputs[..n]) < need
    {
      assert coins[..i + 1][..i] == coins[..i];
      OwnedByPrefix(coins, i + 1, sender);
      if coins[i].owner != sender {
        continue;
      }
      ghost var before := inputs;
      inputs := inputs + [coins[i]];
      assert forall n :: 0 < n <= |before| ==> inputs[..n] == before[..n];
      assert inputs[..|inputs|] == inputs;
      if Sum64(inputs) >= need {
        assert inputs <= owned;
        assert forall n :: 0 < n < |inputs| ==> owned[..n] == inputs[..n];
        return;
      }
    }
    assert coins[..|coins|] == coins;
  }

  // ---------- the transfer ----------

  /** Nothing of a transfer wraps. */
  predicate TransferFits(coins: seq<Cash>, sender: Address, amount: U64, fee: U64) {
    Sum(OwnedBy(coins, sender)) < U64_RANGE && amount + fee < U64_RANGE
  }

  /** What the checks make of the two outputs of a transfer. */
  lemma TransferSums(sum: U64, paid: Cash, change: Cash, fee: U64)
    requires change.amount == Wrap(sum - paid.amount - fee)
    ensures sum >= Sum64([paid, change]) <==> sum >= fee
    ensures Wrap(sum - Sum64([paid, change])) == fee
    ensures sum >= paid.amount + fee ==> sum == paid.amount + change.amount + fee
  {
    SumOfTwo(paid, change);
    Sum64Wraps([paid, change]);
    hide Wrap, Sum64, Sum;
    WrapOfWord(sum);
    WrapOfWord(paid.amount);
    WrapOfWord(fee);
    WrapSum(paid.amount, sum - paid.amount - fee);
    WrapSum(sum, sum - fee);
    if sum >= fee {
      WrapOfWord(sum - fee);
    } else {
      WrapUnique(sum - fee, -1, sum - fee + U64_RANGE);
    }
    if sum >= paid.amount + fee {
      WrapOfWord(sum - paid.amount - fee);
    }
  }

  /** A transfer from the sender's unspent cash.  `coins` is the cash set in some iteration order.
      The inputs are distinct coins of the sender, as many of the first as reach the need, and
      the fee is always the one asked for.  It succeeds exactly when the sender owns cash and the
      64-bit sum chosen reaches the wrapped need and the fee.  When nothing wraps, that is when the
      sender owns enough, and the inputs are as few as the order allows and are spent exactly: on
      the amount, the change and the fee. */
  method NewTransfer(coins: seq<Cash>, sender: Address, receiver: Address, amount: U64, fee: U64,
                     paidId: nat, changeId: nat, signature: nat) returns (r: Result<Transaction, TransactionError>)
    requires AllDifferent(coins)
    ensures forall chosen :: FirstCover(chosen, OwnedBy(coins, sender), Wrap(amount + fee)) ==>
              (r.Success? <==> chosen != [] && Sum64(chosen) >= Wrap(amount + fee) && Sum64(chosen) >= fee) &&
              (r.Success? ==> r.value.inputs == chosen)
    ensures r.Success? ==>
      var t := r.value;
      Admissible(t) && Fee(t) == fee && AllDifferent(t.inputs) &&
      (forall c :: c in t.inputs ==> c in coins && c.owner == sender) &&
      t.outputs == [Cash(paidId, amount, receiver), Cash(changeId, Wrap(Sum64(t.inputs) - amount - fee), sender)]
    ensures TransferFits(coins, sender, amount, fee) ==>
      (r.Success? <==> OwnedBy(coins, sender) != [] && Sum(OwnedBy(coins, sender)) >= amount + fee) &&
      (r.Failure? && Sum(OwnedBy(coins, sender)) < amount + fee ==> r.error == InsufficientCash) &&
      (r.Success? ==> ShortestCover(r.value.inputs, OwnedBy(coins, sender), amount + fee) &&
                      Sum(r.value.inputs) == amount + r.value.outputs[1].amount + fee)
  {
    hide Sum64, Sum, Wrap, FirstCover, ShortestCover;
    ghost var owned := OwnedBy(coins, sender);
    OwnedByFacts(coins, sender);
    var need := Wrap(amount + fee);
    var inputs := SelectInputs(coins, sender, need);
    forall chosen | FirstCover(chosen, owned, need) ensures chosen == inputs {
      FirstCoverUnique(chosen, inputs, owned, need);
    }
    FirstCoverOwned(inputs, owned, need);
    if TransferFits(coins, sender, amount, fee) {
      WrapOfWord(amount + fee);
      FirstCoverIsShortest(inputs, owned, need);
    }
    if Sum64(inputs) < need {
      return Failure(InsufficientCash);
    }
    var remaining := Wrap(Wrap(Sum64(inputs) - amount) - fee);
    WrapOfWord(fee);
    WrapSum(Sum64(inputs) - amount, fee);
    var outputs := [Cash(paidId, amount, receiver), Cash(changeId, remaining, sender)];
    TransferSums(Sum64(inputs), outputs[0], outputs[1], fee);
    r := NewTransaction(sender, inputs, outputs, signature);
  }
}
