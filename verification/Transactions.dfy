/** Transactions: 64-bit sums, fees, and the checks made when one is built or decoded.  Sums
    and differences wrap around, as unchecked 64-bit arithmetic does. */
module Transactions {
  import opened Types

  function Wrap(n: int): U64 {
    n % U64_RANGE
  }

  lemma WrapUnique(n: int, k: int, r: nat)
    requires n == k * U64_RANGE + r && r < U64_RANGE
    ensures Wrap(n) == r
  {}

  lemma WrapOfWord(n: U64)
    ensures Wrap(n) == n
  {}

  /** Wrapping early changes nothing. */
  lemma WrapSum(a: int, b: int)
    ensures Wrap(Wrap(a) + Wrap(b)) == Wrap(a + b)
    ensures Wrap(Wrap(a) - Wrap(b)) == Wrap(a - b)
  {
    var p, q := a / U64_RANGE, b / U64_RANGE;
    var sum, difference := Wrap(a) + Wrap(b), Wrap(a) - Wrap(b);
    WrapUnique(a + b, p + q + sum / U64_RANGE, Wrap(sum));
    WrapUnique(a - b, p - q + difference / U64_RANGE, Wrap(difference));
  }

  /** The running 64-bit sum of a list of amounts. */
  function Sum64(coins: seq<Cash>): U64 {
    if coins == [] then 0 else Wrap(Sum64(coins[..|coins| - 1]) + coins[|coins| - 1].amount)
  }

  lemma {:induction false} Sum64Wraps(coins: seq<Cash>)
    ensures Sum64(coins) == Wrap(Sum(coins))
    ensures Sum(coins) < U64_RANGE ==> Sum64(coins) == Sum(coins)
  {
    hide Wrap;
    if coins != [] {
      var rest, amount: U64 := coins[..|coins| - 1], coins[|coins| - 1].amount;
      Sum64Wraps(rest);
      WrapOfWord(amount);
      WrapSum(Sum(rest), amount);
    } else {
      WrapOfWord(0);
    }
    if Sum(coins) < U64_RANGE {
      WrapOfWord(Sum(coins));
    }
  }

  // ---------- fees ----------

  function Fee(t: Transaction): U64 {
    Wrap(Sum64(t.inputs) - Sum64(t.outputs))
  }

  function Fees(txns: seq<Transaction>): U64 {
    if txns == [] then 0 else Wrap(Fees(txns[..|txns| - 1]) + Fee(txns[|txns| - 1]))
  }

  /** Fees without wrapping: negative for a transaction that pays out more than it takes. */
  function ExactFee(t: Transaction): int {
    Sum(t.inputs) - Sum(t.outputs)
  }

  function ExactFees(txns: seq<Transaction>): int {
    if txns == [] then 0 else ExactFees(txns[..|txns| - 1]) + ExactFee(txns[|txns| - 1])
  }

  lemma {:induction false} FeesWrap(txns: seq<Transaction>)
    ensures Fees(txns) == Wrap(ExactFees(txns))
  {
    hide Wrap, Sum64, Sum;
    if txns == [] {
      WrapOfWord(0);
    } else {
      var last := txns[|txns| - 1];
      FeesWrap(txns[..|txns| - 1]);
      Sum64Wraps(last.inputs);
      Sum64Wraps(last.outputs);
      WrapSum(Sum(last.inputs), Sum(last.outputs));
      WrapSum(ExactFees(txns[..|txns| - 1]), ExactFee(last));
    }
  }

  // ---------- the checks ----------

  datatype TransactionError = EmptyInputs | MixedOwners | InsufficientInputs | NotTheSigner | InsufficientCash

  function CheckInputsAndOutputs(inputs: seq<Cash>, outputs: seq<Cash>): Option<TransactionError> {
    if inputs == [] then Some(EmptyInputs)
    else if exists i :: 0 < i < |inputs| && inputs[i].owner != inputs[0].owner then Some(MixedOwners)
    else if Sum64(inputs) < Sum64(outputs) then Some(InsufficientInputs)
    else None
  }

  /** A transaction that passed those checks. */
  predicate Admissible(t: Transaction) {
    CheckInputsAndOutputs(t.inputs, t.outputs) == None
  }

  /** An admissible transaction pays out no more than it takes if and only if its output sum wraps
      no more often than its input sum. */
  lemma AdmissibleIsCoveredIff(t: Transaction)
    requires Admissible(t)
    ensures ExactFee(t) >= 0 <==> Sum(t.outputs) / U64_RANGE <= Sum(t.inputs) / U64_RANGE
  {
    Sum64Wraps(t.inputs);
    Sum64Wraps(t.outputs);
  }

  lemma SumOfOne(a: Cash)
    ensures Sum([a]) == a.amount
  {
    assert [a][..0] == [];
    assert Sum([]) == 0;
  }

  lemma SumOfTwo(a: Cash, b: Cash)
    ensures Sum([a, b]) == a.amount + b.amount
  {
    assert [a, b][..1] == [a];
    SumOfOne(a);
  }

  /** What those checks ask for: some inputs, all of one owner, whose sum covers that of the outputs. */
  lemma AdmissibleMeans(t: Transaction)
    ensures Admissible(t) <==>
              t.inputs != [] && (forall a, b :: a in t.inputs && b in t.inputs ==> a.owner == b.owner) &&
              Sum64(t.outputs) <= Sum64(t.inputs)
  {
    if t.inputs != [] {
      assert t.inputs[0] in t.inputs;
    }
    if Admissible(t) {
      forall a | a in t.inputs ensures a.owner == t.inputs[0].owner {
        var i :| 0 <= i < |t.inputs| && t.inputs[i] == a;
      }
    }
  }

  /** Building succeeds exactly with the key of the owner of every input, some inputs, and an input sum
      that covers the output sum. */
  lemma NewTransactionMeans(signer: Address, inputs: seq<Cash>, outputs: seq<Cash>, signature: nat)
    ensures var r := NewTransaction(signer, inputs, outputs, signature);
            (r.Success? <==>
              inputs != [] && (forall c :: c in inputs ==> c.owner == signer) && Sum64(outputs) <= Sum64(inputs)) &&
            (r.Success? ==> r.value == Transaction(inputs, outputs, signature))
  {
    AdmissibleMeans(Transaction(inputs, outputs, signature));
    if inputs != [] {
      assert inputs[0] in inputs;
    }
  }

  function NewTransaction(signer: Address, inputs: seq<Cash>, outputs: seq<Cash>, signature: nat)
      : Result<Transaction, TransactionError>
  {
    var problem := CheckInputsAndOutputs(inputs, outputs);
    if problem.Some? then Failure(problem.value)
    else if signer != inputs[0].owner then Failure(NotTheSigner)
    else Success(Transaction(inputs, outputs, signature))
  }
}
