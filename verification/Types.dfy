/** The entities that travel between nodes: cash, transactions and blocks.

    Hashes are symbolic.  A block id is either the hash of a block, written as the
    block itself under the constructor `HashOf`, or a 256-bit string that is the hash
    of no block.  So ids are collision-free, the all-zero hash is no block's id, and no
    chain of previous-block links can close into a cycle. */
module Types {

  datatype Option<+T> = None | Some(value: T)

  datatype Result<+T, +E> = Success(value: T) | Failure(error: E)

  type Address = nat
  type Timestamp = nat
  type NodeId = nat

  const U64_RANGE: nat := 0x1_0000_0000_0000_0000
  type U64 = n: nat | n < U64_RANGE

  datatype Cash = Cash(id: nat, amount: U64, owner: Address)

  datatype Transaction = Transaction(inputs: seq<Cash>, outputs: seq<Cash>, signature: nat) {
    function Id(): TransactionId {
      TransactionHash(this)
    }
  }

  datatype TransactionId = TransactionHash(transaction: Transaction)

  datatype BlockId = Raw(bits: nat) | HashOf(block: Block)

  datatype Block = Block(
    seqno: nat,
    difficulty: nat,
    prevId: BlockId,
    transactions: seq<Transaction>,
    reward: Cash,
    miner: Address,
    timestamp: Timestamp,
    nonce: nat,
    signature: nat)
  {
    function Id(): BlockId {
      HashOf(this)
    }
  }

  /** The configuration.  Both periods are divisors in the source, so they are not zero.
      The nonce and signature of the genesis block come out of a deterministic search and
      signature, and are carried here as opaque numbers. */
  datatype ConfigData = ConfigData(
    initialBlockSubsidy: U64,
    blockSubsidyHalfPeriod: nat,
    difficultyAdjustmentPeriod: nat,
    averageBlockTime: nat,
    genesisDifficulty: nat,
    genesisTimestamp: Timestamp,
    genesisNonce: nat,
    genesisSignature: nat)

  type Config = c: ConfigData | c.blockSubsidyHalfPeriod > 0 && c.difficultyAdjustmentPeriod > 0
    witness ConfigData(0, 1, 1, 0, 0, 0, 0, 0)

  const GENESIS_MINER: Address := 0
  const ZERO_HASH := Raw(0)

  /** The genesis block of a configuration. */
  function Genesis(config: Config): Block {
    Block(0, config.genesisDifficulty, ZERO_HASH, [],
          Cash(0, config.initialBlockSubsidy, GENESIS_MINER), GENESIS_MINER,
          config.genesisTimestamp, config.genesisNonce, config.genesisSignature)
  }

  function Elems<T>(s: seq<T>): set<T> {
    set x | x in s
  }

  function Sum(coins: seq<Cash>): nat {
    if coins == [] then 0 else Sum(coins[..|coins| - 1]) + coins[|coins| - 1].amount
  }

  /** The blocks from the root of `b`'s ancestry up to `b`, oldest first. */
  function Branch(b: Block): (chain: seq<Block>)
    ensures |chain| > 0 && chain[|chain| - 1] == b
  {
    match b.prevId
    case HashOf(prev) => Branch(prev) + [b]
    case Raw(_) => [b]
  }

  /** Whether `a` is `b` or one of its ancestors. */
  predicate OnBranch(a: Block, b: Block) {
    a in Branch(b)
  }

  /** The branch of a block on another's branch is a prefix of it. */
  lemma {:induction false} BranchIsPrefix(a: Block, b: Block)
    requires OnBranch(a, b)
    ensures Branch(a) <= Branch(b)
    ensures Branch(b)[|Branch(a)| - 1] == a
  {
    if a != b {
      match b.prevId
      case HashOf(prev) => BranchIsPrefix(a, prev);
      case Raw(_) =>
    }
  }

  /** Each position of a branch holds the block whose own branch ends there. */
  lemma {:induction false} BranchAt(b: Block, k: nat)
    requires k < |Branch(b)|
    ensures Branch(Branch(b)[k]) == Branch(b)[..k + 1]
    ensures k > 0 ==> Branch(b)[k].prevId == Branch(b)[k - 1].Id()
  {
    match b.prevId
    case HashOf(prev) =>
      if k < |Branch(prev)| {
        BranchAt(prev, k);
        assert Branch(b)[..k + 1] == Branch(prev)[..k + 1];
      } else {
        assert Branch(b)[..k + 1] == Branch(b);
      }
    case Raw(_) =>
  }

  /** The ancestor relation is transitive. */
  lemma OnBranchTransitive(a: Block, b: Block, c: Block)
    requires OnBranch(a, b) && OnBranch(b, c)
    ensures OnBranch(a, c)
  {
    BranchIsPrefix(b, c);
  }

  /** Two blocks on one branch are themselves in line. */
  lemma BranchesNest(a: Block, b: Block, c: Block)
    requires OnBranch(a, c) && OnBranch(b, c)
    requires |Branch(a)| <= |Branch(b)|
    ensures OnBranch(a, b)
  {
    BranchIsPrefix(a, c);
    BranchIsPrefix(b, c);
    assert Branch(b)[|Branch(a)| - 1] == a;
  }
}
