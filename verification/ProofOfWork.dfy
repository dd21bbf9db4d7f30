/** The record that is hashed and signed, and the search for a nonce. */
module ProofOfWork {
  import opened Types
  import opened Difficulty
  import opened Rules

  datatype Unconfirmed = Unconfirmed(
    seqno: nat,
    difficulty: nat,
    prevId: BlockId,
    transactions: seq<Transaction>,
    reward: Cash,
    miner: Address,
    timestamp: Timestamp)

  datatype MiningError = AdjustmentTimeRequired | MinerNotMatchSigner | InvalidNonce | NoNonce

  function Sealed(u: Unconfirmed, nonce: nat, signature: nat): Block {
    Block(u.seqno, u.difficulty, u.prevId, u.transactions, u.reward, u.miner, u.timestamp, nonce, signature)
  }

  // ---------- numbers as bytes ----------

  newtype Byte = x: int | 0 <= x < 256

  function LittleEndian(n: nat, length: nat): (bytes: seq<Byte>)
    ensures |bytes| == length
  {
    if length == 0 then [] else [(n % 256) as Byte] + LittleEndian(n / 256, length - 1)
  }

  function Value(bytes: seq<Byte>): nat {
    if bytes == [] then 0 else bytes[0] as int + 256 * Value(bytes[1..])
  }

  function Capacity(length: nat): nat { if length == 0 then 1 else 256 * Capacity(length - 1) }

  /** The encoding holds every number its width allows, so different nonces are hashed
      differently. */
  lemma {:induction false} LittleEndianRoundTrip(n: nat, length: nat)
    requires n < Capacity(length)
    ensures Value(LittleEndian(n, length)) == n
  {
    if length > 0 {
      var rest := LittleEndian(n / 256, length - 1);
      LittleEndianRoundTrip(n / 256, length - 1);
      assert ([(n % 256) as Byte] + rest)[1..] == rest;
    }
  }

  function Place(k: nat): (r: nat)
    ensures r > 0
  {
    if k == 0 then 1 else 256 * Place(k - 1)
  }

  lemma DivPlace(n: nat, k: nat)
    requires k > 0
    ensures (n / 256) / Place(k - 1) == n / Place(k)
  {
    var a := Place(k - 1);
    var q, r := (n / 256) / a, (n / 256) % a;
    assert n / 256 == q * a + r;
    assert n == 256 * (q * a + r) + n % 256;
    assert 256 * (q * a + r) == q * (256 * a) + 256 * r;
    assert 256 * r + n % 256 < 256 * a;
    DivModUnique(n, 256 * a, q, 256 * r + n % 256);
  }

  /** The least significant byte comes first. */
  lemma {:induction false} LittleEndianAt(n: nat, length: nat, k: nat)
    requires k < length
    ensures LittleEndian(n, length)[k] as int == (n / Place(k)) % 256
  {
    if k > 0 {
      LittleEndianAt(n / 256, length - 1, k - 1);
      DivPlace(n, k);
    }
  }

  lemma EveryNonceFits(nonce: nat)
    requires nonce < U64_RANGE
    ensures Value(LittleEndian(nonce, 8)) == nonce
  {
    Widths();
    LittleEndianRoundTrip(nonce, 8);
  }

  /** The record that is hashed: a confirmed block without its signature. */
  datatype BlockInner = BlockInner(
    seqno: nat,
    difficulty: nat,
    prevId: BlockId,
    transactions: seq<Transaction>,
    reward: Cash,
    miner: Address,
    timestamp: Timestamp,
    nonce: nat)

  function Inner(b: Block): BlockInner {
    BlockInner(b.seqno, b.difficulty, b.prevId, b.transactions, b.reward, b.miner, b.timestamp, b.nonce)
  }

  /** How single values are encoded, and the digest of an encoding, read as a number. */
  datatype Codec = Codec(
    target: nat -> seq<Byte>,
    id: BlockId -> seq<Byte>,
    transaction: Transaction -> seq<Byte>,
    cash: Cash -> seq<Byte>,
    address: Address -> seq<Byte>,
    digest: seq<Byte> -> nat)

  /** Records are encoded field by field in order of declaration, integers with fixed width and
      little-endian, lists after their length. */
  function EncodeTransactions(codec: Codec, txns: seq<Transaction>): seq<Byte> {
    if txns == [] then []
    else EncodeTransactions(codec, txns[..|txns| - 1]) + codec.transaction(txns[|txns| - 1])
  }

  function EncodeUnconfirmed(codec: Codec, u: Unconfirmed): seq<Byte> {
    LittleEndian(u.seqno, 8) + (codec.target(u.difficulty) + (codec.id(u.prevId) +
      (LittleEndian(|u.transactions|, 8) + (EncodeTransactions(codec, u.transactions) +
        (codec.cash(u.reward) + (codec.address(u.miner) + LittleEndian(u.timestamp, 16)))))))
  }

  function EncodeInner(codec: Codec, b: BlockInner): seq<Byte> {
    LittleEndian(b.seqno, 8) + (codec.target(b.difficulty) + (codec.id(b.prevId) +
      (LittleEndian(|b.transactions|, 8) + (EncodeTransactions(codec, b.transactions) +
        (codec.cash(b.reward) + (codec.address(b.miner) +
          (LittleEndian(b.timestamp, 16) + LittleEndian(b.nonce, 8))))))))
  }

  // ---------- what is hashed determines the block ----------

  /** The encodings of two values can be told apart, whatever follows them. */
  ghost predicate Apart<T(!new)>(encode: T -> seq<Byte>, x: T, y: T) {
    forall r, q :: encode(x) + r == encode(y) + q ==> x == y && r == q
  }

  lemma Prefixes(x: seq<Byte>, y: seq<Byte>, r: seq<Byte>, q: seq<Byte>)
    requires |x| == |y| && x + r == y + q
    ensures x == y && r == q
  {
    assert (x + r)[..|x|] == x && (y + q)[..|y|] == y;
    assert (x + r)[|x|..] == r && (y + q)[|y|..] == q;
  }

  lemma NumbersApart(x: nat, y: nat, length: nat, r: seq<Byte>, q: seq<Byte>)
    requires x < Capacity(length) && y < Capacity(length)
    requires LittleEndian(x, length) + r == LittleEndian(y, length) + q
    ensures x == y && r == q
  {
    hide LittleEndian, Capacity;
    Prefixes(LittleEndian(x, length), LittleEndian(y, length), r, q);
    LittleEndianRoundTrip(x, length);
    LittleEndianRoundTrip(y, length);
  }

  ghost predicate TransactionsApart(codec: Codec, x: seq<Transaction>, y: seq<Transaction>) {
    |x| == |y| ==> forall i :: 0 <= i < |x| ==> Apart(codec.transaction, x[i], y[i])
  }

  lemma {:induction false} ListsApart(codec: Codec, x: seq<Transaction>, y: seq<Transaction>,
                                      r: seq<Byte>, q: seq<Byte>)
    requires |x| == |y| && TransactionsApart(codec, x, y)
    requires EncodeTransactions(codec, x) + r == EncodeTransactions(codec, y) + q
    ensures x == y && r == q
  {
    if x == [] {
      assert [] + r == r && [] + q == q;
    } else {
      var n := |x| - 1;
      var head, tail := EncodeTransactions(codec, x[..n]), codec.transaction(x[n]);
      var head', tail' := EncodeTransactions(codec, y[..n]), codec.transaction(y[n]);
      ConcatAssociates(head, tail, r);
      ConcatAssociates(head', tail', q);
      ListsApart(codec, x[..n], y[..n], tail + r, tail' + q);
      assert Apart(codec.transaction, x[n], y[n]);
      assert x == x[..n] + [x[n]] && y == y[..n] + [y[n]];
    }
  }

  lemma ConcatAssociates(a: seq<Byte>, b: seq<Byte>, c: seq<Byte>)
    ensures (a + b) + c == a + (b + c)
  {}

  /** The fields of a record fit the widths of its encoding. */
  ghost predicate FitsWidths(b: BlockInner) {
    b.seqno < U64_RANGE && b.nonce < U64_RANGE && |b.transactions| < U64_RANGE && b.timestamp < U128_RANGE
  }

  /** The encodings of the two records' other fields can be told apart. */
  ghost predicate FieldsApart(codec: Codec, a: BlockInner, b: BlockInner) {
    Apart(codec.target, a.difficulty, b.difficulty) && Apart(codec.id, a.prevId, b.prevId) &&
    TransactionsApart(codec, a.transactions, b.transactions) && Apart(codec.cash, a.reward, b.reward) &&
    Apart(codec.address, a.miner, b.miner)
  }

  /** No field is left out of what is hashed and signed, and none can be mistaken for another: two
      records with one encoding are one record. */
  lemma EncodingInjective(codec: Codec, a: BlockInner, b: BlockInner)
    requires FitsWidths(a) && FitsWidths(b) && FieldsApart(codec, a, b)
    requires EncodeInner(codec, a) == EncodeInner(codec, b)
    ensures a == b
  {
    Widths();
    hide LittleEndian, Capacity, EncodeTransactions;
    var tail, tail' := LittleEndian(a.nonce, 8), LittleEndian(b.nonce, 8);
    var time, time' := LittleEndian(a.timestamp, 16) + tail, LittleEndian(b.timestamp, 16) + tail';
    var miner, miner' := codec.address(a.miner) + time, codec.address(b.miner) + time';
    var reward, reward' := codec.cash(a.reward) + miner, codec.cash(b.reward) + miner';
    var list := EncodeTransactions(codec, a.transactions) + reward;
    var list' := EncodeTransactions(codec, b.transactions) + reward';
    var txns, txns' := LittleEndian(|a.transactions|, 8) + list, LittleEndian(|b.transactions|, 8) + list';
    var id, id' := codec.id(a.prevId) + txns, codec.id(b.prevId) + txns';
    var target, target' := codec.target(a.difficulty) + id, codec.target(b.difficulty) + id';
    NumbersApart(a.seqno, b.seqno, 8, target, target');
    assert a.difficulty == b.difficulty && id == id';
    assert a.prevId == b.prevId && txns == txns';
    NumbersApart(|a.transactions|, |b.transactions|, 8, list, list');
    ListsApart(codec, a.transactions, b.transactions, reward, reward');
    assert a.reward == b.reward && miner == miner';
    assert a.miner == b.miner && time == time';
    NumbersApart(a.timestamp, b.timestamp, 16, tail, tail');
    assert tail + [] == tail && tail' + [] == tail';
    NumbersApart(a.nonce, b.nonce, 8, [], []);
  }

  lemma Widths()
    ensures Capacity(8) == U64_RANGE && Capacity(16) == U128_RANGE && Capacity(32) == MAX_TARGET + 1
  {
    assert Capacity(2) == 0x1_0000;
    assert Capacity(4) == 0x1_0000_0000;
    assert Capacity(6) == 0x1_0000_0000_0000;
    assert Capacity(10) == 0x1_0000_0000_0000_0000_0000;
    assert Capacity(12) == 0x1_0000_0000_0000_0000_0000_0000;
    assert Capacity(14) == 0x1_0000_0000_0000_0000_0000_0000_0000;
    assert Capacity(16) == U128_RANGE;
    assert Capacity(20) == U128_RANGE * Capacity(4);
    assert Capacity(24) == U128_RANGE * Capacity(8);
    assert Capacity(28) == U128_RANGE * Capacity(12);
    assert Capacity(32) == U128_RANGE * Capacity(16);
  }

  // ---------- the nonce search ----------

  /** The check made when a block is decoded. */
  predicate VerifyNonce(codec: Codec, b: Block) {
    IsMet(b.difficulty, codec.digest(EncodeInner(codec, Inner(b))))
  }

  /** What the miner hashes for one nonce: its own record with eight bytes appended. */
  predicate NonceMeets(codec: Codec, u: Unconfirmed, nonce: nat) {
    IsMet(u.difficulty, codec.digest(EncodeUnconfirmed(codec, u) + LittleEndian(nonce, 8)))
  }

  /** Appending a nonce to the unconfirmed record is encoding the confirmed record, so the search
      looks for exactly what decoding checks. */
  lemma AppendedIsEncoded(codec: Codec, u: Unconfirmed, nonce: nat, signature: nat)
    ensures EncodeUnconfirmed(codec, u) + LittleEndian(nonce, 8)
            == EncodeInner(codec, Inner(Sealed(u, nonce, signature)))
    ensures NonceMeets(codec, u, nonce) <==> VerifyNonce(codec, Sealed(u, nonce, signature))
  {
    hide LittleEndian, EncodeTransactions;
  }

  /** Overwriting the last eight bytes of one nonce's encoding gives the other's, and different
      nonces are hashed from different bytes. */
  lemma PatchIsReencoding(codec: Codec, u: Unconfirmed, from: nat, to: nat)
    requires from < U64_RANGE && to < U64_RANGE
    ensures var before := EncodeInner(codec, Inner(Sealed(u, from, 0)));
            var after := EncodeInner(codec, Inner(Sealed(u, to, 0)));
            |before| >= 8 && before[..|before| - 8] + LittleEndian(to, 8) == after &&
            (before == after <==> from == to)
  {
    hide EncodeInner, EncodeUnconfirmed, LittleEndian, Value;
    var header := EncodeUnconfirmed(codec, u);
    AppendedIsEncoded(codec, u, from, 0);
    AppendedIsEncoded(codec, u, to, 0);
    EveryNonceFits(from);
    EveryNonceFits(to);
    assert (header + LittleEndian(from, 8))[|header|..] == LittleEndian(from, 8);
    assert (header + LittleEndian(to, 8))[|header|..] == LittleEndian(to, 8);
  }

  /** Tries nonces from zero up, overwriting the end of one buffer.  A nonce it finds is the
      least that meets the target; None means that no 64-bit nonce does, where the source
      runs off the end of its range. */
  method FindNonce(codec: Codec, u: Unconfirmed) returns (found: Option<nat>)
    ensures found.Some? ==> found.value < U64_RANGE && NonceMeets(codec, u, found.value) &&
                            forall m :: 0 <= m < found.value ==> !NonceMeets(codec, u, m)
    ensures found.None? ==> forall m :: 0 <= m < U64_RANGE ==> !NonceMeets(codec, u, m)
  {
    var header := EncodeUnconfirmed(codec, u);
    var len := |header|;
    var bytes := new Byte[len + 8](i => 0);
    forall i | 0 <= i < len {
      bytes[i] := header[i];
    }
    var nonce := 0;
    while nonce < U64_RANGE
      invariant 0 <= nonce <= U64_RANGE && bytes.Length == len + 8 && bytes[..len] == header
      invariant forall m :: 0 <= m < nonce ==> !NonceMeets(codec, u, m)
    {
      var tail := LittleEndian(nonce, 8);
      forall k | 0 <= k < 8 {
        bytes[len + k] := tail[k];
      }
      assert bytes[..] == header + tail;
      if IsMet(u.difficulty, codec.digest(bytes[..])) {
        return Some(nonce);
      }
      nonce := nonce + 1;
    }
    found := None;
  }

  function WithNonce(codec: Codec, u: Unconfirmed, signer: Address, sign: seq<Byte> -> nat, nonce: nat)
      : Result<Block, MiningError>
  {
    var inner := BlockInner(u.seqno, u.difficulty, u.prevId, u.transactions, u.reward, u.miner, u.timestamp, nonce);
    var bytes := EncodeInner(codec, inner);
    if inner.miner != signer then Failure(MinerNotMatchSigner)
    else if !IsMet(inner.difficulty, codec.digest(bytes)) then Failure(InvalidNonce)
    else Success(Sealed(u, nonce, sign(bytes)))
  }

  /** Confirming never fails on a nonce the search found: with the miner's own key it fails
      only if no nonce meets the target, and otherwise gives a block that passes the nonce check
      of decoding, carries the least nonce that does, and is signed over its own encoding. */
  method TryConfirm(codec: Codec, u: Unconfirmed, signer: Address, sign: seq<Byte> -> nat)
      returns (r: Result<Block, MiningError>)
    ensures r.Success? <==> u.miner == signer && exists n :: 0 <= n < U64_RANGE && VerifyNonce(codec, Sealed(u, n, 0))
    ensures r.Success? ==>
      VerifyNonce(codec, r.value) && r.value.nonce < U64_RANGE &&
      (forall m :: 0 <= m < r.value.nonce ==> !VerifyNonce(codec, Sealed(u, m, 0))) &&
      r.value.signature == sign(EncodeInner(codec, Inner(r.value))) &&
      r.value == Sealed(u, r.value.nonce, r.value.signature)
    ensures r.Failure? ==> r.error == NoNonce || (r.error == MinerNotMatchSigner && u.miner != signer)
  {
    hide EncodeUnconfirmed, EncodeInner;
    forall n: nat ensures NonceMeets(codec, u, n) <==> VerifyNonce(codec, Sealed(u, n, 0)) {
      AppendedIsEncoded(codec, u, n, 0);
    }
    var found := FindNonce(codec, u);
    if found.None? {
      return Failure(NoNonce);
    }
    AppendedIsEncoded(codec, u, found.value, 0);
    r := WithNonce(codec, u, signer, sign, found.value);
  }
}
