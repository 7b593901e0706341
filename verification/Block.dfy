/** Blocks and their hashes (`lez/common/src/block.rs`). */
module Blocks {
  import opened LedgerState
  import opened Transactions

  const GENESIS_BLOCK_ID: nat := 1

  datatype BlockHeader = BlockHeader(
    blockId: nat,
    prevBlockHash: Hash,
    hash: Hash,
    timestamp: nat,
    signature: Data)

  datatype BedrockStatus = Pending | Safe | Finalized

  datatype Block = Block(header: BlockHeader, transactions: seq<Transaction>, status: BedrockStatus)

  /** Exactly the fields the block hash covers: not `header.hash`, the signature or the status. */
  datatype HashableBlockData = HashableBlockData(
    blockId: nat,
    prevBlockHash: Hash,
    timestamp: nat,
    transactions: seq<Transaction>)

  /** The runtime together with the block hash and the signature scheme. */
  datatype Ledger = Ledger(
    runtime: Runtime,
    blockHash: HashableBlockData -> Hash,
    signatureValid: (Data, Hash, Data) -> bool)

  function Hashed(b: Block): HashableBlockData
  {
    HashableBlockData(b.header.blockId, b.header.prevBlockHash, b.header.timestamp, b.transactions)
  }

  function RecomputeHash(l: Ledger, b: Block): Hash
  {
    l.blockHash(Hashed(b))
  }

  predicate IsSignedBy(l: Ledger, b: Block, key: Data)
  {
    l.signatureValid(b.header.signature, RecomputeHash(l, b), key)
  }

  function HashedAll(bs: seq<Block>): (r: seq<HashableBlockData>)
    ensures |r| == |bs|
    ensures forall i :: 0 <= i < |bs| ==> r[i] == Hashed(bs[i])
  {
    seq(|bs|, i requires 0 <= i < |bs| => Hashed(bs[i]))
  }

  /** No two of the given blocks collide: equal recomputed hashes come from equal contents. */
  ghost predicate CollisionFreeOn(l: Ledger, bs: seq<Block>)
  {
    forall a, b :: a in bs && b in bs && RecomputeHash(l, a) == RecomputeHash(l, b) ==> Hashed(a) == Hashed(b)
  }

  lemma {:induction false} CollisionFreePrefixes(l: Ledger, xs: seq<Block>, ys: seq<Block>, n: nat)
    requires n <= |xs| && n <= |ys|
    requires CollisionFreeOn(l, xs + ys)
    ensures CollisionFreeOn(l, xs[..n] + ys[..n])
  {
    forall b | b in xs[..n] + ys[..n]
      ensures b in xs + ys
    {
    }
  }

  lemma {:induction false} HashedAllSnoc(bs: seq<Block>)
    requires bs != []
    ensures HashedAll(bs) == HashedAll(bs[..|bs| - 1]) + [Hashed(bs[|bs| - 1])]
  {
  }
}
