/** Types of crates/lunarbase-client/src/model.rs that the other modules rest on. */
module Chain {
  datatype Option<+T> = None | Some(value: T)

  datatype Result<+T, +E> = Ok(value: T) | Err(error: E) {
    predicate IsFailure() { Err? }

    function PropagateFailure<U>(): Result<U, E>
      requires Err?
    {
      Err(error)
    }

    function Extract(): T
      requires Ok?
    {
      value
    }
  }

  /** Hashes and addresses are opaque names compared only for equality. */
  type Hash = nat

  datatype Commitment = Realtime | Canonical | Finalized

  function OrZero(n: Option<nat>): nat { if n.Some? then n.value else 0 }

  /** Position of an update; block-level cursors carry no event coordinates. */
  datatype ChainCursor = ChainCursor(
    chainId: nat,
    blockNumber: nat,
    executionBlockNumber: nat,
    blockHash: Option<Hash>,
    transactionIndex: Option<nat>,
    logIndex: Option<nat>,
    sourceSequence: Option<nat>,
    sourceSubIndex: Option<nat>,
    commitment: Commitment)

  datatype BlockRef = BlockRef(cursor: ChainCursor, parentHash: Option<Hash>) {
    function Number(): nat { cursor.blockNumber }
    function HashOf(): Option<Hash> { cursor.blockHash }
  }
}
