/** The block record of `src/block.rs` and its construction `Block::new_block`. The
    clock read and the proof-of-work search are foreign to the model: a `Miner`
    stands for both and yields the sealing fields, or an error. */
module Blocks {
  import opened Base

  datatype Block = Block(
    timestamp: nat,
    transactions: string,
    prevBlockHash: string,
    hash: string,
    height: nat,
    nonce: int32)

  /** What the clock and the proof-of-work search contribute to a block. */
  datatype Seal = Seal(timestamp: nat, hash: string, nonce: int32)

  /** Reading the clock and running proof of work for a block with the given data,
      previous hash and height; `Err` when either fails. */
  type Miner = (string, string, nat) -> Result<Seal>

  /** `Block::new_block`: the block keeps the data, previous hash and height it is
      given; the clock and the search fill in the rest, and their error is passed on. */
  function NewBlock(data: string, prevBlockHash: string, height: nat, mine: Miner): (r: Result<Block>)
    ensures r.Err? <==> mine(data, prevBlockHash, height).Err?
    ensures r.Err? ==> r.error == mine(data, prevBlockHash, height).error
    ensures r.Ok? ==> r.value.transactions == data && r.value.prevBlockHash == prevBlockHash && r.value.height == height
  {
    match mine(data, prevBlockHash, height)
    case Err(e) => Err(e)
    case Ok(seal) => Ok(Block(seal.timestamp, data, prevBlockHash, seal.hash, height, seal.nonce))
  }
}
