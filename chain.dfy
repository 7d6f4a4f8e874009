/** The in-memory chain of `src/blockchain.rs`: a vector of blocks that starts as the
    genesis block and grows by one mined block per `add_block`. */
module Chain {
  import opened Base
  import opened Blocks

  /** The constant `add_block` passes to `Block::new_block` as the height. */
  const TARGET_HEXT: nat := 4

  /** Every block after the first names its predecessor's hash. */
  predicate Linked(blocks: seq<Block>) {
    forall i :: 0 < i < |blocks| ==> blocks[i].prevBlockHash == blocks[i - 1].hash
  }

  /** Every block after the first has height `TARGET_HEXT`, wherever it stands. */
  predicate AppendedAtTargetHeight(blocks: seq<Block>) {
    forall i :: 0 < i < |blocks| ==> blocks[i].height == TARGET_HEXT
  }

  /** The chain `add_block` leaves: the old blocks, then a block mined with `data`
      on top of the old tip's hash; or the miner's error, with no block added. */
  function Extended(blocks: seq<Block>, data: string, mine: Miner): (r: Result<seq<Block>>)
    requires blocks != []
    ensures r.Err? <==> mine(data, blocks[|blocks| - 1].hash, TARGET_HEXT).Err?
    ensures r.Err? ==> r.error == mine(data, blocks[|blocks| - 1].hash, TARGET_HEXT).error
    ensures r.Ok? ==> |r.value| == |blocks| + 1 && r.value[..|blocks|] == blocks
    ensures r.Ok? ==> r.value[|blocks|].prevBlockHash == blocks[|blocks| - 1].hash
    ensures r.Ok? ==> r.value[|blocks|].transactions == data && r.value[|blocks|].height == TARGET_HEXT
  {
    var prev := blocks[|blocks| - 1];
    match NewBlock(data, prev.hash, TARGET_HEXT, mine)
    case Err(e) => Err(e)
    case Ok(block) => Ok(blocks + [block])
  }

  /** Extending keeps the chain non-empty, hash-linked and at the fixed height. */
  lemma ExtendedKeepsShape(blocks: seq<Block>, data: string, mine: Miner)
    requires blocks != [] && Linked(blocks) && AppendedAtTargetHeight(blocks)
    ensures var r := Extended(blocks, data, mine);
            r.Ok? ==> r.value != [] && Linked(r.value) && AppendedAtTargetHeight(r.value)
  {
    var r := Extended(blocks, data, mine);
    if r.Ok? {
      var n := |blocks|;
      forall i | 0 < i < n + 1
        ensures r.value[i].prevBlockHash == r.value[i - 1].hash && r.value[i].height == TARGET_HEXT
      {
        if i < n {
          assert r.value[i] == r.value[..n][i] == blocks[i];
          assert r.value[i - 1] == r.value[..n][i - 1] == blocks[i - 1];
        } else {
          assert r.value[i - 1] == r.value[..n][n - 1] == blocks[n - 1];
        }
      }
    }
  }

  class Blockchain {
    var blocks: seq<Block>

    /** The chain is never empty, so `last().unwrap()` cannot panic. */
    ghost predicate Valid()
      reads this
    {
      blocks != [] && Linked(blocks) && AppendedAtTargetHeight(blocks)
    }

    /** `Blockchain::new`: the chain holds the genesis block alone. `new_genesis_block`
        is not part of this model, so the genesis block is given. */
    constructor (genesis: Block)
      ensures Valid() && blocks == [genesis]
    {
      blocks := [genesis];
    }

    /** `add_block`: on success one block is appended, linked to the old tip's hash and
        carrying `data` at height `TARGET_HEXT`; on a mining error nothing changes. */
    method AddBlock(data: string, mine: Miner) returns (r: Result<()>)
      requires Valid()
      modifies this
      ensures Valid()
      ensures r.Err? <==> Extended(old(blocks), data, mine).Err?
      ensures r.Ok? ==> blocks == Extended(old(blocks), data, mine).value
      ensures r.Err? ==> blocks == old(blocks) && r.error == Extended(old(blocks), data, mine).error
    {
      ExtendedKeepsShape(blocks, data, mine);
      var prev := blocks[|blocks| - 1];
      var newBlock := NewBlock(data, prev.hash, TARGET_HEXT, mine);
      if newBlock.Err? {
        return Err(newBlock.error);
      }
      blocks := blocks + [newBlock.value];
      return Ok(());
    }
  }
}
