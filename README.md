# An educational blockchain, modelled in Dafny

This project models five small pieces of a Rust blockchain written for teaching.
The crate is unfinished: some Rust files do not compile, and one branch is empty.
The model follows what the source text does, not what the unfinished code seems to aim at.

- **Script transactions** (`src/transaction.rs`). `Transaction`, `TXInput` and `TXOutput` are datatypes.
  `new_coinbase` builds one sentinel input. That input carries the caller's memo, or `"Reward to '<to>'"` when the memo is empty.
  It also builds one output that pays 100 to `to`, and it sets the id by hashing while the id is still empty.
  The model also has the coinbase test and the two unlock predicates, which compare strings.
- **Key-locked outputs** (`src/txs.rs`). This covers `TXOutputs`, the list type the UTXO store keeps under each transaction id.
  It also covers the byte-equality lock check, the hash-then-compare unlock check, `lock` and `TXOutput::new`.
- **Incremental UTXO update** (`src/utxoset.rs`, `UTXOSet::update`). The sled tree is a map from transaction id to `TXOutputs`.
  The nested loops are modelled as they are written.
  For every input of every non-coinbase transaction, the referenced list is copied without the spent position.
  If the copy is empty, the entry is deleted; otherwise nothing is written.
  The model proves what this adds up to for a whole block.
  No entry is ever inserted, and no entry is ever rewritten.
  An entry is deleted exactly when some input of a non-coinbase transaction leaves its list empty.
- **In-memory chain** (`src/blockchain.rs`, with the `Block` record of `src/block.rs`).
  `Blockchain` is a class over a sequence of blocks that starts with the genesis block.
  `AddBlock` appends a mined block linked to the old tip's hash.
  Its object invariant says the chain is never empty and stays hash-linked.
  It also says every appended block has height `TARGET_HEXT` = 4, because that constant is what the code passes as the height.
- **Wire decoding and node state** (`src/server.rs`). These are the seven `Message` variants and their payload records.
  `BytesToCmd` has a loop that drops the zero bytes of the 12-byte command field.
  Its dispatch is a chain of `if`s. The model proves that, for each of the seven names, the chain gives exactly the value or the error of that command's payload decoder, wrapped in that command's variant.
  The framing round trip is proved too: a zero-padded tag plus a payload decodes with that tag's decoder.
  `NewServer` builds the initial node state.

Foreign code is passed in as function-typed parameters, so every result holds for every implementation of it.
This covers SHA-256 over the bincode encoding, `hash_pub_key`, `Address::decode`, bincode payload decoding, and the clock with the proof-of-work search behind `Block::new_block`.

The model keeps these behaviours of the code as written:
- `update` writes no trimmed list back and inserts none of the block's own outputs, because the `else` branch is empty (src/utxoset.rs:48-50).
- `add_block` passes `TARGET_HEXT` = 4 as the height of every new block (src/blockchain.rs:20), not its parent's height plus one.
- `Block.transactions` is a `String`, so the chain append of `src/blockchain.rs` takes a string as its data.
  The UTXO update takes the block's transaction list directly, because `Block::get_transaction` is not part of this model.

## Model

| member | source | states |
|---|---|---|
| Transactions.SetId | src/transaction.rs:47-52 | The id becomes the hash of the transaction as it stands, and inputs and outputs are untouched. A failing encoding gives its error. Hashing a transaction whose id is empty leaves its id consistent, meaning the id is the hash of the transaction with the id cleared. |
| Transactions.NewCoinbase | src/transaction.rs:26-45 | The result fails exactly when hashing the unsigned coinbase fails. On success there is exactly one input: empty txid, `vout == -1`, and as `script_sig` the data, or `"Reward to '" + to + "'"` when the data is empty. There is exactly one output, of value 100 locked to `to`. The result is a coinbase with a consistent id. Its input unlocks exactly with the memo, and its output exactly with `to`. |
| Transactions.CoinbaseIffSentinelInput | src/transaction.rs:56-58 | The predicate `IsCoinbase` models `is_coinbase`. It holds iff the input list is a single input `("", -1, memo)`, whatever the memo. |
| Transactions.UnlockIsStringEquality | src/transaction.rs:62-74 | The predicates `Transactions.CanUnlockOutputWith` and `CanBeUnlockWith` model the two checks. `can_unlock_output_with` holds iff `script_sig` equals the argument character for character. `can_be_unlock_with` holds iff `script_pub_key` does. |
| Txs.Lock | src/txs.rs:47-52 | Requires a decodable address, since the source unwraps. It always returns `Ok`, changes only the lock hash to the decoded body, and keeps the value. |
| Txs.New | src/txs.rs:54-61 | Requires a decodable address. It returns `Ok` with the given value, and the output is locked with exactly one key: the decoded address body. |
| Txs.LockIsByteEquality | src/txs.rs:42-44 | The predicate `IsLockedWithKey` models the check. `is_locked_with_key(k)` holds iff the stored lock hash and `k` have the same length and the same bytes. |
| Txs.UnlockMatchesLock | src/txs.rs:33-44 | The predicate `Txs.CanUnlockOutputWith` models `can_unlock_output_with`. An input unlocks an output's lock hash iff that output is locked with the hash of the input's public key. |
| Utxo.WithoutIsRemoval | src/utxoset.rs:40-44 | The function `Without` models the copy loop. The list built by the copy loop is the stored list with position `skip` removed and the rest in order, or the whole list when `skip` is past its end. |
| Utxo.TrimmedLength | src/utxoset.rs:40-44 | With `vout as usize` wrapping on a 64-bit target, the trimmed list has length `n - 1` if `0 <= vout < n`, and `n` otherwise. A negative `vout` removes nothing. |
| Utxo.SpendInputsEffect | src/utxoset.rs:35-51 | `SpendInput` models one pass of the input loop and `SpendInputs` a run of them. After a run of inputs, no key is added and no surviving entry changes. A stored key is gone iff some input of the run names it and trims its stored list to nothing. |
| Utxo.SpendInputsAppend | src/utxoset.rs:35-51 | Processing two runs of inputs in a row is processing their concatenation, both for the no-panic condition and for the result. |
| Utxo.UpdatedIsSpentInputs | src/utxoset.rs:33-51 | The function `Updated` models the whole of `update`. `update` over a block equals processing the inputs of its non-coinbase transactions in block order, both for the no-panic condition and for the result. |
| Utxo.SpentInputsMembers | src/utxoset.rs:33-35 | The inputs `update` visits are exactly the inputs of the block's non-coinbase transactions. |
| Utxo.UpdateEffect | src/utxoset.rs:30-55 | After `update`, the store has no new key, not even for the block's own outputs. No surviving entry is rewritten, so an entry whose trimmed list is non-empty stays as it was. A stored key is deleted iff some input of a non-coinbase transaction names it and its trimmed list is empty. |
| Utxo.UnreferencedEntryKept | src/utxoset.rs:30-55 | An entry that no input of a non-coinbase transaction of the block names is kept unchanged. |
| Utxo.CoinbaseBlockIsNoOp | src/utxoset.rs:33-34 | A block of coinbase transactions only can always be applied and leaves the store unchanged. |
| Utxo.CanSpendInputsIff | src/utxoset.rs:39 | The no-panic condition, unfolded. Every input's txid is in the store, and no earlier input of the run has deleted that entry. |
| Utxo.UTXOSet.constructor | src/utxoset.rs:8-10 | The UTXO set holds the given chain and store. |
| Utxo.UTXOSet.Update | src/utxoset.rs:30-55 | Requires that no `unwrap` meets a missing entry. The new store is `Updated` of the old store over the block's transactions, computed by the nested loops. |
| Blocks.NewBlock | src/block.rs:18-32 | The block fails exactly when the clock or the proof-of-work search fails, and then its error is passed on. On success the block keeps the data, previous hash and height it was given. |
| Chain.Extended | src/blockchain.rs:18-23 | This fails exactly when mining on the old tip's hash at height `TARGET_HEXT` fails, and then with the miner's error. On success the chain grows by exactly one block and the earlier blocks are unchanged. The new block links to the old last block's hash, carries `data`, and has height 4. |
| Chain.ExtendedKeepsShape | src/blockchain.rs:18-23 | Extending a non-empty, hash-linked chain whose appended blocks all have height 4 gives a chain that is again all three. |
| Chain.Blockchain.constructor | src/blockchain.rs:12-16 | `new()` gives a chain that is exactly the genesis block, and the invariant holds. |
| Chain.Blockchain.AddBlock | src/blockchain.rs:18-23 | On success the blocks become `Extended` of the old blocks. On a mining error the chain is unchanged and the error is the miner's. The invariant holds afterwards, non-empty included, so `last().unwrap()` cannot panic. |
| Network.BytesToCmd | src/server.rs:114-151 | Requires at least `CMD_LEN = 12` bytes, since the slicing panics on fewer. The result is the dispatch on the first 12 bytes with every zero byte removed, with `bytes[12..]` as the payload. |
| Network.DispatchSelectsCommand | src/server.rs:125-145 | The function `Dispatch` models the `if` chain. For each of the seven names, the dispatch equals that command's entry in the table `Decoded`. On success the message is that command's variant holding the decoder's value; on failure the error is the decoder's error. The dispatch succeeds iff that decoder succeeds. `"getblocks"` gives `GetBlock`. |
| Network.DispatchOnlyKnownNames | src/server.rs:125-148 | A successful dispatch came from the name of the returned variant's command. Any other name gives the unknown-command error. |
| Network.StripNulAppend | src/server.rs:118-122 | The function `StripNul` models the zero-dropping loop. Dropping zero bytes works piece by piece, so order is kept. |
| Network.StripNulDropsOnlyZeros | src/server.rs:118-122 | The stripped name holds no zero byte, and every non-zero byte occurs in it exactly as often as in the 12-byte field, interior zeros included. |
| Network.StripNulKeepsName | src/server.rs:118-122 | A byte string without zero bytes is unchanged by stripping. |
| Network.StripNulUnpads | src/server.rs:118-122 | A name without zero bytes, followed by any number of zero bytes, strips back to the name. |
| Network.Tag | src/server.rs:16 | The tag of a command, its name padded with zero bytes, is `CMD_LEN` bytes long. |
| Network.TagStripsToName | src/server.rs:115-122 | Stripping the padded tag of a command gives back its name. |
| Network.FramedMessageDecodes | src/server.rs:114-148 | Framing round trip. A tag followed by any payload decodes to that command's `Decoded` entry: that command's variant holding the decoder's value, or the decoder's error. It succeeds iff that decoder accepts the payload. |
| Network.Decoded | src/server.rs:126-145 | The table entry for a command succeeds iff that command's payload decoder accepts the payload, and then holds a message of that command. |
| Network.NewServer | src/server.rs:82-95 | Always `Ok`. The known peers are exactly `{"localhost:3000"}`, and nothing is in transit or in the mempool. The UTXO set is the one given. The node address is `"localhost"` followed directly by `port`, and the mining address is the miner address. |

## Left out

- `UTXOSet::reindex` is not modelled. It deletes a directory, opens sled and calls `find_utxo`, and `find_utxo` is not part of this model.
- Store errors are not modelled: `sled::open`, `get` and `remove` failing, and bincode failing to decode a stored list. The store holds decoded `TXOutputs`, and `update`'s `Result` is always `Ok`, so `Utxo.UTXOSet.Update` returns nothing.
- `Utxo.UTXOSet.Update` takes the block's transaction list itself, because `Block::get_transaction` is not part of this model.
- `Block::new_block` internals are left out: the clock read and `run_proof_if_work`, which is not part of this model. A `Miner` parameter supplies the timestamp, hash and nonce, or an error. `Block::new_genesis_block` is not part of this model either, so `Chain.Blockchain.constructor` takes the genesis block. `get_hash` is taken to return the `hash` field.
- `Transactions.SetId`, `Txs.Lock` and `Txs.New` are modelled as methods that return the updated record, instead of updating `self` in place. The Rust records are uniquely owned values, so no aliasing is lost.
- `Txs.CanUnlockOutputWith` is a predicate. The source hashes a clone of `pub_key` in place; with value semantics the input cannot change, so that the key is not altered holds by construction.
- Foreign calls are parameters: SHA-256 over the bincode encoding, `hash_pub_key`, `Address::decode`, and bincode payload decoding. Their error messages are carried as opaque text.
- `handle_connnection` and every `handle_*` handler are left out. They need TCP reads and handlers that are not part of this model, and their `match` is not exhaustive. Sharing `ServerInner` through `Arc<Mutex<..>>` is concurrency and is not modelled, so `inner` is a plain value.
- `info!`/`debug!` logging is left out. On line 123 of `src/server.rs`, `String::from_utf8(..)?` runs inside `info!`, so invalid UTF-8 can only change which error is returned. Such a name matches none of the seven ASCII names, so the call fails either way, and the model returns the unknown-command error.
- `src/cli.rs` (argument parsing and printing) and `src/main.rs` (module wiring) are not modelled.
- Signing, verification, Merkle roots, proof of work, coin selection and the message-handler state machine are not modelled, because no source for them is part of this model.
- Integer widths: `i32` fields are a bounded `int32` newtype and `vout as usize` wraps explicitly. The `u128` timestamp and the `usize` height are unbounded `nat`s, because no arithmetic is done on them.
