/** The key-locked outputs of `src/txs.rs`: an output is locked to the hash of a
    public key, and an input unlocks it by presenting a key that hashes to it. */
module Txs {
  import opened Base

  /** The list of unspent outputs the UTXO store keeps under one transaction id. */
  datatype TXOutputs = TXOutputs(outputs: seq<TXOutput>)

  datatype TXInput = TXInput(txid: string, vout: int32, signature: seq<byte>, pubKey: seq<byte>)

  datatype TXOutput = TXOutput(value: int32, pubKeyHash: seq<byte>)

  /** `hash_pub_key`: foreign code, taken as given. */
  type PubKeyHasher = seq<byte> -> seq<byte>

  /** `Address::decode(..)` followed by `.body`: foreign code, taken as given;
      `None` where decoding fails. */
  type AddressDecoder = string -> Option<seq<byte>>

  /** The input's key, hashed, equals the given lock hash. The source hashes a clone
      of `pub_key`, so the input itself is not altered. */
  predicate CanUnlockOutputWith(input: TXInput, unlockingData: seq<byte>, hashPubKey: PubKeyHasher) {
    hashPubKey(input.pubKey) == unlockingData
  }

  predicate IsLockedWithKey(output: TXOutput, pubKeyHash: seq<byte>) {
    output.pubKeyHash == pubKeyHash
  }

  /** `lock`: replaces the output's lock hash by the decoded address body. The source
      unwraps the decoding, so a caller must pass a decodable address; a call that
      returns always returns `Ok`. */
  method Lock(output: TXOutput, address: string, decode: AddressDecoder) returns (locked: TXOutput, r: Result<()>)
    requires decode(address).Some?
    ensures r == Ok(())
    ensures locked.value == output.value
    ensures locked.pubKeyHash == decode(address).value
  {
    var pubKeyHash := decode(address).value;
    locked := output.(pubKeyHash := pubKeyHash);
    r := Ok(());
  }

  /** `TXOutput::new`: an output of the given value locked to the decoded address,
      and to no other key. */
  method New(value: int32, address: string, decode: AddressDecoder) returns (r: Result<TXOutput>)
    requires decode(address).Some?
    ensures r.Ok?
    ensures r.value.value == value
    ensures forall key :: IsLockedWithKey(r.value, key) <==> key == decode(address).value
  {
    var txo := TXOutput(value, []);
    var status;
    txo, status := Lock(txo, address, decode);
    // `lock` never returns an error, so the `?` after it always continues.
    assert status.Ok?;
    return Ok(txo);
  }

  /** The lock check compares byte for byte. */
  lemma LockIsByteEquality(output: TXOutput, key: seq<byte>)
    ensures IsLockedWithKey(output, key) <==>
              |output.pubKeyHash| == |key| && forall i :: 0 <= i < |key| ==> output.pubKeyHash[i] == key[i]
  {
    if |output.pubKeyHash| == |key| && forall i :: 0 <= i < |key| ==> output.pubKeyHash[i] == key[i] {
      assert output.pubKeyHash == key;
    }
  }

  /** An input can spend an output exactly when the output is locked with the hash
      of the input's key. */
  lemma UnlockMatchesLock(input: TXInput, output: TXOutput, hashPubKey: PubKeyHasher)
    ensures CanUnlockOutputWith(input, output.pubKeyHash, hashPubKey) <==>
              IsLockedWithKey(output, hashPubKey(input.pubKey))
  {
  }
}
