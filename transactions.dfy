/** The script-string transactions of `src/transaction.rs`: the three records, the
    coinbase constructor, the coinbase sentinel test and the two unlock predicates. */
module Transactions {
  import opened Base

  datatype TXInput = TXInput(txid: string, vout: int32, scriptSig: string)

  datatype TXOutput = TXOutput(value: int32, scriptPubKey: string)

  datatype Transaction = Transaction(id: string, vin: seq<TXInput>, vout: seq<TXOutput>)

  /** The block reward written into every coinbase output. */
  const SUBSIDY: int32 := 100

  /** SHA-256 hex digest of the bincode encoding of a transaction; `Err` when the
      encoding fails. Both are foreign code, so the model takes the function as given. */
  type TxHasher = Transaction -> Result<string>

  /** The memo a coinbase input carries: the caller's data, or a reward note when it is empty. */
  function CoinbaseMemo(to: string, data: string): string {
    if data == "" then "Reward to '" + to + "'" else data
  }

  predicate IsCoinbase(tx: Transaction) {
    |tx.vin| == 1 && tx.vin[0].txid == "" && tx.vin[0].vout == -1
  }

  predicate CanUnlockOutputWith(input: TXInput, unlockingData: string) {
    input.scriptSig == unlockingData
  }

  predicate CanBeUnlockWith(output: TXOutput, unlockingData: string) {
    output.scriptPubKey == unlockingData
  }

  /** A transaction's id is the hash of the transaction with its id cleared. */
  predicate IdConsistent(tx: Transaction, hash: TxHasher) {
    var h := hash(tx.(id := ""));
    h.Ok? && tx.id == h.value
  }

  /** `set_id`: hashes the transaction as it stands (id included) and stores the digest
      as its id; a failing encoding leaves no transaction. */
  method SetId(tx: Transaction, hash: TxHasher) returns (r: Result<Transaction>)
    ensures r.Err? <==> hash(tx).Err?
    ensures r.Err? ==> r.error == hash(tx).error
    ensures r.Ok? ==> r.value.vin == tx.vin && r.value.vout == tx.vout && r.value.id == hash(tx).value
    ensures r.Ok? && tx.id == "" ==> IdConsistent(r.value, hash)
  {
    var h := hash(tx);
    if h.Err? {
      return Err(h.error);
    }
    var updated := tx.(id := h.value);
    return Ok(updated);
  }

  /** `new_coinbase`: one sentinel input carrying the memo, one output paying the
      reward to `to`, and the id set while it is still empty. */
  method NewCoinbase(to: string, data: string, hash: TxHasher) returns (r: Result<Transaction>)
    ensures var unsigned := Transaction("", [TXInput("", -1, CoinbaseMemo(to, data))], [TXOutput(SUBSIDY, to)]);
            r.Err? <==> hash(unsigned).Err?
    ensures r.Ok? ==> r.value.vin == [TXInput("", -1, CoinbaseMemo(to, data))]
    ensures r.Ok? ==> r.value.vout == [TXOutput(SUBSIDY, to)]
    ensures r.Ok? ==> IsCoinbase(r.value) && IdConsistent(r.value, hash)
    ensures r.Ok? ==> forall d :: CanUnlockOutputWith(r.value.vin[0], d) <==> d == CoinbaseMemo(to, data)
    ensures r.Ok? ==> forall d :: CanBeUnlockWith(r.value.vout[0], d) <==> d == to
  {
    var memo := data;
    if memo == "" {
      var note := "Reward to '" + to + "'";
      memo := memo + note;
      assert memo == note;
    }
    assert memo == CoinbaseMemo(to, data);
    var tx := Transaction("", [TXInput("", -1, memo)], [TXOutput(SUBSIDY, to)]);
    r := SetId(tx, hash);
  }

  /** The sentinel test, stated as a shape: the input list is a single input with empty
      txid and output index -1, whatever its memo. */
  lemma CoinbaseIffSentinelInput(tx: Transaction)
    ensures IsCoinbase(tx) <==> exists memo :: tx.vin == [TXInput("", -1, memo)]
  {
    if IsCoinbase(tx) {
      assert tx.vin == [TXInput("", -1, tx.vin[0].scriptSig)];
    }
  }

  /** Both unlock predicates are character-by-character string equality. */
  lemma UnlockIsStringEquality(input: TXInput, output: TXOutput, d: string)
    ensures CanUnlockOutputWith(input, d) <==>
              |input.scriptSig| == |d| && forall i :: 0 <= i < |d| ==> input.scriptSig[i] == d[i]
    ensures CanBeUnlockWith(output, d) <==>
              |output.scriptPubKey| == |d| && forall i :: 0 <= i < |d| ==> output.scriptPubKey[i] == d[i]
  {
    if |input.scriptSig| == |d| && forall i :: 0 <= i < |d| ==> input.scriptSig[i] == d[i] {
      assert input.scriptSig == d;
    }
    if |output.scriptPubKey| == |d| && forall i :: 0 <= i < |d| ==> output.scriptPubKey[i] == d[i] {
      assert output.scriptPubKey == d;
    }
  }
}
