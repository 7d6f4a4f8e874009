/** The incremental update of the unspent-output store, `UTXOSet::update` in
    `src/utxoset.rs`. The sled tree is a map from transaction id to the list of that
    transaction's unspent outputs. For every input of every non-coinbase transaction
    of the block, the referenced list is trimmed of the spent position; an entry
    trimmed to nothing is deleted, and a non-empty trimmed list is never written back. */
module Utxo {
  import opened Base
  import opened Transactions
  import Txs
  import Chain

  /** The tree "data/utxos": transaction id to its stored output list. */
  type Store = map<string, Txs.TXOutputs>

  const USIZE_MODULUS: nat := 0x1_0000_0000_0000_0000

  /** The largest length of a Rust `Vec` (`isize::MAX`). */
  const MAX_VEC_LEN: nat := 0x7FFF_FFFF_FFFF_FFFF

  /** `vout as usize` on a 64-bit target: a negative index wraps to a huge one. */
  function AsUsize(v: int32): nat {
    if v >= 0 then v as int else v as int + USIZE_MODULUS
  }

  /** The outputs at every position except `skip`, in their original order: what the
      loop of `update` pushes into `update_outputs`. */
  function Without(outs: seq<Txs.TXOutput>, skip: nat): seq<Txs.TXOutput> {
    if outs == [] then []
    else Without(outs[..|outs| - 1], skip) + (if |outs| - 1 != skip then [outs[|outs| - 1]] else [])
  }

  /** The trimmed list for one input. */
  function Trimmed(db: Store, vin: TXInput): seq<Txs.TXOutput>
    requires vin.txid in db
  {
    Without(db[vin.txid].outputs, AsUsize(vin.vout))
  }

  /** The store after one input: the entry goes when its trimmed list is empty, and
      otherwise stays as it was. */
  function SpendInput(db: Store, vin: TXInput): Store
    requires vin.txid in db
  {
    if Trimmed(db, vin) == [] then db - {vin.txid} else db
  }

  /** Every input finds its entry at the moment it is processed (the `unwrap`). */
  predicate CanSpendInputs(db: Store, vins: seq<TXInput>)
    decreases |vins|
  {
    vins == [] || (vins[0].txid in db && CanSpendInputs(SpendInput(db, vins[0]), vins[1..]))
  }

  function SpendInputs(db: Store, vins: seq<TXInput>): Store
    requires CanSpendInputs(db, vins)
    decreases |vins|
  {
    if vins == [] then db else SpendInputs(SpendInput(db, vins[0]), vins[1..])
  }

  predicate CanApplyTx(db: Store, tx: Transaction) {
    IsCoinbase(tx) || CanSpendInputs(db, tx.vin)
  }

  function ApplyTx(db: Store, tx: Transaction): Store
    requires CanApplyTx(db, tx)
  {
    if IsCoinbase(tx) then db else SpendInputs(db, tx.vin)
  }

  /** The precondition of `update`: no `unwrap` on a missing entry, in block order. */
  predicate CanUpdate(db: Store, txs: seq<Transaction>)
    decreases |txs|
  {
    txs == [] || (CanApplyTx(db, txs[0]) && CanUpdate(ApplyTx(db, txs[0]), txs[1..]))
  }

  /** The store after `update` has processed the transactions `txs` in order. */
  function Updated(db: Store, txs: seq<Transaction>): Store
    requires CanUpdate(db, txs)
    decreases |txs|
  {
    if txs == [] then db else Updated(ApplyTx(db, txs[0]), txs[1..])
  }

  /** The inputs `update` visits: those of the non-coinbase transactions, in block order. */
  function SpentInputs(txs: seq<Transaction>): seq<TXInput> {
    if txs == [] then [] else (if IsCoinbase(txs[0]) then [] else txs[0].vin) + SpentInputs(txs[1..])
  }

  /** An input whose entry is present and is trimmed to nothing. */
  predicate Exhausts(db: Store, vin: TXInput) {
    vin.txid in db && Trimmed(db, vin) == []
  }

  /** The trimmed list is the stored list with exactly position `skip` taken out, when
      that position exists, and the whole list otherwise. */
  lemma {:induction false} WithoutIsRemoval(outs: seq<Txs.TXOutput>, skip: nat)
    ensures Without(outs, skip) == if skip < |outs| then outs[..skip] + outs[skip + 1..] else outs
  {
    if outs != [] {
      var n := |outs| - 1;
      WithoutIsRemoval(outs[..n], skip);
      if skip < n {
        assert outs[..n][..skip] == outs[..skip];
        assert outs[..n][skip + 1..] + [outs[n]] == outs[skip + 1..];
      } else if skip == n {
        assert outs[..n] == outs[..skip];
      } else {
        assert outs[..n] + [outs[n]] == outs;
      }
    }
  }

  /** The trimmed list has one element fewer exactly when `vout` names a position of
      the stored list; a negative `vout` removes nothing. */
  lemma TrimmedLength(outs: seq<Txs.TXOutput>, vout: int32)
    requires |outs| <= MAX_VEC_LEN
    ensures |Without(outs, AsUsize(vout))| == if 0 <= vout as int < |outs| then |outs| - 1 else |outs|
  {
    WithoutIsRemoval(outs, AsUsize(vout));
  }

  /** After a run of inputs: no entry is added, no entry is rewritten, and an entry is
      gone exactly when some input of the run exhausts it. */
  lemma {:induction false} SpendInputsEffect(db: Store, vins: seq<TXInput>)
    requires CanSpendInputs(db, vins)
    ensures SpendInputs(db, vins).Keys <= db.Keys
    ensures forall k :: k in SpendInputs(db, vins) ==> SpendInputs(db, vins)[k] == db[k]
    ensures forall k :: k in db ==>
              (k !in SpendInputs(db, vins) <==> exists v :: v in vins && v.txid == k && Exhausts(db, v))
  {
    if vins != [] {
      var v0 := vins[0];
      var db1 := SpendInput(db, v0);
      SpendInputsEffect(db1, vins[1..]);
      var r := SpendInputs(db, vins);
      assert r == SpendInputs(db1, vins[1..]);
      forall k | k in db
        ensures k !in r <==> exists v :: v in vins && v.txid == k && Exhausts(db, v)
      {
        if k == v0.txid && Exhausts(db, v0) {
          assert k !in db1;
          assert v0 in vins;
        } else {
          assert k in db1 && db1[k] == db[k];
          forall v: TXInput | v.txid == k
            ensures Exhausts(db1, v) == Exhausts(db, v)
          {
          }
          assert forall v :: v in vins <==> v == v0 || v in vins[1..];
        }
      }
    }
  }

  /** Processing a concatenation is processing one part after the other. */
  lemma {:induction false} SpendInputsAppend(db: Store, a: seq<TXInput>, b: seq<TXInput>)
    ensures CanSpendInputs(db, a + b) <==> CanSpendInputs(db, a) && CanSpendInputs(SpendInputs(db, a), b)
    ensures CanSpendInputs(db, a + b) ==> SpendInputs(db, a + b) == SpendInputs(SpendInputs(db, a), b)
    decreases |a|
  {
    if a == [] {
      assert a + b == b;
    } else {
      assert (a + b)[0] == a[0];
      assert (a + b)[1..] == a[1..] + b;
      if a[0].txid in db {
        SpendInputsAppend(SpendInput(db, a[0]), a[1..], b);
      }
    }
  }

  /** `update` over a block is the run of its non-coinbase inputs, in block order:
      coinbase transactions contribute nothing. */
  lemma {:induction false} UpdatedIsSpentInputs(db: Store, txs: seq<Transaction>)
    ensures CanUpdate(db, txs) <==> CanSpendInputs(db, SpentInputs(txs))
    ensures CanUpdate(db, txs) ==> Updated(db, txs) == SpendInputs(db, SpentInputs(txs))
    decreases |txs|
  {
    if txs != [] {
      var tx := txs[0];
      var own := if IsCoinbase(tx) then [] else tx.vin;
      SpendInputsAppend(db, own, SpentInputs(txs[1..]));
      if CanApplyTx(db, tx) {
        UpdatedIsSpentInputs(ApplyTx(db, tx), txs[1..]);
        assert IsCoinbase(tx) ==> SpendInputs(db, own) == db;
      } else {
        assert !CanSpendInputs(db, own);
      }
    }
  }

  /** The inputs `update` visits are exactly the inputs of the block's non-coinbase
      transactions. */
  lemma {:induction false} SpentInputsMembers(txs: seq<Transaction>, v: TXInput)
    ensures v in SpentInputs(txs) <==> exists t :: 0 <= t < |txs| && !IsCoinbase(txs[t]) && v in txs[t].vin
    decreases |txs|
  {
    if txs != [] {
      SpentInputsMembers(txs[1..], v);
      if exists t :: 0 <= t < |txs| && !IsCoinbase(txs[t]) && v in txs[t].vin {
        var t :| 0 <= t < |txs| && !IsCoinbase(txs[t]) && v in txs[t].vin;
        if t > 0 {
          assert txs[1..][t - 1] == txs[t];
        }
      }
      if exists t :: 0 <= t < |txs[1..]| && !IsCoinbase(txs[1..][t]) && v in txs[1..][t].vin {
        var t :| 0 <= t < |txs[1..]| && !IsCoinbase(txs[1..][t]) && v in txs[1..][t].vin;
        assert txs[t + 1] == txs[1..][t];
      }
    }
  }

  /** The effect of `update` on the whole store: it never inserts an entry (not even
      for the block's own outputs), never rewrites one, and deletes an entry exactly
      when some input of a non-coinbase transaction of the block exhausts it. */
  lemma UpdateEffect(db: Store, txs: seq<Transaction>)
    requires CanUpdate(db, txs)
    ensures Updated(db, txs).Keys <= db.Keys
    ensures forall k :: k in Updated(db, txs) ==> Updated(db, txs)[k] == db[k]
    ensures forall k :: k in db ==>
              (k !in Updated(db, txs) <==>
                 exists t, v :: 0 <= t < |txs| && !IsCoinbase(txs[t]) && v in txs[t].vin && v.txid == k && Exhausts(db, v))
  {
    UpdatedIsSpentInputs(db, txs);
    SpendInputsEffect(db, SpentInputs(txs));
    forall v {
      SpentInputsMembers(txs, v);
    }
  }

  /** An entry that no input of the block's non-coinbase transactions names is kept
      as it was. */
  lemma UnreferencedEntryKept(db: Store, txs: seq<Transaction>, k: string)
    requires CanUpdate(db, txs)
    requires k in db
    requires forall t, v :: 0 <= t < |txs| && !IsCoinbase(txs[t]) && v in txs[t].vin ==> v.txid != k
    ensures k in Updated(db, txs) && Updated(db, txs)[k] == db[k]
  {
    UpdateEffect(db, txs);
  }

  /** A block of coinbase transactions only leaves the store as it is. */
  lemma CoinbaseBlockIsNoOp(db: Store, txs: seq<Transaction>)
    requires forall t :: 0 <= t < |txs| ==> IsCoinbase(txs[t])
    ensures CanUpdate(db, txs) && Updated(db, txs) == db
  {
    assert SpentInputs(txs) == [] by {
      if SpentInputs(txs) != [] {
        SpentInputsMembers(txs, SpentInputs(txs)[0]);
      }
    }
    UpdatedIsSpentInputs(db, txs);
  }

  /** The precondition, unfolded: every input's entry is in the store to begin with
      and has not been deleted by an earlier input of the run. */
  lemma {:induction false} CanSpendInputsIff(db: Store, vins: seq<TXInput>)
    ensures CanSpendInputs(db, vins) <==>
              forall i :: 0 <= i < |vins| ==>
                vins[i].txid in db && forall j :: 0 <= j < i && vins[j].txid == vins[i].txid ==> !Exhausts(db, vins[j])
    decreases |vins|
  {
    if vins != [] {
      var v0 := vins[0];
      if v0.txid in db {
        var db1 := SpendInput(db, v0);
        CanSpendInputsIff(db1, vins[1..]);
        forall i | 1 <= i < |vins|
          ensures (vins[i].txid in db1 && forall j :: 1 <= j < i && vins[j].txid == vins[i].txid ==> !Exhausts(db1, vins[j]))
                  <==> (vins[i].txid in db && forall j :: 0 <= j < i && vins[j].txid == vins[i].txid ==> !Exhausts(db, vins[j]))
        {
          forall j | 0 <= j < |vins| && vins[j].txid in db1
            ensures Exhausts(db1, vins[j]) == Exhausts(db, vins[j])
          {
          }
        }
        assert forall i :: 0 <= i < |vins| - 1 ==> vins[1..][i] == vins[i + 1];
      }
    }
  }

  /** The UTXO set. The source opens the store from disk on every call; here it is the
      field `db`. */
  class UTXOSet {
    var blockchain: Chain.Blockchain
    var db: Store

    constructor (blockchain: Chain.Blockchain, db: Store)
      ensures this.blockchain == blockchain && this.db == db
    {
      this.blockchain := blockchain;
      this.db := db;
    }

    /** `update(block)`: the store becomes `Updated` of the old store; `transactions`
        is the block's transaction list. */
    method Update(transactions: seq<Transaction>)
      requires CanUpdate(db, transactions)
      modifies this`db
      ensures db == Updated(old(db), transactions)
    {
      for t := 0 to |transactions|
        invariant CanUpdate(db, transactions[t..])
        invariant Updated(db, transactions[t..]) == Updated(old(db), transactions)
      {
        var tx := transactions[t];
        assert transactions[t..][0] == tx && transactions[t..][1..] == transactions[t + 1..];
        if !IsCoinbase(tx) {
          ghost var start := db;
          for i := 0 to |tx.vin|
            invariant CanSpendInputs(db, tx.vin[i..])
            invariant SpendInputs(db, tx.vin[i..]) == SpendInputs(start, tx.vin)
          {
            var vin := tx.vin[i];
            assert tx.vin[i..][0] == vin && tx.vin[i..][1..] == tx.vin[i + 1..];
            var outs := db[vin.txid];
            var updateOutputs := Txs.TXOutputs([]);
            for outIdx := 0 to |outs.outputs|
              invariant updateOutputs.outputs == Without(outs.outputs[..outIdx], AsUsize(vin.vout))
            {
              assert outs.outputs[..outIdx + 1][..outIdx] == outs.outputs[..outIdx];
              if outIdx != AsUsize(vin.vout) {
                updateOutputs := updateOutputs.(outputs := updateOutputs.outputs + [outs.outputs[outIdx]]);
              }
            }
            assert outs.outputs[..|outs.outputs|] == outs.outputs;
            if updateOutputs.outputs == [] {
              db := db - {vin.txid};
            } else {
              // The source leaves this branch empty: the trimmed list is not written.
            }
          }
          assert tx.vin[|tx.vin|..] == [];
        }
      }
      assert transactions[|transactions|..] == [];
    }
  }
}
