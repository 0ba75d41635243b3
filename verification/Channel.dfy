/** A channel as a node keeps it: lists, key maps and the state counter updated in place by
    the handlers. A remote call cuts UpdateState into segments; messages are copies. */
module Channel {
  import opened Ledger
  import opened Revocation
  import opened ChannelState

  class Channel {
    const id: SecretKey
    const additionalBlocks: uint32
    const funder: bool
    const counterPartyPubKey: PublicKey
    var state: nat
    var myTransactions: seq<Transaction>
    var theirTransactions: seq<Transaction>
    var myRevocationKeys: map<Hash, SecretKey>
    var theirRevocationKeys: map<Hash, RevocationInfo>

    function View(): Party
      reads this
    {
      Party(id, additionalBlocks, funder, counterPartyPubKey, state, myTransactions, theirTransactions,
            myRevocationKeys, theirRevocationKeys)
    }

    /** The state both CreateChannel and OpenChannel start from: the refund, signed by both,
        is the first transaction of either list. */
    constructor (id: SecretKey, blocks: uint32, funder: bool, theirs: PublicKey, refund: Transaction, revKey: SecretKey)
      ensures View() == Opened(id, blocks, funder, theirs, refund, revKey)
    {
      this.id, additionalBlocks, this.funder, counterPartyPubKey := id, blocks, funder, theirs;
      state := 0;
      myTransactions, theirTransactions := [refund], [refund];
      myRevocationKeys, theirRevocationKeys := map[refund.Hash() := revKey], map[];
    }

    /** Responder, first call. `revKey` is the freshly generated revocation key. */
    method GetUpdatedTransactions(tx: Transaction, revKey: SecretKey) returns (signed: Transaction, own: Transaction)
      requires |tx.outputs| >= 2
      modifies this
      ensures (View(), signed, own) == Countersign(old(View()), tx, revKey)
    {
      signed := Sign(tx, id);
      own := GenerateTransactionWithCorrectScripts(signed, Pub(revKey));
      theirTransactions := theirTransactions + [signed];
      myRevocationKeys := myRevocationKeys[own.Hash() := revKey];
    }

    method GenerateTransactionWithCorrectScripts(theirTx: Transaction, pubRevKey: PublicKey) returns (tx: Transaction)
      requires |theirTx.outputs| >= 2
      ensures tx == CorrectScripts(View(), theirTx, pubRevKey)
    {
      var myScript := MultiParty(Pub(id), counterPartyPubKey, pubRevKey, additionalBlocks);
      var theirScript := PayTo(counterPartyPubKey);
      var myTxo := TransactionOutput(theirTx.outputs[0].amount, myScript);
      var theirTxo := TransactionOutput(theirTx.outputs[1].amount, theirScript);
      var outputs := [myTxo, theirTxo];
      if !funder {
        myTxo := TransactionOutput(theirTx.outputs[1].amount, myScript);
        theirTxo := TransactionOutput(theirTx.outputs[0].amount, theirScript);
        outputs := [theirTxo, myTxo];
      }
      if |theirTx.outputs| == 3 {
        outputs := outputs + [theirTx.outputs[2]];
      }
      tx := Transaction(theirTx.segwit, theirTx.version, theirTx.inputs, outputs, [], theirTx.lockTime);
    }

    /** Initiator, between the two remote calls. */
    method UpdateStateExchange(tx: Transaction, signed: Transaction, unsigned: Transaction)
      returns (theirs: Transaction, key: Option<SecretKey>)
      modifies this
      ensures (View(), theirs, key) == Exchange(old(View()), tx, signed, unsigned)
    {
      myTransactions := myTransactions + [signed];
      theirs := Sign(unsigned, id);
      theirTransactions := theirTransactions + [theirs];
      key := if tx.Hash() in myRevocationKeys then Some(myRevocationKeys[tx.Hash()]) else None;
    }

    /** Responder, second call; `None` is the error reply. */
    method GetRevocationKey(own: Transaction, key: Option<SecretKey>) returns (reply: Option<Option<SecretKey>>)
      requires |own.outputs| >= 2
      modifies this
      ensures (View(), reply) == Reveal(old(View()), own, key)
    {
      myTransactions := myTransactions + [own];
      var theirCoin := 1;
      if funder {
        theirCoin := 0;
      }
      var scriptType := DetermineScriptType(own.outputs[theirCoin].lockingScript);
      if scriptType.None? {
        return None;
      }
      theirRevocationKeys := theirRevocationKeys[own.Hash() :=
        RevocationInfo(key, own.outputs[theirCoin], theirCoin, own.Hash(), scriptType)];
      state := state + 1;
      reply := Some(if own.Hash() in myRevocationKeys then Some(myRevocationKeys[own.Hash()]) else None);
    }

    /** Initiator, after the second remote call. */
    method UpdateStateFinish(tx: Transaction, theirs: Transaction, key: Option<SecretKey>)
      requires |theirs.outputs| >= 2
      modifies this
      ensures View() == Finish(old(View()), tx, theirs, key)
    {
      state := state + 1;
      var theirCoin := 0;
      if funder {
        theirCoin := 1;
      }
      var scriptType := DetermineScriptType(theirs.outputs[theirCoin].lockingScript);
      theirRevocationKeys := theirRevocationKeys[tx.Hash() :=
        RevocationInfo(key, theirs.outputs[theirCoin], theirCoin, theirs.Hash(), scriptType)];
    }
  }
}
