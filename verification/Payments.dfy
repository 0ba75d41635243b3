/** Who is paid by a requested transaction: in its outputs, in the wallets of payer and recipient, and
    in the ledger that stores it. */
module Payments {
  import opened Ledger
  import opened UtxoLedger
  import opened WalletState
  import WalletPools
  import opened WalletLife
  import CoinDatabase

  /** What the outputs pay to a script. */
  function PaidIn(outputs: seq<TransactionOutput>, script: Script): nat {
    if outputs == [] then 0
    else (if outputs[0].lockingScript == script then outputs[0].amount else 0) + PaidIn(outputs[1..], script)
  }

  /** The script that pays a public key. */
  function PaysKey(key: PublicKey): Script {
    Script(P2PK, key, NoKey, NoKey, 0)
  }

  lemma TwoOutputs(outputs: seq<TransactionOutput>, script: Script)
    requires |outputs| <= 2
    ensures PaidIn(outputs, script) ==
      (if |outputs| > 0 && outputs[0].lockingScript == script then outputs[0].amount else 0) +
      (if |outputs| > 1 && outputs[1].lockingScript == script then outputs[1].amount else 0)
  {
    if |outputs| > 0 { assert PaidIn(outputs[1..], script) == PaidIn(outputs, script) -
      (if outputs[0].lockingScript == script then outputs[0].amount else 0); }
    if |outputs| > 1 { assert outputs[1..][1..] == []; }
  }

  /** A requested transaction spends exactly the picked coins, each signed by the wallet, and pays the
      recipient exactly the amount and the wallet exactly the rest less the fee. */
  lemma RequestPays(id: SecretKey, amount: uint32, fee: uint32, recipient: PublicKey, coins: seq<CoinInfo>)
    ensures var tx := RequestedTransaction(id, amount, fee, recipient, coins);
      && !tx.segwit && tx.version == 0 && tx.lockTime == 0 && tx.witnesses == [] && |tx.inputs| == |coins|
      && (forall i :: 0 <= i < |coins| ==>
            && LocatorOf(tx.inputs[i]) == coins[i].locator
            && tx.inputs[i].unlockingScript == OutputSignature(id, coins[i].output))
      && (recipient != NoKey && recipient != Pub(id) ==>
          && PaidIn(tx.outputs, PaysKey(recipient)) == amount
          && PaidIn(tx.outputs, PaysKey(Pub(id))) == Wrap(Amounts(coins) - amount - fee))
      && (recipient == Pub(id) ==>
          PaidIn(tx.outputs, PaysKey(Pub(id))) == amount + Wrap(Amounts(coins) - amount - fee))
      && (recipient == NoKey ==> tx.outputs == [])
  {
    var tx := RequestedTransaction(id, amount, fee, recipient, coins);
    WrapTakes(Amounts(coins), amount + fee);
    TwoOutputs(tx.outputs, PaysKey(recipient));
    TwoOutputs(tx.outputs, PaysKey(Pub(id)));
  }

  /** The coin is output `i` of the transaction. */
  predicate CoinIs(bt: BlockTransaction, i: nat, output: TransactionOutput, c: CoinInfo) {
    && |bt.pointers| == |bt.tx.outputs| && i < |bt.tx.outputs| && bt.tx.outputs[i] == output
    && c == CoinInfo(CoinLocator(bt.tx.Hash(), i), bt.pointers[i], output)
  }

  /** When the block with the transaction arrives, the recipient's wallet receives exactly one coin of
      the amount, and the payer's exactly its change, if there is any. */
  lemma RequestArrives(payer: Config, payee: Config, amount: uint32, fee: uint32, coins: seq<CoinInfo>,
                       bt: BlockTransaction, c: CoinInfo)
    requires bt.Valid() && payer.id != payee.id
    requires bt.tx == RequestedTransaction(payer.id, amount, fee, Pub(payee.id), coins)
    ensures ArrivesWith(payee, bt, c) <==> CoinIs(bt, 0, TransactionOutput(amount, PaysKey(Pub(payee.id))), c)
    ensures var rest := Wrap(Amounts(coins) - amount - fee);
      ArrivesWith(payer, bt, c) <==>
        rest != 0 && CoinIs(bt, 1, TransactionOutput(rest, PaysKey(Pub(payer.id))), c)
  {
    WrapTakes(Amounts(coins), amount + fee);
    if CoinIs(bt, 0, TransactionOutput(amount, PaysKey(Pub(payee.id))), c) { assert Arrives(payee, bt, 0, c); }
    if CoinIs(bt, 1, TransactionOutput(Change(coins, Wrap(amount + fee)), PaysKey(Pub(payer.id))), c) {
      assert Arrives(payer, bt, 1, c);
    }
  }

  lemma CreatedByOne(tx: Transaction, cl: CoinLocator)
    ensures cl in Created([tx]) <==> cl.referenceTransactionHash == tx.Hash() && cl.outputIndex < |tx.outputs|
    ensures cl in Created([tx]) ==> Created([tx])[cl] == tx.outputs[cl.outputIndex]
  {
    if cl.referenceTransactionHash == tx.Hash() && cl.outputIndex < |tx.outputs| {
      assert [tx][0] == tx && cl == CoinLocator(tx.Hash(), cl.outputIndex);
    }
  }

  lemma SpentByOne(tx: Transaction, coins: seq<CoinInfo>, cl: CoinLocator)
    requires |tx.inputs| == |coins| && forall i :: 0 <= i < |coins| ==> LocatorOf(tx.inputs[i]) == coins[i].locator
    ensures cl in Spent([tx]) ==> exists i :: 0 <= i < |coins| && coins[i].locator == cl
  {
  }

  lemma PaidAfter(u: Utxo, id: SecretKey, tx: Transaction, coins: seq<CoinInfo>, recipient: PublicKey, cl: CoinLocator)
    requires recipient != Pub(id) && Fresh(u, [tx]) && 1 <= |tx.outputs| <= 2
    requires |tx.inputs| == |coins| && forall i :: 0 <= i < |coins| ==> LocatorOf(tx.inputs[i]) == coins[i].locator
    requires tx.outputs[0].lockingScript == PaysKey(recipient)
    requires |tx.outputs| == 2 ==> tx.outputs[1].lockingScript == PaysKey(Pub(id))
    requires forall i :: 0 <= i < |coins| && coins[i].locator in u ==> WalletPools.LockedTo(id, u[coins[i].locator])
    ensures var before, after := CoinDatabase.PaidTo(u, PaysKey(recipient)),
                                 CoinDatabase.PaidTo(Apply(u, [tx]), PaysKey(recipient));
      && (cl in after <==> cl in before || cl == CoinLocator(tx.Hash(), 0))
      && (cl in after ==> after[cl] == if cl == CoinLocator(tx.Hash(), 0) then tx.outputs[0] else before[cl])
      && !(cl in before && cl == CoinLocator(tx.Hash(), 0))
  {
    CreatedByOne(tx, cl);
    SpentByOne(tx, coins, cl);
  }

  /** Storing the transaction raises what the recipient's script holds by exactly the amount. */
  lemma RequestRaisesBalance(u: Utxo, id: SecretKey, amount: uint32, fee: uint32, recipient: PublicKey,
                             coins: seq<CoinInfo>, tx: Transaction)
    requires recipient != NoKey && recipient != Pub(id)
    requires tx == RequestedTransaction(id, amount, fee, recipient, coins) && Fresh(u, [tx])
    requires forall i :: 0 <= i < |coins| && coins[i].locator in u ==> WalletPools.LockedTo(id, u[coins[i].locator])
    ensures Total(CoinDatabase.PaidTo(Apply(u, [tx]), PaysKey(recipient))) ==
      Total(CoinDatabase.PaidTo(u, PaysKey(recipient))) + amount
  {
    var paid := CoinLocator(tx.Hash(), 0);
    var before, after := CoinDatabase.PaidTo(u, PaysKey(recipient)),
                         CoinDatabase.PaidTo(Apply(u, [tx]), PaysKey(recipient));
    RequestPays(id, amount, fee, recipient, coins);
    forall cl
      ensures cl in after <==> cl in before || cl == paid
      ensures cl in after ==> after[cl] == if cl == paid then tx.outputs[0] else before[cl]
      ensures !(cl in before && cl == paid)
    {
      PaidAfter(u, id, tx, coins, recipient, cl);
    }
    assert after - {paid} == before;
    TotalSplit(after, paid);
  }
}
