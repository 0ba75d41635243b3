/** The wallet's side of revocation: checking a revealed key against a locking script and
    claiming the revoked output. */
module Revocation {
  import opened Ledger

  function DetermineScriptType(script: Script): Option<ScriptType> {
    if script.Script? then Some(script.scriptType) else None
  }

  /** Whether the public half of the key is the script's revocation key. */
  predicate RevKeySuccessful(script: Script, secRevKey: SecretKey, scriptType: Option<ScriptType>) {
    && (scriptType == Some(MULTI) || scriptType == Some(HTLC))
    && script.Script? && script.revocationKey == Pub(secRevKey)
  }

  function Sign(tx: Transaction, sk: SecretKey): Transaction {
    tx.(witnesses := tx.witnesses + [Signature(sk, tx.Hash())])
  }

  predicate SignedBy(tx: Transaction, sk: SecretKey) {
    Signature(sk, tx.Hash()) in tx.witnesses
  }

  /** The transaction that claims a revoked output, if the key fits. */
  function HandleRevokedOutput(wallet: SecretKey, fee: uint32, version: uint32, hash: Hash, txo: TransactionOutput,
                               outIndex: nat, secRevKey: SecretKey, scriptType: Option<ScriptType>): Option<Transaction>
  {
    if !RevKeySuccessful(txo.lockingScript, secRevKey, scriptType) then None
    else
      Some(Sign(Transaction(true, version, [TransactionInput(hash, outIndex, NoScript)],
                            [TransactionOutput(Wrap(txo.amount - fee), PayTo(Pub(wallet)))], [], 0), wallet))
  }

  /** A claim is made exactly for a multi-party or time-lock script whose revocation key is the
      public half of the key, and takes exactly the revoked output, for its amount less the fee. */
  lemma ClaimTakesOutput(wallet: SecretKey, fee: uint32, version: uint32, hash: Hash, txo: TransactionOutput,
                         outIndex: nat, secRevKey: SecretKey, scriptType: Option<ScriptType>)
    ensures var claim := HandleRevokedOutput(wallet, fee, version, hash, txo, outIndex, secRevKey, scriptType);
      && (claim.Some? <==>
          && (scriptType == Some(MULTI) || scriptType == Some(HTLC))
          && txo.lockingScript.Script? && txo.lockingScript.revocationKey == Pub(secRevKey))
      && (claim.Some? ==>
          && claim.value.segwit && claim.value.version == version && claim.value.lockTime == 0
          && claim.value.witnesses == [Signature(wallet, claim.value.Hash())]
          && claim.value.inputs == [TransactionInput(hash, outIndex, NoScript)]
          && |claim.value.outputs| == 1
          && claim.value.outputs[0].lockingScript == Script(P2PK, Pub(wallet), NoKey, NoKey, 0)
          && (txo.amount >= fee ==> claim.value.outputs[0].amount == txo.amount - fee))
  {
  }
}
