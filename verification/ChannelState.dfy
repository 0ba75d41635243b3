/** One party's view of a Lightning channel and the effect of each segment of the update
    protocol on it. UpdateState is cut at its two remote calls. */
module ChannelState {
  import opened Ledger
  import opened Revocation

  datatype RevocationInfo =
    RevocationInfo(revKey: Option<SecretKey>, output: TransactionOutput, outputIndex: nat,
                   transactionHash: Hash, scriptType: Option<ScriptType>)

  datatype Party =
    Party(id: SecretKey, additionalBlocks: uint32, funder: bool, counterParty: PublicKey, state: nat,
          mine: seq<Transaction>, theirs: seq<Transaction>,
          myKeys: map<Hash, SecretKey>, theirKeys: map<Hash, RevocationInfo>)

  /** The output index of a party's own coin: the funder's comes first. */
  function CoinIndex(funder: bool): nat {
    if funder then 0 else 1
  }

  /** The responder's version of an update: its own coin revocable, the other's not, the
      amounts in their places, and the change of a three-output transaction kept. */
  function CorrectScripts(p: Party, tx: Transaction, rev: PublicKey): Transaction
    requires |tx.outputs| >= 2
  {
    var myScript := MultiParty(Pub(p.id), p.counterParty, rev, p.additionalBlocks);
    var theirScript := PayTo(p.counterParty);
    var outputs :=
      if p.funder
      then [TransactionOutput(tx.outputs[0].amount, myScript), TransactionOutput(tx.outputs[1].amount, theirScript)]
      else [TransactionOutput(tx.outputs[0].amount, theirScript), TransactionOutput(tx.outputs[1].amount, myScript)];
    Transaction(tx.segwit, tx.version, tx.inputs,
                if |tx.outputs| == 3 then outputs + [tx.outputs[2]] else outputs, [], tx.lockTime)
  }

  /** Responder, first call: sign the update and answer with an own version of it. */
  function Countersign(p: Party, tx: Transaction, revKey: SecretKey): (Party, Transaction, Transaction)
    requires |tx.outputs| >= 2
  {
    var signed := Sign(tx, p.id);
    var own := CorrectScripts(p, signed, Pub(revKey));
    (p.(theirs := p.theirs + [signed], myKeys := p.myKeys[own.Hash() := revKey]), signed, own)
  }

  function KeyFor(p: Party, h: Hash): Option<SecretKey> {
    if h in p.myKeys then Some(p.myKeys[h]) else None
  }

  /** Initiator, after the first reply: keep the countersigned update, sign the other version,
      and send it with the key recorded for the update. */
  function Exchange(p: Party, tx: Transaction, signed: Transaction,
                    own: Transaction): (Party, Transaction, Option<SecretKey>) {
    var theirs := Sign(own, p.id);
    (p.(mine := p.mine + [signed], theirs := p.theirs + [theirs]), theirs, KeyFor(p, tx.Hash()))
  }

  function InfoFor(tx: Transaction, index: nat, key: Option<SecretKey>): RevocationInfo
    requires index < |tx.outputs|
  {
    RevocationInfo(key, tx.outputs[index], index, tx.Hash(), DetermineScriptType(tx.outputs[index].lockingScript))
  }

  /** Responder, second call: keep the countersigned own version, record the received key and
      answer with the own key. `None` is the error reply, given after the list has grown. */
  function Reveal(p: Party, own: Transaction, key: Option<SecretKey>): (Party, Option<Option<SecretKey>>)
    requires |own.outputs| >= 2
  {
    var index := CoinIndex(p.funder);
    var grown := p.(mine := p.mine + [own]);
    var info := InfoFor(own, index, key);
    if info.scriptType.None? then (grown, None)
    else (grown.(theirKeys := p.theirKeys[own.Hash() := info], state := p.state + 1), Some(KeyFor(p, own.Hash())))
  }

  /** Initiator, after the second reply: count the state and record the revealed key. */
  function Finish(p: Party, tx: Transaction, own: Transaction, key: Option<SecretKey>): Party
    requires |own.outputs| >= 2
  {
    p.(state := p.state + 1, theirKeys := p.theirKeys[tx.Hash() := InfoFor(own, CoinIndex(!p.funder), key)])
  }

  // ---- Opening ----

  /** The refund of a funding transaction: outputs 0 and 2 come back, less the fee. */
  function Refund(id: SecretKey, theirs: PublicKey, funding: Transaction, fee: uint32, rev: PublicKey,
                  blocks: uint32, lockTime: uint32): Transaction
    requires |funding.outputs| >= 3
  {
    var change := if funding.outputs[2].amount > fee then funding.outputs[2].amount - fee else 0;
    Sign(Transaction(true, funding.version,
                     [TransactionInput(funding.Hash(), 0, KeyScript(Pub(id))),
                      TransactionInput(funding.Hash(), 2, KeyScript(Pub(id)))],
                     [TransactionOutput(Wrap(funding.outputs[0].amount + change),
                                        MultiParty(Pub(id), theirs, rev, blocks))],
                     [], lockTime), id)
  }

  /** The refund spends outputs 0 and 2 of the funding transaction, unlocked with the funder's key, and
      pays one output that only both parties, or the holder of the revocation key, can spend. */
  lemma RefundSpendsFunding(id: SecretKey, theirs: PublicKey, funding: Transaction, fee: uint32, rev: PublicKey,
                            blocks: uint32, lockTime: uint32)
    requires |funding.outputs| >= 3
    ensures var refund := Refund(id, theirs, funding, fee, rev, blocks, lockTime);
      && |refund.inputs| == 2 && SpentBy(refund, 2) == {CoinLocator(funding.Hash(), 0), CoinLocator(funding.Hash(), 2)}
      && (forall i :: 0 <= i < 2 ==> refund.inputs[i].unlockingScript == KeyScript(Pub(id)))
      && |refund.outputs| == 1 && refund.outputs[0].lockingScript == Script(MULTI, Pub(id), theirs, rev, blocks)
      && refund.segwit && refund.version == funding.version && refund.lockTime == lockTime
      && refund.witnesses == [Signature(id, refund.Hash())]
  {
    var refund := Refund(id, theirs, funding, fee, rev, blocks, lockTime);
    assert LocatorOf(refund.inputs[0]) == CoinLocator(funding.Hash(), 0);
    assert LocatorOf(refund.inputs[1]) == CoinLocator(funding.Hash(), 2);
  }

  function Opened(id: SecretKey, blocks: uint32, funder: bool, theirs: PublicKey, refund: Transaction,
                  revKey: SecretKey): Party {
    Party(id, blocks, funder, theirs, 0, [refund], [refund], map[refund.Hash() := revKey], map[])
  }

  // ---- Amounts ----

  predicate SameAmounts(t: Transaction, u: Transaction) {
    |t.outputs| == |u.outputs| && forall j :: 0 <= j < |t.outputs| ==> t.outputs[j].amount == u.outputs[j].amount
  }

  /** The two versions of an update agree at every output exactly when it has two or three. */
  lemma VersionsAgreeExactly(p: Party, tx: Transaction, rev: PublicKey)
    requires |tx.outputs| >= 2
    ensures SameAmounts(tx, CorrectScripts(p, tx, rev)) <==> |tx.outputs| == 2 || |tx.outputs| == 3
  {
  }

  /** A responder's own version carries its key where the initiator will look for it. */
  ghost predicate Revocable(p: Party, own: Transaction, key: SecretKey) {
    && |own.outputs| >= 2
    && own.outputs[if p.funder then 0 else 1].lockingScript ==
        Script(MULTI, Pub(p.id), p.counterParty, Pub(key), p.additionalBlocks)
  }

  /** `own` is a version of an update in which the coin of the initiator is paid to its key and
      cannot be revoked: inputs, amounts, change and lock time are those of the update. */
  ghost predicate Answers(funder: bool, initiator: SecretKey, tx: Transaction, own: Transaction) {
    && |tx.outputs| >= 2 && |own.outputs| == (if |tx.outputs| == 3 then 3 else 2)
    && (var mine, theirs := if funder then 0 else 1, if funder then 1 else 0;
        && own.outputs[mine].amount == tx.outputs[mine].amount
        && own.outputs[mine].lockingScript == Script(P2PK, Pub(initiator), NoKey, NoKey, 0)
        && own.outputs[theirs].amount == tx.outputs[theirs].amount)
    && (|tx.outputs| == 3 ==> own.outputs[2] == tx.outputs[2])
    && own.inputs == tx.inputs && own.lockTime == tx.lockTime && own.version == tx.version && own.segwit == tx.segwit
  }

  /** A responder answers an initiator with such a version, its own coin revocable by the new key. */
  lemma AnswerPaysBoth(p: Party, initiator: SecretKey, tx: Transaction, revKey: SecretKey)
    requires |tx.outputs| >= 2 && p.counterParty == Pub(initiator)
    ensures var own := CorrectScripts(p, tx, Pub(revKey));
      Answers(!p.funder, initiator, tx, own) && Revocable(p, own, revKey) && own.witnesses == []
  {
  }
}
