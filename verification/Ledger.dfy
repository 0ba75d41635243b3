/** The values every component shares: keys, scripts, transactions, blocks and their hashes.

    Hashes are a free datatype, so two hashes are equal exactly when the hashed values are.
    The hash of a transaction leaves its witnesses out; the hash of a block is the hash of
    its header. Secret keys are numbers, `Pub(sk)` is the public key of `sk`, and a
    signature names the signer and the signed hash. */
module Ledger {

  const U32_LIMIT: int := 0x1_0000_0000

  type uint32 = x: int | 0 <= x < U32_LIMIT

  /** The value a Go `uint32` holds after arithmetic that may leave its range. */
  function Wrap(x: int): uint32 {
    x % U32_LIMIT
  }

  lemma WrapAdds(x: int, y: int)
    ensures Wrap(Wrap(x) + y) == Wrap(x + y) && Wrap(Wrap(x) + Wrap(y)) == Wrap(x + y)
  {
  }

  lemma WrapTakes(x: int, y: int)
    ensures Wrap(Wrap(x) - y) == Wrap(x - y) && Wrap(x - Wrap(y)) == Wrap(x - y)
    ensures Wrap(Wrap(x) - Wrap(y)) == Wrap(x - y)
  {
    WrapAdds(x, -y);
    WrapTakesWrapped(x, y);
    WrapTakesWrapped(Wrap(x), y);
  }

  lemma WrapTakesWrapped(x: int, y: int)
    ensures Wrap(x - Wrap(y)) == Wrap(x - y)
  {
  }

  lemma WrapFits(x: int)
    ensures Wrap(x) == x <==> 0 <= x < U32_LIMIT
  {
  }

  datatype Option<+T> = None | Some(value: T)

  type SecretKey = nat

  /** Public keys as bytes; `NoKey` is the empty byte string. */
  datatype PublicKey = NoKey | Pub(secret: SecretKey)

  datatype ScriptType = P2PK | MULTI | HTLC

  /** A locking script. The three protobuf script messages agree on their first four fields,
      so one record of fields stands for all of them; `RawBytes` does not parse as a script. */
  datatype Script =
    | Script(scriptType: ScriptType, publicKey: PublicKey, theirPublicKey: PublicKey,
             revocationKey: PublicKey, additionalBlocks: uint32)
    | RawBytes(key: PublicKey)

  function PayTo(pk: PublicKey): Script {
    Script(P2PK, pk, NoKey, NoKey, 0)
  }

  function MultiParty(mine: PublicKey, theirs: PublicKey, revocation: PublicKey, blocks: uint32): Script {
    Script(MULTI, mine, theirs, revocation, blocks)
  }

  datatype TransactionOutput = TransactionOutput(amount: uint32, lockingScript: Script)

  datatype UnlockingScript =
    | NoScript
    | KeyScript(key: PublicKey)
    | OutputSignature(signer: SecretKey, output: TransactionOutput)

  datatype TransactionInput =
    TransactionInput(referenceTransactionHash: Hash, outputIndex: nat, unlockingScript: UnlockingScript)

  datatype Hash =
    | OfTransaction(segwit: bool, version: uint32, inputs: seq<TransactionInput>,
                    outputs: seq<TransactionOutput>, lockTime: uint32)
    | OfHeader(header: Header)
    | OfPair(left: Hash, right: Hash)
    | Text(text: string)

  datatype Header =
    Header(version: uint32, previousHash: Hash, merkleRoot: Hash, difficultyTarget: string,
           nonce: uint32, timestamp: uint32)

  datatype Signature = Signature(signer: SecretKey, signed: Hash)

  datatype Transaction =
    Transaction(segwit: bool, version: uint32, inputs: seq<TransactionInput>,
                outputs: seq<TransactionOutput>, witnesses: seq<Signature>, lockTime: uint32)
  {
    function Hash(): Hash {
      OfTransaction(segwit, version, inputs, outputs, lockTime)
    }
  }

  datatype Block = Block(header: Header, transactions: seq<Transaction>)
  {
    function Hash(): Hash {
      OfHeader(header)
    }
  }

  /** Transactions have the same hash exactly when they differ at most in their witnesses, and blocks
      exactly when they have the same header. */
  lemma HashesTellApart(t: Transaction, u: Transaction, b: Block, c: Block)
    ensures t.Hash() == u.Hash() <==> t.(witnesses := []) == u.(witnesses := [])
    ensures b.Hash() == c.Hash() <==> b.header == c.header
  {
  }

  /** Names one output of one transaction. */
  datatype CoinLocator = CoinLocator(referenceTransactionHash: Hash, outputIndex: nat)

  function LocatorOf(txi: TransactionInput): CoinLocator {
    CoinLocator(txi.referenceTransactionHash, txi.outputIndex)
  }

  /** The locators the first `n` inputs spend. */
  function SpentBy(tx: Transaction, n: nat): set<CoinLocator>
    requires n <= |tx.inputs|
  {
    set i | 0 <= i < n :: LocatorOf(tx.inputs[i])
  }

  function HashList(txs: seq<Transaction>): seq<Hash> {
    seq(|txs|, t requires 0 <= t < |txs| => txs[t].Hash())
  }

  /** The output a locator names, when its hash is the hash of a transaction that has it. */
  predicate Names(cl: CoinLocator, output: TransactionOutput) {
    && cl.referenceTransactionHash.OfTransaction?
    && cl.outputIndex < |cl.referenceTransactionHash.outputs|
    && cl.referenceTransactionHash.outputs[cl.outputIndex] == output
  }
}
