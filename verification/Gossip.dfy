/** Gossip between nodes: transactions travel without witnesses, which every receiver fetches
    from the sender, and blocks flood with a bound on repeated forwarding. */
module Gossip {
  import opened Ledger

  type Address = nat

  datatype SeenTransaction = SeenTransaction(transaction: Transaction, count: nat)

  datatype Message = Message(from: Address, to: Address, transaction: Transaction)

  function Strip(tx: Transaction): Transaction {
    tx.(witnesses := [])
  }

  function ToAll(from: Address, peers: seq<Address>, tx: Transaction): seq<Message> {
    seq(|peers|, i requires 0 <= i < |peers| => Message(from, peers[i], tx))
  }

  /** Every peer gets a message, and nobody else. */
  lemma EveryPeerIsSent(from: Address, peers: seq<Address>, tx: Transaction, to: Address)
    ensures |ToAll(from, peers, tx)| == |peers|
    ensures to in peers <==> Message(from, to, tx) in ToAll(from, peers, tx)
  {
    if to in peers {
      var i :| 0 <= i < |peers| && peers[i] == to;
      assert ToAll(from, peers, tx)[i] == Message(from, to, tx);
    }
  }

  /** The entry a node keeps for a transaction it has not seen: a SegWit transaction gets the
      witnesses the sender answered with. */
  function FirstSight(tx: Transaction, witnesses: seq<Signature>): SeenTransaction {
    SeenTransaction(if tx.segwit then tx.(witnesses := witnesses) else tx, 1)
  }

  /** A receiver's table after a message from a sender with table `theirs`; `None` when the
      sender cannot answer the witness request. */
  function Received(mine: map<Hash, SeenTransaction>, theirs: map<Hash, SeenTransaction>, tx: Transaction)
    : Option<map<Hash, SeenTransaction>>
  {
    var h := tx.Hash();
    if h in mine then Some(mine[h := mine[h].(count := mine[h].count + 1)])
    else if !tx.segwit then Some(mine[h := FirstSight(tx, [])])
    else if h in theirs then Some(mine[h := FirstSight(tx, theirs[h].transaction.witnesses)])
    else None
  }

  /** How often a node that has counted a block `seen` times will still forward it. */
  function RemainingForwards(seen: nat): nat {
    if seen >= 2 then 0 else 2 - seen
  }

  /** What a node does with a block: nothing, an error, or it hands the block to its chain, to its
      miner and its wallet as told, and sends it to the receivers. */
  datatype Outcome = Ignored | Invalid | Handed(miner: bool, wallet: bool, receivers: seq<Address>)

  class Node {
    const address: Address
    const peers: seq<Address>
    const hasMiner: bool
    const hasWallet: bool
    var seenTransactions: map<Hash, SeenTransaction>
    var seenBlocks: map<Hash, nat>

    constructor (address: Address, peers: seq<Address>, hasMiner: bool, hasWallet: bool)
      ensures this.address == address && this.peers == peers && seenTransactions == map[] && seenBlocks == map[]
      ensures this.hasMiner == hasMiner && this.hasWallet == hasWallet
    {
      this.address, this.peers, seenTransactions, seenBlocks := address, peers, map[], map[];
      this.hasMiner, this.hasWallet := hasMiner, hasWallet;
    }

    /** `mined` is what the node's miner gets: the whole transaction. */
    method BroadcastTransaction(tx: Transaction) returns (mined: Option<Transaction>, sent: seq<Message>)
      modifies this`seenTransactions
      ensures seenTransactions == old(seenTransactions)[tx.Hash() := SeenTransaction(tx, 1)]
      ensures sent == ToAll(address, peers, Strip(tx)) && mined == if hasMiner then Some(tx) else None
    {
      seenTransactions := seenTransactions[tx.Hash() := SeenTransaction(tx, 1)];
      mined := if hasMiner then Some(tx) else None;
      sent := SendToAll(tx.(witnesses := []));
    }

    method SendToAll(tx: Transaction) returns (sent: seq<Message>)
      ensures sent == ToAll(address, peers, tx)
    {
      sent := [];
      for i := 0 to |peers|
        invariant sent == ToAll(address, peers[..i], tx)
      {
        sent := sent + [Message(address, peers[i], tx)];
      }
      assert peers[..|peers|] == peers;
    }

    method GetWitnesses(tx: Transaction) returns (reply: Option<seq<Signature>>)
      ensures reply ==
        if tx.Hash() in seenTransactions then Some(seenTransactions[tx.Hash()].transaction.witnesses) else None
    {
      if tx.Hash() in seenTransactions {
        return Some(seenTransactions[tx.Hash()].transaction.witnesses);
      }
      return None;
    }

    /** `sender` answers the witness request; when it fails the message goes no further. The miner
        gets the transaction as it was sent, without the fetched witnesses. */
    method ForwardTransaction(theirTx: Transaction, sender: Node)
      returns (ok: bool, mined: Option<Transaction>, sent: seq<Message>)
      modifies this`seenTransactions
      ensures var r := Received(old(seenTransactions), old(sender.seenTransactions), theirTx);
        (ok <==> r.Some?) && seenTransactions == if ok then r.value else old(seenTransactions)
      ensures sent == if ok then ToAll(address, peers, theirTx) else []
      ensures mined == if ok && hasMiner then Some(theirTx) else None
    {
      var h := theirTx.Hash();
      if h in seenTransactions {
        seenTransactions := seenTransactions[h := seenTransactions[h].(count := seenTransactions[h].count + 1)];
      } else {
        var myTx := theirTx;
        if myTx.segwit {
          var reply := sender.GetWitnesses(theirTx);
          if reply.None? {
            return false, None, [];
          }
          myTx := myTx.(witnesses := reply.value);
        }
        seenTransactions := seenTransactions[h := SeenTransaction(myTx, 1)];
      }
      mined := if hasMiner then Some(theirTx) else None;
      sent := SendToAll(theirTx);
      ok := true;
    }

    method SendBlock() returns (receivers: seq<Address>)
      ensures receivers == peers
    {
      receivers := [];
      for i := 0 to |peers|
        invariant receivers == peers[..i]
      {
        receivers := receivers + [peers[i]];
      }
    }

    /** `valid` is the outcome of checking the block, and `onTip` says whether it is an acceptable
        child of the tip. */
    method ForwardBlock(b: Block, valid: bool, onTip: bool) returns (outcome: Outcome)
      modifies this`seenBlocks
      ensures var seen := if b.Hash() in old(seenBlocks) then old(seenBlocks)[b.Hash()] else 0;
        && seenBlocks == old(seenBlocks)[b.Hash() := seen + 1]
        && outcome == if seen >= 2 then Ignored
                      else if !valid then Invalid
                      else Handed(hasMiner && onTip, hasWallet && onTip, peers)
    {
      if b.Hash() in seenBlocks {
        var numSeen := seenBlocks[b.Hash()];
        seenBlocks := seenBlocks[b.Hash() := numSeen + 1];
        if numSeen > 1 {
          return Ignored;
        }
      } else {
        seenBlocks := seenBlocks[b.Hash() := 1];
      }
      if !valid {
        return Invalid;
      }
      var receivers := SendBlock();
      return Handed(hasMiner && onTip, hasWallet && onTip, receivers);
    }

    /** A block from the node's own miner goes to the chain, the wallet and every peer. */
    method HandleMinerBlock(b: Block) returns (outcome: Outcome)
      modifies this`seenBlocks
      ensures seenBlocks == old(seenBlocks)[b.Hash() := 1] && outcome == Handed(false, hasWallet, peers)
    {
      seenBlocks := seenBlocks[b.Hash() := 1];
      var receivers := SendBlock();
      return Handed(false, hasWallet, receivers);
    }
  }
}
