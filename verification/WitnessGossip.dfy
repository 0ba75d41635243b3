/** Runs of transaction gossip over any set of nodes that know each other. */
module WitnessGossip {
  import opened Ledger
  import opened Gossip

  datatype Original = Original(origin: Address, transaction: Transaction)

  /** Every node's seen transactions, the messages in flight, and who broadcast what. */
  datatype Network =
    Network(seen: map<Address, map<Hash, SeenTransaction>>, inFlight: multiset<Message>, originals: map<Hash, Original>)

  datatype Event = Broadcast(node: Address, tx: Transaction) | Deliver(message: Message)

  /** Nodes and peers are known; a hash has one originator, which may broadcast it again. */
  ghost predicate Enabled(net: Network, e: Event) {
    match e
    case Broadcast(node, tx) =>
      node in net.seen && (tx.Hash() in net.originals ==> net.originals[tx.Hash()] == Original(node, tx))
    case Deliver(m) => m in net.inFlight
  }

  ghost predicate Connected(net: Network, peers: map<Address, seq<Address>>) {
    && net.seen.Keys == peers.Keys
    && forall n, i :: n in peers && 0 <= i < |peers[n]| ==> peers[n][i] in peers
  }

  function Next(net: Network, peers: map<Address, seq<Address>>, e: Event): Network
    requires match e case Broadcast(node, _) => node in net.seen && node in peers
                     case Deliver(m) => m.from in net.seen && m.to in net.seen && m.to in peers
  {
    match e
    case Broadcast(node, tx) =>
      Network(net.seen[node := net.seen[node][tx.Hash() := SeenTransaction(tx, 1)]],
              net.inFlight + multiset(ToAll(node, peers[node], Strip(tx))),
              net.originals[tx.Hash() := Original(node, tx)])
    case Deliver(m) =>
      match Received(net.seen[m.to], net.seen[m.from], m.transaction)
      case None => net.(inFlight := net.inFlight - multiset{m})
      case Some(table) =>
        net.(seen := net.seen[m.to := table],
             inFlight := net.inFlight - multiset{m} + multiset(ToAll(m.to, peers[m.to], m.transaction)))
  }

  /** A delivery counts the transaction once more at its receiver, or once if it is new, and in no
      other table; unless the witness request fails, every peer of the receiver is sent it. */
  lemma DeliveryCounts(net: Network, peers: map<Address, seq<Address>>, m: Message, n: Address, h: Hash)
    requires m.from in net.seen && m.to in net.seen && m.to in peers && n in net.seen
    ensures var after, known := Next(net, peers, Deliver(m)), h in net.seen[n];
      && n in after.seen
      && (n != m.to || h != m.transaction.Hash() ==>
          (h in after.seen[n] <==> known) && (known ==> after.seen[n][h] == net.seen[n][h]))
      && (n == m.to && h == m.transaction.Hash() && known ==>
          && h in after.seen[n] && after.seen[n][h].count == net.seen[n][h].count + 1
          && after.seen[n][h].transaction == net.seen[n][h].transaction)
      && (n == m.to && h == m.transaction.Hash() && !known && h in after.seen[n] ==> after.seen[n][h].count == 1)
      && (m.transaction.Hash() in after.seen[m.to] ==>
          forall p :: p in peers[m.to] ==> Message(m.to, p, m.transaction) in after.inFlight)
  {
    forall p | p in peers[m.to] ensures Message(m.to, p, m.transaction) in ToAll(m.to, peers[m.to], m.transaction) {
      EveryPeerIsSent(m.to, peers[m.to], m.transaction, p);
    }
  }

  /** A broadcast keeps the whole transaction at its node and is on its way, without witnesses, to every
      peer. */
  lemma BroadcastReaches(net: Network, peers: map<Address, seq<Address>>, node: Address, tx: Transaction, p: Address)
    requires node in net.seen && node in peers && p in peers[node]
    ensures var after := Next(net, peers, Broadcast(node, tx));
      && tx.Hash() in after.seen[node] && after.seen[node][tx.Hash()] == SeenTransaction(tx, 1)
      && Message(node, p, tx.(witnesses := [])) in after.inFlight
  {
    EveryPeerIsSent(node, peers[node], tx.(witnesses := []), p);
  }

  predicate Has(net: Network, n: Address, h: Hash) {
    n in net.seen && h in net.seen[n]
  }

  /** What a node's entry for a broadcast transaction must hold: the transaction itself, without
      its witnesses if it is not SegWit and came from another node. */
  function Expected(net: Network, n: Address, h: Hash): Transaction
    requires h in net.originals
  {
    var o := net.originals[h];
    if o.transaction.segwit || o.origin == n then o.transaction else Strip(o.transaction)
  }

  ghost predicate Faithful(net: Network, n: Address, h: Hash) {
    Has(net, n, h) ==>
      && h in net.originals && net.originals[h].transaction.Hash() == h
      && net.seen[n][h].transaction == Expected(net, n, h)
  }

  /** The originator has its own transaction. */
  ghost predicate OriginHas(net: Network, h: Hash) {
    h in net.originals ==> Has(net, net.originals[h].origin, h)
  }

  ghost predicate MessageOk(net: Network, m: Message) {
    var h := m.transaction.Hash();
    && m.from in net.seen && m.to in net.seen && Has(net, m.from, h)
    && h in net.originals && m.transaction == Strip(net.originals[h].transaction)
  }

  ghost predicate Inv(net: Network, peers: map<Address, seq<Address>>) {
    && Connected(net, peers)
    && (forall n, h {:trigger Faithful(net, n, h)} :: Faithful(net, n, h))
    && (forall h {:trigger OriginHas(net, h)} :: OriginHas(net, h))
    && (forall m {:trigger MessageOk(net, m)} :: m in net.inFlight ==> MessageOk(net, m))
  }

  lemma SentMessages(from: Address, peers: seq<Address>, tx: Transaction, m: Message)
    requires m in ToAll(from, peers, tx)
    ensures m.from == from && m.transaction == tx && exists i :: 0 <= i < |peers| && peers[i] == m.to
  {
    var i :| 0 <= i < |peers| && ToAll(from, peers, tx)[i] == m;
  }

  lemma BroadcastFaithful(net: Network, peers: map<Address, seq<Address>>, node: Address, tx: Transaction, n: Address,
                          h: Hash)
    requires Inv(net, peers) && Enabled(net, Broadcast(node, tx))
    ensures Faithful(Next(net, peers, Broadcast(node, tx)), n, h) && OriginHas(Next(net, peers, Broadcast(node, tx)), h)
  {
    assert Faithful(net, n, h) && OriginHas(net, h);
  }

  lemma BroadcastKeepsInv(net: Network, peers: map<Address, seq<Address>>, node: Address, tx: Transaction)
    requires Inv(net, peers) && Enabled(net, Broadcast(node, tx))
    ensures Inv(Next(net, peers, Broadcast(node, tx)), peers)
  {
    var t := Next(net, peers, Broadcast(node, tx));
    forall n, h ensures Faithful(t, n, h) { BroadcastFaithful(net, peers, node, tx, n, h); }
    forall h ensures OriginHas(t, h) { BroadcastFaithful(net, peers, node, tx, node, h); }
    forall m | m in t.inFlight ensures MessageOk(t, m) {
      if m in ToAll(node, peers[node], Strip(tx)) {
        SentMessages(node, peers[node], Strip(tx), m);
      } else {
        assert m in net.inFlight && MessageOk(net, m);
      }
    }
  }

  /** A delivery never fails: the sender has the witnesses it is asked for. */
  lemma DeliverySucceeds(net: Network, peers: map<Address, seq<Address>>, m: Message)
    requires Inv(net, peers) && m in net.inFlight
    ensures MessageOk(net, m) && Received(net.seen[m.to], net.seen[m.from], m.transaction).Some?
  {
    assert MessageOk(net, m);
  }

  lemma DeliverFaithful(net: Network, peers: map<Address, seq<Address>>, m: Message, n: Address, h: Hash)
    requires Inv(net, peers) && m in net.inFlight && MessageOk(net, m)
    ensures Faithful(Next(net, peers, Deliver(m)), n, h) && OriginHas(Next(net, peers, Deliver(m)), h)
  {
    assert Faithful(net, n, h) && OriginHas(net, h) && Faithful(net, m.from, h);
  }

  lemma DeliverKeepsInv(net: Network, peers: map<Address, seq<Address>>, m: Message)
    requires Inv(net, peers) && m in net.inFlight
    ensures MessageOk(net, m) && Inv(Next(net, peers, Deliver(m)), peers)
  {
    DeliverySucceeds(net, peers, m);
    var t := Next(net, peers, Deliver(m));
    forall n, h ensures Faithful(t, n, h) { DeliverFaithful(net, peers, m, n, h); }
    forall h ensures OriginHas(t, h) { DeliverFaithful(net, peers, m, m.to, h); }
    forall x | x in t.inFlight ensures MessageOk(t, x) {
      if x in ToAll(m.to, peers[m.to], m.transaction) {
        SentMessages(m.to, peers[m.to], m.transaction, x);
      } else {
        assert x in net.inFlight && MessageOk(net, x);
      }
    }
  }

  /** The network after an enabled event that finds its nodes. */
  ghost predicate Steps(net: Network, peers: map<Address, seq<Address>>, e: Event, t: Network) {
    && Enabled(net, e)
    && (match e
        case Broadcast(node, _) => node in net.seen && node in peers
        case Deliver(m) => m.from in net.seen && m.to in net.seen && m.to in peers)
    && t == Next(net, peers, e)
  }

  ghost predicate Runs(net: Network, peers: map<Address, seq<Address>>, es: seq<Event>, ts: seq<Network>) {
    && |ts| == |es| + 1 && ts[0] == net
    && forall i :: 0 <= i < |es| ==> Steps(ts[i], peers, es[i], ts[i + 1])
  }

  lemma StepKeepsInv(net: Network, peers: map<Address, seq<Address>>, e: Event, t: Network)
    requires Inv(net, peers) && Steps(net, peers, e, t)
    ensures Inv(t, peers)
  {
    match e {
      case Broadcast(node, tx) => BroadcastKeepsInv(net, peers, node, tx);
      case Deliver(m) => DeliverKeepsInv(net, peers, m);
    }
  }

  lemma {:induction false} RunKeepsInv(net: Network, peers: map<Address, seq<Address>>, es: seq<Event>,
                                       ts: seq<Network>, k: nat)
    requires Inv(net, peers) && Runs(net, peers, es, ts) && k <= |es|
    ensures Inv(ts[k], peers)
  {
    if k > 0 {
      RunKeepsInv(net, peers, es, ts, k - 1);
      StepKeepsInv(ts[k - 1], peers, es[k - 1], ts[k]);
    }
  }

  function Empty(peers: map<Address, seq<Address>>): Network {
    Network(map n | n in peers :: map[], multiset{}, map[])
  }

  /** In every run from an empty network, a node's entry for a SegWit transaction is the
      originator's transaction, witnesses included. */
  lemma WitnessesPropagate(peers: map<Address, seq<Address>>, es: seq<Event>, ts: seq<Network>, k: nat, n: Address,
                           h: Hash)
    requires forall n, i :: n in peers && 0 <= i < |peers[n]| ==> peers[n][i] in peers
    requires Runs(Empty(peers), peers, es, ts) && k <= |es|
    ensures Has(ts[k], n, h) ==>
      && h in ts[k].originals
      && var o := ts[k].originals[h];
         (ts[k].seen[n][h].transaction == o.transaction
          <==> o.transaction.segwit || o.origin == n || o.transaction.witnesses == [])
  {
    RunKeepsInv(Empty(peers), peers, es, ts, k);
    assert Faithful(ts[k], n, h);
  }

  /** Every message of every run is stripped, and its sender can answer its receiver's request. */
  lemma WitnessRequestsSucceed(peers: map<Address, seq<Address>>, es: seq<Event>, ts: seq<Network>, k: nat, m: Message)
    requires forall n, i :: n in peers && 0 <= i < |peers[n]| ==> peers[n][i] in peers
    requires Runs(Empty(peers), peers, es, ts) && k <= |es| && m in ts[k].inFlight
    ensures m.transaction.witnesses == [] && m.from in ts[k].seen && m.to in ts[k].seen
    ensures m.transaction.Hash() in ts[k].seen[m.from]
    ensures Received(ts[k].seen[m.to], ts[k].seen[m.from], m.transaction).Some?
  {
    RunKeepsInv(Empty(peers), peers, es, ts, k);
    DeliverySucceeds(ts[k], peers, m);
  }
}
