/** Flooding of one block among nodes numbered from 0, with fixed peer lists. */
module BlockFlooding {
  import opened Gossip

  /** Each node's count of the block and number of forwards, and the receivers of the
      messages in flight. */
  datatype Flood = Flood(seen: seq<nat>, forwards: seq<nat>, inFlight: multiset<nat>)

  predicate WellFormed(f: Flood, peers: seq<seq<nat>>) {
    && |f.seen| == |f.forwards| == |peers|
    && (forall n, i :: 0 <= n < |peers| && 0 <= i < |peers[n]| ==> peers[n][i] < |peers|)
    && (forall n :: n in f.inFlight ==> n < |peers|)
  }

  /** Delivery of one message to a node; `valid` is the node's verdict on the block. */
  function Deliver(f: Flood, peers: seq<seq<nat>>, n: nat, valid: bool): Flood
    requires WellFormed(f, peers) && n in f.inFlight
  {
    if valid && RemainingForwards(f.seen[n]) > 0 then
      Flood(f.seen[n := f.seen[n] + 1], f.forwards[n := f.forwards[n] + 1],
            f.inFlight - multiset{n} + multiset(peers[n]))
    else
      Flood(f.seen[n := f.seen[n] + 1], f.forwards, f.inFlight - multiset{n})
  }

  function SumOver(k: nat, f: nat -> nat): nat {
    if k == 0 then 0 else SumOver(k - 1, f) + f(k - 1)
  }

  lemma {:induction false} SumChanges(k: nat, f: nat -> nat, g: nat -> nat, n: nat)
    requires n < k && forall i: nat :: i < k && i != n ==> f(i) == g(i)
    ensures SumOver(k, f) + g(n) == SumOver(k, g) + f(n)
  {
    if n < k - 1 { SumChanges(k - 1, f, g, n); } else { SumSame(k - 1, f, g); }
  }

  lemma {:induction false} SumSame(k: nat, f: nat -> nat, g: nat -> nat)
    requires forall i: nat :: i < k ==> f(i) == g(i)
    ensures SumOver(k, f) == SumOver(k, g)
  {
    if k > 0 { SumSame(k - 1, f, g); }
  }

  function Left(seen: seq<nat>): nat -> nat {
    (i: nat) => if i < |seen| then RemainingForwards(seen[i]) else 0
  }

  /** Messages a node can still send: its peer list once or twice, or nothing. */
  function Sendable(seen: seq<nat>, peers: seq<seq<nat>>): nat -> nat {
    (i: nat) => if i >= |seen| || i >= |peers| || seen[i] >= 2 then 0
                else if seen[i] == 1 then |peers[i]| else 2 * |peers[i]|
  }

  function ListSize(peers: seq<seq<nat>>): nat -> nat {
    (i: nat) => if i < |peers| then |peers[i]| else 0
  }

  /** Forwards still possible, over all nodes. */
  function ForwardsLeft(f: Flood): nat {
    SumOver(|f.seen|, Left(f.seen))
  }

  /** Messages still possible: those in flight, and a peer list for every forward left. */
  function MessagesLeft(f: Flood, peers: seq<seq<nat>>): nat {
    |f.inFlight| + SumOver(|f.seen|, Sendable(f.seen, peers))
  }

  lemma InFlightAfter(f: Flood, peers: seq<seq<nat>>, n: nat, valid: bool)
    requires WellFormed(f, peers) && n in f.inFlight
    ensures var t := Deliver(f, peers, n, valid);
      && WellFormed(t, peers)
      && |t.inFlight| + 1 == |f.inFlight| + (if valid && RemainingForwards(f.seen[n]) > 0 then |peers[n]| else 0)
  {
    var t := Deliver(f, peers, n, valid);
    forall x | x in t.inFlight ensures x < |peers| {
      if x !in f.inFlight { assert x in peers[n]; }
    }
  }

  /** Every delivery uses up a possible message, and decreases the pair of forwards left and
      messages in flight. */
  lemma DeliveryDecreases(f: Flood, peers: seq<seq<nat>>, n: nat, valid: bool)
    requires WellFormed(f, peers) && n in f.inFlight
    ensures var t := Deliver(f, peers, n, valid);
      && MessagesLeft(t, peers) < MessagesLeft(f, peers)
      && (ForwardsLeft(t) < ForwardsLeft(f) || (ForwardsLeft(t) == ForwardsLeft(f) && |t.inFlight| < |f.inFlight|))
  {
    var t, k := Deliver(f, peers, n, valid), |f.seen|;
    InFlightAfter(f, peers, n, valid);
    SumChanges(k, Left(f.seen), Left(t.seen), n);
    SumChanges(k, Sendable(f.seen, peers), Sendable(t.seen, peers), n);
  }

  /** A run of deliveries in any order. */
  ghost predicate Runs(f: Flood, peers: seq<seq<nat>>, ds: seq<(nat, bool)>, t: Flood)
    decreases |ds|
  {
    if ds == [] then f == t
    else
      && WellFormed(f, peers) && ds[0].0 in f.inFlight
      && Runs(Deliver(f, peers, ds[0].0, ds[0].1), peers, ds[1..], t)
  }

  ghost predicate AtMostTwice(f: Flood) {
    |f.seen| == |f.forwards| && forall n :: 0 <= n < |f.seen| ==> f.forwards[n] + RemainingForwards(f.seen[n]) <= 2
  }

  /** However the messages are delivered, each node forwards at most twice, and the run ends
      after at most the initial messages plus a peer list for every forward left. */
  lemma {:induction false} FloodingIsBounded(f: Flood, peers: seq<seq<nat>>, ds: seq<(nat, bool)>, t: Flood)
    requires WellFormed(f, peers) && AtMostTwice(f) && Runs(f, peers, ds, t)
    ensures |ds| + |t.inFlight| <= |ds| + MessagesLeft(t, peers) <= MessagesLeft(f, peers)
    ensures AtMostTwice(t)
    decreases |ds|
  {
    if ds != [] {
      var u := Deliver(f, peers, ds[0].0, ds[0].1);
      InFlightAfter(f, peers, ds[0].0, ds[0].1);
      DeliveryDecreases(f, peers, ds[0].0, ds[0].1);
      FloodingIsBounded(u, peers, ds[1..], t);
    }
  }

  lemma {:induction false} TwicePeerLists(seen: seq<nat>, peers: seq<seq<nat>>, k: nat)
    ensures SumOver(k, Sendable(seen, peers)) <= 2 * SumOver(k, ListSize(peers))
  {
    if k > 0 { TwicePeerLists(seen, peers, k - 1); }
  }

  /** The bound in terms of peer lists: initial messages plus twice all peer-list sizes. */
  lemma TotalMessages(f: Flood, peers: seq<seq<nat>>, ds: seq<(nat, bool)>, t: Flood)
    requires WellFormed(f, peers) && AtMostTwice(f) && Runs(f, peers, ds, t)
    ensures |ds| + |t.inFlight| <= |f.inFlight| + 2 * SumOver(|peers|, ListSize(peers))
    ensures forall n :: 0 <= n < |t.forwards| ==> t.forwards[n] <= 2
  {
    FloodingIsBounded(f, peers, ds, t);
    TwicePeerLists(f.seen, peers, |peers|);
  }

  // ---- A mined block ----

  /** The flood a mined block starts: its node has counted it once and sent it to its peers. */
  function MinedFlood(peers: seq<seq<nat>>, origin: nat): Flood
    requires origin < |peers|
  {
    var counts := seq(|peers|, n => if n == origin then 1 else 0);
    Flood(counts, counts, multiset(peers[origin]))
  }

  function Twice(peers: seq<seq<nat>>): nat -> nat {
    (i: nat) => if i < |peers| then 2 * |peers[i]| else 0
  }

  lemma {:induction false} TwiceTheSum(peers: seq<seq<nat>>, k: nat)
    ensures SumOver(k, Twice(peers)) == 2 * SumOver(k, ListSize(peers))
  {
    if k > 0 { TwiceTheSum(peers, k - 1); }
  }

  /** However a mined block spreads, every node forwards it at most twice, its own node included,
      and all messages together are at most twice the sum of the peer-list sizes. */
  lemma MinedBlockFloods(peers: seq<seq<nat>>, origin: nat, ds: seq<(nat, bool)>, t: Flood)
    requires origin < |peers| && forall n, i :: 0 <= n < |peers| && 0 <= i < |peers[n]| ==> peers[n][i] < |peers|
    requires Runs(MinedFlood(peers, origin), peers, ds, t)
    ensures |ds| + |t.inFlight| <= 2 * SumOver(|peers|, ListSize(peers))
    ensures forall n :: 0 <= n < |t.forwards| ==> t.forwards[n] <= 2
  {
    var f := MinedFlood(peers, origin);
    forall n | n in f.inFlight ensures n < |peers| {
      assert n in peers[origin];
    }
    FloodingIsBounded(f, peers, ds, t);
    SumChanges(|peers|, Sendable(f.seen, peers), Twice(peers), origin);
    TwiceTheSum(peers, |peers|);
  }

  // ---- How far a block spreads ----

  /** A node that finds the block valid at its first or second sight sends it to all its peers. */
  lemma FirstTwoAreForwarded(f: Flood, peers: seq<seq<nat>>, n: nat, valid: bool)
    requires WellFormed(f, peers) && n in f.inFlight
    ensures var t := Deliver(f, peers, n, valid);
      && t.seen == f.seen[n := f.seen[n] + 1]
      && t.forwards[n] == f.forwards[n] + (if valid && f.seen[n] < 2 then 1 else 0)
      && (valid && f.seen[n] < 2 ==> forall p :: p in peers[n] ==> p in t.inFlight)
  {
  }

  ghost predicate ForwardsItsSights(f: Flood) {
    |f.seen| == |f.forwards| &&
    forall n :: 0 <= n < |f.seen| ==> f.forwards[n] == if f.seen[n] < 2 then f.seen[n] else 2
  }

  /** While every delivery finds the block valid, each node has forwarded it once for every sight of
      it up to two. */
  lemma {:induction false} ValidBlocksAreForwarded(f: Flood, peers: seq<seq<nat>>, ds: seq<(nat, bool)>, t: Flood)
    requires WellFormed(f, peers) && ForwardsItsSights(f) && Runs(f, peers, ds, t)
    requires forall k :: 0 <= k < |ds| ==> ds[k].1
    ensures ForwardsItsSights(t)
    decreases |ds|
  {
    if ds != [] {
      InFlightAfter(f, peers, ds[0].0, true);
      FirstTwoAreForwarded(f, peers, ds[0].0, true);
      ValidBlocksAreForwarded(Deliver(f, peers, ds[0].0, true), peers, ds[1..], t);
    }
  }

  /** A mined block is on its way to every peer of its node, which alone has counted and sent it. */
  lemma MinedBlockStarts(peers: seq<seq<nat>>, origin: nat)
    requires origin < |peers|
    ensures var f := MinedFlood(peers, origin);
      && ForwardsItsSights(f) && |f.seen| == |peers|
      && (forall n :: 0 <= n < |peers| ==> f.seen[n] == if n == origin then 1 else 0)
      && forall p :: multiset(peers[origin])[p] == f.inFlight[p]
  {
  }
}
