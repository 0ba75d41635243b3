/** The Merkle root of a block's transactions: the pairing loop against a tree defined top down. */
module Merkle {
  import opened Ledger

  /** Nodes of level `k` over `n` leaves. */
  function Width(n: nat, k: nat): nat {
    if k == 0 then n else (Width(n, k - 1) + 1) / 2
  }

  function Height(n: nat): nat {
    if n <= 1 then 0 else 1 + Height((n + 1) / 2)
  }

  /** Node `i` of level `k`; a node without a right neighbour below is paired with itself. */
  function Node(leaves: seq<Hash>, k: nat, i: nat): Hash
    requires i < Width(|leaves|, k)
  {
    if k == 0 then leaves[i]
    else
      var last := Width(|leaves|, k - 1) - 1;
      OfPair(Node(leaves, k - 1, 2 * i), Node(leaves, k - 1, if 2 * i + 1 <= last then 2 * i + 1 else last))
  }

  function Level(leaves: seq<Hash>, k: nat): seq<Hash> {
    seq(Width(|leaves|, k), i requires 0 <= i < Width(|leaves|, k) => Node(leaves, k, i))
  }

  lemma {:induction false} TopIsOne(n: nat, k: nat)
    requires n > 0 && k <= Height(n)
    ensures Height(Width(n, k)) + k == Height(n) && Width(n, k) > 0
  {
    if k > 0 { TopIsOne(n, k - 1); }
  }

  function Root(leaves: seq<Hash>): Hash
    requires leaves != []
  {
    TopIsOne(|leaves|, Height(|leaves|));
    Node(leaves, Height(|leaves|), 0)
  }

  function Padded<T>(s: seq<T>): seq<T> {
    if |s| % 2 != 0 then s + [s[|s| - 1]] else s
  }

  /** `hashes` is level `k`, possibly already padded. */
  ghost predicate IsLevel(leaves: seq<Hash>, k: nat, hashes: seq<Hash>) {
    hashes == Level(leaves, k) || (hashes == Padded(Level(leaves, k)) && |hashes| > 2)
  }

  method LeafHashes(txs: seq<Transaction>) returns (hashes: seq<Hash>)
    ensures hashes == HashList(txs)
  {
    hashes := [];
    for i := 0 to |txs|
      invariant |hashes| == i && forall k :: 0 <= k < i ==> hashes[k] == txs[k].Hash()
    {
      hashes := hashes + [txs[i].Hash()];
    }
  }

  lemma PaddedLeaves(txs: seq<Transaction>)
    requires |txs| > 1
    ensures IsLevel(HashList(txs), 0, HashList(txs)) && IsLevel(HashList(txs), 0, HashList(Padded(txs)))
  {
    var leaves := HashList(txs);
    assert Level(leaves, 0) == leaves;
    assert HashList(Padded(txs)) == Padded(leaves);
  }

  lemma PaddedLevel(leaves: seq<Hash>, k: nat, hashes: seq<Hash>)
    requires IsLevel(leaves, k, hashes)
    ensures Padded(hashes) == Padded(Level(leaves, k))
  {
  }

  /** The loop does not terminate on an empty list. */
  method CalculateMerkleRoot(transactions: seq<Transaction>) returns (root: Hash)
    requires transactions != []
    ensures root == Root(HashList(transactions))
  {
    var txs := transactions;
    ghost var leaves, k := HashList(transactions), 0;
    if |txs| > 1 {
      PaddedLeaves(transactions);
    } else {
      assert Level(leaves, 0) == leaves;
    }
    if |txs| > 1 && |txs| % 2 != 0 {
      txs := txs + [txs[|txs| - 1]];
    }
    var hashes := LeafHashes(txs);
    while |hashes| != 1
      invariant k <= Height(|leaves|) && IsLevel(leaves, k, hashes) && |hashes| > 0
      decreases |hashes|
    {
      TopIsOne(|leaves|, k);
      PaddedLevel(leaves, k, hashes);
      if |hashes| % 2 != 0 {
        hashes := hashes + [hashes[|hashes| - 1]];
      }
      hashes := PairUp(leaves, k, hashes);
      k := k + 1;
    }
    TopIsOne(|leaves|, k);
    root := hashes[0];
  }

  method PairUp(ghost leaves: seq<Hash>, ghost k: nat, hashes: seq<Hash>) returns (newHashes: seq<Hash>)
    requires hashes == Padded(Level(leaves, k)) && |hashes| > 0
    ensures newHashes == Level(leaves, k + 1) && 2 * |newHashes| == |hashes|
  {
    newHashes := [];
    var i := 0;
    while i < |hashes|
      invariant 0 <= i <= |hashes| && i == 2 * |newHashes|
      invariant forall j :: 0 <= j < |newHashes| ==> newHashes[j] == Node(leaves, k + 1, j)
    {
      newHashes := newHashes + [OfPair(hashes[i], hashes[i + 1])];
      i := i + 2;
    }
  }

  // ---- What the root determines ----

  /** The node of level `k` above leaf `j`. */
  function Above(j: nat, k: nat): nat {
    if k == 0 then j else Above(j, k - 1) / 2
  }

  lemma {:induction false} AboveInLevel(n: nat, j: nat, k: nat)
    requires j < n
    ensures Above(j, k) < Width(n, k)
  {
    if k > 0 { AboveInLevel(n, j, k - 1); }
  }

  /** Equal nodes stand over equal leaves. */
  lemma {:induction false} NodeDeterminesLeaf(a: seq<Hash>, b: seq<Hash>, k: nat, j: nat)
    requires |a| == |b| && j < |a| && Above(j, k) < Width(|a|, k)
    requires Node(a, k, Above(j, k)) == Node(b, k, Above(j, k))
    ensures a[j] == b[j]
  {
    if k > 0 {
      AboveInLevel(|a|, j, k - 1);
      NodeDeterminesLeaf(a, b, k - 1, j);
    }
  }

  /** Lists of equal length have equal roots if and only if they are equal. */
  lemma RootDeterminesLeaves(a: seq<Hash>, b: seq<Hash>)
    requires |a| == |b| > 0
    ensures Root(a) == Root(b) <==> a == b
  {
    if Root(a) == Root(b) {
      forall j | 0 <= j < |a| ensures a[j] == b[j] {
        AboveInLevel(|a|, j, Height(|a|));
        TopIsOne(|a|, Height(|a|));
        NodeDeterminesLeaf(a, b, Height(|a|), j);
      }
    }
  }

  lemma {:induction false} SameAboveLeaves(leaves: seq<Hash>, k: nat, i: nat)
    requires |leaves| % 2 != 0 && k > 0
    ensures Width(|leaves|, k) == Width(|Padded(leaves)|, k)
    ensures i < Width(|leaves|, k) ==> Node(leaves, k, i) == Node(Padded(leaves), k, i)
  {
    if k > 1 {
      var last := Width(|leaves|, k - 1) - 1;
      SameAboveLeaves(leaves, k - 1, 2 * i);
      SameAboveLeaves(leaves, k - 1, if 2 * i + 1 <= last then 2 * i + 1 else if last >= 0 then last else 0);
    }
  }

  /** An odd list longer than one has the root of the list with its last element repeated. */
  lemma OddListRepeatsLast(leaves: seq<Hash>)
    requires |leaves| > 1 && |leaves| % 2 != 0
    ensures Root(leaves + [leaves[|leaves| - 1]]) == Root(leaves)
  {
    assert Padded(leaves) == leaves + [leaves[|leaves| - 1]];
    TopIsOne(|leaves|, Height(|leaves|));
    SameAboveLeaves(leaves, Height(|leaves|), 0);
  }

  // ---- Left and right ----

  /** The next level of the list itself: neighbours in order, the last one with itself. */
  function Paired(leaves: seq<Hash>): seq<Hash> {
    seq((|leaves| + 1) / 2, i requires 0 <= i < (|leaves| + 1) / 2 =>
      OfPair(leaves[2 * i], if 2 * i + 1 < |leaves| then leaves[2 * i + 1] else leaves[2 * i]))
  }

  lemma {:induction false} PairedNodes(leaves: seq<Hash>, k: nat, i: nat)
    requires |leaves| > 1
    ensures Width(|leaves|, k + 1) == Width(|Paired(leaves)|, k)
    ensures i < Width(|leaves|, k + 1) ==> Node(leaves, k + 1, i) == Node(Paired(leaves), k, i)
  {
    if k > 0 {
      var last := Width(|leaves|, k) - 1;
      PairedNodes(leaves, k - 1, 2 * i);
      PairedNodes(leaves, k - 1, if 2 * i + 1 <= last then 2 * i + 1 else if last >= 0 then last else 0);
    }
  }

  /** A single leaf is its own root, two leaves make their pair in order, and any longer list has the
      root of its pairs. */
  lemma RootOfPairs(leaves: seq<Hash>)
    requires leaves != []
    ensures |leaves| == 1 ==> Root(leaves) == leaves[0]
    ensures |leaves| == 2 ==> Root(leaves) == OfPair(leaves[0], leaves[1])
    ensures |leaves| > 1 ==> Root(leaves) == Root(Paired(leaves))
  {
    if |leaves| > 1 {
      TopIsOne(|leaves|, Height(|leaves|));
      PairedNodes(leaves, Height(|leaves|) - 1, 0);
    }
  }
}
