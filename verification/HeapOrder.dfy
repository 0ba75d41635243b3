/** Heaps of transactions as sequences: order, what swaps keep, and what removal takes out. */
module HeapOrder {
  import opened Ledger

  datatype HeapNode = HeapNode(priority: uint32, transaction: Transaction)

  function Parent(j: nat): nat
    requires j > 0
  {
    (j - 1) / 2
  }

  predicate BelowParent(s: seq<HeapNode>, j: nat)
    requires 0 < j < |s|
  {
    s[Parent(j)].priority >= s[j].priority
  }

  predicate BelowGrandparent(s: seq<HeapNode>, j: nat)
    requires 0 < j < |s| && Parent(j) > 0
  {
    s[Parent(Parent(j))].priority >= s[j].priority
  }

  /** Max-heap order among the nodes whose parent is at or after `lo`. */
  ghost predicate OrderedFrom(s: seq<HeapNode>, lo: nat) {
    forall j: nat :: 0 < j < |s| && Parent(j) >= lo ==> BelowParent(s, j)
  }

  ghost predicate Ordered(s: seq<HeapNode>) {
    OrderedFrom(s, 0)
  }

  lemma {:induction false} FirstIsMaximal(s: seq<HeapNode>, i: nat)
    requires Ordered(s) && i < |s|
    ensures s[0].priority >= s[i].priority
  {
    if i > 0 {
      assert BelowParent(s, i);
      FirstIsMaximal(s, Parent(i));
    }
  }

  // ---- What a heap holds ----

  function Sum(s: seq<HeapNode>): nat {
    if s == [] then 0 else Sum(s[..|s| - 1]) + s[|s| - 1].priority
  }

  function Bag(s: seq<HeapNode>): multiset<Hash> {
    if s == [] then multiset{} else Bag(s[..|s| - 1]) + multiset{s[|s| - 1].transaction.Hash()}
  }

  ghost predicate SameNodes(s: seq<HeapNode>, t: seq<HeapNode>) {
    |s| == |t| && multiset(s) == multiset(t) && Sum(s) == Sum(t) && Bag(s) == Bag(t)
  }

  function Swap(s: seq<HeapNode>, i: nat, j: nat): seq<HeapNode>
    requires i < |s| && j < |s|
  {
    s[i := s[j]][j := s[i]]
  }

  function Is(x: HeapNode, h: Hash): nat {
    if x.transaction.Hash() == h then 1 else 0
  }

  lemma {:induction false} UpdatedSum(s: seq<HeapNode>, i: nat, x: HeapNode)
    requires i < |s|
    ensures Sum(s[i := x]) + s[i].priority == Sum(s) + x.priority
  {
    var front, t := s[..|s| - 1], s[i := x];
    if i < |front| {
      UpdatedSum(front, i, x);
      assert t[..|t| - 1] == front[i := x];
    } else {
      assert t[..|t| - 1] == front;
    }
  }

  function HashCount(s: seq<HeapNode>, h: Hash): nat {
    if s == [] then 0 else HashCount(s[..|s| - 1], h) + Is(s[|s| - 1], h)
  }

  lemma {:induction false} BagCounts(s: seq<HeapNode>, h: Hash)
    ensures Bag(s)[h] == HashCount(s, h)
  {
    if s != [] { BagCounts(s[..|s| - 1], h); }
  }

  lemma {:induction false} UpdatedCount(s: seq<HeapNode>, i: nat, x: HeapNode, h: Hash)
    requires i < |s|
    ensures HashCount(s[i := x], h) + Is(s[i], h) == HashCount(s, h) + Is(x, h)
  {
    var front, t := s[..|s| - 1], s[i := x];
    if i < |front| {
      UpdatedCount(front, i, x, h);
      assert t[..|t| - 1] == front[i := x];
    } else {
      assert t[..|t| - 1] == front;
    }
  }

  lemma SwapKeepsCount(s: seq<HeapNode>, i: nat, j: nat, h: Hash)
    requires i < |s| && j < |s|
    ensures HashCount(s, h) == HashCount(Swap(s, i, j), h)
  {
    UpdatedCount(s, i, s[j], h);
    UpdatedCount(s[i := s[j]], j, s[i], h);
  }

  lemma SwapKeepsSum(s: seq<HeapNode>, i: nat, j: nat)
    requires i < |s| && j < |s|
    ensures Sum(s) == Sum(Swap(s, i, j))
  {
    UpdatedSum(s, i, s[j]);
    UpdatedSum(s[i := s[j]], j, s[i]);
  }

  lemma SwapPermutes(s: seq<HeapNode>, i: nat, j: nat)
    requires i < |s| && j < |s|
    ensures multiset(s) == multiset(Swap(s, i, j))
  {
  }

  lemma SwapKeepsNodes(s: seq<HeapNode>, i: nat, j: nat)
    requires i < |s| && j < |s|
    ensures SameNodes(s, Swap(s, i, j))
  {
    SwapPermutes(s, i, j);
    SwapKeepsSum(s, i, j);
    forall h: Hash ensures Bag(s)[h] == Bag(Swap(s, i, j))[h] {
      SwapKeepsCount(s, i, j, h);
      BagCounts(s, h);
      BagCounts(Swap(s, i, j), h);
    }
  }

  // ---- Sifting ----

  /** Ordered but for node `j`, which may be larger than its parent. */
  ghost predicate RisingAt(s: seq<HeapNode>, j: nat) {
    && (forall c: nat :: 0 < c < |s| && c != j ==> BelowParent(s, c))
    && (forall c: nat :: 0 < c < |s| && Parent(c) == j && j > 0 ==> BelowGrandparent(s, c))
  }

  lemma RisesOne(s: seq<HeapNode>, j: nat)
    requires 0 < j < |s| && RisingAt(s, j) && s[j].priority > s[Parent(j)].priority
    ensures RisingAt(Swap(s, Parent(j), j), Parent(j))
  {
    var i := Parent(j);
    var t := Swap(s, i, j);
    forall c: nat | 0 < c < |t| && c != i ensures BelowParent(t, c) {
      if c != j { assert BelowParent(s, c); }
      if Parent(c) == j { assert BelowGrandparent(s, c); }
    }
    forall c: nat | 0 < c < |t| && Parent(c) == i && i > 0 ensures BelowGrandparent(t, c) {
      assert BelowParent(s, i);
      if c != j { assert BelowParent(s, c); }
    }
  }

  lemma RisenIsOrdered(s: seq<HeapNode>, j: nat)
    requires j < |s| && RisingAt(s, j) && (j == 0 || BelowParent(s, j))
    ensures Ordered(s)
  {
    forall c: nat | 0 < c < |s| ensures BelowParent(s, c) {}
  }

  lemma PushedIsRising(s: seq<HeapNode>, x: HeapNode)
    requires Ordered(s)
    ensures RisingAt(s + [x], |s|)
  {
    var t := s + [x];
    forall c: nat | 0 < c < |t| && c != |s| ensures BelowParent(t, c) {
      assert BelowParent(s, c);
    }
  }

  /** Ordered from `lo` but for node `i`, which may be smaller than its children. */
  ghost predicate SinkingAt(s: seq<HeapNode>, lo: nat, i: nat) {
    && (forall c: nat :: 0 < c < |s| && Parent(c) >= lo && Parent(c) != i ==> BelowParent(s, c))
    && (forall c: nat :: 0 < c < |s| && Parent(c) == i && i > 0 && Parent(i) >= lo ==> BelowGrandparent(s, c))
  }

  /** `j` is a child of `i` and no child of `i` is larger. */
  predicate LargerChild(s: seq<HeapNode>, i: nat, j: nat) {
    && 0 < j < |s| && Parent(j) == i
    && s[j].priority >= s[2 * i + 1].priority
    && (2 * i + 2 < |s| ==> s[j].priority >= s[2 * i + 2].priority)
  }

  lemma SinksOne(s: seq<HeapNode>, lo: nat, i: nat, j: nat)
    requires lo <= i && SinkingAt(s, lo, i) && LargerChild(s, i, j) && s[j].priority > s[i].priority
    ensures SinkingAt(Swap(s, i, j), lo, j)
  {
    var t := Swap(s, i, j);
    forall c: nat | 0 < c < |t| && Parent(c) >= lo && Parent(c) != j ensures BelowParent(t, c) {
      if Parent(c) == i {
        assert c == 2 * i + 1 || c == 2 * i + 2;
      } else {
        assert BelowParent(s, c);
        if c == i { assert BelowGrandparent(s, j); }
      }
    }
    forall c: nat | 0 < c < |t| && Parent(c) == j && Parent(j) >= lo ensures BelowGrandparent(t, c) {
      assert BelowParent(s, c);
    }
  }

  ghost predicate AboveChildren(s: seq<HeapNode>, i: nat) {
    forall c: nat :: 0 < c < |s| && Parent(c) == i ==> BelowParent(s, c)
  }

  lemma NoChildren(s: seq<HeapNode>, i: nat)
    requires 2 * i + 1 >= |s|
    ensures AboveChildren(s, i)
  {
  }

  lemma ChildrenBelow(s: seq<HeapNode>, i: nat, j: nat)
    requires i < |s| && LargerChild(s, i, j) && s[i].priority >= s[j].priority
    ensures AboveChildren(s, i)
  {
    forall c: nat | 0 < c < |s| && Parent(c) == i ensures BelowParent(s, c) {
      assert c == 2 * i + 1 || c == 2 * i + 2;
    }
  }

  lemma SunkIsOrdered(s: seq<HeapNode>, lo: nat, i: nat)
    requires i < |s| && SinkingAt(s, lo, i) && AboveChildren(s, i)
    ensures OrderedFrom(s, lo)
  {
    forall c: nat | 0 < c < |s| && Parent(c) >= lo ensures BelowParent(s, c) {}
  }

  // ---- Removal ----

  /** The first node with the hash, or the length of the sequence. */
  function Index(s: seq<HeapNode>, h: Hash): (i: nat)
    ensures i <= |s|
  {
    if s == [] then 0
    else
      var i := Index(s[..|s| - 1], h);
      if i < |s| - 1 || s[|s| - 1].transaction.Hash() == h then i else i + 1
  }

  lemma {:induction false} IndexIsFirst(s: seq<HeapNode>, h: Hash)
    ensures Index(s, h) < |s| ==> s[Index(s, h)].transaction.Hash() == h
    ensures forall k :: 0 <= k < Index(s, h) ==> s[k].transaction.Hash() != h
  {
    if s != [] { IndexIsFirst(s[..|s| - 1], h); }
  }

  function Out(s: seq<HeapNode>, i: nat): seq<HeapNode>
    requires i < |s|
  {
    Swap(s, i, |s| - 1)[..|s| - 1]
  }

  predicate Holds(s: seq<HeapNode>, h: Hash) {
    Index(s, h) < |s|
  }

  function Without(s: seq<HeapNode>, h: Hash): seq<HeapNode> {
    if Holds(s, h) then Out(s, Index(s, h)) else s
  }

  function PriorityOf(s: seq<HeapNode>, h: Hash): uint32 {
    if Holds(s, h) then s[Index(s, h)].priority else 0
  }

  /** The nodes left when one node is looked for, for each transaction in turn. */
  function Left(s: seq<HeapNode>, ts: seq<Transaction>): seq<HeapNode> {
    if ts == [] then s else Without(Left(s, ts[..|ts| - 1]), ts[|ts| - 1].Hash())
  }

  /** The transactions for which a node was found. */
  function Found(s: seq<HeapNode>, ts: seq<Transaction>): seq<Transaction> {
    if ts == [] then []
    else
      var front, last := ts[..|ts| - 1], ts[|ts| - 1];
      Found(s, front) + if Holds(Left(s, front), last.Hash()) then [last] else []
  }

  /** The priorities of the nodes that were found, added up. */
  function Lost(s: seq<HeapNode>, ts: seq<Transaction>): nat {
    if ts == [] then 0
    else Lost(s, ts[..|ts| - 1]) + PriorityOf(Left(s, ts[..|ts| - 1]), ts[|ts| - 1].Hash())
  }

  function Hashes(ts: seq<Transaction>): multiset<Hash> {
    if ts == [] then multiset{} else Hashes(ts[..|ts| - 1]) + multiset{ts[|ts| - 1].Hash()}
  }

  lemma OutTakesOne(s: seq<HeapNode>, i: nat)
    requires i < |s|
    ensures |Out(s, i)| == |s| - 1
    ensures Sum(Out(s, i)) + s[i].priority == Sum(s)
    ensures multiset(Out(s, i)) + multiset{s[i]} == multiset(s)
  {
    SwapKeepsNodes(s, i, |s| - 1);
    var t := Swap(s, i, |s| - 1);
    assert t == Out(s, i) + [s[i]];
  }

  lemma OutCounts(s: seq<HeapNode>, i: nat, h: Hash)
    requires i < |s|
    ensures HashCount(Out(s, i), h) + Is(s[i], h) == HashCount(s, h)
  {
    SwapKeepsCount(s, i, |s| - 1, h);
    var t := Swap(s, i, |s| - 1);
    assert t == Out(s, i) + [s[i]];
    assert t[..|t| - 1] == Out(s, i);
  }

  lemma {:induction false} AbsentFromBag(s: seq<HeapNode>, h: Hash)
    ensures h in Bag(s) <==> Holds(s, h)
  {
    if s != [] { AbsentFromBag(s[..|s| - 1], h); }
  }

  function ListCount(ts: seq<Transaction>, h: Hash): nat {
    if ts == [] then 0 else ListCount(ts[..|ts| - 1], h) + if ts[|ts| - 1].Hash() == h then 1 else 0
  }

  lemma {:induction false} HashesCount(ts: seq<Transaction>, h: Hash)
    ensures Hashes(ts)[h] == ListCount(ts, h)
  {
    if ts != [] { HashesCount(ts[..|ts| - 1], h); }
  }

  lemma ListTail(ts: seq<Transaction>, t: Transaction, h: Hash)
    ensures ListCount(ts + [t], h) == ListCount(ts, h) + if t.Hash() == h then 1 else 0
  {
    assert (ts + [t])[..|ts|] == ts;
  }

  predicate Hits(s: seq<HeapNode>, t: Transaction, h: Hash) {
    t.Hash() == h && HashCount(s, h) > 0
  }

  lemma WithoutCounts(s: seq<HeapNode>, t: Transaction, h: Hash)
    ensures HashCount(Without(s, t.Hash()), h) == HashCount(s, h) - if Hits(s, t, h) then 1 else 0
  {
    AbsentFromBag(s, t.Hash());
    BagCounts(s, t.Hash());
    IndexIsFirst(s, t.Hash());
    if Holds(s, t.Hash()) { OutCounts(s, Index(s, t.Hash()), h); }
  }

  lemma LeftCounts(s: seq<HeapNode>, ts: seq<Transaction>, t: Transaction, h: Hash)
    ensures HashCount(Left(s, ts + [t]), h) == HashCount(Left(s, ts), h) - if Hits(Left(s, ts), t, h) then 1 else 0
  {
    assert (ts + [t])[..|ts|] == ts;
    WithoutCounts(Left(s, ts), t, h);
  }

  lemma FoundCounts(s: seq<HeapNode>, ts: seq<Transaction>, t: Transaction, h: Hash)
    ensures ListCount(Found(s, ts + [t]), h) == ListCount(Found(s, ts), h) + if Hits(Left(s, ts), t, h) then 1 else 0
  {
    assert (ts + [t])[..|ts|] == ts;
    AbsentFromBag(Left(s, ts), t.Hash());
    BagCounts(Left(s, ts), t.Hash());
    if Holds(Left(s, ts), t.Hash()) {
      ListTail(Found(s, ts), t, h);
    } else {
      assert Found(s, ts + [t]) == Found(s, ts);
    }
  }

  function Surplus(m: nat, n: nat): nat {
    if n <= m then m - n else 0
  }

  /** The counts of one hash: in the heap, in the list, left and found. */
  lemma {:induction false} RemovalCounts(s: seq<HeapNode>, ts: seq<Transaction>, h: Hash)
    ensures HashCount(Left(s, ts), h) == Surplus(HashCount(s, h), ListCount(ts, h))
    ensures ListCount(Found(s, ts), h) == HashCount(s, h) - Surplus(HashCount(s, h), ListCount(ts, h))
  {
    if ts != [] {
      var front, last := ts[..|ts| - 1], ts[|ts| - 1];
      RemovalCounts(s, front, h);
      assert front + [last] == ts;
      ListTail(front, last, h);
      LeftCounts(s, front, last, h);
      FoundCounts(s, front, last, h);
    }
  }

  lemma {:induction false} RemovalLengths(s: seq<HeapNode>, ts: seq<Transaction>)
    ensures |Left(s, ts)| + |Found(s, ts)| == |s|
  {
    if ts != [] { RemovalLengths(s, ts[..|ts| - 1]); }
  }

  /** One node goes per listed occurrence of its hash, while there is one: as bags of hashes,
      the heap loses the list and what is found is what both have. */
  lemma RemovalIsExact(s: seq<HeapNode>, ts: seq<Transaction>)
    ensures Bag(Left(s, ts)) == Bag(s) - Hashes(ts)
    ensures Hashes(Found(s, ts)) == Bag(s) * Hashes(ts)
    ensures |Left(s, ts)| + |Found(s, ts)| == |s|
  {
    RemovalLengths(s, ts);
    forall h: Hash
      ensures Bag(Left(s, ts))[h] == (Bag(s) - Hashes(ts))[h] && Hashes(Found(s, ts))[h] == (Bag(s) * Hashes(ts))[h]
    {
      RemovalCounts(s, ts, h);
      BagCounts(s, h);
      BagCounts(Left(s, ts), h);
      HashesCount(ts, h);
      HashesCount(Found(s, ts), h);
    }
  }

  lemma WithoutAreNodes(s: seq<HeapNode>, h: Hash)
    ensures multiset(Without(s, h)) <= multiset(s) && Sum(Without(s, h)) + PriorityOf(s, h) == Sum(s)
  {
    if Holds(s, h) { OutTakesOne(s, Index(s, h)); }
  }

  /** What is left and what was lost add up to what there was. */
  lemma {:induction false} LeftAreNodes(s: seq<HeapNode>, ts: seq<Transaction>)
    ensures multiset(Left(s, ts)) <= multiset(s) && Sum(Left(s, ts)) + Lost(s, ts) == Sum(s)
  {
    if ts != [] {
      LeftAreNodes(s, ts[..|ts| - 1]);
      WithoutAreNodes(Left(s, ts[..|ts| - 1]), ts[|ts| - 1].Hash());
    }
  }

  // ---- Thresholds ----

  function Above(s: seq<HeapNode>, threshold: uint32): seq<Transaction> {
    if s == [] then []
    else Above(s[..|s| - 1], threshold) + if s[|s| - 1].priority >= threshold then [s[|s| - 1].transaction] else []
  }

  /** No two nodes of one hash on different sides of the threshold; so in particular with
      pairwise distinct hashes. */
  ghost predicate SidesAgree(s: seq<HeapNode>, threshold: uint32) {
    forall i, j :: 0 <= i < |s| && 0 <= j < |s| && s[i].transaction.Hash() == s[j].transaction.Hash() ==>
      (s[i].priority >= threshold <==> s[j].priority >= threshold)
  }

  lemma {:induction false} AboveHashes(s: seq<HeapNode>, threshold: uint32, h: Hash, high: bool)
    requires forall i :: 0 <= i < |s| && s[i].transaction.Hash() == h ==> (s[i].priority >= threshold <==> high)
    ensures Hashes(Above(s, threshold))[h] == if high then Bag(s)[h] else 0
  {
    if s != [] {
      var front := s[..|s| - 1];
      AboveHashes(front, threshold, h, high);
      var all := Above(s, threshold);
      if s[|s| - 1].priority >= threshold {
        assert all[..|all| - 1] == Above(front, threshold);
      } else {
        assert all == Above(front, threshold);
      }
    }
  }

  lemma HashInBag(s: seq<HeapNode>, i: nat)
    requires i < |s|
    ensures s[i].transaction.Hash() in Bag(s)
  {
    AbsentFromBag(s, s[i].transaction.Hash());
  }

  lemma NodeAmong(s: seq<HeapNode>, t: seq<HeapNode>, i: nat) returns (j: nat)
    requires multiset(t) <= multiset(s) && i < |t|
    ensures j < |s| && s[j] == t[i]
  {
    assert t[i] in multiset(t);
    assert t[i] in multiset(s);
    assert t[i] in s;
    j :| j < |s| && s[j] == t[i];
  }

  /** Removing the transactions at or above the threshold leaves no node there. */
  lemma NoneAboveLeft(s: seq<HeapNode>, threshold: uint32, i: nat)
    requires SidesAgree(s, threshold) && i < |Left(s, Above(s, threshold))|
    ensures Left(s, Above(s, threshold))[i].priority < threshold
  {
    var ts := Above(s, threshold);
    var t := Left(s, ts);
    RemovalIsExact(s, ts);
    LeftAreNodes(s, ts);
    HashInBag(t, i);
    var j := NodeAmong(s, t, i);
    var h := t[i].transaction.Hash();
    if t[i].priority >= threshold {
      AboveHashes(s, threshold, h, true);
    }
  }

  lemma BelowStaysOne(s: seq<HeapNode>, t: seq<HeapNode>, threshold: uint32, h: Hash, x: HeapNode)
    requires SidesAgree(s, threshold) && x.priority < threshold && multiset(t) <= multiset(s)
    requires Hashes(Above(s, threshold))[h] > 0
    ensures multiset(Without(t, h))[x] == multiset(t)[x]
  {
    var i := Index(t, h);
    if i < |t| {
      OutTakesOne(t, i);
      IndexIsFirst(t, h);
      var j := NodeAmong(s, t, i);
      if s[j].priority < threshold { AboveHashes(s, threshold, h, false); }
    }
  }

  lemma {:induction false} BelowStays(s: seq<HeapNode>, threshold: uint32, ts: seq<Transaction>, x: HeapNode)
    requires SidesAgree(s, threshold) && x.priority < threshold
    requires forall k :: 0 <= k < |ts| ==> Hashes(Above(s, threshold))[ts[k].Hash()] > 0
    ensures multiset(Left(s, ts))[x] == multiset(s)[x]
  {
    if ts != [] {
      var front, h := ts[..|ts| - 1], ts[|ts| - 1].Hash();
      BelowStays(s, threshold, front, x);
      LeftAreNodes(s, front);
      BelowStaysOne(s, Left(s, front), threshold, h, x);
    }
  }

  lemma {:induction false} ListedIsHashed(ts: seq<Transaction>, k: nat)
    requires k < |ts|
    ensures Hashes(ts)[ts[k].Hash()] > 0
  {
    if k < |ts| - 1 { ListedIsHashed(ts[..|ts| - 1], k); }
  }

  /** After a threshold removal exactly the nodes below the threshold are left. */
  lemma ThresholdIsExact(s: seq<HeapNode>, threshold: uint32, x: HeapNode)
    requires SidesAgree(s, threshold)
    ensures multiset(Left(s, Above(s, threshold)))[x] == if x.priority < threshold then multiset(s)[x] else 0
  {
    var ts := Above(s, threshold);
    var t := Left(s, ts);
    if x.priority < threshold {
      forall k | 0 <= k < |ts| ensures Hashes(ts)[ts[k].Hash()] > 0 { ListedIsHashed(ts, k); }
      BelowStays(s, threshold, ts, x);
    } else if x in multiset(t) {
      assert x in t;
      var i: nat :| i < |t| && t[i] == x;
      NoneAboveLeft(s, threshold, i);
    }
  }

  // ---- Increments ----

  function Incremented(s: seq<HeapNode>): seq<HeapNode> {
    seq(|s|, i requires 0 <= i < |s| => HeapNode(Wrap(s[i].priority + 1), s[i].transaction))
  }

  /** Incrementing every priority keeps the order unless the largest wraps around, and then only
      when all of them do. */
  lemma IncrementKeepsOrder(s: seq<HeapNode>)
    requires Ordered(s) && s != []
    ensures Ordered(Incremented(s)) <==>
      s[0].priority < U32_LIMIT - 1 || (forall i :: 0 <= i < |s| ==> s[i].priority == U32_LIMIT - 1)
  {
    var t := Incremented(s);
    if s[0].priority < U32_LIMIT - 1 {
      forall j: nat | 0 < j < |t| ensures BelowParent(t, j) {
        assert BelowParent(s, j);
        FirstIsMaximal(s, Parent(j));
      }
    } else {
      if Ordered(t) {
        forall i | 0 <= i < |s| ensures s[i].priority == U32_LIMIT - 1 { FirstIsMaximal(t, i); }
      }
      if forall i :: 0 <= i < |s| ==> s[i].priority == U32_LIMIT - 1 { AllWrapped(s); }
    }
  }

  lemma AllWrapped(s: seq<HeapNode>)
    requires forall i :: 0 <= i < |s| ==> s[i].priority == U32_LIMIT - 1
    ensures Ordered(Incremented(s))
  {
    var t := Incremented(s);
    forall j: nat | 0 < j < |t| ensures BelowParent(t, j) { assert t[j].priority == 0; }
  }
}
