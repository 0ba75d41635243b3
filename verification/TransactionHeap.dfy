/** The transaction heap: a slice reordered in place by Go's container/heap. */
module TransactionHeap {
  import opened Ledger
  import opened HeapOrder

  /** The transactions of a list before its first nil entry. */
  function BeforeNil(ts: seq<Option<Transaction>>): seq<Transaction> {
    if ts == [] || ts[0].None? then [] else [ts[0].value] + BeforeNil(ts[1..])
  }

  lemma BeforeNilStep(ts: seq<Option<Transaction>>, i: nat, done: seq<Transaction>)
    requires i < |ts| && BeforeNil(ts) == done + BeforeNil(ts[i..])
    ensures ts[i].None? ==> BeforeNil(ts) == done
    ensures ts[i].Some? ==> BeforeNil(ts) == done + [ts[i].value] + BeforeNil(ts[i + 1..])
  {
    assert ts[i..][1..] == ts[i + 1..];
  }

  predicate NoNil(ts: seq<Option<Transaction>>) {
    forall k :: 0 <= k < |ts| ==> ts[k].Some?
  }

  /** The slice and the results when the transactions in `done` have been looked for. */
  ghost predicate Removing(start: seq<HeapNode>, done: seq<Transaction>, nodes: seq<HeapNode>, r: seq<Transaction>,
                           total: uint32) {
    nodes == Left(start, done) && r == Found(start, done) && total == Wrap(Lost(start, done))
  }

  lemma NextFound(start: seq<HeapNode>, done: seq<Transaction>, s: seq<HeapNode>, t: Transaction, r: seq<Transaction>,
                  total: uint32)
    requires Removing(start, done, s, r, total) && Holds(s, t.Hash())
    ensures Removing(start, done + [t], Without(s, t.Hash()), r + [t], Wrap(total + PriorityOf(s, t.Hash())))
  {
    assert (done + [t])[..|done|] == done;
    WrapAdds(Lost(start, done), PriorityOf(s, t.Hash()));
  }

  lemma NextMissing(start: seq<HeapNode>, done: seq<Transaction>, s: seq<HeapNode>, t: Transaction, r: seq<Transaction>,
                    total: uint32)
    requires Removing(start, done, s, r, total) && !Holds(s, t.Hash())
    ensures Removing(start, done + [t], s, r, total)
  {
    assert (done + [t])[..|done|] == done;
    assert r + [] == r;
  }

  class Heap {
    var nodes: seq<HeapNode>

    constructor ()
      ensures nodes == [] && Ordered(nodes)
    {
      nodes := [];
    }

    predicate Less(i: nat, j: nat)
      requires i < |nodes| && j < |nodes|
      reads this
    {
      nodes[i].priority > nodes[j].priority
    }

    /** container/heap: moves node `j0` up to its place. */
    method Up(j0: nat)
      requires j0 < |nodes|
      modifies this
      ensures SameNodes(old(nodes), nodes) && (RisingAt(old(nodes), j0) ==> Ordered(nodes))
    {
      var j: nat := j0;
      ghost var rising := RisingAt(nodes, j0);
      while true
        invariant j < |nodes| && (rising ==> RisingAt(nodes, j)) && SameNodes(old(nodes), nodes)
        decreases j
      {
        var i := if j == 0 then 0 else (j - 1) / 2;
        if i == j || !Less(j, i) {
          break;
        }
        if rising { RisesOne(nodes, j); }
        SwapKeepsNodes(nodes, i, j);
        nodes := Swap(nodes, i, j);
        j := i;
      }
      if rising { RisenIsOrdered(nodes, j); }
    }

    /** The child of node `i` to compare it with. */
    method Larger(i: nat) returns (j: nat)
      requires 2 * i + 1 < |nodes|
      ensures LargerChild(nodes, i, j)
    {
      j := 2 * i + 1;
      if j + 1 < |nodes| && Less(j + 1, j) {
        j := j + 1;
      }
    }

    /** container/heap: moves node `i0` down to its place. */
    method Down(i0: nat)
      requires i0 < |nodes| && OrderedFrom(nodes, i0 + 1)
      modifies this
      ensures OrderedFrom(nodes, i0) && SameNodes(old(nodes), nodes)
    {
      var i := i0;
      while true
        invariant i0 <= i < |nodes| && SinkingAt(nodes, i0, i)
        invariant SameNodes(old(nodes), nodes)
        decreases |nodes| - i
      {
        if 2 * i + 1 >= |nodes| {
          NoChildren(nodes, i);
          break;
        }
        var j := Larger(i);
        if !Less(j, i) {
          ChildrenBelow(nodes, i, j);
          break;
        }
        SinksOne(nodes, i0, i, j);
        SwapKeepsNodes(nodes, i, j);
        nodes := Swap(nodes, i, j);
        i := j;
      }
      SunkIsOrdered(nodes, i0, i);
    }

    /** container/heap: orders the whole slice. */
    method Init()
      modifies this
      ensures Ordered(nodes) && SameNodes(old(nodes), nodes)
    {
      var i := |nodes| / 2;
      while i > 0
        invariant 0 <= i <= |nodes| / 2 && OrderedFrom(nodes, i) && SameNodes(old(nodes), nodes)
      {
        i := i - 1;
        Down(i);
      }
    }

    method Add(p: uint32, t: Option<Transaction>)
      modifies this
      ensures Ordered(old(nodes)) ==> Ordered(nodes)
      ensures t.None? ==> nodes == old(nodes)
      ensures t.Some? ==> SameNodes(old(nodes) + [HeapNode(p, t.value)], nodes)
    {
      if t.None? {
        return;
      }
      if Ordered(nodes) { PushedIsRising(nodes, HeapNode(p, t.value)); }
      nodes := nodes + [HeapNode(p, t.value)];
      Up(|nodes| - 1);
    }

    /** `None` stands for the panic on an empty heap. */
    method GetFirst() returns (first: Option<HeapNode>)
      ensures first.None? <==> nodes == []
      ensures first.Some? ==> first.value == nodes[0]
      ensures first.Some? && Ordered(nodes) ==> forall x :: x in nodes ==> first.value.priority >= x.priority
    {
      if nodes == [] {
        return None;
      }
      forall x | Ordered(nodes) && x in nodes ensures nodes[0].priority >= x.priority {
        var i: nat :| i < |nodes| && nodes[i] == x;
        FirstIsMaximal(nodes, i);
      }
      return Some(nodes[0]);
    }

    method IncrementAll()
      modifies this
      ensures nodes == Incremented(old(nodes))
    {
      for i := 0 to |nodes|
        invariant |nodes| == |old(nodes)|
        invariant forall k :: 0 <= k < i ==> nodes[k] == Incremented(old(nodes))[k]
        invariant forall k :: i <= k < |nodes| ==> nodes[k] == old(nodes)[k]
      {
        nodes := nodes[i := HeapNode(Wrap(nodes[i].priority + 1), nodes[i].transaction)];
      }
    }

    method GetIndex(t: Option<Transaction>) returns (index: nat, isIn: bool)
      ensures t.None? ==> index == 0 && !isIn
      ensures t.Some? ==> (isIn <==> t.value.Hash() in Bag(nodes))
      ensures t.Some? && isIn ==> index < |nodes| && index == Index(nodes, t.value.Hash())
      ensures !isIn ==> index == 0
    {
      if t.None? {
        return 0, false;
      }
      AbsentFromBag(nodes, t.value.Hash());
      IndexIsFirst(nodes, t.value.Hash());
      for i := 0 to |nodes|
        invariant i <= Index(nodes, t.value.Hash())
      {
        if nodes[i].transaction.Hash() == t.value.Hash() {
          return i, true;
        }
      }
      return 0, false;
    }

    method Has(t: Option<Transaction>) returns (has: bool)
      ensures has <==> t.Some? && t.value.Hash() in Bag(nodes)
    {
      if t.None? {
        return false;
      }
      AbsentFromBag(nodes, t.value.Hash());
      IndexIsFirst(nodes, t.value.Hash());
      for i := 0 to |nodes|
        invariant i <= Index(nodes, t.value.Hash())
      {
        if nodes[i].transaction.Hash() == t.value.Hash() {
          return true;
        }
      }
      return false;
    }

    /** Takes out the first node with the transaction's hash by swapping it with the last. */
    method RemoveOne(t: Transaction) returns (isIn: bool, priority: uint32)
      modifies this
      ensures isIn <==> Holds(old(nodes), t.Hash())
      ensures nodes == Without(old(nodes), t.Hash()) && priority == PriorityOf(old(nodes), t.Hash())
    {
      var i;
      i, isIn := GetIndex(Some(t));
      AbsentFromBag(nodes, t.Hash());
      priority := 0;
      if isIn {
        priority := nodes[i].priority;
        nodes := Swap(nodes, i, |nodes| - 1);
        nodes := nodes[..|nodes| - 1];
      }
    }

    method RemoveNext(t: Transaction, r: seq<Transaction>, total: uint32, ghost start: seq<HeapNode>,
                      ghost done: seq<Transaction>)
      returns (r': seq<Transaction>, total': uint32)
      requires Removing(start, done, nodes, r, total)
      modifies this
      ensures Removing(start, done + [t], nodes, r', total')
    {
      ghost var s := nodes;
      var isIn, priority := RemoveOne(t);
      r', total' := r, total;
      if isIn {
        NextFound(start, done, s, t, r, total);
        r', total' := r + [t], Wrap(total + priority);
      } else {
        NextMissing(start, done, s, t, r, total);
      }
    }

    /** The removals, without reordering; `complete` is false if a nil transaction ended them. */
    method RemoveEach(ts: seq<Option<Transaction>>) returns (r: seq<Transaction>, totalPriority: uint32, complete: bool)
      modifies this
      ensures Removing(old(nodes), BeforeNil(ts), nodes, r, totalPriority)
      ensures complete <==> NoNil(ts)
    {
      r, totalPriority := [], 0;
      ghost var start, done := nodes, [];
      for i := 0 to |ts|
        invariant forall k :: 0 <= k < i ==> ts[k].Some?
        invariant BeforeNil(ts) == done + BeforeNil(ts[i..])
        invariant Removing(start, done, nodes, r, totalPriority)
      {
        BeforeNilStep(ts, i, done);
        if ts[i].None? {
          return r, totalPriority, false;
        }
        r, totalPriority := RemoveNext(ts[i].value, r, totalPriority, start, done);
        done := done + [ts[i].value];
      }
      assert done + BeforeNil(ts[|ts|..]) == done;
      complete := true;
    }

    /** A nil transaction in the list ends the removal there, returning no transactions and
        leaving the slice unordered. */
    method Remove(ts: seq<Option<Transaction>>) returns (r: seq<Transaction>, totalPriority: uint32)
      modifies this
      ensures totalPriority == Wrap(Lost(old(nodes), BeforeNil(ts)))
      ensures NoNil(ts) ==> Ordered(nodes) && SameNodes(Left(old(nodes), BeforeNil(ts)), nodes)
      ensures NoNil(ts) ==> r == Found(old(nodes), BeforeNil(ts))
      ensures !NoNil(ts) ==> nodes == Left(old(nodes), BeforeNil(ts)) && r == []
    {
      var complete;
      r, totalPriority, complete := RemoveEach(ts);
      if !complete {
        return [], totalPriority;
      }
      Init();
    }

    method RemoveAboveThreshold(threshold: uint32) returns (rem: seq<Transaction>)
      modifies this
      ensures rem == Above(old(nodes), threshold)
      ensures Ordered(nodes) && SameNodes(Left(old(nodes), rem), nodes)
    {
      rem := [];
      var listed := [];
      for i := 0 to |nodes|
        invariant nodes == old(nodes) && i <= |nodes| && rem == Above(nodes[..i], threshold)
        invariant NoNil(listed) && BeforeNil(listed) == rem
      {
        assert nodes[..i + 1][..i] == nodes[..i];
        if nodes[i].priority >= threshold {
          BeforeNilTail(listed, nodes[i].transaction);
          rem := rem + [nodes[i].transaction];
          listed := listed + [Some(nodes[i].transaction)];
        }
      }
      assert nodes[..|nodes|] == nodes;
      var r, total := Remove(listed);
    }
  }

  lemma {:induction false} BeforeNilTail(ts: seq<Option<Transaction>>, t: Transaction)
    requires NoNil(ts)
    ensures BeforeNil(ts + [Some(t)]) == BeforeNil(ts) + [t]
  {
    if ts == [] {
      assert ts + [Some(t)] == [Some(t)];
    } else {
      BeforeNilTail(ts[1..], t);
      assert (ts + [Some(t)])[1..] == ts[1..] + [Some(t)];
    }
  }
}
