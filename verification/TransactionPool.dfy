/** The miner's transaction pool: counters beside a heap, and how they stay in step with it. */
module TransactionPool {
  import opened Ledger
  import opened HeapOrder
  import opened TransactionHeap
  import opened Arithmetic
  import Mining

  // ---- Priorities ----

  /** The bytes the source counts for a transaction, in 32 bits: fixed sizes of headers, not of
      contents. */
  function Size(t: Transaction): uint32 {
    Wrap(44 * |t.inputs| + 28 * |t.outputs| + 8)
  }

  function FeesOf(t: Transaction, sumInputs: uint32): uint32 {
    Wrap(sumInputs - Wrap(Mining.OutputSum(t, |t.outputs|)))
  }

  function AtLeastOne(p: nat): nat {
    if p == 0 then 1 else p
  }

  /** `None` is the panic of dividing by a size that wrapped around to zero. */
  function Priority(t: Transaction, sumInputs: uint32): Option<uint32> {
    var hundredfold := Wrap(FeesOf(t, sumInputs) * 100);
    if Size(t) == 0 then None
    else
      QuotientAtMost(hundredfold, Size(t));
      Some(AtLeastOne(Quotient(hundredfold, Size(t))))
  }

  lemma FeesFit(t: Transaction, sumInputs: uint32)
    requires var out := Mining.OutputSum(t, |t.outputs|); out <= sumInputs && (sumInputs - out) * 100 < U32_LIMIT
    ensures Wrap(FeesOf(t, sumInputs) * 100) == (sumInputs - Mining.OutputSum(t, |t.outputs|)) * 100
  {
    var out := Mining.OutputSum(t, |t.outputs|);
    WrapFits(out);
    WrapFits(sumInputs - out);
    WrapFits((sumInputs - out) * 100);
  }

  /** Without overflow the priority is the fee per hundred bytes, rounded down, but at least one. */
  lemma PriorityIsFeeRate(t: Transaction, sumInputs: uint32)
    requires var out := Mining.OutputSum(t, |t.outputs|); out <= sumInputs && (sumInputs - out) * 100 < U32_LIMIT
    requires 44 * |t.inputs| + 28 * |t.outputs| + 8 < U32_LIMIT
    ensures var fee := sumInputs - Mining.OutputSum(t, |t.outputs|);
      var rate := fee * 100 / (44 * |t.inputs| + 28 * |t.outputs| + 8);
      Priority(t, sumInputs) == Some(if rate == 0 then 1 else rate)
  {
    FeesFit(t, sumInputs);
    WrapFits(44 * |t.inputs| + 28 * |t.outputs| + 8);
    QuotientIsDivision((sumInputs - Mining.OutputSum(t, |t.outputs|)) * 100, 44 * |t.inputs| + 28 * |t.outputs| + 8);
  }

  method Divide(x: uint32, d: uint32) returns (q: uint32)
    requires d > 0
    ensures q == Quotient(x, d)
  {
    QuotientIsDivision(x, d);
    QuotientAtMost(x, d);
    var r: int := x / d;
    q := r;
  }

  method CalculatePriority(t: Option<Transaction>, sumInputs: uint32) returns (pri: Option<uint32>)
    ensures t.None? ==> pri == Some(0)
    ensures t.Some? ==> pri == Priority(t.value, sumInputs)
  {
    if t.None? {
      return Some(0);
    }
    var outputs := Mining.SumOutputs(t.value);
    var fees: int := Wrap(sumInputs - outputs);
    var sz := Size(t.value);
    if sz == 0 {
      return None;
    }
    var rate := Divide(Wrap(fees * 100), sz);
    pri := Some(if rate == 0 then 1 else rate);
  }

  // ---- Steps of the pool ----

  /** Subtraction in 32 bits. */
  function Minus(x: uint32, y: uint32): uint32 {
    Wrap(x - y)
  }

  datatype Pool = Pool(nodes: seq<HeapNode>, count: uint32, priority: uint32)

  const NEW_POOL := Pool([], 0, 0)

  datatype Op = AddOp(t: Option<Transaction>, sumInputs: uint32) | CheckOp(txs: seq<Option<Transaction>>)

  /** What adding a transaction does; the order of the heap is whatever sifting makes it. */
  ghost predicate Adds(capacity: uint32, p: Pool, t: Option<Transaction>, sumInputs: uint32, p': Pool) {
    if t.None? || p.count >= capacity || Priority(t.value, sumInputs).None? then p' == p
    else
      var pri := Priority(t.value, sumInputs).value;
      && SameNodes(p.nodes + [HeapNode(pri, t.value)], p'.nodes)
      && (Ordered(p.nodes) ==> Ordered(p'.nodes))
      && p'.count == Wrap(p.count + 1) && p'.priority == Wrap(p.priority + pri)
  }

  function CountAfter(p: Pool, complete: bool, found: nat): uint32 {
    if complete then Minus(p.count, Wrap(found)) else p.count
  }

  /** What checking against a block's transactions does. */
  ghost predicate Checks(p: Pool, txs: seq<Option<Transaction>>, p': Pool) {
    var ts := BeforeNil(txs);
    && p'.priority == Minus(p.priority, Wrap(Lost(p.nodes, ts)))
    && (NoNil(txs) ==> Ordered(p'.nodes) && SameNodes(Left(p.nodes, ts), p'.nodes))
    && (!NoNil(txs) ==> p'.nodes == Left(p.nodes, ts))
    && p'.count == CountAfter(p, NoNil(txs), |Found(p.nodes, ts)|)
  }

  ghost predicate Steps(capacity: uint32, p: Pool, op: Op, p': Pool) {
    match op
    case AddOp(t, sumInputs) => Adds(capacity, p, t, sumInputs, p')
    case CheckOp(txs) => Checks(p, txs, p')
  }

  /** The counters in step with the heap. */
  ghost predicate Agrees(capacity: uint32, p: Pool) {
    && Ordered(p.nodes)
    && p.count == |p.nodes| <= capacity
    && p.priority == Wrap(Sum(p.nodes))
  }

  lemma AddAgrees(capacity: uint32, p: Pool, t: Option<Transaction>, sumInputs: uint32, p': Pool)
    requires Agrees(capacity, p) && Adds(capacity, p, t, sumInputs, p')
    ensures Agrees(capacity, p')
  {
    if t.Some? && p.count < capacity && Priority(t.value, sumInputs).Some? {
      var x := HeapNode(Priority(t.value, sumInputs).value, t.value);
      PushedSum(p.nodes, x);
    }
  }

  /** A transaction is taken in exactly when there is one, there is room, and its size does not wrap
      around to zero; the heap then holds it beside what it held. */
  lemma AddsExactly(capacity: uint32, p: Pool, t: Option<Transaction>, sumInputs: uint32, p': Pool)
    requires Agrees(capacity, p) && Adds(capacity, p, t, sumInputs, p')
    ensures if t.Some? && |p.nodes| < capacity && Wrap(44 * |t.value.inputs| + 28 * |t.value.outputs| + 8) != 0
            then |p'.nodes| == |p.nodes| + 1 &&
                 exists x :: multiset(p'.nodes) == multiset(p.nodes) + multiset{x} && x.transaction == t.value
            else p' == p
  {
    if t.Some? && p.count < capacity && Priority(t.value, sumInputs).Some? {
      var x := HeapNode(Priority(t.value, sumInputs).value, t.value);
      assert multiset(p'.nodes) == multiset(p.nodes + [x]) == multiset(p.nodes) + multiset{x};
    }
  }

  lemma PushedSum(nodes: seq<HeapNode>, x: HeapNode)
    ensures |nodes + [x]| == |nodes| + 1 && Wrap(Sum(nodes + [x])) == Wrap(Wrap(Sum(nodes)) + x.priority)
  {
    assert (nodes + [x])[..|nodes|] == nodes;
    WrapAdds(Sum(nodes), x.priority);
  }

  lemma RestOfSum(left: nat, lost: nat, sum: nat)
    requires left + lost == sum
    ensures Minus(Wrap(sum), Wrap(lost)) == Wrap(left)
  {
    WrapTakes(sum, lost);
  }

  /** The cumulative priority follows every check, with or without nil transactions. */
  lemma CheckKeepsPriority(p: Pool, txs: seq<Option<Transaction>>, p': Pool)
    requires p.priority == Wrap(Sum(p.nodes)) && Checks(p, txs, p')
    ensures p'.priority == Wrap(Sum(p'.nodes))
  {
    var ts := BeforeNil(txs);
    LeftAreNodes(p.nodes, ts);
    RestOfSum(Sum(Left(p.nodes, ts)), Lost(p.nodes, ts), Sum(p.nodes));
    assert Sum(p'.nodes) == Sum(Left(p.nodes, ts));
  }

  lemma CountOfRemoved(p: Pool, complete: bool, found: nat, removed: nat)
    requires removed == if complete then found else 0
    ensures Minus(p.count, Wrap(removed)) == CountAfter(p, complete, found)
  {
  }

  lemma CountIsExact(p: Pool, complete: bool, found: nat)
    requires found <= p.count
    ensures CountAfter(p, complete, found) == p.count - found <==> complete || found == 0
  {
  }

  /** The count still is the heap's length after a check if and only if the list had no nil
      transaction, or nothing was found before the first one. */
  lemma CheckKeepsCountExactly(p: Pool, txs: seq<Option<Transaction>>, p': Pool)
    requires p.count == |p.nodes| && Checks(p, txs, p')
    ensures p'.count == |p'.nodes| <==> NoNil(txs) || Found(p.nodes, BeforeNil(txs)) == []
    ensures NoNil(txs) ==> p'.count <= p.count
  {
    var ts := BeforeNil(txs);
    RemovalLengths(p.nodes, ts);
    assert |p'.nodes| == |Left(p.nodes, ts)|;
    CountIsExact(p, NoNil(txs), |Found(p.nodes, ts)|);
  }

  lemma CheckAgrees(capacity: uint32, p: Pool, txs: seq<Option<Transaction>>, p': Pool)
    requires Agrees(capacity, p) && Checks(p, txs, p') && NoNil(txs)
    ensures Agrees(capacity, p')
  {
    CheckKeepsPriority(p, txs, p');
    CheckKeepsCountExactly(p, txs, p');
  }

  predicate OpHasNoNil(op: Op) {
    op.CheckOp? ==> NoNil(op.txs)
  }

  /** `pools` are the states of a run of the operations from a new pool. */
  ghost predicate IsRun(capacity: uint32, ops: seq<Op>, pools: seq<Pool>) {
    && |pools| == |ops| + 1 && pools[0] == NEW_POOL
    && forall i :: 0 <= i < |ops| ==> Steps(capacity, pools[i], ops[i], pools[i + 1])
  }

  /** After any run of adds and checks without nil transactions in the checks, the heap is
      ordered, so its first node is maximal, and the counters are its length, at most the
      capacity, and the sum of its priorities modulo 2^32. */
  lemma {:induction false} PoolStaysInStep(capacity: uint32, ops: seq<Op>, pools: seq<Pool>, i: nat)
    requires IsRun(capacity, ops, pools) && (forall k :: 0 <= k < |ops| ==> OpHasNoNil(ops[k])) && i < |pools|
    ensures Agrees(capacity, pools[i])
    ensures forall x :: x in pools[i].nodes ==> pools[i].nodes[0].priority >= x.priority
  {
    if i > 0 {
      PoolStaysInStep(capacity, ops, pools, i - 1);
      assert Steps(capacity, pools[i - 1], ops[i - 1], pools[i]) && OpHasNoNil(ops[i - 1]);
      match ops[i - 1] {
        case AddOp(t, sumInputs) => AddAgrees(capacity, pools[i - 1], t, sumInputs, pools[i]);
        case CheckOp(txs) => CheckAgrees(capacity, pools[i - 1], txs, pools[i]);
      }
    }
    forall x | x in pools[i].nodes ensures pools[i].nodes[0].priority >= x.priority {
      var k: nat :| k < |pools[i].nodes| && pools[i].nodes[k] == x;
      FirstIsMaximal(pools[i].nodes, k);
    }
  }

  // ---- The pool ----

  class TxPool {
    var currentPriority: uint32
    const priorityLimit: uint32
    const txQ: Heap
    var count: uint32
    const capacity: uint32

    function View(): Pool
      reads this, txQ
    {
      Pool(txQ.nodes, count, currentPriority)
    }

    constructor (priorityLimit: uint32, capacity: uint32)
      ensures View() == NEW_POOL && fresh(txQ) && this.priorityLimit == priorityLimit && this.capacity == capacity
    {
      this.priorityLimit, this.capacity := priorityLimit, capacity;
      currentPriority, count := 0, 0;
      txQ := new Heap();
    }

    method PriorityMet() returns (met: bool)
      ensures met <==> currentPriority >= priorityLimit
      ensures Agrees(capacity, View()) ==> (met <==> Wrap(Sum(txQ.nodes)) >= priorityLimit)
    {
      met := currentPriority >= priorityLimit;
    }

    method Length() returns (n: uint32)
      ensures n == count
      ensures Agrees(capacity, View()) ==> n == |txQ.nodes|
    {
      n := count;
    }

    method Add(t: Option<Transaction>, sumInputs: uint32)
      modifies this, txQ
      ensures Adds(capacity, old(View()), t, sumInputs, View())
    {
      if t.None? {
        return;
      }
      if count >= capacity {
        return;
      }
      var pri := CalculatePriority(t, sumInputs);
      if pri.None? {
        return;
      }
      var sum: int := currentPriority + pri.value;
      currentPriority := Wrap(sum);
      txQ.Add(pri.value, t);
      count := Wrap(count + 1);
    }

    method CheckTransactions(txs: seq<Option<Transaction>>)
      modifies this, txQ
      ensures Checks(old(View()), txs, View())
    {
      ghost var p := View();
      var removed, totalPriority := txQ.Remove(txs);
      ghost var found := |Found(p.nodes, BeforeNil(txs))|;
      assert |removed| == if NoNil(txs) then found else 0;
      CountOfRemoved(p, NoNil(txs), found, |removed|);
      count := Minus(count, Wrap(|removed|));
      currentPriority := Minus(currentPriority, totalPriority);
    }
  }
}
