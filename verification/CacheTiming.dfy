/** When the cache is flushed: the size counter counts the outputs cached since the last flush and
    stays below the capacity, and storing a transaction forgets the coins it spends exactly when
    the counter would reach the capacity. */
module CacheTiming {
  import opened Ledger
  import opened UtxoLedger
  import opened CoinState
  import opened CoinStore

  /** One more output, without overflow: with room it joins the cache and is counted, and nothing
      else changes; without, the spent coins leave the cache first and the count starts again. */
  lemma CacheOutputExactly(s: State, tx: Transaction, i: nat)
    requires i < |tx.outputs| && (s.size + |tx.outputs| < U32_LIMIT || s.capacity == 0)
    ensures var t, cl := CacheOutput(s, tx, i), CoinLocator(tx.Hash(), i);
      && cl in t.cache && t.cache[cl] == Coin(tx.outputs[i], false) && t.capacity == s.capacity
      && (s.size + |tx.outputs| < s.capacity ==>
          && t.size == s.size + 1 && t.records == s.records && t.cache.Keys == s.cache.Keys + {cl}
          && forall l :: l in s.cache && l != cl ==> t.cache[l] == s.cache[l])
      && (s.size + |tx.outputs| >= s.capacity ==>
          && t.size == 1
          && (forall l :: l != cl ==> (l in t.cache <==> l in s.cache && !s.cache[l].isSpent))
          && forall l :: l in s.cache && l in t.cache && l != cl ==> t.cache[l] == s.cache[l])
  {
    if s.capacity > 0 {
      WrapFits(|tx.outputs|);
      WrapFits(s.size + |tx.outputs|);
      WrapFits(s.size + 1);
    }
  }

  /** No cached coin is flagged as spent. */
  ghost predicate NoneSpent(s: State) {
    forall cl :: cl in s.cache ==> !s.cache[cl].isSpent
  }

  /** The coins of `s` are cached in `t` as they were, except the ones of one transaction. */
  ghost predicate Remembers(s: State, t: State, h: Hash) {
    forall cl :: cl in s.cache && cl.referenceTransactionHash != h ==> cl in t.cache && t.cache[cl] == s.cache[cl]
  }

  /** The first `n` outputs of a transaction: with room for all of them nothing is flushed and each
      is counted; otherwise no spent coin is cached afterwards and fewer are counted. */
  lemma {:induction false} CacheOutputsExactly(s: State, tx: Transaction, n: nat)
    requires n <= |tx.outputs| && s.capacity + |tx.outputs| < U32_LIMIT
    requires s.size + |tx.outputs| < U32_LIMIT || s.capacity == 0
    ensures var t := CacheOutputs(s, tx, n);
      && t.capacity == s.capacity
      && (n == 0 || s.size + (n - 1) + |tx.outputs| < s.capacity ==>
          t.size == s.size + n && t.records == s.records && Remembers(s, t, tx.Hash()))
      && (n > 0 && s.size + (n - 1) + |tx.outputs| >= s.capacity ==>
          NoneSpent(t) && 1 <= t.size <= (if s.capacity <= 2 then 1 else s.capacity - 1))
  {
    if n > 0 {
      CacheOutputsExactly(s, tx, n - 1);
      CacheOutputExactly(CacheOutputs(s, tx, n - 1), tx, n - 1);
    }
  }

  /** The largest value of the counter between calls. */
  function Most(capacity: uint32): nat {
    if capacity <= 2 then 1 else capacity - 1
  }

  ghost predicate Counts(s: State, capacity: uint32) {
    s.capacity == capacity && s.size <= Most(capacity)
  }

  lemma {:induction false} CacheAllCounts(s: State, txs: seq<Transaction>, n: nat, capacity: uint32)
    requires n <= |txs| && Counts(s, capacity)
    requires forall t :: 0 <= t < |txs| ==> capacity + |txs[t].outputs| < U32_LIMIT
    ensures Counts(CacheAll(s, txs, n), capacity)
  {
    if n > 0 {
      CacheAllCounts(s, txs, n - 1, capacity);
      CacheOutputsExactly(CacheAll(s, txs, n - 1), txs[n - 1], |txs[n - 1].outputs|);
    }
  }

  lemma {:induction false} MarkInputsCount(s: State, tx: Transaction, n: nat)
    requires n <= |tx.inputs|
    ensures MarkInputs(s, tx, n).size == s.size && MarkInputs(s, tx, n).capacity == s.capacity
  {
    if n > 0 { MarkInputsCount(s, tx, n - 1); }
  }

  lemma {:induction false} MarkAllCounts(s: State, txs: seq<Transaction>, n: nat)
    requires n <= |txs|
    ensures MarkAll(s, txs, n).size == s.size && MarkAll(s, txs, n).capacity == s.capacity
  {
    if n > 0 {
      MarkAllCounts(s, txs, n - 1);
      MarkInputsCount(MarkAll(s, txs, n - 1), txs[n - 1], |txs[n - 1].inputs|);
    }
  }

  lemma {:induction false} PutAllCounts(s: State, txs: seq<Transaction>, n: nat)
    requires n <= |txs|
    ensures PutAll(s, txs, n).size == s.size && PutAll(s, txs, n).capacity == s.capacity
    ensures PutAll(s, txs, n).cache == s.cache
  {
    if n > 0 { PutAllCounts(s, txs, n - 1); }
  }

  /** No transaction has so many outputs that the test for room overflows. */
  ghost predicate SmallEnough(op: Op, capacity: uint32) {
    op.Store? ==> forall t :: 0 <= t < |op.txs| ==> capacity + |op.txs[t].outputs| < U32_LIMIT
  }

  /** Over every run from an empty database, accepted or not, the counter never reaches the capacity
      unless the capacity is one or zero: it is at most the larger of one and capacity less one. */
  lemma {:induction false} CounterStaysBelow(capacity: uint32, ops: seq<Op>)
    requires forall i :: 0 <= i < |ops| ==> SmallEnough(ops[i], capacity)
    ensures var s := Run(Empty(capacity), ops);
      s.capacity == capacity && s.size <= (if capacity <= 2 then 1 else capacity - 1)
  {
    if ops != [] {
      var front, last := ops[..|ops| - 1], ops[|ops| - 1];
      CounterStaysBelow(capacity, front);
      var s := Run(Empty(capacity), front);
      assert SmallEnough(last, capacity);
      if last.Store? {
        MarkAllCounts(s, last.txs, |last.txs|);
        CacheAllCounts(MarkAll(s, last.txs, |last.txs|), last.txs, |last.txs|, capacity);
        PutAllCounts(CacheAll(MarkAll(s, last.txs, |last.txs|), last.txs, |last.txs|), last.txs, |last.txs|);
      }
    }
  }

  // ---- What is forgotten ----

  lemma PutKeepsKnown(s: State, tx: Transaction, cl: CoinLocator)
    requires cl.referenceTransactionHash == tx.Hash() ==> cl.outputIndex >= |tx.outputs|
    requires cl !in s.cache && RecordLookup(s, cl).None?
    ensures GetCoin(Put(s, tx), cl).None?
  {
    PutRecordLookup(s, tx, cl);
  }

  /** Storing a transaction by itself forgets the coins it spends exactly when the counter would
      reach the capacity on the way; otherwise they stay known, flagged as spent. */
  lemma SpentIsForgottenExactly(s: State, tx: Transaction, cl: CoinLocator)
    requires Inv(s) && Accepts(LedgerOf(s), [tx]) && tx.outputs != []
    requires s.capacity + |tx.outputs| < U32_LIMIT && (s.size + |tx.outputs| < U32_LIMIT || s.capacity == 0)
    requires cl in Spent([tx]) && cl.referenceTransactionHash != tx.Hash()
    ensures var coin := GetCoin(Stored(s, [tx]), cl);
      if s.size + 2 * |tx.outputs| > s.capacity then coin.None?
      else coin.Some? && coin.value.isSpent && Names(cl, coin.value.output)
  {
    var txs, n := [tx], |tx.outputs|;
    assert txs[..1] == txs;
    AcceptedAreCached(s, txs);
    MarkAllMarks(s, txs, 1);
    MarkAllCounts(s, txs, 1);
    var marked := MarkAll(s, txs, 1);
    var cached := CacheAll(marked, txs, 1);
    assert cached == CacheOutputs(marked, tx, n) by { assert CacheAll(marked, txs, 0) == marked; }
    var t := Stored(s, txs);
    assert t == Put(cached, tx) by { assert PutAll(cached, txs, 0) == cached; }
    CacheOutputsExactly(marked, tx, n);
    MarkingSpends(s, marked, Spent(txs));
    if s.size + 2 * n > s.capacity {
      CachedMeansMid(marked, tx);
      assert cl !in cached.cache by { FlagsStay(marked, tx, n, cl); }
      PutKeepsKnown(cached, tx, cl);
    }
  }

  lemma CachedMeansMid(s: State, tx: Transaction)
    requires Inv(s)
    ensures Mid(CacheOutputs(s, tx, |tx.outputs|), {tx.Hash()})
  {
    InvIsMid(s, {tx.Hash()});
    CacheOutputsMid(s, tx, |tx.outputs|, {tx.Hash()});
  }

  /** Caching new coins never unflags an old one. */
  lemma {:induction false} FlagsStay(s: State, tx: Transaction, n: nat, cl: CoinLocator)
    requires n <= |tx.outputs| && cl.referenceTransactionHash != tx.Hash() && cl in s.cache && s.cache[cl].isSpent
    ensures var t := CacheOutputs(s, tx, n); cl in t.cache ==> t.cache[cl].isSpent
  {
    if n > 0 {
      FlagsStay(s, tx, n - 1, cl);
      StaysFlagged(CacheOutputs(s, tx, n - 1), tx, n - 1, cl);
    }
  }

  lemma StaysFlagged(s: State, tx: Transaction, i: nat, cl: CoinLocator)
    requires i < |tx.outputs| && cl.referenceTransactionHash != tx.Hash() && (cl in s.cache ==> s.cache[cl].isSpent)
    ensures var t := CacheOutput(s, tx, i); cl in t.cache ==> t.cache[cl].isSpent
  {
  }
}
