/** Storing blocks: the exact effect of StoreBlock on the coin database, with the flush it
    may trigger in the middle of a block, and its refinement of `UtxoLedger.Apply`. */
module CoinStore {
  import opened Ledger
  import opened UtxoLedger
  import opened CoinState

  // ---- Marking spent coins ----

  /** Removes one row of a record, dropping the record with its last row. */
  function RemoveFromDb(s: State, h: Hash, i: nat): State {
    if h !in s.records then s
    else if |s.records[h]| <= 1 then s.(records := s.records - {h})
    else s.(records := s.records[h := RemoveRow(s.records[h], i)])
  }

  /** A cached coin is flagged; otherwise a row is removed from the record of the spender. */
  function MarkInput(s: State, spender: Hash, cl: CoinLocator): State {
    if cl in s.cache then s.(cache := s.cache[cl := s.cache[cl].(isSpent := true)])
    else RemoveFromDb(s, spender, cl.outputIndex)
  }

  function MarkInputs(s: State, tx: Transaction, n: nat): State
    requires n <= |tx.inputs|
  {
    if n == 0 then s
    else MarkInput(MarkInputs(s, tx, n - 1), tx.Hash(), LocatorOf(tx.inputs[n - 1]))
  }

  function MarkAll(s: State, txs: seq<Transaction>, n: nat): State
    requires n <= |txs|
  {
    if n == 0 then s
    else MarkInputs(MarkAll(s, txs, n - 1), txs[n - 1], |txs[n - 1].inputs|)
  }

  lemma {:induction false} RemoveRowCounts(r: CoinRecord, i: nat, j: nat)
    ensures Count(RemoveRow(r, i), j) == if j == i && Count(r, i) > 0 then Count(r, j) - 1 else Count(r, j)
    ensures Find(RemoveRow(r, i), j) == Find(r, j) || j == i
  {
    if r != [] && r[0].outputIndex != i {
      RemoveRowCounts(r[1..], i, j);
      assert RemoveRow(r, i)[1..] == RemoveRow(r[1..], i);
    }
  }

  /** Spending a coin that is not cached takes a row of the same index from the record of the spender,
      or its last row whatever its index; the coin itself stays where it was. */
  lemma UncachedSpendExactly(s: State, spender: Hash, cl: CoinLocator, j: nat)
    requires cl !in s.cache
    ensures var t := MarkInput(s, spender, cl);
      && t.cache == s.cache && t.size == s.size
      && (forall h :: h != spender ==> (h in t.records <==> h in s.records) &&
                                       (h in t.records ==> t.records[h] == s.records[h]))
      && (spender in t.records <==> spender in s.records && |s.records[spender]| > 1)
      && (spender in t.records ==>
          Count(t.records[spender], j) ==
          if j == cl.outputIndex && Count(s.records[spender], j) > 0 then Count(s.records[spender], j) - 1
          else Count(s.records[spender], j))
      && (cl.referenceTransactionHash != spender ==> Lookup(t, cl) == Lookup(s, cl))
  {
    if spender in s.records { RemoveRowCounts(s.records[spender], cl.outputIndex, j); }
  }

  // ---- Caching new coins ----

  predicate Full(s: State, outputs: nat) {
    Wrap(s.size + Wrap(outputs)) >= s.capacity
  }

  function CacheOutput(s: State, tx: Transaction, i: nat): State
    requires i < |tx.outputs|
  {
    var t := if Full(s, |tx.outputs|) then Flushed(s) else s;
    t.(cache := t.cache[CoinLocator(tx.Hash(), i) := Coin(tx.outputs[i], false)], size := Wrap(t.size + 1))
  }

  function CacheOutputs(s: State, tx: Transaction, n: nat): State
    requires n <= |tx.outputs|
  {
    if n == 0 then s else CacheOutput(CacheOutputs(s, tx, n - 1), tx, n - 1)
  }

  function CacheAll(s: State, txs: seq<Transaction>, n: nat): State
    requires n <= |txs|
  {
    if n == 0 then s else CacheOutputs(CacheAll(s, txs, n - 1), txs[n - 1], |txs[n - 1].outputs|)
  }

  // ---- Writing records ----

  function RecordOf(tx: Transaction, n: nat): CoinRecord
    requires n <= |tx.outputs|
  {
    seq(n, i requires 0 <= i < n => Row(i, tx.outputs[i]))
  }

  function Put(s: State, tx: Transaction): State {
    s.(records := s.records[tx.Hash() := RecordOf(tx, |tx.outputs|)])
  }

  function PutAll(s: State, txs: seq<Transaction>, n: nat): State
    requires n <= |txs|
  {
    if n == 0 then s else Put(PutAll(s, txs, n - 1), txs[n - 1])
  }

  function Stored(s: State, txs: seq<Transaction>): State {
    PutAll(CacheAll(MarkAll(s, txs, |txs|), txs, |txs|), txs, |txs|)
  }

  // ---- Marking, on accepted blocks ----

  /** `t` is `s` with the coins of `locators` flagged as spent. */
  ghost predicate Marked(s: State, t: State, locators: set<CoinLocator>) {
    && t.cache.Keys == s.cache.Keys && t.records == s.records
    && t.size == s.size && t.capacity == s.capacity
    && forall cl :: cl in s.cache ==> t.cache[cl] == Coin(s.cache[cl].output, s.cache[cl].isSpent || cl in locators)
  }

  lemma {:induction false} MarkInputsMarks(s: State, tx: Transaction, n: nat)
    requires n <= |tx.inputs| && SpentBy(tx, n) <= s.cache.Keys
    ensures Marked(s, MarkInputs(s, tx, n), SpentBy(tx, n))
  {
    if n > 0 {
      MarkInputsMarks(s, tx, n - 1);
      assert SpentBy(tx, n) == SpentBy(tx, n - 1) + {LocatorOf(tx.inputs[n - 1])};
    }
  }

  lemma SpentGrows(txs: seq<Transaction>, n: nat)
    requires 0 < n <= |txs|
    ensures Spent(txs[..n]) == Spent(txs[..n - 1]) + SpentBy(txs[n - 1], |txs[n - 1].inputs|)
  {
    var tx := txs[n - 1];
    forall cl | cl in SpentBy(tx, |tx.inputs|) ensures cl in Spent(txs[..n]) {
      var i :| 0 <= i < |tx.inputs| && cl == LocatorOf(tx.inputs[i]);
      assert txs[..n][n - 1] == tx;
    }
    forall cl | cl in Spent(txs[..n - 1]) ensures cl in Spent(txs[..n]) {
      var t, i :| 0 <= t < n - 1 && 0 <= i < |txs[..n - 1][t].inputs| && cl == LocatorOf(txs[..n - 1][t].inputs[i]);
      assert txs[..n][t] == txs[..n - 1][t];
    }
    forall cl | cl in Spent(txs[..n])
      ensures cl in Spent(txs[..n - 1]) || cl in SpentBy(tx, |tx.inputs|)
    {
      var t, i :| 0 <= t < n && 0 <= i < |txs[..n][t].inputs| && cl == LocatorOf(txs[..n][t].inputs[i]);
      if t < n - 1 { assert txs[..n - 1][t] == txs[..n][t]; }
    }
  }

  lemma {:induction false} MarkAllMarks(s: State, txs: seq<Transaction>, n: nat)
    requires n <= |txs| && Spent(txs[..n]) <= s.cache.Keys
    ensures Marked(s, MarkAll(s, txs, n), Spent(txs[..n]))
  {
    if n > 0 {
      SpentGrows(txs, n);
      MarkAllMarks(s, txs, n - 1);
      MarkInputsMarks(MarkAll(s, txs, n - 1), txs[n - 1], |txs[n - 1].inputs|);
    }
  }

  /** On an accepted block every spent coin is cached, so no row is ever removed directly. */
  lemma AcceptedAreCached(s: State, txs: seq<Transaction>)
    requires Inv(s) && Accepts(LedgerOf(s), txs)
    ensures Spent(txs) <= s.cache.Keys
  {
    LedgerIsLookup(s);
  }

  lemma MarkingSpends(s: State, t: State, locators: set<CoinLocator>)
    requires Inv(s) && Marked(s, t, locators)
    ensures Inv(t)
    ensures forall cl :: Lookup(t, cl) == if cl in locators then None else Lookup(s, cl)
  {
    assert forall cl :: RecordLookup(t, cl) == RecordLookup(s, cl);
  }

  // ---- Caching ----

  lemma CachedMid(s: State, cl: CoinLocator, output: TransactionOutput, size: uint32, pending: set<Hash>)
    requires Mid(s, pending) && cl.referenceTransactionHash in pending && Names(cl, output)
    ensures Mid(s.(cache := s.cache[cl := Coin(output, false)], size := size), pending)
  {
    var t := s.(cache := s.cache[cl := Coin(output, false)], size := size);
    assert t.records == s.records;
    forall l ensures RecordLookup(t, l) == RecordLookup(s, l) {}
  }

  lemma CacheOutputMid(s: State, tx: Transaction, i: nat, pending: set<Hash>)
    requires i < |tx.outputs| && Mid(s, pending) && tx.Hash() in pending
    ensures Mid(CacheOutput(s, tx, i), pending)
  {
    FlushKeeps(s, pending);
    var t := if Full(s, |tx.outputs|) then Flushed(s) else s;
    CachedMid(t, CoinLocator(tx.Hash(), i), tx.outputs[i], Wrap(t.size + 1), pending);
  }

  lemma CacheOutputLookup(s: State, tx: Transaction, i: nat, cl: CoinLocator)
    requires i < |tx.outputs| && NoDuplicates(s)
    ensures Lookup(CacheOutput(s, tx, i), cl) ==
      if cl == CoinLocator(tx.Hash(), i) then Some(tx.outputs[i]) else Lookup(s, cl)
    ensures NoDuplicates(CacheOutput(s, tx, i))
  {
    FlushedLookup(s, cl);
    FlushNoDuplicates(s);
  }

  /** What caching one output keeps, caching several keeps. */
  lemma {:induction false} CachingKeeps(kept: State -> bool, s: State, tx: Transaction, n: nat)
    requires n <= |tx.outputs| && kept(s)
    requires forall t: State, i: nat :: kept(t) && i < |tx.outputs| ==> kept(CacheOutput(t, tx, i))
    ensures kept(CacheOutputs(s, tx, n))
  {
    if n > 0 { CachingKeeps(kept, s, tx, n - 1); }
  }

  lemma CacheOutputsMid(s: State, tx: Transaction, n: nat, pending: set<Hash>)
    requires n <= |tx.outputs| && Mid(s, pending) && tx.Hash() in pending
    ensures Mid(CacheOutputs(s, tx, n), pending)
  {
    var kept := t => Mid(t, pending);
    forall t: State, i: nat | kept(t) && i < |tx.outputs| ensures kept(CacheOutput(t, tx, i)) {
      CacheOutputMid(t, tx, i, pending);
    }
    CachingKeeps(kept, s, tx, n);
  }

  lemma {:induction false} CacheOutputsLookup(s: State, tx: Transaction, n: nat, cl: CoinLocator)
    requires n <= |tx.outputs| && NoDuplicates(s)
    ensures Lookup(CacheOutputs(s, tx, n), cl) ==
      if cl.referenceTransactionHash == tx.Hash() && cl.outputIndex < n
      then Some(tx.outputs[cl.outputIndex]) else Lookup(s, cl)
    ensures NoDuplicates(CacheOutputs(s, tx, n))
  {
    if n > 0 {
      CacheOutputsLookup(s, tx, n - 1, cl);
      CacheOutputLookup(CacheOutputs(s, tx, n - 1), tx, n - 1, cl);
    }
  }

  function HashesOf(txs: seq<Transaction>): set<Hash> {
    set t | 0 <= t < |txs| :: txs[t].Hash()
  }

  /** Whether the locator names an output of a transaction whose hash is in the set. */
  predicate Makes(hashes: set<Hash>, cl: CoinLocator) {
    && cl.referenceTransactionHash in hashes
    && cl.referenceTransactionHash.OfTransaction?
    && cl.outputIndex < |cl.referenceTransactionHash.outputs|
  }

  lemma CreatedIsMade(txs: seq<Transaction>)
    ensures forall cl :: cl in Created(txs) <==> Makes(HashesOf(txs), cl)
    ensures forall cl :: cl in Created(txs) ==> Names(cl, Created(txs)[cl])
  {
    forall cl | Makes(HashesOf(txs), cl) ensures cl in CreatedBy(txs) {
      var t :| 0 <= t < |txs| && txs[t].Hash() == cl.referenceTransactionHash;
      assert cl == CoinLocator(txs[t].Hash(), cl.outputIndex);
    }
  }

  lemma HashesGrow(txs: seq<Transaction>, n: nat)
    requires 0 < n <= |txs|
    ensures HashesOf(txs[..n]) == HashesOf(txs[..n - 1]) + {txs[n - 1].Hash()}
    ensures txs[n - 1].Hash() in HashesOf(txs)
  {
    assert txs[..n] == txs[..n - 1] + [txs[n - 1]];
  }

  lemma {:induction false} CacheAllMid(s: State, txs: seq<Transaction>, n: nat, pending: set<Hash>)
    requires n <= |txs| && Mid(s, pending) && HashesOf(txs) <= pending
    ensures Mid(CacheAll(s, txs, n), pending)
  {
    if n > 0 {
      CacheAllMid(s, txs, n - 1, pending);
      HashesGrow(txs, n);
      CacheOutputsMid(CacheAll(s, txs, n - 1), txs[n - 1], |txs[n - 1].outputs|, pending);
    }
  }

  lemma {:induction false} CacheAllLookup(s: State, txs: seq<Transaction>, n: nat, cl: CoinLocator)
    requires n <= |txs| && NoDuplicates(s)
    ensures Lookup(CacheAll(s, txs, n), cl) ==
      if Makes(HashesOf(txs[..n]), cl) then Some(cl.referenceTransactionHash.outputs[cl.outputIndex])
      else Lookup(s, cl)
    ensures NoDuplicates(CacheAll(s, txs, n))
  {
    if n > 0 {
      CacheAllLookup(s, txs, n - 1, cl);
      HashesGrow(txs, n);
      CacheOutputsLookup(CacheAll(s, txs, n - 1), txs[n - 1], |txs[n - 1].outputs|, cl);
    }
  }

  // ---- Records ----

  lemma {:induction false} RecordOfRows(tx: Transaction, n: nat, i: nat)
    requires n <= |tx.outputs|
    ensures Find(RecordOf(tx, n), i) == if i < n then Some(tx.outputs[i]) else None
    ensures Count(RecordOf(tx, n), i) == if i < n then 1 else 0
  {
    if n > 0 {
      RecordOfRows(tx, n - 1, i);
      var last := [Row(n - 1, tx.outputs[n - 1])];
      assert RecordOf(tx, n) == RecordOf(tx, n - 1) + last;
      FindInConcat(RecordOf(tx, n - 1), last, i);
      CountInConcat(RecordOf(tx, n - 1), last, i);
    }
  }

  lemma {:induction false} CountInConcat(r: CoinRecord, q: CoinRecord, i: nat)
    ensures Count(r + q, i) == Count(r, i) + Count(q, i)
  {
    if r == [] {
      assert r + q == q;
    } else {
      assert (r + q)[1..] == r[1..] + q;
      CountInConcat(r[1..], q, i);
    }
  }

  lemma PutRecordLookup(s: State, tx: Transaction, cl: CoinLocator)
    ensures RecordLookup(Put(s, tx), cl) ==
      if cl.referenceTransactionHash != tx.Hash() then RecordLookup(s, cl)
      else if cl.outputIndex < |tx.outputs| then Some(tx.outputs[cl.outputIndex]) else None
  {
    RecordOfRows(tx, |tx.outputs|, cl.outputIndex);
  }

  lemma PutStep(s: State, tx: Transaction, pending: set<Hash>)
    requires Mid(s, pending)
    requires forall i: nat :: i < |tx.outputs| ==> CoinLocator(tx.Hash(), i) in s.cache
    ensures Mid(Put(s, tx), pending - {tx.Hash()})
    ensures forall cl :: Lookup(Put(s, tx), cl) == Lookup(s, cl)
  {
    var t := Put(s, tx);
    forall h, i | h in t.records ensures Count(t.records[h], i) <= 1 {
      RecordOfRows(tx, |tx.outputs|, i);
    }
    forall cl ensures RecordLookup(t, cl) ==
      (if cl.referenceTransactionHash != tx.Hash() then RecordLookup(s, cl)
       else if cl.outputIndex < |tx.outputs| then Some(tx.outputs[cl.outputIndex]) else None)
    {
      PutRecordLookup(s, tx, cl);
    }
    forall cl ensures Lookup(t, cl) == Lookup(s, cl) {
      if cl.referenceTransactionHash == tx.Hash() && cl.outputIndex < |tx.outputs| {
        assert cl == CoinLocator(tx.Hash(), cl.outputIndex);
      }
    }
  }

  lemma {:induction false} PutAllStep(s: State, txs: seq<Transaction>, n: nat, pending: set<Hash>)
    requires n <= |txs| && Mid(s, pending)
    requires forall cl :: Makes(HashesOf(txs), cl) ==> cl in s.cache
    ensures var t := PutAll(s, txs, n);
      && Mid(t, pending - HashesOf(txs[..n])) && t.cache == s.cache
      && forall cl :: Lookup(t, cl) == Lookup(s, cl)
  {
    if n > 0 {
      PutAllStep(s, txs, n - 1, pending);
      var u, tx := PutAll(s, txs, n - 1), txs[n - 1];
      HashesGrow(txs, n);
      forall i: nat | i < |tx.outputs| ensures CoinLocator(tx.Hash(), i) in u.cache {
        assert Makes(HashesOf(txs), CoinLocator(tx.Hash(), i));
      }
      PutStep(u, tx, pending - HashesOf(txs[..n - 1]));
      assert pending - HashesOf(txs[..n - 1]) - {tx.Hash()} == pending - HashesOf(txs[..n]);
    }
  }

  // ---- The refinement ----

  /** Storing an accepted block is exactly "remove the inputs, add the outputs", whatever the
      cache size and capacity, so wherever a flush falls inside the block. */
  lemma StoreRefinesApply(s: State, txs: seq<Transaction>)
    requires Inv(s) && Accepts(LedgerOf(s), txs)
    ensures Inv(Stored(s, txs))
    ensures LedgerOf(Stored(s, txs)) == Apply(LedgerOf(s), txs)
  {
    StoreInvAndLookup(s, txs);
    LedgerAfter(s, Stored(s, txs), txs);
  }

  /** What looking a coin up gives after a block: created, spent, or as before. */
  function After(s: State, txs: seq<Transaction>, cl: CoinLocator): Option<TransactionOutput> {
    if Makes(HashesOf(txs), cl) then Some(cl.referenceTransactionHash.outputs[cl.outputIndex])
    else if cl in Spent(txs) then None else Lookup(s, cl)
  }

  lemma StoreInvAndLookup(s: State, txs: seq<Transaction>)
    requires Inv(s) && Accepts(LedgerOf(s), txs)
    ensures Inv(Stored(s, txs))
    ensures forall cl :: Lookup(Stored(s, txs), cl) == After(s, txs, cl)
  {
    var n, hashes := |txs|, HashesOf(txs);
    assert txs[..n] == txs;
    AcceptedAreCached(s, txs);
    MarkAllMarks(s, txs, n);
    var marked := MarkAll(s, txs, n);
    MarkingSpends(s, marked, Spent(txs));
    InvIsMid(marked, hashes);
    var cached := CacheAll(marked, txs, n);
    CacheAllMid(marked, txs, n, hashes);
    forall cl
      ensures Lookup(cached, cl) ==
              (if Makes(hashes, cl) then Some(cl.referenceTransactionHash.outputs[cl.outputIndex])
               else Lookup(marked, cl))
    {
      CacheAllLookup(marked, txs, n, cl);
    }
    MadeAreCached(cached, hashes);
    PutAllStep(cached, txs, n, hashes);
    assert hashes - hashes == {};
  }

  lemma LedgerAfter(s: State, t: State, txs: seq<Transaction>)
    requires forall cl :: Lookup(t, cl) == After(s, txs, cl)
    ensures LedgerOf(t) == Apply(LedgerOf(s), txs)
  {
    forall cl
      ensures cl in LedgerOf(t) <==> cl in Apply(LedgerOf(s), txs)
      ensures cl in LedgerOf(t) ==> LedgerOf(t)[cl] == Apply(LedgerOf(s), txs)[cl]
    {
      LedgerAfterAt(s, t, txs, cl);
    }
  }

  lemma LedgerAfterAt(s: State, t: State, txs: seq<Transaction>, cl: CoinLocator)
    requires Lookup(t, cl) == After(s, txs, cl)
    ensures cl in LedgerOf(t) <==> cl in Apply(LedgerOf(s), txs)
    ensures cl in LedgerOf(t) ==> LedgerOf(t)[cl] == Apply(LedgerOf(s), txs)[cl]
  {
    CreatedIsMade(txs);
    LedgerIsLookup(s);
    LedgerIsLookup(t);
  }

  lemma InvIsMid(s: State, pending: set<Hash>)
    requires Inv(s)
    ensures Mid(s, pending)
  {
  }

  lemma MadeAreCached(s: State, hashes: set<Hash>)
    requires Mid(s, hashes)
    requires forall cl :: Makes(hashes, cl) ==> Lookup(s, cl).Some?
    ensures forall cl :: Makes(hashes, cl) ==> cl in s.cache
  {
  }

  // ---- Runs ----

  datatype Op = Store(txs: seq<Transaction>) | Flush

  function Run(s: State, ops: seq<Op>): State
  {
    if ops == [] then s
    else
      var t := Run(s, ops[..|ops| - 1]);
      match ops[|ops| - 1] case Store(txs) => Stored(t, txs) case Flush => Flushed(t)
  }

  function LedgerRun(u: Utxo, ops: seq<Op>): Utxo
  {
    if ops == [] then u
    else
      var v := LedgerRun(u, ops[..|ops| - 1]);
      match ops[|ops| - 1] case Store(txs) => Apply(v, txs) case Flush => v
  }

  /** Every stored block was accepted by the plain ledger when it was stored. */
  predicate AcceptedRun(u: Utxo, ops: seq<Op>)
  {
    ops == [] ||
    (var front, last := ops[..|ops| - 1], ops[|ops| - 1];
     AcceptedRun(u, front) && (last.Store? ==> Accepts(LedgerRun(u, front), last.txs)))
  }

  /** Every run from an empty database stays in step with the plain ledger. */
  lemma {:induction false} RunRefinesLedger(capacity: uint32, ops: seq<Op>)
    requires AcceptedRun(map[], ops)
    ensures Inv(Run(Empty(capacity), ops))
    ensures LedgerOf(Run(Empty(capacity), ops)) == LedgerRun(map[], ops)
  {
    if ops == [] {
      EmptyInv(capacity);
    } else {
      var front := ops[..|ops| - 1];
      RunRefinesLedger(capacity, front);
      match ops[|ops| - 1]
      case Store(txs) => StoreRefinesApply(Run(Empty(capacity), front), txs);
      case Flush => FlushKeeps(Run(Empty(capacity), front), {});
    }
  }
}
