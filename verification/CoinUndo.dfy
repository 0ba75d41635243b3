/** Reverting blocks: undo blocks, the exact effect of UndoCoins on the coin database, and
    exactly when it reverts the plain ledger. Histories are listed newest first. */
module CoinUndo {
  import opened Ledger
  import opened UtxoLedger
  import opened CoinState
  import opened CoinStore

  // ---- Undo blocks ----

  /** The inputs of the transactions in order. */
  function InputsOf(txs: seq<Transaction>): seq<CoinLocator>
  {
    if txs == [] then []
    else InputsOf(txs[..|txs| - 1]) + InputsOfOne(txs[|txs| - 1])
  }

  function InputsOfOne(tx: Transaction): seq<CoinLocator> {
    seq(|tx.inputs|, i requires 0 <= i < |tx.inputs| => LocatorOf(tx.inputs[i]))
  }

  /** An undo block lists every input with its coin; one missing coin leaves it empty. */
  function UndoOf(s: State, txs: seq<Transaction>): seq<UndoEntry> {
    if forall k :: 0 <= k < |InputsOf(txs)| ==> GetCoin(s, InputsOf(txs)[k]).Some?
    then Entries(s, InputsOf(txs))
    else []
  }

  function Entries(s: State, ls: seq<CoinLocator>): seq<UndoEntry>
    requires forall k :: 0 <= k < |ls| ==> GetCoin(s, ls[k]).Some?
  {
    seq(|ls|, k requires 0 <= k < |ls| => UndoEntry(ls[k], GetCoin(s, ls[k]).value.output))
  }

  // ---- Undoing ----

  function OutputsOf(tx: Transaction, n: nat): set<CoinLocator>
    requires n <= |tx.outputs|
  {
    set i | 0 <= i < n :: CoinLocator(tx.Hash(), i)
  }

  /** Erases the cached coins and the record of one transaction. */
  function DropOne(s: State, tx: Transaction): State {
    State(s.cache - OutputsOf(tx, |tx.outputs|), s.records - {tx.Hash()}, Wrap(s.size - |tx.outputs|), s.capacity)
  }

  function DropAll(s: State, txs: seq<Transaction>, n: nat): State
    requires n <= |txs|
  {
    if n == 0 then s else DropOne(DropAll(s, txs, n - 1), txs[n - 1])
  }

  function RowsOf(entries: seq<UndoEntry>): CoinRecord {
    seq(|entries|, k requires 0 <= k < |entries| => Row(entries[k].locator.outputIndex, entries[k].output))
  }

  /** Unflags a cached coin, and extends its record; a missing record is rebuilt from all rows
      of the undo block. */
  function RestoreOne(s: State, entries: seq<UndoEntry>, j: nat): State
    requires j < |entries|
  {
    var e := entries[j];
    var cl, h := e.locator, e.locator.referenceTransactionHash;
    s.(cache := if cl in s.cache then s.cache[cl := s.cache[cl].(isSpent := false)] else s.cache,
       records := s.records[h := if h in s.records then s.records[h] + [Row(cl.outputIndex, e.output)]
                                 else RowsOf(entries)])
  }

  function RestoreAll(s: State, entries: seq<UndoEntry>, n: nat): State
    requires n <= |entries|
  {
    if n == 0 then s else RestoreOne(RestoreAll(s, entries, n - 1), entries, n - 1)
  }

  function UndoBlock(s: State, txs: seq<Transaction>, entries: seq<UndoEntry>): State {
    RestoreAll(DropAll(s, txs, |txs|), entries, |entries|)
  }

  function UndoAll(s: State, history: seq<seq<Transaction>>, undos: seq<seq<UndoEntry>>): State
    requires |history| == |undos|
    decreases |history|
  {
    if history == [] then s
    else UndoAll(UndoBlock(s, history[0], undos[0]), history[1..], undos[1..])
  }

  // ---- Dropping created coins ----

  /** `t` is `s` without the coins and records of the given transactions. */
  ghost predicate Dropped(s: State, t: State, hashes: set<Hash>) {
    && t.records == s.records - hashes
    && (forall cl :: cl in t.cache <==> cl in s.cache && !Makes(hashes, cl))
    && (forall cl :: cl in t.cache ==> t.cache[cl] == s.cache[cl])
  }

  lemma {:induction false} DropAllDrops(s: State, txs: seq<Transaction>, n: nat)
    requires n <= |txs|
    ensures Dropped(s, DropAll(s, txs, n), HashesOf(txs[..n]))
  {
    if n > 0 {
      DropAllDrops(s, txs, n - 1);
      HashesGrow(txs, n);
      var tx := txs[n - 1];
      forall cl ensures cl in OutputsOf(tx, |tx.outputs|) <==> Makes({tx.Hash()}, cl) {
        if Makes({tx.Hash()}, cl) { assert cl == CoinLocator(tx.Hash(), cl.outputIndex); }
      }
    }
  }

  lemma DroppedLookup(s: State, t: State, hashes: set<Hash>)
    requires Anchored(s, {}) && Dropped(s, t, hashes)
    ensures Anchored(t, {})
    ensures forall cl :: Lookup(t, cl) == (if cl.referenceTransactionHash in hashes then None else Lookup(s, cl))
  {
    forall cl: CoinLocator ensures cl.referenceTransactionHash in hashes ==> RecordLookup(t, cl) == None {}
    forall cl: CoinLocator
      ensures cl.referenceTransactionHash !in hashes ==> RecordLookup(t, cl) == RecordLookup(s, cl) {}
  }

  // ---- Restoring spent coins ----

  /** One of the first `n` entries restores the coin. */
  predicate Listed(entries: seq<UndoEntry>, n: nat, cl: CoinLocator)
    requires n <= |entries|
  {
    n > 0 && (entries[n - 1].locator == cl || Listed(entries, n - 1, cl))
  }

  /** One of the first `n` entries restores a coin of the transaction. */
  predicate HashListed(entries: seq<UndoEntry>, n: nat, h: Hash)
    requires n <= |entries|
  {
    n > 0 && (entries[n - 1].locator.referenceTransactionHash == h || HashListed(entries, n - 1, h))
  }

  lemma {:induction false} EntryIsListed(entries: seq<UndoEntry>, n: nat, k: nat)
    requires k < n <= |entries|
    ensures Listed(entries, n, entries[k].locator)
    ensures HashListed(entries, n, entries[k].locator.referenceTransactionHash)
  {
    if k < n - 1 { EntryIsListed(entries, n - 1, k); }
  }

  lemma {:induction false} ListedEntry(entries: seq<UndoEntry>, n: nat, h: Hash) returns (k: nat)
    requires n <= |entries| && HashListed(entries, n, h)
    ensures k < n && entries[k].locator.referenceTransactionHash == h
  {
    if entries[n - 1].locator.referenceTransactionHash == h { k := n - 1; }
    else { k := ListedEntry(entries, n - 1, h); }
  }

  lemma {:induction false} ListedHasIndex(entries: seq<UndoEntry>, n: nat, cl: CoinLocator)
    requires n <= |entries| && Listed(entries, n, cl)
    ensures exists k :: 0 <= k < n && entries[k].locator.outputIndex == cl.outputIndex
  {
    if entries[n - 1].locator != cl { ListedHasIndex(entries, n - 1, cl); }
  }

  predicate Named(entries: seq<UndoEntry>) {
    forall k :: 0 <= k < |entries| ==> Names(entries[k].locator, entries[k].output)
  }

  function OutputNamed(cl: CoinLocator): Option<TransactionOutput> {
    if cl.referenceTransactionHash.OfTransaction? && cl.outputIndex < |cl.referenceTransactionHash.outputs|
    then Some(cl.referenceTransactionHash.outputs[cl.outputIndex]) else None
  }

  lemma {:induction false} RowsOfFind(entries: seq<UndoEntry>, n: nat, i: nat)
    requires n <= |entries|
    ensures Find(RowsOf(entries[..n]), i).Some? <==> exists k :: 0 <= k < n && entries[k].locator.outputIndex == i
  {
    if n > 0 {
      RowsOfFind(entries, n - 1, i);
      var last := [Row(entries[n - 1].locator.outputIndex, entries[n - 1].output)];
      assert RowsOf(entries[..n]) == RowsOf(entries[..n - 1]) + last;
      FindInConcat(RowsOf(entries[..n - 1]), last, i);
    }
  }

  /** The cache after the first `n` entries. */
  lemma {:induction false} RestoredCache(s: State, entries: seq<UndoEntry>, n: nat, cl: CoinLocator)
    requires n <= |entries|
    ensures var t := RestoreAll(s, entries, n);
      && (cl in t.cache <==> cl in s.cache)
      && (cl in s.cache ==> t.cache[cl] == Coin(s.cache[cl].output, s.cache[cl].isSpent && !Listed(entries, n, cl)))
  {
    if n > 0 { RestoredCache(s, entries, n - 1, cl); }
  }

  lemma RestoreOneRecord(s: State, entries: seq<UndoEntry>, j: nat, cl: CoinLocator)
    requires j < |entries|
    ensures var h := cl.referenceTransactionHash;
      RecordLookup(RestoreOne(s, entries, j), cl) ==
        if entries[j].locator.referenceTransactionHash != h then RecordLookup(s, cl)
        else if h !in s.records then Find(RowsOf(entries), cl.outputIndex)
        else if RecordLookup(s, cl).Some? then RecordLookup(s, cl)
        else if entries[j].locator == cl then Some(entries[j].output)
        else None
  {
    var e, h := entries[j], cl.referenceTransactionHash;
    if e.locator.referenceTransactionHash == h && h in s.records {
      FindInConcat(s.records[h], [Row(e.locator.outputIndex, e.output)], cl.outputIndex);
    }
  }

  /** What a record says of a coin after the first `n` entries. */
  function RecordAfter(s: State, entries: seq<UndoEntry>, n: nat, cl: CoinLocator): Option<TransactionOutput>
    requires n <= |entries|
  {
    var h := cl.referenceTransactionHash;
    if h in s.records then
      if RecordLookup(s, cl).Some? then RecordLookup(s, cl)
      else if Listed(entries, n, cl) then OutputNamed(cl)
      else None
    else if HashListed(entries, n, h) then Find(RowsOf(entries), cl.outputIndex)
    else None
  }

  lemma {:induction false} RestoredKeys(s: State, entries: seq<UndoEntry>, n: nat, h: Hash)
    requires n <= |entries|
    ensures h in RestoreAll(s, entries, n).records <==> h in s.records || HashListed(entries, n, h)
  {
    if n > 0 { RestoredKeys(s, entries, n - 1, h); }
  }

  lemma {:induction false} RestoredRecords(s: State, entries: seq<UndoEntry>, n: nat, cl: CoinLocator)
    requires n <= |entries| && Named(entries)
    ensures RecordLookup(RestoreAll(s, entries, n), cl) == RecordAfter(s, entries, n, cl)
  {
    if n > 0 {
      RestoredRecords(s, entries, n - 1, cl);
      RestoredKeys(s, entries, n - 1, cl.referenceTransactionHash);
      RestoreOneRecord(RestoreAll(s, entries, n - 1), entries, n - 1, cl);
      RecordAfterOne(s, entries, n, cl);
    }
  }

  /** One more entry, in terms of what the record said before it. */
  lemma RecordAfterOne(s: State, entries: seq<UndoEntry>, n: nat, cl: CoinLocator)
    requires 0 < n <= |entries| && Named(entries)
    ensures var h, before := cl.referenceTransactionHash, RecordAfter(s, entries, n - 1, cl);
      RecordAfter(s, entries, n, cl) ==
        if entries[n - 1].locator.referenceTransactionHash != h then before
        else if h !in s.records && !HashListed(entries, n - 1, h) then Find(RowsOf(entries), cl.outputIndex)
        else if before.Some? then before
        else if entries[n - 1].locator == cl then Some(entries[n - 1].output)
        else None
  {
    if entries[n - 1].locator == cl {
      EntryIsListed(entries, n, n - 1);
      ListedIsFound(entries, n, cl);
    }
  }

  lemma ListedIsFound(entries: seq<UndoEntry>, n: nat, cl: CoinLocator)
    requires n <= |entries| && Listed(entries, n, cl)
    ensures Find(RowsOf(entries), cl.outputIndex).Some?
  {
    assert entries[..|entries|] == entries;
    ListedHasIndex(entries, n, cl);
    RowsOfFind(entries, |entries|, cl.outputIndex);
  }

  /** How often the first `n` entries list the coin. */
  function TimesListed(entries: seq<UndoEntry>, n: nat, cl: CoinLocator): nat
    requires n <= |entries|
  {
    if n == 0 then 0 else TimesListed(entries, n - 1, cl) + if entries[n - 1].locator == cl then 1 else 0
  }

  lemma {:induction false} CountOfMore(r: CoinRecord, row: Row, i: nat)
    ensures Count(r + [row], i) == Count(r, i) + if row.outputIndex == i then 1 else 0
  {
    if r == [] {
      assert r + [row] == [row];
    } else {
      assert (r + [row])[1..] == r[1..] + [row];
      CountOfMore(r[1..], row, i);
    }
  }

  /** A record that is still there gains a row for every entry, whether or not the coin has one. */
  lemma {:induction false} RestoredRows(s: State, entries: seq<UndoEntry>, n: nat, h: Hash, i: nat)
    requires n <= |entries| && h in s.records
    ensures var t := RestoreAll(s, entries, n);
      h in t.records && Count(t.records[h], i) == Count(s.records[h], i) + TimesListed(entries, n, CoinLocator(h, i))
  {
    if n > 0 {
      RestoredRows(s, entries, n - 1, h, i);
      var e := entries[n - 1];
      CountOfMore(RestoreAll(s, entries, n - 1).records[h], Row(e.locator.outputIndex, e.output), i);
    }
  }

  lemma {:induction false} ListedTimes(entries: seq<UndoEntry>, n: nat, cl: CoinLocator)
    requires n <= |entries|
    ensures TimesListed(entries, n, cl) > 0 <==> Listed(entries, n, cl)
  {
    if n > 0 { ListedTimes(entries, n - 1, cl); }
  }

  /** Undoing leaves two rows of every restored coin whose row has not been flushed. */
  lemma UndoLeavesDuplicates(s: State, txs: seq<Transaction>, entries: seq<UndoEntry>, cl: CoinLocator)
    requires cl.referenceTransactionHash in s.records && cl.referenceTransactionHash !in HashesOf(txs)
    requires Count(s.records[cl.referenceTransactionHash], cl.outputIndex) > 0
    requires Listed(entries, |entries|, cl)
    ensures !NoDuplicates(UndoBlock(s, txs, entries))
  {
    var h, i := cl.referenceTransactionHash, cl.outputIndex;
    DropAllDrops(s, txs, |txs|);
    assert txs[..|txs|] == txs;
    var d := DropAll(s, txs, |txs|);
    assert h in d.records && d.records[h] == s.records[h];
    RestoredRows(d, entries, |entries|, h, i);
    ListedTimes(entries, |entries|, cl);
    assert Count(UndoBlock(s, txs, entries).records[h], i) > 1;
  }

  /** The outputs of the transactions. */
  function OutputCount(txs: seq<Transaction>, n: nat): nat
    requires n <= |txs|
  {
    if n == 0 then 0 else OutputCount(txs, n - 1) + |txs[n - 1].outputs|
  }

  lemma {:induction false} DropAllCounts(s: State, txs: seq<Transaction>, n: nat)
    requires n <= |txs|
    ensures DropAll(s, txs, n).size == Wrap(s.size - OutputCount(txs, n)) && DropAll(s, txs, n).capacity == s.capacity
  {
    if n > 0 {
      DropAllCounts(s, txs, n - 1);
      WrapTakes(s.size - OutputCount(txs, n - 1), |txs[n - 1].outputs|);
    } else {
      WrapFits(s.size);
    }
  }

  lemma {:induction false} RestoreAllCounts(s: State, entries: seq<UndoEntry>, n: nat)
    requires n <= |entries|
    ensures RestoreAll(s, entries, n).size == s.size && RestoreAll(s, entries, n).capacity == s.capacity
  {
    if n > 0 { RestoreAllCounts(s, entries, n - 1); }
  }

  /** Undoing a block lowers the size counter by the number of its outputs, in 32 bits, whether or not
      they were still cached. */
  lemma UndoCounts(s: State, txs: seq<Transaction>, entries: seq<UndoEntry>)
    ensures UndoBlock(s, txs, entries).size == Wrap(s.size - OutputCount(txs, |txs|))
    ensures UndoBlock(s, txs, entries).capacity == s.capacity
  {
    DropAllCounts(s, txs, |txs|);
    RestoreAllCounts(DropAll(s, txs, |txs|), entries, |entries|);
  }

  // ---- When undoing reverts the ledger ----

  /** Every coin that a rebuilt record gives its transaction is a coin the undo block restores. */
  ghost predicate Harmless(known: set<Hash>, entries: seq<UndoEntry>) {
    forall j, k :: 0 <= j < |entries| && 0 <= k < |entries| && entries[j].locator.referenceTransactionHash !in known ==>
      var cl := CoinLocator(entries[j].locator.referenceTransactionHash, entries[k].locator.outputIndex);
      Listed(entries, |entries|, cl) && Find(RowsOf(entries), cl.outputIndex) == OutputNamed(cl)
  }

  /** The coin is put under a transaction by rebuilding its missing record. */
  predicate Rebuilt(s: State, entries: seq<UndoEntry>, cl: CoinLocator) {
    cl.referenceTransactionHash !in s.records && HashListed(entries, |entries|, cl.referenceTransactionHash)
  }

  /** What looking the coin up should give: a restored coin, or what was there. */
  function Wanted(s: State, entries: seq<UndoEntry>, cl: CoinLocator): Option<TransactionOutput> {
    if Listed(entries, |entries|, cl) then OutputNamed(cl) else Lookup(s, cl)
  }

  lemma RestoreLookup(s: State, entries: seq<UndoEntry>, cl: CoinLocator)
    requires Anchored(s, {}) && Named(entries)
    ensures Lookup(RestoreAll(s, entries, |entries|), cl) ==
      if Rebuilt(s, entries, cl) then Find(RowsOf(entries), cl.outputIndex) else Wanted(s, entries, cl)
  {
    RestoredCache(s, entries, |entries|, cl);
    RestoredRecords(s, entries, |entries|, cl);
    if cl in s.cache {
      assert cl.referenceTransactionHash in s.records;
    } else if cl.referenceTransactionHash in s.records {
      NamedRow(s, cl);
    } else {
      assert Lookup(s, cl) == None;
      if Listed(entries, |entries|, cl) { ListedHash(entries, |entries|, cl); }
    }
  }

  lemma NamedRow(s: State, cl: CoinLocator)
    requires Anchored(s, {})
    ensures RecordLookup(s, cl).Some? ==> RecordLookup(s, cl) == OutputNamed(cl)
  {
  }

  lemma {:induction false} ListedHash(entries: seq<UndoEntry>, n: nat, cl: CoinLocator)
    requires n <= |entries| && Listed(entries, n, cl)
    ensures HashListed(entries, n, cl.referenceTransactionHash)
  {
    if entries[n - 1].locator != cl { ListedHash(entries, n - 1, cl); }
  }

  lemma RebuiltIsWanted(s: State, entries: seq<UndoEntry>, cl: CoinLocator)
    requires Anchored(s, {}) && Harmless(s.records.Keys, entries) && Rebuilt(s, entries, cl)
    ensures Find(RowsOf(entries), cl.outputIndex) == Wanted(s, entries, cl)
  {
    var n := |entries|;
    assert entries[..n] == entries;
    RowsOfFind(entries, n, cl.outputIndex);
    var j := ListedEntry(entries, n, cl.referenceTransactionHash);
    if Listed(entries, n, cl) { ListedHasIndex(entries, n, cl); }
    if Find(RowsOf(entries), cl.outputIndex).Some? {
      var k :| 0 <= k < n && entries[k].locator.outputIndex == cl.outputIndex;
      assert cl == CoinLocator(entries[j].locator.referenceTransactionHash, entries[k].locator.outputIndex);
    }
  }

  lemma HarmfulIsUnwanted(s: State, entries: seq<UndoEntry>) returns (cl: CoinLocator)
    requires Anchored(s, {}) && Named(entries) && !Harmless(s.records.Keys, entries)
    ensures Lookup(RestoreAll(s, entries, |entries|), cl) != Wanted(s, entries, cl)
  {
    var n := |entries|;
    assert entries[..n] == entries;
    var j, k :| 0 <= j < n && 0 <= k < n && entries[j].locator.referenceTransactionHash !in s.records &&
      var cl := CoinLocator(entries[j].locator.referenceTransactionHash, entries[k].locator.outputIndex);
      !(Listed(entries, n, cl) && Find(RowsOf(entries), cl.outputIndex) == OutputNamed(cl));
    cl := CoinLocator(entries[j].locator.referenceTransactionHash, entries[k].locator.outputIndex);
    EntryIsListed(entries, n, j);
    RestoreLookup(s, entries, cl);
    RowsOfFind(entries, n, cl.outputIndex);
    assert Lookup(s, cl).None?;
  }

  lemma HarmlessExactly(s: State, entries: seq<UndoEntry>)
    requires Anchored(s, {}) && Named(entries)
    ensures Harmless(s.records.Keys, entries) <==>
      forall cl :: Lookup(RestoreAll(s, entries, |entries|), cl) == Wanted(s, entries, cl)
  {
    if Harmless(s.records.Keys, entries) {
      forall cl ensures Lookup(RestoreAll(s, entries, |entries|), cl) == Wanted(s, entries, cl) {
        RestoreLookup(s, entries, cl);
        if Rebuilt(s, entries, cl) { RebuiltIsWanted(s, entries, cl); }
      }
    } else {
      var cl := HarmfulIsUnwanted(s, entries);
    }
  }

  lemma {:induction false} RestoredIsListed(entries: seq<UndoEntry>, n: nat)
    requires n <= |entries| && Named(entries)
    ensures forall cl :: cl in Restored(entries[..n]) <==> Listed(entries, n, cl)
    ensures forall cl :: cl in Restored(entries[..n]) ==> Some(Restored(entries[..n])[cl]) == OutputNamed(cl)
  {
    if n > 0 {
      RestoredIsListed(entries, n - 1);
      assert entries[..n][..n - 1] == entries[..n - 1];
    }
  }

  function At(u: Utxo, cl: CoinLocator): Option<TransactionOutput> {
    if cl in u then Some(u[cl]) else None
  }

  lemma RevertAt(s: State, d: State, txs: seq<Transaction>, entries: seq<UndoEntry>, cl: CoinLocator)
    requires Anchored(s, {}) && Named(entries)
    requires Lookup(d, cl) == if cl.referenceTransactionHash in HashesOf(txs) then None else Lookup(s, cl)
    ensures At(Revert(LedgerOf(s), txs, entries), cl) == Wanted(d, entries, cl)
  {
    assert entries[..|entries|] == entries;
    RestoredIsListed(entries, |entries|);
    CreatedIsMade(txs);
    LedgerIsLookup(s);
  }

  lemma LedgerEquals(t: State, u: Utxo)
    ensures LedgerOf(t) == u <==> forall cl :: Lookup(t, cl) == At(u, cl)
  {
    LedgerIsLookup(t);
    if LedgerOf(t) == u {
      assert forall cl :: Lookup(t, cl) == At(LedgerOf(t), cl);
    }
    if forall cl :: Lookup(t, cl) == At(u, cl) {
      assert forall cl :: cl in u <==> At(u, cl).Some?;
      assert LedgerOf(t).Keys == u.Keys;
    }
  }

  /** UndoCoins on one block reverts the ledger exactly when every record it rebuilds gets
      only coins of its own transaction. */
  lemma UndoExactly(s: State, txs: seq<Transaction>, entries: seq<UndoEntry>)
    requires Anchored(s, {}) && Named(entries)
    ensures LedgerOf(UndoBlock(s, txs, entries)) == Revert(LedgerOf(s), txs, entries)
       <==> Harmless(s.records.Keys - HashesOf(txs), entries)
  {
    var d := DropAll(s, txs, |txs|);
    assert txs[..|txs|] == txs;
    DropAllDrops(s, txs, |txs|);
    DroppedLookup(s, d, HashesOf(txs));
    HarmlessExactly(d, entries);
    var v := Revert(LedgerOf(s), txs, entries);
    forall cl ensures At(v, cl) == Wanted(d, entries, cl) { RevertAt(s, d, txs, entries, cl); }
    LedgerEquals(UndoBlock(s, txs, entries), v);
  }

  lemma UndoKeepsAnchored(s: State, txs: seq<Transaction>, entries: seq<UndoEntry>)
    requires Anchored(s, {}) && Named(entries)
    requires Harmless(s.records.Keys - HashesOf(txs), entries)
    ensures Anchored(UndoBlock(s, txs, entries), {})
  {
    var d := DropAll(s, txs, |txs|);
    assert txs[..|txs|] == txs;
    DropAllDrops(s, txs, |txs|);
    DroppedLookup(s, d, HashesOf(txs));
    RestoreKeepsAnchored(d, entries);
  }

  lemma RestoreKeepsAnchoredAt(s: State, entries: seq<UndoEntry>, cl: CoinLocator)
    requires Anchored(s, {}) && Named(entries) && Harmless(s.records.Keys, entries)
    ensures var t := RestoreAll(s, entries, |entries|);
      && (cl in t.cache ==> Names(cl, t.cache[cl].output) && RecordLookup(t, cl).Some?)
      && (RecordLookup(t, cl).Some? ==> Names(cl, RecordLookup(t, cl).value))
  {
    RestoredCache(s, entries, |entries|, cl);
    RestoredRecords(s, entries, |entries|, cl);
    if Rebuilt(s, entries, cl) { RebuiltIsWanted(s, entries, cl); }
  }

  lemma RestoreKeepsAnchored(s: State, entries: seq<UndoEntry>)
    requires Anchored(s, {}) && Named(entries) && Harmless(s.records.Keys, entries)
    ensures Anchored(RestoreAll(s, entries, |entries|), {})
  {
    var t := RestoreAll(s, entries, |entries|);
    forall cl
      ensures cl in t.cache ==> Names(cl, t.cache[cl].output) && RecordLookup(t, cl).Some?
      ensures RecordLookup(t, cl).Some? ==> Names(cl, RecordLookup(t, cl).value)
    {
      RestoreKeepsAnchoredAt(s, entries, cl);
    }
  }

  ghost predicate OneTransaction(entries: seq<UndoEntry>) {
    forall j, k :: 0 <= j < |entries| && 0 <= k < |entries| ==>
      entries[j].locator.referenceTransactionHash == entries[k].locator.referenceTransactionHash
  }

  lemma OneTransactionIsHarmless(known: set<Hash>, entries: seq<UndoEntry>)
    requires Named(entries)
    requires OneTransaction(entries) || forall k :: 0 <= k < |entries| ==>
      entries[k].locator.referenceTransactionHash in known
    ensures Harmless(known, entries)
  {
    forall j, k | 0 <= j < |entries| && 0 <= k < |entries| && entries[j].locator.referenceTransactionHash !in known
      ensures var cl := CoinLocator(entries[j].locator.referenceTransactionHash, entries[k].locator.outputIndex);
        Listed(entries, |entries|, cl) && Find(RowsOf(entries), cl.outputIndex) == OutputNamed(cl)
    {
      var cl := CoinLocator(entries[j].locator.referenceTransactionHash, entries[k].locator.outputIndex);
      assert entries[k].locator == cl;
      EntryIsListed(entries, |entries|, k);
      assert entries[..|entries|] == entries;
      RowsOfFind(entries, |entries|, cl.outputIndex);
      SameHashRows(entries, |entries|, cl);
    }
  }

  lemma {:induction false} SameHashRows(entries: seq<UndoEntry>, n: nat, cl: CoinLocator)
    requires n <= |entries| && Named(entries)
    requires forall k :: 0 <= k < |entries| ==>
      entries[k].locator.referenceTransactionHash == cl.referenceTransactionHash
    ensures Find(RowsOf(entries[..n]), cl.outputIndex).Some? ==>
      Find(RowsOf(entries[..n]), cl.outputIndex) == OutputNamed(cl)
  {
    if n > 0 {
      SameHashRows(entries, n - 1, cl);
      var last := [Row(entries[n - 1].locator.outputIndex, entries[n - 1].output)];
      assert RowsOf(entries[..n]) == RowsOf(entries[..n - 1]) + last;
      FindInConcat(RowsOf(entries[..n - 1]), last, cl.outputIndex);
    }
  }

  // ---- What undo blocks record ----

  lemma {:induction false} InputsAreSpent(txs: seq<Transaction>)
    ensures forall cl :: cl in InputsOf(txs) <==> cl in Spent(txs)
  {
    if txs != [] {
      var n := |txs|;
      InputsAreSpent(txs[..n - 1]);
      assert txs[..n] == txs;
      SpentGrows(txs, n);
      var one := InputsOfOne(txs[n - 1]);
      forall cl ensures cl in one <==> cl in SpentBy(txs[n - 1], |txs[n - 1].inputs|) {
        if cl in SpentBy(txs[n - 1], |txs[n - 1].inputs|) {
          var i :| 0 <= i < |txs[n - 1].inputs| && LocatorOf(txs[n - 1].inputs[i]) == cl;
          assert one[i] == cl;
        }
      }
    }
  }

  lemma EntriesRecord(s: State, ls: seq<CoinLocator>)
    requires Anchored(s, {})
    requires forall k :: 0 <= k < |ls| ==> Lookup(s, ls[k]).Some?
    ensures forall k :: 0 <= k < |ls| ==> GetCoin(s, ls[k]).Some?
    ensures forall k :: 0 <= k < |ls| ==> Lookup(s, ls[k]) == Some(Entries(s, ls)[k].output)
    ensures Named(Entries(s, ls))
    ensures forall cl :: cl in ls <==> exists e :: e in Entries(s, ls) && e.locator == cl
  {
    forall cl | cl in ls ensures exists e :: e in Entries(s, ls) && e.locator == cl {
      var k :| 0 <= k < |ls| && ls[k] == cl;
      assert Entries(s, ls)[k] in Entries(s, ls);
    }
  }

  /** The undo block of an accepted block lists exactly the coins it spends. */
  lemma UndoRecordsSpent(s: State, txs: seq<Transaction>)
    requires Anchored(s, {}) && Accepts(LedgerOf(s), txs)
    ensures RecordsSpent(LedgerOf(s), txs, UndoOf(s, txs)) && Named(UndoOf(s, txs))
    ensures |UndoOf(s, txs)| == |InputsOf(txs)|
  {
    var ls := InputsOf(txs);
    InputsAreSpent(txs);
    LedgerIsLookup(s);
    forall k | 0 <= k < |ls| ensures Lookup(s, ls[k]).Some? { assert ls[k] in Spent(txs); }
    EntriesRecord(s, ls);
  }
}
