/** The coin database as the node runs it: maps changed in place by loops. Each method is
    proved to have exactly the effect its counterpart in `CoinState`, `CoinStore` or
    `CoinUndo` describes, in every state and for every iteration order of the Go maps. */
module CoinDatabase {
  import opened Ledger
  import opened UtxoLedger
  import opened CoinState
  import opened CoinStore
  import opened CoinUndo

  lemma RowAt(r: CoinRecord, i: nat, j: nat)
    requires j < |r|
    ensures r[j].outputIndex == i ==> Find(r[j..], i) == Some(r[j].output) && RemoveRow(r[j..], i) == r[j + 1..]
    ensures r[j].outputIndex != i ==>
      Find(r[j..], i) == Find(r[j + 1..], i) && r[..j] + RemoveRow(r[j..], i) == r[..j + 1] + RemoveRow(r[j + 1..], i)
  {
    assert r[j..][1..] == r[j + 1..];
  }

  /** The index of the first row for an output, or -1. */
  method IndexOf(r: CoinRecord, i: nat) returns (k: int)
    ensures -1 <= k < |r|
    ensures k < 0 ==> Find(r, i).None? && RemoveRow(r, i) == r
    ensures k >= 0 ==> Find(r, i) == Some(r[k].output) && RemoveRow(r, i) == r[..k] + r[k + 1..]
  {
    for j := 0 to |r|
      invariant Find(r, i) == Find(r[j..], i)
      invariant RemoveRow(r, i) == r[..j] + RemoveRow(r[j..], i)
    {
      RowAt(r, i, j);
      if r[j].outputIndex == i {
        return j;
      }
    }
    return -1;
  }

  method RemoveCoinFromRecord(r: CoinRecord, i: nat) returns (r': CoinRecord)
    ensures r' == RemoveRow(r, i)
  {
    var index := IndexOf(r, i);
    r' := if index < 0 then r else r[..index] + r[index + 1..];
  }

  method CreateCoinRecord(tx: Transaction) returns (r: CoinRecord)
    ensures r == RecordOf(tx, |tx.outputs|)
  {
    r := [];
    for i := 0 to |tx.outputs|
      invariant r == RecordOf(tx, i)
    {
      r := r + [Row(i, tx.outputs[i])];
    }
  }

  /** The output indexes of one transaction among the spent coins of `done`. */
  ghost function SpentIn(s: State, done: set<CoinLocator>, h: Hash): set<nat> {
    set cl | cl in done && cl in s.cache && s.cache[cl].isSpent && cl.referenceTransactionHash == h :: cl.outputIndex
  }

  function RecordAt(s: State, h: Hash): CoinRecord {
    if h in s.records then s.records[h] else []
  }

  /** The records a flush has changed once it has visited the coins of `done`. */
  ghost predicate Updated(s: State, done: set<CoinLocator>, updated: map<Hash, CoinRecord>) {
    && (forall h :: h in updated <==> SpentIn(s, done, h) != {})
    && (forall h :: h in updated ==> updated[h] == Strip(RecordAt(s, h), SpentIn(s, done, h)))
  }

  lemma SpentInGrows(s: State, done: set<CoinLocator>, cl: CoinLocator, h: Hash)
    requires cl !in done && cl in s.cache
    ensures SpentIn(s, done + {cl}, h) ==
      if h == cl.referenceTransactionHash && s.cache[cl].isSpent then SpentIn(s, done, h) + {cl.outputIndex}
      else SpentIn(s, done, h)
    ensures h == cl.referenceTransactionHash ==> cl.outputIndex !in SpentIn(s, done, h)
  {
  }

  lemma VisitSpent(s: State, done: set<CoinLocator>, updated: map<Hash, CoinRecord>, cl: CoinLocator)
    requires Updated(s, done, updated) && cl !in done && cl in s.cache && s.cache[cl].isSpent
    ensures var h := cl.referenceTransactionHash;
      var r := if h in updated then updated[h] else RecordAt(s, h);
      Updated(s, done + {cl}, updated[h := RemoveRow(r, cl.outputIndex)])
  {
    var h0, i := cl.referenceTransactionHash, cl.outputIndex;
    var r := if h0 in updated then updated[h0] else RecordAt(s, h0);
    var updated' := updated[h0 := RemoveRow(r, i)];
    forall h
      ensures h in updated' <==> SpentIn(s, done + {cl}, h) != {}
      ensures h in updated' ==> updated'[h] == Strip(RecordAt(s, h), SpentIn(s, done + {cl}, h))
    {
      SpentInGrows(s, done, cl, h);
      if h == h0 {
        assert i in SpentIn(s, done + {cl}, h0);
        RemoveAfterStrip(RecordAt(s, h0), SpentIn(s, done, h0), i);
        StripNothing(RecordAt(s, h0));
      }
    }
  }

  lemma VisitUnspent(s: State, done: set<CoinLocator>, updated: map<Hash, CoinRecord>, cl: CoinLocator)
    requires Updated(s, done, updated) && cl !in done && cl in s.cache && !s.cache[cl].isSpent
    ensures Updated(s, done + {cl}, updated)
  {
    forall h ensures SpentIn(s, done + {cl}, h) == SpentIn(s, done, h) { SpentInGrows(s, done, cl, h); }
  }

  /** The database after a flush has written the changed records that are not in `left`. */
  ghost predicate Written(s: State, updated: map<Hash, CoinRecord>, left: set<Hash>, db: map<Hash, CoinRecord>) {
    && (forall h :: h in db <==> if h in updated && h !in left then updated[h] != [] else h in s.records)
    && (forall h :: h in db ==> db[h] == if h in updated && h !in left then updated[h] else s.records[h])
  }

  lemma AllWritten(s: State, updated: map<Hash, CoinRecord>, db: map<Hash, CoinRecord>)
    requires Updated(s, s.cache.Keys, updated) && Written(s, updated, {}, db)
    ensures db == Flushed(s).records
  {
    forall h
      ensures h in db <==> h in Flushed(s).records
      ensures h in db ==> db[h] == Flushed(s).records[h]
    {
      assert SpentIn(s, s.cache.Keys, h) == SpentAt(s, h);
      StripNothing(RecordAt(s, h));
    }
  }

  /** A cache from which the spent coins outside `remaining` have been dropped. */
  ghost predicate Swept(cache: map<CoinLocator, Coin>, remaining: set<CoinLocator>, now: map<CoinLocator, Coin>) {
    && (forall cl :: cl in now <==> cl in cache && (cl in remaining || !cache[cl].isSpent))
    && (forall cl :: cl in now ==> now[cl] == cache[cl])
  }

  lemma SweepNext(cache: map<CoinLocator, Coin>, remaining: set<CoinLocator>, now: map<CoinLocator, Coin>,
                  cl: CoinLocator)
    requires Swept(cache, remaining, now) && cl in remaining && remaining <= cache.Keys
    ensures cl in now && now[cl] == cache[cl]
    ensures Swept(cache, remaining - {cl}, if now[cl].isSpent then now - {cl} else now)
  {
  }

  class CoinDatabase {
    var mainCache: map<CoinLocator, Coin>
    var mainCacheSize: uint32
    const mainCacheCapacity: uint32
    var db: map<Hash, CoinRecord>

    function State(): State
      reads this
    {
      CoinState.State(mainCache, db, mainCacheSize, mainCacheCapacity)
    }

    constructor (capacity: uint32)
      ensures State() == Empty(capacity)
    {
      mainCache, mainCacheSize, mainCacheCapacity, db := map[], 0, capacity, map[];
    }

    /** A transaction is valid exactly when all its inputs are in the ledger. */
    method ValidateTransaction(tx: Transaction) returns (ok: bool)
      ensures ok <==> SpentBy(tx, |tx.inputs|) <= LedgerOf(State()).Keys
    {
      LedgerIsLookup(State());
      for i := 0 to |tx.inputs|
        invariant forall k :: 0 <= k < i ==> Lookup(State(), LocatorOf(tx.inputs[k])).Some?
      {
        var key := LocatorOf(tx.inputs[i]);
        assert key in SpentBy(tx, |tx.inputs|);
        if key in mainCache {
          if mainCache[key].isSpent {
            return false;
          }
        } else if key.referenceTransactionHash !in db {
          return false;
        } else {
          var index := IndexOf(db[key.referenceTransactionHash], key.outputIndex);
          if index < 0 {
            return false;
          }
        }
      }
      return true;
    }

    method ValidateBlock(txs: seq<Transaction>) returns (ok: bool)
      ensures ok <==> Accepts(LedgerOf(State()), txs)
    {
      for t := 0 to |txs|
        invariant Spent(txs[..t]) <= LedgerOf(State()).Keys
      {
        var valid := ValidateTransaction(txs[t]);
        SpentGrows(txs, t + 1);
        if !valid {
          SpentPrefix(txs, t + 1);
          return false;
        }
      }
      assert txs[..|txs|] == txs;
      return true;
    }

    /** The result does not depend on the order in which the cache is visited. */
    method FlushMainCache()
      modifies this
      ensures State() == Flushed(old(State()))
    {
      ghost var s := State();
      var updated: map<Hash, CoinRecord> := map[];
      var remaining := mainCache.Keys;
      while remaining != {}
        invariant remaining <= s.cache.Keys && db == s.records
        invariant Updated(s, s.cache.Keys - remaining, updated)
        invariant Swept(s.cache, remaining, mainCache)
        decreases remaining
      {
        var cl :| cl in remaining;
        ghost var done := s.cache.Keys - remaining;
        SweepNext(s.cache, remaining, mainCache, cl);
        remaining := remaining - {cl};
        assert s.cache.Keys - remaining == done + {cl};
        if mainCache[cl].isSpent {
          var h := cl.referenceTransactionHash;
          var cr := if h in updated then updated[h] else if h in db then db[h] else [];
          cr := RemoveCoinFromRecord(cr, cl.outputIndex);
          VisitSpent(s, done, updated, cl);
          updated := updated[h := cr];
          mainCache := mainCache - {cl};
        } else {
          VisitUnspent(s, done, updated, cl);
        }
      }
      mainCacheSize := 0;
      assert s.cache.Keys - {} == s.cache.Keys;
      assert mainCache == Flushed(s).cache;
      WriteRecords(updated, s);
      AllWritten(s, updated, db);
    }

    method WriteRecords(updated: map<Hash, CoinRecord>, ghost s: State)
      requires db == s.records
      modifies this`db
      ensures Written(s, updated, {}, db)
    {
      var left := updated.Keys;
      while left != {}
        invariant left <= updated.Keys && Written(s, updated, left, db)
        decreases left
      {
        var key :| key in left;
        left := left - {key};
        if updated[key] == [] {
          db := db - {key};
        } else {
          db := db[key := updated[key]];
        }
      }
    }

    method StoreBlock(txs: seq<Transaction>)
      modifies this
      ensures State() == Stored(old(State()), txs)
    {
      UpdateSpentCoins(txs);
      StoreTransactionsInMainCache(txs);
      StoreTransactionsInDB(txs);
    }

    method UpdateSpentCoins(txs: seq<Transaction>)
      modifies this
      ensures State() == MarkAll(old(State()), txs, |txs|)
    {
      ghost var s := State();
      for t := 0 to |txs|
        invariant State() == MarkAll(s, txs, t)
      {
        var tx := txs[t];
        for i := 0 to |tx.inputs|
          invariant State() == MarkInputs(MarkAll(s, txs, t), tx, i)
        {
          var cl := LocatorOf(tx.inputs[i]);
          if cl in mainCache {
            mainCache := mainCache[cl := mainCache[cl].(isSpent := true)];
          } else {
            RemoveCoinFromDB(tx.Hash(), cl);
          }
        }
      }
    }

    method RemoveCoinFromDB(txHash: Hash, cl: CoinLocator)
      modifies this`db
      ensures State() == RemoveFromDb(old(State()), txHash, cl.outputIndex)
    {
      if txHash !in db {
        return;
      }
      var cr := db[txHash];
      if |cr| <= 1 {
        db := db - {txHash};
      } else {
        cr := RemoveCoinFromRecord(cr, cl.outputIndex);
        db := db[txHash := cr];
      }
    }

    method StoreTransactionsInMainCache(txs: seq<Transaction>)
      modifies this
      ensures State() == CacheAll(old(State()), txs, |txs|)
    {
      ghost var s := State();
      for t := 0 to |txs|
        invariant State() == CacheAll(s, txs, t)
      {
        var tx := txs[t];
        for i := 0 to |tx.outputs|
          invariant State() == CacheOutputs(CacheAll(s, txs, t), tx, i)
        {
          if Wrap(mainCacheSize + Wrap(|tx.outputs|)) >= mainCacheCapacity {
            FlushMainCache();
          }
          mainCache := mainCache[CoinLocator(tx.Hash(), i) := Coin(tx.outputs[i], false)];
          mainCacheSize := Wrap(mainCacheSize + 1);
        }
      }
    }

    method StoreTransactionsInDB(txs: seq<Transaction>)
      modifies this`db
      ensures State() == PutAll(old(State()), txs, |txs|)
    {
      ghost var s := State();
      for t := 0 to |txs|
        invariant State() == PutAll(s, txs, t)
      {
        var cr := CreateCoinRecord(txs[t]);
        db := db[txs[t].Hash() := cr];
      }
    }

    method GetCoin(cl: CoinLocator) returns (coin: Option<Coin>)
      ensures coin == CoinState.GetCoin(State(), cl)
    {
      if cl in mainCache {
        return Some(mainCache[cl]);
      }
      if cl.referenceTransactionHash !in db {
        return None;
      }
      var cr := db[cl.referenceTransactionHash];
      var index := IndexOf(cr, cl.outputIndex);
      coin := if index < 0 then None else Some(Coin(cr[index].output, false));
    }

    /** Reverts the given blocks, newest first. */
    method UndoCoins(history: seq<seq<Transaction>>, undos: seq<seq<UndoEntry>>)
      requires |history| == |undos|
      modifies this
      ensures State() == UndoAll(old(State()), history, undos)
    {
      ghost var s := State();
      for i := 0 to |history|
        invariant UndoAll(s, history, undos) == UndoAll(State(), history[i..], undos[i..])
      {
        assert history[i..][1..] == history[i + 1..] && undos[i..][1..] == undos[i + 1..];
        EraseCreated(history[i]);
        ReestablishSpent(undos[i]);
      }
    }

    method EraseCreated(txs: seq<Transaction>)
      modifies this
      ensures State() == DropAll(old(State()), txs, |txs|)
    {
      ghost var s := State();
      for t := 0 to |txs|
        invariant State() == DropAll(s, txs, t)
      {
        EraseOutputs(txs[t]);
        db := db - {txs[t].Hash()};
      }
    }

    method EraseOutputs(tx: Transaction)
      modifies this`mainCache, this`mainCacheSize
      ensures mainCache == old(mainCache) - OutputsOf(tx, |tx.outputs|)
      ensures mainCacheSize == Wrap(old(mainCacheSize) - |tx.outputs|)
    {
      for j := 0 to |tx.outputs|
        invariant mainCache == old(mainCache) - OutputsOf(tx, j) && mainCacheSize == Wrap(old(mainCacheSize) - j)
      {
        assert OutputsOf(tx, j + 1) == OutputsOf(tx, j) + {CoinLocator(tx.Hash(), j)};
        mainCache := mainCache - {CoinLocator(tx.Hash(), j)};
        mainCacheSize := Wrap(mainCacheSize - 1);
      }
    }

    method ReestablishSpent(entries: seq<UndoEntry>)
      modifies this
      ensures State() == RestoreAll(old(State()), entries, |entries|)
    {
      ghost var s := State();
      for j := 0 to |entries|
        invariant State() == RestoreAll(s, entries, j)
      {
        var cl := entries[j].locator;
        if cl in mainCache {
          mainCache := mainCache[cl := mainCache[cl].(isSpent := false)];
        }
        var h := cl.referenceTransactionHash;
        if h in db {
          db := db[h := db[h] + [Row(cl.outputIndex, entries[j].output)]];
        } else {
          db := db[h := RowsOf(entries)];
        }
      }
    }

    /** Under the invariant of `CoinState`, the balance of a script is the value the ledger
        locks with it, up to the width of `uint32`. */
    method GetBalance(script: Script) returns (balance: uint32)
      modifies this
      ensures State() == Flushed(old(State()))
      ensures Inv(old(State())) ==> balance == Wrap(Total(PaidTo(LedgerOf(old(State())), script)))
    {
      ghost var s := State();
      FlushMainCache();
      ghost var seen;
      balance, seen := SumRecords(script);
      if Inv(s) {
        FlushNoDuplicates(s);
        AllCounted(s, script, seen);
      }
    }

    /** Adds up the rows that pay the script, over all records in any order. */
    method SumRecords(script: Script) returns (balance: uint32, ghost seen: Utxo)
      ensures NoDuplicates(State()) ==> SumsTo(State(), script, {}, seen, balance)
    {
      balance, seen := 0, map[];
      var keys := db.Keys;
      ghost var s, clean := State(), NoDuplicates(State());
      NoneCounted(s, script);
      while keys != {}
        invariant keys <= db.Keys
        invariant clean ==> SumsTo(s, script, keys, seen, balance)
        decreases keys
      {
        var h :| h in keys;
        var more := SumRows(db[h], script);
        if clean { CountNext(s, h, script, keys, seen, balance, more); }
        balance := Wrap(balance + more);
        seen := seen + RowsPaying(db[h], h, script);
        keys := keys - {h};
      }
    }
  }

  /** The coins of the ledger locked with a script. */
  function PaidTo(u: Utxo, script: Script): Utxo {
    map cl | cl in u && u[cl].lockingScript == script :: u[cl]
  }

  lemma SpentPrefix(txs: seq<Transaction>, n: nat)
    requires n <= |txs|
    ensures Spent(txs[..n]) <= Spent(txs)
  {
    forall cl | cl in Spent(txs[..n]) ensures cl in Spent(txs) {
      var t, i :| 0 <= t < n && 0 <= i < |txs[..n][t].inputs| && cl == LocatorOf(txs[..n][t].inputs[i]);
      assert txs[t] == txs[..n][t];
    }
  }

  function PayingTotal(r: CoinRecord, script: Script): nat
  {
    if r == [] then 0
    else PayingTotal(r[..|r| - 1], script) +
         if r[|r| - 1].output.lockingScript == script then r[|r| - 1].output.amount else 0
  }

  lemma PayingNext(r: CoinRecord, script: Script, k: nat)
    requires k < |r|
    ensures Wrap(PayingTotal(r[..k + 1], script)) ==
      if r[k].output.lockingScript == script then Wrap(Wrap(PayingTotal(r[..k], script)) + r[k].output.amount)
      else Wrap(PayingTotal(r[..k], script))
  {
    assert r[..k + 1][..k] == r[..k];
    WrapAdds(PayingTotal(r[..k], script), r[k].output.amount);
  }

  /** Adds up the rows of one record that pay the script. */
  method SumRows(r: CoinRecord, script: Script) returns (sum: uint32)
    ensures sum == Wrap(PayingTotal(r, script))
  {
    sum := 0;
    for k := 0 to |r|
      invariant sum == Wrap(PayingTotal(r[..k], script))
    {
      PayingNext(r, script, k);
      if r[k].output.lockingScript == script {
        sum := Wrap(sum + r[k].output.amount);
      }
    }
    assert r[..|r|] == r;
  }

  /** The coins those rows stand for. */
  function RowsPaying(r: CoinRecord, h: Hash, script: Script): Utxo
  {
    if r == [] then map[]
    else
      var front, last := RowsPaying(r[..|r| - 1], h, script), r[|r| - 1];
      if last.output.lockingScript == script then front[CoinLocator(h, last.outputIndex) := last.output] else front
  }

  predicate Unrepeated(r: CoinRecord) {
    forall k, l :: 0 <= k < l < |r| ==> r[k].outputIndex != r[l].outputIndex
  }

  lemma {:induction false} CountedOnce(r: CoinRecord)
    requires forall i :: Count(r, i) <= 1
    ensures Unrepeated(r)
  {
    if r != [] {
      forall i ensures Count(r[1..], i) <= Count(r, i) {}
      CountedOnce(r[1..]);
      FindCounts(r[1..], r[0].outputIndex);
      forall l | 0 < l < |r| ensures r[l].outputIndex != r[0].outputIndex {
        RowIsFound(r[1..], l - 1);
      }
      forall k, l | 0 <= k < l < |r| ensures r[k].outputIndex != r[l].outputIndex {
        if k > 0 { assert r[1..][k - 1].outputIndex != r[1..][l - 1].outputIndex; }
      }
    }
  }

  lemma {:induction false} RowIsFound(r: CoinRecord, k: nat)
    requires k < |r|
    ensures Find(r, r[k].outputIndex).Some?
  {
    if k > 0 && r[0].outputIndex != r[k].outputIndex { RowIsFound(r[1..], k - 1); }
  }

  lemma {:induction false} RowsPayingAt(r: CoinRecord, h: Hash, script: Script, cl: CoinLocator)
    requires Unrepeated(r)
    ensures cl in RowsPaying(r, h, script) <==>
      && cl.referenceTransactionHash == h && Find(r, cl.outputIndex).Some?
      && Find(r, cl.outputIndex).value.lockingScript == script
    ensures cl in RowsPaying(r, h, script) ==> Find(r, cl.outputIndex) == Some(RowsPaying(r, h, script)[cl])
  {
    if r != [] {
      var front, last := r[..|r| - 1], r[|r| - 1];
      assert r == front + [last];
      RowsPayingAt(front, h, script, cl);
      FindInConcat(front, [last], cl.outputIndex);
      if cl.outputIndex == last.outputIndex && Find(front, cl.outputIndex).Some? {
        FoundRow(front, cl.outputIndex);
      }
    }
  }

  lemma {:induction false} RowsPayingTotal(r: CoinRecord, h: Hash, script: Script)
    requires Unrepeated(r)
    ensures Total(RowsPaying(r, h, script)) == PayingTotal(r, script)
  {
    if r != [] {
      var front, last := r[..|r| - 1], r[|r| - 1];
      RowsPayingTotal(front, h, script);
      var cl := CoinLocator(h, last.outputIndex);
      RowsPayingAt(front, h, script, cl);
      if cl in RowsPaying(front, h, script) { FoundRow(front, cl.outputIndex); }
      if last.output.lockingScript == script {
        TotalSplit(RowsPaying(r, h, script), cl);
        assert RowsPaying(r, h, script) - {cl} == RowsPaying(front, h, script);
      }
    }
  }

  /** The coin has a row paying the script in a record that is not among `left`. */
  ghost predicate Counted(s: State, script: Script, left: set<Hash>, cl: CoinLocator) {
    && RecordLookup(s, cl).Some? && RecordLookup(s, cl).value.lockingScript == script
    && cl.referenceTransactionHash !in left
  }

  ghost predicate CountedAre(s: State, script: Script, left: set<Hash>, seen: Utxo) {
    && (forall cl :: cl in seen <==> Counted(s, script, left, cl))
    && (forall cl :: cl in seen ==> RecordLookup(s, cl) == Some(seen[cl]))
  }

  lemma CountRecord(s: State, h: Hash, script: Script, left: set<Hash>, seen: Utxo)
    requires NoDuplicates(s) && h in s.records && h in left && CountedAre(s, script, left, seen)
    ensures var r := s.records[h];
      && CountedAre(s, script, left - {h}, seen + RowsPaying(r, h, script))
      && Total(seen + RowsPaying(r, h, script)) == Total(seen) + PayingTotal(r, script)
  {
    var r := s.records[h];
    CountedOnce(r);
    RowsPayingTotal(r, h, script);
    forall cl
      ensures cl in RowsPaying(r, h, script) <==> cl.referenceTransactionHash == h && Counted(s, script, left - {h}, cl)
      ensures cl in RowsPaying(r, h, script) ==> RecordLookup(s, cl) == Some(RowsPaying(r, h, script)[cl])
    {
      RowsPayingAt(r, h, script, cl);
    }
    TotalUnion(seen, RowsPaying(r, h, script));
  }

  /** The balance of the coins counted so far. */
  ghost predicate SumsTo(s: State, script: Script, left: set<Hash>, seen: Utxo, balance: uint32) {
    CountedAre(s, script, left, seen) && balance == Wrap(Total(seen))
  }

  lemma NoneCounted(s: State, script: Script)
    ensures SumsTo(s, script, s.records.Keys, map[], 0)
  {
  }

  lemma CountNext(s: State, h: Hash, script: Script, left: set<Hash>, seen: Utxo, balance: uint32, more: uint32)
    requires NoDuplicates(s) && h in s.records && h in left && SumsTo(s, script, left, seen, balance)
    requires more == Wrap(PayingTotal(s.records[h], script))
    ensures SumsTo(s, script, left - {h}, seen + RowsPaying(s.records[h], h, script), Wrap(balance + more))
  {
    CountRecord(s, h, script, left, seen);
    WrapAdds(Total(seen), PayingTotal(s.records[h], script));
  }

  /** After a flush every coin of the ledger has a row and every row is a coin of it. */
  lemma FlushedIsRecorded(s: State)
    requires Mid(Flushed(s), {})
    ensures forall cl :: Lookup(Flushed(s), cl) == RecordLookup(Flushed(s), cl)
  {
    var t := Flushed(s);
    forall cl ensures Lookup(t, cl) == RecordLookup(t, cl) {
      if cl in t.cache { assert RecordLookup(t, cl).Some? && !t.cache[cl].isSpent; }
    }
  }

  lemma CountedCoin(s: State, script: Script, seen: Utxo, cl: CoinLocator)
    requires Inv(s) && CountedAre(Flushed(s), script, {}, seen)
    ensures cl in seen <==> cl in PaidTo(LedgerOf(s), script)
    ensures cl in seen ==> seen[cl] == PaidTo(LedgerOf(s), script)[cl]
  {
    FlushKeeps(s, {});
    FlushedIsRecorded(s);
    LedgerIsLookup(s);
    assert Lookup(s, cl) == RecordLookup(Flushed(s), cl);
    assert cl in seen <==> Counted(Flushed(s), script, {}, cl);
  }

  lemma AllCounted(s: State, script: Script, seen: Utxo)
    requires Inv(s) && CountedAre(Flushed(s), script, {}, seen)
    ensures seen == PaidTo(LedgerOf(s), script)
  {
    forall cl
      ensures cl in seen <==> cl in PaidTo(LedgerOf(s), script)
      ensures cl in seen ==> seen[cl] == PaidTo(LedgerOf(s), script)[cl]
    {
      CountedCoin(s, script, seen, cl);
    }
  }
}
