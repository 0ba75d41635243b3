/** Undoing a whole history: exactly when it reverts the ledger, for the final result and for
    every step, and the runs of stores and flushes it inverts. Histories are newest first. */
module UndoRuns {
  import opened Ledger
  import opened UtxoLedger
  import opened CoinState
  import opened CoinStore
  import opened CoinUndo

  // ---- One coin through a history ----

  predicate AllNamed(undos: seq<seq<UndoEntry>>) {
    forall k :: 0 <= k < |undos| ==> Named(undos[k])
  }

  /** A block of the history made the transaction, so undoing it erases the record. */
  predicate Erased(history: seq<seq<Transaction>>, h: Hash) {
    history != [] && (h in HashesOf(history[0]) || Erased(history[1..], h))
  }

  /** An undo block of the history restores the coin. */
  predicate ListedIn(undos: seq<seq<UndoEntry>>, cl: CoinLocator) {
    undos != [] && (Listed(undos[0], |undos[0]|, cl) || ListedIn(undos[1..], cl))
  }

  predicate Mentions(entries: seq<UndoEntry>, h: Hash) {
    HashListed(entries, |entries|, h)
  }

  function FirstRow(entries: seq<UndoEntry>, cl: CoinLocator): Option<TransactionOutput> {
    Find(RowsOf(entries), cl.outputIndex)
  }

  /** A record rebuilt from the first undo block gives its transaction this coin only if an undo
      block of the history restores the coin, and with the coin's own output. */
  predicate RebuildsRightly(undos: seq<seq<UndoEntry>>, cl: CoinLocator)
    requires undos != []
  {
    FirstRow(undos[0], cl).Some? ==> ListedIn(undos, cl) && FirstRow(undos[0], cl) == OutputNamed(cl)
  }

  /** For the coin: whenever an undo block misses the record of the coin's transaction, and no
      older block of the history erases what is rebuilt then, the record is rebuilt rightly.
      `recorded` says whether the record is there at first. */
  predicate RestorableAt(recorded: bool, history: seq<seq<Transaction>>, undos: seq<seq<UndoEntry>>, cl: CoinLocator)
    requires |history| == |undos|
    decreases |history|
  {
    history == [] ||
    (var h := cl.referenceTransactionHash;
     var left := recorded && h !in HashesOf(history[0]);
     && (!left && Mentions(undos[0], h) && !Erased(history[1..], h) ==> RebuildsRightly(undos, cl))
     && RestorableAt(left || Mentions(undos[0], h), history[1..], undos[1..], cl))
  }

  ghost predicate Restorable(known: set<Hash>, history: seq<seq<Transaction>>, undos: seq<seq<UndoEntry>>)
    requires |history| == |undos|
  {
    forall cl: CoinLocator :: RestorableAt(cl.referenceTransactionHash in known, history, undos, cl)
  }

  /** What stays true of one coin of a state and a ledger through every undo: a cached coin is
      right and has its row, and a coin of the ledger can be looked up. */
  ghost predicate Tracked(s: State, u: Utxo, cl: CoinLocator) {
    && (cl in s.cache ==>
        Names(cl, s.cache[cl].output) && RecordLookup(s, cl) == OutputNamed(cl) && Lookup(s, cl) == At(u, cl))
    && (At(u, cl).Some? ==> At(u, cl) == OutputNamed(cl) && Lookup(s, cl).Some?)
  }

  predicate Right(s: State, u: Utxo, cl: CoinLocator) {
    Lookup(s, cl) == At(u, cl)
  }

  /** Whether the record is left when the block's own records are erased. */
  predicate RecordLeft(s: State, txs: seq<Transaction>, h: Hash) {
    h in s.records && h !in HashesOf(txs)
  }

  function RevertedAt(u: Utxo, txs: seq<Transaction>, entries: seq<UndoEntry>,
                      cl: CoinLocator): Option<TransactionOutput> {
    if Listed(entries, |entries|, cl) then OutputNamed(cl)
    else if Makes(HashesOf(txs), cl) then None
    else At(u, cl)
  }

  lemma RevertedIsAt(u: Utxo, txs: seq<Transaction>, entries: seq<UndoEntry>, cl: CoinLocator)
    requires Named(entries)
    ensures At(Revert(u, txs, entries), cl) == RevertedAt(u, txs, entries, cl)
  {
    assert entries[..|entries|] == entries;
    RestoredIsListed(entries, |entries|);
    CreatedIsMade(txs);
  }

  /** The state after the block's own coins are erased, for one coin. */
  lemma DropAt(s: State, u: Utxo, txs: seq<Transaction>, cl: CoinLocator)
    requires Tracked(s, u, cl)
    ensures var d := DropAll(s, txs, |txs|); var h := cl.referenceTransactionHash;
      && (h in d.records <==> RecordLeft(s, txs, h))
      && (RecordLeft(s, txs, h) ==> RecordLookup(d, cl) == RecordLookup(s, cl) && Lookup(d, cl) == Lookup(s, cl))
      && (cl in d.cache <==> cl in s.cache && RecordLeft(s, txs, h))
      && (cl in d.cache ==> d.cache[cl] == s.cache[cl])
  {
    assert txs[..|txs|] == txs;
    DropAllDrops(s, txs, |txs|);
  }

  /** A coin whose record is left stays right if it was, and its row is extended in place. */
  lemma LeftAfter(s: State, u: Utxo, txs: seq<Transaction>, entries: seq<UndoEntry>, cl: CoinLocator)
    requires Tracked(s, u, cl) && Named(entries) && RecordLeft(s, txs, cl.referenceTransactionHash)
    ensures var t, v := UndoBlock(s, txs, entries), Revert(u, txs, entries);
      && cl.referenceTransactionHash in t.records && Tracked(t, v, cl)
      && (cl in t.cache <==> cl in s.cache)
      && (cl !in s.cache ==>
          RecordLookup(t, cl) == if RecordLookup(s, cl).Some? then RecordLookup(s, cl)
                                 else if Listed(entries, |entries|, cl) then OutputNamed(cl) else None)
      && At(v, cl) == (if Listed(entries, |entries|, cl) then OutputNamed(cl) else At(u, cl))
      && (Right(s, u, cl) ==> Right(t, v, cl))
  {
    var d, n := DropAll(s, txs, |txs|), |entries|;
    DropAt(s, u, txs, cl);
    RevertedIsAt(u, txs, entries, cl);
    RestoredCache(d, entries, n, cl);
    RestoredKeys(d, entries, n, cl.referenceTransactionHash);
    RestoredRecords(d, entries, n, cl);
    if Listed(entries, n, cl) { ListedNames(entries, n, cl); }
  }

  lemma {:induction false} ListedNames(entries: seq<UndoEntry>, n: nat, cl: CoinLocator)
    requires n <= |entries| && Named(entries) && Listed(entries, n, cl)
    ensures OutputNamed(cl).Some?
  {
    if entries[n - 1].locator != cl { ListedNames(entries, n - 1, cl); }
  }

  /** A coin whose record is missing is not there at all, unless the undo block rebuilds it. */
  lemma MissingAfter(s: State, u: Utxo, txs: seq<Transaction>, entries: seq<UndoEntry>, cl: CoinLocator)
    requires Tracked(s, u, cl) && Named(entries) && !RecordLeft(s, txs, cl.referenceTransactionHash)
    ensures var t, v, h := UndoBlock(s, txs, entries), Revert(u, txs, entries), cl.referenceTransactionHash;
      && (h in t.records <==> Mentions(entries, h)) && Tracked(t, v, cl) && cl !in t.cache
      && Lookup(t, cl) == (if Mentions(entries, h) then FirstRow(entries, cl) else None)
      && At(v, cl) == (if Listed(entries, |entries|, cl) then OutputNamed(cl) else None)
  {
    var d, n, h := DropAll(s, txs, |txs|), |entries|, cl.referenceTransactionHash;
    DropAt(s, u, txs, cl);
    RevertedIsAt(u, txs, entries, cl);
    RestoredCache(d, entries, n, cl);
    RestoredKeys(d, entries, n, h);
    RestoredRecords(d, entries, n, cl);
    if Listed(entries, n, cl) {
      ListedHash(entries, n, cl);
      ListedIsFound(entries, n, cl);
    }
    if h !in HashesOf(txs) { assert Lookup(s, cl) == None; }
  }

  /** A record that is there and never erased keeps its first row of the coin. */
  lemma {:induction false} KeptRecord(s: State, u: Utxo, history: seq<seq<Transaction>>, undos: seq<seq<UndoEntry>>,
                                      cl: CoinLocator)
    requires |history| == |undos| && AllNamed(undos) && Tracked(s, u, cl) && cl !in s.cache
    requires cl.referenceTransactionHash in s.records && !Erased(history, cl.referenceTransactionHash)
    ensures RestorableAt(true, history, undos, cl)
    ensures Lookup(UndoAll(s, history, undos), cl) ==
      if RecordLookup(s, cl).Some? then RecordLookup(s, cl) else if ListedIn(undos, cl) then OutputNamed(cl) else None
    ensures At(RevertAll(u, history, undos), cl) == if ListedIn(undos, cl) then OutputNamed(cl) else At(u, cl)
    decreases |history|
  {
    if history != [] {
      LeftAfter(s, u, history[0], undos[0], cl);
      KeptRecord(UndoBlock(s, history[0], undos[0]), Revert(u, history[0], undos[0]), history[1..], undos[1..], cl);
      if Listed(undos[0], |undos[0]|, cl) { ListedNames(undos[0], |undos[0]|, cl); }
    }
  }

  /** The last record of a coin that is never erased again, rebuilt by this undo block. */
  lemma RebuiltForGood(s: State, u: Utxo, history: seq<seq<Transaction>>, undos: seq<seq<UndoEntry>>, cl: CoinLocator)
    requires |history| == |undos| > 0 && AllNamed(undos) && Tracked(s, u, cl)
    requires var h := cl.referenceTransactionHash;
      !RecordLeft(s, history[0], h) && Mentions(undos[0], h) && !Erased(history[1..], h)
    ensures RestorableAt(true, history[1..], undos[1..], cl)
    ensures Right(UndoAll(s, history, undos), RevertAll(u, history, undos), cl) <==> RebuildsRightly(undos, cl)
  {
    MissingAfter(s, u, history[0], undos[0], cl);
    KeptRecord(UndoBlock(s, history[0], undos[0]), Revert(u, history[0], undos[0]), history[1..], undos[1..], cl);
    if Listed(undos[0], |undos[0]|, cl) { ListedIsFound(undos[0], |undos[0]|, cl); }
  }

  /** One coin comes out right exactly when it is restorable, from any state in which it is right
      or in which its record will be erased. */
  lemma {:induction false} RightExactly(s: State, u: Utxo, history: seq<seq<Transaction>>, undos: seq<seq<UndoEntry>>,
                                        cl: CoinLocator)
    requires |history| == |undos| && AllNamed(undos) && Tracked(s, u, cl)
    requires Right(s, u, cl) || Erased(history, cl.referenceTransactionHash)
    ensures Right(UndoAll(s, history, undos), RevertAll(u, history, undos), cl)
       <==> RestorableAt(cl.referenceTransactionHash in s.records, history, undos, cl)
    decreases |history|
  {
    if history != [] {
      var h, t, v := cl.referenceTransactionHash, UndoBlock(s, history[0], undos[0]), Revert(u, history[0], undos[0]);
      if RecordLeft(s, history[0], h) {
        LeftAfter(s, u, history[0], undos[0], cl);
        RightExactly(t, v, history[1..], undos[1..], cl);
      } else if Mentions(undos[0], h) && !Erased(history[1..], h) {
        RebuiltForGood(s, u, history, undos, cl);
      } else {
        MissingAfter(s, u, history[0], undos[0], cl);
        if Listed(undos[0], |undos[0]|, cl) { ListedHash(undos[0], |undos[0]|, cl); }
        RightExactly(t, v, history[1..], undos[1..], cl);
      }
    }
  }

  lemma AnchoredIsTracked(s: State, cl: CoinLocator)
    requires Anchored(s, {})
    ensures Tracked(s, LedgerOf(s), cl) && Right(s, LedgerOf(s), cl)
  {
    LedgerIsLookup(s);
    NamedRow(s, cl);
  }

  /** Undoing a suffix of blocks gives the reverted ledger if and only if every coin is
      restorable. */
  lemma UndoAllExactly(s: State, history: seq<seq<Transaction>>, undos: seq<seq<UndoEntry>>)
    requires Anchored(s, {}) && |history| == |undos| && AllNamed(undos)
    ensures LedgerOf(UndoAll(s, history, undos)) == RevertAll(LedgerOf(s), history, undos)
       <==> Restorable(s.records.Keys, history, undos)
  {
    var t, v := UndoAll(s, history, undos), RevertAll(LedgerOf(s), history, undos);
    LedgerEquals(t, v);
    forall cl: CoinLocator
      ensures Lookup(t, cl) == At(v, cl) <==>
        RestorableAt(cl.referenceTransactionHash in s.records.Keys, history, undos, cl)
    {
      AnchoredIsTracked(s, cl);
      RightExactly(s, LedgerOf(s), history, undos, cl);
    }
  }

  // ---- Every step ----

  function HashesIn(entries: seq<UndoEntry>): set<Hash> {
    set k | 0 <= k < |entries| :: entries[k].locator.referenceTransactionHash
  }

  /** Every undo block is harmless where it is undone, with the records rebuilt so far. */
  ghost predicate SafeSteps(known: set<Hash>, history: seq<seq<Transaction>>, undos: seq<seq<UndoEntry>>)
    requires |history| == |undos|
    decreases |history|
  {
    history == [] ||
    (var left := known - HashesOf(history[0]);
     Harmless(left, undos[0]) && SafeSteps(left + HashesIn(undos[0]), history[1..], undos[1..]))
  }

  ghost predicate RevertsEachStep(s: State, history: seq<seq<Transaction>>, undos: seq<seq<UndoEntry>>)
    requires |history| == |undos|
    decreases |history|
  {
    history == [] ||
    (var t := UndoBlock(s, history[0], undos[0]);
     && LedgerOf(t) == Revert(LedgerOf(s), history[0], undos[0])
     && RevertsEachStep(t, history[1..], undos[1..]))
  }

  lemma {:induction false} MentionedIn(entries: seq<UndoEntry>, n: nat, h: Hash)
    requires n <= |entries|
    ensures HashListed(entries, n, h) <==> h in HashesIn(entries[..n])
  {
    if n > 0 {
      MentionedIn(entries, n - 1, h);
      assert entries[..n] == entries[..n - 1] + [entries[n - 1]];
      if h in HashesIn(entries[..n]) {
        var k :| 0 <= k < n && entries[..n][k].locator.referenceTransactionHash == h;
        if k < n - 1 { assert entries[..n - 1][k] == entries[k]; }
      }
      if h in HashesIn(entries[..n - 1]) {
        var k :| 0 <= k < n - 1 && entries[..n - 1][k].locator.referenceTransactionHash == h;
        assert entries[..n][k] == entries[k];
      }
      assert entries[..n][n - 1] == entries[n - 1];
    }
  }

  lemma KeysAfter(s: State, txs: seq<Transaction>, entries: seq<UndoEntry>)
    ensures UndoBlock(s, txs, entries).records.Keys == s.records.Keys - HashesOf(txs) + HashesIn(entries)
  {
    var d := DropAll(s, txs, |txs|);
    assert txs[..|txs|] == txs && entries[..|entries|] == entries;
    DropAllDrops(s, txs, |txs|);
    forall h
      ensures h in UndoBlock(s, txs, entries).records <==> h in s.records.Keys - HashesOf(txs) + HashesIn(entries)
    {
      RestoredKeys(d, entries, |entries|, h);
      MentionedIn(entries, |entries|, h);
    }
  }

  /** Every ledger on the way is the reverted one if and only if every undo block is harmless. */
  lemma {:induction false} EachStepExactly(s: State, history: seq<seq<Transaction>>, undos: seq<seq<UndoEntry>>)
    requires Anchored(s, {}) && |history| == |undos| && AllNamed(undos)
    ensures RevertsEachStep(s, history, undos) <==> SafeSteps(s.records.Keys, history, undos)
    decreases |history|
  {
    if history != [] {
      UndoExactly(s, history[0], undos[0]);
      if Harmless(s.records.Keys - HashesOf(history[0]), undos[0]) {
        UndoKeepsAnchored(s, history[0], undos[0]);
        KeysAfter(s, history[0], undos[0]);
        EachStepExactly(UndoBlock(s, history[0], undos[0]), history[1..], undos[1..]);
      }
    }
  }

  lemma {:induction false} StepsEndReverted(s: State, history: seq<seq<Transaction>>, undos: seq<seq<UndoEntry>>)
    requires |history| == |undos| && RevertsEachStep(s, history, undos)
    ensures LedgerOf(UndoAll(s, history, undos)) == RevertAll(LedgerOf(s), history, undos)
    decreases |history|
  {
    if history != [] { StepsEndReverted(UndoBlock(s, history[0], undos[0]), history[1..], undos[1..]); }
  }

  /** Each undo block that misses a record restores coins of a single transaction. */
  ghost predicate SingleTransactions(known: set<Hash>, history: seq<seq<Transaction>>, undos: seq<seq<UndoEntry>>)
    requires |history| == |undos|
    decreases |history|
  {
    history == [] ||
    (var left := known - HashesOf(history[0]);
     && (HashesIn(undos[0]) <= left || OneTransaction(undos[0]))
     && SingleTransactions(left + HashesIn(undos[0]), history[1..], undos[1..]))
  }

  lemma {:induction false} SingleTransactionsAreSafe(known: set<Hash>, history: seq<seq<Transaction>>,
                                                     undos: seq<seq<UndoEntry>>)
    requires |history| == |undos| && AllNamed(undos) && SingleTransactions(known, history, undos)
    ensures SafeSteps(known, history, undos)
    decreases |history|
  {
    if history != [] {
      var left := known - HashesOf(history[0]);
      OneTransactionIsHarmless(left, undos[0]);
      SingleTransactionsAreSafe(left + HashesIn(undos[0]), history[1..], undos[1..]);
    }
  }

  /** So single transactions suffice, and so does safety of every step. */
  lemma SafeStepsAreRestorable(s: State, history: seq<seq<Transaction>>, undos: seq<seq<UndoEntry>>)
    requires Anchored(s, {}) && |history| == |undos| && AllNamed(undos) && SafeSteps(s.records.Keys, history, undos)
    ensures Restorable(s.records.Keys, history, undos)
  {
    EachStepExactly(s, history, undos);
    StepsEndReverted(s, history, undos);
    UndoAllExactly(s, history, undos);
  }

  // ---- Undo inverts store ----

  /** A stored block, and whether the cache was flushed before it. */
  datatype Step = Step(flush: bool, txs: seq<Transaction>)

  function Before(s: State, steps: seq<Step>): State
    requires steps != []
    decreases |steps|, 0
  {
    if steps[0].flush then Flushed(StoreAll(s, steps[1..])) else StoreAll(s, steps[1..])
  }

  function StoreAll(s: State, steps: seq<Step>): State
    decreases |steps|, 1
  {
    if steps == [] then s else Stored(Before(s, steps), steps[0].txs)
  }

  function HistoryOf(steps: seq<Step>): seq<seq<Transaction>> {
    seq(|steps|, k requires 0 <= k < |steps| => steps[k].txs)
  }

  function UndosOf(s: State, steps: seq<Step>): (undos: seq<seq<UndoEntry>>)
    ensures |undos| == |steps|
    decreases |steps|
  {
    if steps == [] then [] else [UndoOf(Before(s, steps), steps[0].txs)] + UndosOf(s, steps[1..])
  }

  /** Every block was accepted and created only fresh coins when it was stored. */
  predicate Sound(u: Utxo, history: seq<seq<Transaction>>)
  {
    history == [] ||
    (&& Sound(u, history[1..])
     && Accepts(ApplyAll(u, history[1..]), history[0])
     && Fresh(ApplyAll(u, history[1..]), history[0]))
  }

  lemma BeforeKeeps(s: State, steps: seq<Step>)
    requires steps != [] && Inv(StoreAll(s, steps[1..]))
    ensures Inv(Before(s, steps)) && LedgerOf(Before(s, steps)) == LedgerOf(StoreAll(s, steps[1..]))
  {
    FlushKeeps(StoreAll(s, steps[1..]), {});
  }

  lemma {:induction false} StoreAllChronicle(s: State, steps: seq<Step>)
    requires Inv(s) && Sound(LedgerOf(s), HistoryOf(steps))
    ensures Inv(StoreAll(s, steps))
    ensures LedgerOf(StoreAll(s, steps)) == ApplyAll(LedgerOf(s), HistoryOf(steps))
    ensures Chronicle(LedgerOf(s), HistoryOf(steps), UndosOf(s, steps))
    ensures AllNamed(UndosOf(s, steps))
    decreases |steps|
  {
    if steps != [] {
      assert HistoryOf(steps)[1..] == HistoryOf(steps[1..]);
      StoreAllChronicle(s, steps[1..]);
      BeforeKeeps(s, steps);
      StoreRefinesApply(Before(s, steps), steps[0].txs);
      UndoRecordsSpent(Before(s, steps), steps[0].txs);
    }
  }

  /** The state after the steps and possibly one more flush. */
  function AtUndo(s: State, steps: seq<Step>, flush: bool): State {
    if flush then Flushed(StoreAll(s, steps)) else StoreAll(s, steps)
  }

  /** Undoing any suffix of stored blocks, newest first, restores the ledger from before it if
      and only if its coins are restorable. */
  lemma UndoInvertsStore(s: State, steps: seq<Step>, flush: bool)
    requires Inv(s) && Sound(LedgerOf(s), HistoryOf(steps))
    ensures LedgerOf(UndoAll(AtUndo(s, steps, flush), HistoryOf(steps), UndosOf(s, steps))) == LedgerOf(s)
       <==> Restorable(AtUndo(s, steps, flush).records.Keys, HistoryOf(steps), UndosOf(s, steps))
  {
    StoreAllChronicle(s, steps);
    FlushKeeps(StoreAll(s, steps), {});
    UndoAllExactly(AtUndo(s, steps, flush), HistoryOf(steps), UndosOf(s, steps));
    RevertAllInvertsApplyAll(LedgerOf(s), HistoryOf(steps), UndosOf(s, steps));
  }

  /** In particular when each undo block that misses a record restores coins of one transaction. */
  lemma SingleTransactionsSuffice(s: State, steps: seq<Step>, flush: bool)
    requires Inv(s) && Sound(LedgerOf(s), HistoryOf(steps))
    requires SingleTransactions(AtUndo(s, steps, flush).records.Keys, HistoryOf(steps), UndosOf(s, steps))
    ensures LedgerOf(UndoAll(AtUndo(s, steps, flush), HistoryOf(steps), UndosOf(s, steps))) == LedgerOf(s)
  {
    var t, history, undos := AtUndo(s, steps, flush), HistoryOf(steps), UndosOf(s, steps);
    StoreAllChronicle(s, steps);
    FlushKeeps(StoreAll(s, steps), {});
    SingleTransactionsAreSafe(t.records.Keys, history, undos);
    SafeStepsAreRestorable(t, history, undos);
    UndoInvertsStore(s, steps, flush);
  }
}
