/** A run of stored blocks that undoing does not invert: one block spends the only coins of two
    transactions, and after a flush its undo block finds neither record. */
module MixedUndo {
  import opened Ledger
  import opened UtxoLedger
  import opened CoinState
  import opened CoinStore
  import opened CoinUndo
  import opened UndoRuns

  // ---- Records go with their last coin ----

  /** No record of a transaction with outputs is empty. */
  ghost predicate Filled(s: State) {
    forall h :: h in s.records && h.OfTransaction? && h.outputs != [] ==> s.records[h] != []
  }

  lemma FlushKeepsFilled(s: State)
    requires Filled(s)
    ensures Filled(Flushed(s))
  {
    forall h | h in s.records && SpentAt(s, h) == {} ensures Strip(s.records[h], SpentAt(s, h)) == s.records[h] {
      StripNothing(s.records[h]);
    }
  }

  lemma {:induction false} CacheOutputsFilled(s: State, tx: Transaction, n: nat)
    requires n <= |tx.outputs| && Filled(s)
    ensures Filled(CacheOutputs(s, tx, n))
  {
    if n > 0 {
      CacheOutputsFilled(s, tx, n - 1);
      FlushKeepsFilled(CacheOutputs(s, tx, n - 1));
    }
  }

  lemma {:induction false} CacheAllFilled(s: State, txs: seq<Transaction>, n: nat)
    requires n <= |txs| && Filled(s)
    ensures Filled(CacheAll(s, txs, n))
  {
    if n > 0 {
      CacheAllFilled(s, txs, n - 1);
      CacheOutputsFilled(CacheAll(s, txs, n - 1), txs[n - 1], |txs[n - 1].outputs|);
    }
  }

  lemma {:induction false} PutAllFilled(s: State, txs: seq<Transaction>, n: nat)
    requires n <= |txs| && Filled(s)
    ensures Filled(PutAll(s, txs, n))
  {
    if n > 0 { PutAllFilled(s, txs, n - 1); }
  }

  lemma StoreKeepsFilled(s: State, txs: seq<Transaction>)
    requires Inv(s) && Accepts(LedgerOf(s), txs) && Filled(s)
    ensures Filled(Stored(s, txs))
  {
    assert txs[..|txs|] == txs;
    AcceptedAreCached(s, txs);
    MarkAllMarks(s, txs, |txs|);
    CacheAllFilled(MarkAll(s, txs, |txs|), txs, |txs|);
    PutAllFilled(CacheAll(MarkAll(s, txs, |txs|), txs, |txs|), txs, |txs|);
  }

  lemma {:induction false} StoreAllFilled(s: State, steps: seq<Step>)
    requires Inv(s) && Filled(s) && Sound(LedgerOf(s), HistoryOf(steps))
    ensures Filled(StoreAll(s, steps))
    decreases |steps|
  {
    if steps != [] {
      assert HistoryOf(steps)[1..] == HistoryOf(steps[1..]);
      StoreAllFilled(s, steps[1..]);
      StoreAllChronicle(s, steps[1..]);
      BeforeKeeps(s, steps);
      FlushKeepsFilled(StoreAll(s, steps[1..]));
      StoreKeepsFilled(Before(s, steps), steps[0].txs);
    }
  }

  /** A flush drops the record of a transaction whose coins are all spent. */
  lemma SpentRecordIsGone(s: State, h: Hash)
    requires Inv(s) && Filled(s) && h.OfTransaction? && h.outputs != []
    requires forall i: nat :: CoinLocator(h, i) !in LedgerOf(s)
    ensures h !in Flushed(s).records
  {
    var t := Flushed(s);
    if h in t.records {
      FlushKeepsFilled(s);
      var i := t.records[h][0].outputIndex;
      assert Find(t.records[h], i).Some?;
      LedgerIsLookup(s);
      RowIsUnspent(s, CoinLocator(h, i));
    }
  }

  lemma RowIsUnspent(s: State, cl: CoinLocator)
    requires Inv(s) && RecordLookup(Flushed(s), cl).Some?
    ensures Lookup(s, cl).Some?
  {
    FlushKeeps(s, {});
  }

  // ---- The run ----

  function Spender(a: Transaction, b: Transaction, outputs: seq<TransactionOutput>): Transaction {
    Transaction(false, 0, [TransactionInput(a.Hash(), 0, NoScript), TransactionInput(b.Hash(), 0, NoScript)],
                outputs, [], 0)
  }

  /** Two transactions without inputs and with one output each, of different outputs. */
  predicate TwoMints(a: Transaction, b: Transaction) {
    a.inputs == [] && b.inputs == [] && |a.outputs| == 1 && |b.outputs| == 1 && a.outputs[0] != b.outputs[0]
  }

  lemma MintsAreSound(a: Transaction, b: Transaction)
    requires TwoMints(a, b)
    ensures Sound(map[], [[a, b]])
    ensures CoinLocator(a.Hash(), 0) in ApplyAll(map[], [[a, b]])
    ensures CoinLocator(b.Hash(), 0) in ApplyAll(map[], [[a, b]])
    ensures forall cl :: cl in ApplyAll(map[], [[a, b]]) ==>
      cl.referenceTransactionHash in {a.Hash(), b.Hash()} && cl.outputIndex == 0
  {
    var txs := [a, b];
    var history := [txs];
    assert history[1..] == [];
    assert Spent(txs) == {} && Accepts(map[], txs) && Fresh(map[], txs);
    assert ApplyAll(map[], history) == Apply(map[], txs);
    assert txs[0].Hash() == a.Hash() && txs[1].Hash() == b.Hash();
    assert CoinLocator(txs[0].Hash(), 0) in CreatedBy(txs) && CoinLocator(txs[1].Hash(), 0) in CreatedBy(txs);
  }

  lemma SpenderSpends(a: Transaction, b: Transaction, outputs: seq<TransactionOutput>)
    ensures var c := Spender(a, b, outputs);
      && InputsOf([c]) == [CoinLocator(a.Hash(), 0), CoinLocator(b.Hash(), 0)]
      && Spent([c]) == {CoinLocator(a.Hash(), 0), CoinLocator(b.Hash(), 0)}
  {
    var c := Spender(a, b, outputs);
    var txs := [c];
    assert txs[..0] == [] && InputsOf([]) == [];
    assert InputsOf(txs) == InputsOf([]) + InputsOfOne(c);
    var ls := [CoinLocator(a.Hash(), 0), CoinLocator(b.Hash(), 0)];
    assert InputsOfOne(c) == ls;
    InputsAreSpent(txs);
    forall cl ensures cl in Spent(txs) <==> cl in {ls[0], ls[1]} {}
  }

  lemma SpenderIsSound(u: Utxo, a: Transaction, b: Transaction, outputs: seq<TransactionOutput>)
    requires TwoMints(a, b) && CoinLocator(a.Hash(), 0) in u && CoinLocator(b.Hash(), 0) in u
    requires forall cl :: cl in u ==> cl.referenceTransactionHash in {a.Hash(), b.Hash()} && cl.outputIndex == 0
    ensures var c := Spender(a, b, outputs);
      && Sound(u, [[c]]) && InputsOf([c]) == [CoinLocator(a.Hash(), 0), CoinLocator(b.Hash(), 0)]
      && forall i: nat :: CoinLocator(b.Hash(), i) !in Apply(u, [c])
  {
    var c := Spender(a, b, outputs);
    var history := [[c]];
    assert history[1..] == [];
    SpenderSpends(a, b, outputs);
    CreatedIsMade([c]);
    assert HashesOf([c]) == {c.Hash()};
    assert c.Hash() != a.Hash() && c.Hash() != b.Hash();
    forall cl | cl in Created([c]) ensures cl !in u && cl.referenceTransactionHash != b.Hash() {
      assert cl.referenceTransactionHash == c.Hash();
    }
    assert Accepts(u, history[0]) && Fresh(u, history[0]) && ApplyAll(u, history[1..]) == u;
    forall i: nat ensures CoinLocator(b.Hash(), i) !in Apply(u, [c]) {
      if CoinLocator(b.Hash(), i) in u { assert i == 0; }
    }
  }

  /** Storing a and b, then a block that spends both, flushing, and undoing that block does not
      give back the ledger from before it. */
  lemma MixedUndoFails(capacity: uint32, a: Transaction, b: Transaction, outputs: seq<TransactionOutput>, first: bool,
                       second: bool)
    requires TwoMints(a, b)
    ensures var s, steps := StoreAll(Empty(capacity), [Step(first, [a, b])]), [Step(second, [Spender(a, b, outputs)])];
      LedgerOf(UndoAll(AtUndo(s, steps, true), HistoryOf(steps), UndosOf(s, steps))) != LedgerOf(s)
  {
    var s0, c := Empty(capacity), Spender(a, b, outputs);
    var minting, steps := [Step(first, [a, b])], [Step(second, [c])];
    EmptyInv(capacity);
    MintsAreSound(a, b);
    assert HistoryOf(minting) == [[a, b]] && HistoryOf(steps) == [[c]];
    StoreAllChronicle(s0, minting);
    StoreAllFilled(s0, minting);
    var s := StoreAll(s0, minting);
    SpenderIsSound(LedgerOf(s), a, b, outputs);
    UndoInvertsStore(s, steps, true);
    SpendingIsNotRestorable(s, a, b, c, steps);
  }

  lemma SpendingIsNotRestorable(s: State, a: Transaction, b: Transaction, c: Transaction, steps: seq<Step>)
    requires Inv(s) && Filled(s) && TwoMints(a, b) && |steps| == 1 && steps[0].txs == [c]
    requires Sound(LedgerOf(s), [[c]]) && InputsOf([c]) == [CoinLocator(a.Hash(), 0), CoinLocator(b.Hash(), 0)]
    requires forall i: nat :: CoinLocator(b.Hash(), i) !in Apply(LedgerOf(s), [c])
    ensures !Restorable(AtUndo(s, steps, true).records.Keys, HistoryOf(steps), UndosOf(s, steps))
  {
    var history := HistoryOf(steps);
    assert history == [[c]] && history[1..] == [] && steps[1..] == [];
    StoreAllChronicle(s, steps);
    StoreAllFilled(s, steps);
    assert ApplyAll(LedgerOf(s), [[c]]) == Apply(LedgerOf(s), [c]);
    SpentRecordIsGone(StoreAll(s, steps), b.Hash());
    var undos, cl := UndosOf(s, steps), CoinLocator(b.Hash(), 0);
    BeforeKeeps(s, steps);
    TwoEntries(Before(s, steps), a, b, c);
    assert undos == [UndoOf(Before(s, steps), [c])];
    NotRebuiltRightly(undos, a, b);
    assert !RestorableAt(false, HistoryOf(steps), undos, cl);
  }

  lemma TwoEntries(s: State, a: Transaction, b: Transaction, c: Transaction)
    requires Inv(s) && Accepts(LedgerOf(s), [c]) && |a.outputs| == 1 && |b.outputs| == 1
    requires InputsOf([c]) == [CoinLocator(a.Hash(), 0), CoinLocator(b.Hash(), 0)]
    ensures UndoOf(s, [c]) ==
      [UndoEntry(CoinLocator(a.Hash(), 0), a.outputs[0]), UndoEntry(CoinLocator(b.Hash(), 0), b.outputs[0])]
  {
    UndoRecordsSpent(s, [c]);
  }

  lemma NotRebuiltRightly(undos: seq<seq<UndoEntry>>, a: Transaction, b: Transaction)
    requires TwoMints(a, b) && |undos| == 1
    requires undos[0] ==
      [UndoEntry(CoinLocator(a.Hash(), 0), a.outputs[0]), UndoEntry(CoinLocator(b.Hash(), 0), b.outputs[0])]
    ensures !RebuildsRightly(undos, CoinLocator(b.Hash(), 0)) && Mentions(undos[0], b.Hash())
  {
    assert RowsOf(undos[0])[0] == Row(0, a.outputs[0]);
    EntryIsListed(undos[0], 2, 1);
  }
}
