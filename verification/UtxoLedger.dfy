/** The plain ledger: a map from coin locators to unspent outputs. Everything the node
    computes about coins is compared with the operations of this module. */
module UtxoLedger {
  import opened Ledger

  type Utxo = map<CoinLocator, TransactionOutput>

  /** One coin an undo block restores. */
  datatype UndoEntry = UndoEntry(locator: CoinLocator, output: TransactionOutput)

  /** The locators the transactions spend. */
  function Spent(txs: seq<Transaction>): set<CoinLocator> {
    set t, i | 0 <= t < |txs| && 0 <= i < |txs[t].inputs| :: LocatorOf(txs[t].inputs[i])
  }

  /** The coins the transactions create. */
  function Created(txs: seq<Transaction>): Utxo {
    map cl | cl in CreatedBy(txs) :: cl.referenceTransactionHash.outputs[cl.outputIndex]
  }

  function CreatedBy(txs: seq<Transaction>): (s: set<CoinLocator>)
    ensures forall cl :: cl in s ==>
      cl.referenceTransactionHash.OfTransaction? && cl.outputIndex < |cl.referenceTransactionHash.outputs|
  {
    set t, i | 0 <= t < |txs| && 0 <= i < |txs[t].outputs| :: CoinLocator(txs[t].Hash(), i)
  }

  /** Storing a block: remove what it spends, add what it creates. */
  function Apply(u: Utxo, txs: seq<Transaction>): Utxo {
    (u - Spent(txs)) + Created(txs)
  }

  /** Every input is an unspent coin. */
  predicate Accepts(u: Utxo, txs: seq<Transaction>) {
    Spent(txs) <= u.Keys
  }

  /** No created coin is already in the ledger. */
  predicate Fresh(u: Utxo, txs: seq<Transaction>) {
    Created(txs).Keys !! u.Keys
  }

  function Restored(entries: seq<UndoEntry>): Utxo
  {
    if entries == [] then map[]
    else Restored(entries[..|entries| - 1])[entries[|entries| - 1].locator := entries[|entries| - 1].output]
  }

  /** Reverting a block: remove what it created, put back the recorded coins. */
  function Revert(u: Utxo, txs: seq<Transaction>, entries: seq<UndoEntry>): Utxo {
    (u - Created(txs).Keys) + Restored(entries)
  }

  /** The undo entries list exactly the coins the transactions spend. */
  ghost predicate RecordsSpent(u: Utxo, txs: seq<Transaction>, entries: seq<UndoEntry>) {
    && (forall e :: e in entries ==> e.locator in u && u[e.locator] == e.output)
    && (forall cl :: cl in Spent(txs) <==> exists e :: e in entries && e.locator == cl)
  }

  lemma {:induction false} RestoredIsRecorded(entries: seq<UndoEntry>, u: Utxo)
    requires forall e :: e in entries ==> e.locator in u && u[e.locator] == e.output
    ensures forall cl :: cl in Restored(entries) <==> exists e :: e in entries && e.locator == cl
    ensures forall cl :: cl in Restored(entries) ==> cl in u && Restored(entries)[cl] == u[cl]
  {
    if entries != [] {
      var front, last := entries[..|entries| - 1], entries[|entries| - 1];
      RestoredIsRecorded(front, u);
      assert entries == front + [last];
      forall cl
        ensures cl in Restored(entries) <==> exists e :: e in entries && e.locator == cl
      {
        if cl in Restored(front) {
          var e :| e in front && e.locator == cl;
          assert e in entries;
        } else if cl == last.locator {
          assert last in entries;
        }
      }
    }
  }

  /** What reverting a block leaves: the coins it spent and those it did not create. */
  lemma RevertedAt(u: Utxo, txs: seq<Transaction>, entries: seq<UndoEntry>, cl: CoinLocator)
    requires Accepts(u, txs) && RecordsSpent(u, txs, entries)
    ensures var v := Revert(Apply(u, txs), txs, entries);
      && (cl in v <==> cl in Spent(txs) || (cl in u && cl !in Created(txs)))
      && (cl in v ==> cl in u && v[cl] == u[cl])
  {
    RestoredIsRecorded(entries, u);
  }

  /** Reverting undoes storing exactly when the block created no coin that was already
      unspent and that it did not itself spend. */
  lemma RevertInvertsApply(u: Utxo, txs: seq<Transaction>, entries: seq<UndoEntry>)
    requires Accepts(u, txs) && RecordsSpent(u, txs, entries)
    ensures Revert(Apply(u, txs), txs, entries) == u
       <==> Created(txs).Keys * u.Keys <= Spent(txs)
  {
    var v := Revert(Apply(u, txs), txs, entries);
    forall cl
      ensures cl in v <==> cl in Spent(txs) || (cl in u && cl !in Created(txs))
      ensures cl in v ==> cl in u && v[cl] == u[cl]
    {
      RevertedAt(u, txs, entries, cl);
    }
    if Created(txs).Keys * u.Keys <= Spent(txs) {
      forall cl ensures cl in u <==> cl in v {}
    } else {
      var cl :| cl in Created(txs).Keys * u.Keys && cl !in Spent(txs);
      assert cl !in v;
    }
  }

  /** A history of blocks, newest first, applied to a ledger. */
  function ApplyAll(u: Utxo, history: seq<seq<Transaction>>): Utxo
  {
    if history == [] then u else Apply(ApplyAll(u, history[1..]), history[0])
  }

  /** The same history reverted, newest first. `undos[k]` belongs to `history[k]`. */
  function RevertAll(u: Utxo, history: seq<seq<Transaction>>, undos: seq<seq<UndoEntry>>): Utxo
    requires |history| == |undos|
    decreases |history|
  {
    if history == [] then u
    else RevertAll(Revert(u, history[0], undos[0]), history[1..], undos[1..])
  }

  /** Every block of the history was accepted, created only fresh coins, and had its undo
      block taken just before it was applied. */
  ghost predicate Chronicle(u: Utxo, history: seq<seq<Transaction>>, undos: seq<seq<UndoEntry>>)
    decreases |history|
  {
    && |history| == |undos|
    && (history != [] ==>
        var before := ApplyAll(u, history[1..]);
        && Chronicle(u, history[1..], undos[1..])
        && Accepts(before, history[0]) && Fresh(before, history[0])
        && RecordsSpent(before, history[0], undos[0]))
  }

  lemma {:induction false} RevertAllInvertsApplyAll(u: Utxo, history: seq<seq<Transaction>>, undos: seq<seq<UndoEntry>>)
    requires Chronicle(u, history, undos)
    ensures RevertAll(ApplyAll(u, history), history, undos) == u
    decreases |history|
  {
    if history != [] {
      RevertInvertsApply(ApplyAll(u, history[1..]), history[0], undos[0]);
      RevertAllInvertsApplyAll(u, history[1..], undos[1..]);
    }
  }

  /** The value of all unspent outputs. */
  ghost function Total(u: Utxo): nat
    decreases u.Keys
  {
    if u == map[] then 0
    else
      var cl :| cl in u;
      u[cl].amount + Total(u - {cl})
  }

  lemma {:induction false} TotalSplit(u: Utxo, cl: CoinLocator)
    requires cl in u
    ensures Total(u) == u[cl].amount + Total(u - {cl})
    decreases u.Keys
  {
    var k :| k in u && Total(u) == u[k].amount + Total(u - {k});
    if k != cl {
      TotalSplit(u - {k}, cl);
      TotalSplit(u - {cl}, k);
      assert u - {k} - {cl} == u - {cl} - {k};
    }
  }

  lemma {:induction false} TotalUnion(u: Utxo, v: Utxo)
    requires u.Keys !! v.Keys
    ensures Total(u + v) == Total(u) + Total(v)
    decreases v.Keys
  {
    if v == map[] {
      assert u + v == u;
    } else {
      var k :| k in v;
      var w, rest := u + v, v - {k};
      assert w - {k} == u + rest;
      assert k in w && w[k] == v[k];
      TotalSplit(v, k);
      TotalSplit(w, k);
      TotalUnion(u, rest);
    }
  }

  /** The coins of `u` that survive spending `s` but are overwritten by `c`. */
  function Overwritten(u: Utxo, s: set<CoinLocator>, c: Utxo): Utxo {
    map cl | cl in u && cl in c && cl !in s :: u[cl]
  }

  function Restrict(u: Utxo, s: set<CoinLocator>): Utxo {
    map cl | cl in u && cl in s :: u[cl]
  }

  lemma TotalOfThree(u: Utxo, a: Utxo, b: Utxo, c: Utxo)
    requires a.Keys !! b.Keys !! c.Keys && u == a + b + c
    ensures Total(u) == Total(a) + Total(b) + Total(c)
  {
    TotalUnion(a + b, c);
    TotalUnion(a, b);
  }

  lemma TotalReplaced(u: Utxo, s: set<CoinLocator>, c: Utxo)
    ensures Total((u - s) + c) + Total(Restrict(u, s)) + Total(Overwritten(u, s, c)) == Total(u) + Total(c)
  {
    var kept := u - (s + c.Keys);
    Partition(u, s, c, kept);
    TotalOfThree(u, kept, Overwritten(u, s, c), Restrict(u, s));
    TotalUnion(kept, c);
  }

  lemma Partition(u: Utxo, s: set<CoinLocator>, c: Utxo, kept: Utxo)
    requires kept == u - (s + c.Keys)
    ensures kept.Keys !! Overwritten(u, s, c).Keys !! Restrict(u, s).Keys && kept.Keys !! c.Keys
    ensures u == kept + Overwritten(u, s, c) + Restrict(u, s)
    ensures (u - s) + c == kept + c
  {
    forall cl ensures cl in u <==> cl in kept || cl in Overwritten(u, s, c) || cl in Restrict(u, s) {}
    forall cl ensures cl in (u - s) + c <==> cl in kept + c {}
  }

  /** Storing a block changes the total by what it creates, less what it spends, less the
      surviving coins it overwrites. */
  lemma ApplyTotal(u: Utxo, txs: seq<Transaction>)
    ensures Total(Apply(u, txs)) + Total(Restrict(u, Spent(txs))) + Total(Overwritten(u, Spent(txs), Created(txs)))
         == Total(u) + Total(Created(txs))
  {
    TotalReplaced(u, Spent(txs), Created(txs));
  }
}
