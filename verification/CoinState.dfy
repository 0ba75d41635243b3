/** The coin database as a value: a write-back cache over per-transaction coin records, and
    the exact effect of every operation on it. The theorems say when this state refines the
    plain ledger of `UtxoLedger`. */
module CoinState {
  import opened Ledger
  import opened UtxoLedger

  datatype Coin = Coin(output: TransactionOutput, isSpent: bool)

  /** One row of the parallel slices OutputIndexes, Amounts and LockingScripts. */
  datatype Row = Row(outputIndex: nat, output: TransactionOutput)

  type CoinRecord = seq<Row>

  datatype State =
    State(cache: map<CoinLocator, Coin>, records: map<Hash, CoinRecord>, size: uint32, capacity: uint32)

  function Empty(capacity: uint32): State {
    State(map[], map[], 0, capacity)
  }

  // ---- Records ----

  /** The output of the first row with this index. */
  function Find(r: CoinRecord, i: nat): Option<TransactionOutput>
  {
    if r == [] then None
    else if r[0].outputIndex == i then Some(r[0].output)
    else Find(r[1..], i)
  }

  function Count(r: CoinRecord, i: nat): nat
  {
    if r == [] then 0
    else (if r[0].outputIndex == i then 1 else 0) + Count(r[1..], i)
  }

  /** Removes the first row with this index, if there is one. */
  function RemoveRow(r: CoinRecord, i: nat): CoinRecord
  {
    if r == [] then []
    else if r[0].outputIndex == i then r[1..]
    else [r[0]] + RemoveRow(r[1..], i)
  }

  /** Removes the first row of every index in `s`. */
  function Strip(r: CoinRecord, s: set<nat>): CoinRecord
  {
    if r == [] then []
    else if r[0].outputIndex in s then Strip(r[1..], s - {r[0].outputIndex})
    else [r[0]] + Strip(r[1..], s)
  }

  lemma {:induction false} FindCounts(r: CoinRecord, i: nat)
    ensures Find(r, i).Some? <==> Count(r, i) >= 1
  {
    if r != [] { FindCounts(r[1..], i); }
  }

  lemma {:induction false} StripNothing(r: CoinRecord)
    ensures Strip(r, {}) == r
  {
    if r != [] { StripNothing(r[1..]); }
  }

  /** One removal after another, in whatever order, strips the set of removed indexes. */
  lemma {:induction false} RemoveAfterStrip(r: CoinRecord, s: set<nat>, i: nat)
    requires i !in s
    ensures RemoveRow(Strip(r, s), i) == Strip(r, s + {i})
  {
    if r != [] {
      var j := r[0].outputIndex;
      if j in s {
        RemoveAfterStrip(r[1..], s - {j}, i);
        assert (s - {j}) + {i} == (s + {i}) - {j};
      } else if j == i {
        assert (s + {i}) - {j} == s;
      } else {
        RemoveAfterStrip(r[1..], s, i);
      }
    }
  }

  lemma {:induction false} StripKeeps(r: CoinRecord, s: set<nat>, i: nat)
    requires i !in s
    ensures Find(Strip(r, s), i) == Find(r, i)
    ensures Count(Strip(r, s), i) == Count(r, i)
  {
    if r != [] {
      if r[0].outputIndex in s {
        StripKeeps(r[1..], s - {r[0].outputIndex}, i);
      } else {
        StripKeeps(r[1..], s, i);
        assert Strip(r, s)[1..] == Strip(r[1..], s);
      }
    }
  }

  lemma {:induction false} StripTakes(r: CoinRecord, s: set<nat>, i: nat)
    requires i in s
    ensures Count(Strip(r, s), i) == if Count(r, i) == 0 then 0 else Count(r, i) - 1
  {
    if r != [] {
      var j := r[0].outputIndex;
      if j == i {
        StripKeeps(r[1..], s - {j}, i);
      } else if j in s {
        StripTakes(r[1..], s - {j}, i);
      } else {
        StripTakes(r[1..], s, i);
        assert Strip(r, s)[1..] == Strip(r[1..], s);
      }
    }
  }

  lemma {:induction false} FindInConcat(r: CoinRecord, q: CoinRecord, i: nat)
    ensures Find(r + q, i) == if Find(r, i).Some? then Find(r, i) else Find(q, i)
  {
    if r == [] {
      assert r + q == q;
    } else {
      assert (r + q)[1..] == r[1..] + q;
      FindInConcat(r[1..], q, i);
    }
  }

  // ---- The ledger a state stands for ----

  /** A cached coin is decided by its flag, any other by its row. */
  function Lookup(s: State, cl: CoinLocator): Option<TransactionOutput> {
    if cl in s.cache then
      if s.cache[cl].isSpent then None else Some(s.cache[cl].output)
    else RecordLookup(s, cl)
  }

  function RecordLookup(s: State, cl: CoinLocator): Option<TransactionOutput> {
    if cl.referenceTransactionHash in s.records
    then Find(s.records[cl.referenceTransactionHash], cl.outputIndex)
    else None
  }

  /** The coin itself, cached coins being returned spent or not. */
  function GetCoin(s: State, cl: CoinLocator): Option<Coin> {
    if cl in s.cache then Some(s.cache[cl])
    else match RecordLookup(s, cl) case Some(o) => Some(Coin(o, false)) case None => None
  }

  function Known(s: State): set<CoinLocator> {
    s.cache.Keys +
    set h, k | h in s.records && 0 <= k < |s.records[h]| :: CoinLocator(h, s.records[h][k].outputIndex)
  }

  function LedgerOf(s: State): Utxo {
    map cl | cl in Known(s) && Lookup(s, cl).Some? :: Lookup(s, cl).value
  }

  lemma {:induction false} FoundRow(r: CoinRecord, i: nat)
    requires Find(r, i).Some?
    ensures exists k :: 0 <= k < |r| && r[k].outputIndex == i
  {
    if r[0].outputIndex != i {
      FoundRow(r[1..], i);
      var k :| 0 <= k < |r[1..]| && r[1..][k].outputIndex == i;
      assert r[k + 1].outputIndex == i;
    }
  }

  lemma LedgerIsLookup(s: State)
    ensures forall cl :: cl in LedgerOf(s) <==> Lookup(s, cl).Some?
    ensures forall cl :: cl in LedgerOf(s) ==> Lookup(s, cl) == Some(LedgerOf(s)[cl])
  {
    forall cl | Lookup(s, cl).Some?
      ensures cl in Known(s)
    {
      if cl !in s.cache {
        FoundRow(s.records[cl.referenceTransactionHash], cl.outputIndex);
      }
    }
  }

  lemma SameLookupSameLedger(s: State, t: State)
    requires forall cl :: Lookup(s, cl) == Lookup(t, cl)
    ensures LedgerOf(s) == LedgerOf(t)
  {
    LedgerIsLookup(s);
    LedgerIsLookup(t);
  }

  /** An unspent coin is found exactly where looking it up in the ledger finds its output. */
  lemma GetCoinExactly(s: State, cl: CoinLocator, output: TransactionOutput)
    ensures GetCoin(s, cl) == Some(Coin(output, false)) <==> Lookup(s, cl) == Some(output)
    ensures GetCoin(s, cl) == Some(Coin(output, true)) <==> cl in s.cache && s.cache[cl] == Coin(output, true)
    ensures GetCoin(s, cl).None? <==> cl !in s.cache && Lookup(s, cl).None?
  {
  }

  // ---- Invariants ----

  /** Cached coins and rows carry the output their locator names, and a cached coin has a row
      or belongs to a transaction whose record is still to be written. */
  ghost predicate Anchored(s: State, pending: set<Hash>) {
    && (forall cl :: cl in s.cache ==> Names(cl, s.cache[cl].output))
    && (forall cl :: RecordLookup(s, cl).Some? ==> Names(cl, RecordLookup(s, cl).value))
    && (forall cl :: cl in s.cache ==>
        || RecordLookup(s, cl).Some?
        || (cl.referenceTransactionHash in pending && !s.cache[cl].isSpent))
  }

  ghost predicate NoDuplicates(s: State) {
    forall h, i :: h in s.records ==> Count(s.records[h], i) <= 1
  }

  /** The invariant in the middle of storing a block: rows are also cached and unique. */
  ghost predicate Mid(s: State, pending: set<Hash>) {
    && Anchored(s, pending)
    && NoDuplicates(s)
    && (forall cl :: RecordLookup(s, cl).Some? ==> cl in s.cache)
  }

  /** Between calls the cached locators and the rows coincide. */
  ghost predicate Inv(s: State) {
    Mid(s, {})
  }

  lemma EmptyInv(capacity: uint32)
    ensures Inv(Empty(capacity)) && LedgerOf(Empty(capacity)) == map[]
  {
  }

  // ---- Flushing ----

  function SpentAt(s: State, h: Hash): set<nat> {
    set cl | cl in s.cache && s.cache[cl].isSpent && cl.referenceTransactionHash == h :: cl.outputIndex
  }

  function Flushed(s: State): State {
    State(map cl | cl in s.cache && !s.cache[cl].isSpent :: s.cache[cl],
          map h | h in s.records && (SpentAt(s, h) == {} || Strip(s.records[h], SpentAt(s, h)) != [])
            :: Strip(s.records[h], SpentAt(s, h)),
          0, s.capacity)
  }

  lemma FlushedRecord(s: State, h: Hash, i: nat)
    requires h in s.records
    ensures (if h in Flushed(s).records then Find(Flushed(s).records[h], i) else None)
         == Find(Strip(s.records[h], SpentAt(s, h)), i)
  {
  }

  lemma FlushedLookup(s: State, cl: CoinLocator)
    ensures Lookup(Flushed(s), cl) == Lookup(s, cl)
       <==> !(cl in s.cache && s.cache[cl].isSpent && cl.referenceTransactionHash in s.records
              && Count(s.records[cl.referenceTransactionHash], cl.outputIndex) >= 2)
  {
    var h, i := cl.referenceTransactionHash, cl.outputIndex;
    if h in s.records {
      var r := s.records[h];
      FlushedRecord(s, h, i);
      if i in SpentAt(s, h) {
        assert cl in s.cache;
        StripTakes(r, SpentAt(s, h), i);
        FindCounts(Strip(r, SpentAt(s, h)), i);
      } else {
        StripKeeps(r, SpentAt(s, h), i);
      }
    }
  }

  /** Flushing leaves the ledger alone exactly when no spent cached coin has two rows. */
  lemma FlushExactly(s: State)
    ensures LedgerOf(Flushed(s)) == LedgerOf(s)
       <==> forall cl :: cl in s.cache && s.cache[cl].isSpent && cl.referenceTransactionHash in s.records
              ==> Count(s.records[cl.referenceTransactionHash], cl.outputIndex) <= 1
  {
    LedgerIsLookup(s);
    LedgerIsLookup(Flushed(s));
    forall cl ensures Lookup(Flushed(s), cl) == Lookup(s, cl)
       <==> !(cl in s.cache && s.cache[cl].isSpent && cl.referenceTransactionHash in s.records
              && Count(s.records[cl.referenceTransactionHash], cl.outputIndex) >= 2)
    {
      FlushedLookup(s, cl);
    }
    if LedgerOf(Flushed(s)) == LedgerOf(s) {
      forall cl ensures Lookup(Flushed(s), cl) == Lookup(s, cl) {
        assert cl in LedgerOf(s) <==> cl in LedgerOf(Flushed(s));
      }
    } else if forall cl :: Lookup(Flushed(s), cl) == Lookup(s, cl) {
      SameLookupSameLedger(Flushed(s), s);
    }
  }

  lemma FlushNoDuplicates(s: State)
    requires NoDuplicates(s)
    ensures NoDuplicates(Flushed(s))
  {
    var t := Flushed(s);
    forall h, i | h in t.records ensures Count(t.records[h], i) <= 1 {
      if i in SpentAt(s, h) { StripTakes(s.records[h], SpentAt(s, h), i); }
      else { StripKeeps(s.records[h], SpentAt(s, h), i); }
    }
  }

  lemma FlushKeeps(s: State, pending: set<Hash>)
    requires Mid(s, pending)
    ensures Mid(Flushed(s), pending)
    ensures forall cl :: Lookup(Flushed(s), cl) == Lookup(s, cl)
    ensures LedgerOf(Flushed(s)) == LedgerOf(s)
  {
    var t := Flushed(s);
    forall cl ensures Lookup(t, cl) == Lookup(s, cl) { FlushedLookup(s, cl); }
    SameLookupSameLedger(t, s);
    FlushNoDuplicates(s);
    forall cl
      ensures RecordLookup(t, cl) == if cl in t.cache then RecordLookup(s, cl) else None
    {
      var h, i := cl.referenceTransactionHash, cl.outputIndex;
      if h in s.records {
        FlushedRecord(s, h, i);
        if cl in s.cache && s.cache[cl].isSpent {
          assert i in SpentAt(s, h);
          StripTakes(s.records[h], SpentAt(s, h), i);
          FindCounts(Strip(s.records[h], SpentAt(s, h)), i);
        } else {
          assert i !in SpentAt(s, h);
          StripKeeps(s.records[h], SpentAt(s, h), i);
        }
      }
    }
  }
}
