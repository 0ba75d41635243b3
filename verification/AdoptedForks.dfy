/** What adopting a fork leaves behind: the blocks it undoes are stored again, newest first, so their
    coins come back unspent, forgotten coins they spent come back as well, and the window holds the
    hashes of the old chain. */
module AdoptedForks {
  import opened Ledger
  import opened UtxoLedger
  import opened CoinState
  import opened CoinStore
  import opened CoinUndo
  import opened UndoRuns
  import opened ChainState
  import opened ChainReplay
  import ReplayRuns
  import CacheTiming

  // ---- The blocks that are undone ----

  /** Reading blocks back gives the last `n` of the active chain, newest first. */
  lemma {:induction false} RetrievedAre(records: Records, genesis: Hash, h: Hash, n: nat, i: nat)
    requires Linked(records, genesis) && h in records && i < n <= records[h].height && Retrieve(records, h, n).Some?
    ensures var (txs, undos, hashes) := Retrieve(records, h, n).value;
      var r := GetBlockRecord(records, Ancestor(records, h, i));
      && |txs| == n && |undos| == n && |hashes| == n
      && txs[i] == r.block.transactions && undos[i] == r.undo && hashes[i] == Ancestor(records, h, i)
    decreases n
  {
    RetrievedLengths(records, h, n);
    assert LinkedAt(records, genesis, h);
    if i > 0 { RetrievedAre(records, genesis, ParentOf(records, h), n - 1, i - 1); }
  }

  // ---- Coins that come back ----

  ghost predicate CachedUnspent(s: State, cl: CoinLocator) {
    cl in s.cache && !s.cache[cl].isSpent && Names(cl, s.cache[cl].output)
  }

  lemma {:induction false} MarkInputsKeepsUnspent(s: State, tx: Transaction, n: nat, cl: CoinLocator)
    requires n <= |tx.inputs| && CachedUnspent(s, cl) && cl !in SpentBy(tx, n)
    ensures CachedUnspent(MarkInputs(s, tx, n), cl)
  {
    if n > 0 { MarkInputsKeepsUnspent(s, tx, n - 1, cl); }
  }

  lemma {:induction false} MarkAllKeepsUnspent(s: State, txs: seq<Transaction>, n: nat, cl: CoinLocator)
    requires n <= |txs| && CachedUnspent(s, cl) && cl !in Spent(txs)
    ensures CachedUnspent(MarkAll(s, txs, n), cl)
  {
    if n > 0 {
      MarkAllKeepsUnspent(s, txs, n - 1, cl);
      MarkInputsKeepsUnspent(MarkAll(s, txs, n - 1), txs[n - 1], |txs[n - 1].inputs|, cl);
    }
  }

  lemma {:induction false} CacheOutputsKeepsUnspent(s: State, tx: Transaction, n: nat, cl: CoinLocator)
    requires n <= |tx.outputs|
    requires CachedUnspent(s, cl) || (cl.referenceTransactionHash == tx.Hash() && cl.outputIndex < n)
    ensures CachedUnspent(CacheOutputs(s, tx, n), cl)
  {
    if n > 0 {
      if CachedUnspent(s, cl) || cl != CoinLocator(tx.Hash(), n - 1) { CacheOutputsKeepsUnspent(s, tx, n - 1, cl); }
    }
  }

  lemma {:induction false} CacheAllKeepsUnspent(s: State, txs: seq<Transaction>, n: nat, cl: CoinLocator)
    requires n <= |txs| && (CachedUnspent(s, cl) || cl in CreatedBy(txs[..n]))
    ensures CachedUnspent(CacheAll(s, txs, n), cl)
  {
    if n > 0 {
      var tx := txs[n - 1];
      if CachedUnspent(s, cl) || cl in CreatedBy(txs[..n - 1]) {
        CacheAllKeepsUnspent(s, txs, n - 1, cl);
      } else {
        var t, i :| 0 <= t < n && 0 <= i < |txs[..n][t].outputs| && cl == CoinLocator(txs[..n][t].Hash(), i);
        assert t == n - 1;
      }
      CacheOutputsKeepsUnspent(CacheAll(s, txs, n - 1), tx, |tx.outputs|, cl);
    }
  }

  /** In whatever state a block is stored: the coins it creates are unspent afterwards, and so is any
      cached unspent coin that it does not spend. */
  lemma StoredKeepsUnspent(s: State, txs: seq<Transaction>, cl: CoinLocator)
    requires cl in CreatedBy(txs) || (CachedUnspent(s, cl) && cl !in Spent(txs))
    ensures CachedUnspent(Stored(s, txs), cl)
  {
    if cl !in CreatedBy(txs) { MarkAllKeepsUnspent(s, txs, |txs|, cl); }
    assert txs[..|txs|] == txs;
    CacheAllKeepsUnspent(MarkAll(s, txs, |txs|), txs, |txs|, cl);
    CacheTiming.PutAllCounts(CacheAll(MarkAll(s, txs, |txs|), txs, |txs|), txs, |txs|);
  }

  /** Block `j` creates the coin and no block listed after it up to `n` spends it. */
  ghost predicate MadeLast(blocks: seq<seq<Transaction>>, n: nat, j: nat, cl: CoinLocator) {
    j < n <= |blocks| && cl in CreatedBy(blocks[j]) && forall m :: j < m < n ==> cl !in Spent(blocks[m])
  }

  lemma {:induction false} RestoredKeepsUnspent(s: State, blocks: seq<seq<Transaction>>, n: nat, j: nat,
                                                cl: CoinLocator)
    requires MadeLast(blocks, n, j, cl)
    ensures CachedUnspent(RestoreBlocks(s, blocks, n), cl)
  {
    if j < n - 1 { RestoredKeepsUnspent(s, blocks, n - 1, j, cl); }
    StoredKeepsUnspent(RestoreBlocks(s, blocks, n - 1), blocks[n - 1], cl);
  }

  // ---- Forgotten coins ----

  /** The coin has a row but is not cached. */
  ghost predicate OnlyRecorded(s: State, cl: CoinLocator) {
    cl !in s.cache && RecordLookup(s, cl).Some?
  }

  lemma {:induction false} MarkInputsKeepsRecorded(s: State, tx: Transaction, n: nat, cl: CoinLocator)
    requires n <= |tx.inputs| && OnlyRecorded(s, cl) && cl.referenceTransactionHash != tx.Hash()
    ensures OnlyRecorded(MarkInputs(s, tx, n), cl)
  {
    if n > 0 { MarkInputsKeepsRecorded(s, tx, n - 1, cl); }
  }

  lemma {:induction false} MarkAllKeepsRecorded(s: State, txs: seq<Transaction>, n: nat, cl: CoinLocator)
    requires n <= |txs| && OnlyRecorded(s, cl) && cl.referenceTransactionHash !in HashesOf(txs)
    ensures OnlyRecorded(MarkAll(s, txs, n), cl)
  {
    if n > 0 {
      MarkAllKeepsRecorded(s, txs, n - 1, cl);
      assert txs[n - 1].Hash() in HashesOf(txs);
      MarkInputsKeepsRecorded(MarkAll(s, txs, n - 1), txs[n - 1], |txs[n - 1].inputs|, cl);
    }
  }

  lemma FlushKeepsRecorded(s: State, cl: CoinLocator)
    requires OnlyRecorded(s, cl)
    ensures OnlyRecorded(Flushed(s), cl)
  {
    var h, i := cl.referenceTransactionHash, cl.outputIndex;
    StripKeeps(s.records[h], SpentAt(s, h), i);
    FlushedRecord(s, h, i);
  }

  lemma {:induction false} CacheOutputsKeepsRecorded(s: State, tx: Transaction, n: nat, cl: CoinLocator)
    requires n <= |tx.outputs| && OnlyRecorded(s, cl) && cl.referenceTransactionHash != tx.Hash()
    ensures OnlyRecorded(CacheOutputs(s, tx, n), cl)
  {
    if n > 0 {
      CacheOutputsKeepsRecorded(s, tx, n - 1, cl);
      FlushKeepsRecorded(CacheOutputs(s, tx, n - 1), cl);
    }
  }

  lemma {:induction false} CacheAllKeepsRecorded(s: State, txs: seq<Transaction>, n: nat, cl: CoinLocator)
    requires n <= |txs| && OnlyRecorded(s, cl) && cl.referenceTransactionHash !in HashesOf(txs)
    ensures OnlyRecorded(CacheAll(s, txs, n), cl)
  {
    if n > 0 {
      CacheAllKeepsRecorded(s, txs, n - 1, cl);
      assert txs[n - 1].Hash() in HashesOf(txs);
      CacheOutputsKeepsRecorded(CacheAll(s, txs, n - 1), txs[n - 1], |txs[n - 1].outputs|, cl);
    }
  }

  lemma {:induction false} PutAllKeepsRecorded(s: State, txs: seq<Transaction>, n: nat, cl: CoinLocator)
    requires n <= |txs| && OnlyRecorded(s, cl) && cl.referenceTransactionHash !in HashesOf(txs)
    ensures OnlyRecorded(PutAll(s, txs, n), cl)
  {
    if n > 0 {
      PutAllKeepsRecorded(s, txs, n - 1, cl);
      assert txs[n - 1].Hash() in HashesOf(txs);
    }
  }

  /** In whatever state a block is stored: an uncached coin of another transaction stays, even if the
      block spends it. */
  lemma StoredKeepsRecorded(s: State, txs: seq<Transaction>, cl: CoinLocator)
    requires OnlyRecorded(s, cl) && cl.referenceTransactionHash !in HashesOf(txs)
    ensures OnlyRecorded(Stored(s, txs), cl)
  {
    MarkAllKeepsRecorded(s, txs, |txs|, cl);
    CacheAllKeepsRecorded(MarkAll(s, txs, |txs|), txs, |txs|, cl);
    PutAllKeepsRecorded(CacheAll(MarkAll(s, txs, |txs|), txs, |txs|), txs, |txs|, cl);
  }

  lemma {:induction false} RestoredKeepsRecorded(s: State, blocks: seq<seq<Transaction>>, n: nat, cl: CoinLocator)
    requires n <= |blocks| && OnlyRecorded(s, cl)
    requires forall m :: 0 <= m < n ==> cl.referenceTransactionHash !in HashesOf(blocks[m])
    ensures OnlyRecorded(RestoreBlocks(s, blocks, n), cl)
  {
    if n > 0 {
      RestoredKeepsRecorded(s, blocks, n - 1, cl);
      StoredKeepsRecorded(RestoreBlocks(s, blocks, n - 1), blocks[n - 1], cl);
    }
  }

  lemma {:induction false} UndoCachesNothing(s: State, history: seq<seq<Transaction>>, undos: seq<seq<UndoEntry>>,
                                             cl: CoinLocator)
    requires |history| == |undos| && cl !in s.cache
    ensures cl !in UndoAll(s, history, undos).cache
    decreases |history|
  {
    if history != [] {
      DropAllDrops(s, history[0], |history[0]|);
      RestoredCache(DropAll(s, history[0], |history[0]|), undos[0], |undos[0]|, cl);
      UndoCachesNothing(UndoBlock(s, history[0], undos[0]), history[1..], undos[1..], cl);
    }
  }

  // ---- The window ----

  /** How many hashes the truncation loop drops, for an ancestor at index `at` of the window. */
  function Dropped(i: int, at: nat): int {
    if at <= i then i - at else i
  }

  lemma {:induction false} TrimExactly(window: seq<Hash>, i: nat, ancestor: Hash, at: nat)
    requires i < |window| && at < |window| && window[at] == ancestor
    requires forall k :: 0 <= k < |window| && k != at ==> window[k] != ancestor
    ensures Trim(window, i, ancestor) == window[..|window| - Dropped(i, at)]
  {
    if i > 0 && window[i] != ancestor {
      var front := window[..|window| - 1];
      if at < |front| {
        TrimExactly(front, i - 1, ancestor, at);
      } else {
        TrimAbsent(front, i - 1, ancestor);
      }
    }
  }

  lemma {:induction false} TrimAbsent(window: seq<Hash>, i: nat, ancestor: Hash)
    requires i < |window| && ancestor !in window
    ensures Trim(window, i, ancestor) == window[..|window| - i]
  {
    if i > 0 { TrimAbsent(window[..|window| - 1], i - 1, ancestor); }
  }

  // ---- Adopting ----

  /** The undo blocks of the active chain, newest first. */
  function ActiveUndos(c: Chain): seq<seq<UndoEntry>> {
    seq(c.length, k requires 0 <= k < c.length => ActiveRecord(c, k).undo)
  }

  /** The block is above the tip on a branch whose split from the active chain the search finds, `n`
      steps back. */
  ghost predicate Found(c: Chain, b: Block, n: nat) {
    && !AppendsTo(c, b) && b.header.previousHash in c.records && HeightOf(c, b) > c.length
    && BranchesAt(Recorded(c, b), b.Hash(), n) && n <= |c.unsafeHashes|
    && Depth(Recorded(c, b), Ancestor(Recorded(c, b).records, b.Hash(), n)) < |c.unsafeHashes|
  }

  /** The last `n` hashes of the active chain, oldest first. */
  function LastHashes(c: Chain, n: nat): seq<Hash> {
    seq(n, i requires 0 <= i < n => Ancestor(c.records, c.lastHash, n - 1 - i))
  }

  lemma UndoneBlocks(c: Chain, b: Block, genesis: Hash, n: nat)
    requires Replayed(c, genesis) && Found(c, b, n)
    ensures var e := Recorded(c, b); var r := Retrieve(e.records, e.lastHash, n);
      r.Some? ==>
        r.value.0 == ActiveBlocks(c)[..n] && r.value.1 == ActiveUndos(c)[..n] && Reversed(r.value.2) == LastHashes(c, n)
  {
    var e := Recorded(c, b);
    HigherIsNotActive(c, b, genesis);
    RecordedLinked(c, b, genesis);
    var r := Retrieve(e.records, e.lastHash, n);
    if r.Some? {
      RetrievedLengths(e.records, e.lastHash, n);
      forall i | 0 <= i < n
        ensures r.value.0[i] == ActiveBlocks(c)[i] && r.value.1[i] == ActiveUndos(c)[i]
        ensures r.value.2[i] == Ancestor(c.records, c.lastHash, i)
      {
        RetrievedAre(e.records, genesis, e.lastHash, n, i);
        SideBlockKeepsChain(c, b, genesis, i);
      }
      assert Reversed(r.value.2) == LastHashes(c, n);
    }
  }

  /** The fork in terms of what the search and the reads return. */
  lemma ForkedIs(c: Chain, b: Block, height: nat, n: nat, a: Hash, d: Chain)
    requires SearchFrom(c, b.Hash(), 0) == Some((n, a)) && Forked(c, b, height) == Some(d)
    ensures n <= |c.unsafeHashes| && Min(6, n) - 1 < |c.unsafeHashes| && Retrieve(c.records, c.lastHash, n).Some?
    ensures var (txs, undos, hashes) := Retrieve(c.records, c.lastHash, n).value;
      && |txs| == n && |undos| == n && d.lastHash == b.Hash()
      && d.unsafeHashes == Trim(c.unsafeHashes, Min(6, n) - 1, a) + Reversed(hashes)
      && d.coins == RestoreBlocks(UndoAll(c.coins, txs, undos), txs, n)
  {
    SearchIsShort(c, b.Hash(), 0);
    RetrievedLengths(c.records, c.lastHash, n);
  }

  /** The state an adopted fork ends in. */
  lemma AdoptedState(c: Chain, b: Block, genesis: Hash, n: nat, d: Chain)
    requires Replayed(c, genesis) && Found(c, b, n) && Handle(c, b) == Some(d)
    ensures n <= c.length && Min(6, n) - 1 < |c.unsafeHashes|
    ensures var blocks, undos := ActiveBlocks(c)[..n], ActiveUndos(c)[..n];
      d.lastHash == b.Hash() && d.coins == RestoreBlocks(UndoAll(c.coins, blocks, undos), blocks, n)
    ensures var a := Ancestor(Recorded(c, b).records, b.Hash(), n);
      d.unsafeHashes == Trim(c.unsafeHashes, Min(6, n) - 1, a) + LastHashes(c, n)
  {
    HandledForkSearch(c, b, genesis, n);
    ForkedIs(Recorded(c, b), b, HeightOf(c, b), n, Ancestor(Recorded(c, b).records, b.Hash(), n), d);
    UndoneBlocks(c, b, genesis, n);
  }

  lemma NewBranch(c: Chain, b: Block, genesis: Hash, n: nat)
    requires Replayed(c, genesis) && Found(c, b, n)
    ensures n > 0
  {
    HigherIsNotActive(c, b, genesis);
    if n == 0 {
      var k :| 0 <= k < c.length && Ancestor(Recorded(c, b).records, c.lastHash, k) == b.Hash();
      SideBlockKeepsChain(c, b, genesis, k);
      assert Active(c, b.Hash());
    }
  }

  /** After an adopted fork, every coin that one of the `n` undone blocks created is unspent unless an
      older one of them spends it: also the coins that newer blocks had spent. */
  lemma AdoptedForkRevives(c: Chain, b: Block, genesis: Hash, n: nat, d: Chain, j: nat, cl: CoinLocator)
    requires Replayed(c, genesis) && Found(c, b, n) && Handle(c, b) == Some(d) && n <= c.length
    requires MadeLast(ActiveBlocks(c), n, j, cl)
    ensures cl in LedgerOf(d.coins) && Names(cl, LedgerOf(d.coins)[cl])
  {
    var blocks, undos := ActiveBlocks(c)[..n], ActiveUndos(c)[..n];
    AdoptedState(c, b, genesis, n, d);
    assert MadeLast(blocks, n, j, cl);
    RestoredKeepsUnspent(UndoAll(c.coins, blocks, undos), blocks, n, j, cl);
    LedgerIsLookup(d.coins);
  }

  lemma ActiveUndosAreNamed(c: Chain, genesis: Hash, n: nat)
    requires ReplayInv(c, genesis) && n <= c.length
    ensures AllNamed(ActiveUndos(c)[..n])
  {
    forall k | 0 <= k < n ensures Named(ActiveUndos(c)[..n][k]) {
      assert UndoMatchesAt(c, k);
      ReplayRuns.ReplayIsNamed(ActiveBlocks(c)[k + 1..]);
    }
  }

  /** A forgotten coin that the undone blocks spent, and that undoing them restores, is unspent after
      the fork although the same blocks are stored again. */
  lemma AdoptedForkReturns(c: Chain, b: Block, genesis: Hash, n: nat, d: Chain, cl: CoinLocator)
    requires ReplayInv(c, genesis) && Found(c, b, n) && Handle(c, b) == Some(d) && n <= c.length
    requires Restorable(c.coins.records.Keys, ActiveBlocks(c)[..n], ActiveUndos(c)[..n])
    requires cl in RevertAll(LedgerOf(c.coins), ActiveBlocks(c)[..n], ActiveUndos(c)[..n]) && cl !in c.coins.cache
    requires forall m :: 0 <= m < n ==> cl.referenceTransactionHash !in HashesOf(ActiveBlocks(c)[m])
    ensures cl in LedgerOf(d.coins)
  {
    var blocks, undos := ActiveBlocks(c)[..n], ActiveUndos(c)[..n];
    AdoptedState(c, b, genesis, n, d);
    ActiveUndosAreNamed(c, genesis, n);
    UndoAllExactly(c.coins, blocks, undos);
    UndoCachesNothing(c.coins, blocks, undos, cl);
    LedgerIsLookup(UndoAll(c.coins, blocks, undos));
    RestoredKeepsRecorded(UndoAll(c.coins, blocks, undos), blocks, n, cl);
    LedgerIsLookup(d.coins);
  }

  lemma WindowIsDistinct(c: Chain, genesis: Hash, i: nat, j: nat)
    requires TipInv(c, genesis) && Window(c) && i < |c.unsafeHashes| && j < |c.unsafeHashes| && i != j
    ensures c.unsafeHashes[i] != c.unsafeHashes[j]
  {
    var w := |c.unsafeHashes|;
    WindowAt(c, w - 1 - i);
    WindowAt(c, w - 1 - j);
    AncestorHeight(c.records, genesis, c.lastHash, w - 1 - i);
    AncestorHeight(c.records, genesis, c.lastHash, w - 1 - j);
  }

  lemma TrimmedWindow(c: Chain, genesis: Hash, i: int, a: Hash, at: nat)
    requires TipInv(c, genesis) && Window(c) && 0 <= i < |c.unsafeHashes|
    requires at < |c.unsafeHashes| && c.unsafeHashes[at] == a
    ensures 0 <= Dropped(i, at) <= |c.unsafeHashes|
    ensures Trim(c.unsafeHashes, i, a) == c.unsafeHashes[..|c.unsafeHashes| - Dropped(i, at)]
  {
    forall k | 0 <= k < |c.unsafeHashes| && k != at ensures c.unsafeHashes[k] != a {
      WindowIsDistinct(c, genesis, k, at);
    }
    TrimExactly(c.unsafeHashes, i, a, at);
  }

  /** The window after a fork found `n` steps back: what the truncation leaves of the old one, then the
      last `n` hashes of the old chain, so that its last hash is never the new tip. */
  lemma AdoptedWindow(c: Chain, b: Block, genesis: Hash, n: nat, d: Chain, at: nat, dropped: int)
    requires Replayed(c, genesis) && Found(c, b, n) && Handle(c, b) == Some(d)
    requires at < |c.unsafeHashes| && c.unsafeHashes[at] == Ancestor(Recorded(c, b).records, b.Hash(), n)
    requires dropped == Dropped(Min(6, n) - 1, at)
    ensures 0 <= dropped <= |c.unsafeHashes|
    ensures d.unsafeHashes == c.unsafeHashes[..|c.unsafeHashes| - dropped] + LastHashes(c, n)
    ensures !Window(d)
  {
    NewBranch(c, b, genesis, n);
    AdoptedState(c, b, genesis, n, d);
    TrimmedWindow(c, genesis, Min(6, n) - 1, c.unsafeHashes[at], at);
    assert LastHashes(c, n)[n - 1] == c.lastHash;
    NewTipIsMissing(c, b, genesis, d, n);
  }

  lemma NewTipIsMissing(c: Chain, b: Block, genesis: Hash, d: Chain, n: nat)
    requires TipInv(c, genesis) && b.header.previousHash in c.records && HeightOf(c, b) > c.length
    requires 0 < n <= |d.unsafeHashes| && d.lastHash == b.Hash() && d.unsafeHashes[|d.unsafeHashes| - 1] == c.lastHash
    ensures !Window(d)
  {
    HigherIsNotActive(c, b, genesis);
    assert Ancestor(c.records, c.lastHash, 0) == c.lastHash;
    assert LinkedAt(c.records, genesis, c.lastHash);
    assert Active(c, c.lastHash);
    if Window(d) { WindowAt(d, 0); }
  }
}
