/** A replayed state: the coin database holds the fold of the active chain's blocks, each of
    which was accepted, and the window holds the last hashes. Appending a block and storing one
    beside the active chain keep it, and what they do to the stored undo blocks. */
module ChainReplay {
  import opened Ledger
  import opened UtxoLedger
  import opened CoinState
  import opened CoinStore
  import opened CoinUndo
  import opened ChainState

  /** The record `k` steps below the tip. */
  function ActiveRecord(c: Chain, k: nat): BlockRecord {
    GetBlockRecord(c.records, Ancestor(c.records, c.lastHash, k))
  }

  /** The transactions of the active chain, newest block first. */
  function ActiveBlocks(c: Chain): seq<seq<Transaction>> {
    seq(c.length, k requires 0 <= k < c.length => ActiveRecord(c, k).block.transactions)
  }

  ghost predicate UndosMatch(c: Chain) {
    forall k: nat :: k < c.length ==> UndoMatchesAt(c, k)
  }

  predicate AcceptedAt(blocks: seq<seq<Transaction>>, k: nat)
    requires k < |blocks|
  {
    Accepts(ApplyAll(map[], blocks[k + 1..]), blocks[k])
  }

  /** Every block spends coins of the ledger below it. */
  ghost predicate AllAccepted(blocks: seq<seq<Transaction>>) {
    forall k: nat :: k < |blocks| ==> AcceptedAt(blocks, k)
  }

  ghost predicate Replayed(c: Chain, genesis: Hash) {
    && TipInv(c, genesis)
    && Inv(c.coins)
    && LedgerOf(c.coins) == ApplyAll(map[], ActiveBlocks(c)) && AllAccepted(ActiveBlocks(c))
    && Window(c) && |c.unsafeHashes| == Min(6, c.length)
  }

  /** A replayed state whose undo blocks list exactly what their blocks spent. */
  ghost predicate ReplayInv(c: Chain, genesis: Hash) {
    Replayed(c, genesis) && UndosMatch(c)
  }

  lemma {:induction false} AncestorStable(records: Records, more: Records, genesis: Hash, h: Hash, k: nat)
    requires Linked(records, genesis) && Extends(records, more) && h in records && k < records[h].height
    ensures Ancestor(more, h, k) == Ancestor(records, h, k)
    decreases k
  {
    if k > 0 {
      assert LinkedAt(records, genesis, h);
      AncestorStable(records, more, genesis, ParentOf(records, h), k - 1);
    }
  }

  lemma GenesisIsStored(subsidy: uint32, key: PublicKey)
    ensures var c, g := NewChain(subsidy, key), GenesisBlock(subsidy, key);
      Inv(c.coins) && LedgerOf(c.coins) == Apply(map[], g.transactions) && RecordsSpent(map[], g.transactions, [])
  {
    var g := GenesisBlock(subsidy, key);
    EmptyInv(CACHE_CAPACITY);
    assert Spent(g.transactions) == {};
    StoreRefinesApply(Empty(CACHE_CAPACITY), g.transactions);
  }

  lemma NewReplays(subsidy: uint32, key: PublicKey)
    ensures ReplayInv(NewChain(subsidy, key), GenesisBlock(subsidy, key).Hash())
  {
    GenesisIsStored(subsidy, key);
    NewTipInv(subsidy, key);
    var c, txs := NewChain(subsidy, key), GenesisBlock(subsidy, key).transactions;
    assert ActiveBlocks(c) == [txs];
    assert ActiveBlocks(c)[1..] == [];
    assert ApplyAll(map[], [txs]) == Apply(ApplyAll(map[], [txs][1..]), txs);
  }

  /** A side block leaves the records of the active chain as they were. */
  lemma SideBlockKeepsChain(c: Chain, b: Block, genesis: Hash, k: nat)
    requires TipInv(c, genesis) && b.header.previousHash in c.records
    requires !Active(c, b.Hash()) && k < c.length
    ensures var d := Recorded(c, b);
      && Ancestor(d.records, c.lastHash, k) == Ancestor(c.records, c.lastHash, k)
      && ActiveRecord(d, k) == ActiveRecord(c, k)
  {
    RecordedLinked(c, b, genesis);
    AncestorStable(c.records, Recorded(c, b).records, genesis, c.lastHash, k);
    AncestorHeight(c.records, genesis, c.lastHash, k);
    assert Active(c, Ancestor(c.records, c.lastHash, k));
  }

  lemma SideBlockKeepsBlocks(c: Chain, b: Block, genesis: Hash)
    requires TipInv(c, genesis) && b.header.previousHash in c.records && !Active(c, b.Hash())
    ensures ActiveBlocks(Recorded(c, b)) == ActiveBlocks(c)
    ensures Window(c) ==> Window(Recorded(c, b))
    ensures forall k: nat :: k < c.length ==> (UndoMatchesAt(Recorded(c, b), k) <==> UndoMatchesAt(c, k))
  {
    var d := Recorded(c, b);
    forall k: nat | k < c.length
      ensures Ancestor(d.records, c.lastHash, k) == Ancestor(c.records, c.lastHash, k)
      ensures ActiveRecord(d, k) == ActiveRecord(c, k)
    {
      SideBlockKeepsChain(c, b, genesis, k);
    }
    assert ActiveBlocks(d) == ActiveBlocks(c);
  }

  lemma SideBlockReplays(c: Chain, b: Block, genesis: Hash)
    requires Replayed(c, genesis)
    requires b.header.previousHash in c.records && !Active(c, b.Hash())
    ensures Replayed(Recorded(c, b), genesis)
    ensures ActiveBlocks(Recorded(c, b)) == ActiveBlocks(c)
    ensures forall k: nat :: k < c.length ==> (UndoMatchesAt(Recorded(c, b), k) <==> UndoMatchesAt(c, k))
  {
    RecordedLinked(c, b, genesis);
    SideBlockKeepsBlocks(c, b, genesis);
  }

  lemma StoredHeight(c: Chain, b: Block, genesis: Hash)
    requires Linked(c.records, genesis) && b.Hash() in c.records && b.header.previousHash in c.records
    ensures c.records[b.Hash()].height == HeightOf(c, b)
  {
    NotGenesis(c, b, genesis);
    assert LinkedAt(c.records, genesis, b.Hash());
  }

  /** A block above the tip is not active. */
  lemma HigherIsNotActive(c: Chain, b: Block, genesis: Hash)
    requires TipInv(c, genesis) && b.header.previousHash in c.records && HeightOf(c, b) > c.length
    ensures !Active(c, b.Hash())
  {
    if Active(c, b.Hash()) {
      ActiveHeight(c, genesis, b.Hash());
      StoredHeight(c, b, genesis);
    }
  }

  lemma ChildIsNotActive(c: Chain, b: Block, genesis: Hash)
    requires TipInv(c, genesis) && AppendsTo(c, b)
    ensures !Active(c, b.Hash()) && HeightOf(c, b) == c.length + 1
  {
    HigherIsNotActive(c, b, genesis);
  }

  lemma AppendedAncestors(c: Chain, b: Block, genesis: Hash, k: nat)
    requires TipInv(c, genesis) && AppendsTo(c, b) && k <= c.length
    ensures var d := Appended(c, b);
      && (k == 0 ==> Ancestor(d.records, d.lastHash, k) == b.Hash() && ActiveRecord(d, k).block == b
                     && ActiveRecord(d, k).undo == UndoOf(c.coins, b.transactions))
      && (k > 0 ==> Ancestor(d.records, d.lastHash, k) == Ancestor(c.records, c.lastHash, k - 1)
                    && ActiveRecord(d, k) == ActiveRecord(c, k - 1))
  {
    if k > 0 {
      ChildIsNotActive(c, b, genesis);
      SideBlockKeepsChain(c, b, genesis, k - 1);
    }
  }

  lemma AppendedBlocks(c: Chain, b: Block, genesis: Hash)
    requires TipInv(c, genesis) && AppendsTo(c, b)
    ensures ActiveBlocks(Appended(c, b)) == [b.transactions] + ActiveBlocks(c)
    ensures forall k :: 0 <= k < c.length ==> ActiveRecord(Appended(c, b), k + 1).undo == ActiveRecord(c, k).undo
  {
    var d := Appended(c, b);
    forall k | 0 <= k < d.length
      ensures k == 0 ==> ActiveBlocks(d)[k] == b.transactions
      ensures k > 0 ==> ActiveBlocks(d)[k] == ActiveBlocks(c)[k - 1]
    {
      AppendedAncestors(c, b, genesis, k);
    }
    forall k | 0 <= k < c.length ensures ActiveRecord(d, k + 1).undo == ActiveRecord(c, k).undo {
      AppendedAncestors(c, b, genesis, k + 1);
    }
  }

  lemma AppendedWindow(c: Chain, b: Block, genesis: Hash)
    requires TipInv(c, genesis) && AppendsTo(c, b)
    requires Window(c) && |c.unsafeHashes| == Min(6, c.length)
    ensures Window(Appended(c, b)) && |Appended(c, b).unsafeHashes| == Min(6, c.length + 1)
  {
    var d := Appended(c, b);
    var w := |d.unsafeHashes|;
    forall k | 0 <= k < w
      ensures d.unsafeHashes[w - 1 - k] == Ancestor(d.records, d.lastHash, k)
    {
      AppendedAncestors(c, b, genesis, k);
      if k > 0 { WindowAt(c, k - 1); }
    }
  }

  ghost predicate Matches(blocks: seq<seq<Transaction>>, k: nat, undo: seq<UndoEntry>)
    requires k < |blocks|
  {
    RecordsSpent(ApplyAll(map[], blocks[k + 1..]), blocks[k], undo)
  }

  lemma MatchesStill(blocks: seq<seq<Transaction>>, k: nat, undo: seq<UndoEntry>, txs: seq<Transaction>)
    requires k < |blocks|
    ensures Matches([txs] + blocks, k + 1, undo) <==> Matches(blocks, k, undo)
  {
    assert ([txs] + blocks)[k + 2..] == blocks[k + 1..];
  }

  ghost predicate UndoMatchesAt(c: Chain, k: nat)
    requires k < c.length
  {
    Matches(ActiveBlocks(c), k, ActiveRecord(c, k).undo)
  }

  lemma FirstMatches(d: Chain, blocks: seq<seq<Transaction>>, u: Utxo, txs: seq<Transaction>)
    requires d.length > 0 && ActiveBlocks(d) == [txs] + blocks
    requires u == ApplyAll(map[], blocks) && RecordsSpent(u, txs, ActiveRecord(d, 0).undo)
    ensures UndoMatchesAt(d, 0)
  {
    assert ([txs] + blocks)[1..] == blocks;
  }

  lemma LaterMatches(c: Chain, d: Chain, txs: seq<Transaction>, k: nat)
    requires k < c.length && ActiveBlocks(d) == [txs] + ActiveBlocks(c)
    requires d.length == c.length + 1 && ActiveRecord(d, k + 1).undo == ActiveRecord(c, k).undo
    ensures UndoMatchesAt(d, k + 1) <==> UndoMatchesAt(c, k)
  {
    MatchesStill(ActiveBlocks(c), k, ActiveRecord(c, k).undo, txs);
  }

  lemma AppendedUndos(c: Chain, b: Block, genesis: Hash)
    requires Replayed(c, genesis) && AppendsTo(c, b)
    requires Accepts(LedgerOf(c.coins), b.transactions)
    ensures UndoMatchesAt(Appended(c, b), 0)
    ensures forall k: nat :: k < c.length ==> (UndoMatchesAt(Appended(c, b), k + 1) <==> UndoMatchesAt(c, k))
  {
    AppendedBlocks(c, b, genesis);
    AppendedAncestors(c, b, genesis, 0);
    UndoRecordsSpent(c.coins, b.transactions);
    FirstMatches(Appended(c, b), ActiveBlocks(c), LedgerOf(c.coins), b.transactions);
    forall k: nat | k < c.length ensures UndoMatchesAt(Appended(c, b), k + 1) <==> UndoMatchesAt(c, k) {
      LaterMatches(c, Appended(c, b), b.transactions, k);
    }
  }

  lemma AllAcceptedStill(blocks: seq<seq<Transaction>>, txs: seq<Transaction>)
    requires AllAccepted(blocks) && Accepts(ApplyAll(map[], blocks), txs)
    ensures AllAccepted([txs] + blocks)
  {
    var more := [txs] + blocks;
    forall k: nat | k < |more| ensures AcceptedAt(more, k) {
      assert more[k + 1..] == blocks[k..];
      if k > 0 { assert AcceptedAt(blocks, k - 1); }
    }
  }

  /** Appending an accepted block replays it and records what it spent; the other undo blocks
      are as good as they were. */
  lemma AppendReplays(c: Chain, b: Block, genesis: Hash)
    requires Replayed(c, genesis) && AppendsTo(c, b)
    requires Accepts(LedgerOf(c.coins), b.transactions)
    ensures Replayed(Appended(c, b), genesis)
    ensures ActiveBlocks(Appended(c, b)) == [b.transactions] + ActiveBlocks(c)
    ensures UndoMatchesAt(Appended(c, b), 0)
    ensures forall k: nat :: k < c.length ==> (UndoMatchesAt(Appended(c, b), k + 1) <==> UndoMatchesAt(c, k))
  {
    HandleKeepsTip(c, b, genesis);
    StoreRefinesApply(c.coins, b.transactions);
    AppendedBlocks(c, b, genesis);
    assert ([b.transactions] + ActiveBlocks(c))[1..] == ActiveBlocks(c);
    AllAcceptedStill(ActiveBlocks(c), b.transactions);
    AppendedUndos(c, b, genesis);
    AppendedWindow(c, b, genesis);
  }

  /** The fork search as HandleBlock meets it, after recording a block above the tip: it finds the
      branch point exactly when it lies inside the window and at most a window length back. Only
      then is the block adopted; otherwise the replayed state stays as it is. */
  lemma HandledForkSearch(c: Chain, b: Block, genesis: Hash, d: nat)
    requires Replayed(c, genesis) && !AppendsTo(c, b)
    requires b.header.previousHash in c.records && HeightOf(c, b) > c.length
    requires BranchesAt(Recorded(c, b), b.Hash(), d)
    ensures var e, w := Recorded(c, b), |c.unsafeHashes|; var a := Ancestor(e.records, b.Hash(), d);
      && Replayed(e, genesis)
      && SearchFrom(e, b.Hash(), 0) == (if d <= w && Depth(e, a) < w then Some((d, a)) else None)
      && (d > w || Depth(e, a) >= w ==> Handle(c, b) == Some(e))
      && (d <= w && Depth(e, a) < w && Handle(c, b).Some? ==> Handle(c, b).value.lastHash == b.Hash())
  {
    HigherIsNotActive(c, b, genesis);
    SideBlockReplays(c, b, genesis);
    ForkSearchIsExact(Recorded(c, b), genesis, b.Hash(), d);
  }

  /** A block one higher than the tip on a branch that splits inside the window is found. */
  lemma HandledForkIsFound(c: Chain, b: Block, genesis: Hash) returns (d: nat)
    requires Replayed(c, genesis) && b.header.previousHash in c.records && HeightOf(c, b) == c.length + 1
    ensures BranchesAt(Recorded(c, b), b.Hash(), d)
    ensures var a := Ancestor(Recorded(c, b).records, b.Hash(), d);
      a in c.unsafeHashes ==> SearchFrom(Recorded(c, b), b.Hash(), 0) == Some((d, a))
  {
    HigherIsNotActive(c, b, genesis);
    SideBlockReplays(c, b, genesis);
    d := BranchExists(Recorded(c, b), genesis, b.Hash());
    if Ancestor(Recorded(c, b).records, b.Hash(), d) in c.unsafeHashes {
      LongerForkIsFound(Recorded(c, b), genesis, b.Hash(), d);
    }
  }
}
