/** What a lost undo block leads to, and runs that lose one or replace a block of the active chain. */
module StaleUndo {
  import opened Ledger
  import opened UtxoLedger
  import opened CoinState
  import opened CoinStore
  import opened CoinUndo
  import opened ChainState
  import opened ChainReplay
  import opened ReplayRuns
  import opened CacheTiming

  // ---- Forks ----

  predicate HasUndo(records: Records, h: Hash, k: nat) {
    GetBlockRecord(records, Ancestor(records, h, k)).undo != []
  }

  ghost predicate AllHaveUndo(records: Records, h: Hash, n: nat) {
    forall k: nat :: k < n ==> HasUndo(records, h, k)
  }

  lemma UndosBelow(records: Records, h: Hash, n: nat)
    requires n > 0
    ensures AllHaveUndo(records, h, n) <==> HasUndo(records, h, 0) && AllHaveUndo(records, ParentOf(records, h), n - 1)
  {
    var p := ParentOf(records, h);
    forall k: nat ensures HasUndo(records, h, k + 1) <==> HasUndo(records, p, k) {}
    if AllHaveUndo(records, h, n) {
      forall k: nat | k < n - 1 ensures HasUndo(records, p, k) { assert HasUndo(records, h, k + 1); }
    }
    if HasUndo(records, h, 0) && AllHaveUndo(records, p, n - 1) {
      forall k: nat | 0 < k < n ensures HasUndo(records, h, k) { assert HasUndo(records, p, k - 1); }
    }
  }

  /** Blocks can be taken back exactly when each of them has an undo block. */
  lemma {:induction false} RetrieveExactly(records: Records, genesis: Hash, h: Hash, n: nat)
    requires Linked(records, genesis) && h in records && n <= records[h].height
    ensures Retrieve(records, h, n).Some? <==> AllHaveUndo(records, h, n)
    decreases n
  {
    if n > 0 {
      assert LinkedAt(records, genesis, h);
      UndosBelow(records, h, n);
      if n > 1 { RetrieveExactly(records, genesis, ParentOf(records, h), n - 1); }
    }
  }

  lemma NoInputsNoneSpent(txs: seq<Transaction>)
    ensures InputsOf(txs) == [] <==> Spent(txs) == {}
  {
    InputsAreSpent(txs);
    if InputsOf(txs) != [] { assert InputsOf(txs)[0] in Spent(txs); }
  }

  /** The undo block at depth `k` is missing when its block spends nothing or it is stale. */
  lemma EmptyUndoExactly(c: Chain, stale: set<Hash>, k: nat)
    requires k < c.length && TracksAt(c, stale, k)
    ensures ActiveRecord(c, k).undo == [] <==>
      InputsOf(ActiveBlocks(c)[k]) == [] || Ancestor(c.records, c.lastHash, k) in stale
  {
    var txs, undo := ActiveBlocks(c)[k], ActiveRecord(c, k).undo;
    NoInputsNoneSpent(txs);
    if UndoMatchesAt(c, k) {
      if undo != [] {
        assert undo[0] in undo;
        assert undo[0].locator in Spent(txs);
      }
      if Spent(txs) != {} {
        var cl :| cl in Spent(txs);
        assert exists e :: e in undo && e.locator == cl;
      }
    }
  }

  /** Adopting a fork that the search finds `n` steps back panics if and only if one of the last
      `n` active blocks spends nothing or has a stale undo block. */
  lemma ForkPanicsExactly(c: Chain, b: Block, genesis: Hash, stale: set<Hash>, n: nat)
    requires Replayed(c, genesis) && Tracks(c, stale) && !AppendsTo(c, b)
    requires b.header.previousHash in c.records && HeightOf(c, b) > c.length
    requires BranchesAt(Recorded(c, b), b.Hash(), n)
    requires n <= |c.unsafeHashes|
    requires Depth(Recorded(c, b), Ancestor(Recorded(c, b).records, b.Hash(), n)) < |c.unsafeHashes|
    ensures Handle(c, b).None? <==>
      exists k: nat :: k < n &&
        (InputsOf(ActiveBlocks(c)[k]) == [] || Ancestor(c.records, c.lastHash, k) in stale)
  {
    var e := Recorded(c, b);
    HandledForkSearch(c, b, genesis, n);
    HigherIsNotActive(c, b, genesis);
    RetrieveExactly(e.records, genesis, e.lastHash, n);
    forall k: nat | k < n
      ensures HasUndo(e.records, e.lastHash, k) <==>
        !(InputsOf(ActiveBlocks(c)[k]) == [] || Ancestor(c.records, c.lastHash, k) in stale)
    {
      SideBlockKeepsChain(c, b, genesis, k);
      assert TracksAt(c, stale, k);
      EmptyUndoExactly(c, stale, k);
    }
    ForkedPanics(e, b, HeightOf(c, b), n, Ancestor(e.records, b.Hash(), n));
  }

  lemma ForkedPanics(c: Chain, b: Block, height: nat, n: nat, ancestor: Hash)
    requires SearchFrom(c, b.Hash(), 0) == Some((n, ancestor))
    ensures Forked(c, b, height).None? <==> Retrieve(c.records, c.lastHash, n).None?
  {
  }

  // ---- Runs that fail ----

  function GenesisTransaction(subsidy: uint32, key: PublicKey): Transaction {
    GenesisBlock(subsidy, key).transactions[0]
  }

  function GenesisCoin(subsidy: uint32, key: PublicKey): CoinLocator {
    CoinLocator(GenesisTransaction(subsidy, key).Hash(), 0)
  }

  /** A block on top of genesis. */
  function Second(subsidy: uint32, key: PublicKey, txs: seq<Transaction>): Block {
    Block(Header(0, GenesisBlock(subsidy, key).Hash(), Text(""), "", 0, 0), txs)
  }

  /** Passes the genesis coin on. */
  function Spending(subsidy: uint32, key: PublicKey): Transaction {
    Transaction(false, 0, [TransactionInput(GenesisTransaction(subsidy, key).Hash(), 0, NoScript)],
                [TransactionOutput(subsidy, RawBytes(key))], [], 0)
  }

  /** A new chain has one coin, of the subsidy, locked with the genesis key. */
  lemma NewLedger(subsidy: uint32, key: PublicKey)
    ensures LedgerOf(NewChain(subsidy, key).coins) ==
      map[CoinLocator(OfTransaction(false, 0, [], [TransactionOutput(subsidy, RawBytes(key))], 0), 0) :=
            TransactionOutput(subsidy, RawBytes(key))]
  {
    var txs := GenesisBlock(subsidy, key).transactions;
    GenesisIsStored(subsidy, key);
    forall cl ensures cl in CreatedBy(txs) <==> cl == GenesisCoin(subsidy, key) {
      if cl == GenesisCoin(subsidy, key) { assert cl == CoinLocator(txs[0].Hash(), 0); }
    }
  }

  /** The cache of a new chain has room for thirty coins. */
  lemma NewCapacity(subsidy: uint32, key: PublicKey)
    ensures NewChain(subsidy, key).coins.capacity == 30
  {
    var ops := [Store(GenesisBlock(subsidy, key).transactions)];
    assert ops[..0] == [] && Run(Empty(CACHE_CAPACITY), ops[..0]) == Empty(CACHE_CAPACITY);
    CounterStaysBelow(30, ops);
  }

  lemma SecondAppends(subsidy: uint32, key: PublicKey, txs: seq<Transaction>)
    requires Spent(txs) <= {GenesisCoin(subsidy, key)}
    ensures var c := NewChain(subsidy, key);
      AppendsTo(c, Second(subsidy, key, txs)) && Accepts(LedgerOf(c.coins), txs)
  {
    NewKeys(subsidy, key);
  }

  lemma AppendedIsActive(c: Chain, b: Block, genesis: Hash)
    requires ReplayInv(c, genesis) && AppendsTo(c, b) && Accepts(LedgerOf(c.coins), b.transactions)
    ensures var d := Appended(c, b);
      && Handle(c, b) == Some(d) && ReplayInv(d, genesis) && Again(d, b) && d.lastHash == b.Hash()
      && LedgerOf(d.coins) == Apply(LedgerOf(c.coins), b.transactions)
  {
    var d := Appended(c, b);
    AppendReplays(c, b, genesis);
    forall k: nat | k < d.length ensures UndoMatchesAt(d, k) {
      if k > 0 { assert UndoMatchesAt(d, (k - 1) + 1) <==> UndoMatchesAt(c, k - 1); }
    }
    StoreRefinesApply(c.coins, b.transactions);
    assert Ancestor(d.records, d.lastHash, 0) == b.Hash();
  }

  lemma SecondIsAppended(subsidy: uint32, key: PublicKey, txs: seq<Transaction>) returns (d: Chain)
    requires Spent(txs) <= {GenesisCoin(subsidy, key)}
    ensures var c, b, genesis := NewChain(subsidy, key), Second(subsidy, key, txs), GenesisBlock(subsidy, key).Hash();
      && KeepsBranch(c, b) && Handle(c, b) == Some(d) && ReplayInv(d, genesis) && Again(d, b)
      && d.lastHash == b.Hash() && LedgerOf(d.coins) == Apply(LedgerOf(c.coins), txs)
  {
    d := Appended(NewChain(subsidy, key), Second(subsidy, key, txs));
    NewReplays(subsidy, key);
    SecondAppends(subsidy, key, txs);
    AppendedIsActive(NewChain(subsidy, key), Second(subsidy, key, txs), GenesisBlock(subsidy, key).Hash());
  }

  lemma SpendingSpends(subsidy: uint32, key: PublicKey)
    ensures Spent([Spending(subsidy, key)]) == {GenesisCoin(subsidy, key)}
    ensures GenesisCoin(subsidy, key) !in Created([Spending(subsidy, key)])
  {
    var txs := [Spending(subsidy, key)];
    assert LocatorOf(txs[0].inputs[0]) == GenesisCoin(subsidy, key);
  }

  /** A spending block appended, flushed and handled again loses its undo block. */
  lemma RehandlingFails(subsidy: uint32, key: PublicKey) returns (d: Chain)
    ensures var c, b := NewChain(subsidy, key), Second(subsidy, key, [Spending(subsidy, key)]);
      && Runs(c, [Handled(b), FlushCoins, Handled(b)], d)
      && !ReplayInv(d, GenesisBlock(subsidy, key).Hash()) && GetBlockRecord(d.records, b.Hash()).undo == []
  {
    var c, b, genesis := NewChain(subsidy, key), Second(subsidy, key, [Spending(subsidy, key)]),
      GenesisBlock(subsidy, key).Hash();
    SpendingSpends(subsidy, key);
    var e := SecondIsAppended(subsidy, key, b.transactions);
    RehandledAfterFlush(e, b, genesis);
    var f := e.(coins := Flushed(e.coins));
    d := Recorded(f, b);
    ThreeSteps(c, Handled(b), e, FlushCoins, f, Handled(b), d);
  }

  lemma ThreeSteps(c: Chain, s: Step, e: Chain, t: Step, f: Chain, u: Step, d: Chain)
    requires Next(c, s) == Some(e) && Next(e, t) == Some(f) && Next(f, u) == Some(d)
    requires (s.Handled? ==> KeepsBranch(c, s.block)) && (t.Handled? ==> KeepsBranch(e, t.block))
    requires u.Handled? ==> KeepsBranch(f, u.block)
    ensures Runs(c, [s, t, u], d)
  {
    assert [s, t, u][1..] == [t, u] && [t, u][1..] == [u] && [u][1..] == [];
    assert Runs(d, [], d);
    assert Runs(f, [u], d);
    assert Runs(e, [t, u], d);
  }

  /** An empty block appended, then a block with its header and a coinbase: it passes the node's
      check, and the coin it creates is on the active chain but not in the ledger. */
  lemma ReplacingFails(subsidy: uint32, key: PublicKey, coinbase: Transaction) returns (d: Chain)
    requires coinbase.inputs == [] && coinbase.outputs != [] && coinbase.version == 1
    ensures var c, empty, full := NewChain(subsidy, key), Second(subsidy, key, []), Second(subsidy, key, [coinbase]);
      && Handle(c, empty) == Some(d) && ReplayInv(d, GenesisBlock(subsidy, key).Hash())
      && Accepts(LedgerOf(d.coins), full.transactions)
      && Handle(d, full).Some? && !Replayed(Handle(d, full).value, GenesisBlock(subsidy, key).Hash())
  {
    d := SecondIsAppended(subsidy, key, []);
    NewKeys(subsidy, key);
    CoinbaseIsNew(LedgerOf(NewChain(subsidy, key).coins), GenesisCoin(subsidy, key), coinbase);
    ReplacedTip(d, Second(subsidy, key, [coinbase]), GenesisBlock(subsidy, key).Hash(),
                CoinLocator(coinbase.Hash(), 0));
  }

  lemma NewKeys(subsidy: uint32, key: PublicKey)
    ensures LedgerOf(NewChain(subsidy, key).coins).Keys == {GenesisCoin(subsidy, key)}
  {
    NewLedger(subsidy, key);
  }

  lemma CoinbaseIsNew(u: Utxo, coin: CoinLocator, coinbase: Transaction)
    requires u.Keys == {coin} && coin.referenceTransactionHash != coinbase.Hash()
    requires coinbase.inputs == [] && coinbase.outputs != []
    ensures Spent([coinbase]) == {} && CoinLocator(coinbase.Hash(), 0) !in Apply(u, [])
    ensures CoinLocator(coinbase.Hash(), 0) in Created([coinbase])
  {
    assert [coinbase][0].Hash() == coinbase.Hash();
  }

  lemma ReplacedTip(c: Chain, b: Block, genesis: Hash, cl: CoinLocator)
    requires Replayed(c, genesis) && b.Hash() == c.lastHash && cl in Created(b.transactions) && cl !in LedgerOf(c.coins)
    ensures Handle(c, b).Some? && !Replayed(Handle(c, b).value, genesis)
  {
    TipIsAboveGenesis(c, genesis);
    assert Ancestor(c.records, c.lastHash, 0) == b.Hash();
    ReplacedExactly(c, b, genesis);
    assert cl in ApplyAll(map[], Replacing(c, b));
  }
}
