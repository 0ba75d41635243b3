/** Runs of handled blocks and flushes in which no fork is adopted: the state stays the replay of
    the active chain, and exactly which undo blocks are lost when a block of the active chain is
    handled again. */
module ReplayRuns {
  import opened Ledger
  import opened UtxoLedger
  import opened CoinState
  import opened CoinStore
  import opened CoinUndo
  import opened ChainState
  import opened ChainReplay

  // ---- A block under the hash of an active one ----

  /** Writing another record of the same header and height keeps the links. */
  lemma ReplacedLinked(records: Records, genesis: Hash, h: Hash, r: BlockRecord)
    requires Linked(records, genesis) && h in records && r.block.Hash() == h && r.header == r.block.header
    requires r.header == records[h].header && r.height == records[h].height
    ensures Linked(records[h := r], genesis) && Extends(records, records[h := r])
  {
    assert LinkedAt(records, genesis, h);
    forall g | g in records ensures LinkedAt(records[h := r], genesis, g) { assert LinkedAt(records, genesis, g); }
  }

  /** An active block would get the height its record has: also genesis, whose parent is not stored. */
  lemma ActiveIsInPlace(c: Chain, b: Block, genesis: Hash)
    requires TipInv(c, genesis) && Active(c, b.Hash())
    ensures b.Hash() in c.records && c.records[b.Hash()].header == b.header
    ensures HeightOf(c, b) == c.records[b.Hash()].height <= c.length && !AppendsTo(c, b)
  {
    ActiveHeight(c, genesis, b.Hash());
    assert LinkedAt(c.records, genesis, b.Hash());
    if c.records[b.Hash()].height == 1 && Text("") in c.records { KeyIsHeader(c.records, genesis, Text("")); }
    if AppendsTo(c, b) { ChildIsNotActive(c, b, genesis); }
  }

  lemma ReplacedLinks(c: Chain, b: Block, genesis: Hash)
    requires TipInv(c, genesis) && Active(c, b.Hash())
    ensures Handle(c, b) == Some(Recorded(c, b)) && TipInv(Recorded(c, b), genesis)
    ensures Extends(c.records, Recorded(c, b).records)
  {
    ActiveIsInPlace(c, b, genesis);
    ReplacedLinked(c.records, genesis, b.Hash(), Recorded(c, b).records[b.Hash()]);
  }

  lemma ReplacedAt(c: Chain, b: Block, genesis: Hash, k: nat)
    requires TipInv(c, genesis) && Active(c, b.Hash()) && k < c.length
    ensures var d := Recorded(c, b);
      && Ancestor(d.records, d.lastHash, k) == Ancestor(c.records, c.lastHash, k)
      && (k == Depth(c, b.Hash()) <==> Ancestor(c.records, c.lastHash, k) == b.Hash())
      && (k == Depth(c, b.Hash()) ==> ActiveRecord(d, k) == d.records[b.Hash()])
      && (k != Depth(c, b.Hash()) ==> ActiveRecord(d, k) == ActiveRecord(c, k))
  {
    ReplacedLinks(c, b, genesis);
    AncestorStable(c.records, Recorded(c, b).records, genesis, c.lastHash, k);
    AncestorHeight(c.records, genesis, c.lastHash, k);
    ActiveHeight(c, genesis, b.Hash());
  }

  /** The active chain with the transactions of the block in the place its hash has. */
  function Replacing(c: Chain, b: Block): seq<seq<Transaction>>
    requires 0 <= Depth(c, b.Hash()) < c.length
  {
    ActiveBlocks(c)[Depth(c, b.Hash()) := b.transactions]
  }

  lemma ReplacedBlocks(c: Chain, b: Block, genesis: Hash)
    requires TipInv(c, genesis) && Active(c, b.Hash())
    ensures 0 <= Depth(c, b.Hash()) < c.length
    ensures ActiveBlocks(Recorded(c, b)) == Replacing(c, b)
    ensures Window(c) ==> Window(Recorded(c, b))
  {
    var d := Recorded(c, b);
    ActiveHeight(c, genesis, b.Hash());
    forall k: nat | k < c.length
      ensures Ancestor(d.records, d.lastHash, k) == Ancestor(c.records, c.lastHash, k)
      ensures ActiveBlocks(d)[k] == Replacing(c, b)[k]
    {
      ReplacedAt(c, b, genesis, k);
    }
    assert ActiveBlocks(d) == Replacing(c, b);
  }

  /** A block with the hash of an active one replaces it on disk and changes nothing else, since
      only headers are hashed. The state is still replayed if and only if the active chain with
      the new transactions in that place is accepted and has the same ledger. */
  lemma ReplacedExactly(c: Chain, b: Block, genesis: Hash)
    requires Replayed(c, genesis) && Active(c, b.Hash())
    ensures 0 <= Depth(c, b.Hash()) < c.length
    ensures Handle(c, b) == Some(Recorded(c, b)) && Recorded(c, b) == c.(records := Recorded(c, b).records)
    ensures ActiveBlocks(Recorded(c, b)) == Replacing(c, b)
    ensures Replayed(Recorded(c, b), genesis) <==>
      AllAccepted(Replacing(c, b)) && ApplyAll(map[], Replacing(c, b)) == ApplyAll(map[], ActiveBlocks(c))
  {
    ReplacedLinks(c, b, genesis);
    ReplacedBlocks(c, b, genesis);
  }

  // ---- The undo block of a block handled again ----

  lemma {:induction false} ReplayIsNamed(blocks: seq<seq<Transaction>>)
    ensures forall cl :: cl in ApplyAll(map[], blocks) ==> Names(cl, ApplyAll(map[], blocks)[cl])
  {
    if blocks != [] { ReplayIsNamed(blocks[1..]); }
  }

  /** Every input is a coin the database still has, spent or not. */
  predicate InputsKnown(s: State, txs: seq<Transaction>) {
    forall k :: 0 <= k < |InputsOf(txs)| ==> GetCoin(s, InputsOf(txs)[k]).Some?
  }

  lemma KnownIsNamed(s: State, cl: CoinLocator)
    requires Anchored(s, {}) && GetCoin(s, cl).Some?
    ensures Names(cl, GetCoin(s, cl).value.output)
  {
  }

  lemma EntriesList(s: State, ls: seq<CoinLocator>, cl: CoinLocator)
    requires forall k :: 0 <= k < |ls| ==> GetCoin(s, ls[k]).Some?
    ensures cl in ls <==> exists e :: e in Entries(s, ls) && e.locator == cl
  {
    if cl in ls {
      var k :| 0 <= k < |ls| && ls[k] == cl;
      assert Entries(s, ls)[k] in Entries(s, ls);
    }
  }

  lemma KnownAreRecorded(s: State, u: Utxo, txs: seq<Transaction>)
    requires Anchored(s, {}) && Accepts(u, txs) && InputsKnown(s, txs) && forall cl :: cl in u ==> Names(cl, u[cl])
    ensures forall e :: e in UndoOf(s, txs) ==> e.locator in u && u[e.locator] == e.output
  {
    var ls := InputsOf(txs);
    InputsAreSpent(txs);
    forall e | e in Entries(s, ls) ensures e.locator in u && u[e.locator] == e.output {
      var k :| 0 <= k < |ls| && Entries(s, ls)[k] == e;
      assert ls[k] in Spent(txs);
      KnownIsNamed(s, ls[k]);
    }
  }

  /** An undo block taken at any later time lists what the block spent if and only if every coin
      it spent is still known; otherwise it is empty. */
  lemma RetakenExactly(s: State, u: Utxo, txs: seq<Transaction>)
    requires Anchored(s, {}) && Accepts(u, txs) && forall cl :: cl in u ==> Names(cl, u[cl])
    ensures RecordsSpent(u, txs, UndoOf(s, txs)) <==> InputsKnown(s, txs)
    ensures !InputsKnown(s, txs) ==> UndoOf(s, txs) == []
  {
    InputsAreSpent(txs);
    if InputsKnown(s, txs) {
      KnownAreRecorded(s, u, txs);
      forall cl ensures cl in Spent(txs) <==> exists e :: e in UndoOf(s, txs) && e.locator == cl {
        EntriesList(s, InputsOf(txs), cl);
      }
    } else {
      var k :| 0 <= k < |InputsOf(txs)| && GetCoin(s, InputsOf(txs)[k]).None?;
      assert InputsOf(txs)[k] in Spent(txs);
    }
  }

  lemma RetakenMatches(s: State, blocks: seq<seq<Transaction>>, k: nat)
    requires Anchored(s, {}) && k < |blocks| && AcceptedAt(blocks, k)
    ensures Matches(blocks, k, UndoOf(s, blocks[k])) <==> InputsKnown(s, blocks[k])
  {
    ReplayIsNamed(blocks[k + 1..]);
    RetakenExactly(s, ApplyAll(map[], blocks[k + 1..]), blocks[k]);
  }

  /** The block is the one stored under the hash of an active block. */
  ghost predicate Again(c: Chain, b: Block) {
    Active(c, b.Hash()) && GetBlockRecord(c.records, b.Hash()).block == b
  }

  lemma RehandledAt(c: Chain, b: Block, genesis: Hash, k: nat)
    requires Replayed(c, genesis) && Again(c, b) && k < c.length
    requires ActiveBlocks(Recorded(c, b)) == ActiveBlocks(c)
    ensures UndoMatchesAt(Recorded(c, b), k) <==>
      if Ancestor(c.records, c.lastHash, k) == b.Hash() then InputsKnown(c.coins, b.transactions)
      else UndoMatchesAt(c, k)
  {
    ReplacedAt(c, b, genesis, k);
    if k == Depth(c, b.Hash()) {
      assert AcceptedAt(ActiveBlocks(c), k);
      assert ActiveBlocks(c)[k] == b.transactions;
      RetakenMatches(c.coins, ActiveBlocks(c), k);
    }
  }

  lemma RehandledBlocks(c: Chain, b: Block, genesis: Hash)
    requires TipInv(c, genesis) && Again(c, b)
    ensures ActiveBlocks(Recorded(c, b)) == ActiveBlocks(c)
  {
    ReplacedBlocks(c, b, genesis);
    ReplacedAt(c, b, genesis, Depth(c, b.Hash()));
    assert Replacing(c, b) == ActiveBlocks(c);
  }

  /** Handling an active block again keeps the replayed state and every other undo block. Its own
      is taken anew and lists what it spent if and only if every coin it spent is still known. */
  lemma RehandledExactly(c: Chain, b: Block, genesis: Hash)
    requires Replayed(c, genesis) && Again(c, b)
    ensures Handle(c, b) == Some(Recorded(c, b)) && Replayed(Recorded(c, b), genesis)
    ensures ActiveBlocks(Recorded(c, b)) == ActiveBlocks(c)
    ensures forall k: nat :: k < c.length ==>
      (UndoMatchesAt(Recorded(c, b), k) <==>
       if Ancestor(c.records, c.lastHash, k) == b.Hash() then InputsKnown(c.coins, b.transactions)
       else UndoMatchesAt(c, k))
    ensures UndosMatch(c) ==> (ReplayInv(Recorded(c, b), genesis) <==> InputsKnown(c.coins, b.transactions))
  {
    ReplacedExactly(c, b, genesis);
    RehandledBlocks(c, b, genesis);
    forall k: nat | k < c.length
      ensures UndoMatchesAt(Recorded(c, b), k) <==>
        if Ancestor(c.records, c.lastHash, k) == b.Hash() then InputsKnown(c.coins, b.transactions)
        else UndoMatchesAt(c, k)
    {
      RehandledAt(c, b, genesis, k);
    }
    ReplacedAt(c, b, genesis, Depth(c, b.Hash()));
  }

  /** A block that passes the node's check finds its coins known. */
  lemma CheckedIsKnown(s: State, txs: seq<Transaction>)
    requires Accepts(LedgerOf(s), txs)
    ensures InputsKnown(s, txs)
  {
    InputsAreSpent(txs);
    LedgerIsLookup(s);
    forall k | 0 <= k < |InputsOf(txs)| ensures GetCoin(s, InputsOf(txs)[k]).Some? {
      assert InputsOf(txs)[k] in Spent(txs);
    }
  }

  /** So an active block that a peer sends again, which is handled only when it passes the check,
      never loses its undo block. */
  lemma CheckedBlockReplays(c: Chain, b: Block, genesis: Hash)
    requires ReplayInv(c, genesis) && Again(c, b) && Accepts(LedgerOf(c.coins), b.transactions)
    ensures Handle(c, b).Some? && ReplayInv(Handle(c, b).value, genesis)
  {
    CheckedIsKnown(c.coins, b.transactions);
    RehandledExactly(c, b, genesis);
  }

  /** Right after a flush only unspent coins are known. */
  lemma FlushForgets(s: State, txs: seq<Transaction>)
    requires Inv(s)
    ensures InputsKnown(Flushed(s), txs) <==> Accepts(LedgerOf(s), txs)
  {
    FlushKeeps(s, {});
    if Accepts(LedgerOf(s), txs) { CheckedIsKnown(Flushed(s), txs); }
    if InputsKnown(Flushed(s), txs) {
      InputsAreSpent(txs);
      LedgerIsLookup(s);
      forall cl | cl in Spent(txs) ensures cl in LedgerOf(s) {
        var k :| 0 <= k < |InputsOf(txs)| && InputsOf(txs)[k] == cl;
        assert Lookup(Flushed(s), cl).Some?;
      }
    }
  }

  // ---- Runs ----

  /** A block handed to the chain, or a flush of its coins, as a request for a balance does. */
  datatype Step = Handled(block: Block) | FlushCoins

  /** Handling the block appends it, rejects it, stores it beside the active chain, at most as
      high as the tip or higher with a fork search that fails, or is handling an active block
      again. */
  ghost predicate KeepsBranch(c: Chain, b: Block) {
    || AppendsTo(c, b)
    || (b.header.previousHash in c.records && HeightOf(c, b) <= c.length && !Active(c, b.Hash()))
    || (&& b.header.previousHash in c.records && HeightOf(c, b) > c.length
        && SearchFrom(Recorded(c, b), b.Hash(), 0).None?)
    || Again(c, b)
  }

  function Next(c: Chain, step: Step): Option<Chain> {
    match step
    case Handled(b) => Handle(c, b)
    case FlushCoins => Some(c.(coins := Flushed(c.coins)))
  }

  /** What becomes of a replayed state when a block is handled without adopting a fork. */
  lemma HandleReplays(c: Chain, b: Block, genesis: Hash)
    requires Replayed(c, genesis) && KeepsBranch(c, b)
    ensures Handle(c, b).Some? && Replayed(Handle(c, b).value, genesis)
    ensures var d := Handle(c, b).value;
      ActiveBlocks(d) == if AppendsTo(c, b) && Accepts(LedgerOf(c.coins), b.transactions)
                         then [b.transactions] + ActiveBlocks(c) else ActiveBlocks(c)
    ensures AppendsTo(c, b) && !Accepts(ApplyAll(map[], ActiveBlocks(c)), b.transactions) ==> Handle(c, b).value == c
  {
    if AppendsTo(c, b) {
      if Accepts(LedgerOf(c.coins), b.transactions) { AppendReplays(c, b, genesis); }
    } else if Again(c, b) {
      RehandledExactly(c, b, genesis);
    } else {
      if HeightOf(c, b) > c.length { HigherIsNotActive(c, b, genesis); }
      SideBlockReplays(c, b, genesis);
    }
  }

  lemma FlushReplays(c: Chain, genesis: Hash)
    requires Replayed(c, genesis)
    ensures var d := c.(coins := Flushed(c.coins));
      && Replayed(d, genesis) && ActiveBlocks(d) == ActiveBlocks(c)
      && forall k: nat :: k < c.length ==> (UndoMatchesAt(d, k) <==> UndoMatchesAt(c, k))
  {
    FlushKeeps(c.coins, {});
    assert ActiveBlocks(c.(coins := Flushed(c.coins))) == ActiveBlocks(c);
  }

  /** Handled again right after a flush, an active block keeps its undo block if and only if the
      ledger would accept it once more: a block whose coins are spent loses it. */
  lemma RehandledAfterFlush(c: Chain, b: Block, genesis: Hash)
    requires ReplayInv(c, genesis) && Again(c, b)
    ensures var e := c.(coins := Flushed(c.coins)); var d := Recorded(e, b);
      && KeepsBranch(e, b) && Handle(e, b) == Some(d) && Replayed(d, genesis)
      && (ReplayInv(d, genesis) <==> Accepts(LedgerOf(c.coins), b.transactions))
      && (!Accepts(LedgerOf(c.coins), b.transactions) ==> d.records[b.Hash()].undo == [])
  {
    var e := c.(coins := Flushed(c.coins));
    FlushReplays(c, genesis);
    SameActive(c, e, b.Hash());
    RehandledExactly(e, b, genesis);
    FlushForgets(c.coins, b.transactions);
  }

  lemma SameActive(c: Chain, d: Chain, h: Hash)
    requires Active(c, h) && d.length == c.length && d.records == c.records && d.lastHash == c.lastHash
    ensures Active(d, h)
  {
    var k :| 0 <= k < c.length && Ancestor(c.records, c.lastHash, k) == h;
    assert Ancestor(d.records, d.lastHash, k) == h;
  }

  // ---- Which undo blocks are lost ----

  /** The undo block at depth `k` is right unless its hash is stale, and then it is empty. */
  ghost predicate TracksAt(c: Chain, stale: set<Hash>, k: nat)
    requires k < c.length
  {
    var h := Ancestor(c.records, c.lastHash, k);
    (UndoMatchesAt(c, k) <==> h !in stale) && (h in stale ==> ActiveRecord(c, k).undo == [])
  }

  ghost predicate Tracks(c: Chain, stale: set<Hash>) {
    && (forall k: nat :: k < c.length ==> TracksAt(c, stale, k))
    && (forall h :: h in stale ==> Active(c, h))
  }

  /** Only handling an active block again changes which undo blocks are stale. */
  ghost function StaleNext(c: Chain, stale: set<Hash>, step: Step): set<Hash> {
    if step.Handled? && Active(c, step.block.Hash()) then
      if InputsKnown(c.coins, step.block.transactions) then stale - {step.block.Hash()}
      else stale + {step.block.Hash()}
    else stale
  }

  lemma AppendTracks(c: Chain, b: Block, genesis: Hash, stale: set<Hash>)
    requires Replayed(c, genesis) && AppendsTo(c, b) && Accepts(LedgerOf(c.coins), b.transactions) && Tracks(c, stale)
    ensures Tracks(Appended(c, b), stale)
  {
    var d := Appended(c, b);
    AppendReplays(c, b, genesis);
    ChildIsNotActive(c, b, genesis);
    AppendedAncestors(c, b, genesis, 0);
    forall k: nat | k < d.length ensures TracksAt(d, stale, k) {
      if k > 0 {
        AppendedAncestors(c, b, genesis, k);
        assert TracksAt(c, stale, k - 1);
        assert UndoMatchesAt(d, (k - 1) + 1) <==> UndoMatchesAt(c, k - 1);
      }
    }
    forall h | h in stale ensures Active(d, h) {
      var k :| 0 <= k < c.length && Ancestor(c.records, c.lastHash, k) == h;
      AppendedAncestors(c, b, genesis, k + 1);
    }
  }

  lemma SideBlockTracks(c: Chain, b: Block, genesis: Hash, stale: set<Hash>)
    requires Replayed(c, genesis) && b.header.previousHash in c.records && !Active(c, b.Hash()) && Tracks(c, stale)
    ensures Tracks(Recorded(c, b), stale)
  {
    var d := Recorded(c, b);
    SideBlockReplays(c, b, genesis);
    forall k: nat | k < d.length ensures TracksAt(d, stale, k) {
      SideBlockKeepsChain(c, b, genesis, k);
      assert TracksAt(c, stale, k);
    }
    forall h | h in stale ensures Active(d, h) {
      var k :| 0 <= k < c.length && Ancestor(c.records, c.lastHash, k) == h;
      SideBlockKeepsChain(c, b, genesis, k);
    }
  }

  lemma RehandledTracksAt(c: Chain, b: Block, genesis: Hash, stale: set<Hash>, k: nat)
    requires Replayed(c, genesis) && Again(c, b) && k < c.length && TracksAt(c, stale, k)
    ensures TracksAt(Recorded(c, b), StaleNext(c, stale, Handled(b)), k)
  {
    RehandledBlocks(c, b, genesis);
    RehandledAt(c, b, genesis, k);
    ReplacedAt(c, b, genesis, k);
  }

  lemma RehandledTracks(c: Chain, b: Block, genesis: Hash, stale: set<Hash>)
    requires Replayed(c, genesis) && Again(c, b) && Tracks(c, stale)
    ensures Tracks(Recorded(c, b), StaleNext(c, stale, Handled(b)))
  {
    var d, now := Recorded(c, b), StaleNext(c, stale, Handled(b));
    forall k: nat | k < d.length ensures TracksAt(d, now, k) {
      assert TracksAt(c, stale, k);
      RehandledTracksAt(c, b, genesis, stale, k);
    }
    forall h | h in now ensures Active(d, h) {
      var k :| 0 <= k < c.length && Ancestor(c.records, c.lastHash, k) == h;
      ReplacedAt(c, b, genesis, k);
    }
  }

  lemma HandleTracks(c: Chain, b: Block, genesis: Hash, stale: set<Hash>)
    requires Replayed(c, genesis) && KeepsBranch(c, b) && Tracks(c, stale)
    ensures Handle(c, b).Some? && Tracks(Handle(c, b).value, StaleNext(c, stale, Handled(b)))
  {
    HandleReplays(c, b, genesis);
    if AppendsTo(c, b) {
      ChildIsNotActive(c, b, genesis);
      if Accepts(LedgerOf(c.coins), b.transactions) { AppendTracks(c, b, genesis, stale); }
    } else if Again(c, b) {
      RehandledExactly(c, b, genesis);
      RehandledTracks(c, b, genesis, stale);
    } else {
      if HeightOf(c, b) > c.length { HigherIsNotActive(c, b, genesis); }
      SideBlockTracks(c, b, genesis, stale);
    }
  }

  lemma FlushTracks(c: Chain, genesis: Hash, stale: set<Hash>)
    requires Replayed(c, genesis) && Tracks(c, stale)
    ensures Tracks(c.(coins := Flushed(c.coins)), stale)
  {
    var d := c.(coins := Flushed(c.coins));
    FlushReplays(c, genesis);
    forall k: nat | k < d.length ensures TracksAt(d, stale, k) { assert TracksAt(c, stale, k); }
    forall h | h in stale ensures Active(d, h) { SameActive(c, d, h); }
  }

  /** A run in which no fork is adopted. */
  ghost predicate Runs(c: Chain, steps: seq<Step>, d: Chain)
    decreases |steps|
  {
    if steps == [] then c == d
    else
      && (steps[0].Handled? ==> KeepsBranch(c, steps[0].block))
      && Next(c, steps[0]).Some? && Runs(Next(c, steps[0]).value, steps[1..], d)
  }

  ghost function StaleAfter(c: Chain, stale: set<Hash>, steps: seq<Step>): set<Hash>
    decreases |steps|
  {
    if steps == [] || Next(c, steps[0]).None? then stale
    else StaleAfter(Next(c, steps[0]).value, StaleNext(c, stale, steps[0]), steps[1..])
  }

  lemma {:induction false} RunTracks(c: Chain, stale: set<Hash>, steps: seq<Step>, d: Chain, genesis: Hash)
    requires Replayed(c, genesis) && Tracks(c, stale) && Runs(c, steps, d)
    ensures Replayed(d, genesis) && Tracks(d, StaleAfter(c, stale, steps))
    decreases |steps|
  {
    if steps != [] {
      if steps[0].Handled? {
        HandleReplays(c, steps[0].block, genesis);
        HandleTracks(c, steps[0].block, genesis, stale);
      } else {
        FlushReplays(c, genesis);
        FlushTracks(c, genesis, stale);
      }
      RunTracks(Next(c, steps[0]).value, StaleNext(c, stale, steps[0]), steps[1..], d, genesis);
    }
  }

  lemma MatchingTracks(c: Chain)
    ensures UndosMatch(c) <==> Tracks(c, {})
  {
    if Tracks(c, {}) {
      forall k: nat | k < c.length ensures UndoMatchesAt(c, k) { assert TracksAt(c, {}, k); }
    }
  }

  /** After every run the state is the replay of the active chain, and a stored undo block lists
      what its block spent unless the block was last handled again when a coin it spent was
      forgotten: all of them do if and only if there is no such block. */
  lemma StateEqualsReplay(c: Chain, steps: seq<Step>, d: Chain, genesis: Hash)
    requires ReplayInv(c, genesis) && Runs(c, steps, d)
    ensures Replayed(d, genesis) && Tracks(d, StaleAfter(c, {}, steps))
    ensures ReplayInv(d, genesis) <==> StaleAfter(c, {}, steps) == {}
  {
    MatchingTracks(c);
    RunTracks(c, {}, steps, d, genesis);
    var stale := StaleAfter(c, {}, steps);
    if stale == {} {
      MatchingTracks(d);
    } else {
      var h :| h in stale;
      var k :| 0 <= k < d.length && Ancestor(d.records, d.lastHash, k) == h;
      assert TracksAt(d, stale, k);
    }
  }
}
