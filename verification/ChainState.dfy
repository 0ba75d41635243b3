/** The block chain as a value: block records linked by parent hashes, the tip, the window of
    unsafe hashes and the coin database, with the exact effect of handling a block. */
module ChainState {
  import opened Ledger
  import opened UtxoLedger
  import opened CoinState
  import opened CoinStore
  import opened CoinUndo

  const MAX_HASHES := 6
  const CACHE_CAPACITY: uint32 := 30

  /** A block record together with the block and undo block its file ranges hold. An empty
      undo block is never written. */
  datatype BlockRecord = BlockRecord(header: Header, height: nat, block: Block, undo: seq<UndoEntry>)

  type Records = map<Hash, BlockRecord>

  datatype Chain =
    Chain(length: nat, lastBlock: Block, lastHash: Hash, unsafeHashes: seq<Hash>, records: Records, coins: State)

  const EMPTY_HEADER := Header(0, Text(""), Text(""), "", 0, 0)

  /** A missing record reads as an empty one. */
  function GetBlockRecord(records: Records, h: Hash): BlockRecord {
    if h in records then records[h] else BlockRecord(EMPTY_HEADER, 0, Block(EMPTY_HEADER, []), [])
  }

  function ParentOf(records: Records, h: Hash): Hash {
    GetBlockRecord(records, h).header.previousHash
  }

  /** The hash `k` parent steps back. */
  function Ancestor(records: Records, h: Hash, k: nat): Hash
    decreases k
  {
    if k == 0 then h else Ancestor(records, ParentOf(records, h), k - 1)
  }

  function GenesisBlock(subsidy: uint32, key: PublicKey): Block {
    Block(EMPTY_HEADER, [Transaction(false, 0, [], [TransactionOutput(subsidy, RawBytes(key))], [], 0)])
  }

  function NewChain(subsidy: uint32, key: PublicKey): Chain {
    var g := GenesisBlock(subsidy, key);
    Chain(1, g, g.Hash(), [g.Hash()], map[g.Hash() := BlockRecord(g.header, 1, g, [])],
          Stored(Empty(CACHE_CAPACITY), g.transactions))
  }

  // ---- Handling a block ----

  predicate AppendsTo(c: Chain, b: Block) {
    c.lastBlock.Hash() == b.header.previousHash
  }

  function HeightOf(c: Chain, b: Block): nat {
    GetBlockRecord(c.records, b.header.previousHash).height + 1
  }

  /** Writing the block, its undo block and its record. */
  function Recorded(c: Chain, b: Block): Chain {
    c.(records := c.records[b.Hash() := BlockRecord(b.header, HeightOf(c, b), b, UndoOf(c.coins, b.transactions))])
  }

  function Slide(window: seq<Hash>, h: Hash): seq<Hash> {
    (if |window| >= MAX_HASHES then window[1..] else window) + [h]
  }

  function Appended(c: Chain, b: Block): Chain {
    Chain(c.length + 1, b, b.Hash(), Slide(c.unsafeHashes, b.Hash()), Recorded(c, b).records,
          Stored(c.coins, b.transactions))
  }

  /** `None` is a panic. */
  function Handle(c: Chain, b: Block): Option<Chain> {
    if AppendsTo(c, b) && !Accepts(LedgerOf(c.coins), b.transactions) then Some(c)
    else if AppendsTo(c, b) then Some(Appended(c, b))
    else if HeightOf(c, b) > c.length then Forked(Recorded(c, b), b, HeightOf(c, b))
    else Some(Recorded(c, b))
  }

  // ---- Forks ----

  /** The first `i`-th to last-step ancestor inside the window, as steps and hash. */
  function SearchFrom(c: Chain, start: Hash, i: nat): Option<(nat, Hash)>
    requires i <= |c.unsafeHashes| + 1
    decreases |c.unsafeHashes| + 1 - i
  {
    if i == |c.unsafeHashes| + 1 then None
    else if Ancestor(c.records, start, i) in c.unsafeHashes then Some((i, Ancestor(c.records, start, i)))
    else SearchFrom(c, start, i + 1)
  }

  /** The `n` blocks ending at `h`, newest first; unreadable blocks or undo blocks panic. */
  function Retrieve(records: Records, h: Hash, n: nat): Option<(seq<seq<Transaction>>, seq<seq<UndoEntry>>, seq<Hash>)>
    decreases n
  {
    if n == 0 then Some(([], [], []))
    else if h !in records || records[h].undo == [] then None
    else
      match Retrieve(records, records[h].block.header.previousHash, n - 1)
      case None => None
      case Some((txs, undos, hashes)) =>
        Some(([records[h].block.transactions] + txs, [records[h].undo] + undos, [records[h].block.Hash()] + hashes))
  }

  /** Drops hashes from the end of the window, looking for the ancestor from index `i` down. */
  function Trim(window: seq<Hash>, i: int, ancestor: Hash): seq<Hash>
    requires i < |window|
    decreases i
  {
    if i <= 0 || window[i] == ancestor then window else Trim(window[..|window| - 1], i - 1, ancestor)
  }

  function Reversed(s: seq<Hash>): seq<Hash> {
    seq(|s|, k requires 0 <= k < |s| => s[|s| - 1 - k])
  }

  function RestoreBlocks(s: State, blocks: seq<seq<Transaction>>, n: nat): State
    requires n <= |blocks|
  {
    if n == 0 then s else Stored(RestoreBlocks(s, blocks, n - 1), blocks[n - 1])
  }

  lemma {:induction false} RetrievedLengths(records: Records, h: Hash, n: nat)
    ensures Retrieve(records, h, n).Some? ==>
      var (txs, undos, hashes) := Retrieve(records, h, n).value; |txs| == n && |undos| == n && |hashes| == n
    decreases n
  {
    if n > 0 && h in records { RetrievedLengths(records, records[h].block.header.previousHash, n - 1); }
  }

  function Min(a: int, b: int): int { if a < b then a else b }

  lemma {:induction false} SearchIsShort(c: Chain, start: Hash, i: nat)
    requires i <= |c.unsafeHashes| + 1
    ensures SearchFrom(c, start, i).Some? ==> i <= SearchFrom(c, start, i).value.0 <= |c.unsafeHashes|
    decreases |c.unsafeHashes| + 1 - i
  {
    if i <= |c.unsafeHashes| && Ancestor(c.records, start, i) !in c.unsafeHashes { SearchIsShort(c, start, i + 1); }
  }

  function Forked(c: Chain, b: Block, height: nat): Option<Chain> {
    match SearchFrom(c, b.Hash(), 0)
    case None => Some(c)
    case Some((n, ancestor)) =>
      SearchIsShort(c, b.Hash(), 0);
      RetrievedLengths(c.records, c.lastHash, n);
      match Retrieve(c.records, c.lastHash, n)
      case None => None
      case Some((txs, undos, hashes)) =>
        Some(Chain(height, b, b.Hash(), Trim(c.unsafeHashes, Min(6, n) - 1, ancestor) + Reversed(hashes), c.records,
                   RestoreBlocks(UndoAll(c.coins, txs, undos), txs, |txs|)))
  }

  // ---- Tip integrity ----

  /** A record is kept under the hash of its block, and its height counts the blocks back to
      genesis. */
  ghost predicate LinkedAt(records: Records, genesis: Hash, h: Hash)
    requires h in records
  {
    var r := records[h];
    && r.block.Hash() == h && r.header == r.block.header
    && r.height >= 1
    && (r.height == 1 ==> h == genesis)
    && (r.height > 1 ==> r.header.previousHash in records && records[r.header.previousHash].height == r.height - 1)
  }

  ghost predicate Linked(records: Records, genesis: Hash) {
    && genesis in records && genesis == OfHeader(EMPTY_HEADER) && records[genesis].height == 1
    && (forall h {:trigger LinkedAt(records, genesis, h)} :: h in records ==> LinkedAt(records, genesis, h))
  }

  ghost predicate TipInv(c: Chain, genesis: Hash) {
    && Linked(c.records, genesis)
    && c.lastHash == c.lastBlock.Hash() && c.lastHash in c.records
    && c.length == c.records[c.lastHash].height
  }

  lemma NewTipInv(subsidy: uint32, key: PublicKey)
    ensures TipInv(NewChain(subsidy, key), GenesisBlock(subsidy, key).Hash())
  {
  }

  /** `more` extends `records`, keeping the header and height of every record. */
  ghost predicate Extends(records: Records, more: Records) {
    forall h :: h in records ==> h in more && more[h].header == records[h].header && more[h].height == records[h].height
  }

  lemma KeyIsHeader(records: Records, genesis: Hash, h: Hash)
    requires Linked(records, genesis) && h in records
    ensures h.OfHeader?
  {
    assert LinkedAt(records, genesis, h);
  }

  lemma NotGenesis(c: Chain, b: Block, genesis: Hash)
    requires Linked(c.records, genesis) && b.header.previousHash in c.records
    ensures b.Hash() != genesis
  {
    KeyIsHeader(c.records, genesis, b.header.previousHash);
  }

  /** Recording a block whose parent is stored keeps the links. */
  lemma RecordedLinked(c: Chain, b: Block, genesis: Hash)
    requires Linked(c.records, genesis) && b.header.previousHash in c.records
    ensures Linked(Recorded(c, b).records, genesis) && Extends(c.records, Recorded(c, b).records)
  {
    var r, p := Recorded(c, b).records, b.header.previousHash;
    assert LinkedAt(c.records, genesis, p);
    NotGenesis(c, b, genesis);
    if b.Hash() in c.records {
      assert LinkedAt(c.records, genesis, b.Hash());
      assert c.records[b.Hash()].header == b.header;
      assert c.records[b.Hash()].height == HeightOf(c, b);
    }
    forall h | h in r ensures LinkedAt(r, genesis, h) {
      if h in c.records { assert LinkedAt(c.records, genesis, h); }
    }
  }

  lemma ForkedTip(c: Chain, b: Block, height: nat)
    ensures var r := Forked(c, b, height);
      r.Some? ==>
        && r.value.records == c.records
        && ((r.value.length, r.value.lastBlock, r.value.lastHash) == (c.length, c.lastBlock, c.lastHash)
            || (r.value.length, r.value.lastBlock, r.value.lastHash) == (height, b, b.Hash()))
  {
  }

  /** One handled block: the tip stays sound, the length never decreases, and a tip that is
      not a child of the old one is adopted only at strictly greater height. */
  lemma HandleKeepsTip(c: Chain, b: Block, genesis: Hash)
    requires TipInv(c, genesis) && b.header.previousHash in c.records
    requires Handle(c, b).Some?
    ensures var d := Handle(c, b).value;
      && TipInv(d, genesis)
      && d.length >= c.length
      && (d.lastHash != c.lastHash ==>
          d.lastBlock == b && d.length > c.length && d.length == HeightOf(c, b))
      && Extends(c.records, d.records)
  {
    RecordedLinked(c, b, genesis);
    if !AppendsTo(c, b) && HeightOf(c, b) > c.length {
      ForkedTip(Recorded(c, b), b, HeightOf(c, b));
    }
  }

  /** A block whose parent is not known, like genesis, is recorded at height one and changes nothing
      else. */
  lemma OrphanIsRecorded(c: Chain, b: Block, genesis: Hash)
    requires TipInv(c, genesis) && b.header.previousHash !in c.records
    ensures Handle(c, b) == Some(c.(records := Recorded(c, b).records)) && Recorded(c, b).records[b.Hash()].height == 1
  {
    assert LinkedAt(c.records, genesis, c.lastHash);
  }

  /** A run of handled blocks that does not panic; each parent is stored when it is needed. */
  ghost predicate Handles(c: Chain, blocks: seq<Block>, d: Chain)
    decreases |blocks|
  {
    if blocks == [] then c == d
    else
      && blocks[0].header.previousHash in c.records
      && Handle(c, blocks[0]).Some?
      && Handles(Handle(c, blocks[0]).value, blocks[1..], d)
  }

  lemma {:induction false} TipIntegrity(c: Chain, blocks: seq<Block>, d: Chain, genesis: Hash)
    requires TipInv(c, genesis) && Handles(c, blocks, d)
    ensures TipInv(d, genesis) && d.length >= c.length
    decreases |blocks|
  {
    if blocks != [] {
      HandleKeepsTip(c, blocks[0], genesis);
      TipIntegrity(Handle(c, blocks[0]).value, blocks[1..], d, genesis);
    }
  }

  // ---- The chain below a hash ----

  lemma {:induction false} AncestorHeight(records: Records, genesis: Hash, h: Hash, k: nat)
    requires Linked(records, genesis) && h in records && k < records[h].height
    ensures Ancestor(records, h, k) in records
    ensures records[Ancestor(records, h, k)].height == records[h].height - k
    decreases k
  {
    if k > 0 {
      assert LinkedAt(records, genesis, h);
      AncestorHeight(records, genesis, ParentOf(records, h), k - 1);
    }
  }

  lemma {:induction false} AncestorAdds(records: Records, h: Hash, j: nat, k: nat)
    ensures Ancestor(records, Ancestor(records, h, j), k) == Ancestor(records, h, j + k)
    decreases j
  {
    if j > 0 { AncestorAdds(records, ParentOf(records, h), j - 1, k); }
  }

  /** The tip lies exactly `length - 1` parent steps above genesis. */
  lemma TipIsAboveGenesis(c: Chain, genesis: Hash)
    requires TipInv(c, genesis)
    ensures c.length >= 1 && Ancestor(c.records, c.lastHash, c.length - 1) == genesis
    ensures forall k: nat :: k < c.length - 1 ==> Ancestor(c.records, c.lastHash, k) != genesis
  {
    assert LinkedAt(c.records, genesis, c.lastHash);
    AncestorHeight(c.records, genesis, c.lastHash, c.length - 1);
    assert LinkedAt(c.records, genesis, Ancestor(c.records, c.lastHash, c.length - 1));
    forall k: nat | k < c.length - 1 ensures Ancestor(c.records, c.lastHash, k) != genesis {
      AncestorHeight(c.records, genesis, c.lastHash, k);
    }
  }

  /** The hash at a height of the active chain. */
  function HashAt(c: Chain, height: nat): Hash
    requires height <= c.length
  {
    Ancestor(c.records, c.lastHash, c.length - height)
  }

  // ---- The fork search ----

  /** The unsafe hashes are the top of the active chain. */
  ghost predicate Window(c: Chain) {
    && |c.unsafeHashes| <= c.length
    && forall k :: 0 <= k < |c.unsafeHashes| ==>
         c.unsafeHashes[|c.unsafeHashes| - 1 - k] == Ancestor(c.records, c.lastHash, k)
  }

  ghost predicate Active(c: Chain, h: Hash) {
    exists k :: 0 <= k < c.length && Ancestor(c.records, c.lastHash, k) == h
  }

  /** `d` steps back from `start` lies the deepest block it shares with the active chain. */
  ghost predicate BranchesAt(c: Chain, start: Hash, d: nat) {
    && Active(c, Ancestor(c.records, start, d))
    && forall k :: 0 <= k < d ==> !Active(c, Ancestor(c.records, start, k))
  }

  lemma ActiveHeight(c: Chain, genesis: Hash, h: Hash)
    requires TipInv(c, genesis) && Active(c, h)
    ensures h in c.records && 1 <= c.records[h].height <= c.length
    ensures Ancestor(c.records, c.lastHash, c.length - c.records[h].height) == h
  {
    var k :| 0 <= k < c.length && Ancestor(c.records, c.lastHash, k) == h;
    AncestorHeight(c.records, genesis, c.lastHash, k);
  }

  /** Steps from the tip down to an active block. */
  function Depth(c: Chain, h: Hash): int {
    c.length - GetBlockRecord(c.records, h).height
  }

  lemma InWindow(c: Chain, genesis: Hash, h: Hash)
    requires TipInv(c, genesis) && Window(c)
    ensures h in c.unsafeHashes <==> Active(c, h) && Depth(c, h) < |c.unsafeHashes|
  {
    var w := |c.unsafeHashes|;
    if h in c.unsafeHashes {
      var i :| 0 <= i < w && c.unsafeHashes[i] == h;
      WindowAt(c, w - 1 - i);
      AncestorHeight(c.records, genesis, c.lastHash, w - 1 - i);
    }
    if Active(c, h) && Depth(c, h) < w {
      ActiveHeight(c, genesis, h);
      WindowAt(c, Depth(c, h));
    }
  }

  lemma WindowAt(c: Chain, k: nat)
    requires Window(c) && k < |c.unsafeHashes|
    ensures c.unsafeHashes[|c.unsafeHashes| - 1 - k] == Ancestor(c.records, c.lastHash, k)
  {
  }

  /** Any active block below the branch point lies deeper by the extra steps. */
  lemma BelowBranch(c: Chain, genesis: Hash, start: Hash, d: nat, k: nat)
    requires TipInv(c, genesis) && Active(c, Ancestor(c.records, start, d))
    requires Active(c, Ancestor(c.records, start, d + k))
    ensures Depth(c, Ancestor(c.records, start, d + k)) == Depth(c, Ancestor(c.records, start, d)) + k
  {
    AncestorAdds(c.records, start, d, k);
    BelowActive(c, genesis, Ancestor(c.records, start, d), k);
  }

  lemma BelowActive(c: Chain, genesis: Hash, h: Hash, k: nat)
    requires TipInv(c, genesis) && Active(c, h) && Active(c, Ancestor(c.records, h, k))
    ensures Depth(c, Ancestor(c.records, h, k)) == Depth(c, h) + k
  {
    ActiveHeight(c, genesis, h);
    NotPastGenesis(c, genesis, h, k);
    AncestorHeight(c.records, genesis, h, k);
  }

  lemma NotPastGenesis(c: Chain, genesis: Hash, h: Hash, k: nat)
    requires TipInv(c, genesis) && h in c.records && Active(c, Ancestor(c.records, h, k))
    ensures k < c.records[h].height
  {
    if k >= c.records[h].height {
      PastGenesis(c, genesis, h, k);
      NoTextIsActive(c, genesis);
    }
  }

  lemma NoTextIsActive(c: Chain, genesis: Hash)
    requires TipInv(c, genesis)
    ensures !Active(c, Text(""))
  {
    if Active(c, Text("")) {
      ActiveHeight(c, genesis, Text(""));
      KeyIsHeader(c.records, genesis, Text(""));
    }
  }

  lemma {:induction false} PastGenesis(c: Chain, genesis: Hash, h: Hash, k: nat)
    requires TipInv(c, genesis) && h in c.records && k >= c.records[h].height
    ensures Ancestor(c.records, h, k) == Text("")
    decreases k
  {
    assert LinkedAt(c.records, genesis, h);
    if c.records[h].height > 1 {
      PastGenesis(c, genesis, ParentOf(c.records, h), k - 1);
    } else {
      if Text("") in c.records { KeyIsHeader(c.records, genesis, Text("")); }
      TextForever(c, k - 1);
    }
  }

  lemma {:induction false} TextForever(c: Chain, k: nat)
    requires Text("") !in c.records
    ensures Ancestor(c.records, Text(""), k) == Text("")
    decreases k
  {
    if k > 0 { TextForever(c, k - 1); }
  }

  lemma {:induction false} SearchSkips(c: Chain, start: Hash, i: nat, d: nat)
    requires i <= d <= |c.unsafeHashes| + 1
    requires forall k :: i <= k < d ==> Ancestor(c.records, start, k) !in c.unsafeHashes
    ensures SearchFrom(c, start, i) == SearchFrom(c, start, d)
    decreases d - i
  {
    if i < d { SearchSkips(c, start, i + 1, d); }
  }

  /** The fork search returns the branch point and its distance when it lies inside the window
      and at most one window length back, and fails in every other case. */
  lemma ForkSearchIsExact(c: Chain, genesis: Hash, start: Hash, d: nat)
    requires TipInv(c, genesis) && Window(c) && BranchesAt(c, start, d)
    ensures var a, w := Ancestor(c.records, start, d), |c.unsafeHashes|;
      SearchFrom(c, start, 0) == if d <= w && Depth(c, a) < w then Some((d, a)) else None
  {
    var a, w := Ancestor(c.records, start, d), |c.unsafeHashes|;
    InWindow(c, genesis, a);
    if d <= w && Depth(c, a) < w {
      forall k: nat | k < d
        ensures Ancestor(c.records, start, k) !in c.unsafeHashes
      {
        OffWindow(c, genesis, start, d, k);
      }
      SearchSkips(c, start, 0, d);
    } else {
      forall k: nat | k <= w
        ensures Ancestor(c.records, start, k) !in c.unsafeHashes
      {
        OffWindow(c, genesis, start, d, k);
      }
      SearchSkips(c, start, 0, w + 1);
    }
  }

  /** Blocks before the branch point are not in the window, nor are those from it on when the
      branch point is not. */
  lemma OffWindow(c: Chain, genesis: Hash, start: Hash, d: nat, k: nat)
    requires TipInv(c, genesis) && Window(c) && BranchesAt(c, start, d)
    requires k < d || Depth(c, Ancestor(c.records, start, d)) >= |c.unsafeHashes|
    ensures Ancestor(c.records, start, k) !in c.unsafeHashes
  {
    var h := Ancestor(c.records, start, k);
    InWindow(c, genesis, h);
    if k >= d && Active(c, h) { BelowBranch(c, genesis, start, d, k - d); }
  }

  /** Every stored block has a branch point: at the latest, genesis. */
  lemma BranchExists(c: Chain, genesis: Hash, start: Hash) returns (d: nat)
    requires TipInv(c, genesis) && start in c.records
    ensures BranchesAt(c, start, d) && d < c.records[start].height
  {
    assert LinkedAt(c.records, genesis, start);
    var top := c.records[start].height - 1;
    AncestorHeight(c.records, genesis, start, top);
    assert LinkedAt(c.records, genesis, Ancestor(c.records, start, top));
    TipIsAboveGenesis(c, genesis);
    assert Active(c, Ancestor(c.records, start, top));
    d := 0;
    while !Active(c, Ancestor(c.records, start, d))
      invariant d <= top
      invariant forall k :: 0 <= k < d ==> !Active(c, Ancestor(c.records, start, k))
      decreases top - d
    {
      d := d + 1;
    }
  }

  /** A branch one block longer than the active chain that splits inside the window is found. */
  lemma LongerForkIsFound(c: Chain, genesis: Hash, start: Hash, d: nat)
    requires TipInv(c, genesis) && Window(c) && BranchesAt(c, start, d)
    requires start in c.records && c.records[start].height == c.length + 1 && d < c.records[start].height
    requires Ancestor(c.records, start, d) in c.unsafeHashes
    ensures SearchFrom(c, start, 0) == Some((d, Ancestor(c.records, start, d)))
  {
    AncestorHeight(c.records, genesis, start, d);
    InWindow(c, genesis, Ancestor(c.records, start, d));
    ForkSearchIsExact(c, genesis, start, d);
  }
}
