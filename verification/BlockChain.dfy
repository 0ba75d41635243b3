/** The block chain as the node runs it: fields updated in place, with loops over parent
    hashes. Every method is proved to have the effect its counterpart in `ChainState`
    describes. A file range of a block record is represented by the block it holds. */
module BlockChain {
  import opened Ledger
  import opened UtxoLedger
  import opened CoinState
  import opened CoinStore
  import opened CoinUndo
  import opened ChainState
  import Coins = CoinDatabase

  lemma {:induction false} InputsPrefix(txs: seq<Transaction>, n: nat)
    requires n <= |txs|
    ensures InputsOf(txs[..n]) <= InputsOf(txs)
    decreases |txs| - n
  {
    if n == |txs| {
      assert txs[..n] == txs;
    } else {
      assert txs[..n + 1][..n] == txs[..n];
      InputsPrefix(txs, n + 1);
    }
  }

  /** The undo entries of the coins at some locators, which are all known. */
  ghost predicate Listing(s: State, ls: seq<CoinLocator>, entries: seq<UndoEntry>) {
    (forall k :: 0 <= k < |ls| ==> CoinState.GetCoin(s, ls[k]).Some?) && entries == Entries(s, ls)
  }

  lemma MissingCoin(s: State, txs: seq<Transaction>, t: nat)
    requires t < |txs| && exists k :: 0 <= k < |txs[t].inputs| && CoinState.GetCoin(s, InputsOfOne(txs[t])[k]).None?
    ensures UndoOf(s, txs) == []
  {
    var k :| 0 <= k < |txs[t].inputs| && CoinState.GetCoin(s, InputsOfOne(txs[t])[k]).None?;
    assert txs[..t + 1][..t] == txs[..t];
    InputsPrefix(txs, t + 1);
    var n := |InputsOf(txs[..t])| + k;
    assert InputsOf(txs)[n] == InputsOf(txs[..t + 1])[n] == InputsOfOne(txs[t])[k];
  }

  /** The value of the coins spent by the first `n` inputs; missing coins count nothing. */
  function InputSum(s: State, tx: Transaction, n: nat): nat
    requires n <= |tx.inputs|
  {
    if n == 0 then 0
    else InputSum(s, tx, n - 1) +
         match CoinState.GetCoin(s, LocatorOf(tx.inputs[n - 1])) case Some(coin) => coin.output.amount case None => 0
  }

  /** Reverses a list by swapping from both ends. */
  method Reverse<T>(s: seq<T>) returns (r: seq<T>)
    ensures |r| == |s| && forall k :: 0 <= k < |s| ==> r[k] == s[|s| - 1 - k]
  {
    r := s;
    var i, j := 0, |r| - 1;
    while i < j
      invariant |r| == |s| && 0 <= i <= j + 2 && i + j == |s| - 1
      invariant forall k :: i <= k <= j ==> r[k] == s[k]
      invariant forall k :: 0 <= k < i ==> r[k] == s[|s| - 1 - k] && r[|s| - 1 - k] == s[k]
    {
      r := r[i := r[j]][j := r[i]];
      i, j := i + 1, j - 1;
    }
  }

  class BlockChain {
    var length: nat
    var lastBlock: Block
    var lastHash: Hash
    var unsafeHashes: seq<Hash>
    var blockInfoDB: Records
    const coinDB: Coins.CoinDatabase

    function State(): Chain
      reads this, coinDB
    {
      Chain(length, lastBlock, lastHash, unsafeHashes, blockInfoDB, coinDB.State())
    }

    constructor (subsidy: uint32, key: PublicKey)
      ensures State() == NewChain(subsidy, key) && fresh(coinDB)
    {
      var genBlock := GenesisBlock(subsidy, key);
      var hash := genBlock.Hash();
      var db := new Coins.CoinDatabase(CACHE_CAPACITY);
      length, lastBlock, lastHash, unsafeHashes := 1, genBlock, hash, [hash];
      coinDB := db;
      blockInfoDB := map[hash := BlockRecord(genBlock.header, 1, genBlock, [])];
      new;
      db.StoreBlock(genBlock.transactions);
    }

    method MakeUndoBlock(txs: seq<Transaction>) returns (entries: seq<UndoEntry>)
      ensures entries == UndoOf(coinDB.State(), txs)
    {
      entries := [];
      for t := 0 to |txs|
        invariant Listing(coinDB.State(), InputsOf(txs[..t]), entries)
      {
        assert txs[..t + 1][..t] == txs[..t];
        var found;
        found, entries := AddEntries(txs[t], entries, InputsOf(txs[..t]));
        if !found {
          MissingCoin(coinDB.State(), txs, t);
          return [];
        }
      }
      assert txs[..|txs|] == txs;
    }

    /** Adds an entry for each input, up to the first whose coin is missing. */
    method AddEntries(tx: Transaction, start: seq<UndoEntry>, ghost done: seq<CoinLocator>)
      returns (found: bool, entries: seq<UndoEntry>)
      requires Listing(coinDB.State(), done, start)
      ensures found <==>
        forall k :: 0 <= k < |tx.inputs| ==> CoinState.GetCoin(coinDB.State(), InputsOfOne(tx)[k]).Some?
      ensures found ==> Listing(coinDB.State(), done + InputsOfOne(tx), entries)
    {
      entries := start;
      ghost var one := InputsOfOne(tx);
      for i := 0 to |tx.inputs|
        invariant Listing(coinDB.State(), done + one[..i], entries)
        invariant forall k :: 0 <= k < i ==> CoinState.GetCoin(coinDB.State(), one[k]).Some?
      {
        assert done + one[..i + 1] == (done + one[..i]) + [one[i]];
        var coin := coinDB.GetCoin(LocatorOf(tx.inputs[i]));
        if coin.None? {
          return false, entries;
        }
        entries := entries + [UndoEntry(LocatorOf(tx.inputs[i]), coin.value.output)];
      }
      assert one[..|one|] == one;
      found := true;
    }

    /** Handles a new block; `ok` is false when the node panics on unreadable fork data. */
    method HandleBlock(b: Block) returns (ok: bool)
      modifies this, coinDB
      ensures ok <==> Handle(old(State()), b).Some?
      ensures ok ==> State() == Handle(old(State()), b).value
    {
      var appends := lastBlock.Hash() == b.header.previousHash;
      if appends {
        var valid := coinDB.ValidateBlock(b.transactions);
        if !valid {
          return true;
        }
      }
      var undo := MakeUndoBlock(b.transactions);
      var height := GetBlockRecord(blockInfoDB, b.header.previousHash).height + 1;
      blockInfoDB := blockInfoDB[b.Hash() := BlockRecord(b.header, height, b, undo)];
      if appends {
        Append(b);
        return true;
      }
      if height > length {
        ok := HandleFork(b, height);
        return;
      }
      return true;
    }

    method Append(b: Block)
      modifies this, coinDB
      ensures State() == Chain(old(length) + 1, b, b.Hash(), Slide(old(unsafeHashes), b.Hash()), old(blockInfoDB),
                               Stored(old(coinDB.State()), b.transactions))
    {
      coinDB.StoreBlock(b.transactions);
      length, lastBlock, lastHash := length + 1, b, b.Hash();
      if |unsafeHashes| >= MAX_HASHES {
        unsafeHashes := unsafeHashes[1..];
      }
      unsafeHashes := unsafeHashes + [b.Hash()];
    }

    method HandleFork(b: Block, height: nat) returns (ok: bool)
      modifies this, coinDB
      ensures ok <==> Forked(old(State()), b, height).Some?
      ensures ok ==> State() == Forked(old(State()), b, height).value
    {
      var forkLength, ancestorHash := GetForkLengthAndAncestor(b.Hash());
      if forkLength < 0 {
        return true;
      }
      RetrievedLengths(blockInfoDB, lastHash, forkLength);
      var found, blocks, undos, hashes := GetBlocksAndUndoBlocks(forkLength, lastHash);
      if !found {
        return false;
      }
      TrimWindow(if forkLength < 6 then forkLength else 6, ancestorHash);
      var newest := Reverse(hashes);
      assert newest == Reversed(hashes);
      unsafeHashes := unsafeHashes + newest;
      coinDB.UndoCoins(blocks, undos);
      StoreForkBlocks(blocks);
      length, lastBlock, lastHash := height, b, b.Hash();
      return true;
    }

    /** Stores the blocks whether or not they validate. */
    method StoreForkBlocks(blocks: seq<seq<Transaction>>)
      modifies coinDB
      ensures coinDB.State() == RestoreBlocks(old(coinDB.State()), blocks, |blocks|)
    {
      for i := 0 to |blocks|
        invariant coinDB.State() == RestoreBlocks(old(coinDB.State()), blocks, i)
      {
        var _ := coinDB.ValidateBlock(blocks[i]);
        coinDB.StoreBlock(blocks[i]);
      }
    }

    /** Deletes unsafe hashes from the end until the ancestor or index 0 is reached. */
    method TrimWindow(min: nat, ancestorHash: Hash)
      requires min - 1 < |unsafeHashes|
      modifies this`unsafeHashes
      ensures unsafeHashes == Trim(old(unsafeHashes), min - 1, ancestorHash)
    {
      var i := min - 1;
      while i > 0
        invariant i < |unsafeHashes|
        invariant Trim(unsafeHashes, i, ancestorHash) == Trim(old(unsafeHashes), min - 1, ancestorHash)
      {
        if unsafeHashes[i] == ancestorHash {
          break;
        }
        unsafeHashes := unsafeHashes[..|unsafeHashes| - 1];
        i := i - 1;
      }
    }

    /** The fork length and ancestor, or a negative length when the search fails. */
    method GetForkLengthAndAncestor(startHash: Hash) returns (forkLength: int, ancestorHash: Hash)
      ensures forkLength < 0 <==> SearchFrom(State(), startHash, 0).None?
      ensures forkLength >= 0 ==>
        SearchFrom(State(), startHash, 0) == Some((forkLength, ancestorHash)) && forkLength <= |unsafeHashes|
    {
      forkLength := 0;
      var nextHash := startHash;
      for i := 0 to |unsafeHashes| + 1
        invariant forkLength == i && nextHash == Ancestor(blockInfoDB, startHash, i)
        invariant SearchFrom(State(), startHash, 0) == SearchFrom(State(), startHash, i)
      {
        if nextHash in unsafeHashes {
          return forkLength, nextHash;
        }
        AncestorAdds(blockInfoDB, startHash, i, 1);
        assert Ancestor(blockInfoDB, nextHash, 1) == Ancestor(blockInfoDB, ParentOf(blockInfoDB, nextHash), 0);
        nextHash := GetBlockRecord(blockInfoDB, nextHash).header.previousHash;
        forkLength := forkLength + 1;
      }
      return -1, Text("");
    }

    /** The last `n` blocks up to a hash, newest first. */
    method GetBlocksAndUndoBlocks(n: nat, hash: Hash)
      returns (found: bool, blocks: seq<seq<Transaction>>, undos: seq<seq<UndoEntry>>, hashes: seq<Hash>)
      ensures found <==> Retrieve(blockInfoDB, hash, n).Some?
      ensures found ==> Retrieve(blockInfoDB, hash, n) == Some((blocks, undos, hashes))
    {
      blocks, undos, hashes := [], [], [];
      var nextHash := hash;
      JoinedWithNothing(Retrieve(blockInfoDB, hash, n));
      for i := 0 to n
        invariant Retrieve(blockInfoDB, hash, n) ==
          Joined(blocks, undos, hashes, Retrieve(blockInfoDB, nextHash, n - i))
      {
        if nextHash !in blockInfoDB || blockInfoDB[nextHash].undo == [] {
          return false, [], [], [];
        }
        var r := blockInfoDB[nextHash];
        PrependRetrieved(blockInfoDB, nextHash, n - i, blocks, undos, hashes);
        blocks, undos, hashes := blocks + [r.block.transactions], undos + [r.undo], hashes + [r.block.Hash()];
        nextHash := r.block.header.previousHash;
      }
      assert blocks + [] == blocks && undos + [] == undos && hashes + [] == hashes;
      return true, blocks, undos, hashes;
    }

    /** The hashes of the active chain between two heights, lowest first. */
    method GetHashes(start: nat, end: nat) returns (hashes: seq<Hash>)
      requires start >= 1
      ensures |hashes| == if start <= Min(end, length) then Min(end, length) - start + 1 else 0
      ensures forall k :: 0 <= k < |hashes| ==>
        hashes[k] == Ancestor(blockInfoDB, lastBlock.Hash(), length - (start + k))
    {
      hashes := [];
      var currentHeight, nextHash := length, lastBlock.Hash();
      while currentHeight >= start
        invariant currentHeight <= length && (start - 1 <= currentHeight || currentHeight == length)
        invariant nextHash == Ancestor(blockInfoDB, lastBlock.Hash(), length - currentHeight)
        invariant |hashes| == if currentHeight < Min(end, length) then Min(end, length) - currentHeight else 0
        invariant forall k :: 0 <= k < |hashes| ==>
          hashes[k] == Ancestor(blockInfoDB, lastBlock.Hash(), length - (Min(end, length) - k))
        decreases currentHeight
      {
        var br := GetBlockRecord(blockInfoDB, nextHash);
        if currentHeight <= end {
          hashes := hashes + [nextHash];
        }
        AncestorAdds(blockInfoDB, lastBlock.Hash(), length - currentHeight, 1);
        assert Ancestor(blockInfoDB, nextHash, 1) == Ancestor(blockInfoDB, ParentOf(blockInfoDB, nextHash), 0);
        nextHash := br.header.previousHash;
        currentHeight := currentHeight - 1;
      }
      hashes := Reverse(hashes);
    }

    /** The blocks of the active chain between two heights, lowest first. */
    method GetBlocks(start: nat, end: nat, ghost genesis: Hash) returns (blocks: seq<Block>)
      requires start >= 1 && TipInv(State(), genesis)
      ensures |blocks| == if start <= Min(end, length) then Min(end, length) - start + 1 else 0
      ensures forall k :: 0 <= k < |blocks| ==>
        blocks[k] == GetBlockRecord(blockInfoDB, HashAt(State(), start + k)).block
        && blocks[k].Hash() == HashAt(State(), start + k)
    {
      blocks := [];
      ghost var top := Min(end, length);
      var currentHeight, nextHash := length, lastBlock.Hash();
      while currentHeight >= start
        invariant currentHeight <= length && (start - 1 <= currentHeight || currentHeight == length)
        invariant nextHash == HashAt(State(), currentHeight)
        invariant |blocks| == if currentHeight < top then top - currentHeight else 0
        invariant forall k :: 0 <= k < |blocks| ==>
          blocks[k] == GetBlockRecord(blockInfoDB, HashAt(State(), top - k)).block
          && blocks[k].Hash() == HashAt(State(), top - k)
        decreases currentHeight
      {
        var br := GetBlockRecord(blockInfoDB, nextHash);
        SliceIsChain(State(), genesis, currentHeight);
        if currentHeight <= end {
          blocks := blocks + [br.block];
        }
        AncestorAdds(blockInfoDB, lastHash, length - currentHeight, 1);
        assert Ancestor(blockInfoDB, nextHash, 1) == Ancestor(blockInfoDB, ParentOf(blockInfoDB, nextHash), 0);
        nextHash := br.header.previousHash;
        currentHeight := currentHeight - 1;
      }
      blocks := Reverse(blocks);
    }

    method GetInputSums(txs: seq<Transaction>) returns (sums: seq<uint32>)
      ensures |sums| == |txs|
      ensures forall t :: 0 <= t < |txs| ==> sums[t] == Wrap(InputSum(coinDB.State(), txs[t], |txs[t].inputs|))
    {
      sums := [];
      for t := 0 to |txs|
        invariant |sums| == t
        invariant forall k :: 0 <= k < t ==> sums[k] == Wrap(InputSum(coinDB.State(), txs[k], |txs[k].inputs|))
      {
        var sum := SumInputs(txs[t]);
        sums := sums + [sum];
      }
    }

    method SumInputs(tx: Transaction) returns (sum: uint32)
      ensures sum == Wrap(InputSum(coinDB.State(), tx, |tx.inputs|))
    {
      sum := 0;
      for i := 0 to |tx.inputs|
        invariant sum == Wrap(InputSum(coinDB.State(), tx, i))
      {
        var coin := coinDB.GetCoin(LocatorOf(tx.inputs[i]));
        if coin.Some? {
          WrapAdds(InputSum(coinDB.State(), tx, i), coin.value.output.amount);
          sum := Wrap(sum + coin.value.output.amount);
        }
      }
    }
  }

  type Retrieved = Option<(seq<seq<Transaction>>, seq<seq<UndoEntry>>, seq<Hash>)>

  function Joined(blocks: seq<seq<Transaction>>, undos: seq<seq<UndoEntry>>, hashes: seq<Hash>,
                  rest: Retrieved): Retrieved {
    match rest
    case None => None
    case Some((b, u, h)) => Some((blocks + b, undos + u, hashes + h))
  }

  lemma JoinedWithNothing(rest: Retrieved)
    ensures Joined([], [], [], rest) == rest
  {
    if rest.Some? {
      assert [] + rest.value.0 == rest.value.0 && [] + rest.value.1 == rest.value.1;
      assert [] + rest.value.2 == rest.value.2;
    }
  }

  lemma PrependRetrieved(records: Records, h: Hash, n: nat, blocks: seq<seq<Transaction>>,
                         undos: seq<seq<UndoEntry>>, hashes: seq<Hash>)
    requires n > 0 && h in records && records[h].undo != []
    ensures var r := records[h];
      Joined(blocks, undos, hashes, Retrieve(records, h, n)) ==
      Joined(blocks + [r.block.transactions], undos + [r.undo], hashes + [r.block.Hash()],
             Retrieve(records, r.block.header.previousHash, n - 1))
  {
    var r := records[h];
    var rest := Retrieve(records, r.block.header.previousHash, n - 1);
    if rest.Some? {
      assert blocks + ([r.block.transactions] + rest.value.0) == (blocks + [r.block.transactions]) + rest.value.0;
      assert undos + ([r.undo] + rest.value.1) == (undos + [r.undo]) + rest.value.1;
      assert hashes + ([r.block.Hash()] + rest.value.2) == (hashes + [r.block.Hash()]) + rest.value.2;
    }
  }

  /** The heights a slice of the active chain covers, and that each block is the child of the
      one before it. */
  lemma SliceIsChain(c: Chain, genesis: Hash, height: nat)
    requires TipInv(c, genesis) && 1 <= height <= c.length
    ensures var h := HashAt(c, height);
      && h in c.records && c.records[h].height == height && c.records[h].block.Hash() == h
      && (height == 1 ==> h == genesis)
      && (height > 1 ==> c.records[h].header.previousHash == HashAt(c, height - 1))
  {
    AncestorHeight(c.records, genesis, c.lastHash, c.length - height);
    var h := HashAt(c, height);
    assert LinkedAt(c.records, genesis, h);
    if height > 1 {
      AncestorAdds(c.records, c.lastHash, c.length - height, 1);
      assert Ancestor(c.records, h, 1) == Ancestor(c.records, ParentOf(c.records, h), 0);
    }
  }
}
