/** The life of a coin in the wallet: where it comes from, whose it is, and where every event takes
    it, pool by pool. */
module WalletLife {
  import opened Ledger
  import opened WalletState
  import opened WalletPools
  import opened WalletRuns

  /** The coin is output `i` of the transaction, and locked to the wallet's key. */
  predicate Arrives(cfg: Config, bt: BlockTransaction, i: nat, c: CoinInfo) {
    && |bt.pointers| == |bt.tx.outputs| && i < |bt.tx.outputs| && LockedTo(cfg.id, bt.tx.outputs[i])
    && c == CoinInfo(CoinLocator(bt.tx.Hash(), i), bt.pointers[i], bt.tx.outputs[i])
  }

  ghost predicate ArrivesWith(cfg: Config, bt: BlockTransaction, c: CoinInfo) {
    exists i: nat :: Arrives(cfg, bt, i, c)
  }

  lemma CoinsOfAre(cfg: Config, bt: BlockTransaction, c: CoinInfo)
    requires bt.Valid()
    ensures c in CoinsOf(cfg, bt, |bt.tx.outputs|) <==> ArrivesWith(cfg, bt, c)
  {
    if ArrivesWith(cfg, bt, c) {
      var i: nat :| Arrives(cfg, bt, i, c);
      assert c == bt.Coin(i);
    }
    if c in CoinsOf(cfg, bt, |bt.tx.outputs|) {
      var i :| 0 <= i < |bt.tx.outputs| && PaysMe(cfg, bt.tx.outputs[i]) && c == bt.Coin(i);
      assert Arrives(cfg, bt, i, c);
    }
  }

  /** A transaction of a block: exactly its outputs locked to the wallet's key arrive, with counter
      zero, and exactly the coins waiting under its hash become spent, with counter zero. */
  lemma TransactionMoves(cfg: Config, w: Wallet, bt: BlockTransaction, c: CoinInfo)
    requires bt.Valid()
    ensures var v, h := HandleTransaction(cfg, w, bt), bt.tx.Hash();
      && (c in v.received <==> c in w.received || ArrivesWith(cfg, bt, c))
      && (c in v.received ==> v.received[c] == if ArrivesWith(cfg, bt, c) then 0 else w.received[c])
      && (c in v.spent <==> c in w.spent || (h in w.unseen && c in w.unseen[h]))
      && (c in v.spent ==> v.spent[c] == if h in w.unseen && c in w.unseen[h] then 0 else w.spent[c])
      && v.unseen == w.unseen - {h} && v.collection == w.collection && v.balance == w.balance
  {
    CoinsOfAre(cfg, bt, c);
    var h := bt.tx.Hash();
    if h in w.unseen {
      SetOfHolds(w.unseen[h], c);
    } else {
      assert w.unseen - {h} == w.unseen;
    }
  }

  lemma SetOfHolds(coins: seq<CoinInfo>, c: CoinInfo)
    ensures c in SetOf(coins) <==> c in coins
  {
  }

  // ---- Where coins come from ----

  ghost predicate Kept(w: Wallet, c: CoinInfo) {
    exists a :: At(w, c, a)
  }

  ghost predicate ArrivesIn(cfg: Config, bts: seq<BlockTransaction>, n: nat, c: CoinInfo)
    requires n <= |bts|
  {
    exists t :: 0 <= t < n && ArrivesWith(cfg, bts[t], c)
  }

  lemma RequestKeepsCoins(cfg: Config, w: Wallet, amount: uint32, fee: uint32, recipient: PublicKey,
                          coins: seq<CoinInfo>, c: CoinInfo, a: Home)
    requires Inv(cfg, w) && Picked(w, coins) && At(Requested(cfg, w, amount, fee, recipient, coins), c, a)
    ensures Kept(w, c)
  {
    var v := Requested(cfg, w, amount, fee, recipient, coins);
    if v == w {
      assert At(w, c, a);
    } else {
      var h := RequestedTransaction(cfg.id, amount, fee, recipient, coins).Hash();
      RequestIsNew(cfg, w, amount, fee, recipient, coins);
      UnseenHome(w, v, h, coins, c, a);
    }
  }

  lemma {:induction false} TransactionsBring(cfg: Config, w: Wallet, bts: seq<BlockTransaction>, n: nat, c: CoinInfo,
                                             a: Home)
    requires AllValid(bts) && n <= |bts| && At(HandleTransactions(cfg, w, bts, n), c, a)
    ensures Kept(w, c) || ArrivesIn(cfg, bts, n, c)
  {
    if n == 0 {
      assert At(w, c, a);
    } else {
      var u, bt := HandleTransactions(cfg, w, bts, n - 1), bts[n - 1];
      TransactionMoves(cfg, u, bt, c);
      if !ArrivesWith(cfg, bt, c) {
        var b := if At(u, c, a) then a else UnseenUnder(bt.tx.Hash());
        TransactionsBring(cfg, w, bts, n - 1, c, b);
      }
    }
  }

  lemma BlockBrings(cfg: Config, w: Wallet, bts: seq<BlockTransaction>, c: CoinInfo, a: Home)
    requires AllValid(bts) && At(HandledBlock(cfg, w, bts), c, a)
    ensures Kept(w, c) || ArrivesIn(cfg, bts, |bts|, c)
  {
    var u := HandleTransactions(cfg, w, bts, |bts|);
    ConfirmedHome(cfg, u, c, a);
    TransactionsBring(cfg, w, bts, |bts|, c, if At(u, c, a) then a else Received);
  }

  lemma {:induction false} RevertBrings(cfg: Config, w: Wallet, txis: map<CoinLocator, CoinInfo>,
                                        bts: seq<BlockTransaction>, n: nat, c: CoinInfo, a: Home)
    requires Inv(cfg, w) && Pending(w, txis, {}) && DistinctInputs(bts) && n <= |bts|
    requires At(RevertTransactions(cfg, w, txis, bts, n), c, a)
    ensures Kept(w, c)
  {
    if n == 0 {
      assert At(w, c, a);
    } else {
      var u := RevertTransactions(cfg, w, txis, bts, n - 1);
      ForkKeepsInv(cfg, w, txis, bts, n - 1);
      assert NewInputsAt(bts, n - 1);
      RevertOneBrings(cfg, u, txis, bts[n - 1], InputsUpTo(bts, n - 1), c, a);
      var b :| At(u, c, b);
      RevertBrings(cfg, w, txis, bts, n - 1, c, b);
    }
  }

  lemma RevertOneBrings(cfg: Config, w: Wallet, txis: map<CoinLocator, CoinInfo>, bt: BlockTransaction,
                        done: set<CoinLocator>, c: CoinInfo, a: Home)
    requires Inv(cfg, w) && bt.Valid() && Pending(w, txis, done) && NewInputs(bt.tx, done)
    requires At(RevertTransaction(cfg, w, txis, bt), c, a)
    ensures Kept(w, c)
  {
    var (v, cis) := RevertInputs(cfg, w, txis, bt.tx, |bt.tx.inputs|);
    RevertInputsFacts(cfg, w, txis, bt.tx, |bt.tx.inputs|, done);
    var u := if cis == [] then v else v.(unseen := v.unseen[bt.tx.Hash() := cis]);
    OutputsOnlyTake(cfg, u, bt, |bt.tx.outputs|, c, a);
    if cis == [] {
      assert v == w;
      assert At(w, c, a);
    } else {
      BackHome(w, u, bt.tx.Hash(), cis, c, a);
    }
  }

  lemma {:induction false} OutputsOnlyTake(cfg: Config, w: Wallet, bt: BlockTransaction, n: nat, c: CoinInfo, a: Home)
    requires bt.Valid() && n <= |bt.tx.outputs| && At(RevertOutputs(cfg, w, bt, n), c, a)
    ensures At(w, c, a)
  {
    if n > 0 { OutputsOnlyTake(cfg, w, bt, n - 1, c, a); }
  }

  /** No event makes a coin out of nothing: whatever is kept afterwards was kept before, or is an
      output of the block that is locked to the wallet's key. */
  lemma NothingFromNowhere(cfg: Config, w: Wallet, e: Event, c: CoinInfo, a: Home)
    requires Inv(cfg, w) && Enabled(cfg, w, e) && At(Next(cfg, w, e), c, a)
    ensures Kept(w, c) || (e.Block? && ArrivesIn(cfg, e.transactions, |e.transactions|, c))
  {
    match e
    case Request(amount, fee, recipient, coins) => RequestKeepsCoins(cfg, w, amount, fee, recipient, coins, c, a);
    case Block(bts) => BlockBrings(cfg, w, bts, c, a);
    case Fork(txis, bts) => RevertBrings(cfg, w, txis, bts, |bts|, c, a);
  }

  /** Over every run from an empty wallet, every coin in any of the pools is locked to the wallet's
      key and is the output its locator names. */
  lemma {:induction false} AllCoinsAreOwn(cfg: Config, es: seq<Event>, ws: seq<Wallet>, k: nat, c: CoinInfo, a: Home)
    requires Runs(cfg, es, ws) && ws[0] == EMPTY && k <= |es| && At(ws[k], c, a)
    ensures LockedTo(cfg.id, c.output) && Names(c.locator, c.output)
  {
    if k > 0 {
      EmptyInv(cfg);
      RunKeepsInv(cfg, es, ws, k - 1);
      NothingFromNowhere(cfg, ws[k - 1], es[k - 1], c, a);
      if Kept(ws[k - 1], c) {
        var b :| At(ws[k - 1], c, b);
        AllCoinsAreOwn(cfg, es, ws, k - 1, c, b);
      }
    }
  }

  // ---- Where events take a coin ----

  /** A spendable coin stays until a request that succeeds picks it; it then waits under the hash of
      the requested transaction. */
  lemma CollectedStep(cfg: Config, w: Wallet, e: Event, c: CoinInfo)
    requires Inv(cfg, w) && Enabled(cfg, w, e) && c in w.collection
    ensures var v := Next(cfg, w, e);
      if e.Request? && c in e.coins && w.balance >= Wrap(e.amount + e.fee) then
        var h := RequestedTransaction(cfg.id, e.amount, e.fee, e.recipient, e.coins).Hash();
        c !in v.collection && h in v.unseen && c in v.unseen[h]
      else c in v.collection
  {
    match e
    case Request(_, _, _, coins) => SetOfHolds(coins, c);
    case Block(bts) =>
      var u := HandleTransactions(cfg, w, bts, |bts|);
      TransactionsKeepInv(cfg, w, bts, |bts|);
      HandlingKeepsCollection(cfg, w, bts, |bts|);
      PoolsAreDisjoint(u);
    case Fork(txis, bts) => RevertingKeepsCollection(cfg, w, txis, bts, |bts|);
  }

  lemma {:induction false} HandlingKeepsCollection(cfg: Config, w: Wallet, bts: seq<BlockTransaction>, n: nat)
    requires AllValid(bts) && n <= |bts|
    ensures HandleTransactions(cfg, w, bts, n).collection == w.collection
  {
    if n > 0 { HandlingKeepsCollection(cfg, w, bts, n - 1); }
  }

  /** One of the first `n` transactions has the hash. */
  ghost predicate Includes(bts: seq<BlockTransaction>, n: nat, h: Hash)
    requires n <= |bts|
  {
    exists t :: 0 <= t < n && bts[t].tx.Hash() == h
  }

  /** A waiting coin is not spent and waits under one hash. */
  ghost predicate Apart(w: Wallet, c: CoinInfo) {
    && (forall g :: g in w.unseen && c in w.unseen[g] ==> c !in w.spent)
    && (forall g, h :: g in w.unseen && h in w.unseen && c in w.unseen[g] && c in w.unseen[h] ==> g == h)
  }

  /** The same all through a block. */
  ghost predicate StaysApart(cfg: Config, w: Wallet, bts: seq<BlockTransaction>, c: CoinInfo)
    requires AllValid(bts)
  {
    forall n: nat :: n <= |bts| ==> Apart(HandleTransactions(cfg, w, bts, n), c)
  }

  lemma HandledApart(cfg: Config, w: Wallet, bts: seq<BlockTransaction>, c: CoinInfo)
    requires Inv(cfg, w) && Deliverable(cfg, w, bts)
    ensures StaysApart(cfg, w, bts, c)
  {
    forall n: nat | n <= |bts| ensures Apart(HandleTransactions(cfg, w, bts, n), c) {
      TransactionsKeepInv(cfg, w, bts, n);
      PoolsAreDisjoint(HandleTransactions(cfg, w, bts, n));
    }
  }

  lemma UnseenMoves(cfg: Config, w: Wallet, bt: BlockTransaction, h: Hash, c: CoinInfo)
    requires bt.Valid() && Apart(w, c) && h in w.unseen && c in w.unseen[h]
    ensures var v := HandleTransaction(cfg, w, bt);
      if bt.tx.Hash() == h then c in v.spent && v.spent[c] == 0
      else c !in v.spent && h in v.unseen && v.unseen[h] == w.unseen[h]
  {
    TransactionMoves(cfg, w, bt, c);
  }

  lemma SpentStays(cfg: Config, w: Wallet, bt: BlockTransaction, c: CoinInfo)
    requires bt.Valid() && Apart(w, c) && c in w.spent
    ensures var v := HandleTransaction(cfg, w, bt); c in v.spent && v.spent[c] == w.spent[c]
  {
    TransactionMoves(cfg, w, bt, c);
  }

  lemma {:induction false} HandlingUnseen(cfg: Config, w: Wallet, bts: seq<BlockTransaction>, n: nat, h: Hash,
                                          c: CoinInfo)
    requires AllValid(bts) && StaysApart(cfg, w, bts, c) && n <= |bts| && h in w.unseen && c in w.unseen[h]
    ensures var v := HandleTransactions(cfg, w, bts, n);
      if Includes(bts, n, h) then c in v.spent && v.spent[c] == 0
      else c !in v.spent && h in v.unseen && v.unseen[h] == w.unseen[h]
  {
    assert Apart(HandleTransactions(cfg, w, bts, 0), c);
    if n > 0 {
      HandlingUnseen(cfg, w, bts, n - 1, h, c);
      assert Apart(HandleTransactions(cfg, w, bts, n - 1), c);
      if Includes(bts, n - 1, h) {
        SpentStays(cfg, HandleTransactions(cfg, w, bts, n - 1), bts[n - 1], c);
      } else {
        UnseenMoves(cfg, HandleTransactions(cfg, w, bts, n - 1), bts[n - 1], h, c);
      }
    }
  }

  /** A coin that waits under the hash of a transaction stays there until a block includes the
      transaction; it then counts that block as its first. */
  lemma UnseenStep(cfg: Config, w: Wallet, e: Event, h: Hash, c: CoinInfo)
    requires Inv(cfg, w) && Enabled(cfg, w, e) && h in w.unseen && c in w.unseen[h]
    requires e.Fork? ==> !Includes(e.reverted, |e.reverted|, h)
    ensures var v := Next(cfg, w, e);
      if e.Block? && Includes(e.transactions, |e.transactions|, h) then
        if cfg.safeBlockAmount == 0 then c !in v.spent else c in v.spent && v.spent[c] == 1
      else h in v.unseen && v.unseen[h] == w.unseen[h]
  {
    match e
    case Request(amount, fee, recipient, coins) => RequestIsNew(cfg, w, amount, fee, recipient, coins);
    case Block(bts) =>
      HandledApart(cfg, w, bts, c);
      HandlingUnseen(cfg, w, bts, |bts|, h, c);
    case Fork(txis, bts) => RevertingUnseen(cfg, w, txis, bts, |bts|, h);
  }

  lemma {:induction false} RevertingUnseen(cfg: Config, w: Wallet, txis: map<CoinLocator, CoinInfo>,
                                           bts: seq<BlockTransaction>, n: nat, h: Hash)
    requires Inv(cfg, w) && Pending(w, txis, {}) && DistinctInputs(bts) && n <= |bts|
    requires h in w.unseen && !Includes(bts, n, h)
    ensures var v := RevertTransactions(cfg, w, txis, bts, n); h in v.unseen && v.unseen[h] == w.unseen[h]
  {
    if n > 0 {
      RevertingUnseen(cfg, w, txis, bts, n - 1, h);
      assert bts[n - 1].tx.Hash() != h;
      RevertOneMore(cfg, w, txis, bts, n, h);
    }
  }

  lemma RevertOneMore(cfg: Config, w: Wallet, txis: map<CoinLocator, CoinInfo>, bts: seq<BlockTransaction>, n: nat,
                      h: Hash)
    requires Inv(cfg, w) && Pending(w, txis, {}) && DistinctInputs(bts) && 0 < n <= |bts| && bts[n - 1].tx.Hash() != h
    requires h in RevertTransactions(cfg, w, txis, bts, n - 1).unseen
    ensures var u, v := RevertTransactions(cfg, w, txis, bts, n - 1), RevertTransactions(cfg, w, txis, bts, n);
      h in v.unseen && v.unseen[h] == u.unseen[h]
  {
    ForkKeepsInv(cfg, w, txis, bts, n - 1);
    assert NewInputsAt(bts, n - 1);
    RevertOneUnseen(cfg, RevertTransactions(cfg, w, txis, bts, n - 1), txis, bts[n - 1], InputsUpTo(bts, n - 1), h);
  }

  lemma RevertOneUnseen(cfg: Config, w: Wallet, txis: map<CoinLocator, CoinInfo>, bt: BlockTransaction,
                        done: set<CoinLocator>, h: Hash)
    requires bt.Valid() && Pending(w, txis, done) && NewInputs(bt.tx, done) && bt.tx.Hash() != h && h in w.unseen
    ensures var v := RevertTransaction(cfg, w, txis, bt); h in v.unseen && v.unseen[h] == w.unseen[h]
  {
    var (v, cis) := RevertInputs(cfg, w, txis, bt.tx, |bt.tx.inputs|);
    RevertInputsFacts(cfg, w, txis, bt.tx, |bt.tx.inputs|, done);
    OutputsTouchReceived(cfg, if cis == [] then v else v.(unseen := v.unseen[bt.tx.Hash() := cis]), bt,
                         |bt.tx.outputs|);
  }

  lemma {:induction false} OutputsTouchReceived(cfg: Config, w: Wallet, bt: BlockTransaction, n: nat)
    requires bt.Valid() && n <= |bt.tx.outputs|
    ensures var v := RevertOutputs(cfg, w, bt, n); v == w.(received := v.received)
  {
    if n > 0 { OutputsTouchReceived(cfg, w, bt, n - 1); }
  }

  /** The transaction spends the coin. */
  ghost predicate SpendsCoin(tx: Transaction, n: nat, c: CoinInfo)
    requires n <= |tx.inputs|
  {
    exists i :: 0 <= i < n && LocatorOf(tx.inputs[i]) == c.locator
  }

  /** Reverting inputs takes back exactly the coins they spend whose counters are short. */
  lemma {:induction false} RevertingInputs(cfg: Config, w: Wallet, txis: map<CoinLocator, CoinInfo>, tx: Transaction,
                                           n: nat, c: CoinInfo)
    requires n <= |tx.inputs| && NewInputs(tx, {}) && c in w.spent && c.locator in txis && txis[c.locator] == c
    requires forall cl :: cl in txis ==> txis[cl].locator == cl
    ensures var (v, cis) := RevertInputs(cfg, w, txis, tx, n);
      if SpendsCoin(tx, n, c) && w.spent[c] < cfg.safeBlockAmount then c !in v.spent && c in cis
      else c in v.spent && v.spent[c] == w.spent[c] && c !in cis
  {
    if n > 0 {
      RevertingInputs(cfg, w, txis, tx, n - 1, c);
      assert SpendsCoin(tx, n, c) <==> SpendsCoin(tx, n - 1, c) || LocatorOf(tx.inputs[n - 1]) == c.locator;
    }
  }

  lemma RevertingSpent(cfg: Config, w: Wallet, txis: map<CoinLocator, CoinInfo>, bt: BlockTransaction, c: CoinInfo)
    requires bt.Valid() && NewInputs(bt.tx, {}) && c in w.spent && c.locator in txis && txis[c.locator] == c
    requires forall cl :: cl in txis ==> txis[cl].locator == cl
    ensures var v, h := RevertTransaction(cfg, w, txis, bt), bt.tx.Hash();
      if SpendsCoin(bt.tx, |bt.tx.inputs|, c) && w.spent[c] < cfg.safeBlockAmount
      then c !in v.spent && h in v.unseen && c in v.unseen[h]
      else c in v.spent && v.spent[c] == w.spent[c]
  {
    var (v, cis) := RevertInputs(cfg, w, txis, bt.tx, |bt.tx.inputs|);
    RevertingInputs(cfg, w, txis, bt.tx, |bt.tx.inputs|, c);
    OutputsTouchReceived(cfg, if cis == [] then v else v.(unseen := v.unseen[bt.tx.Hash() := cis]), bt,
                         |bt.tx.outputs|);
  }

  /** The coin waits under the hash of one of the first `n` transactions, which spends it. */
  ghost predicate TakenBack(w: Wallet, bts: seq<BlockTransaction>, n: nat, c: CoinInfo)
    requires n <= |bts|
  {
    c !in w.spent &&
    exists t :: 0 <= t < n && SpendsCoin(bts[t].tx, |bts[t].tx.inputs|, c)
                && bts[t].tx.Hash() in w.unseen && c in w.unseen[bts[t].tx.Hash()]
  }

  ghost predicate RevertsCoin(bts: seq<BlockTransaction>, n: nat, c: CoinInfo)
    requires n <= |bts|
  {
    exists t :: 0 <= t < n && SpendsCoin(bts[t].tx, |bts[t].tx.inputs|, c)
  }

  lemma RevertedOnce(bts: seq<BlockTransaction>, n: nat, c: CoinInfo)
    requires n < |bts| && DistinctInputs(bts) && RevertsCoin(bts, n, c)
    ensures !SpendsCoin(bts[n].tx, |bts[n].tx.inputs|, c) && NewInputs(bts[n].tx, InputsUpTo(bts, n))
  {
    var t :| 0 <= t < n && SpendsCoin(bts[t].tx, |bts[t].tx.inputs|, c);
    var i :| 0 <= i < |bts[t].tx.inputs| && LocatorOf(bts[t].tx.inputs[i]) == c.locator;
    InputIsDone(bts, t, i, n);
    assert NewInputsAt(bts, n);
  }

  lemma {:induction false} InputIsDone(bts: seq<BlockTransaction>, t: nat, i: nat, n: nat)
    requires t < n <= |bts| && i < |bts[t].tx.inputs|
    ensures LocatorOf(bts[t].tx.inputs[i]) in InputsUpTo(bts, n)
  {
    if t < n - 1 { InputIsDone(bts, t, i, n - 1); }
  }

  lemma LaterRevertKeeps(cfg: Config, w: Wallet, txis: map<CoinLocator, CoinInfo>, bts: seq<BlockTransaction>, n: nat,
                         c: CoinInfo)
    requires n < |bts| && DistinctInputs(bts) && Pending(w, txis, InputsUpTo(bts, n)) && TakenBack(w, bts, n, c)
    ensures TakenBack(RevertTransaction(cfg, w, txis, bts[n]), bts, n + 1, c)
  {
    RevertedOnce(bts, n, c);
    var t :| 0 <= t < n && SpendsCoin(bts[t].tx, |bts[t].tx.inputs|, c)
             && bts[t].tx.Hash() in w.unseen && c in w.unseen[bts[t].tx.Hash()];
    var h := bts[t].tx.Hash();
    assert bts[n].tx.Hash() != h;
    RevertOneUnseen(cfg, w, txis, bts[n], InputsUpTo(bts, n), h);
    RevertAddsNoSpent(cfg, w, txis, bts[n], InputsUpTo(bts, n));
  }

  lemma RevertAddsNoSpent(cfg: Config, w: Wallet, txis: map<CoinLocator, CoinInfo>, bt: BlockTransaction,
                          done: set<CoinLocator>)
    requires bt.Valid() && Pending(w, txis, done) && NewInputs(bt.tx, done)
    ensures RevertTransaction(cfg, w, txis, bt).spent.Keys <= w.spent.Keys
  {
    var (v, cis) := RevertInputs(cfg, w, txis, bt.tx, |bt.tx.inputs|);
    RevertInputsFacts(cfg, w, txis, bt.tx, |bt.tx.inputs|, done);
    OutputsTouchReceived(cfg, if cis == [] then v else v.(unseen := v.unseen[bt.tx.Hash() := cis]), bt,
                         |bt.tx.outputs|);
  }

  lemma RevertsOneMore(bts: seq<BlockTransaction>, n: nat, c: CoinInfo)
    requires 0 < n <= |bts|
    ensures RevertsCoin(bts, n, c) <==>
      RevertsCoin(bts, n - 1, c) || SpendsCoin(bts[n - 1].tx, |bts[n - 1].tx.inputs|, c)
  {
  }

  lemma StaysPending(cfg: Config, w: Wallet, txis: map<CoinLocator, CoinInfo>, bts: seq<BlockTransaction>, n: nat)
    requires Inv(cfg, w) && Pending(w, txis, {}) && DistinctInputs(bts) && n <= |bts|
    ensures Pending(RevertTransactions(cfg, w, txis, bts, n), txis, InputsUpTo(bts, n))
  {
    ForkKeepsInv(cfg, w, txis, bts, n);
  }

  lemma StaysTakenBack(cfg: Config, w: Wallet, txis: map<CoinLocator, CoinInfo>, bts: seq<BlockTransaction>, n: nat,
                       c: CoinInfo)
    requires Inv(cfg, w) && Pending(w, txis, {}) && DistinctInputs(bts) && 0 < n <= |bts|
    requires TakenBack(RevertTransactions(cfg, w, txis, bts, n - 1), bts, n - 1, c)
    ensures TakenBack(RevertTransactions(cfg, w, txis, bts, n), bts, n, c)
  {
    StaysPending(cfg, w, txis, bts, n - 1);
    LaterRevertKeeps(cfg, RevertTransactions(cfg, w, txis, bts, n - 1), txis, bts, n - 1, c);
  }

  lemma {:induction false} ForkTakesBack(cfg: Config, w: Wallet, txis: map<CoinLocator, CoinInfo>,
                                         bts: seq<BlockTransaction>, n: nat, c: CoinInfo)
    requires Inv(cfg, w) && Pending(w, txis, {}) && DistinctInputs(bts) && n <= |bts|
    requires c in w.spent && c.locator in txis && txis[c.locator] == c
    ensures var v := RevertTransactions(cfg, w, txis, bts, n);
      if RevertsCoin(bts, n, c) && w.spent[c] < cfg.safeBlockAmount then TakenBack(v, bts, n, c)
      else c in v.spent && v.spent[c] == w.spent[c]
  {
    if n > 0 {
      ForkTakesBack(cfg, w, txis, bts, n - 1, c);
      RevertsOneMore(bts, n, c);
      if RevertsCoin(bts, n - 1, c) && w.spent[c] < cfg.safeBlockAmount {
        StaysTakenBack(cfg, w, txis, bts, n, c);
      } else {
        assert NewInputsAt(bts, n - 1);
        RevertingSpent(cfg, RevertTransactions(cfg, w, txis, bts, n - 1), txis, bts[n - 1], c);
      }
    }
  }

  lemma {:induction false} HandlingKeepsSpent(cfg: Config, w: Wallet, bts: seq<BlockTransaction>, n: nat, c: CoinInfo)
    requires AllValid(bts) && StaysApart(cfg, w, bts, c) && n <= |bts| && c in w.spent
    ensures var v := HandleTransactions(cfg, w, bts, n); c in v.spent && v.spent[c] == w.spent[c]
  {
    if n > 0 {
      HandlingKeepsSpent(cfg, w, bts, n - 1, c);
      SpentStays(cfg, HandleTransactions(cfg, w, bts, n - 1), bts[n - 1], c);
    }
  }

  /** A spent coin counts one per block and is forgotten at the block after its counter is full; a
      fork that reverts its spending before that makes it wait under that transaction's hash. */
  lemma SpentStep(cfg: Config, w: Wallet, e: Event, c: CoinInfo)
    requires Inv(cfg, w) && Enabled(cfg, w, e) && c in w.spent
    ensures var v := Next(cfg, w, e);
      if e.Fork? && RevertsCoin(e.reverted, |e.reverted|, c) && w.spent[c] < cfg.safeBlockAmount
      then TakenBack(v, e.reverted, |e.reverted|, c)
      else if !e.Block? then c in v.spent && v.spent[c] == w.spent[c]
      else if w.spent[c] == cfg.safeBlockAmount then c !in v.spent && c !in v.collection
      else c in v.spent && v.spent[c] == w.spent[c] + 1
  {
    match e
    case Request(_, _, _, _) =>
    case Block(bts) =>
      HandledApart(cfg, w, bts, c);
      HandlingKeepsSpent(cfg, w, bts, |bts|, c);
      TransactionsKeepInv(cfg, w, bts, |bts|);
      PoolsAreDisjoint(HandleTransactions(cfg, w, bts, |bts|));
    case Fork(txis, bts) =>
      HomesAgree(w, c, Home.Spent, txis[c.locator], Home.Spent);
      ForkTakesBack(cfg, w, txis, bts, |bts|, c);
  }

  /** A fork takes the spent coin back. */
  ghost predicate Returns(cfg: Config, w: Wallet, e: Event, c: CoinInfo) {
    e.Fork? && c in w.spent && w.spent[c] < cfg.safeBlockAmount && RevertsCoin(e.reverted, |e.reverted|, c)
  }

  /** Unless a fork takes it back, a spent coin counts the blocks of the run and is forgotten exactly
      at the one after its counter has reached the safe amount. */
  lemma {:induction false} SpentCounts(cfg: Config, es: seq<Event>, ws: seq<Wallet>, k: nat, c: CoinInfo)
    requires Runs(cfg, es, ws) && k <= |es| && Inv(cfg, ws[0]) && c in ws[0].spent
    requires forall i :: 0 <= i < |es| ==> !Returns(cfg, ws[i], es[i], c)
    ensures ws[0].spent[c] + Blocks(es[..k]) <= cfg.safeBlockAmount ==>
      c in ws[k].spent && ws[k].spent[c] == ws[0].spent[c] + Blocks(es[..k])
    ensures k > 0 && es[k - 1].Block? && ws[0].spent[c] + Blocks(es[..k]) == cfg.safeBlockAmount + 1 ==>
      c !in ws[k].spent && c !in ws[k].collection
  {
    if k > 0 {
      RunKeepsInv(cfg, es, ws, k - 1);
      SpentCounts(cfg, es, ws, k - 1, c);
      assert es[..k][..k - 1] == es[..k - 1];
      if ws[0].spent[c] + Blocks(es[..k - 1]) <= cfg.safeBlockAmount { SpentStep(cfg, ws[k - 1], es[k - 1], c); }
    }
  }
}
