/** The four coin pools of a wallet stay apart, the balance is the value of the spendable coins,
    and a received coin becomes spendable exactly on time, over every run. */
module WalletPools {
  import opened Ledger
  import opened WalletState

  /** Where a coin is kept. */
  datatype Home = Collection | Spent | Received | UnseenUnder(hash: Hash)

  predicate At(w: Wallet, c: CoinInfo, a: Home) {
    match a
    case Collection => c in w.collection
    case Spent => c in w.spent
    case Received => c in w.received
    case UnseenUnder(h) => h in w.unseen && c in w.unseen[h]
  }

  /** No output is kept twice: neither as two coins nor in two places. */
  ghost predicate OneHome(w: Wallet) {
    forall c, d, a, b {:trigger At(w, c, a), At(w, d, b)} ::
      At(w, c, a) && At(w, d, b) && c.locator == d.locator ==> c == d && a == b
  }

  predicate Spends(h: Hash, cl: CoinLocator) {
    h.OfTransaction? && exists i :: 0 <= i < |h.inputs| && LocatorOf(h.inputs[i]) == cl
  }

  ghost predicate UnseenSpend(w: Wallet) {
    forall h, c :: h in w.unseen && c in w.unseen[h] ==> Spends(h, c.locator)
  }

  ghost predicate Counters(cfg: Config, w: Wallet) {
    && (forall c :: c in w.spent ==> w.spent[c] <= cfg.safeBlockAmount)
    && (forall c :: c in w.received ==> w.received[c] <= cfg.safeBlockAmount)
  }

  ghost predicate Inv(cfg: Config, w: Wallet) {
    && OneHome(w) && UnseenSpend(w) && Counters(cfg, w)
    && (forall h :: h in w.unseen ==> w.unseen[h] != [])
    && w.balance == Wrap(CoinSum(w.collection))
  }

  lemma HomesAgree(w: Wallet, c: CoinInfo, a: Home, d: CoinInfo, b: Home)
    requires OneHome(w) && At(w, c, a) && At(w, d, b) && c.locator == d.locator
    ensures c == d && a == b
  {
  }

  /** What the invariant means for the pools themselves. */
  lemma PoolsAreDisjoint(w: Wallet)
    requires OneHome(w)
    ensures w.collection !! w.spent.Keys && w.collection !! w.received.Keys && w.spent.Keys !! w.received.Keys
    ensures forall h, c :: h in w.unseen && c in w.unseen[h] ==> c !in w.collection && c !in w.spent && c !in w.received
    ensures forall h, g, c :: h in w.unseen && g in w.unseen && c in w.unseen[h] && c in w.unseen[g] ==> h == g
  {
    forall c ensures !(c in w.collection && c in w.spent) && !(c in w.collection && c in w.received)
                  && !(c in w.spent && c in w.received)
    {
      if c in w.collection && c in w.spent { HomesAgree(w, c, Collection, c, Spent); }
      if c in w.collection && c in w.received { HomesAgree(w, c, Collection, c, Received); }
      if c in w.spent && c in w.received { HomesAgree(w, c, Spent, c, Received); }
    }
    forall h, c | h in w.unseen && c in w.unseen[h] ensures c !in w.collection && c !in w.spent && c !in w.received {
      assert At(w, c, UnseenUnder(h));
      if c in w.collection { HomesAgree(w, c, Collection, c, UnseenUnder(h)); }
      if c in w.spent { HomesAgree(w, c, Spent, c, UnseenUnder(h)); }
      if c in w.received { HomesAgree(w, c, Received, c, UnseenUnder(h)); }
    }
    forall h, g, c | h in w.unseen && g in w.unseen && c in w.unseen[h] && c in w.unseen[g] ensures h == g {
      HomesAgree(w, c, UnseenUnder(h), c, UnseenUnder(g));
    }
  }

  lemma EmptyInv(cfg: Config)
    ensures Inv(cfg, EMPTY)
  {
  }

  // ---- Requests ----

  lemma PickedInput(cfg: Config, amount: uint32, fee: uint32, recipient: PublicKey, coins: seq<CoinInfo>,
                    cl: CoinLocator)
    ensures var h := RequestedTransaction(cfg.id, amount, fee, recipient, coins).Hash();
      Spends(h, cl) <==> exists i :: 0 <= i < |coins| && coins[i].locator == cl
  {
    var h := RequestedTransaction(cfg.id, amount, fee, recipient, coins).Hash();
    assert forall i :: 0 <= i < |coins| ==> LocatorOf(h.inputs[i]) == coins[i].locator;
  }

  lemma RequestIsNew(cfg: Config, w: Wallet, amount: uint32, fee: uint32, recipient: PublicKey, coins: seq<CoinInfo>)
    requires Inv(cfg, w) && Picked(w, coins)
    ensures RequestedTransaction(cfg.id, amount, fee, recipient, coins).Hash() !in w.unseen
  {
    var h := RequestedTransaction(cfg.id, amount, fee, recipient, coins).Hash();
    if h in w.unseen {
      var c := w.unseen[h][0];
      PickedInput(cfg, amount, fee, recipient, coins, c.locator);
      var i :| 0 <= i < |coins| && coins[i].locator == c.locator;
      PickedIsCollected(w, coins, i);
      HomesAgree(w, c, UnseenUnder(h), coins[i], Collection);
    }
  }

  lemma PickedIsCollected(w: Wallet, coins: seq<CoinInfo>, i: nat)
    requires Picked(w, coins) && i < |coins|
    ensures At(w, coins[i], Collection)
  {
    assert coins[i] in SetOf(coins);
  }

  lemma RequestBalance(w: Wallet, coins: seq<CoinInfo>, target: uint32)
    requires Picked(w, coins) && w.balance == Wrap(CoinSum(w.collection))
    ensures Wrap(w.balance - Wrap(target + Change(coins, target))) == Wrap(CoinSum(w.collection - SetOf(coins)))
  {
    CoinSumUnion(w.collection - SetOf(coins), SetOf(coins));
    assert (w.collection - SetOf(coins)) + SetOf(coins) == w.collection;
    AmountsAreSum(coins);
    RestOfBalance(CoinSum(w.collection), Amounts(coins), target);
  }

  lemma RestOfBalance(sum: int, part: int, target: int)
    ensures Wrap(Wrap(sum) - Wrap(target + Wrap(part - target))) == Wrap(sum - part)
  {
    WrapAdds(part - target, target);
    WrapTakes(sum, part);
  }

  /** A wallet after moving picked coins under the hash of their transaction. */
  ghost predicate MovesToUnseen(w: Wallet, v: Wallet, h: Hash, coins: seq<CoinInfo>) {
    && Picked(w, coins) && h !in w.unseen
    && v.unseen == w.unseen[h := coins] && v.collection == w.collection - SetOf(coins)
    && v.spent == w.spent && v.received == w.received
  }

  lemma UnseenHome(w: Wallet, v: Wallet, h: Hash, coins: seq<CoinInfo>, c: CoinInfo, a: Home)
    requires MovesToUnseen(w, v, h, coins) && At(v, c, a)
    ensures At(w, c, if a == UnseenUnder(h) then Collection else a)
    ensures a == UnseenUnder(h) <==>
      c in SetOf(coins) && a != Spent && a != Received && !(a.UnseenUnder? && a != UnseenUnder(h))
  {
    if a == UnseenUnder(h) {
      var i :| 0 <= i < |coins| && coins[i] == c;
    }
  }

  lemma MovesKeepOneHome(w: Wallet, v: Wallet, h: Hash, coins: seq<CoinInfo>)
    requires OneHome(w) && MovesToUnseen(w, v, h, coins)
    ensures OneHome(v)
  {
    forall c, d, a, b | At(v, c, a) && At(v, d, b) && c.locator == d.locator ensures c == d && a == b {
      UnseenHome(w, v, h, coins, c, a);
      UnseenHome(w, v, h, coins, d, b);
    }
  }

  lemma RequestKeepsInv(cfg: Config, w: Wallet, amount: uint32, fee: uint32, recipient: PublicKey, coins: seq<CoinInfo>)
    requires Inv(cfg, w) && Picked(w, coins)
    ensures Inv(cfg, Requested(cfg, w, amount, fee, recipient, coins))
  {
    var v := Requested(cfg, w, amount, fee, recipient, coins);
    if v != w {
      var h := RequestedTransaction(cfg.id, amount, fee, recipient, coins).Hash();
      RequestIsNew(cfg, w, amount, fee, recipient, coins);
      RequestBalance(w, coins, Wrap(amount + fee));
      MovesKeepOneHome(w, v, h, coins);
      forall g, c | g in v.unseen && c in v.unseen[g] ensures Spends(g, c.locator) {
        if g == h { PickedInput(cfg, amount, fee, recipient, coins, c.locator); }
      }
    }
  }

  // ---- Blocks ----

  /** The output is locked with the public key of `id`. */
  predicate LockedTo(id: SecretKey, output: TransactionOutput) {
    output.lockingScript.Script? && output.lockingScript.publicKey == Pub(id)
  }

  /** The locator names an output of the transaction that pays the wallet. */
  predicate Delivers(cfg: Config, bt: BlockTransaction, cl: CoinLocator) {
    && cl.referenceTransactionHash == bt.tx.Hash() && cl.outputIndex < |bt.tx.outputs|
    && LockedTo(cfg.id, bt.tx.outputs[cl.outputIndex])
  }

  /** The outputs of the transaction that pay the wallet are not kept yet. */
  ghost predicate Fresh(cfg: Config, w: Wallet, bt: BlockTransaction)
    requires bt.Valid()
  {
    forall c, a {:trigger At(w, c, a)} :: At(w, c, a) ==> !Delivers(cfg, bt, c.locator)
  }

  lemma SeenHome(w: Wallet, h: Hash, c: CoinInfo, a: Home)
    requires At(SeenCoins(w, h), c, a)
    ensures if a == Spent && h in w.unseen && c in w.unseen[h] then At(w, c, UnseenUnder(h)) else At(w, c, a)
    ensures h in w.unseen ==> a != UnseenUnder(h)
  {
    if h in w.unseen && a == Spent && c in SetOf(w.unseen[h]) {
      var i :| 0 <= i < |w.unseen[h]| && w.unseen[h][i] == c;
    }
  }

  lemma SeenKeepsInv(cfg: Config, w: Wallet, h: Hash)
    requires Inv(cfg, w)
    ensures Inv(cfg, SeenCoins(w, h))
  {
    var v := SeenCoins(w, h);
    forall c, d, a, b | At(v, c, a) && At(v, d, b) && c.locator == d.locator ensures c == d && a == b {
      SeenHome(w, h, c, a);
      SeenHome(w, h, d, b);
      if h in w.unseen && c in w.unseen[h] { assert At(w, c, UnseenUnder(h)); }
      if h in w.unseen && d in w.unseen[h] { assert At(w, d, UnseenUnder(h)); }
    }
  }

  lemma SeenStaysFresh(cfg: Config, w: Wallet, h: Hash, bt: BlockTransaction)
    requires bt.Valid() && Fresh(cfg, w, bt)
    ensures Fresh(cfg, SeenCoins(w, h), bt)
  {
    var v := SeenCoins(w, h);
    forall c, a | At(v, c, a) ensures !Delivers(cfg, bt, c.locator) { SeenHome(w, h, c, a); }
  }

  lemma ReceiveKeepsInv(cfg: Config, w: Wallet, bt: BlockTransaction)
    requires Inv(cfg, w) && bt.Valid() && Fresh(cfg, w, bt)
    ensures Inv(cfg, ReceiveCoins(w, CoinsOf(cfg, bt, |bt.tx.outputs|)))
  {
    var coins := CoinsOf(cfg, bt, |bt.tx.outputs|);
    var v := ReceiveCoins(w, coins);
    forall c, d, a, b | At(v, c, a) && At(v, d, b) && c.locator == d.locator ensures c == d && a == b {
      if c !in coins { assert At(w, c, a); }
      if d !in coins { assert At(w, d, b); }
      if c in coins && a != Received { assert At(w, c, a); }
      if d in coins && b != Received { assert At(w, d, b); }
    }
  }

  lemma TransactionKeepsInv(cfg: Config, w: Wallet, bt: BlockTransaction)
    requires Inv(cfg, w) && bt.Valid() && Fresh(cfg, w, bt)
    ensures Inv(cfg, HandleTransaction(cfg, w, bt))
  {
    SeenKeepsInv(cfg, w, bt.tx.Hash());
    SeenStaysFresh(cfg, w, bt.tx.Hash(), bt);
    ReceiveKeepsInv(cfg, SeenCoins(w, bt.tx.Hash()), bt);
  }

  /** Every transaction of the block delivers outputs that are not kept when it is handled. */
  ghost predicate Deliverable(cfg: Config, w: Wallet, bts: seq<BlockTransaction>) {
    && AllValid(bts)
    && (forall i {:trigger FreshAt(cfg, w, bts, i)} :: 0 <= i < |bts| ==> FreshAt(cfg, w, bts, i))
  }

  ghost predicate FreshAt(cfg: Config, w: Wallet, bts: seq<BlockTransaction>, i: nat)
    requires i < |bts| && AllValid(bts)
  {
    Fresh(cfg, HandleTransactions(cfg, w, bts, i), bts[i])
  }

  predicate AllValid(bts: seq<BlockTransaction>) {
    forall i :: 0 <= i < |bts| ==> bts[i].Valid()
  }

  lemma {:induction false} TransactionsKeepInv(cfg: Config, w: Wallet, bts: seq<BlockTransaction>, n: nat)
    requires Inv(cfg, w) && Deliverable(cfg, w, bts) && n <= |bts|
    ensures Inv(cfg, HandleTransactions(cfg, w, bts, n))
  {
    if n > 0 {
      TransactionsKeepInv(cfg, w, bts, n - 1);
      assert FreshAt(cfg, w, bts, n - 1);
      TransactionKeepsInv(cfg, HandleTransactions(cfg, w, bts, n - 1), bts[n - 1]);
    }
  }

  lemma ConfirmedHome(cfg: Config, w: Wallet, c: CoinInfo, a: Home)
    requires At(Confirmed(cfg, w), c, a)
    ensures if a == Collection && c in Ripe(cfg, w.received) then At(w, c, Received) else At(w, c, a)
    ensures a == Received ==> c !in Ripe(cfg, w.received)
  {
  }

  lemma ConfirmedKeepsInv(cfg: Config, w: Wallet)
    requires Inv(cfg, w)
    ensures Inv(cfg, Confirmed(cfg, w))
  {
    var v := Confirmed(cfg, w);
    forall c, d, a, b | At(v, c, a) && At(v, d, b) && c.locator == d.locator ensures c == d && a == b {
      ConfirmedHome(cfg, w, c, a);
      ConfirmedHome(cfg, w, d, b);
      if c in Ripe(cfg, w.received) { assert At(w, c, Received); }
    }
    PoolsAreDisjoint(w);
    assert w.collection - Ripe(cfg, w.spent) == w.collection;
    CoinSumUnion(w.collection, Ripe(cfg, w.received));
    WrapAdds(CoinSum(w.collection), CoinSum(Ripe(cfg, w.received)));
  }

  lemma BlockKeepsInv(cfg: Config, w: Wallet, bts: seq<BlockTransaction>)
    requires Inv(cfg, w) && Deliverable(cfg, w, bts)
    ensures Inv(cfg, HandledBlock(cfg, w, bts))
  {
    TransactionsKeepInv(cfg, w, bts, |bts|);
    ConfirmedKeepsInv(cfg, HandleTransactions(cfg, w, bts, |bts|));
  }

  // ---- Forks ----

  /** No input repeats one of `done` or another input of the transaction. */
  ghost predicate NewInputs(tx: Transaction, done: set<CoinLocator>) {
    && (forall i :: 0 <= i < |tx.inputs| ==> LocatorOf(tx.inputs[i]) !in done)
    && (forall i, j :: 0 <= i < j < |tx.inputs| ==> LocatorOf(tx.inputs[i]) != LocatorOf(tx.inputs[j]))
  }

  /** Indexed coins whose locators are not done are still among the spent coins. */
  ghost predicate Pending(w: Wallet, txis: map<CoinLocator, CoinInfo>, done: set<CoinLocator>) {
    forall cl :: cl in txis ==> txis[cl].locator == cl && (cl !in done ==> txis[cl] in w.spent)
  }

  lemma {:induction false} RevertInputsFacts(cfg: Config, w: Wallet, txis: map<CoinLocator, CoinInfo>, tx: Transaction,
                                             n: nat, done: set<CoinLocator>)
    requires n <= |tx.inputs| && Pending(w, txis, done) && NewInputs(tx, done)
    ensures var (v, cis) := RevertInputs(cfg, w, txis, tx, n);
      && v == w.(spent := w.spent - SetOf(cis))
      && (forall c :: c in SetOf(cis) ==> c in w.spent && c.locator in SpentBy(tx, n))
      && Pending(v, txis, done + SpentBy(tx, n))
  {
    if n == 0 {
      assert w.spent - SetOf([]) == w.spent;
    } else {
      RevertInputsFacts(cfg, w, txis, tx, n - 1, done);
      var (u, before) := RevertInputs(cfg, w, txis, tx, n - 1);
      var (v, cis) := RevertInputs(cfg, w, txis, tx, n);
      var cl := LocatorOf(tx.inputs[n - 1]);
      assert SpentBy(tx, n) == SpentBy(tx, n - 1) + {cl};
      assert cl !in SpentBy(tx, n - 1);
      if cis != before {
        assert cis == before + [txis[cl]];
        SetOfAppended(before, txis[cl]);
        assert w.spent - SetOf(cis) == w.spent - SetOf(before) - {txis[cl]};
      }
    }
  }

  /** A wallet after moving spent coins back under the hash of a reverted transaction. */
  ghost predicate MovesBack(w: Wallet, v: Wallet, h: Hash, cis: seq<CoinInfo>) {
    && (forall c :: c in SetOf(cis) ==> c in w.spent)
    && v == w.(spent := w.spent - SetOf(cis), unseen := w.unseen[h := cis])
  }

  lemma BackHome(w: Wallet, v: Wallet, h: Hash, cis: seq<CoinInfo>, c: CoinInfo, a: Home)
    requires MovesBack(w, v, h, cis) && At(v, c, a)
    ensures At(w, c, if a == UnseenUnder(h) then Spent else a)
    ensures a == UnseenUnder(h) ==> c in SetOf(cis)
    ensures a == Spent ==> c !in SetOf(cis)
  {
    if a == UnseenUnder(h) {
      var i :| 0 <= i < |cis| && cis[i] == c;
    }
  }

  lemma BackKeepsInv(cfg: Config, w: Wallet, v: Wallet, h: Hash, cis: seq<CoinInfo>)
    requires Inv(cfg, w) && MovesBack(w, v, h, cis) && cis != []
    requires forall c :: c in SetOf(cis) ==> Spends(h, c.locator)
    ensures Inv(cfg, v)
  {
    forall c, d, a, b | At(v, c, a) && At(v, d, b) && c.locator == d.locator ensures c == d && a == b {
      BackHome(w, v, h, cis, c, a);
      BackHome(w, v, h, cis, d, b);
    }
    forall g, c | g in v.unseen && c in v.unseen[g] ensures Spends(g, c.locator) {
      BackHome(w, v, h, cis, c, UnseenUnder(g));
      if g != h { assert c in w.unseen[g]; }
    }
  }

  lemma {:induction false} RevertOutputsKeepsInv(cfg: Config, w: Wallet, bt: BlockTransaction, n: nat)
    requires Inv(cfg, w) && bt.Valid() && n <= |bt.tx.outputs|
    ensures var v := RevertOutputs(cfg, w, bt, n);
      Inv(cfg, v) && v == w.(received := v.received)
  {
    if n > 0 {
      RevertOutputsKeepsInv(cfg, w, bt, n - 1);
      var u := RevertOutputs(cfg, w, bt, n - 1);
      RemoveKeepsInv(cfg, u, bt.pointers[n - 1]);
    }
  }

  lemma RemoveKeepsInv(cfg: Config, w: Wallet, pointer: nat)
    requires Inv(cfg, w)
    ensures Inv(cfg, RemoveUnconfirmed(cfg, w, pointer))
  {
    var v := RemoveUnconfirmed(cfg, w, pointer);
    forall c, a | At(v, c, a) ensures At(w, c, a) {}
    forall c, d, a, b | At(v, c, a) && At(v, d, b) && c.locator == d.locator ensures c == d && a == b {
      assert At(w, c, a) && At(w, d, b);
    }
  }

  lemma RevertKeepsInv(cfg: Config, w: Wallet, txis: map<CoinLocator, CoinInfo>, bt: BlockTransaction,
                       done: set<CoinLocator>)
    requires Inv(cfg, w) && bt.Valid() && Pending(w, txis, done) && NewInputs(bt.tx, done)
    ensures var v := RevertTransaction(cfg, w, txis, bt);
      Inv(cfg, v) && Pending(v, txis, done + SpentBy(bt.tx, |bt.tx.inputs|))
  {
    var n, h := |bt.tx.inputs|, bt.tx.Hash();
    RevertInputsFacts(cfg, w, txis, bt.tx, n, done);
    var (v, cis) := RevertInputs(cfg, w, txis, bt.tx, n);
    if cis == [] {
      assert v == w;
      RevertOutputsKeepsInv(cfg, w, bt, |bt.tx.outputs|);
    } else {
      var u := v.(unseen := v.unseen[h := cis]);
      forall c | c in SetOf(cis) ensures Spends(h, c.locator) {
        var i :| 0 <= i < n && LocatorOf(bt.tx.inputs[i]) == c.locator;
        assert LocatorOf(h.inputs[i]) == c.locator;
      }
      BackKeepsInv(cfg, w, u, h, cis);
      RevertOutputsKeepsInv(cfg, u, bt, |bt.tx.outputs|);
    }
  }

  function InputsUpTo(bts: seq<BlockTransaction>, n: nat): set<CoinLocator>
    requires n <= |bts|
  {
    if n == 0 then {} else InputsUpTo(bts, n - 1) + SpentBy(bts[n - 1].tx, |bts[n - 1].tx.inputs|)
  }

  /** The inputs of all reverted transactions are distinct. */
  ghost predicate DistinctInputs(bts: seq<BlockTransaction>) {
    && AllValid(bts)
    && (forall i {:trigger NewInputsAt(bts, i)} :: 0 <= i < |bts| ==> NewInputsAt(bts, i))
  }

  ghost predicate NewInputsAt(bts: seq<BlockTransaction>, i: nat)
    requires i < |bts|
  {
    NewInputs(bts[i].tx, InputsUpTo(bts, i))
  }

  lemma {:induction false} ForkKeepsInv(cfg: Config, w: Wallet, txis: map<CoinLocator, CoinInfo>,
                                        bts: seq<BlockTransaction>, n: nat)
    requires Inv(cfg, w) && Pending(w, txis, {}) && DistinctInputs(bts) && n <= |bts|
    ensures var v := RevertTransactions(cfg, w, txis, bts, n);
      Inv(cfg, v) && Pending(v, txis, InputsUpTo(bts, n))
  {
    if n > 0 {
      ForkKeepsInv(cfg, w, txis, bts, n - 1);
      assert NewInputsAt(bts, n - 1);
      RevertKeepsInv(cfg, RevertTransactions(cfg, w, txis, bts, n - 1), txis, bts[n - 1], InputsUpTo(bts, n - 1));
    }
  }
}
