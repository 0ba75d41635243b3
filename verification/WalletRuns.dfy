/** Theorems about every run of wallet operations. */
module WalletRuns {
  import opened Ledger
  import opened WalletState
  import opened WalletPools

  /** A request with the coins its selection picked, a handled block, or a handled fork with
      the index of spent coins it starts from. */
  datatype Event =
    | Request(amount: uint32, fee: uint32, recipient: PublicKey, coins: seq<CoinInfo>)
    | Block(transactions: seq<BlockTransaction>)
    | Fork(txis: map<CoinLocator, CoinInfo>, reverted: seq<BlockTransaction>)

  /** Outputs are delivered once and the inputs of reverted blocks are distinct. */
  ghost predicate Enabled(cfg: Config, w: Wallet, e: Event) {
    match e
    case Request(_, _, _, coins) => Picked(w, coins)
    case Block(bts) => Deliverable(cfg, w, bts)
    case Fork(txis, bts) => Indexes(w, txis) && DistinctInputs(bts)
  }

  ghost function Next(cfg: Config, w: Wallet, e: Event): Wallet
    requires Enabled(cfg, w, e)
  {
    match e
    case Request(amount, fee, recipient, coins) => Requested(cfg, w, amount, fee, recipient, coins)
    case Block(bts) => HandledBlock(cfg, w, bts)
    case Fork(txis, bts) => RevertTransactions(cfg, w, txis, bts, |bts|)
  }

  ghost predicate Runs(cfg: Config, es: seq<Event>, ws: seq<Wallet>) {
    && |ws| == |es| + 1
    && forall i :: 0 <= i < |es| ==> Enabled(cfg, ws[i], es[i]) && ws[i + 1] == Next(cfg, ws[i], es[i])
  }

  lemma StepKeepsInv(cfg: Config, w: Wallet, e: Event)
    requires Inv(cfg, w) && Enabled(cfg, w, e)
    ensures Inv(cfg, Next(cfg, w, e))
  {
    match e
    case Request(amount, fee, recipient, coins) => RequestKeepsInv(cfg, w, amount, fee, recipient, coins);
    case Block(bts) => BlockKeepsInv(cfg, w, bts);
    case Fork(txis, bts) => ForkKeepsInv(cfg, w, txis, bts, |bts|);
  }

  lemma {:induction false} RunKeepsInv(cfg: Config, es: seq<Event>, ws: seq<Wallet>, k: nat)
    requires Runs(cfg, es, ws) && Inv(cfg, ws[0]) && k <= |es|
    ensures Inv(cfg, ws[k])
  {
    if k > 0 {
      RunKeepsInv(cfg, es, ws, k - 1);
      StepKeepsInv(cfg, ws[k - 1], es[k - 1]);
    }
  }

  /** From an empty wallet on, the pools are disjoint, the balance is the value of the
      spendable coins, and no counter exceeds the safe amount. */
  lemma WalletStaysConsistent(cfg: Config, es: seq<Event>, ws: seq<Wallet>, k: nat)
    requires Runs(cfg, es, ws) && ws[0] == EMPTY && k <= |es|
    ensures var w := ws[k];
      && w.collection !! w.spent.Keys && w.collection !! w.received.Keys && w.spent.Keys !! w.received.Keys
      && (forall h, c :: h in w.unseen && c in w.unseen[h] ==> c !in w.collection && c !in w.spent && c !in w.received)
      && w.balance == Wrap(CoinSum(w.collection))
      && (forall c :: c in w.spent ==> w.spent[c] <= cfg.safeBlockAmount)
      && (forall c :: c in w.received ==> w.received[c] <= cfg.safeBlockAmount)
  {
    EmptyInv(cfg);
    RunKeepsInv(cfg, es, ws, k);
    PoolsAreDisjoint(ws[k]);
  }

  // ---- When a received coin becomes spendable ----

  function Blocks(es: seq<Event>): nat {
    if es == [] then 0 else Blocks(es[..|es| - 1]) + if es[|es| - 1].Block? then 1 else 0
  }

  /** One of the first `n` outputs pays the wallet and is the coin's own output object. */
  predicate Hits(cfg: Config, bt: BlockTransaction, n: nat, c: CoinInfo)
    requires bt.Valid() && n <= |bt.tx.outputs|
  {
    exists j :: 0 <= j < n && LockedTo(cfg.id, bt.tx.outputs[j]) && bt.pointers[j] == c.pointer
  }

  predicate HitsAny(cfg: Config, bts: seq<BlockTransaction>, n: nat, c: CoinInfo)
    requires n <= |bts| && forall i :: 0 <= i < |bts| ==> bts[i].Valid()
  {
    exists i :: 0 <= i < n && Hits(cfg, bts[i], |bts[i].tx.outputs|, c)
  }

  /** A fork that reverts the coin's own output while its counter is short of the safe amount. */
  ghost predicate Removes(cfg: Config, w: Wallet, e: Event, c: CoinInfo)
    requires Enabled(cfg, w, e)
  {
    e.Fork? && c in w.received && w.received[c] < cfg.safeBlockAmount && HitsAny(cfg, e.reverted, |e.reverted|, c)
  }

  lemma TransactionKeepsReceived(cfg: Config, w: Wallet, bt: BlockTransaction, c: CoinInfo)
    requires bt.Valid() && Fresh(cfg, w, bt) && c in w.received
    ensures var v := HandleTransaction(cfg, w, bt);
      c in v.received && v.received[c] == w.received[c]
  {
    assert At(w, c, Received);
    assert c !in CoinsOf(cfg, bt, |bt.tx.outputs|);
  }

  lemma {:induction false} HandlingKeepsReceived(cfg: Config, w: Wallet, bts: seq<BlockTransaction>, n: nat,
                                                 c: CoinInfo)
    requires Deliverable(cfg, w, bts) && n <= |bts| && c in w.received
    ensures var v := HandleTransactions(cfg, w, bts, n);
      c in v.received && v.received[c] == w.received[c]
  {
    if n > 0 {
      HandlingKeepsReceived(cfg, w, bts, n - 1, c);
      assert FreshAt(cfg, w, bts, n - 1);
      TransactionKeepsReceived(cfg, HandleTransactions(cfg, w, bts, n - 1), bts[n - 1], c);
    }
  }

  /** The received coin is gone if it was hit short of the safe amount, and else as it was. */
  ghost predicate GoneIf(cfg: Config, w: Wallet, v: Wallet, c: CoinInfo, hit: bool) {
    && (c in v.received <==> c in w.received && !(hit && w.received[c] < cfg.safeBlockAmount))
    && (c in v.received ==> v.received[c] == w.received[c])
  }

  lemma {:induction false} RevertingOutputs(cfg: Config, w: Wallet, bt: BlockTransaction, n: nat, c: CoinInfo)
    requires bt.Valid() && n <= |bt.tx.outputs|
    ensures GoneIf(cfg, w, RevertOutputs(cfg, w, bt, n), c, Hits(cfg, bt, n, c))
  {
    if n > 0 {
      RevertingOutputs(cfg, w, bt, n - 1, c);
      assert Hits(cfg, bt, n, c) <==>
        Hits(cfg, bt, n - 1, c) || (LockedTo(cfg.id, bt.tx.outputs[n - 1]) && bt.pointers[n - 1] == c.pointer);
    }
  }

  lemma {:induction false} RevertingInputsKeeps(cfg: Config, w: Wallet, txis: map<CoinLocator, CoinInfo>,
                                                tx: Transaction, n: nat)
    requires n <= |tx.inputs|
    ensures RevertInputs(cfg, w, txis, tx, n).0.received == w.received
    ensures RevertInputs(cfg, w, txis, tx, n).0.collection == w.collection
  {
    if n > 0 { RevertingInputsKeeps(cfg, w, txis, tx, n - 1); }
  }

  lemma RevertingOne(cfg: Config, w: Wallet, txis: map<CoinLocator, CoinInfo>, bt: BlockTransaction, c: CoinInfo)
    requires bt.Valid()
    ensures GoneIf(cfg, w, RevertTransaction(cfg, w, txis, bt), c, Hits(cfg, bt, |bt.tx.outputs|, c))
  {
    RevertingInputsKeeps(cfg, w, txis, bt.tx, |bt.tx.inputs|);
    var (v, cis) := RevertInputs(cfg, w, txis, bt.tx, |bt.tx.inputs|);
    RevertingOutputs(cfg, if cis == [] then v else v.(unseen := v.unseen[bt.tx.Hash() := cis]), bt,
        |bt.tx.outputs|, c);
  }

  lemma {:induction false} Reverting(cfg: Config, w: Wallet, txis: map<CoinLocator, CoinInfo>,
                                     bts: seq<BlockTransaction>, n: nat, c: CoinInfo)
    requires n <= |bts| && forall i :: 0 <= i < |bts| ==> bts[i].Valid()
    ensures GoneIf(cfg, w, RevertTransactions(cfg, w, txis, bts, n), c, HitsAny(cfg, bts, n, c))
  {
    if n > 0 {
      Reverting(cfg, w, txis, bts, n - 1, c);
      RevertingOne(cfg, RevertTransactions(cfg, w, txis, bts, n - 1), txis, bts[n - 1], c);
      assert HitsAny(cfg, bts, n, c) <==>
        HitsAny(cfg, bts, n - 1, c) || Hits(cfg, bts[n - 1], |bts[n - 1].tx.outputs|, c);
    }
  }

  lemma {:induction false} RevertingOutputsKeepsCollection(cfg: Config, w: Wallet, bt: BlockTransaction, n: nat)
    requires bt.Valid() && n <= |bt.tx.outputs|
    ensures RevertOutputs(cfg, w, bt, n).collection == w.collection
  {
    if n > 0 { RevertingOutputsKeepsCollection(cfg, w, bt, n - 1); }
  }

  lemma {:induction false} RevertingKeepsCollection(cfg: Config, w: Wallet, txis: map<CoinLocator, CoinInfo>,
                                                    bts: seq<BlockTransaction>, n: nat)
    requires n <= |bts| && forall i :: 0 <= i < |bts| ==> bts[i].Valid()
    ensures RevertTransactions(cfg, w, txis, bts, n).collection == w.collection
  {
    if n > 0 {
      RevertingKeepsCollection(cfg, w, txis, bts, n - 1);
      var u, bt := RevertTransactions(cfg, w, txis, bts, n - 1), bts[n - 1];
      RevertingInputsKeeps(cfg, u, txis, bt.tx, |bt.tx.inputs|);
      var (v, cis) := RevertInputs(cfg, u, txis, bt.tx, |bt.tx.inputs|);
      RevertingOutputsKeepsCollection(cfg, if cis == [] then v else v.(unseen := v.unseen[bt.tx.Hash() := cis]), bt,
          |bt.tx.outputs|);
    }
  }

  /** One event removes a received coin, ages it by one block, keeps it, or makes it spendable. */
  lemma ReceivedStep(cfg: Config, w: Wallet, e: Event, c: CoinInfo)
    requires Enabled(cfg, w, e) && c in w.received
    ensures var v := Next(cfg, w, e);
      if Removes(cfg, w, e, c) then c !in v.received && v.collection == w.collection
      else if !e.Block? then c in v.received && v.received[c] == w.received[c]
      else if w.received[c] == cfg.safeBlockAmount then c in v.collection && c !in v.received
      else c in v.received && v.received[c] == w.received[c] + 1
  {
    match e
    case Request(_, _, _, _) =>
    case Block(bts) => HandlingKeepsReceived(cfg, w, bts, |bts|, c);
    case Fork(txis, bts) =>
      Reverting(cfg, w, txis, bts, |bts|, c);
      RevertingKeepsCollection(cfg, w, txis, bts, |bts|);
  }

  /** Absent a fork that removes it, a coin with counter 0 counts one block after another and
      becomes spendable at the block after its counter has reached the safe amount. */
  lemma {:induction false} ReceivedCounts(cfg: Config, es: seq<Event>, ws: seq<Wallet>, k: nat, c: CoinInfo)
    requires Runs(cfg, es, ws) && k <= |es| && Inv(cfg, ws[0]) && c in ws[0].received
    requires forall i :: 0 <= i < |es| ==> !Removes(cfg, ws[i], es[i], c)
    ensures ws[0].received[c] + Blocks(es[..k]) <= cfg.safeBlockAmount ==>
      c in ws[k].received && ws[k].received[c] == ws[0].received[c] + Blocks(es[..k]) && c !in ws[k].collection
    ensures k > 0 && es[k - 1].Block? && ws[0].received[c] + Blocks(es[..k]) == cfg.safeBlockAmount + 1 ==>
      c in ws[k].collection
  {
    RunKeepsInv(cfg, es, ws, k);
    PoolsAreDisjoint(ws[k]);
    if k > 0 {
      ReceivedCounts(cfg, es, ws, k - 1, c);
      assert es[..k][..k - 1] == es[..k - 1];
      if ws[0].received[c] + Blocks(es[..k - 1]) <= cfg.safeBlockAmount {
        ReceivedStep(cfg, ws[k - 1], es[k - 1], c);
      }
    }
  }

  lemma TransactionDelivers(cfg: Config, w: Wallet, bt: BlockTransaction, i: nat)
    requires bt.Valid() && i < |bt.tx.outputs| && LockedTo(cfg.id, bt.tx.outputs[i])
    ensures var v := HandleTransaction(cfg, w, bt);
      bt.Coin(i) in v.received && v.received[bt.Coin(i)] == 0
  {
    assert bt.Coin(i) in CoinsOf(cfg, bt, |bt.tx.outputs|);
  }

  /** The wallet right after the block's transactions, before confirmations are counted. */
  lemma DeliveredCoin(cfg: Config, w: Wallet, bts: seq<BlockTransaction>, t: nat, i: nat, n: nat)
    requires Deliverable(cfg, w, bts) && t < n <= |bts| && i < |bts[t].tx.outputs|
    requires LockedTo(cfg.id, bts[t].tx.outputs[i])
    ensures var v, c := HandleTransactions(cfg, w, bts, n), bts[t].Coin(i);
      c in v.received && v.received[c] == 0
  {
    var c := bts[t].Coin(i);
    if n == t + 1 {
      TransactionDelivers(cfg, HandleTransactions(cfg, w, bts, t), bts[t], i);
    } else {
      DeliveredCoin(cfg, w, bts, t, i, n - 1);
      assert FreshAt(cfg, w, bts, n - 1);
      TransactionKeepsReceived(cfg, HandleTransactions(cfg, w, bts, n - 1), bts[n - 1], c);
    }
  }

  /** Where a coin is right after the block that delivers it. */
  lemma AfterDelivery(cfg: Config, w: Wallet, bts: seq<BlockTransaction>, t: nat, i: nat)
    requires Inv(cfg, w) && Deliverable(cfg, w, bts) && t < |bts| && i < |bts[t].tx.outputs|
    requires LockedTo(cfg.id, bts[t].tx.outputs[i])
    ensures var v, c := HandledBlock(cfg, w, bts), bts[t].Coin(i);
      if cfg.safeBlockAmount == 0 then c in v.collection
      else c in v.received && v.received[c] == 1 && c !in v.collection
  {
    DeliveredCoin(cfg, w, bts, t, i, |bts|);
    BlockKeepsInv(cfg, w, bts);
    PoolsAreDisjoint(HandledBlock(cfg, w, bts));
  }

  lemma TailRuns(cfg: Config, es: seq<Event>, ws: seq<Wallet>)
    requires Runs(cfg, es, ws) && es != []
    ensures Runs(cfg, es[1..], ws[1..])
  {
    var es', ws' := es[1..], ws[1..];
    forall k | 0 <= k < |es'| ensures Enabled(cfg, ws'[k], es'[k]) && ws'[k + 1] == Next(cfg, ws'[k], es'[k]) {
      assert ws'[k] == ws[k + 1] && es'[k] == es[k + 1];
    }
  }

  /** Counting the delivering block as the first, a received coin becomes spendable exactly at
      block number safeBlockAmount + 1 of the run. */
  lemma SpendableExactlyOnTime(cfg: Config, es: seq<Event>, ws: seq<Wallet>, k: nat, t: nat, i: nat)
    requires Runs(cfg, es, ws) && Inv(cfg, ws[0]) && 1 <= k <= |es|
    requires es[0].Block? && t < |es[0].transactions| && i < |es[0].transactions[t].tx.outputs|
    requires LockedTo(cfg.id, es[0].transactions[t].tx.outputs[i])
    requires forall j :: 0 <= j < |es| ==> !Removes(cfg, ws[j], es[j], es[0].transactions[t].Coin(i))
    ensures var c := es[0].transactions[t].Coin(i);
      && (Blocks(es[..k]) <= cfg.safeBlockAmount ==> c !in ws[k].collection && c in ws[k].received)
      && (es[k - 1].Block? && Blocks(es[..k]) == cfg.safeBlockAmount + 1 ==> c in ws[k].collection)
  {
    var c := es[0].transactions[t].Coin(i);
    assert Enabled(cfg, ws[0], es[0]) && ws[1] == Next(cfg, ws[0], es[0]);
    AfterDelivery(cfg, ws[0], es[0].transactions, t, i);
    FirstBlockCounts(es, k);
    if cfg.safeBlockAmount > 0 {
      StepKeepsInv(cfg, ws[0], es[0]);
      TailRuns(cfg, es, ws);
      ReceivedCounts(cfg, es[1..], ws[1..], k - 1, c);
      assert es[1..][..k - 1] == es[1..k];
    } else if k > 1 && es[k - 1].Block? {
      LaterBlocks(es, k);
    }
  }

  lemma {:induction false} FirstBlockCounts(es: seq<Event>, k: nat)
    requires 1 <= k <= |es| && es[0].Block?
    ensures Blocks(es[..k]) == 1 + Blocks(es[1..k])
  {
    if k > 1 {
      FirstBlockCounts(es, k - 1);
      assert es[..k][..k - 1] == es[..k - 1] && es[1..k][..k - 2] == es[1..k - 1];
    } else {
      assert es[..1][..0] == [];
    }
  }

  lemma LaterBlocks(es: seq<Event>, k: nat)
    requires 1 < k <= |es| && es[0].Block? && es[k - 1].Block?
    ensures Blocks(es[..k]) >= 2
  {
    FirstBlockCounts(es, k - 1);
    assert es[..k][..k - 1] == es[..k - 1];
  }
}
