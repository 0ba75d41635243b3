/** The wallet as the node runs it: pools and balance changed in place, coin selection over a
    map in any order, and the value a request or a funding transaction moves. */
module Wallet {
  import opened Ledger
  import opened WalletState
  import opened Revocation
  import Mining
  import ChannelState

  /** Coins in the order a run of the selection loop picks them: it stops as soon as the total
      reaches the target, or when the collection is used up. */
  ghost predicate Selection(w: WalletState.Wallet, target: uint32, coins: seq<CoinInfo>) {
    && Picked(w, coins)
    && (Wrap(Amounts(coins)) >= target || SetOf(coins) == w.collection)
    && (coins != [] ==> Wrap(Amounts(coins[..|coins| - 1])) < target)
  }

  function Flat(blocks: seq<seq<BlockTransaction>>): seq<BlockTransaction> {
    if blocks == [] then [] else Flat(blocks[..|blocks| - 1]) + blocks[|blocks| - 1]
  }

  lemma {:induction false} FlatAt(blocks: seq<seq<BlockTransaction>>, b: nat)
    requires b <= |blocks|
    ensures |Flat(blocks[..b])| <= |Flat(blocks)|
    ensures b < |blocks| ==> Flat(blocks[..b + 1]) == Flat(blocks[..b]) + blocks[b]
    ensures Flat(blocks[..b]) == Flat(blocks)[..|Flat(blocks[..b])|]
    decreases |blocks| - b
  {
    if b == |blocks| {
      assert blocks[..b] == blocks;
    } else {
      assert blocks[..b + 1][..b] == blocks[..b];
      FlatAt(blocks, b + 1);
    }
  }

  lemma FlatStep(blocks: seq<seq<BlockTransaction>>, b: nat)
    requires b < |blocks|
    ensures var n := |Flat(blocks[..b])|;
      n + |blocks[b]| == |Flat(blocks[..b + 1])| <= |Flat(blocks)| && Flat(blocks)[n..n + |blocks[b]|] == blocks[b]
  {
    FlatAt(blocks, b);
    FlatAt(blocks, b + 1);
  }

  lemma PickOne(id: SecretKey, coins: seq<CoinInfo>, coin: CoinInfo)
    requires Distinct(coins) && coin !in SetOf(coins)
    ensures Distinct(coins + [coin]) && SetOf(coins + [coin]) == SetOf(coins) + {coin}
    ensures Wrap(Amounts(coins + [coin])) == Wrap(Wrap(Amounts(coins)) + coin.output.amount)
    ensures InputsFor(id, coins + [coin]) == InputsFor(id, coins) + [InputFor(id, coin)]
  {
    SetOfAppended(coins, coin);
    forall i | 0 <= i < |coins| ensures coins[i] != coin { assert coins[i] in SetOf(coins); }
    assert (coins + [coin])[..|coins|] == coins;
    WrapAdds(Amounts(coins), coin.output.amount);
  }

  /** Without its last coin the selection stays below the target. */
  ghost predicate NoneToSpare(coins: seq<CoinInfo>, target: uint32) {
    coins != [] ==> Wrap(Amounts(coins[..|coins| - 1])) < target
  }

  /** Coins picked so far from a collection of which the remaining ones have not been looked at. */
  ghost predicate Picking(collection: set<CoinInfo>, remaining: set<CoinInfo>, coins: seq<CoinInfo>, target: uint32) {
    && remaining <= collection && SetOf(coins) == collection - remaining && Distinct(coins)
    && NoneToSpare(coins, target)
  }

  lemma StillShort(coins: seq<CoinInfo>, coin: CoinInfo, target: uint32)
    requires Wrap(Amounts(coins)) < target
    ensures NoneToSpare(coins + [coin], target)
  {
    assert (coins + [coin])[..|coins|] == coins;
  }

  lemma PicksOn(id: SecretKey, collection: set<CoinInfo>, remaining: set<CoinInfo>, coins: seq<CoinInfo>,
                target: uint32, coin: CoinInfo)
    requires Picking(collection, remaining, coins, target) && Wrap(Amounts(coins)) < target && coin in remaining
    ensures Picking(collection, remaining - {coin}, coins + [coin], target)
    ensures Wrap(Amounts(coins + [coin])) == Wrap(Wrap(Amounts(coins)) + coin.output.amount)
    ensures InputsFor(id, coins + [coin]) == InputsFor(id, coins) + [InputFor(id, coin)]
  {
    PickOne(id, coins, coin);
    StillShort(coins, coin, target);
    assert collection - (remaining - {coin}) == collection - remaining + {coin};
  }

  lemma PickedIsSelection(w: WalletState.Wallet, remaining: set<CoinInfo>, coins: seq<CoinInfo>, target: uint32)
    requires Picking(w.collection, remaining, coins, target) && (remaining == {} || Wrap(Amounts(coins)) >= target)
    ensures Selection(w, target, coins)
  {
  }

  lemma OneMoreOutput(config: Config, w: WalletState.Wallet, bt: BlockTransaction, i: nat)
    requires bt.Valid() && i < |bt.tx.outputs|
    ensures !PaysMe(config, bt.tx.outputs[i]) ==> CoinsOf(config, bt, i + 1) == CoinsOf(config, bt, i)
    ensures PaysMe(config, bt.tx.outputs[i]) ==> (
      var v := ReceiveCoins(w, CoinsOf(config, bt, i));
      ReceiveCoins(w, CoinsOf(config, bt, i + 1)) == v.(received := v.received[bt.Coin(i) := 0]))
  {
    if PaysMe(config, bt.tx.outputs[i]) {
      assert CoinsOf(config, bt, i + 1) == CoinsOf(config, bt, i) + {bt.Coin(i)};
    } else {
      assert CoinsOf(config, bt, i + 1) == CoinsOf(config, bt, i);
    }
  }

  /** A pool of which all but the remaining coins have been aged. */
  ghost predicate Aging(config: Config, pool: map<CoinInfo, nat>, remaining: set<CoinInfo>, now: map<CoinInfo, nat>) {
    && remaining <= pool.Keys
    && (forall c :: c in now <==> c in pool && (c in remaining || pool[c] != config.safeBlockAmount))
    && (forall c :: c in now ==> now[c] == if c in remaining then pool[c] else pool[c] + 1)
  }

  lemma AgesOn(config: Config, pool: map<CoinInfo, nat>, remaining: set<CoinInfo>, now: map<CoinInfo, nat>, c: CoinInfo)
    requires Aging(config, pool, remaining, now) && c in remaining
    ensures c in now && (now[c] == config.safeBlockAmount <==> c in Ripe(config, pool))
    ensures now[c] == config.safeBlockAmount ==> Aging(config, pool, remaining - {c}, now - {c})
    ensures now[c] != config.safeBlockAmount ==> Aging(config, pool, remaining - {c}, now[c := now[c] + 1])
  {
  }

  lemma AgedAll(config: Config, pool: map<CoinInfo, nat>, now: map<CoinInfo, nat>)
    requires Aging(config, pool, {}, now)
    ensures now == Aged(config, pool)
  {
  }

  lemma OneMoreRipe(ripe: set<CoinInfo>, remaining: set<CoinInfo>, c: CoinInfo, start: uint32)
    requires c in remaining
    ensures c !in ripe ==> ripe - (remaining - {c}) == ripe - remaining
    ensures c in ripe ==> ripe - (remaining - {c}) == (ripe - remaining) + {c}
    ensures var done := ripe - remaining;
      Wrap(start + CoinSum(done + {c})) == Wrap(Wrap(start + CoinSum(done)) + c.output.amount)
  {
    var done := ripe - remaining;
    CoinSumSplit(done + {c}, c);
    assert done + {c} - {c} == done;
    WrapAdds(start + CoinSum(done), c.output.amount);
  }

  /** A wallet of whose received coins all but the remaining ones have been aged or collected. */
  ghost predicate Banking(config: Config, w: WalletState.Wallet, remaining: set<CoinInfo>,
                          collection: set<CoinInfo>, balance: uint32, now: map<CoinInfo, nat>) {
    && Aging(config, w.received, remaining, now)
    && collection == w.collection + (Ripe(config, w.received) - remaining)
    && balance == Wrap(w.balance + CoinSum(Ripe(config, w.received) - remaining))
  }

  lemma BanksOn(config: Config, w: WalletState.Wallet, remaining: set<CoinInfo>,
                collection: set<CoinInfo>, balance: uint32, now: map<CoinInfo, nat>, c: CoinInfo)
    requires Banking(config, w, remaining, collection, balance, now) && c in remaining
    ensures c in now
    ensures now[c] == config.safeBlockAmount ==>
      Banking(config, w, remaining - {c}, collection + {c}, Wrap(balance + c.output.amount), now - {c})
    ensures now[c] != config.safeBlockAmount ==>
      Banking(config, w, remaining - {c}, collection, balance, now[c := now[c] + 1])
  {
    AgesOn(config, w.received, remaining, now, c);
    OneMoreRipe(Ripe(config, w.received), remaining, c, w.balance);
  }

  lemma BankedAll(config: Config, w: WalletState.Wallet, collection: set<CoinInfo>, balance: uint32,
                  now: map<CoinInfo, nat>)
    requires Banking(config, w, {}, collection, balance, now)
    ensures collection == w.collection + Ripe(config, w.received) && now == Aged(config, w.received)
    ensures balance == Wrap(w.balance + CoinSum(Ripe(config, w.received)))
  {
    assert Ripe(config, w.received) - {} == Ripe(config, w.received);
    AgedAll(config, w.received, now);
  }

  lemma NothingBanked(config: Config, w: WalletState.Wallet)
    ensures Banking(config, w, w.received.Keys, w.collection, w.balance, w.received)
  {
    assert Ripe(config, w.received) - w.received.Keys == {};
  }

  function Unseen(h: Hash, coins: seq<CoinInfo>): map<Hash, seq<CoinInfo>> {
    if coins == [] then map[] else map[h := coins]
  }

  lemma UnseenGrows(h: Hash, coins: seq<CoinInfo>, c: CoinInfo)
    ensures Unseen(h, coins + [c]) == (if h in Unseen(h, coins) then Unseen(h, coins)[h := Unseen(h, coins)[h] + [c]]
                                       else Unseen(h, coins)[h := [c]])
  {
    if coins == [] { assert coins + [c] == [c]; }
  }

  class Wallet {
    const config: Config
    const transactionVersion: uint32
    const defaultLockTime: uint32
    const defaultFee: uint32
    var balance: uint32
    var coinCollection: set<CoinInfo>
    var unseenSpentCoins: map<Hash, seq<CoinInfo>>
    var unconfirmedSpentCoins: map<CoinInfo, nat>
    var unconfirmedReceivedCoins: map<CoinInfo, nat>

    function View(): WalletState.Wallet
      reads this
    {
      WalletState.Wallet(balance, coinCollection, unseenSpentCoins, unconfirmedSpentCoins, unconfirmedReceivedCoins)
    }

    constructor (config: Config, version: uint32, lockTime: uint32, fee: uint32)
      ensures View() == EMPTY && this.config == config
    {
      this.config, transactionVersion, defaultLockTime, defaultFee := config, version, lockTime, fee;
      balance, coinCollection, unseenSpentCoins := 0, {}, map[];
      unconfirmedSpentCoins, unconfirmedReceivedCoins := map[], map[];
    }

    method GenerateTransactionInputs(amount: uint32, fee: uint32)
      returns (change: uint32, inputs: seq<TransactionInput>, coinInfos: seq<CoinInfo>)
      ensures Selection(View(), Wrap(amount + fee), coinInfos)
      ensures inputs == InputsFor(config.id, coinInfos) && change == Change(coinInfos, Wrap(amount + fee))
    {
      var sum: int := amount + fee;
      var target := Wrap(sum);
      var total: int;
      total, inputs, coinInfos := SelectCoins(target);
      change := Wrap(total - target);
      WrapTakes(Amounts(coinInfos), target);
    }

    /** The loop over the collection, in any order, that stops once the target is reached. */
    method SelectCoins(target: uint32)
      returns (total: uint32, inputs: seq<TransactionInput>, coinInfos: seq<CoinInfo>)
      ensures Selection(View(), target, coinInfos)
      ensures inputs == InputsFor(config.id, coinInfos) && total == Wrap(Amounts(coinInfos))
    {
      total, inputs, coinInfos := 0, [], [];
      var remaining := coinCollection;
      while remaining != {}
        invariant Picking(coinCollection, remaining, coinInfos, target)
        invariant total == Wrap(Amounts(coinInfos)) && inputs == InputsFor(config.id, coinInfos)
        decreases remaining
      {
        if total >= target {
          break;
        }
        var coin :| coin in remaining;
        PicksOn(config.id, coinCollection, remaining, coinInfos, target, coin);
        remaining := remaining - {coin};
        coinInfos := coinInfos + [coin];
        inputs := inputs + [InputFor(config.id, coin)];
        total := Wrap(total + coin.output.amount);
      }
      PickedIsSelection(View(), remaining, coinInfos, target);
    }

    method RequestTransaction(amount: uint32, fee: uint32, recipientPK: PublicKey)
      returns (tx: Option<Transaction>, ghost coins: seq<CoinInfo>)
      modifies this
      ensures tx.Some? <==> old(balance) >= Wrap(amount + fee) > 0 && old(coinCollection) != {}
      ensures tx.None? ==> View() == old(View())
      ensures tx.Some? ==> Selection(old(View()), Wrap(amount + fee), coins)
      ensures tx.Some? ==> tx.value == RequestedTransaction(config.id, amount, fee, recipientPK, coins)
      ensures tx.Some? ==> View() == Requested(config, old(View()), amount, fee, recipientPK, coins)
    {
      coins := [];
      if balance < Wrap(amount + fee) {
        return None, [];
      }
      var change, inputs, coinInfos := GenerateTransactionInputs(amount, fee);
      coins := coinInfos;
      if coinInfos == [] {
        return None, coins;
      }
      assert coinInfos[0] in SetOf(coinInfos);
      var outputs := OutputsFor(config.id, amount, recipientPK, change);
      var t := Transaction(false, 0, inputs, outputs, [], 0);
      unseenSpentCoins := unseenSpentCoins[t.Hash() := coinInfos];
      RemoveFromCollection(coinInfos);
      var coinTotals := Wrap(Wrap(amount + fee) + change);
      balance := Wrap(balance - coinTotals);
      return Some(t), coins;
    }

    method RemoveFromCollection(coins: seq<CoinInfo>)
      modifies this`coinCollection
      ensures coinCollection == old(coinCollection) - SetOf(coins)
    {
      for i := 0 to |coins|
        invariant coinCollection == old(coinCollection) - SetOf(coins[..i])
      {
        assert coins[..i + 1] == coins[..i] + [coins[i]];
        SetOfAppended(coins[..i], coins[i]);
        coinCollection := coinCollection - {coins[i]};
      }
      assert coins[..|coins|] == coins;
    }

    method HandleBlock(bts: seq<BlockTransaction>)
      requires forall i :: 0 <= i < |bts| ==> bts[i].Valid()
      modifies this
      ensures View() == HandledBlock(config, old(View()), bts)
    {
      ghost var w := View();
      for t := 0 to |bts|
        invariant View() == HandleTransactions(config, w, bts, t)
      {
        if bts[t].tx.Hash() in unseenSpentCoins {
          HandleSeenCoins(bts[t].tx.Hash());
        }
        AddCoins(bts[t]);
      }
      UpdateConfirmations();
    }

    method HandleSeenCoins(h: Hash)
      requires h in unseenSpentCoins
      modifies this
      ensures View() == SeenCoins(old(View()), h)
    {
      var seenCoins := unseenSpentCoins[h];
      unseenSpentCoins := unseenSpentCoins - {h};
      for i := 0 to |seenCoins|
        invariant unchanged(this`balance, this`coinCollection, this`unconfirmedReceivedCoins)
        invariant unseenSpentCoins == old(unseenSpentCoins) - {h}
        invariant forall c :: c in unconfirmedSpentCoins <==>
          c in old(unconfirmedSpentCoins) || c in SetOf(seenCoins[..i])
        invariant forall c :: c in unconfirmedSpentCoins ==>
          unconfirmedSpentCoins[c] == if c in SetOf(seenCoins[..i]) then 0 else old(unconfirmedSpentCoins)[c]
      {
        assert seenCoins[..i + 1] == seenCoins[..i] + [seenCoins[i]];
        SetOfAppended(seenCoins[..i], seenCoins[i]);
        unconfirmedSpentCoins := unconfirmedSpentCoins[seenCoins[i] := 0];
      }
      assert seenCoins[..|seenCoins|] == seenCoins;
    }

    /** Adds the outputs of the transaction that pay the wallet. */
    method AddCoins(bt: BlockTransaction)
      requires bt.Valid()
      modifies this`unconfirmedReceivedCoins
      ensures View() == ReceiveCoins(old(View()), CoinsOf(config, bt, |bt.tx.outputs|))
    {
      ghost var w := View();
      for i := 0 to |bt.tx.outputs|
        invariant View() == ReceiveCoins(w, CoinsOf(config, bt, i))
      {
        OneMoreOutput(config, w, bt, i);
        if PaysMe(config, bt.tx.outputs[i]) {
          unconfirmedReceivedCoins := unconfirmedReceivedCoins[bt.Coin(i) := 0];
        }
      }
    }

    method UpdateConfirmations()
      modifies this
      ensures View() == Confirmed(config, old(View()))
    {
      UpdateSpent();
      UpdateReceived();
    }

    method UpdateSpent()
      modifies this`coinCollection, this`unconfirmedSpentCoins
      ensures coinCollection == old(coinCollection) - Ripe(config, old(unconfirmedSpentCoins))
      ensures unconfirmedSpentCoins == Aged(config, old(unconfirmedSpentCoins))
    {
      var remaining := unconfirmedSpentCoins.Keys;
      ghost var pool, ripe := unconfirmedSpentCoins, Ripe(config, unconfirmedSpentCoins);
      while remaining != {}
        invariant Aging(config, pool, remaining, unconfirmedSpentCoins)
        invariant coinCollection == old(coinCollection) - (ripe - remaining)
        decreases remaining
      {
        var c :| c in remaining;
        AgesOn(config, pool, remaining, unconfirmedSpentCoins, c);
        remaining := remaining - {c};
        if unconfirmedSpentCoins[c] == config.safeBlockAmount {
          coinCollection := coinCollection - {c};
          unconfirmedSpentCoins := unconfirmedSpentCoins - {c};
        } else {
          unconfirmedSpentCoins := unconfirmedSpentCoins[c := unconfirmedSpentCoins[c] + 1];
        }
      }
      AgedAll(config, pool, unconfirmedSpentCoins);
    }

    method UpdateReceived()
      modifies this`coinCollection, this`unconfirmedReceivedCoins, this`balance
      ensures coinCollection == old(coinCollection) + Ripe(config, old(unconfirmedReceivedCoins))
      ensures unconfirmedReceivedCoins == Aged(config, old(unconfirmedReceivedCoins))
      ensures balance == Wrap(old(balance) + CoinSum(Ripe(config, old(unconfirmedReceivedCoins))))
    {
      var remaining := unconfirmedReceivedCoins.Keys;
      ghost var w := View();
      NothingBanked(config, w);
      while remaining != {}
        invariant Banking(config, w, remaining, coinCollection, balance, unconfirmedReceivedCoins)
        decreases remaining
      {
        var c :| c in remaining;
        UpdateReceivedCoin(c, w, remaining);
        remaining := remaining - {c};
      }
      BankedAll(config, w, coinCollection, balance, unconfirmedReceivedCoins);
    }

    method UpdateReceivedCoin(c: CoinInfo, ghost w: WalletState.Wallet, ghost remaining: set<CoinInfo>)
      requires Banking(config, w, remaining, coinCollection, balance, unconfirmedReceivedCoins) && c in remaining
      modifies this`coinCollection, this`unconfirmedReceivedCoins, this`balance
      ensures Banking(config, w, remaining - {c}, coinCollection, balance, unconfirmedReceivedCoins)
    {
      BanksOn(config, w, remaining, coinCollection, balance, unconfirmedReceivedCoins, c);
      if unconfirmedReceivedCoins[c] == config.safeBlockAmount {
        coinCollection := coinCollection + {c};
        balance := Wrap(balance + c.output.amount);
        unconfirmedReceivedCoins := unconfirmedReceivedCoins - {c};
      } else {
        unconfirmedReceivedCoins := unconfirmedReceivedCoins[c := unconfirmedReceivedCoins[c] + 1];
      }
    }

    /** `txis` is returned for the specification: any index of the spent coins by locator. */
    method HandleFork(blocks: seq<seq<BlockTransaction>>) returns (ghost txis: map<CoinLocator, CoinInfo>)
      requires forall i :: 0 <= i < |Flat(blocks)| ==> Flat(blocks)[i].Valid()
      modifies this
      ensures Indexes(old(View()), txis)
      ensures View() == RevertTransactions(config, old(View()), txis, Flat(blocks), |Flat(blocks)|)
    {
      ghost var w, all := View(), Flat(blocks);
      var index := IndexSpent();
      txis := index;
      ghost var n := 0;
      for b := 0 to |blocks|
        invariant n == |Flat(blocks[..b])| <= |all|
        invariant View() == RevertTransactions(config, w, txis, all, n)
      {
        FlatStep(blocks, b);
        n := RevertBlock(index, w, blocks[b], all, n);
      }
      assert blocks[..|blocks|] == blocks;
    }

    method RevertBlock(txis: map<CoinLocator, CoinInfo>, ghost w: WalletState.Wallet, block: seq<BlockTransaction>,
                       ghost all: seq<BlockTransaction>, ghost n: nat) returns (ghost m: nat)
      requires n + |block| <= |all| && all[n..n + |block|] == block
      requires forall i :: 0 <= i < |all| ==> all[i].Valid()
      requires View() == RevertTransactions(config, w, txis, all, n)
      modifies this
      ensures m == n + |block| && View() == RevertTransactions(config, w, txis, all, m)
    {
      m := n;
      for t := 0 to |block|
        invariant m == n + t && View() == RevertTransactions(config, w, txis, all, m)
      {
        assert all[m] == block[t];
        RevertOne(txis, block[t]);
        m := m + 1;
      }
    }

    method IndexSpent() returns (txis: map<CoinLocator, CoinInfo>)
      ensures Indexes(View(), txis)
    {
      txis := map[];
      var remaining := unconfirmedSpentCoins.Keys;
      while remaining != {}
        invariant remaining <= unconfirmedSpentCoins.Keys
        invariant forall c :: c in unconfirmedSpentCoins && c !in remaining ==> c.locator in txis
        invariant forall cl :: cl in txis ==> txis[cl] in unconfirmedSpentCoins && txis[cl].locator == cl
        decreases remaining
      {
        var ci :| ci in remaining;
        remaining := remaining - {ci};
        txis := txis[ci.locator := ci];
      }
    }

    method RevertOne(txis: map<CoinLocator, CoinInfo>, bt: BlockTransaction)
      requires bt.Valid()
      modifies this
      ensures View() == RevertTransaction(config, old(View()), txis, bt)
    {
      var unseen := RevertSpending(txis, bt.tx);
      if bt.tx.Hash() in unseen {
        unseenSpentCoins := unseenSpentCoins[bt.tx.Hash() := unseen[bt.tx.Hash()]];
      }
      ghost var w := View();
      for j := 0 to |bt.tx.outputs|
        invariant View() == RevertOutputs(config, w, bt, j)
      {
        if PaysMe(config, bt.tx.outputs[j]) {
          RemoveFromUnconfirmed(bt.pointers[j]);
        }
      }
    }

    /** The local map of unseen coins of one reverted transaction. */
    method RevertSpending(txis: map<CoinLocator, CoinInfo>, tx: Transaction) returns (unseen: map<Hash, seq<CoinInfo>>)
      modifies this`unconfirmedSpentCoins
      ensures View() == RevertInputs(config, old(View()), txis, tx, |tx.inputs|).0
      ensures unseen == Unseen(tx.Hash(), RevertInputs(config, old(View()), txis, tx, |tx.inputs|).1)
    {
      ghost var w := View();
      unseen := map[];
      for i := 0 to |tx.inputs|
        invariant View() == RevertInputs(config, w, txis, tx, i).0
        invariant unseen == Unseen(tx.Hash(), RevertInputs(config, w, txis, tx, i).1)
      {
        var pi := LocatorOf(tx.inputs[i]);
        if pi in txis {
          var ci := txis[pi];
          var confirmations := if ci in unconfirmedSpentCoins then unconfirmedSpentCoins[ci] else 0;
          if confirmations < config.safeBlockAmount {
            unconfirmedSpentCoins := unconfirmedSpentCoins - {ci};
            UnseenGrows(tx.Hash(), RevertInputs(config, w, txis, tx, i).1, ci);
            if tx.Hash() in unseen {
              unseen := unseen[tx.Hash() := unseen[tx.Hash()] + [ci]];
            } else {
              unseen := unseen[tx.Hash() := [ci]];
            }
          }
        }
      }
    }

    method RemoveFromUnconfirmed(pointer: nat)
      modifies this`unconfirmedReceivedCoins
      ensures View() == RemoveUnconfirmed(config, old(View()), pointer)
    {
      var remaining := unconfirmedReceivedCoins.Keys;
      ghost var pool := unconfirmedReceivedCoins;
      while remaining != {}
        invariant remaining <= pool.Keys
        invariant forall c :: c in unconfirmedReceivedCoins <==>
          c in pool && (c in remaining || !(c.pointer == pointer && pool[c] < config.safeBlockAmount))
        invariant forall c :: c in unconfirmedReceivedCoins ==> unconfirmedReceivedCoins[c] == pool[c]
        decreases remaining
      {
        var ci :| ci in remaining;
        remaining := remaining - {ci};
        if ci.pointer == pointer && unconfirmedReceivedCoins[ci] < config.safeBlockAmount {
          unconfirmedReceivedCoins := unconfirmedReceivedCoins - {ci};
        }
      }
    }

    /** Claims a revoked output for the wallet if the key fits its script. */
    method HandleRevokedOutput(hash: Hash, txo: TransactionOutput, outIndex: nat, secRevKey: SecretKey,
                               scriptType: Option<ScriptType>) returns (tx: Option<Transaction>)
      ensures tx == Revocation.HandleRevokedOutput(config.id, defaultFee, transactionVersion, hash, txo, outIndex,
                                                   secRevKey, scriptType)
      ensures tx.Some? <==>
        && (scriptType == Some(MULTI) || scriptType == Some(HTLC))
        && txo.lockingScript.Script? && txo.lockingScript.revocationKey == Pub(secRevKey)
      ensures tx.Some? && txo.amount >= defaultFee ==> SignedBy(tx.value, config.id) && |tx.value.outputs| == 1
      ensures tx.Some? && txo.amount >= defaultFee ==> tx.value.outputs[0].amount == txo.amount - defaultFee
    {
      ClaimTakesOutput(config.id, defaultFee, transactionVersion, hash, txo, outIndex, secRevKey, scriptType);
      if !RevKeySuccessful(txo.lockingScript, secRevKey, scriptType) {
        return None;
      }
      var input := TransactionInput(hash, outIndex, NoScript);
      var amount: int := txo.amount - defaultFee;
      var output := TransactionOutput(Wrap(amount), PayTo(Pub(config.id)));
      var claim := Transaction(true, transactionVersion, [input], [output], [], 0);
      return Some(claim.(witnesses := claim.witnesses + [Signature(config.id, claim.Hash())]));
    }

    /** The funding transaction of a channel; the wallet's pools and balance stay as they are. */
    method GenerateFundingTransaction(amount: uint32, fee: uint32, counterparty: PublicKey)
      returns (tx: Transaction, ghost coins: seq<CoinInfo>)
      ensures Selection(View(), Wrap(Wrap(amount + fee) + fee), coins)
      ensures tx.inputs == InputsFor(config.id, coins) && tx.segwit && tx.witnesses == []
      ensures tx.version == transactionVersion && tx.lockTime == defaultLockTime
      ensures var script := MultiParty(Pub(config.id), counterparty, NoKey, 0);
        tx.outputs == [TransactionOutput(amount, script), TransactionOutput(0, script),
                       TransactionOutput(Wrap(Change(coins, Wrap(Wrap(amount + fee) + fee)) + fee), script)]
    {
      var change, inputs, coinInfos := GenerateTransactionInputs(Wrap(amount + fee), fee);
      coins := coinInfos;
      var lockingScripts := [];
      for i := 0 to 3
        invariant |lockingScripts| == i && forall k :: 0 <= k < i ==>
          lockingScripts[k] == MultiParty(Pub(config.id), counterparty, NoKey, 0)
      {
        lockingScripts := lockingScripts + [MultiParty(Pub(config.id), counterparty, NoKey, 0)];
      }
      tx := Transaction(true, transactionVersion, inputs,
                        [TransactionOutput(amount, lockingScripts[0]), TransactionOutput(0, lockingScripts[1]),
                         TransactionOutput(Wrap(change + fee), lockingScripts[2])], [], defaultLockTime);
    }
  }

  // ---- Conservation ----

  lemma AmountsWithinCollection(w: WalletState.Wallet, coins: seq<CoinInfo>)
    requires Picked(w, coins)
    ensures Amounts(coins) <= CoinSum(w.collection)
    ensures SetOf(coins) == w.collection ==> Amounts(coins) == CoinSum(w.collection)
  {
    AmountsAreSum(coins);
    var rest := w.collection - SetOf(coins);
    CoinSumUnion(SetOf(coins), rest);
    assert SetOf(coins) + rest == w.collection;
  }

  /** When the collection suffices and no sum overflows, selection reaches its target and would
      not without its last coin, whatever order the coins came in. */
  lemma SelectionReachesTarget(w: WalletState.Wallet, target: uint32, coins: seq<CoinInfo>)
    requires Selection(w, target, coins) && target <= CoinSum(w.collection) < U32_LIMIT
    ensures target <= Amounts(coins) <= CoinSum(w.collection)
    ensures coins != [] ==> Amounts(coins[..|coins| - 1]) < target
    ensures Change(coins, target) == Amounts(coins) - target
  {
    ShortSelection(w, target, coins);
    if coins != [] { LastIsNeeded(coins, target); }
    ExactChange(coins, target);
  }

  /** What the picked coins reach of a target, when the collection holds `sum`. */
  predicate Reaches(picked: nat, target: uint32, sum: nat) {
    if sum < target then picked == sum else target <= picked <= sum
  }

  lemma ReachesExactly(picked: nat, target: uint32, sum: nat)
    requires picked <= sum < U32_LIMIT && (Wrap(picked) >= target || picked == sum)
    ensures Reaches(picked, target, sum)
  {
    WrapFits(picked);
  }

  /** Short of the target, the whole collection is picked. */
  lemma ShortSelection(w: WalletState.Wallet, target: uint32, coins: seq<CoinInfo>)
    requires Selection(w, target, coins) && CoinSum(w.collection) < U32_LIMIT
    ensures Reaches(Amounts(coins), target, CoinSum(w.collection))
  {
    AmountsWithinCollection(w, coins);
    ReachesExactly(Amounts(coins), target, CoinSum(w.collection));
  }

  lemma ExactChange(coins: seq<CoinInfo>, target: uint32)
    requires target <= Amounts(coins) < U32_LIMIT
    ensures Change(coins, target) == Amounts(coins) - target
  {
    WrapFits(Amounts(coins) - target);
  }

  lemma LastIsNeeded(coins: seq<CoinInfo>, target: uint32)
    requires coins != [] && Amounts(coins) < U32_LIMIT && Wrap(Amounts(coins[..|coins| - 1])) < target
    ensures Amounts(coins[..|coins| - 1]) < target
  {
    WrapFits(Amounts(coins[..|coins| - 1]));
  }

  function AmountAt(outputs: seq<TransactionOutput>, i: nat): nat {
    if i < |outputs| then outputs[i].amount else 0
  }

  lemma SumOfThree(tx: Transaction)
    requires |tx.outputs| <= 3
    ensures Mining.OutputSum(tx, |tx.outputs|) ==
      AmountAt(tx.outputs, 0) + AmountAt(tx.outputs, 1) + AmountAt(tx.outputs, 2)
  {
    if |tx.outputs| > 2 { assert Mining.OutputSum(tx, 3) == Mining.OutputSum(tx, 2) + tx.outputs[2].amount; }
    if |tx.outputs| > 1 { assert Mining.OutputSum(tx, 2) == Mining.OutputSum(tx, 1) + tx.outputs[1].amount; }
    if |tx.outputs| > 0 { assert Mining.OutputSum(tx, 1) == Mining.OutputSum(tx, 0) + tx.outputs[0].amount; }
  }

  lemma RequestedOutputs(id: SecretKey, amount: uint32, fee: uint32, recipient: PublicKey, coins: seq<CoinInfo>)
    ensures var tx := RequestedTransaction(id, amount, fee, recipient, coins);
      Mining.OutputSum(tx, |tx.outputs|) == if recipient == NoKey then 0 else amount + Change(coins, Wrap(amount + fee))
  {
    SumOfThree(RequestedTransaction(id, amount, fee, recipient, coins));
  }

  /** A requested transaction with a recipient spends exactly its outputs plus the fee if and only
      if the picked coins reach the amount and the fee, by less than 2^32; without one, if and
      only if they are just the fee. */
  lemma RequestExactly(id: SecretKey, amount: uint32, fee: uint32, recipient: PublicKey, coins: seq<CoinInfo>)
    ensures var tx := RequestedTransaction(id, amount, fee, recipient, coins);
      Amounts(coins) == Mining.OutputSum(tx, |tx.outputs|) + fee <==>
        if recipient == NoKey then Amounts(coins) == fee
        else amount + fee <= Amounts(coins) < amount + fee + U32_LIMIT
  {
    RequestedOutputs(id, amount, fee, recipient, coins);
    WrapTakes(Amounts(coins), amount + fee);
    WrapFits(Amounts(coins) - (amount + fee));
  }

  /** For a request the balance covers: value is conserved if and only if the amount and the fee
      do not wrap around, and there is a recipient or nothing to pay out. */
  lemma RequestConserves(id: SecretKey, w: WalletState.Wallet, amount: uint32, fee: uint32, recipient: PublicKey,
                         coins: seq<CoinInfo>)
    requires Selection(w, Wrap(amount + fee), coins)
    requires Wrap(amount + fee) <= CoinSum(w.collection) < U32_LIMIT
    ensures var tx := RequestedTransaction(id, amount, fee, recipient, coins);
      Amounts(coins) == Mining.OutputSum(tx, |tx.outputs|) + fee <==>
        if recipient == NoKey then Amounts(coins) == fee else amount + fee < U32_LIMIT
  {
    RequestExactly(id, amount, fee, recipient, coins);
    SelectionCovers(w, amount + fee, Wrap(amount + fee), coins);
  }

  lemma SelectionCovers(w: WalletState.Wallet, cost: nat, target: uint32, coins: seq<CoinInfo>)
    requires target == Wrap(cost) && Selection(w, target, coins) && target <= CoinSum(w.collection) < U32_LIMIT
    ensures cost <= Amounts(coins) < cost + U32_LIMIT <==> cost < U32_LIMIT
  {
    ShortSelection(w, target, coins);
    CoversExactly(cost, Amounts(coins));
  }

  lemma CoversExactly(cost: nat, picked: nat)
    requires Wrap(cost) <= picked < U32_LIMIT
    ensures cost <= picked < cost + U32_LIMIT <==> cost < U32_LIMIT
  {
    WrapFits(cost);
  }

  lemma ThreeOutputs(tx: Transaction)
    requires |tx.outputs| == 3
    ensures Mining.OutputSum(tx, |tx.outputs|) == tx.outputs[0].amount + tx.outputs[1].amount + tx.outputs[2].amount
  {
    SumOfThree(tx);
  }

  /** The outputs of a funding transaction made from picked coins. */
  ghost predicate Funds(funding: Transaction, amount: uint32, fee: uint32, coins: seq<CoinInfo>) {
    && |funding.outputs| == 3 && funding.outputs[0].amount == amount && funding.outputs[1].amount == 0
    && funding.outputs[2].amount == Wrap(Change(coins, Wrap(Wrap(amount + fee) + fee)) + fee)
  }

  lemma FundingTarget(amount: uint32, fee: uint32)
    ensures Wrap(Wrap(amount + fee) + fee) == Wrap(amount + 2 * fee)
    ensures amount + 2 * fee < U32_LIMIT ==> Wrap(Wrap(amount + fee) + fee) == amount + 2 * fee
  {
    WrapAdds(amount + fee, fee);
    WrapFits(amount + 2 * fee);
  }

  /** What the third output holds, whatever wraps around. */
  lemma FundingChange(amount: uint32, fee: uint32, coins: seq<CoinInfo>)
    ensures Wrap(Change(coins, Wrap(Wrap(amount + fee) + fee)) + fee) == Wrap(Amounts(coins) - amount - fee)
  {
    FundingTarget(amount, fee);
    WrapTakes(Amounts(coins), amount + 2 * fee);
    WrapAdds(Amounts(coins) - (amount + 2 * fee), fee);
  }

  /** A funding transaction spends exactly its outputs plus the fee if and only if the picked coins
      reach the amount and one fee, by less than 2^32. */
  lemma FundingExactly(amount: uint32, fee: uint32, coins: seq<CoinInfo>, funding: Transaction)
    requires Funds(funding, amount, fee, coins)
    ensures Amounts(coins) == Mining.OutputSum(funding, |funding.outputs|) + fee <==>
      amount + fee <= Amounts(coins) < amount + fee + U32_LIMIT
  {
    ThreeOutputs(funding);
    FundingChange(amount, fee, coins);
    WrapFits(Amounts(coins) - amount - fee);
  }

  function RefundAmount(amount: uint32, change: uint32, fee: uint32): uint32 {
    Wrap(amount + if change > fee then change - fee else 0)
  }

  lemma RefundOutput(id: SecretKey, theirs: PublicKey, funding: Transaction, fee: uint32, rev: PublicKey,
                     blocks: uint32, lockTime: uint32)
    requires |funding.outputs| == 3
    ensures var refund := ChannelState.Refund(id, theirs, funding, fee, rev, blocks, lockTime);
      |refund.outputs| == 1 &&
      refund.outputs[0].amount == RefundAmount(funding.outputs[0].amount, funding.outputs[2].amount, fee)
  {
  }

  /** The refund returns the picked coins less two fees if and only if the third output covers a
      fee and the coins cover two, by less than 2^32. */
  lemma RefundIsRest(amount: uint32, fee: uint32, spent: nat, change: uint32)
    requires change == Wrap(spent - amount - fee)
    ensures spent == RefundAmount(amount, change, fee) + 2 * fee <==>
      fee <= change && 2 * fee <= spent < 2 * fee + U32_LIMIT
  {
    if fee <= change {
      WrapAdds(spent - amount - fee, amount - fee);
      WrapFits(spent - 2 * fee);
    } else {
      WrapFits(amount);
      WrapFits(spent - amount - fee);
    }
  }

  /** Nothing checks that the wallet can pay for a funding transaction. Without overflow of the
      target, it conserves value if and only if the collection covers the amount and one fee; its
      refund returns all but two fees if and only if the collection covers the amount and both,
      or falls short of the first while covering two fees. */
  lemma FundingAndRefundConserve(w: WalletState.Wallet, amount: uint32, fee: uint32, coins: seq<CoinInfo>,
                                 funding: Transaction,
                                 id: SecretKey, theirs: PublicKey, rev: PublicKey, blocks: uint32, lockTime: uint32)
    requires amount + 2 * fee < U32_LIMIT && CoinSum(w.collection) < U32_LIMIT
    requires Selection(w, Wrap(Wrap(amount + fee) + fee), coins) && Funds(funding, amount, fee, coins)
    ensures Amounts(coins) == Mining.OutputSum(funding, |funding.outputs|) + fee <==>
      amount + fee <= CoinSum(w.collection)
    ensures var refund := ChannelState.Refund(id, theirs, funding, fee, rev, blocks, lockTime);
      |refund.outputs| == 1 &&
      (Amounts(coins) == refund.outputs[0].amount + 2 * fee <==>
       amount + 2 * fee <= CoinSum(w.collection) || 2 * fee <= CoinSum(w.collection) < amount + fee)
  {
    FundingReaches(w, amount, fee, coins);
    FundingExactly(amount, fee, coins, funding);
    FundingCovers(amount, fee, Amounts(coins), CoinSum(w.collection));
    FundingChange(amount, fee, coins);
    RefundReturns(amount, fee, Amounts(coins), CoinSum(w.collection), funding, id, theirs, rev, blocks, lockTime);
  }

  lemma RefundReturns(amount: uint32, fee: uint32, picked: nat, sum: nat, funding: Transaction, id: SecretKey,
                      theirs: PublicKey, rev: PublicKey, blocks: uint32, lockTime: uint32)
    requires amount + 2 * fee < U32_LIMIT && sum < U32_LIMIT && Reaches(picked, amount + 2 * fee, sum)
    requires |funding.outputs| == 3 && funding.outputs[0].amount == amount
    requires funding.outputs[2].amount == Wrap(picked - amount - fee)
    ensures var refund := ChannelState.Refund(id, theirs, funding, fee, rev, blocks, lockTime);
      |refund.outputs| == 1 &&
      (picked == refund.outputs[0].amount + 2 * fee <==>
       amount + 2 * fee <= sum || 2 * fee <= sum < amount + fee)
  {
    RefundOutput(id, theirs, funding, fee, rev, blocks, lockTime);
    RefundConserves(amount, fee, picked, funding.outputs[2].amount, sum);
  }

  lemma FundingReaches(w: WalletState.Wallet, amount: uint32, fee: uint32, coins: seq<CoinInfo>)
    requires amount + 2 * fee < U32_LIMIT && CoinSum(w.collection) < U32_LIMIT
    requires Selection(w, Wrap(Wrap(amount + fee) + fee), coins)
    ensures Reaches(Amounts(coins), amount + 2 * fee, CoinSum(w.collection))
  {
    FundingTarget(amount, fee);
    ShortSelection(w, amount + 2 * fee, coins);
  }

  lemma FundingCovers(amount: uint32, fee: uint32, picked: nat, sum: nat)
    requires amount + 2 * fee < U32_LIMIT && sum < U32_LIMIT && Reaches(picked, amount + 2 * fee, sum)
    ensures amount + fee <= picked < amount + fee + U32_LIMIT <==> amount + fee <= sum
  {
  }

  lemma RefundConserves(amount: uint32, fee: uint32, picked: nat, change: uint32, sum: nat)
    requires amount + 2 * fee < U32_LIMIT && sum < U32_LIMIT && Reaches(picked, amount + 2 * fee, sum)
    requires change == Wrap(picked - amount - fee)
    ensures picked == RefundAmount(amount, change, fee) + 2 * fee <==>
      amount + 2 * fee <= sum || 2 * fee <= sum < amount + fee
  {
    RefundIsRest(amount, fee, picked, change);
    ChangeCoversFee(amount, fee, picked);
  }

  lemma ChangeCoversFee(amount: uint32, fee: uint32, spent: nat)
    requires spent < U32_LIMIT && amount + 2 * fee < U32_LIMIT
    ensures fee <= Wrap(spent - amount - fee) <==> spent < amount + fee || amount + 2 * fee <= spent
  {
    var rest := spent - amount - fee;
    if rest < 0 { RoundAdds(rest); } else { WrapFits(rest); }
  }

  lemma RoundAdds(x: int)
    requires -U32_LIMIT <= x < 0
    ensures Wrap(x) == x + U32_LIMIT
  {
  }
}
