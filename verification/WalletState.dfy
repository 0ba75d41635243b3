/** The wallet as a value: spendable coins, coins spent in transactions not yet seen, and coins
    counting confirmations, with the effect of requests, blocks and forks. */
module WalletState {
  import opened Ledger

  /** A coin of the wallet. `pointer` identifies the output object the coin was received with. */
  datatype CoinInfo = CoinInfo(locator: CoinLocator, pointer: nat, output: TransactionOutput)

  datatype Config = Config(id: SecretKey, safeBlockAmount: uint32)

  datatype Wallet =
    Wallet(balance: uint32, collection: set<CoinInfo>, unseen: map<Hash, seq<CoinInfo>>,
           spent: map<CoinInfo, nat>, received: map<CoinInfo, nat>)

  /** A transaction of a block with the output objects it arrived with. */
  datatype BlockTransaction = BlockTransaction(tx: Transaction, pointers: seq<nat>)
  {
    predicate Valid() { |pointers| == |tx.outputs| }

    function Coin(i: nat): CoinInfo
      requires Valid() && i < |tx.outputs|
    {
      CoinInfo(CoinLocator(tx.Hash(), i), pointers[i], tx.outputs[i])
    }
  }

  const EMPTY := Wallet(0, {}, map[], map[], map[])

  ghost function CoinSum(s: set<CoinInfo>): nat
  {
    if s == {} then 0
    else
      var c :| c in s;
      c.output.amount + CoinSum(s - {c})
  }

  lemma {:induction false} CoinSumSplit(s: set<CoinInfo>, c: CoinInfo)
    requires c in s
    ensures CoinSum(s) == c.output.amount + CoinSum(s - {c})
  {
    var d :| d in s && CoinSum(s) == d.output.amount + CoinSum(s - {d});
    if d != c {
      CoinSumSplit(s - {d}, c);
      CoinSumSplit(s - {c}, d);
      assert s - {d} - {c} == s - {c} - {d};
    }
  }

  lemma {:induction false} CoinSumUnion(a: set<CoinInfo>, b: set<CoinInfo>)
    requires a !! b
    ensures CoinSum(a + b) == CoinSum(a) + CoinSum(b)
  {
    if b == {} {
      assert a + b == a;
    } else {
      var c :| c in b;
      var rest := b - {c};
      CoinSumSplit(b, c);
      CoinSumSplit(a + b, c);
      assert a + b - {c} == a + rest;
      CoinSumUnion(a, rest);
    }
  }

  function Amounts(coins: seq<CoinInfo>): nat {
    if coins == [] then 0 else Amounts(coins[..|coins| - 1]) + coins[|coins| - 1].output.amount
  }

  predicate Distinct(coins: seq<CoinInfo>) {
    forall i, j :: 0 <= i < j < |coins| ==> coins[i] != coins[j]
  }

  function SetOf(coins: seq<CoinInfo>): set<CoinInfo> {
    set i | 0 <= i < |coins| :: coins[i]
  }

  lemma SetOfAppended(coins: seq<CoinInfo>, c: CoinInfo)
    ensures SetOf(coins + [c]) == SetOf(coins) + {c}
  {
    forall d | d in SetOf(coins) ensures d in SetOf(coins + [c]) {
      var i :| 0 <= i < |coins| && coins[i] == d;
      assert (coins + [c])[i] == d;
    }
    assert (coins + [c])[|coins|] == c;
  }

  lemma {:induction false} AmountsAreSum(coins: seq<CoinInfo>)
    requires Distinct(coins)
    ensures CoinSum(SetOf(coins)) == Amounts(coins)
  {
    if coins == [] {
      assert SetOf(coins) == {};
    } else {
      var front, last := coins[..|coins| - 1], coins[|coins| - 1];
      AmountsAreSum(front);
      assert SetOf(coins) == SetOf(front) + {last};
      assert last !in SetOf(front);
      CoinSumSplit(SetOf(coins), last);
      assert SetOf(coins) - {last} == SetOf(front);
    }
  }

  // ---- Requests ----

  function InputFor(id: SecretKey, coin: CoinInfo): TransactionInput {
    TransactionInput(coin.locator.referenceTransactionHash, coin.locator.outputIndex, OutputSignature(id, coin.output))
  }

  function InputsFor(id: SecretKey, coins: seq<CoinInfo>): seq<TransactionInput> {
    seq(|coins|, i requires 0 <= i < |coins| => InputFor(id, coins[i]))
  }

  function Change(coins: seq<CoinInfo>, target: uint32): uint32 {
    Wrap(Amounts(coins) - target)
  }

  /** No outputs at all when the recipient's key is empty. */
  function OutputsFor(id: SecretKey, amount: uint32, recipient: PublicKey, change: uint32): seq<TransactionOutput> {
    if recipient == NoKey then []
    else [TransactionOutput(amount, PayTo(recipient))]
         + if change != 0 then [TransactionOutput(change, PayTo(Pub(id)))] else []
  }

  function RequestedTransaction(id: SecretKey, amount: uint32, fee: uint32, recipient: PublicKey,
                                coins: seq<CoinInfo>): Transaction {
    Transaction(false, 0, InputsFor(id, coins), OutputsFor(id, amount, recipient, Change(coins, Wrap(amount + fee))),
        [], 0)
  }

  /** Coins that the selection loop may have picked. */
  predicate Picked(w: Wallet, coins: seq<CoinInfo>) {
    Distinct(coins) && SetOf(coins) <= w.collection
  }

  function Requested(cfg: Config, w: Wallet, amount: uint32, fee: uint32, recipient: PublicKey,
                     coins: seq<CoinInfo>): Wallet {
    if w.balance < Wrap(amount + fee) || coins == [] then w
    else
      var tx := RequestedTransaction(cfg.id, amount, fee, recipient, coins);
      w.(unseen := w.unseen[tx.Hash() := coins], collection := w.collection - SetOf(coins),
         balance := Wrap(w.balance - Wrap(Wrap(amount + fee) + Change(coins, Wrap(amount + fee)))))
  }

  // ---- Blocks ----

  function SeenCoins(w: Wallet, h: Hash): Wallet {
    if h !in w.unseen then w
    else w.(unseen := w.unseen - {h},
            spent := map c | c in w.spent.Keys + SetOf(w.unseen[h])
                       :: if c in SetOf(w.unseen[h]) then 0 else w.spent[c])
  }

  predicate PaysMe(cfg: Config, output: TransactionOutput) {
    output.lockingScript.Script? && output.lockingScript.publicKey == Pub(cfg.id)
  }

  /** The first `n` outputs of the transaction that pay the wallet. */
  function CoinsOf(cfg: Config, bt: BlockTransaction, n: nat): set<CoinInfo>
    requires bt.Valid() && n <= |bt.tx.outputs|
  {
    set i | 0 <= i < n && PaysMe(cfg, bt.tx.outputs[i]) :: bt.Coin(i)
  }

  function ReceiveCoins(w: Wallet, coins: set<CoinInfo>): Wallet {
    w.(received := map c | c in w.received.Keys + coins :: if c in coins then 0 else w.received[c])
  }

  function HandleTransaction(cfg: Config, w: Wallet, bt: BlockTransaction): Wallet
    requires bt.Valid()
  {
    ReceiveCoins(SeenCoins(w, bt.tx.Hash()), CoinsOf(cfg, bt, |bt.tx.outputs|))
  }

  function HandleTransactions(cfg: Config, w: Wallet, bts: seq<BlockTransaction>, n: nat): Wallet
    requires n <= |bts| && forall i :: 0 <= i < |bts| ==> bts[i].Valid()
  {
    if n == 0 then w else HandleTransaction(cfg, HandleTransactions(cfg, w, bts, n - 1), bts[n - 1])
  }

  /** The coins of a pool that have all their confirmations. */
  function Ripe(cfg: Config, pool: map<CoinInfo, nat>): set<CoinInfo> {
    set c | c in pool && pool[c] == cfg.safeBlockAmount
  }

  function Aged(cfg: Config, pool: map<CoinInfo, nat>): map<CoinInfo, nat> {
    map c | c in pool && pool[c] != cfg.safeBlockAmount :: pool[c] + 1
  }

  ghost function Confirmed(cfg: Config, w: Wallet): Wallet {
    var ripe := Ripe(cfg, w.received);
    w.(collection := (w.collection - Ripe(cfg, w.spent)) + ripe, balance := Wrap(w.balance + CoinSum(ripe)),
       spent := Aged(cfg, w.spent), received := Aged(cfg, w.received))
  }

  ghost function HandledBlock(cfg: Config, w: Wallet, bts: seq<BlockTransaction>): Wallet
    requires forall i :: 0 <= i < |bts| ==> bts[i].Valid()
  {
    Confirmed(cfg, HandleTransactions(cfg, w, bts, |bts|))
  }

  // ---- Forks ----

  /** The confirmation counter of a spent coin; a missing one reads as zero. */
  function Confirmations(w: Wallet, c: CoinInfo): nat {
    if c in w.spent then w.spent[c] else 0
  }

  /** Inputs of a reverted transaction, up to `n`: spent coins short of their confirmations go
      back to a list of unseen coins. */
  function RevertInputs(cfg: Config, w: Wallet, txis: map<CoinLocator, CoinInfo>, tx: Transaction,
                        n: nat): (Wallet, seq<CoinInfo>)
    requires n <= |tx.inputs|
  {
    if n == 0 then (w, [])
    else
      var (v, cis) := RevertInputs(cfg, w, txis, tx, n - 1);
      var cl := LocatorOf(tx.inputs[n - 1]);
      if cl in txis && Confirmations(v, txis[cl]) < cfg.safeBlockAmount
      then (v.(spent := v.spent - {txis[cl]}), cis + [txis[cl]])
      else (v, cis)
  }

  /** Received coins short of their confirmations whose output object is the given one go. */
  function RemoveUnconfirmed(cfg: Config, w: Wallet, pointer: nat): Wallet {
    w.(received := map c | c in w.received && !(c.pointer == pointer && w.received[c] < cfg.safeBlockAmount)
                     :: w.received[c])
  }

  function RevertOutputs(cfg: Config, w: Wallet, bt: BlockTransaction, n: nat): Wallet
    requires bt.Valid() && n <= |bt.tx.outputs|
  {
    if n == 0 then w
    else
      var v := RevertOutputs(cfg, w, bt, n - 1);
      if PaysMe(cfg, bt.tx.outputs[n - 1]) then RemoveUnconfirmed(cfg, v, bt.pointers[n - 1]) else v
  }

  function RevertTransaction(cfg: Config, w: Wallet, txis: map<CoinLocator, CoinInfo>, bt: BlockTransaction): Wallet
    requires bt.Valid()
  {
    var (v, cis) := RevertInputs(cfg, w, txis, bt.tx, |bt.tx.inputs|);
    RevertOutputs(cfg, if cis == [] then v else v.(unseen := v.unseen[bt.tx.Hash() := cis]), bt, |bt.tx.outputs|)
  }

  function RevertTransactions(cfg: Config, w: Wallet, txis: map<CoinLocator, CoinInfo>, bts: seq<BlockTransaction>,
                              n: nat): Wallet
    requires n <= |bts| && forall i :: 0 <= i < |bts| ==> bts[i].Valid()
  {
    if n == 0 then w else RevertTransaction(cfg, RevertTransactions(cfg, w, txis, bts, n - 1), txis, bts[n - 1])
  }

  /** Spent coins by locator. */
  ghost predicate Indexes(w: Wallet, txis: map<CoinLocator, CoinInfo>) {
    && (forall c :: c in w.spent ==> c.locator in txis)
    && (forall cl :: cl in txis ==> txis[cl] in w.spent && txis[cl].locator == cl)
  }
}
