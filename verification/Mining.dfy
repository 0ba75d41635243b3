/** Fees, the minting reward and the coinbase, and what a mined block does to the total value
    of the ledger. */
module Mining {
  import opened Arithmetic
  import opened Ledger
  import opened UtxoLedger
  import opened CoinState
  import opened CoinStore
  import opened CoinUndo
  import opened BlockChain

  datatype Config = Config(initialSubsidy: uint32, subsidyHalvingRate: uint32, maxHalvings: uint32)

  function Pow2(n: nat): nat {
    if n == 0 then 1 else 2 * Pow2(n - 1)
  }

  lemma {:induction false} Pow2Grows(n: nat)
    ensures 1 <= Pow2(n)
  {
    if n > 0 { Pow2Grows(n - 1); }
  }

  lemma {:induction false} Pow2Monotone(m: nat, n: nat)
    requires m <= n
    ensures Pow2(m) <= Pow2(n)
  {
    if m < n { Pow2Monotone(m, n - 1); }
  }

  lemma TwoTo31()
    ensures Pow2(31) == 0x8000_0000
  {
    assert Pow2(8) == 256;
    assert Pow2(16) == 256 * Pow2(8);
    assert Pow2(24) == 256 * Pow2(16);
    assert Pow2(31) == 128 * Pow2(24);
  }

  /** Before the cutoff there have been fewer halvings than the maximum. */
  lemma HalvingsAreFew(c: Config, chainLength: uint32)
    requires c.maxHalvings <= 32 && chainLength < Cutoff(c)
    ensures c.subsidyHalvingRate > 0 && Quotient(chainLength, c.subsidyHalvingRate) < 32
    ensures Pow2(Quotient(chainLength, c.subsidyHalvingRate)) < U32_LIMIT
  {
    TimesIsProduct(c.subsidyHalvingRate, c.maxHalvings);
    ProductBounds(c, chainLength);
    var rate: nat := c.subsidyHalvingRate;
    var q := Quotient(chainLength, rate);
    QuotientBounds(chainLength, rate);
    if q >= 32 { Multiply(32, q, rate); }
    Pow2Monotone(q, 31);
    TwoTo31();
  }

  lemma ProductBounds(c: Config, chainLength: uint32)
    requires c.maxHalvings <= 32 && chainLength < Wrap(c.subsidyHalvingRate * c.maxHalvings)
    ensures 0 < c.subsidyHalvingRate && chainLength < 32 * c.subsidyHalvingRate
  {
    Multiply(c.maxHalvings, 32, c.subsidyHalvingRate);
  }

  /** The subsidy after a number of halvings. */
  function Halved(c: Config, halvings: nat): nat {
    Pow2Grows(halvings);
    Quotient(c.initialSubsidy, Pow2(halvings))
  }

  /** The chain length from which nothing is minted; the product wraps around. */
  function Cutoff(c: Config): uint32 {
    Wrap(Times(c.subsidyHalvingRate, c.maxHalvings))
  }

  function MintingReward(c: Config, chainLength: uint32): nat {
    if chainLength >= Cutoff(c) || c.subsidyHalvingRate == 0 then 0
    else Halved(c, Quotient(chainLength, c.subsidyHalvingRate))
  }

  lemma {:induction false} HalfTheQuotient(x: nat, d: nat)
    requires d > 0
    ensures var half := Quotient(x, 2 * d); 2 * half <= Quotient(x, d) <= 2 * half + 1
  {
    if x >= 2 * d { HalfTheQuotient(x - 2 * d, d); }
  }

  /** The whole subsidy in the first era, half of it, rounded down, from each era to the next, and
      nothing from the cutoff on. */
  lemma RewardByEras(c: Config, chainLength: uint32)
    ensures Cutoff(c) == Wrap(c.subsidyHalvingRate * c.maxHalvings)
    ensures chainLength >= Cutoff(c) ==> MintingReward(c, chainLength) == 0
    ensures chainLength < c.subsidyHalvingRate && chainLength < Cutoff(c) ==>
      MintingReward(c, chainLength) == c.initialSubsidy
    ensures c.subsidyHalvingRate > 0 && chainLength + c.subsidyHalvingRate < Cutoff(c) ==>
      MintingReward(c, chainLength + c.subsidyHalvingRate) == MintingReward(c, chainLength) / 2
  {
    TimesIsProduct(c.subsidyHalvingRate, c.maxHalvings);
    if c.subsidyHalvingRate > 0 && chainLength + c.subsidyHalvingRate < Cutoff(c) {
      var q := Quotient(chainLength, c.subsidyHalvingRate);
      Pow2Grows(q);
      HalfTheQuotient(c.initialSubsidy, Pow2(q));
      assert Quotient(chainLength + c.subsidyHalvingRate, c.subsidyHalvingRate) == q + 1;
    }
    if chainLength < c.subsidyHalvingRate { QuotientByOne(c.initialSubsidy); }
  }

  lemma {:induction false} QuotientByOne(x: nat)
    ensures Quotient(x, 1) == x
  {
    if x > 0 { QuotientByOne(x - 1); }
  }

  /** The reward with whatever 32-bit divisor a power of two too large for 32 bits turns into. */
  function RewardOn(c: Config, chainLength: uint32, overflow: uint32): Option<uint32> {
    if chainLength >= Cutoff(c) || c.subsidyHalvingRate == 0 then Some(0)
    else
      var power := Pow2(Quotient(chainLength, c.subsidyHalvingRate));
      var divisor := if power < U32_LIMIT then power else overflow;
      if divisor == 0 then None
      else
        QuotientAtMost(c.initialSubsidy, divisor);
        Some(Quotient(c.initialSubsidy, divisor))
  }

  /** With at most 32 halvings the power of two always fits. */
  lemma RewardWithin32(c: Config, chainLength: uint32, overflow: uint32)
    ensures c.maxHalvings <= 32 ==> RewardOn(c, chainLength, overflow) == Some(MintingReward(c, chainLength))
  {
    if c.maxHalvings <= 32 && chainLength < Cutoff(c) {
      HalvingsAreFew(c, chainLength);
      Pow2Grows(Quotient(chainLength, c.subsidyHalvingRate));
    }
  }

  lemma RateIsPositive(c: Config, chainLength: uint32)
    requires chainLength < Wrap(c.subsidyHalvingRate * c.maxHalvings)
    ensures c.subsidyHalvingRate > 0
  {
  }

  function OutputSum(tx: Transaction, n: nat): nat
    requires n <= |tx.outputs|
  {
    if n == 0 then 0 else OutputSum(tx, n - 1) + tx.outputs[n - 1].amount
  }

  function OutputTotal(txs: seq<Transaction>): nat
  {
    if txs == [] then 0
    else OutputTotal(txs[..|txs| - 1]) + OutputSum(txs[|txs| - 1], |txs[|txs| - 1].outputs|)
  }

  function InputTotal(s: State, txs: seq<Transaction>): nat
  {
    if txs == [] then 0
    else InputTotal(s, txs[..|txs| - 1]) + InputSum(s, txs[|txs| - 1], |txs[|txs| - 1].inputs|)
  }

  function Sum(xs: seq<uint32>): nat
  {
    if xs == [] then 0 else Sum(xs[..|xs| - 1]) + xs[|xs| - 1]
  }

  function Fees(inSum: uint32, outSum: uint32): uint32 {
    if inSum > outSum then inSum - outSum else 0
  }

  /** A request for input sums that times out reads as a single zero. */
  function SumsIn(reply: Option<seq<uint32>>): seq<uint32> {
    if reply.Some? then reply.value else [0]
  }

  function FeesFor(txs: seq<Transaction>, reply: Option<seq<uint32>>): uint32 {
    Fees(Wrap(Sum(SumsIn(reply))), Wrap(OutputTotal(txs)))
  }

  function CoinbaseFor(c: Config, chainLength: uint32, miner: SecretKey, txs: seq<Transaction>,
                       reply: Option<seq<uint32>>): Transaction {
    Coinbase(Wrap(FeesFor(txs, reply) + MintingReward(c, chainLength)), miner)
  }

  function Coinbase(amount: uint32, miner: SecretKey): Transaction {
    Transaction(false, 0, [], [TransactionOutput(amount, RawBytes(Pub(miner)))], [], 0)
  }

  method SumOutputs(tx: Transaction) returns (r: uint32)
    ensures r == Wrap(OutputSum(tx, |tx.outputs|))
  {
    r := 0;
    for i := 0 to |tx.outputs|
      invariant r == Wrap(OutputSum(tx, i))
    {
      r := Wrap(r + tx.outputs[i].amount);
    }
  }

  method Halve(subsidy: uint32, divisor: uint32) returns (reward: uint32)
    requires divisor > 0
    ensures reward == Quotient(subsidy, divisor)
  {
    QuotientIsDivision(subsidy, divisor);
    QuotientAtMost(subsidy, divisor);
    var r: int := subsidy / divisor;
    reward := r;
  }

  class Miner {
    const config: Config
    const id: SecretKey
    var chainLength: uint32

    constructor (config: Config, id: SecretKey)
      ensures this.config == config && this.id == id && chainLength == 1
    {
      this.config, this.id, chainLength := config, id, 1;
    }

    method IncrementChainLength()
      modifies this
      ensures chainLength == Wrap(old(chainLength) + 1)
    {
      chainLength := Wrap(chainLength + 1);
    }

    /** `reply` is the node's answer with the input sums, or `None` after a time-out. */
    method CalculateFees(txs: seq<Transaction>, reply: Option<seq<uint32>>) returns (fees: uint32)
      ensures fees == FeesFor(txs, reply)
      ensures reply.None? ==> fees == 0
      ensures reply.Some? && Wrap(Sum(reply.value)) <= Wrap(OutputTotal(txs)) ==> fees == 0
      ensures reply.Some? && Wrap(Sum(reply.value)) > Wrap(OutputTotal(txs)) ==>
        fees == Wrap(Sum(reply.value)) - Wrap(OutputTotal(txs))
    {
      var sums := SumsIn(reply);
      var inSum: uint32 := 0;
      for i := 0 to |sums|
        invariant inSum == Wrap(Sum(sums[..i]))
      {
        assert sums[..i + 1][..i] == sums[..i];
        inSum := Wrap(inSum + sums[i]);
      }
      assert sums[..|sums|] == sums;
      var outSum: uint32 := 0;
      for i := 0 to |txs|
        invariant outSum == Wrap(OutputTotal(txs[..i]))
      {
        assert txs[..i + 1][..i] == txs[..i];
        var r := SumOutputs(txs[i]);
        WrapAdds(OutputTotal(txs[..i]), OutputSum(txs[i], |txs[i].outputs|));
        outSum := Wrap(outSum + r);
      }
      assert txs[..|txs|] == txs;
      fees := Fees(inSum, outSum);
    }

    /** `overflow` is what the platform makes of a power of two too large for 32 bits; `None` is the
        panic of a division by zero. */
    method CalculateMintingReward(overflow: uint32) returns (reward: Option<uint32>)
      ensures reward == RewardOn(config, chainLength, overflow)
      ensures config.maxHalvings <= 32 ==> reward == Some(MintingReward(config, chainLength))
    {
      RewardWithin32(config, chainLength, overflow);
      TimesIsProduct(config.subsidyHalvingRate, config.maxHalvings);
      if chainLength >= Wrap(config.subsidyHalvingRate * config.maxHalvings) {
        return Some(0);
      }
      RateIsPositive(config, chainLength);
      QuotientIsDivision(chainLength, config.subsidyHalvingRate);
      var halvings := chainLength / config.subsidyHalvingRate;
      Pow2Grows(halvings);
      var divisor: uint32 := if Pow2(halvings) < U32_LIMIT then Pow2(halvings) else overflow;
      if divisor == 0 {
        return None;
      }
      var r := Halve(config.initialSubsidy, divisor);
      reward := Some(r);
    }

    method GenerateCoinbaseTransaction(txs: seq<Transaction>, reply: Option<seq<uint32>>, overflow: uint32)
      returns (tx: Option<Transaction>)
      ensures tx.None? <==> RewardOn(config, chainLength, overflow).None?
      ensures tx.Some? ==>
        tx.value == Coinbase(Wrap(FeesFor(txs, reply) + RewardOn(config, chainLength, overflow).value), id)
      ensures config.maxHalvings <= 32 ==> tx == Some(CoinbaseFor(config, chainLength, id, txs, reply))
      ensures tx.Some? ==> tx.value.inputs == [] && |tx.value.outputs| == 1 && tx.value.witnesses == []
      ensures tx.Some? ==> !tx.value.segwit && tx.value.version == 0 && tx.value.lockTime == 0
      ensures tx.Some? ==> tx.value.outputs[0].lockingScript == RawBytes(Pub(id))
    {
      var feeRwd: int := CalculateFees(txs, reply);
      var mntRwd := CalculateMintingReward(overflow);
      if mntRwd.None? {
        return None;
      }
      tx := Some(Coinbase(Wrap(feeRwd + mntRwd.value), id));
    }
  }

  // ---- Conservation ----

  predicate NoRepeats<T(==)>(s: seq<T>) {
    forall i, j :: 0 <= i < j < |s| ==> s[i] != s[j]
  }

  ghost function ValueOf(u: Utxo, ls: seq<CoinLocator>): nat
    requires forall k :: 0 <= k < |ls| ==> ls[k] in u
  {
    if ls == [] then 0 else ValueOf(u, ls[..|ls| - 1]) + u[ls[|ls| - 1]].amount
  }

  lemma {:induction false} SpentTotal(u: Utxo, ls: seq<CoinLocator>, spent: set<CoinLocator>)
    requires (forall k :: 0 <= k < |ls| ==> ls[k] in u) && NoRepeats(ls)
    requires forall cl :: cl in spent <==> cl in ls
    ensures Total(Restrict(u, spent)) == ValueOf(u, ls)
  {
    var r := Restrict(u, spent);
    if ls == [] {
      assert r == map[];
    } else {
      var front, last := ls[..|ls| - 1], ls[|ls| - 1];
      LastIsNew(ls);
      SpentTotal(u, front, spent - {last});
      TotalSplit(r, last);
      assert r - {last} == Restrict(u, spent - {last});
    }
  }

  lemma LastIsNew(ls: seq<CoinLocator>)
    requires ls != [] && NoRepeats(ls)
    ensures var front, last := ls[..|ls| - 1], ls[|ls| - 1];
      NoRepeats(front) && last !in front && forall cl :: cl in ls <==> cl in front || cl == last
  {
    assert ls == ls[..|ls| - 1] + [ls[|ls| - 1]];
  }

  lemma {:induction false} ValueOfConcat(u: Utxo, a: seq<CoinLocator>, b: seq<CoinLocator>)
    requires forall k :: 0 <= k < |a| ==> a[k] in u
    requires forall k :: 0 <= k < |b| ==> b[k] in u
    ensures forall k :: 0 <= k < |a + b| ==> (a + b)[k] in u
    ensures ValueOf(u, a + b) == ValueOf(u, a) + ValueOf(u, b)
  {
    if b == [] {
      assert a + b == a;
    } else {
      ValueOfConcat(u, a, b[..|b| - 1]);
      assert (a + b)[..|a + b| - 1] == a + b[..|b| - 1];
    }
  }

  /** The coins of `u` are found in the state. */
  ghost predicate Holds(s: State, u: Utxo) {
    forall cl :: cl in u ==> Lookup(s, cl) == Some(u[cl])
  }

  lemma {:induction false} OneInputValue(s: State, u: Utxo, tx: Transaction, n: nat)
    requires Holds(s, u) && n <= |tx.inputs| && forall i :: 0 <= i < n ==> InputsOfOne(tx)[i] in u
    ensures InputSum(s, tx, n) == ValueOf(u, InputsOfOne(tx)[..n])
  {
    if n > 0 {
      OneInputValue(s, u, tx, n - 1);
      assert InputsOfOne(tx)[..n][..n - 1] == InputsOfOne(tx)[..n - 1];
      assert InputsOfOne(tx)[n - 1] in u;
    }
  }

  /** Inputs whose coins are not known count nothing. */
  lemma {:induction false} UnknownCountNothing(s: State, tx: Transaction, n: nat)
    requires n <= |tx.inputs|
    requires forall i :: 0 <= i < n ==> LocatorOf(tx.inputs[i]) !in s.cache && Lookup(s, LocatorOf(tx.inputs[i])).None?
    ensures InputSum(s, tx, n) == 0
  {
    if n > 0 { UnknownCountNothing(s, tx, n - 1); }
  }

  /** The node's input sums add up to the value of the spent coins. */
  lemma {:induction false} InputValue(s: State, u: Utxo, txs: seq<Transaction>)
    requires Holds(s, u) && forall k :: 0 <= k < |InputsOf(txs)| ==> InputsOf(txs)[k] in u
    ensures InputTotal(s, txs) == ValueOf(u, InputsOf(txs))
  {
    if txs != [] {
      var front, tx := txs[..|txs| - 1], txs[|txs| - 1];
      assert InputsOf(txs) == InputsOf(front) + InputsOfOne(tx);
      PartsKnown(u, InputsOf(front), InputsOfOne(tx));
      InputValue(s, u, front);
      OneInputValue(s, u, tx, |tx.inputs|);
      assert InputsOfOne(tx)[..|tx.inputs|] == InputsOfOne(tx);
      ValueOfConcat(u, InputsOf(front), InputsOfOne(tx));
    }
  }

  lemma PartsKnown(u: Utxo, a: seq<CoinLocator>, b: seq<CoinLocator>)
    requires forall k :: 0 <= k < |a + b| ==> (a + b)[k] in u
    ensures forall k :: 0 <= k < |a| ==> a[k] in u
    ensures forall k :: 0 <= k < |b| ==> b[k] in u
  {
    forall k | 0 <= k < |a| ensures a[k] in u { assert (a + b)[k] == a[k]; }
    forall k | 0 <= k < |b| ensures b[k] in u { assert (a + b)[|a| + k] == b[k]; }
  }

  function OutputsMap(tx: Transaction, n: nat): Utxo
    requires n <= |tx.outputs|
  {
    if n == 0 then map[] else OutputsMap(tx, n - 1)[CoinLocator(tx.Hash(), n - 1) := tx.outputs[n - 1]]
  }

  lemma {:induction false} OutputsMapAt(tx: Transaction, n: nat, cl: CoinLocator)
    requires n <= |tx.outputs|
    ensures cl in OutputsMap(tx, n) <==> cl.referenceTransactionHash == tx.Hash() && cl.outputIndex < n
    ensures cl in OutputsMap(tx, n) ==> OutputsMap(tx, n)[cl] == tx.outputs[cl.outputIndex]
  {
    if n > 0 { OutputsMapAt(tx, n - 1, cl); }
  }

  lemma {:induction false} OutputsMapTotal(tx: Transaction, n: nat)
    requires n <= |tx.outputs|
    ensures Total(OutputsMap(tx, n)) == OutputSum(tx, n)
  {
    if n > 0 {
      OutputsMapTotal(tx, n - 1);
      var cl := CoinLocator(tx.Hash(), n - 1);
      TotalSplit(OutputsMap(tx, n), cl);
      OutputsMapAt(tx, n - 1, cl);
      assert OutputsMap(tx, n) - {cl} == OutputsMap(tx, n - 1);
    }
  }

  lemma {:induction false} CreatedTotal(txs: seq<Transaction>)
    requires NoRepeats(HashList(txs))
    ensures Total(Created(txs)) == OutputTotal(txs)
  {
    var n := |txs|;
    if n == 0 {
      assert Created(txs) == map[];
    } else {
      var front, tx := txs[..n - 1], txs[n - 1];
      assert HashList(front) == HashList(txs)[..n - 1];
      CreatedTotal(front);
      OutputsMapTotal(tx, |tx.outputs|);
      CreatedGrows(txs);
      forall cl | cl in Created(front) ensures cl !in OutputsMap(tx, |tx.outputs|) { CreatedApart(txs, cl); }
      TotalUnion(Created(front), OutputsMap(tx, |tx.outputs|));
    }
  }

  lemma CreatedApart(txs: seq<Transaction>, cl: CoinLocator)
    requires txs != [] && NoRepeats(HashList(txs)) && cl in Created(txs[..|txs| - 1])
    ensures cl !in OutputsMap(txs[|txs| - 1], |txs[|txs| - 1].outputs|)
  {
    var n, front, tx := |txs|, txs[..|txs| - 1], txs[|txs| - 1];
    MadeIsCreated(front, cl);
    OutputsMapAt(tx, |tx.outputs|, cl);
    var t :| 0 <= t < |front| && front[t].Hash() == cl.referenceTransactionHash;
    assert HashList(txs)[t] != HashList(txs)[n - 1];
  }

  lemma CreatedGrowsAt(txs: seq<Transaction>, cl: CoinLocator)
    requires txs != []
    ensures var front, last := Created(txs[..|txs| - 1]), OutputsMap(txs[|txs| - 1], |txs[|txs| - 1].outputs|);
      && (cl in Created(txs) <==> cl in front + last)
      && (cl in Created(txs) ==> Created(txs)[cl] == (front + last)[cl])
  {
    var n, tx := |txs|, txs[|txs| - 1];
    assert txs[..n] == txs;
    HashesGrow(txs, n);
    OutputsMapAt(tx, |tx.outputs|, cl);
    MadeIsCreated(txs, cl);
    MadeIsCreated(txs[..n - 1], cl);
  }

  lemma CreatedGrows(txs: seq<Transaction>)
    requires txs != []
    ensures Created(txs) == Created(txs[..|txs| - 1]) + OutputsMap(txs[|txs| - 1], |txs[|txs| - 1].outputs|)
  {
    var front, last := Created(txs[..|txs| - 1]), OutputsMap(txs[|txs| - 1], |txs[|txs| - 1].outputs|);
    forall cl
      ensures cl in Created(txs) <==> cl in front + last
      ensures cl in Created(txs) ==> Created(txs)[cl] == (front + last)[cl]
    {
      CreatedGrowsAt(txs, cl);
    }
  }

  lemma MadeIsCreated(txs: seq<Transaction>, cl: CoinLocator)
    ensures cl in Created(txs) <==> Makes(HashesOf(txs), cl)
    ensures cl in Created(txs) ==> Names(cl, Created(txs)[cl])
  {
    CreatedIsMade(txs);
  }

  /** What the miner's node and pool guarantee about a block it mines. */
  ghost predicate Minable(s: State, c: Config, chainLength: uint32, pool: seq<Transaction>, block: seq<Transaction>) {
    && c.maxHalvings <= 32
    && Accepts(LedgerOf(s), pool) && NoRepeats(InputsOf(pool))
    && NoRepeats(HashList(block))
    && OutputTotal(pool) <= InputTotal(s, pool)
    && InputTotal(s, pool) + MintingReward(c, chainLength) < U32_LIMIT
  }

  /** The block a miner builds from a pool once the node has answered with the input sums. */
  function MinedBlock(s: State, c: Config, chainLength: uint32, miner: SecretKey,
                      pool: seq<Transaction>): seq<Transaction> {
    var fees := Fees(Wrap(InputTotal(s, pool)), Wrap(OutputTotal(pool)));
    [Coinbase(Wrap(fees + MintingReward(c, chainLength)), miner)] + pool
  }

  /** The coinbase a miner generates with the node's input sums is the one of the mined block. */
  lemma CoinbaseIsMined(s: State, c: Config, chainLength: uint32, miner: SecretKey, pool: seq<Transaction>,
                        sums: seq<uint32>)
    requires |sums| == |pool|
    requires forall t :: 0 <= t < |pool| ==> sums[t] == Wrap(InputSum(s, pool[t], |pool[t].inputs|))
    ensures [CoinbaseFor(c, chainLength, miner, pool, Some(sums))] + pool == MinedBlock(s, c, chainLength, miner, pool)
  {
    SumsAddUp(s, pool, sums);
  }

  lemma WrapsAgree(a: nat, b: nat, x: uint32, y: nat)
    requires Wrap(a) == Wrap(b) && x == Wrap(y)
    ensures Wrap(a + x) == Wrap(b + y)
  {
    WrapAdds(a, x);
    WrapAdds(b, y);
  }

  lemma {:induction false} SumsAddUp(s: State, txs: seq<Transaction>, sums: seq<uint32>)
    requires |sums| == |txs|
    requires forall t :: 0 <= t < |txs| ==> sums[t] == Wrap(InputSum(s, txs[t], |txs[t].inputs|))
    ensures Wrap(Sum(sums)) == Wrap(InputTotal(s, txs))
  {
    if txs != [] {
      var n := |txs| - 1;
      SumsAddUp(s, txs[..n], sums[..n]);
      WrapsAgree(Sum(sums[..n]), InputTotal(s, txs[..n]), sums[n], InputSum(s, txs[n], |txs[n].inputs|));
    }
  }

  lemma {:induction false} OutputTotalConcat(a: seq<Transaction>, b: seq<Transaction>)
    ensures OutputTotal(a + b) == OutputTotal(a) + OutputTotal(b)
  {
    if b == [] {
      assert a + b == a;
    } else {
      OutputTotalConcat(a, b[..|b| - 1]);
      assert (a + b)[..|a + b| - 1] == a + b[..|b| - 1];
    }
  }

  lemma CoinbaseSpendsNothing(cb: Transaction, pool: seq<Transaction>)
    requires cb.inputs == []
    ensures Spent([cb] + pool) == Spent(pool)
  {
    var block := [cb] + pool;
    forall cl ensures cl in Spent(block) <==> cl in Spent(pool) {
      if cl in Spent(block) {
        var t, i :| 0 <= t < |block| && 0 <= i < |block[t].inputs| && cl == LocatorOf(block[t].inputs[i]);
        assert pool[t - 1] == block[t];
      }
      if cl in Spent(pool) {
        var t, i :| 0 <= t < |pool| && 0 <= i < |pool[t].inputs| && cl == LocatorOf(pool[t].inputs[i]);
        assert block[t + 1] == pool[t];
      }
    }
  }

  /** The value of unspent coins that storing the block overwrites: a block can repeat the hash
      of an earlier transaction, as two equal coinbases do. */
  ghost function Lost(u: Utxo, block: seq<Transaction>): nat {
    Total(Overwritten(u, Spent(block), Created(block)))
  }

  /** Storing a block whose inputs are distinct coins of the ledger adds its outputs to the
      total and takes its inputs and what it overwrites away. */
  lemma BlockTotals(s: State, u: Utxo, pool: seq<Transaction>, block: seq<Transaction>)
    requires Holds(s, u) && Accepts(u, pool) && NoRepeats(InputsOf(pool)) && Spent(block) == Spent(pool)
    requires NoRepeats(HashList(block))
    ensures Total(Apply(u, block)) + InputTotal(s, pool) + Lost(u, block) == Total(u) + OutputTotal(block)
  {
    ApplyTotal(u, block);
    PoolTotal(s, u, pool);
    CreatedTotal(block);
  }

  lemma PoolTotal(s: State, u: Utxo, pool: seq<Transaction>)
    requires Holds(s, u) && Accepts(u, pool) && NoRepeats(InputsOf(pool))
    ensures Total(Restrict(u, Spent(pool))) == InputTotal(s, pool)
  {
    InputsAreSpent(pool);
    forall k | 0 <= k < |InputsOf(pool)| ensures InputsOf(pool)[k] in u { assert InputsOf(pool)[k] in Spent(pool); }
    SpentTotal(u, InputsOf(pool), Spent(pool));
    InputValue(s, u, pool);
  }

  /** Storing a mined block raises the total value by the minting reward, less the value of
      the coins it overwrites: by exactly the reward if and only if it overwrites no value. */
  lemma MinedBlockMints(s: State, c: Config, chainLength: uint32, miner: SecretKey, pool: seq<Transaction>)
    requires Inv(s) && Minable(s, c, chainLength, pool, MinedBlock(s, c, chainLength, miner, pool))
    ensures var t := Stored(s, MinedBlock(s, c, chainLength, miner, pool));
      Inv(t) && Total(LedgerOf(t)) + Lost(LedgerOf(s), MinedBlock(s, c, chainLength, miner, pool))
             == Total(LedgerOf(s)) + MintingReward(c, chainLength)
  {
    MinedBlockSpendsPool(s, c, chainLength, miner, pool);
    StoredTotal(s, LedgerOf(s), MinedBlock(s, c, chainLength, miner, pool));
    MinedBlockTotal(s, c, chainLength, miner, pool);
  }

  lemma MinedBlockSpendsPool(s: State, c: Config, chainLength: uint32, miner: SecretKey, pool: seq<Transaction>)
    ensures Spent(MinedBlock(s, c, chainLength, miner, pool)) == Spent(pool)
  {
    CoinbaseSpendsNothing(MinedBlock(s, c, chainLength, miner, pool)[0], pool);
  }

  lemma MinedBlockTotal(s: State, c: Config, chainLength: uint32, miner: SecretKey, pool: seq<Transaction>)
    requires Minable(s, c, chainLength, pool, MinedBlock(s, c, chainLength, miner, pool))
    ensures var block := MinedBlock(s, c, chainLength, miner, pool);
      Total(Apply(LedgerOf(s), block)) + Lost(LedgerOf(s), block) == Total(LedgerOf(s)) + MintingReward(c, chainLength)
  {
    var block := MinedBlock(s, c, chainLength, miner, pool);
    MinedBlockSpendsPool(s, c, chainLength, miner, pool);
    HoldsLedger(s);
    BlockTotals(s, LedgerOf(s), pool, block);
    MinedBlockOutputs(s, c, chainLength, miner, pool);
  }

  lemma MinedBlockOutputs(s: State, c: Config, chainLength: uint32, miner: SecretKey, pool: seq<Transaction>)
    requires OutputTotal(pool) <= InputTotal(s, pool) && InputTotal(s, pool) + MintingReward(c, chainLength) < U32_LIMIT
    ensures OutputTotal(MinedBlock(s, c, chainLength, miner, pool)) ==
      InputTotal(s, pool) + MintingReward(c, chainLength)
  {
    var cb := MinedBlock(s, c, chainLength, miner, pool)[0];
    OutputTotalConcat([cb], pool);
    CoinbaseOutput(cb);
    FeesAreExact(InputTotal(s, pool), OutputTotal(pool), MintingReward(c, chainLength));
  }

  /** With new coins only, storing a mined block raises the total by exactly the minting reward. */
  lemma FreshBlockMints(s: State, c: Config, chainLength: uint32, miner: SecretKey, pool: seq<Transaction>)
    requires Inv(s) && Minable(s, c, chainLength, pool, MinedBlock(s, c, chainLength, miner, pool))
    requires Fresh(LedgerOf(s), MinedBlock(s, c, chainLength, miner, pool))
    ensures Total(LedgerOf(Stored(s, MinedBlock(s, c, chainLength, miner, pool)))) ==
      Total(LedgerOf(s)) + MintingReward(c, chainLength)
  {
    MinedBlockMints(s, c, chainLength, miner, pool);
    FreshLosesNothing(LedgerOf(s), MinedBlock(s, c, chainLength, miner, pool));
  }

  lemma FreshLosesNothing(u: Utxo, block: seq<Transaction>)
    requires Fresh(u, block)
    ensures Lost(u, block) == 0
  {
    assert Overwritten(u, Spent(block), Created(block)) == map[];
  }

  lemma StoredTotal(s: State, u: Utxo, block: seq<Transaction>)
    requires Inv(s) && u == LedgerOf(s) && Accepts(u, block)
    ensures Inv(Stored(s, block)) && Total(LedgerOf(Stored(s, block))) == Total(Apply(u, block))
  {
    StoreRefinesApply(s, block);
  }

  lemma HoldsLedger(s: State)
    ensures Holds(s, LedgerOf(s))
  {
    LedgerIsLookup(s);
  }

  lemma FeesAreExact(inputs: nat, outputs: nat, reward: nat)
    requires outputs <= inputs && inputs + reward < U32_LIMIT
    ensures Wrap(Fees(Wrap(inputs), Wrap(outputs)) + reward) == inputs - outputs + reward
  {
  }

  lemma CoinbaseOutput(cb: Transaction)
    requires |cb.outputs| == 1
    ensures OutputTotal([cb]) == cb.outputs[0].amount
  {
    assert OutputTotal([cb][..0]) == 0;
    assert OutputSum(cb, 1) == OutputSum(cb, 0) + cb.outputs[0].amount;
  }
}
