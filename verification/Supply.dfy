/** The supply over whole runs of mined blocks: what a run mints, the bound of one era sum for
    every round of the 32-bit chain length, and a run that mints more once the length has
    wrapped around. */
module Supply {
  import opened Ledger
  import opened UtxoLedger
  import opened CoinState
  import opened CoinStore
  import opened CoinUndo
  import opened BlockChain
  import opened Arithmetic
  import opened Mining

  // ---- Runs ----

  /** The state after mining one block per pool, starting at a chain length. */
  function MinedRun(s: State, c: Config, chainLength: uint32, miner: SecretKey, pools: seq<seq<Transaction>>): State
    decreases |pools|
  {
    if pools == [] then s
    else
      var t := Stored(s, MinedBlock(s, c, chainLength, miner, pools[0]));
      MinedRun(t, c, Wrap(chainLength + 1), miner, pools[1..])
  }

  ghost predicate MinableRun(s: State, c: Config, chainLength: uint32, miner: SecretKey, pools: seq<seq<Transaction>>)
    decreases |pools|
  {
    pools == [] ||
    (var block := MinedBlock(s, c, chainLength, miner, pools[0]);
     Minable(s, c, chainLength, pools[0], block)
     && MinableRun(Stored(s, block), c, Wrap(chainLength + 1), miner, pools[1..]))
  }

  /** The rewards of `n` blocks from a chain length on, which wraps around. */
  function Rewards(reward: uint32 -> nat, chainLength: uint32, n: nat): nat
    decreases n, reward(0)
  {
    if n == 0 then 0 else reward(chainLength) + Rewards(reward, Wrap(chainLength + 1), n - 1)
  }

  function RewardAt(c: Config): uint32 -> nat {
    (chainLength: uint32) => MintingReward(c, chainLength)
  }

  function Minted(c: Config, chainLength: uint32, n: nat): nat {
    Rewards(RewardAt(c), chainLength, n)
  }

  /** The value the blocks of the run overwrite; nothing, when their hashes are fresh. */
  ghost function LostInRun(s: State, c: Config, chainLength: uint32, miner: SecretKey,
                           pools: seq<seq<Transaction>>): nat
    decreases |pools|
  {
    if pools == [] then 0
    else
      var block := MinedBlock(s, c, chainLength, miner, pools[0]);
      Lost(LedgerOf(s), block) + LostInRun(Stored(s, block), c, Wrap(chainLength + 1), miner, pools[1..])
  }

  /** A run of mined blocks raises the total value by exactly its minting rewards, less what it
      overwrites. */
  lemma {:induction false} RunMintsRewards(s: State, c: Config, chainLength: uint32, miner: SecretKey,
                                           pools: seq<seq<Transaction>>)
    requires Inv(s) && MinableRun(s, c, chainLength, miner, pools)
    ensures Total(LedgerOf(MinedRun(s, c, chainLength, miner, pools))) + LostInRun(s, c, chainLength, miner, pools)
         == Total(LedgerOf(s)) + Minted(c, chainLength, |pools|)
    decreases |pools|
  {
    if pools != [] {
      var t := Stored(s, MinedBlock(s, c, chainLength, miner, pools[0]));
      RunUnfolds(s, c, chainLength, miner, pools, t);
      FirstBlockMints(s, c, chainLength, miner, pools[0], t);
      RunMintsRewards(t, c, Wrap(chainLength + 1), miner, pools[1..]);
    }
  }

  /** A run over a first pool and more, in terms of the state after the first block. */
  lemma RunUnfolds(s: State, c: Config, chainLength: uint32, miner: SecretKey, pools: seq<seq<Transaction>>, t: State)
    requires pools != [] && t == Stored(s, MinedBlock(s, c, chainLength, miner, pools[0]))
    ensures MinedRun(s, c, chainLength, miner, pools) == MinedRun(t, c, Wrap(chainLength + 1), miner, pools[1..])
    ensures MinableRun(s, c, chainLength, miner, pools)
       <==> Minable(s, c, chainLength, pools[0], MinedBlock(s, c, chainLength, miner, pools[0]))
            && MinableRun(t, c, Wrap(chainLength + 1), miner, pools[1..])
    ensures LostInRun(s, c, chainLength, miner, pools)
         == Lost(LedgerOf(s), MinedBlock(s, c, chainLength, miner, pools[0]))
            + LostInRun(t, c, Wrap(chainLength + 1), miner, pools[1..])
    ensures Minted(c, chainLength, |pools|)
         == MintingReward(c, chainLength) + Minted(c, Wrap(chainLength + 1), |pools[1..]|)
  {
  }

  lemma FirstBlockMints(s: State, c: Config, chainLength: uint32, miner: SecretKey, pool: seq<Transaction>, t: State)
    requires Inv(s) && Minable(s, c, chainLength, pool, MinedBlock(s, c, chainLength, miner, pool))
    requires t == Stored(s, MinedBlock(s, c, chainLength, miner, pool))
    ensures Inv(t)
    ensures Total(LedgerOf(t)) + Lost(LedgerOf(s), MinedBlock(s, c, chainLength, miner, pool))
         == Total(LedgerOf(s)) + MintingReward(c, chainLength)
  {
    MinedBlockMints(s, c, chainLength, miner, pool);
  }

  // ---- Sums of rewards ----

  /** Rewards that leave enough for the ones to come fit, up to the end of the round. */
  lemma {:induction false} RewardsFit(reward: uint32 -> nat, left: nat -> nat, chainLength: uint32, n: nat)
    requires chainLength + n <= U32_LIMIT
    requires forall l: uint32 :: reward(l) + left(l + 1) <= left(l)
    ensures Rewards(reward, chainLength, n) <= left(chainLength)
    decreases n
  {
    if n > 0 {
      assert reward(chainLength) + left(chainLength + 1) <= left(chainLength);
      if n > 1 {
        WrapFits(chainLength + 1);
        RewardsFit(reward, left, chainLength + 1, n - 1);
      } else {
        OneReward(reward, chainLength);
      }
    }
  }

  lemma {:induction false} RewardsVanish(reward: uint32 -> nat, chainLength: uint32, n: nat)
    requires forall l: uint32 :: reward(l) == 0
    ensures Rewards(reward, chainLength, n) == 0
    decreases n
  {
    if n > 0 { RewardsVanish(reward, Wrap(chainLength + 1), n - 1); }
  }

  lemma {:induction false} RewardsSplit(reward: uint32 -> nat, chainLength: uint32, m: nat, n: nat)
    ensures Rewards(reward, chainLength, m + n) ==
      Rewards(reward, chainLength, m) + Rewards(reward, Wrap(chainLength + m), n)
    decreases m
  {
    if m > 0 {
      RewardsSplit(reward, Wrap(chainLength + 1), m - 1, n);
      StepsOn(chainLength, m);
    } else {
      WrapFits(chainLength);
    }
  }

  lemma StepsOn(chainLength: uint32, m: nat)
    requires m > 0
    ensures Wrap(Wrap(chainLength + 1) + (m - 1)) == Wrap(chainLength + m)
  {
    WrapAdds(chainLength + 1, m - 1);
  }

  /** A whole round starting at length one has the reward of length zero last. */
  lemma RoundFromOne(reward: uint32 -> nat, round: nat)
    requires round == U32_LIMIT
    ensures Rewards(reward, 1, round) == Rewards(reward, 1, round - 1) + reward(0)
    ensures Rewards(reward, 0, round) == Rewards(reward, 1, round)
  {
    RewardsSplit(reward, 1, round - 1, 1);
    RewardsSplit(reward, 0, 1, round - 1);
    OneReward(reward, 0);
  }

  lemma OneReward(reward: uint32 -> nat, chainLength: uint32)
    ensures Rewards(reward, chainLength, 1) == reward(chainLength)
  {
    assert Rewards(reward, Wrap(chainLength + 1), 0) == 0;
  }

  lemma {:induction false} RoundsAddUp(reward: uint32 -> nat, round: nat, k: nat, n: nat)
    requires round == U32_LIMIT
    ensures Rewards(reward, 1, Times(k, round) + n) == Times(k, Rewards(reward, 1, round)) + Rewards(reward, 1, n)
  {
    if k > 0 {
      RoundsAddUp(reward, round, k - 1, n);
      RewardsSplit(reward, 1, round, Times(k - 1, round) + n);
      assert Wrap(1 + round) == 1;
    }
  }

  /** The rounds of the chain length that `n` blocks begin. */
  function RoundsBegun(n: nat): nat {
    n / U32_LIMIT + 1
  }

  /** Rewards bounded within a round are bounded by as many bounds as rounds are begun. */
  lemma RewardsInRounds(reward: uint32 -> nat, bound: nat, round: nat, n: nat)
    requires round == U32_LIMIT && forall r: nat :: r <= round ==> Rewards(reward, 1, r) <= bound
    ensures Rewards(reward, 1, n) <= Times(RoundsBegun(n), bound)
  {
    var k, r := n / round, n % round;
    TimesIsProduct(k, round);
    RoundsAddUp(reward, round, k, r);
    assert Rewards(reward, 1, r) <= bound && Rewards(reward, 1, round) <= bound;
    TimesGrows(k, k, Rewards(reward, 1, round), bound);
  }

  /** More rounds than the bound has first rewards exceed it. */
  lemma RewardsExceed(reward: uint32 -> nat, round: nat, k: nat, m: nat)
    requires round == U32_LIMIT && reward(0) > 0 && k > m
    ensures Rewards(reward, 1, Times(k, round)) > Times(m, reward(0))
  {
    RoundsAddUp(reward, round, k, 0);
    RoundFromOne(reward, round);
    TimesGrows(m + 1, k, reward(0), Rewards(reward, 1, round));
  }

  // ---- One round of the chain length ----

  /** Twice the first era's subsidies. */
  function Bound(c: Config): nat {
    Times(2 * c.subsidyHalvingRate, c.initialSubsidy)
  }

  lemma BoundIsProduct(c: Config)
    ensures Bound(c) == 2 * c.subsidyHalvingRate * c.initialSubsidy
  {
    TimesIsProduct(2 * c.subsidyHalvingRate, c.initialSubsidy);
  }

  /** What can still be minted from a chain length on: the rest of its era and one era more. */
  function Remaining(c: Config, chainLength: nat): nat
    requires c.subsidyHalvingRate > 0
  {
    var rate: nat := c.subsidyHalvingRate;
    Times(2 * rate - Remainder(chainLength, rate), Halved(c, Quotient(chainLength, rate)))
  }

  function RemainingAt(c: Config): nat -> nat
    requires c.subsidyHalvingRate > 0
  {
    (chainLength: nat) => Remaining(c, chainLength)
  }

  lemma RewardIsBounded(c: Config, chainLength: uint32)
    requires c.subsidyHalvingRate > 0
    ensures MintingReward(c, chainLength) + Remaining(c, chainLength + 1) <= Remaining(c, chainLength)
  {
    var rate: nat := c.subsidyHalvingRate;
    var era := Quotient(chainLength, rate);
    QuotientOfNext(chainLength, rate);
    Pow2Grows(era);
    QuotientHalves(c.initialSubsidy, Pow2(era));
    TwiceTheHalf(rate, Halved(c, era), Halved(c, era + 1));
  }

  lemma RemainingIsBounded(c: Config, chainLength: nat)
    requires c.subsidyHalvingRate > 0
    ensures Remaining(c, chainLength) <= Bound(c)
  {
    var rate: nat := c.subsidyHalvingRate;
    var era := Quotient(chainLength, rate);
    Pow2Grows(era);
    QuotientAtMost(c.initialSubsidy, Pow2(era));
    TimesGrows(2 * rate - Remainder(chainLength, rate), 2 * rate, Halved(c, era), c.initialSubsidy);
  }

  lemma NoReward(c: Config, chainLength: uint32)
    requires Cutoff(c) == 0 || c.initialSubsidy == 0 || c.subsidyHalvingRate == 0
    ensures MintingReward(c, chainLength) == 0
  {
    if c.subsidyHalvingRate > 0 {
      var era := Quotient(chainLength, c.subsidyHalvingRate);
      Pow2Grows(era);
      QuotientAtMost(c.initialSubsidy, Pow2(era));
    }
  }

  lemma NothingMinted(c: Config, chainLength: uint32, n: nat)
    requires Cutoff(c) == 0 || c.initialSubsidy == 0 || c.subsidyHalvingRate == 0
    ensures Minted(c, chainLength, n) == 0
  {
    forall l: uint32 ensures RewardAt(c)(l) == 0 { NoReward(c, l); }
    RewardsVanish(RewardAt(c), chainLength, n);
  }

  /** Within one round of the chain length, whichever length it starts from, at most twice the
      first era's subsidies are minted. */
  lemma MintedIsBounded(c: Config, chainLength: uint32, n: nat)
    requires chainLength + n <= U32_LIMIT
    ensures Minted(c, chainLength, n) <= Bound(c)
  {
    if c.subsidyHalvingRate == 0 {
      NothingMinted(c, chainLength, n);
    } else {
      forall l: uint32 ensures RewardAt(c)(l) + RemainingAt(c)(l + 1) <= RemainingAt(c)(l) { RewardIsBounded(c, l); }
      RewardsFit(RewardAt(c), RemainingAt(c), chainLength, n);
      RemainingIsBounded(c, chainLength);
    }
  }

  // ---- Every number of rounds ----

  lemma FirstReward(c: Config)
    requires Cutoff(c) > 0
    ensures MintingReward(c, 0) == c.initialSubsidy
  {
    TimesIsProduct(c.subsidyHalvingRate, c.maxHalvings);
    RateIsPositive(c, 0);
    assert Pow2(0) == 1;
    QuotientIsDivision(c.initialSubsidy, 1);
  }

  lemma RoundIsBounded(c: Config, round: nat)
    requires round == U32_LIMIT
    ensures Minted(c, 1, round) <= Bound(c)
  {
    MintedIsBounded(c, 0, round);
    RoundFromOne(RewardAt(c), round);
  }

  /** However many blocks are mined: twice the first era's subsidies for every round begun. */
  lemma MintedInRounds(c: Config, n: nat)
    ensures Minted(c, 1, n) <= Times(RoundsBegun(n), Bound(c))
  {
    var round: nat := U32_LIMIT;
    forall r: nat | r <= round ensures Rewards(RewardAt(c), 1, r) <= Bound(c) {
      if r < round { MintedIsBounded(c, 1, r); } else { RoundIsBounded(c, round); }
    }
    RewardsInRounds(RewardAt(c), Bound(c), round, n);
  }

  /** From that round on, more than the bound of one round has been minted. */
  lemma LongRunsExceed(c: Config, round: nat, k: nat)
    requires round == U32_LIMIT && Cutoff(c) > 0 && c.initialSubsidy > 0 && k > 2 * c.subsidyHalvingRate
    ensures Minted(c, 1, Times(k, round)) > Bound(c)
  {
    FirstReward(c);
    RewardsExceed(RewardAt(c), round, k, 2 * c.subsidyHalvingRate);
  }

  /** What is minted stays below one bound for every number of blocks if and only if nothing is
      ever minted: the chain length has 32 bits, and minting starts again when it wraps around. */
  lemma BoundedExactly(c: Config)
    ensures (forall n: nat :: Minted(c, 1, n) <= Bound(c)) <==> Cutoff(c) == 0 || c.initialSubsidy == 0
  {
    if Cutoff(c) == 0 || c.initialSubsidy == 0 {
      forall n: nat ensures Minted(c, 1, n) <= Bound(c) { NothingMinted(c, 1, n); }
    } else {
      var round: nat := U32_LIMIT;
      LongRunsExceed(c, round, 2 * c.subsidyHalvingRate + 1);
    }
  }

  /** However many blocks a miner mines from its first one on, the total value grows by at most
      twice the first era's subsidies for every round of the chain length begun: once, for fewer
      than 2^32 blocks. */
  lemma SupplyIsBounded(s: State, c: Config, miner: SecretKey, pools: seq<seq<Transaction>>)
    requires Inv(s) && MinableRun(s, c, 1, miner, pools)
    ensures Total(LedgerOf(MinedRun(s, c, 1, miner, pools)))
         <= Total(LedgerOf(s)) + Times(RoundsBegun(|pools|), Bound(c))
    ensures |pools| < U32_LIMIT ==>
      Total(LedgerOf(MinedRun(s, c, 1, miner, pools)))
        <= Total(LedgerOf(s)) + 2 * c.subsidyHalvingRate * c.initialSubsidy
  {
    RunMintsRewards(s, c, 1, miner, pools);
    MintedInRounds(c, |pools|);
    if |pools| < U32_LIMIT {
      OneRound(|pools|, Bound(c));
      BoundIsProduct(c);
    }
  }

  lemma OneRound(n: nat, bound: nat)
    requires n < U32_LIMIT
    ensures Times(RoundsBegun(n), bound) == bound
  {
    assert RoundsBegun(n) == 1 && Times(0, bound) == 0;
  }

  // ---- A run that mints all its rewards ----

  /** A ledger whose only coin is a coinbase of the miner. */
  function Purse(amount: uint32, miner: SecretKey): Utxo {
    map[CoinLocator(Coinbase(amount, miner).Hash(), 0) := Coinbase(amount, miner).outputs[0]]
  }

  /** Leaves a whole coinbase to the next miner as fee. */
  function SweepTransaction(amount: uint32, miner: SecretKey): Transaction {
    Transaction(false, 0, [TransactionInput(Coinbase(amount, miner).Hash(), 0, NoScript)], [], [], 0)
  }

  lemma PurseTotal(amount: uint32, miner: SecretKey)
    ensures Total(Purse(amount, miner)) == amount
  {
    var u, cl := Purse(amount, miner), CoinLocator(Coinbase(amount, miner).Hash(), 0);
    TotalSplit(u, cl);
    assert u - {cl} == map[];
  }

  lemma SweptInputs(s: State, miner: SecretKey, amount: uint32)
    requires LedgerOf(s) == Purse(amount, miner)
    ensures InputTotal(s, [SweepTransaction(amount, miner)]) == amount
    ensures OutputTotal([SweepTransaction(amount, miner)]) == 0
  {
    var tx, txs := SweepTransaction(amount, miner), [SweepTransaction(amount, miner)];
    LedgerIsLookup(s);
    assert txs[..0] == [];
    assert CoinLocator(Coinbase(amount, miner).Hash(), 0) in LedgerOf(s);
    assert LocatorOf(tx.inputs[0]) == CoinLocator(Coinbase(amount, miner).Hash(), 0);
    assert InputSum(s, tx, 1) == InputSum(s, tx, 0) + amount;
  }

  function SweptBlock(amount: uint32, next: uint32, miner: SecretKey): seq<Transaction> {
    [Coinbase(next, miner), SweepTransaction(amount, miner)]
  }

  lemma SweptBlockIsMined(s: State, c: Config, chainLength: uint32, miner: SecretKey, amount: uint32)
    requires LedgerOf(s) == Purse(amount, miner) && amount + MintingReward(c, chainLength) < U32_LIMIT
    ensures MinedBlock(s, c, chainLength, miner, [SweepTransaction(amount, miner)])
         == SweptBlock(amount, amount + MintingReward(c, chainLength), miner)
  {
    SweptInputs(s, miner, amount);
    FeesAreExact(amount, 0, MintingReward(c, chainLength));
  }

  lemma SweptIsMinable(s: State, c: Config, chainLength: uint32, miner: SecretKey, amount: uint32)
    requires LedgerOf(s) == Purse(amount, miner) && amount + MintingReward(c, chainLength) < U32_LIMIT
    requires c.maxHalvings <= 32
    ensures Minable(s, c, chainLength, [SweepTransaction(amount, miner)],
                    SweptBlock(amount, amount + MintingReward(c, chainLength), miner))
  {
    var tx, pool := SweepTransaction(amount, miner), [SweepTransaction(amount, miner)];
    SweptInputs(s, miner, amount);
    assert pool[..0] == [];
    assert InputsOf(pool) == InputsOf([]) + InputsOfOne(tx) == [LocatorOf(tx.inputs[0])];
    InputsAreSpent(pool);
    var block := SweptBlock(amount, amount + MintingReward(c, chainLength), miner);
    assert HashList(block)[0] != HashList(block)[1];
  }

  lemma SweptLedger(miner: SecretKey, amount: uint32, next: uint32)
    ensures Accepts(Purse(amount, miner), SweptBlock(amount, next, miner))
    ensures Apply(Purse(amount, miner), SweptBlock(amount, next, miner)) == Purse(next, miner)
  {
    var block, u := SweptBlock(amount, next, miner), Purse(amount, miner);
    var old_, new_ := CoinLocator(Coinbase(amount, miner).Hash(), 0), CoinLocator(Coinbase(next, miner).Hash(), 0);
    forall cl ensures cl in Spent(block) <==> cl == old_ {
      if cl == old_ { assert cl == LocatorOf(block[1].inputs[0]); }
    }
    forall cl ensures cl in CreatedBy(block) <==> cl == new_ {
      if cl == new_ { assert cl == CoinLocator(block[0].Hash(), 0); }
    }
  }

  ghost predicate MinesTo(s: State, c: Config, chainLength: uint32, miner: SecretKey, pool: seq<Transaction>,
                          t: State) {
    var block := MinedBlock(s, c, chainLength, miner, pool);
    Minable(s, c, chainLength, pool, block) && t == Stored(s, block)
  }

  /** Storing a swept block leaves a purse with all that was ever minted. */
  lemma SweptIsStored(s: State, miner: SecretKey, amount: uint32, next: uint32, t: State)
    requires Inv(s) && LedgerOf(s) == Purse(amount, miner) && t == Stored(s, SweptBlock(amount, next, miner))
    ensures Inv(t) && LedgerOf(t) == Purse(next, miner)
  {
    SweptLedger(miner, amount, next);
    StoreRefinesApply(s, SweptBlock(amount, next, miner));
  }

  lemma SweptMinesTo(s: State, c: Config, chainLength: uint32, miner: SecretKey, amount: uint32, next: uint32, t: State)
    requires LedgerOf(s) == Purse(amount, miner) && c.maxHalvings <= 32
    requires next == amount + MintingReward(c, chainLength) && t == Stored(s, SweptBlock(amount, next, miner))
    ensures MinesTo(s, c, chainLength, miner, [SweepTransaction(amount, miner)], t)
  {
    SweptBlockIsMined(s, c, chainLength, miner, amount);
    SweptIsMinable(s, c, chainLength, miner, amount);
  }

  // ---- Runs as sequences of states ----

  function LengthAt(k: nat): uint32 {
    Wrap(1 + k)
  }

  /** Block `k` of the run takes one state to the next. */
  ghost predicate MinesAt(c: Config, miner: SecretKey, states: seq<State>, pools: seq<seq<Transaction>>, k: nat)
    requires |states| == |pools| + 1 && k < |pools|
  {
    MinesTo(states[k], c, LengthAt(k), miner, pools[k], states[k + 1])
  }

  ghost predicate IsRun(s: State, c: Config, chainLength: uint32, miner: SecretKey, pools: seq<seq<Transaction>>,
                        end: State) {
    MinableRun(s, c, chainLength, miner, pools) && MinedRun(s, c, chainLength, miner, pools) == end
  }

  lemma RunOn(s: State, c: Config, chainLength: uint32, miner: SecretKey, pool: seq<Transaction>, t: State,
              pools: seq<seq<Transaction>>, end: State)
    requires MinesTo(s, c, chainLength, miner, pool, t) && IsRun(t, c, Wrap(chainLength + 1), miner, pools, end)
    ensures IsRun(s, c, chainLength, miner, [pool] + pools, end)
  {
    var all := [pool] + pools;
    assert all[0] == pool && all[1..] == pools;
    RunUnfolds(s, c, chainLength, miner, all, t);
  }

  lemma NextLength(k: nat)
    ensures Wrap(LengthAt(k) + 1) == LengthAt(k + 1)
  {
    WrapAdds(1 + k, 1);
  }

  /** States linked by minable blocks are a run. */
  lemma {:induction false} StatesAreRun(c: Config, miner: SecretKey, states: seq<State>, pools: seq<seq<Transaction>>,
                                        k: nat)
    requires |states| == |pools| + 1 && k <= |pools|
    requires forall i: nat {:trigger MinesAt(c, miner, states, pools, i)} ::
      i < |pools| ==> MinesAt(c, miner, states, pools, i)
    ensures IsRun(states[k], c, LengthAt(k), miner, pools[k..], states[|pools|])
    decreases |pools| - k
  {
    if k < |pools| {
      StatesAreRun(c, miner, states, pools, k + 1);
      assert MinesAt(c, miner, states, pools, k);
      RunBefore(c, miner, states, pools, k);
    }
  }

  lemma RunBefore(c: Config, miner: SecretKey, states: seq<State>, pools: seq<seq<Transaction>>, k: nat)
    requires |states| == |pools| + 1 && k < |pools| && MinesAt(c, miner, states, pools, k)
    requires IsRun(states[k + 1], c, LengthAt(k + 1), miner, pools[k + 1..], states[|pools|])
    ensures IsRun(states[k], c, LengthAt(k), miner, pools[k..], states[|pools|])
  {
    NextLength(k);
    assert pools[k..] == [pools[k]] + pools[k + 1..];
    RunOn(states[k], c, LengthAt(k), miner, pools[k], states[k + 1], pools[k + 1..], states[|pools|]);
  }

  /** Pools in which every block sweeps the coinbase of the one before; `amounts[k]` is what has been
      minted by the first `k` blocks. */
  function SweepPools(amounts: seq<uint32>, miner: SecretKey): seq<seq<Transaction>>
    requires amounts != []
  {
    seq(|amounts| - 1, k requires 0 <= k < |amounts| - 1 => [SweepTransaction(amounts[k], miner)])
  }

  /** Block `k` sweeps. */
  ghost predicate SweepsAt(states: seq<State>, amounts: seq<uint32>, miner: SecretKey, k: nat)
    requires |states| == |amounts| && k + 1 < |states|
  {
    states[k + 1] == Stored(states[k], SweptBlock(amounts[k], amounts[k + 1], miner))
  }

  ghost predicate Sweeps(states: seq<State>, amounts: seq<uint32>, miner: SecretKey) {
    && |states| == |amounts| > 0
    && forall k: nat {:trigger SweepsAt(states, amounts, miner, k)} ::
         k + 1 < |states| ==> SweepsAt(states, amounts, miner, k)
  }

  lemma {:induction false} SweepStates(s: State, amounts: seq<uint32>, miner: SecretKey) returns (states: seq<State>)
    requires amounts != []
    ensures Sweeps(states, amounts, miner) && states[0] == s
  {
    var n := |amounts| - 1;
    if n == 0 {
      states := [s];
    } else {
      var front := SweepStates(s, amounts[..n], miner);
      var last := Stored(front[n - 1], SweptBlock(amounts[n - 1], amounts[n], miner));
      states := front + [last];
      forall k: nat | k < n ensures SweepsAt(states, amounts, miner, k) {
        if k < n - 1 {
          assert SweepsAt(front, amounts[..n], miner, k);
          SweepsStill(front, last, amounts, miner, k);
        }
      }
    }
  }

  lemma SweepsStill(front: seq<State>, last: State, amounts: seq<uint32>, miner: SecretKey, k: nat)
    requires k + 1 < |front| == |amounts| - 1 && SweepsAt(front, amounts[..|front|], miner, k)
    ensures SweepsAt(front + [last], amounts, miner, k)
  {
    assert (front + [last])[k] == front[k] && (front + [last])[k + 1] == front[k + 1];
  }

  ghost predicate Holding(s: State, miner: SecretKey, amount: uint32) {
    Inv(s) && LedgerOf(s) == Purse(amount, miner)
  }

  lemma SweepHoldsAt(states: seq<State>, amounts: seq<uint32>, miner: SecretKey, k: nat)
    requires |states| == |amounts| && k + 1 < |states| && SweepsAt(states, amounts, miner, k)
    requires Holding(states[k], miner, amounts[k])
    ensures Holding(states[k + 1], miner, amounts[k + 1])
  {
    SweptIsStored(states[k], miner, amounts[k], amounts[k + 1], states[k + 1]);
  }

  ghost predicate KeepsAt(states: seq<State>, amounts: seq<uint32>, miner: SecretKey, k: nat)
    requires |states| == |amounts| && k + 1 < |states|
  {
    Holding(states[k], miner, amounts[k]) ==> Holding(states[k + 1], miner, amounts[k + 1])
  }

  ghost predicate Keeps(states: seq<State>, amounts: seq<uint32>, miner: SecretKey) {
    && |states| == |amounts| > 0 && Holding(states[0], miner, amounts[0])
    && forall k: nat {:trigger KeepsAt(states, amounts, miner, k)} ::
         k + 1 < |states| ==> KeepsAt(states, amounts, miner, k)
  }

  lemma SweepKeeps(states: seq<State>, amounts: seq<uint32>, miner: SecretKey)
    requires Sweeps(states, amounts, miner) && Holding(states[0], miner, amounts[0])
    ensures Keeps(states, amounts, miner)
  {
    forall k: nat | k + 1 < |states| ensures KeepsAt(states, amounts, miner, k) {
      assert SweepsAt(states, amounts, miner, k);
      SweepKeepsAt(states, amounts, miner, k);
    }
  }

  lemma SweepKeepsAt(states: seq<State>, amounts: seq<uint32>, miner: SecretKey, k: nat)
    requires |states| == |amounts| && k + 1 < |states| && SweepsAt(states, amounts, miner, k)
    ensures KeepsAt(states, amounts, miner, k)
  {
    if Holding(states[k], miner, amounts[k]) { SweepHoldsAt(states, amounts, miner, k); }
  }

  lemma {:induction false} KeptHolds(states: seq<State>, amounts: seq<uint32>, miner: SecretKey, k: nat)
    requires Keeps(states, amounts, miner) && k < |states|
    ensures Holding(states[k], miner, amounts[k])
  {
    if k > 0 {
      KeptHolds(states, amounts, miner, k - 1);
      assert KeepsAt(states, amounts, miner, k - 1);
    }
  }

  /** Every amount is the one before plus the reward at that length. */
  ghost predicate Accrues(c: Config, amounts: seq<uint32>) {
    forall k: nat {:trigger AccruesAt(c, amounts, k)} :: k + 1 < |amounts| ==> AccruesAt(c, amounts, k)
  }

  predicate AccruesAt(c: Config, amounts: seq<uint32>, k: nat)
    requires k + 1 < |amounts|
  {
    amounts[k + 1] == amounts[k] + MintingReward(c, LengthAt(k))
  }

  lemma SweepMinesAt(states: seq<State>, c: Config, amounts: seq<uint32>, miner: SecretKey,
                     pools: seq<seq<Transaction>>, k: nat)
    requires |states| == |amounts| == |pools| + 1 && k < |pools| && pools[k] == [SweepTransaction(amounts[k], miner)]
    requires SweepsAt(states, amounts, miner, k) && Holding(states[k], miner, amounts[k])
    requires AccruesAt(c, amounts, k) && c.maxHalvings <= 32
    ensures MinesAt(c, miner, states, pools, k)
  {
    SweptMinesTo(states[k], c, LengthAt(k), miner, amounts[k], amounts[k + 1], states[k + 1]);
  }

  lemma SweepMinesAll(states: seq<State>, c: Config, amounts: seq<uint32>, miner: SecretKey, k: nat)
    requires Sweeps(states, amounts, miner) && Keeps(states, amounts, miner) && Accrues(c, amounts)
    requires c.maxHalvings <= 32 && k + 1 < |amounts|
    ensures MinesAt(c, miner, states, SweepPools(amounts, miner), k)
  {
    KeptHolds(states, amounts, miner, k);
    assert AccruesAt(c, amounts, k) && SweepsAt(states, amounts, miner, k);
    SweepMinesAt(states, c, amounts, miner, SweepPools(amounts, miner), k);
  }

  lemma SweptStatesAreRun(states: seq<State>, c: Config, amounts: seq<uint32>, miner: SecretKey)
    requires Sweeps(states, amounts, miner) && Keeps(states, amounts, miner)
    requires Accrues(c, amounts) && c.maxHalvings <= 32
    ensures IsRun(states[0], c, 1, miner, SweepPools(amounts, miner), states[|amounts| - 1])
  {
    var pools := SweepPools(amounts, miner);
    forall k: nat | k < |pools| ensures MinesAt(c, miner, states, pools, k) {
      SweepMinesAll(states, c, amounts, miner, k);
    }
    StatesAreRun(c, miner, states, pools, 0);
    assert pools[0..] == pools && LengthAt(0) == 1;
  }

  /** Sweeping is a run, and leaves a purse with all that was minted. */
  lemma SweepRun(s: State, c: Config, amounts: seq<uint32>, miner: SecretKey) returns (end: State)
    requires amounts != [] && Holding(s, miner, amounts[0]) && Accrues(c, amounts) && c.maxHalvings <= 32
    ensures IsRun(s, c, 1, miner, SweepPools(amounts, miner), end)
    ensures Holding(end, miner, amounts[|amounts| - 1])
  {
    var states := SweepStates(s, amounts, miner);
    end := states[|amounts| - 1];
    SweepKeeps(states, amounts, miner);
    KeptHolds(states, amounts, miner, |amounts| - 1);
    SweptStatesAreRun(states, c, amounts, miner);
  }

  /** What has been minted by the first `k` blocks, for every `k` up to `n`. */
  function MintedUpTo(c: Config, n: nat): seq<uint32> {
    seq(n + 1, k requires 0 <= k <= n => Wrap(Rewards(RewardAt(c), 1, k)))
  }

  lemma RewardsGrow(reward: uint32 -> nat, k: nat, n: nat)
    requires k < n && Rewards(reward, 1, n) < U32_LIMIT
    ensures Wrap(Rewards(reward, 1, k + 1)) == Wrap(Rewards(reward, 1, k)) + reward(LengthAt(k))
  {
    RewardsSplit(reward, 1, k, 1);
    OneReward(reward, LengthAt(k));
    RewardsSplit(reward, 1, k + 1, n - (k + 1));
    WrapFits(Rewards(reward, 1, k));
    WrapFits(Rewards(reward, 1, k) + reward(LengthAt(k)));
  }

  lemma MintedAccrues(c: Config, n: nat)
    requires Minted(c, 1, n) < U32_LIMIT
    ensures Accrues(c, MintedUpTo(c, n)) && MintedUpTo(c, n)[0] == 0 && MintedUpTo(c, n)[n] == Minted(c, 1, n)
  {
    forall k: nat | k < n ensures AccruesAt(c, MintedUpTo(c, n), k) { RewardsGrow(RewardAt(c), k, n); }
  }

  /** The database after storing a coinbase worth nothing. */
  function Seed(capacity: uint32, miner: SecretKey): State {
    Stored(Empty(capacity), [Coinbase(0, miner)])
  }

  lemma SeedIsPurse(capacity: uint32, miner: SecretKey)
    ensures Inv(Seed(capacity, miner)) && LedgerOf(Seed(capacity, miner)) == Purse(0, miner)
  {
    var block := [Coinbase(0, miner)];
    EmptyInv(capacity);
    assert Spent(block) == {};
    forall cl ensures cl in CreatedBy(block) <==> cl == CoinLocator(Coinbase(0, miner).Hash(), 0) {
      if cl == CoinLocator(Coinbase(0, miner).Hash(), 0) { assert cl == CoinLocator(block[0].Hash(), 0); }
    }
    StoreRefinesApply(Empty(capacity), block);
  }

  lemma SweepingMints(s: State, c: Config, amounts: seq<uint32>, miner: SecretKey, n: nat)
    requires |amounts| == n + 1 && Holding(s, miner, amounts[0]) && Accrues(c, amounts) && c.maxHalvings <= 32
    ensures var pools := SweepPools(amounts, miner);
      && MinableRun(s, c, 1, miner, pools) && |pools| == n
      && Total(LedgerOf(s)) == amounts[0] && Total(LedgerOf(MinedRun(s, c, 1, miner, pools))) == amounts[n]
  {
    var end := SweepRun(s, c, amounts, miner);
    PurseTotal(amounts[0], miner);
    PurseTotal(amounts[n], miner);
  }

  /** Any amount that can be minted below 2^32 is reached by a run of minable blocks. */
  lemma AllRewardsCanBeMinted(capacity: uint32, c: Config, miner: SecretKey, n: nat)
    requires c.maxHalvings <= 32 && Minted(c, 1, n) < U32_LIMIT
    ensures var s, pools := Seed(capacity, miner), SweepPools(MintedUpTo(c, n), miner);
      && MinableRun(s, c, 1, miner, pools) && |pools| == n
      && Total(LedgerOf(s)) == 0 && Total(LedgerOf(MinedRun(s, c, 1, miner, pools))) == Minted(c, 1, n)
  {
    SeedIsPurse(capacity, miner);
    MintedAccrues(c, n);
    SweepingMints(Seed(capacity, miner), c, MintedUpTo(c, n), miner, n);
  }

  lemma {:induction false} RewardsEnd(reward: uint32 -> nat, chainLength: uint32, n: nat)
    requires chainLength + n <= U32_LIMIT && forall l: uint32 :: l >= chainLength ==> reward(l) == 0
    ensures Rewards(reward, chainLength, n) == 0
    decreases n
  {
    if n > 0 {
      assert reward(chainLength) == 0;
      if n > 1 { RewardsEnd(reward, chainLength + 1, n - 1); }
    }
  }

  /** One coin of subsidy and a single era of one block. */
  const SHORT_ERA := Config(1, 1, 1)

  lemma ShortEraRewards(l: uint32)
    ensures MintingReward(SHORT_ERA, l) == if l == 0 then 1 else 0
  {
    TimesIsProduct(1, 1);
    assert Cutoff(SHORT_ERA) == 1;
    if l == 0 { FirstReward(SHORT_ERA); }
  }

  lemma OneEachRound(reward: uint32 -> nat, round: nat, k: nat)
    requires round == U32_LIMIT && forall l: uint32 :: reward(l) == if l == 0 then 1 else 0
    ensures Rewards(reward, 1, Times(k, round)) == k
  {
    RewardsEnd(reward, 1, round - 1);
    RoundFromOne(reward, round);
    RoundsAddUp(reward, round, k, 0);
    TimesIsProduct(k, 1);
  }

  lemma ShortEraMints(c: Config, round: nat, k: nat)
    requires c == SHORT_ERA && round == U32_LIMIT
    ensures Minted(c, 1, Times(k, round)) == k
  {
    forall l: uint32 ensures RewardAt(c)(l) == if l == 0 then 1 else 0 { ShortEraRewards(l); }
    OneEachRound(RewardAt(c), round, k);
  }

  /** A run that exceeds the bound: one coin of subsidy, one era of one block, and three rounds of
      the chain length mint three coins where two are the bound. */
  lemma SupplyBoundFails(capacity: uint32, c: Config, miner: SecretKey, round: nat)
    requires c == SHORT_ERA && round == U32_LIMIT
    ensures var s, pools := Seed(capacity, miner), SweepPools(MintedUpTo(c, Times(3, round)), miner);
      && MinableRun(s, c, 1, miner, pools)
      && Total(LedgerOf(MinedRun(s, c, 1, miner, pools))) > Total(LedgerOf(s)) + Bound(c)
  {
    ShortEraMints(c, round, 3);
    BoundIsProduct(c);
    AllRewardsCanBeMinted(capacity, c, miner, Times(3, round));
  }
}
