# A verified model of a Bitcoin-like node with Lightning channels

This project models, in Dafny, the parts of the node that keep money and agreements straight,
and proves what they keep over whole runs:

- **Coin database** (`CoinState`, `CoinStore`, `CacheTiming`, `CoinUndo`, `UndoRuns`, `MixedUndo`,
  `CoinDatabase`): a write-back cache over per-transaction coin records, with flushes that may fall
  in the middle of a block, refines the plain ledger of `UtxoLedger`; undoing blocks inverts storing
  them exactly when every coin is restorable.
- **Block chain** (`ChainState`, `ChainReplay`, `ReplayRuns`, `StaleUndo`, `AdoptedForks`, `BlockChain`):
  tip, height, window of unsafe hashes, fork search, undo blocks, replay of the active chain into the
  coin database, and what adopting a fork leaves behind.
- **Lightning channel** (`ChannelState`, `ChannelSystem`, `ChannelTheorems`, `ChannelEntries`, `Channel`,
  `Revocation`): the four-step update protocol with any number of updates in flight from either side.
- **Wallet** (`WalletState`, `WalletPools`, `WalletRuns`, `WalletLife`, `Payments`, `Wallet`): four
  pools of coins, confirmation counters, coin selection in any order, who is paid, funding and refund
  arithmetic.
- **Gossip** (`Gossip`, `WitnessGossip`, `BlockFlooding`): witnesses fetched hop by hop, and block
  flooding with a bound on forwarding.
- **Supporting algorithms** (`ChainFiles`, `ChainLog`, `ChainWriter`, `Merkle`, `HeapOrder`,
  `TransactionHeap`, `TransactionPool`, `Mining`, `Supply`, `Arithmetic`): rotating files, the Merkle
  loop, the transaction heap and pool counters, fees, subsidies and the supply they add up to.

Code that works by changing fields is a class whose methods are proved equal to a function on
values (`State()`, `View()`); the theorems are lemmas about those functions and hold for every run
of the methods. `dafny verify dfyconfig.toml` checks everything.

How the surroundings are modelled: leveldb and the disk are maps; iteration over a Go map is a
choice of any remaining key; hashes are a free datatype, so equal hashes mean equal contents, and a
transaction's hash leaves its witnesses out; a signature is the pair of a key and a hash; a public
key is `Pub` of a secret key; serialization is an inverse pair, so messages and records carry
values; each handler is one atomic step. Amounts are 32-bit and wrap around explicitly.

Where a property of the design turned out to depend on a condition, the condition is proved exact:
`CoinState.FlushExactly`, `CoinUndo.UndoExactly` for one block, `UndoRuns.UndoInvertsStore` and
`UndoRuns.EachStepExactly` for a suffix of blocks (with a failing run in `MixedUndo.MixedUndoFails`),
`UtxoLedger.RevertInvertsApply`, `Mining.MinedBlockMints`, `Supply.BoundedExactly` (with a failing run
in `Supply.SupplyBoundFails`),
`ReplayRuns.StateEqualsReplay`, `ReplayRuns.RehandledExactly`, `ReplayRuns.ReplacedExactly` and
`StaleUndo.ForkPanicsExactly` (with failing runs in `StaleUndo.RehandlingFails` and
`StaleUndo.ReplacingFails`), `ChannelState.VersionsAgreeExactly`, `ChainState.ForkSearchIsExact`,
`Wallet.RequestConserves`, `Wallet.FundingAndRefundConserve`,
`ChainLog.RoundTripExactly`, `TransactionPool.CheckKeepsCountExactly`,
`HeapOrder.IncrementKeepsOrder`, `WitnessGossip.WitnessesPropagate`.

Where the code and its comments differ, the model follows the code: flushing resets the size
counter while unspent coins stay cached; spending a coin that is not cached looks up the record of
the spending transaction; a miner's reply that times out counts as one zero input sum; removing a
list that contains a nil transaction stops there and reports nothing removed.

## Model

| member | source | states |
|---|---|---|
| `UtxoLedger.RevertInvertsApply` | pkg/blockchain/coindatabase/coindatabase.go:84-142 | On the plain ledger, reverting a block with an undo block that records what it spent gives back the ledger from before exactly when every coin it created that was already unspent is one it spent itself |
| `UtxoLedger.RevertAllInvertsApplyAll` | pkg/blockchain/coindatabase/coindatabase.go:84-142 | The same for any suffix of blocks, newest first |
| `UtxoLedger.ApplyTotal` | pkg/blockchain/coindatabase/coindatabase.go:210-214 | Total value after a block: what was there plus outputs, minus inputs and minus coins overwritten |
| `Ledger.HashesTellApart` | pkg/block/transaction.go:130-143 | Transactions have the same hash exactly when they differ at most in their witnesses; blocks exactly when they have the same header |
| `CoinState.LedgerIsLookup` | pkg/blockchain/coindatabase/coindatabase.go:377-396 | A cached coin is decided by its spent flag and any other by its row: the ledger a state stands for is exactly what looking up every locator gives |
| `CoinState.FlushExactly` | pkg/blockchain/coindatabase/coindatabase.go:154-200 | Flushing changes nothing in the ledger if and only if no spent cached coin has two rows in its record |
| `CoinState.FlushKeeps` | pkg/blockchain/coindatabase/coindatabase.go:154-200 | Flushing anywhere, also in the middle of storing a block, keeps the invariant and every lookup |
| `CoinState.GetCoinExactly` | pkg/blockchain/coindatabase/coindatabase.go:377-396 | An unspent coin is returned exactly where the ledger has it, a spent one exactly while it is cached, and none otherwise |
| `CoinStore.StoreRefinesApply` | pkg/blockchain/coindatabase/coindatabase.go:210-338 | Storing an accepted block, with the flushes it triggers, is exactly "remove the inputs, add the outputs" on the ledger, and cached locators and rows coincide again afterwards |
| `CoinStore.RunRefinesLedger` | pkg/blockchain/coindatabase/coindatabase.go:154-338 | Every run of accepted stores and flushes from an empty database keeps the invariant and the ledger of the plain run |
| `CoinStore.UncachedSpendExactly` | pkg/blockchain/coindatabase/coindatabase.go:220-271 | Spending a coin that is not cached takes one row of that index from the record of the spending transaction, or its last row whatever it is, and leaves the coin itself unspent |
| `CacheTiming.CacheOutputExactly` | pkg/blockchain/coindatabase/coindatabase.go:297-324 | With size plus outputs below the capacity an output is cached and counted and nothing else changes; otherwise exactly the spent coins leave the cache first and the count starts again at one |
| `CacheTiming.CounterStaysBelow` | pkg/blockchain/coindatabase/coindatabase.go:297-324 | Over every run of stores and flushes without overflow the size counter is at most the larger of one and the capacity less one |
| `CacheTiming.SpentIsForgottenExactly` | pkg/blockchain/coindatabase/coindatabase.go:297-324 | Storing a transaction forgets the coins it spends if and only if size plus twice its outputs exceeds the capacity; otherwise they stay known, flagged as spent |
| `CoinUndo.UndoRecordsSpent` | pkg/blockchain/blockchain.go:188-221 | The undo block of an accepted block lists exactly the coins the block spends, with their outputs |
| `CoinUndo.UndoExactly` | pkg/blockchain/coindatabase/coindatabase.go:91-151 | Undoing one block reverts the ledger if and only if every record rebuilt in the missing-record branch gets only coins of its own transaction |
| `CoinUndo.UndoCounts` | pkg/blockchain/coindatabase/coindatabase.go:91-112 | Undoing a block lowers the size counter by the number of its outputs in 32 bits, cached or not |
| `CoinUndo.UndoLeavesDuplicates` | pkg/blockchain/coindatabase/coindatabase.go:113-142 | A restored coin whose row had not been flushed has two rows afterwards, so the storage invariant fails |
| `UndoRuns.RightExactly` | pkg/blockchain/coindatabase/coindatabase.go:91-142 | One coin through a whole undo: it comes out as on the reverted ledger if and only if, whenever an undo block misses its transaction's record and no older block erases what is rebuilt, the rebuilt record has the coin only as the undo blocks restore it |
| `UndoRuns.UndoAllExactly` | pkg/blockchain/coindatabase/coindatabase.go:91-142 | Undoing any list of blocks gives the reverted ledger if and only if every coin is restorable in that sense |
| `UndoRuns.EachStepExactly` | pkg/blockchain/coindatabase/coindatabase.go:91-142 | Every ledger on the way is the reverted one if and only if every undo block is harmless with the records left and rebuilt so far |
| `UndoRuns.StoreAllChronicle` | pkg/blockchain/coindatabase/coindatabase.go:210-214 | Storing blocks with flushes between them keeps the ledger in step and the undo blocks taken before each store record what it spent |
| `UndoRuns.UndoInvertsStore` | pkg/blockchain/coindatabase/coindatabase.go:91-151 | Undoing any suffix of stored blocks, flushes allowed before each and before the undo, restores the ledger from before the suffix if and only if its coins are restorable |
| `UndoRuns.SingleTransactionsSuffice` | pkg/blockchain/coindatabase/coindatabase.go:128-136 | It does whenever each undo block that reaches the missing-record branch restores coins of a single transaction, counting records rebuilt by newer undo blocks as present |
| `MixedUndo.SpentRecordIsGone` | pkg/blockchain/coindatabase/coindatabase.go:154-200 | In every run of stores a flush drops the record of a transaction whose coins are all spent |
| `MixedUndo.MixedUndoFails` | pkg/blockchain/coindatabase/coindatabase.go:128-136 | From an empty database of any capacity: storing two one-output transactions, then a block spending both, flushing and undoing that block does not give back the ledger from before it |
| `CoinDatabase.IndexOf` | pkg/blockchain/coindatabase/coindatabase.go:431-438 | The first row of an index, or -1 exactly when there is none |
| `CoinDatabase.RemoveCoinFromRecord` | pkg/blockchain/coindatabase/coindatabase.go:274-283 | Removes the first row of the index and nothing else |
| `CoinDatabase.CreateCoinRecord` | pkg/blockchain/coindatabase/coindatabase.go:341-357 | One row per output, in order |
| `CoinDatabase.CoinDatabase.ValidateTransaction` | pkg/blockchain/coindatabase/coindatabase.go:55-78 | Accepts if and only if every input is an unspent coin of the ledger |
| `CoinDatabase.CoinDatabase.ValidateBlock` | pkg/blockchain/coindatabase/coindatabase.go:42-50 | Accepts if and only if every transaction is accepted against the same ledger |
| `CoinDatabase.CoinDatabase.FlushMainCache` | pkg/blockchain/coindatabase/coindatabase.go:154-200 | Whatever the iteration orders over the cache and the updated records, the result is the flushed state |
| `CoinDatabase.CoinDatabase.StoreBlock` | pkg/blockchain/coindatabase/coindatabase.go:210-214 | Marks inputs, caches outputs and writes records, in that order |
| `CoinDatabase.CoinDatabase.UpdateSpentCoins` | pkg/blockchain/coindatabase/coindatabase.go:220-241 | Flags cached inputs; an uncached one takes a row from the spending transaction's record |
| `CoinDatabase.CoinDatabase.RemoveCoinFromDB` | pkg/blockchain/coindatabase/coindatabase.go:245-258 | Removes one row and drops a record with at most one row |
| `CoinDatabase.CoinDatabase.StoreTransactionsInMainCache` | pkg/blockchain/coindatabase/coindatabase.go:297-322 | Caches every output as unspent, flushing first whenever the counter would reach the capacity |
| `CoinDatabase.CoinDatabase.StoreTransactionsInDB` | pkg/blockchain/coindatabase/coindatabase.go:332-338 | Writes the record of every transaction |
| `CoinDatabase.CoinDatabase.GetCoin` | pkg/blockchain/coindatabase/coindatabase.go:377-396 | The cached coin if there is one, else the row's coin, else none |
| `CoinDatabase.CoinDatabase.UndoCoins` | pkg/blockchain/coindatabase/coindatabase.go:91-142 | Undoes the blocks one after the other, erasing what each created and restoring what it spent |
| `CoinDatabase.CoinDatabase.EraseCreated` | pkg/blockchain/coindatabase/coindatabase.go:94-109 | Erases cached coins and records of the block's transactions |
| `CoinDatabase.CoinDatabase.ReestablishSpent` | pkg/blockchain/coindatabase/coindatabase.go:110-151 | Unflags cached coins and adds rows, rebuilding missing records from the whole undo block |
| `CoinDatabase.CoinDatabase.GetBalance` | pkg/blockchain/coindatabase/coindatabase.go:399-418 | Flushes, and returns the ledger's total for the script modulo 2^32, over all records in any order |
| `ChainState.NewTipInv` | pkg/blockchain/blockchain.go:38-67 | A new chain's tip is its genesis block at height one |
| `ChainState.RecordedLinked` | pkg/blockchain/blockchain.go:110-121 | Recording a block whose parent is stored keeps every record linked to genesis with its right height |
| `ChainState.OrphanIsRecorded` | pkg/blockchain/blockchain.go:110-137 | A block whose parent is not known is recorded at height one and changes nothing else |
| `ChainState.HandleKeepsTip` | pkg/blockchain/blockchain.go:101-185 | One handled block keeps the last hash, last block and length consistent; the length never decreases and another tip is adopted only at strictly greater height |
| `ChainState.TipIntegrity` | pkg/blockchain/blockchain.go:101-185 | The same after every run that does not panic, forks included |
| `ChainState.TipIsAboveGenesis` | pkg/blockchain/blockchain.go:101-185 | The tip lies exactly length minus one parent steps above genesis |
| `ChainState.InWindow` | pkg/blockchain/blockchain.go:129-132 | The unsafe hashes are exactly the active blocks less deep than the window |
| `ChainState.ForkSearchIsExact` | pkg/blockchain/blockchain.go:308-328 | The search returns the deepest common ancestor and the exact number of steps when it is in the window and at most a window length back, and fails in every other case |
| `ChainState.BranchExists` | pkg/blockchain/blockchain.go:308-328 | Every stored block has a branch point with the active chain |
| `ChainState.LongerForkIsFound` | pkg/blockchain/blockchain.go:133-149 | A branch one block longer than the active chain that splits inside the window is found |
| `ChainReplay.NewReplays` | pkg/blockchain/blockchain.go:38-67 | A new chain's coin database is the replay of its genesis block |
| `ChainReplay.AppendReplays` | pkg/blockchain/blockchain.go:101-137 | Appending an accepted block replays it on top of the active chain and stores an undo block of exactly what it spent; every other undo block is as right or wrong as before |
| `ChainReplay.SideBlockReplays` | pkg/blockchain/blockchain.go:101-137 | Storing a block beside the active chain leaves the replayed state and the undo blocks of the active chain alone |
| `ChainReplay.HandledForkSearch` | pkg/blockchain/blockchain.go:133-149 | For a block above the tip, recorded in a replayed state: the search finds its branch point exactly when that lies in the window and at most a window length back; only then is the block adopted |
| `ChainReplay.HandledForkIsFound` | pkg/blockchain/blockchain.go:133-149 | A block one higher than the tip on a branch that splits inside the window is found |
| `ReplayRuns.HandleReplays` | pkg/blockchain/blockchain.go:101-149 | In a replayed state, a handled block is appended exactly when it extends the tip and is accepted by the replayed ledger; a rejected block changes nothing; a side block, a higher one whose fork search fails, or an active one handled again is only recorded |
| `ReplayRuns.RetakenExactly` | pkg/blockchain/blockchain.go:188-221 | An undo block taken at any time after its block was stored lists exactly what the block spent if and only if every coin it spent is still known, spent or not; otherwise it is empty |
| `ReplayRuns.RehandledExactly` | pkg/blockchain/blockchain.go:101-121 | Handling an active block again keeps the ledger, the active chain, the window and every other undo block; its own is right afterwards if and only if every coin it spent is still known |
| `ReplayRuns.RehandledAfterFlush` | pkg/blockchain/coindatabase/coindatabase.go:377-396 | Right after a flush, handling an active block again keeps its undo block right if and only if the ledger would accept the block once more; otherwise an empty one takes its place |
| `ReplayRuns.CheckedBlockReplays` | pkg/validation.go:71-86 | An active block that passes the node's check, as one sent again by a peer must, is handled again without losing anything |
| `ReplayRuns.ReplacedExactly` | pkg/blockchain/blockchain.go:101-121 | A block with the header of an active one and other transactions replaces it on disk and changes nothing else; the state is still the replay of the active chain if and only if the chain with the new transactions is accepted and has the same ledger |
| `ReplayRuns.StateEqualsReplay` | pkg/blockchain/blockchain.go:101-149 | After every run of handled blocks and flushes in which no fork is adopted, active blocks handled again included: the ledger is the fold of the active blocks from genesis, the unsafe hashes are the last min(6, length) hashes, and a stored undo block lists what its block spent if and only if the block was not last handled again with one of its coins forgotten |
| `StaleUndo.RetrieveExactly` | pkg/blockchain/blockchain.go:330-347 | The last blocks of a chain can be read back for undoing if and only if each of them has an undo block |
| `StaleUndo.ForkPanicsExactly` | pkg/blockchain/blockchain.go:143-153 | After such a run, adopting a fork found n steps back panics if and only if one of the last n active blocks spends nothing or lost its undo block |
| `StaleUndo.RehandlingFails` | pkg/blockchain/blockchain.go:101-121 | From a new chain: append a block that spends the genesis coin, flush, handle it again, and its undo block is lost |
| `StaleUndo.ReplacingFails` | pkg/blockchain/blockchain.go:101-121 | From a new chain: append an empty block, then handle one with the same header and a coinbase; it passes the check, and the coin is on the active chain but not in the ledger |
| `StaleUndo.NewLedger` | pkg/blockchain/blockchain.go:71-93 | A new chain has exactly one coin, of the initial subsidy, locked with the genesis key |
| `StaleUndo.NewCapacity` | pkg/blockchain/coindatabase/config.go:10-15 | Its cache has room for thirty coins |
| `AdoptedForks.RetrievedAre` | pkg/blockchain/blockchain.go:334-347 | Reading blocks back gives the last n blocks of the active chain with their undo blocks, newest first |
| `AdoptedForks.AdoptedForkRevives` | pkg/blockchain/blockchain.go:143-185 | After an adopted fork every coin that one of the undone blocks created is unspent unless an older one of them spends it, also the coins newer ones had spent |
| `AdoptedForks.AdoptedForkReturns` | pkg/blockchain/blockchain.go:143-185 | A coin the undone blocks spent that had been flushed out, and that undoing them restores, is unspent after the fork although those blocks are stored again |
| `AdoptedForks.AdoptedWindow` | pkg/blockchain/blockchain.go:151-167 | The unsafe hashes after a fork, exactly: what the truncation leaves of the old window and then the old chain's last n hashes, so they never end in the new tip |
| `BlockChain.Reverse` | pkg/blockchain/blockchain.go:349-362 | The list back to front |
| `BlockChain.BlockChain.constructor` | pkg/blockchain/blockchain.go:38-67 | The genesis block is stored, recorded at height one and the tip |
| `BlockChain.BlockChain.MakeUndoBlock` | pkg/blockchain/blockchain.go:188-221 | Every input with its coin, or an empty undo block when one is missing |
| `BlockChain.BlockChain.HandleBlock` | pkg/blockchain/blockchain.go:101-137 | Appends, rejects, stores beside the chain or forks as the value model does, and panics exactly when it does |
| `BlockChain.BlockChain.Append` | pkg/blockchain/blockchain.go:123-132 | The new tip, length, window and coin database of an appended block |
| `BlockChain.BlockChain.HandleFork` | pkg/blockchain/blockchain.go:143-185 | The whole state after a fork, or a panic, as the value model says |
| `BlockChain.BlockChain.StoreForkBlocks` | pkg/blockchain/blockchain.go:173-179 | Stores the fetched blocks whether or not they validate |
| `BlockChain.BlockChain.TrimWindow` | pkg/blockchain/blockchain.go:154-163 | Drops unsafe hashes from the end down to the ancestor or index 0 |
| `BlockChain.BlockChain.GetForkLengthAndAncestor` | pkg/blockchain/blockchain.go:308-328 | The loop returns what the search specification returns, with a negative length exactly on failure |
| `BlockChain.BlockChain.GetBlocksAndUndoBlocks` | pkg/blockchain/blockchain.go:334-346 | The last n blocks with their undo blocks and hashes, newest first, or a failed read |
| `BlockChain.BlockChain.GetHashes` | pkg/blockchain/blockchain.go:279-297 | Exactly the hashes of the tip's chain at the heights asked for, in order |
| `BlockChain.BlockChain.GetBlocks` | pkg/blockchain/blockchain.go:250-274 | Exactly the blocks of the tip's chain at the heights asked for, in order |
| `BlockChain.SliceIsChain` | pkg/blockchain/blockchain.go:250-297 | The block at each height is a stored record of that height whose parent is at the height below |
| `BlockChain.BlockChain.GetInputSums` | pkg/blockchain/blockchain.go:379-398 | For each transaction the sum of its known input coins modulo 2^32 |
| `Mining.SumOutputs` | pkg/block/transaction.go:164-170 | The sum of the output amounts modulo 2^32 |
| `Mining.Miner.CalculateFees` | pkg/miner/mine.go:140-183 | Inputs minus outputs, or zero when the outputs are at least the inputs |
| `Mining.Miner.CalculateMintingReward` | pkg/miner/mine.go:194-204 | The subsidy divided by two once per era, zero from the cutoff on, with at most 32 halvings; beyond, whatever the platform's conversion of the power of two to 32 bits makes of it, or a panic when that is zero |
| `Mining.Miner.GenerateCoinbaseTransaction` | pkg/miner/mine.go:117-137 | One output of fees plus reward to the miner and no inputs, or a panic exactly when the reward has one |
| `Mining.RewardWithin32` | pkg/miner/mine.go:194-204 | With at most 32 halvings the reward never panics and is the halved subsidy |
| `Mining.HalvingsAreFew` | pkg/miner/mine.go:197-202 | With at most 32 halvings the power of two fits the 32-bit divisor whenever a reward is computed |
| `Mining.RewardByEras` | pkg/miner/mine.go:194-204 | The whole subsidy in the first era, half of it rounded down from each era to the next, and nothing from the wrapped product of rate and halvings on |
| `Mining.UnknownCountNothing` | pkg/blockchain/blockchain.go:379-398 | Inputs whose coins are not known count nothing in the input sums |
| `Mining.CoinbaseIsMined` | pkg/blockchain/blockchain.go:379-398 | The coinbase a miner generates with the input sums the node answers with is that of the mined block whose value is accounted for |
| `Mining.MinedBlockMints` | pkg/miner/mine.go:117-159 | Storing a mined block raises the total value by exactly the minting reward less the value it overwrites |
| `Mining.FreshBlockMints` | pkg/miner/mine.go:117-159 | With fresh hashes the total rises by exactly the minting reward |
| `Supply.RunMintsRewards` | pkg/miner/mine.go:117-159 | A run of mined blocks raises the total by exactly the sum of its rewards less what it overwrites |
| `Supply.MintedIsBounded` | pkg/miner/mine.go:194-204 | Within one round of the 32-bit chain length, from whichever length, at most 2 * SubsidyHalvingRate * InitialSubsidy is minted |
| `Supply.SupplyIsBounded` | pkg/miner/mine.go:194-204 | However many blocks are mined, the total grows by at most 2 * SubsidyHalvingRate * InitialSubsidy for every round of the chain length begun, so by that bound for fewer than 2^32 blocks |
| `Supply.BoundedExactly` | pkg/miner/mine.go:194-204 | What is minted stays within that one bound for every number of blocks if and only if the cutoff or the subsidy is zero |
| `Supply.AllRewardsCanBeMinted` | pkg/miner/mine.go:117-204 | Any sum of rewards below 2^32 is the total value after some run of minable blocks from an empty database |
| `Supply.SupplyBoundFails` | pkg/miner/mine.go:194-204 | A run that exceeds the bound: a subsidy of one, one era of one block, three rounds of the chain length |
| `ChannelState.VersionsAgreeExactly` | pkg/lightning/lightningnode.go:220-279 | The two versions of an update agree on the amount at every output if and only if it has two or three outputs |
| `ChannelState.AnswerPaysBoth` | pkg/lightning/lightningnode.go:220-279 | A responder's version pays the initiator its coin to its key alone and the responder its coin revocably, with the amounts, change, inputs, version and lock time of the update |
| `ChannelState.RefundSpendsFunding` | pkg/lightning/lightningnode.go:151-207 | The refund spends outputs 0 and 2 of the funding transaction with the funder's key, into one multi-party output, signed by the funder |
| `ChannelSystem.OpenInv` | pkg/lightning/channel.go:49-102 | An opened channel, refund signed by both sides, satisfies the invariant of the protocol |
| `ChannelEntries.OpenRecordsKeys` | pkg/lightning/channel.go:60-101 | Both parties start with the refund alone in both lists, their own keys recorded for it, the funder's revoking its output |
| `ChannelTheorems.StepKeepsInv` | pkg/lightning/channel.go:105-147 | Every segment of an update, whatever else is in flight, keeps the invariant |
| `ChannelTheorems.RunKeepsInv` | pkg/lightning/channel.go:105-147 | So does every interleaving of any number of updates from either side |
| `ChannelTheorems.QuietSystemsConverge` | pkg/lightning/server.go:99-163 | Once nothing is in flight both states are the number of finished updates and each side's own list is the other side's list of it, as multisets |
| `ChannelTheorems.AlwaysBroadcastable` | pkg/lightning/channel.go:113-124 | In every reachable state every own transaction carries the other side's signature over its hash, and a key travels only after the update is in the sender's own list |
| `ChannelTheorems.RevocationsWork` | pkg/lightning/channel.go:115-146 | The info an initiator stores names the responder's own transaction and own output, and a key lets the wallet claim exactly that output, less the fee, if and only if it is the revealed one |
| `ChannelTheorems.SerialUpdatesAgree` | pkg/lightning/channel.go:79-147 | Updates one at a time leave the lists equal position by position, of length state plus one, with equal amounts in both versions |
| `ChannelEntries.EveryEntryIsAccountedFor` | pkg/lightning/lightningnode.go:220-279 | In every run of an opened channel, each entry of either list of either party is the refund, an update its owner began, or a version of an update the other began that pays the other its coin outright and keeps amounts, change, inputs and lock time |
| `ChannelEntries.OpenKeysFit` | pkg/lightning/channel.go:60-101 | An opened channel has recorded only keys that fit, so the next row holds in all of its runs |
| `ChannelEntries.SentKeysFit` | pkg/lightning/channel.go:119-124 | An initiator sends a key exactly when it has one for the update, and that key revokes its own coin of that very update |
| `ChannelEntries.ResponderInfoExactly` | pkg/lightning/server.go:135-157 | What a responder records is its own coin with the received key, which claims that coin if and only if it is the responder's own revocation key |
| `Revocation.ClaimTakesOutput` | pkg/wallet/wallet.go:343-382 | A claim is made if and only if the script is multi-party or time-locked and its revocation key is the public half of the key; it spends exactly the named output and pays its amount less the fee to the wallet |
| `Channel.Channel.constructor` | pkg/lightning/channel.go:79-102 | Both sides start with the refund in both lists and its key recorded |
| `Channel.Channel.GetUpdatedTransactions` | pkg/lightning/server.go:99-123 | Signs the update, lists it as the other side's, and answers with an own version whose key is recorded |
| `Channel.Channel.GenerateTransactionWithCorrectScripts` | pkg/lightning/lightningnode.go:220-279 | Own output revocable, the other's plain, amounts in place, change kept |
| `Channel.Channel.UpdateStateExchange` | pkg/lightning/channel.go:105-124 | Lists the countersigned update, signs the other version, and sends it with the recorded key |
| `Channel.Channel.GetRevocationKey` | pkg/lightning/server.go:125-163 | Lists the own version, records the received key, counts the state and answers with the own key, or answers with an error |
| `Channel.Channel.UpdateStateFinish` | pkg/lightning/channel.go:125-147 | Counts the state and records the revealed key for the responder's output |
| `WalletPools.PoolsAreDisjoint` | pkg/wallet/wallet.go:158-272 | What the invariant means: no coin is in two pools or under two hashes |
| `WalletPools.RequestKeepsInv` | pkg/wallet/wallet.go:158-192 | A request moves the picked coins to the unseen ones and keeps the balance the value of the collection |
| `WalletPools.BlockKeepsInv` | pkg/wallet/wallet.go:199-272 | A block that delivers outputs not yet kept keeps the invariant |
| `WalletPools.ForkKeepsInv` | pkg/wallet/wallet.go:281-339 | Reverting transactions with distinct inputs keeps the invariant |
| `WalletRuns.WalletStaysConsistent` | pkg/wallet/wallet.go:158-339 | Over every run of requests, blocks and forks: pools pairwise disjoint, balance the value of the collection modulo 2^32, counters at most the safe amount |
| `WalletRuns.ReceivedStep` | pkg/wallet/wallet.go:281-339 | A received coin goes if and only if a fork reverts its own output, which pays the wallet, while its counter is short of the safe amount; any other event counts, keeps or releases it |
| `WalletRuns.ReceivedCounts` | pkg/wallet/wallet.go:232-259 | Unless removed in that way, a received coin counts one per block and becomes spendable when its counter is full |
| `WalletRuns.SpendableExactlyOnTime` | pkg/wallet/wallet.go:199-259 | Counting the delivering block as the first, a received coin that no fork removes becomes spendable exactly at block number SafeBlockAmount + 1 |
| `WalletLife.TransactionMoves` | pkg/wallet/wallet.go:199-230 | A transaction of a block brings exactly its outputs locked to the wallet's key, with counter zero, and makes exactly the coins waiting under its hash spent, with counter zero |
| `WalletLife.NothingFromNowhere` | pkg/wallet/wallet.go:158-339 | Whatever the wallet keeps after an event it kept before, or it is an output of the block locked to its key |
| `WalletLife.AllCoinsAreOwn` | pkg/wallet/wallet.go:158-339 | Over every run, every coin in any of the four pools is locked to the wallet's key and is the output its locator names |
| `WalletLife.CollectedStep` | pkg/wallet/wallet.go:158-192 | A spendable coin stays until a request that the balance covers picks it, and then waits under that transaction's hash |
| `WalletLife.UnseenStep` | pkg/wallet/wallet.go:199-230 | A waiting coin stays until a block includes its transaction, which it then counts as its first |
| `WalletLife.SpentStep` | pkg/wallet/wallet.go:232-315 | A spent coin counts one per block and is forgotten after its counter is full; a fork that reverts its spending before makes it wait under that transaction's hash again |
| `WalletLife.SpentCounts` | pkg/wallet/wallet.go:232-259 | Over every run, unless a fork takes it back, a spent coin is forgotten exactly at the block after its counter has reached the safe amount |
| `Wallet.Wallet.GenerateTransactionInputs` | pkg/wallet/wallet.go:87-118 | For every iteration order: distinct coins of the collection, stopping as soon as the target is reached, their inputs and the change |
| `Wallet.Wallet.RequestTransaction` | pkg/wallet/wallet.go:158-192 | A transaction is made exactly when the balance covers a positive target and there are coins; the new pools and balance; otherwise nothing changes |
| `Wallet.Wallet.HandleBlock` | pkg/wallet/wallet.go:199-220 | Moves seen coins, receives own outputs, then updates confirmations |
| `Wallet.Wallet.HandleSeenCoins` | pkg/wallet/wallet.go:263-272 | Moves the unseen coins of a hash to the spent ones with counter zero |
| `Wallet.Wallet.AddCoins` | pkg/wallet/wallet.go:206-230 | Receives exactly the outputs that pay the wallet, with counter zero |
| `Wallet.Wallet.UpdateConfirmations` | pkg/wallet/wallet.go:232-259 | Full counters leave their pool, received ones into the collection and balance; all others count one |
| `Wallet.Wallet.HandleFork` | pkg/wallet/wallet.go:281-331 | Reverts the transactions of all blocks in order, against any index of the spent coins |
| `Wallet.Wallet.IndexSpent` | pkg/wallet/wallet.go:283-291 | Every spent coin's locator leads to a spent coin with that locator |
| `Wallet.Wallet.RevertSpending` | pkg/wallet/wallet.go:295-314 | Unconfirmed spent coins of the transaction's inputs go back to a list of unseen coins |
| `Wallet.Wallet.RemoveFromUnconfirmed` | pkg/wallet/wallet.go:333-339 | Drops exactly the unconfirmed received coins of the given output object |
| `Wallet.Wallet.HandleRevokedOutput` | pkg/wallet/wallet.go:343-449 | A claim is made exactly when the key fits the script; it is signed and has one output of the amount less the fee |
| `Wallet.Wallet.GenerateFundingTransaction` | pkg/wallet/wallet.go:386-426 | Three outputs of amount, zero and change plus fee, paid by a selection for amount plus two fees |
| `Wallet.SelectionReachesTarget` | pkg/wallet/wallet.go:87-118 | When the collection suffices, selection reaches its target and would not without its last coin, in every order |
| `Wallet.RequestConserves` | pkg/wallet/wallet.go:121-192 | A request the balance covers spends exactly its outputs plus the fee if and only if amount plus fee do not wrap around and the recipient's key is not empty, or with an empty key the coins are just the fee |
| `Wallet.RequestExactly` | pkg/wallet/wallet.go:121-192 | The same for any picked coins and any overflow: exactly when they reach amount plus fee by less than 2^32 |
| `Payments.RequestPays` | pkg/wallet/wallet.go:121-192 | A request spends exactly the picked coins, each signed by the wallet, pays the recipient's key exactly the amount and the wallet's own key exactly the rest less the fee |
| `Payments.RequestArrives` | pkg/wallet/wallet.go:199-218 | When its block arrives, the recipient's wallet receives exactly one coin of the amount and the payer's exactly its change, if any |
| `Payments.RequestRaisesBalance` | pkg/blockchain/coindatabase/coindatabase.go:399-418 | Storing it raises what the ledger locks with the recipient's script by exactly the amount |
| `Wallet.FundingExactly` | pkg/wallet/wallet.go:386-426 | A funding transaction spends exactly its outputs plus the fee if and only if the picked coins reach amount plus one fee by less than 2^32, whatever overflows |
| `Wallet.FundingAndRefundConserve` | pkg/lightning/lightningnode.go:151-201 | Without overflow of the target: funding conserves value if and only if the collection covers amount plus one fee, and picked coins equal the refund's output plus two fees if and only if it covers amount plus both, or covers two fees while short of amount plus one |
| `Gossip.Node.BroadcastTransaction` | pkg/node.go:120-146 | Keeps the whole transaction, hands it to the miner if there is one, and sends it stripped of witnesses to every peer |
| `Gossip.Node.GetWitnesses` | pkg/server.go:261-273 | The witnesses of the kept transaction, or an error when it is unknown |
| `Gossip.Node.ForwardTransaction` | pkg/server.go:163-218 | Counts a known transaction, fetches witnesses for a new SegWit one, and passes the message on to the miner and every peer as it came |
| `Gossip.Node.ForwardBlock` | pkg/server.go:221-258 | Counts the block; counted more than once before it is ignored, invalid it is an error, and otherwise it is handed to the chain, to miner and wallet when it is on the tip, and to every peer |
| `Gossip.Node.HandleMinerBlock` | pkg/node.go:221-246 | Counts the mined block once and hands it to the chain, the wallet and every peer |
| `Gossip.EveryPeerIsSent` | pkg/node.go:129-145 | One message to every peer and to nobody else |
| `WitnessGossip.StepKeepsInv` | pkg/server.go:163-218 | Every broadcast, repeated ones of the originator included, and every delivery keeps the network's entries faithful to the originators' |
| `WitnessGossip.DeliveryCounts` | pkg/server.go:163-218 | A delivery counts the transaction once more at its receiver, once if it is new, in no other table, and sends it to every peer of the receiver unless the witness request fails |
| `WitnessGossip.BroadcastReaches` | pkg/node.go:120-146 | A broadcast keeps the whole transaction and is on its way, without witnesses, to every peer |
| `WitnessGossip.WitnessesPropagate` | pkg/server.go:163-218 | In every run a node's entry is the originator's transaction with its witnesses if and only if it is SegWit, the node's own, or has no witnesses |
| `WitnessGossip.WitnessRequestsSucceed` | pkg/server.go:261-273 | Every message in flight is stripped and its sender can answer the witness request |
| `BlockFlooding.DeliveryDecreases` | pkg/server.go:221-258 | Every delivery decreases the pair of forwards left and messages in flight |
| `BlockFlooding.FloodingIsBounded` | pkg/server.go:221-258 | In every delivery order each node forwards at most twice and messages use up a fixed budget |
| `BlockFlooding.TotalMessages` | pkg/server.go:221-258 | All messages together are at most the initial ones plus twice the sum of the peer-list sizes |
| `BlockFlooding.FirstTwoAreForwarded` | pkg/server.go:221-258 | A node that finds the block valid sends it to all its peers at its first and second sight, and at no later one |
| `BlockFlooding.ValidBlocksAreForwarded` | pkg/server.go:221-258 | While every delivery finds it valid, each node has forwarded the block once for every sight up to two |
| `BlockFlooding.MinedBlockFloods` | pkg/node.go:221-246 | For a block a node has mined: every node, its own included, forwards at most twice, and all messages are at most twice the sum of the peer-list sizes |
| `BlockFlooding.MinedBlockStarts` | pkg/node.go:221-246 | A mined block starts on its way to every peer of its node, counted and sent there alone |
| `ChainFiles.FileNamesAreDistinct` | pkg/blockchain/chainwriter/chainwriter.go:121-124 | Two file names are equal exactly if base name and number are |
| `ChainFiles.ItoaStandsFor` | pkg/blockchain/chainwriter/chainwriter.go:117-121 | File numbers are written in the decimal digits that stand for them |
| `ChainFiles.ReadExactly` | pkg/blockchain/chainwriter/readwrite.go:26-41 | A location can be read exactly when its file exists and, unless empty, it ends inside it, and gives exactly that range |
| `ChainLog.WriteKeepsInv` | pkg/blockchain/chainwriter/chainwriter.go:110-188 | Every write keeps each file equal to the records located in it, in order |
| `ChainLog.EveryRecordReadsBack` | pkg/blockchain/chainwriter/readwrite.go:9-41 | After any run of writes every location ever returned reads back exactly its bytes |
| `ChainLog.RangesAreContiguous` | pkg/blockchain/chainwriter/chainwriter.go:110-188 | Ranges in one file are disjoint, in order and without gaps |
| `ChainLog.OffsetsAndSizes` | pkg/blockchain/chainwriter/chainwriter.go:110-188 | The current offset is the current file's length, and every file is below its limit or holds a single record |
| `ChainLog.RotatesExactly` | pkg/blockchain/chainwriter/chainwriter.go:110-138 | A record goes into the current file exactly when that stays below its limit, and otherwise to the start of the next one |
| `ChainLog.RoundTripExactly` | pkg/blockchain/chainwriter/chainwriter.go:110-188 | Every location of every run reads back if and only if blocks and undo blocks have different base names |
| `ChainLog.StoredBlocksReadBack` | pkg/blockchain/chainwriter/chainwriter.go:62-94 | For every run of stored blocks each block and undo block reads back, and a block stored without undo data has no readable undo location |
| `ChainWriter.ChainWriter.WriteToDisk` | pkg/blockchain/chainwriter/readwrite.go:9-21 | Appends to the file, creating it if needed |
| `ChainWriter.ChainWriter.ReadFromDisk` | pkg/blockchain/chainwriter/readwrite.go:24-41 | The bytes of the range, or a failure when the file is missing or too short |
| `ChainWriter.ChainWriter.WriteBlock` | pkg/blockchain/chainwriter/chainwriter.go:110-138 | Rotates when the limit would be reached, appends, and returns where |
| `ChainWriter.ChainWriter.WriteUndoBlock` | pkg/blockchain/chainwriter/chainwriter.go:159-188 | The same for undo blocks, with their own cursor |
| `ChainWriter.ChainWriter.StoreBlock` | pkg/blockchain/chainwriter/chainwriter.go:62-94 | Writes the block, and the undo block only when it has amounts, and records both locations |
| `Merkle.CalculateMerkleRoot` | pkg/block/block.go:133-161 | On every non-empty list the loop ends and returns the root of the tree defined from the top, in which a node without a neighbour is paired with itself |
| `Merkle.PairUp` | pkg/block/block.go:146-153 | One round makes the next level, half as long rounding up |
| `Merkle.RootDeterminesLeaves` | pkg/block/block.go:133-161 | Lists of equal length have equal roots if and only if their leaf hashes are equal |
| `Merkle.OddListRepeatsLast` | pkg/block/block.go:133-161 | An odd list longer than one has the root of itself with its last element repeated |
| `Merkle.RootOfPairs` | pkg/block/block.go:133-161 | One leaf is its own root, two make their pair in order, and any longer list has the root of its pairs |
| `HeapOrder.FirstIsMaximal` | pkg/block/transactionheap.go:50-52 | In an ordered heap no priority exceeds the first |
| `HeapOrder.RemovalIsExact` | pkg/block/transactionheap.go:134-154 | As bags of hashes the heap loses exactly the listed transactions it has, one node per occurrence, and reports exactly those |
| `HeapOrder.LeftAreNodes` | pkg/block/transactionheap.go:134-154 | The nodes left were there before, and their priorities and the reported total add up to the old sum |
| `HeapOrder.ThresholdIsExact` | pkg/block/transactionheap.go:210-220 | When no hash has nodes on both sides of the threshold, so with distinct hashes, exactly the nodes below it are left |
| `HeapOrder.IncrementKeepsOrder` | pkg/block/transactionheap.go:57-61 | Incrementing keeps the order if and only if the largest priority does not wrap around, or all do |
| `TransactionHeap.Heap.Add` | pkg/block/transactionheap.go:39-47 | Adds the node and keeps an ordered heap ordered; a nil transaction changes nothing |
| `TransactionHeap.Heap.GetFirst` | pkg/block/transactionheap.go:50-52 | The first node, which in an ordered heap has maximal priority, if there is one |
| `TransactionHeap.Heap.IncrementAll` | pkg/block/transactionheap.go:57-61 | Every priority plus one modulo 2^32, in place |
| `TransactionHeap.Heap.GetIndex` | pkg/block/transactionheap.go:165-177 | The first node with the transaction's hash, found exactly when there is one |
| `TransactionHeap.Heap.Has` | pkg/block/transactionheap.go:187-199 | Whether a node has the transaction's hash |
| `TransactionHeap.Heap.Remove` | pkg/block/transactionheap.go:134-154 | The nodes left, reordered into a heap, the transactions found and their total priority; a nil transaction ends it early with nothing reported |
| `TransactionHeap.Heap.RemoveAboveThreshold` | pkg/block/transactionheap.go:210-220 | Removes and returns the transactions at or above the threshold |
| `TransactionHeap.Heap.Up` | pkg/block/transactionheap.go:45-46 | Sifting up keeps the nodes, and orders a heap that was ordered but for the pushed node |
| `TransactionHeap.Heap.Init` | pkg/block/transactionheap.go:152-152 | Sifting every inner node down orders any slice and keeps its nodes |
| `TransactionPool.PriorityIsFeeRate` | pkg/miner/transactionpool.go:63-78 | Without overflow the priority is a hundred times the fee over the size, rounded down, and at least one |
| `TransactionPool.CalculatePriority` | pkg/miner/transactionpool.go:63-78 | The priority in 32-bit arithmetic, zero for a nil transaction, and a panic when the size wraps around to zero |
| `TransactionPool.AddAgrees` | pkg/miner/transactionpool.go:86-101 | Adding keeps the counters in step with the heap and within the capacity |
| `TransactionPool.AddsExactly` | pkg/miner/transactionpool.go:86-101 | A transaction is taken in exactly when it is not nil, there is room and its size does not wrap around to zero; the heap then holds it beside what it held |
| `TransactionPool.CheckKeepsPriority` | pkg/miner/transactionpool.go:105-111 | Checking keeps the cumulative priority the sum of the heap's, with or without nil transactions |
| `TransactionPool.CheckKeepsCountExactly` | pkg/miner/transactionpool.go:105-111 | Checking keeps the count the heap's length if and only if the list has no nil transaction or nothing was found before it |
| `TransactionPool.PoolStaysInStep` | pkg/miner/transactionpool.go:86-111 | After any run of adds and checks the heap is ordered with a maximal first node, the count is its length and at most the capacity, and the priority is its sum modulo 2^32 |
| `TransactionPool.TxPool.PriorityMet` | pkg/miner/transactionpool.go:55-57 | Whether the counter reaches the limit, so in a pool in step whether the heap's priorities together do, modulo 2^32 |
| `TransactionPool.TxPool.Add` | pkg/miner/transactionpool.go:86-101 | Adds a transaction with its priority unless it is nil, the pool is full or computing the priority panics |
| `TransactionPool.TxPool.CheckTransactions` | pkg/miner/transactionpool.go:105-111 | Removes the listed transactions and lowers both counters by what was reported |

## Left out

- The whole coin state after an adopted fork: the code stores the old chain's own blocks again, so beside the tip, the height and the window only the coins that come back are described.
- ReplayRuns.StateEqualsReplay: a block with an active header and other transactions is not a step of its runs, since the replay then fails in general; `ReplayRuns.ReplacedExactly` says exactly when it does not.
- Storing and flushing after an undo: `CoinUndo.UndoLeavesDuplicates` shows that the storage invariant is not re-established.
- Double spends inside one block: every transaction of a block is validated against the same state; conservation of value takes pairwise distinct inputs as a condition.
- Coin records' Version field, and the parallel slices of a record as three lists: a record is a list of rows.
- Block files inside the chain model: a block record holds the block and undo block themselves, and `ChainLog` shows separately that locations read back; heights and output indexes are natural numbers.
- Fork panics: an undo block that was never written is a failed read, modelled as a panic of the whole call.
- Rewards with more than 32 halvings in the supply results: converting a larger power of two to 32 bits is not defined by the language, so there the reward is a parameter.
- Go's container/heap is not part of the repository; `Heap.Up`, `Heap.Down` and `Heap.Init` follow the Go standard library's up, down and Init.
- Revoking earlier states: the initiator sends the key of the update itself, and the responder records its own coin, as `ChannelEntries.SentKeysFit` and `ChannelEntries.ResponderInfoExactly` state.
- Remote errors, time-outs, unknown peers and goroutine scheduling: a remote call is answered or the whole step does not happen.
- Hashed time-lock scripts' extra fields, script decoding round trips, watch towers and stubbed validation.
- Flooding of transactions: they are forwarded however often they were seen, so no bound holds.
- The Merkle root of an empty list, on which the loop does not end.
- Requests for block data with their limit of 500 hashes, nonce search, mining pools, addresses and peers, logging and configuration.
- ECDSA, SHA-256, x509, the protobuf wire format, leveldb and the file system themselves.
