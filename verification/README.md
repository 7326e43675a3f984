# Verified model of the Ferminux node core

This project models the chain management of the Ferminux node (Go package `chain/core`,
with `chain/event/feed.go` and `chain/accounts/hd.go`) in Dafny and proves its central
invariants. Hashes, addresses and channels are opaque numbers, the database is a set of
maps, and a lock-protected section is one atomic step.

- **Canonical chain** — `Options`, `BlockTree`, `ForkChoice`, `Branches`, `TxIndex`, `BlockChain`,
  `ChainRuns`. A block tree with a number-to-hash index, a transaction lookup index, head
  markers and total difficulties. `BlockChain.Chain` carries the head-moving operations
  with the code's loops; `ChainRuns` proves what holds in every state of every run:
  the index is the head's branch, the lookup is exact, the reorganisation cap makes a
  prefix final, and the head's rank never falls.
- **Header chain and ancestry** — `HeaderChain`, `Ancestry`: batch import, reorganisation
  and rewind of headers; the two fast ancestor searches against the plain parent walk.
- **Section indexer** — `ChainIndexer`: a state machine over its locked sections with
  arbitrary chain changes in between.
- **Event feed** — `Feed`: the send algorithm on one shared array.
- **Gas and value** — `StateTransition`: message execution and block processing, with the
  EVM as a parameter that conserves balances and never returns more gas than it got. Fees
  follow the "Specification" section of EIP-1559, the refund cap that of EIP-3529.
- **Derivation paths** — `DerivationPath`: the parser against the printer.
- **Transaction pool** — `PoolLists`, `PoolState`, `PoolSteps`, `PoolReorg`, `PoolRuns`,
  `PoolGaps` describe the pool as a value and prove the partition and the contiguity of
  pending nonces over all runs. `NonceHeap`, `TxSortedMap`, `TxList`, `TxLookup`,
  `TxNoncer`, `PricedList`, `Truncation`, `TxPool`, `PoolAdmission`, `PoolOffers`,
  `PoolReset`, `PoolMaintenance` and `HeadChanges` are the imperative parts, each proved to do what the
  value functions say, up to admission to a full pool (`PoolAdmission.Add`), the whole
  reorganisation run (`PoolMaintenance.RunReorg`) and the step from two heads and their
  blocks to that run (`HeadChanges.Follow`).

## Properties that do not hold as documented

- `GetAncestor` is meant to return the ancestor a plain walk finds. For the zero hash above
  the head the missing index entry "matches" and a canonical hash comes back.
  `Ancestry.GetAncestor` states exactly when the answer differs, `Ancestry.ZeroHashExample`
  shows it.
- Pending nonces are meant to be gap-free. When a reorganisation lowers an account's nonce
  a gap can stay, because demotion only looks at the state nonce.
  `PoolGaps.ResetIffNoGap` gives the exact condition, `PoolGaps.GapExample` an instance that
  a reset makes of a contiguous pool (`PoolGaps.ExampleReached`).
- `IntrinsicGas` guards the payload part against overflow but not the access-list part.
  `StateTransition.IntrinsicGas` says when its result is the true price and
  `StateTransition.IntrinsicWrapExample` shows a list for which it is not. No message is that
  large: up to 2^50 bytes, entries and keys the result is exact (`StateTransition.IntrinsicFits`).
- Discarding is meant to free the slots it counts. A transaction that left the pool and came
  back before a reheap is tracked twice. `demoteUnexecutables` removes mined transactions
  without telling the price list, and `reset` offers them again when their block is
  abandoned; before London no new head reheaps in between, however few entries there are.
  Elsewhere up to a quarter of the entries may be stale before a reheap. Such a transaction
  can be dropped and counted twice (`PricedList.DroppedTwice`), and the pool can end over its capacity
  (`PoolAdmission.OverCapacity`). The slots counted are freed if and only if no transaction
  is dropped twice (`PoolAdmission.RoomIffDistinct`). With every live entry tracked once none
  is (`PricedList.DropsDistinct`), and once all entries have to go none is if and only if
  each was tracked once (`PricedList.DistinctIffOnce`). Reheaping makes it so; tracking one
  more transaction keeps it so if and only if no entry, stale or live, has its hash
  (`PricedList.OnceIffUntracked`). Under this condition the pool stays within its capacity
  (`PoolAdmission.Add`).
- The remote transactions are meant to be those of accounts that are not local. A local
  transaction that replaces a pending one of such an account is filed as local without
  marking the account. `PoolAdmission.NonLocalIff` shows that this is the only case.
- The empty derivation path prints as `m`, which does not parse; every other path returns.

## Model

| member | source | states |
|---|---|---|
| ForkChoice.ChoiceIsRank | chain/core/forkchoice.go:77-127 | The choice is the lexicographic order on (authority, total difficulty, lower number); only exact ties are left to the preserve rule and the coin |
| BlockTree.WorkStored | chain/core/blockchain.go:1262-1274 | A stored total difficulty is the sum of difficulties along the ancestry |
| BlockChain.FindFork | chain/core/blockchain.go:2022-2079 | The two descents meet in a common block and collect both branches above it, exactly if the branches fork in the store |
| BlockChain.ForkIsLastShared | chain/core/blockchain.go:2022-2079 | The branches agree at a number if and only if it is not above the block where the descents meet |
| BlockChain.DepthMeaning | chain/core/blockchain.go:2096-2106 | The cap on dropped blocks is a cap on how deep below the head the branches part, for authority blocks only |
| BlockChain.Chain.Rewrite | chain/core/blockchain.go:2130-2165 | Writing the new branch below its head, deleting up to the first gap and deleting the lookup difference leaves indexes that the caller's head write completes |
| BlockChain.Chain.Reorg | chain/core/blockchain.go:2010-2191 | Refused exactly when the cap is exceeded, and then nothing changed; otherwise both indexes are moved except for the head's own entries |
| BlockChain.Chain.WriteHeadBlock | chain/core/blockchain.go:819-840 | Index, lookup entries and all head markers name the block |
| BlockChain.Chain.WriteKnownBlock | chain/core/blockchain.go:1247-1256 | A stored block becomes head with a sound index, or the depth cap refuses and nothing changes; SetCanonical (lines 2211-2231) takes the same steps |
| BlockChain.Chain.WriteBlockWithState | chain/core/blockchain.go:1260-1280 | Stores the block with parent difficulty plus its own, or reports an unknown ancestor and changes nothing |
| BlockChain.Chain.WriteBlockAndSetHead | chain/core/blockchain.go:1354-1400 | One import step: stored, then head, side block or refused as the fork choice and the cap say, with sound indexes in every case |
| TxIndex.LookupExact | chain/core/blockchain.go:819-830 | With unique transactions the lookup maps a transaction to a number if and only if the canonical block there holds it |
| TxIndex.RewriteIsExact | chain/core/blockchain.go:2132-2147 | Deleting dropped-but-not-re-added entries and writing the head back gives the exact lookup of the new branch |
| ChainRuns.RunSound | chain/core/blockchain.go:2010-2165 | In every state of every run the index is exactly the head's branch with nothing above, and every stored difficulty is the work of its branch |
| ChainRuns.RunLookup | chain/core/blockchain.go:2132-2147 | If no branch repeats a transaction, the lookup is exactly {transaction to number of its canonical block} in every state of every run |
| ChainRuns.RunFinal | chain/core/blockchain.go:2096-2106 | With cap D, a run whose head stays at or above an authority number m never changes a canonical block up to m - D |
| ChainRuns.RunRank | chain/core/forkchoice.go:77-127 | Along any run of imports the head's rank never falls |
| ChainRuns.AuthorityStays | chain/core/forkchoice.go:77-127 | An authority head is never replaced by a proof-of-work head |
| HeaderChain.Headers.Reorg | chain/core/headerchain.go:139-203 | The index becomes the ancestry of the last header with nothing above it |
| HeaderChain.Headers.WriteHeaders | chain/core/headerchain.go:209-261 | A contiguous batch is stored with summed difficulties, skipping a known prefix, or refused whole if its ancestor is unknown |
| HeaderChain.Headers.WriteHeadersAndSetHead | chain/core/headerchain.go:270-306 | The last header becomes head exactly if the fork choice prefers it and it is not on the head's branch; the head's rank never falls |
| HeaderChain.Headers.Rewind | chain/core/headerchain.go:580-642 | Every head marker persisted on the way down names a stored header, and what is collected is exactly what lies above n |
| HeaderChain.Headers.SetHead | chain/core/headerchain.go:574-651 | The index keeps exactly its prefix up to n and no header above n stays stored, side forks included; at or above the head nothing changes |
| HeaderChain.CutSound | chain/core/headerchain.go:625-646 | Deleting everything above a number leaves a parent-closed tree with correct difficulties |
| Ancestry.GetAncestor | chain/core/headerchain.go:406-438 | What is found is what the plain walk finds, and it is found exactly if the walk succeeds within the budget; the exception is the zero hash above the head |
| Ancestry.ZeroHashExample | chain/core/headerchain.go:406-438 | The exception on a chain of one block |
| Ancestry.WalkIsPath | chain/core/headerchain.go:406-438 | On a parent-closed store the plain walk reads off the branch |
| Ancestry.HashLookup.Get | chain/core/evm.go:81-117 | For any query sequence the growing cache answers like a fresh parent walk; over a closed store that is the block of that number on the reference's branch |
| ChainIndexer.ProcessSection | chain/core/chain_indexer.go:388-417 | Succeeds exactly if each header read extends the one before, returns the last one read, and then this closes a real branch although the chain may change between reads |
| ChainIndexer.TopImpliesAll | chain/core/chain_indexer.go:422-429 | A canonical top section makes every lower stored section canonical |
| ChainIndexer.VerifiedAllCanonical | chain/core/chain_indexer.go:422-429 | Dropping sections until the top one is canonical leaves only canonical sections |
| ChainIndexer.ReorgNoticeKeepsCanonical | chain/core/chain_indexer.go:243-275 | A notice for the common ancestor keeps only sections canonical before and after |
| ChainIndexer.NextInv | chain/core/chain_indexer.go:317-369 | Every locked section keeps the stored section heads linked by ancestry |
| ChainIndexer.RunInv | chain/core/chain_indexer.go:317-369 | ... under every interleaving of notices, queries, processing and chain changes |
| ChainIndexer.QueryAfterRun | chain/core/chain_indexer.go:422-429 | After any run a query answers only with canonical sections |
| ChainIndexer.Indexer.SetValidSections | chain/core/chain_indexer.go:479-491 | The stored sections are cut or kept as the specification says, heads above removed |
| ChainIndexer.Indexer.VerifyLastHead | chain/core/chain_indexer.go:422-429 | Drops the top sections that are not canonical |
| ChainIndexer.Indexer.NewHead | chain/core/chain_indexer.go:243-300 | New sections are known when confirmed; a reorganisation cuts stored and known sections back |
| ChainIndexer.NoticeMeans | chain/core/chain_indexer.go:256-295 | A section becomes known exactly when its last block has the confirmations; a reorganisation forgets exactly those that end above the common ancestor |
| ChainIndexer.Indexer.BeginUpdate | chain/core/chain_indexer.go:317-337 | The locked section before processing is the machine's Begin step |
| ChainIndexer.Indexer.FinishUpdate | chain/core/chain_indexer.go:350-371 | A result whose section is the first or builds on the stored head before it is stored: one section more, exactly that head gained, the known sections unchanged; else the top is dropped until canonical and the known sections are forgotten down to it |
| ChainIndexer.Indexer.Process | chain/core/chain_indexer.go:345-371 | If all reads link, the backend agrees and the section builds on the stored head, its last hash is stored; else nothing is; it is the machine's finishing step and keeps the ancestry link |
| ChainIndexer.ShiftStores | chain/core/chain_indexer.go:320-371 | While the chain does not change, one begin and finish stores the section after the last canonical one |
| ChainIndexer.CatchesUp | chain/core/chain_indexer.go:320-385 | From any reachable state every begin and finish stores one section more, all of them canonical |
| ChainIndexer.AllStored | chain/core/chain_indexer.go:320-385 | In the end as many sections are stored as were known |
| Feed.DeliveredOnce | chain/event/feed.go:128-190 | When all cases are served every channel got the value as often as it was subscribed, less at most the unsubscriptions asked for, and exactly so often if none was |
| Feed.ServedBalanced | chain/event/feed.go:159-181 | Delivering and swapping a case out of the unsent prefix keeps the bookkeeping balanced |
| Feed.RemovedBalanced | chain/event/feed.go:171-177 | Deleting a case during a send, sent or unsent, keeps the bookkeeping balanced |
| Feed.Find | chain/event/feed.go:213-220 | The first case of the channel, or -1 if there is none |
| Feed.Delete | chain/event/feed.go:223-225 | Shifts the cases above down by one |
| Feed.Deactivate | chain/event/feed.go:228-232 | Swaps the case with the last of the prefix |
| Feed.Feed.Subscribe | chain/event/feed.go:72-92 | One more subscription |
| Feed.Feed.Remove | chain/event/feed.go:103-124 | One subscription less, from the inbox or the case list |
| Feed.Feed.Send | chain/event/feed.go:128-190 | In place it ends where the rounds lead; what left the case list is exactly the unsubscriptions of the selects made; a finished send delivered to every channel once per subscription, less at most those; whoever subscribed meanwhile is in the inbox and got nothing; nsent counts the deliveries; it crashes only on an unknown channel |
| Feed.JoinedStay | chain/event/feed.go:72-114 | Subscriptions made during a send stay in the inbox, once each, unless their channel leaves again |
| Feed.LeavingTakesOne | chain/event/feed.go:103-114 | Leaving takes one subscription of the channel out of the inbox, if there is one |
| Feed.RoundsSettle | chain/event/feed.go:155-182 | Whatever the channels accept and whichever cases the selects take, delivered, dropped and waiting cases add up to the subscribers and the removed ones to the unsubscriptions asked for |
| Feed.FastServesAll | chain/event/feed.go:159-168 | If every channel accepts at once the first pass serves all |
| StateTransition.IntrinsicGas | chain/core/state_transition.go:118-156 | Overflow is reported exactly for the payload part; the result is the true price if and only if that fits 64 bits |
| StateTransition.IntrinsicFits | chain/core/state_transition.go:118-156 | Up to 2^50 bytes, list entries and storage keys the result is exact |
| StateTransition.IntrinsicWrapExample | chain/core/state_transition.go:151-154 | One entry with 2^64 / 1900 + 1 storage keys wraps |
| StateTransition.GasPool.SubGas | chain/core/gaspool.go:39-45 | Takes the amount exactly if it is there |
| StateTransition.GasPool.AddGas | chain/core/gaspool.go:29-35 | Adds the amount; overflow panics in the code and is excluded |
| StateTransition.Transition.BuyGas | chain/core/state_transition.go:192-212 | Succeeds exactly if balance and pool suffice, and then the value is still affordable; a failure changes nothing |
| StateTransition.Transition.RefundGas | chain/core/state_transition.go:365-380 | The refund is capped by a share of the gas used; the rest goes back to sender and pool |
| StateTransition.Transition.TransitionDb | chain/core/state_transition.go:212-367 | Accepted exactly if the nonce is the sender's next, the sender has no code, the caps are in order, funds and pool suffice, the data price fits and the intrinsic price is covered; each error is answered exactly when its condition is the first to fail; the code runs on the paid state with a caller's nonce one higher, and the gas used, the sender's refund and the author's tip are stated account by account; exactly the base fee of the gas used is destroyed |
| StateTransition.VerdictAnswers | chain/core/state_transition.go:183-340 | When a message is accepted and when each of the thirteen errors is answered, in the fields of state and message |
| StateTransition.AppliedCharges | chain/core/state_transition.go:326-386 | From the code's outcome to the end only sender and author get their share, and the refund is capped |
| StateTransition.AppliedTotal | chain/core/state_transition.go:275-363 | Allowance paid, code run, rest given back and tip paid destroy exactly the base fee of the gas used |
| StateTransition.TransferCovered | chain/core/state_transition.go:315-318 | With a price within the fee cap the transfer check is covered by the check before the gas is bought |
| StateTransition.FeeSplit | chain/core/state_transition.go:343-356 | Price paid minus tip is the burned base fee |
| StateTransition.EffectivePrice | chain/core/types/transaction.go:612-632 | The effective price is the greatest within the fee cap and within base fee plus tip cap; if the cap covers the base fee it is the base fee plus what the author gets |
| StateTransition.Process | chain/core/state_processor.go:59-93 | A block is accepted if and only if every transaction applies after the ones before it, else rejected with the first error; gas used plus gas left is the limit, receipts hold the running sums, and exactly the base fee of the gas used is destroyed; with interpreters that never lower a nonce, a sender's nonces rise and none is used twice |
| StateTransition.NoncesUsedOnce | chain/core/state_transition.go:216-230 | In an accepted block the later of two transactions of a sender has the higher nonce |
| StateTransition.ApplyTransaction | chain/core/state_processor.go:95-138 | One transaction moves the block on exactly if it passes all checks where the ones before it left off |
| StateTransition.AfterBurns | chain/core/state_processor.go:76-88 | At every point of a block the base fee of the gas taken so far is gone, and no more |
| DerivationPath.ParseDerivationPath | chain/accounts/hd.go:68-118 | The loop computes the specified parse, errors included |
| DerivationPath.String | chain/accounts/hd.go:122-136 | The loop computes the specified text |
| DerivationPath.RoundTrip | chain/accounts/hd.go:68-136 | Parsing a printed path returns it, for every non-empty path of 32-bit components |
| DerivationPath.PrintInjective | chain/accounts/hd.go:122-136 | Different paths print differently |
| DerivationPath.HexReads | chain/accounts/hd.go:68-118 | Hexadecimal text of a number reads as the number |
| DerivationPath.ParsePadded | chain/accounts/hd.go:95-118 | Padding a component does not change its meaning |
| DerivationPath.RelativePath | chain/accounts/hd.go:83-116 | A relative path means the same components under the default root |
| PoolLists.ReadyIsRun | chain/core/tx_list.go:196-211 | What is ready is the maximal consecutive run from the least nonce |
| PoolLists.StrictKeeps | chain/core/tx_list.go:346-361 | A strict list keeps exactly what lies below the lowest removed nonce |
| PoolLists.LowestUnique | chain/core/tx_list.go:145-166 | There is one way to keep the k lowest nonces |
| PoolState.RelistPartition | chain/core/tx_pool.go:655-793 | Lists and lookup that change by the same transactions keep the partition |
| PoolSteps.RemovePartition | chain/core/tx_pool.go:991-1037 | Removing a transaction keeps the partition |
| PoolSteps.RemoveContiguous | chain/core/tx_pool.go:991-1025 | Removing a transaction keeps pending nonces contiguous up to the virtual nonce |
| PoolSteps.AddPartition | chain/core/tx_pool.go:655-793 | Adding a transaction, with evictions and replacement, keeps the partition |
| PoolSteps.AddContiguous | chain/core/tx_pool.go:655-753 | Adding a transaction keeps pending nonces contiguous |
| PoolReorg.PromotePartition | chain/core/tx_pool.go:1312-1373 | Promotion keeps the partition |
| PoolReorg.PromotedNonces | chain/core/tx_pool.go:1338-1345 | Promotion extends the pending nonces by exactly the step of the virtual nonce |
| PoolReorg.PromoteContiguous | chain/core/tx_pool.go:1312-1373 | Promotion keeps pending nonces contiguous |
| PoolReorg.PromoteMeans | chain/core/tx_pool.go:1317-1345 | Exactly the run that starts at the account's lowest unspent payable nonce becomes pending, if that is not above the virtual nonce |
| PoolReorg.PromoteCaps | chain/core/tx_pool.go:1346-1371 | Of the others that are payable a local account keeps all queued and a remote one the lowest, up to the limit |
| PoolReorg.DemotePartition | chain/core/tx_pool.go:1514-1565 | Demotion keeps the partition; going back to the queue never collides |
| PoolReorg.DemoteSolid | chain/core/tx_pool.go:1514-1564 | Demotion leaves one run from the state nonce |
| PoolReorg.DemoteMeans | chain/core/tx_pool.go:1514-1564 | Pending stays exactly what is payable from the state nonce on without a break at it; spent nonces and unpayable transactions go, all others are queued again |
| PoolReorg.SetAllContiguous | chain/core/tx_pool.go:1185-1191 | Recomputed virtual nonces close the pending runs |
| PoolRuns.RunPartition | chain/core/tx_pool.go:1142-1195 | In every run a hash is known if and only if its transaction is in exactly one list of its sender, whatever the chain does |
| PoolRuns.RunContiguous | chain/core/tx_pool.go:1142-1195 | In every run where account nonces never move backwards, pending nonces are exactly those from the state nonce to the virtual nonce |
| PoolGaps.ContiguousIffNoGap | chain/core/tx_pool.go:1514-1564 | From right after a reset on, an account ends up contiguous if and only if promotion does not stop short of payable pending transactions |
| PoolGaps.ResetIffNoGap | chain/core/tx_pool.go:1220-1307 | ... for a whole reset of a contiguous account, wherever its nonce goes and whatever is offered again or evicted meanwhile |
| PoolGaps.GapExample | chain/core/tx_pool.go:1514-1564 | Pending 3, 4, 5 and queued 0, 1 after the nonce fell to 0 leave 2 missing |
| PoolGaps.ExampleReached | chain/core/tx_pool.go:1220-1307 | That pool is what a reset makes of a contiguous one with 3, 4, 5 pending when 0 and 1 are offered again |
| NonceHeap.RootIsLeast | chain/core/tx_list.go:34-50 | The first entry of the heap is the least |
| NonceHeap.Up | chain/core/tx_list.go:34-50 | Sifting up restores the heap and permutes the entries |
| NonceHeap.Down | chain/core/tx_list.go:34-50 | Sifting down restores every link but possibly the one above its start |
| NonceHeap.Init | chain/core/tx_list.go:116-123 | Any slice becomes a heap of the same entries |
| NonceHeap.Push | chain/core/tx_list.go:40-42 | The heap gains the entry |
| NonceHeap.Remove | chain/core/tx_list.go:177-182 | The heap loses the entry at the index and stays a heap |
| NonceHeap.Pop | chain/core/tx_list.go:44-50 | The heap loses its least entry |
| TxSortedMap.OrderedUnique | chain/core/tx_list.go:218-228 | A map has exactly one nonce order |
| TxSortedMap.PrefixIsLowest | chain/core/tx_list.go:145-166 | The first k in nonce order are the k lowest |
| TxSortedMap.SortedMap.Put | chain/core/tx_list.go:75-81 | The map gains or replaces the entry; heap and cache follow |
| TxSortedMap.SortedMap.Forward | chain/core/tx_list.go:86-100 | Exactly the lower nonces go, returned in order; a cached order stays right |
| TxSortedMap.SortedMap.Filter | chain/core/tx_list.go:107-114 | Exactly the matching entries go |
| TxSortedMap.SortedMap.Sift | chain/core/tx_list.go:127-141 | ... without touching the heap, and nothing changes if none matches |
| TxSortedMap.SortedMap.Reheap | chain/core/tx_list.go:116-123 | The heap is rebuilt from the map alone |
| TxSortedMap.SortedMap.Cap | chain/core/tx_list.go:145-166 | The k lowest stay; the others are returned from the highest down; a cached order stays right |
| TxSortedMap.SortedMap.Remove | chain/core/tx_list.go:170-187 | One nonce goes, if it was there |
| TxSortedMap.SortedMap.Ready | chain/core/tx_list.go:196-211 | Exactly the maximal run from the least nonce goes, in order, if that nonce is not above the start |
| TxSortedMap.SortedMap.Flatten | chain/core/tx_list.go:218-238 | The contents in nonce order, cached or not |
| TxSortedMap.SortedMap.LastElement | chain/core/tx_list.go:243-246 | The entry of the highest nonce |
| TxList.CapsCover | chain/core/tx_list.go:334-336 | When the caps are within the limits a full scan would find nothing |
| TxList.FilteredMeaning | chain/core/tx_list.go:332-361 | Kept, removed and invalidated are all there were, once each; a strict list keeps what lies below the lowest removed nonce; the new caps bound what is kept |
| TxList.List.Add | chain/core/tx_list.go:281-314 | Inserts exactly if the nonce is free or the price-bump rule holds; the caps bound every entry |
| TxList.List.Filter | chain/core/tx_list.go:332-361 | With or without the shortcut the result is that of the full scan |
| TxList.List.Remove | chain/core/tx_list.go:372-383 | One nonce goes, and in a strict list everything above it |
| TxLookup.SlotSumWithout | chain/core/tx_pool.go:1823-1825 | The slots of a set of transactions do not depend on the order of counting |
| TxLookup.Lookup.Add | chain/core/tx_pool.go:1759-1771 | The slot count stays the sum if the transaction is new |
| TxLookup.Lookup.Remove | chain/core/tx_pool.go:1774-1791 | The slot count stays the sum, for known and unknown hashes |
| TxLookup.Lookup.RemoteToLocals | chain/core/tx_pool.go:1795-1808 | Exactly the given accounts' transactions move; contents and slots stay; the count is right |
| TxNoncer.Noncer.Get | chain/core/tx_noncer.go:45-55 | Reading changes no account's virtual nonce |
| TxNoncer.Noncer.Set | chain/core/tx_noncer.go:59-64 | Changes one account's virtual nonce |
| TxNoncer.Noncer.SetIfLower | chain/core/tx_noncer.go:68-79 | The virtual nonce becomes the lesser of both, for known and unknown accounts |
| TxNoncer.Noncer.SetAll | chain/core/tx_noncer.go:82-87 | Accounts not given fall back to the chain state |
| PricedList.Pop | chain/core/tx_list.go:431-469 | The popped entry is one that no other comes before |
| PricedList.CheaperMeans | chain/core/tx_list.go:436-467 | The order by what is left for the author, at most the tip, then fee cap, then tip |
| PricedList.Gather | chain/core/tx_list.go:567-592 | Live entries are conserved; what left the urgent heap is its worst and no more than keeps the heaps balanced; no floating entry stays while a better one is dropped; the loop stops short only with both heaps empty; the last drop was needed and the worst floating entry |
| PricedList.List.Discard | chain/core/tx_list.go:565-601 | Succeeds exactly if forced or the live entries take enough slots, dropping the worst; a failure drops nothing and keeps every live entry; if even all are too few, none is dropped twice exactly if each was there once |
| PricedList.DropsDistinct | chain/core/tx_list.go:565-601 | If every live entry is there once, no transaction is dropped twice |
| PricedList.DistinctIffOnce | chain/core/tx_list.go:565-601 | When nothing is left, no transaction was dropped twice if and only if every live entry was there once |
| PricedList.OnceIffUntracked | chain/core/tx_list.go:508-528 | Tracking one more transaction keeps every live entry there once if and only if no entry, live or stale, has its hash |
| PricedList.SlotsConserved | chain/core/tx_list.go:565-601 | The slots of the live entries are those kept plus those dropped |
| PricedList.TracksRest | chain/core/tx_list.go:565-601 | Every remote transaction that is not dropped keeps an entry |
| PricedList.DroppedTwice | chain/core/tx_list.go:508-528 | A transaction that left and came back before a reheap has two live entries and is dropped twice |
| PricedList.List.Reheap | chain/core/tx_list.go:604-628 | Exactly the remote transactions are tracked, each once, a fifth of them, the worst, as floating |
| PricedList.List.SetBaseFee | chain/core/tx_list.go:632-635 | A new base fee leaves exactly the remote transactions tracked, each once, a fifth of them, the worst by the new fee, as floating |
| PricedList.List.Underpriced | chain/core/tx_list.go:531-559 | True exactly if some remote transaction is tracked and none is cheaper, despite stale entries; only stale entries go, from the front of each heap |
| Truncation.TruncatePending | chain/core/tx_pool.go:1378-1460 | A water-fill: all large remote accounts end at one level, not below the allowance, at the limit or at the allowance, and no lower than needed |
| Truncation.LevelledIsFair | chain/core/tx_pool.go:1378-1460 | A cut account keeps its allowance and as much as any other remote account |
| Truncation.LevelledUnique | chain/core/tx_pool.go:1378-1460 | The result does not depend on the order among equal accounts |
| Truncation.TruncateQueue | chain/core/tx_pool.go:1463-1505 | Down to exactly the limit or to local accounts only, the longest unheard accounts first, at most one account cut in part |
| TxPool.TxPool.constructor | chain/core/tx_pool.go:279-302 | The empty pool is partitioned and contiguous: every run can start here |
| TxPool.TxPool.EnqueueTx | chain/core/tx_pool.go:758-793 | Refused, replaced or new as the price-bump rule says, with lookup and slots to match |
| TxPool.TxPool.PromoteTx | chain/core/tx_pool.go:811-841 | Refused, replaced or new, with lookup and virtual nonce to match |
| TxPool.TxPool.PromoteRun | chain/core/tx_pool.go:1338-1345 | In a partitioned pool no promotion is refused or replaces anything |
| TxPool.TxPool.Postpone | chain/core/tx_pool.go:1014-1018 | In a partitioned pool no transaction sent back to the queue is refused or replaces anything |
| TxPool.TxPool.RemoveTx | chain/core/tx_pool.go:991-1037 | Ends in the specified state and keeps the slot count |
| PoolAdmission.MakeRoom | chain/core/tx_pool.go:674-700 | Too cheap exactly if the pool is full and the remote transaction undercuts all that is tracked; overflow exactly if it is full, not too cheap, and there were too many changes or the live entries take too few slots; otherwise the worst are dropped, no more than needed, and none while it fits |
| PoolAdmission.Add | chain/core/tx_pool.go:655-753 | Known or invalid exactly if it is; else the decision as above; then the drops are gone, with every pending one the later transactions of its account are queued, and the transaction replaces the pending one of its nonce if it pays enough more, else the queued one, or is queued at a free nonce, or is underpriced and changes nothing; a refusal changes nothing in the pool; the price list gains the transaction exactly if it is accepted as remote, keeps tracking every remote transaction, and keeps every live entry once exactly if it had no entry of that hash; then a remote transaction is accepted only within the capacity; a first local transaction that enters the queue makes its account local and its transactions not remote |
| PoolAdmission.OfferLands | chain/core/tx_pool.go:710-735 | Replaced, queued or underpriced by the price-bump rule, on both lists and the lookup |
| PoolAdmission.RemoveAllDrops | chain/core/tx_pool.go:991-1037 | Removing transactions leaves pending exactly what lies below every removed pending nonce of the account, and loses nothing else |
| PoolAdmission.ReplacesMeans | chain/core/tx_list.go:276-303 | Both caps rise, and each by at least the bump in percent, rounded down |
| PoolAdmission.AdmissibleMeans | chain/core/tx_pool.go:586-645 | Within the block's gas, not of a spent nonce and payable in full |
| PoolAdmission.NonLocalIff | chain/core/tx_pool.go:710-748 | The remote transactions stay those of accounts that are not local, except exactly if the local transaction of an account that is not replaces a pending one |
| PoolAdmission.RoomMade | chain/core/tx_pool.go:674-709 | The drops free exactly the slots they count, if no live price entry is there twice |
| PoolAdmission.RoomIffDistinct | chain/core/tx_pool.go:674-709 | The drops free the slots they count if and only if none is dropped twice, and otherwise fewer |
| PoolAdmission.OverCapacity | chain/core/tx_pool.go:674-709 | A pool at capacity whose only transaction is tracked twice accepts one of up to twice its slots and ends over capacity |
| PoolOffers.AddEach | chain/core/tx_pool.go:941-953 | Transactions offered in turn are one step of the pool's runs, each decided on from the pool, heaps, remote transactions and local accounts that the offers before it left; the dirty accounts are the senders of those new in the queue; remote transactions that are not tracked yet leave a pool within its capacity so |
| PoolOffers.TakenIfFits | chain/core/tx_pool.go:655-709 | While a transaction fits, is known or fails validation, nothing is dropped for it and it is not refused for lack of room |
| PoolOffers.RoomForAll | chain/core/tx_pool.go:941-953 | If the pool has room for all transactions, all are offered with nothing dropped |
| TxPool.TxPool.PromoteAccount | chain/core/tx_pool.go:1317-1371 | Transaction by transaction it reaches the specified state of one account |
| TxPool.TxPool.PromoteExecutables | chain/core/tx_pool.go:1312-1373 | ... and of all accounts in turn |
| TxPool.TxPool.DemoteAccount | chain/core/tx_pool.go:1516-1563 | Transaction by transaction it reaches the specified state of one account |
| TxPool.TxPool.DemoteUnexecutables | chain/core/tx_pool.go:1514-1565 | ... and of every account with pending transactions |
| TxPool.TxPool.UpdateNonces | chain/core/tx_pool.go:1185-1191 | The virtual nonces follow the highest pending ones |
| TxPool.TxPool.CapPending | chain/core/tx_pool.go:1411-1429 | The lowest stay, the rest leaves the lookup and lowers the virtual nonce |
| PoolOffers.Reset | chain/core/tx_pool.go:1284-1300 | New state, forgotten nonces, and the given transactions offered again in turn, each decided on as above |
| PoolReset.TxDifference | chain/core/types/transaction.go:418-433 | The elements of the first list that are not in the second, in order and as often |
| PoolReset.Reinjected | chain/core/tx_pool.go:1224-1283 | With an old head, heads at most 64 apart and a complete store it is not stuck, and if the old branch repeats nothing it gives back exactly the transactions on the old branch and not on the new one, for a child head too; without an old head or further apart nothing; stuck exactly if the old head is missing below the new one or the branches do not meet in the store; the order is from the old head down |
| PoolReset.GivenBack | chain/core/tx_pool.go:1253-1281 | What only the old branch holds above the fork is what is on the old branch and not on the new one |
| PoolMaintenance.TruncatePending | chain/core/tx_pool.go:1378-1460 | The pool's pending lists are levelled, each keeping its lowest nonces, as a sequence of cuts that keeps the pool's invariants |
| PoolMaintenance.Evict | chain/core/tx_pool.go:1488-1503 | One account's queue keeps its lowest nonces; nothing else in any list changes |
| PoolMaintenance.TruncateQueue | chain/core/tx_pool.go:1463-1505 | The pool's queues are cut to the limit as the truncation says, each keeping its lowest nonces; no pending list changes |
| PoolMaintenance.RunReorg | chain/core/tx_pool.go:1142-1200 | A whole reorganisation run is one step of the pool's runs: it offers the given transactions again, each decided on as above, promotes the given accounts or for a new head exactly the queued ones, revalidates exactly those pending, ends with pending lists levelled and queues within the limit, each keeping its lowest nonces, sets the change counter to 0, and is a forward step if no account nonce of the chain fell; every remote transaction stays tracked; a new base fee is taken on and orders the price list, which tracks each once, and without one the price list is as the offers left it |
| HeadChanges.FindTarget | chain/core/tx_pool.go:1220-1300 | With its state at hand, a new head at most 64 from the old one over a complete store is not lost, and the run is for its state and exactly the abandoned transactions; without an old head or further apart for none; lost exactly without its state or if the walk to the fork is blocked |
| HeadChanges.Follow | chain/core/tx_pool.go:1142-1300 | The run for a new head with its state at hand, at most 64 from the old one and over a complete store, is a step of the pool to that state that offers again exactly the transactions on the old branch and not on the new one, in turn and each decided on as above, and all of them with nothing dropped if the pool has room for all; the new base fee is taken on |

## Left out

- Freezer, snapshots, trie collection, in-memory caches, journals and on-disk encoding: index properties are about the database maps.
- `insertChain` and `insertSideChain` orchestration, the prefetcher, event emission inside `reorg`, metrics and logging; the head-moving steps they call are modelled.
- `SetCanonical`'s recovery of missing ancestor states; its index steps are those of `WriteKnownBlock`.
- Header and seal verification, consensus engines, block rewards in `Finalize`, signatures and hashing.
- EVM execution: a parameter that conserves the total balance and returns at most the gas it got. `NoBaseFee` and fake messages of calls.
- The terminal-total-difficulty path, checkpoints and child indexers.
- The `stales` counter of the price list and the reheap it triggers after removals and replacements; reheaping and discarding are modelled without it.
- Networking, RPC, console, accounts manager and genesis tables.
- Batches are applied at once; a crash between two database writes is not modelled, except that `HeaderChain.Headers.Rewind` states what every persisted head marker names.
- PricedList: the two price heaps are bags whose pop gives a least entry; their slices are not modelled. `NonceHeap` is a real heap.
- TxPool.TxPool: account lists are maps by nonce, their heap is rebuilt where it is needed; `TxSortedMap` and `TxList` model the list objects. The lookup and the virtual nonces are fields of the pool; `TxLookup` and `TxNoncer` model their objects.
- PoolAdmission.Add: whether a transaction passes the stateless checks is a parameter.
- PoolReset.Reinjected: the depth is exact, not a floating-point difference.
- PoolMaintenance.RunReorg: announcing promoted transactions to subscribers is not part of it; the next base fee is a parameter.
- PoolMaintenance.TruncatePending: the rounds of cuts run on list lengths; the lists are cut once to the final length. Heartbeats are a parameter.
- StateTransition.GasPool.AddGas: the overflow panic is a precondition.
- Feed.Feed.Send: channels are ready or not, the select's choice, and what others do to the inbox, as parameters; a select that never returns is a run that ends early.
