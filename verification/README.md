# go-zilionixx in Dafny

A Dafny model of the parts of the go-zilionixx node whose correctness is hardest to see from the code, with proofs of
what they promise. `dafny verify dfyconfig.toml` verifies the whole project.

- **Transaction pool** (`evmcore/tx_pool.go`, `evmcore/tx_list.go`): nonce lists with their heaps and caches, the price
  heap, the pool's books, promotion, demotion, the limits, whole runs, and the scheduler of runs as a state machine.
- **Event codec** (`utils/bits`, `utils/cser`, `inter/*_serializer.go`): bits, numbers, the container, transactions and
  event payloads.
- **Turns and weights** (`utils/weighted_shuffle.go`, `gossip/emitter/txs.go`, `gossip/randselect.go`).
- **Log index** (`topicsdb`, `gossip/filters/filter.go`).
- **Gas power and emitting** (`eventcheck/gaspowercheck`, `gossip/emitter/txs.go`, `gossip/c_event_callbacks.go`).
- **Gas accounting** (`evmcore/state_transition.go`, `evmcore/state_processor.go`, `gossip/blockproc/evmmodule`).
- **Median time and vector clocks** (`vecmt`).

Objects that the source updates in place are classes whose methods are proved against functions on values; the
properties are proved about those functions and about sequences of calls.

Modelling choices:

- A transaction carries its hash, sender, size, cost and intrinsic gas as fields. The pool gets a ghost function `names`
  from hashes to transactions and requires that added transactions agree with it: a hash identifies a transaction.
- Clocks, random numbers, the hash function, the chain state, the virtual machine, the sort and the order in which maps
  are walked are parameters or arbitrary choices, so results hold for all of them.
- Machine words are written out where they matter: gas and gas power (`Wrap`), the codec, median differences.
- `Sound(except)` is the pool's bookkeeping invariant: pending and queue have disjoint nonces per account and hold exactly
  the known transactions, lists are well-formed and not empty, the slot count is exact, and the price heap covers every live
  remote transaction except those in `except`. `Ordered()` is the nonce discipline: each pending list is the gap-free run
  of payable transactions from the state nonce to the virtual nonce, and the queue starts at or above the virtual nonce.

## Model

| member | source | states |
|---|---|---|
| `BinaryHeap.Push` | evmcore/tx_list.go:37-39 | pushing keeps a heap a heap and adds exactly one entry |
| `BinaryHeap.Pop` | evmcore/tx_list.go:41-47 | popping returns a least entry, keeps a heap a heap, and loses exactly that entry |
| `BinaryHeap.Remove` | evmcore/tx_list.go:167-184 | removing at any position keeps a heap a heap and loses exactly that entry |
| `BinaryHeap.Init` | evmcore/tx_list.go:113-120 | any sequence becomes a heap of the same entries |
| `SortedMaps.TxSortedMap.Put` | evmcore/tx_list.go:72-78 | refines a map update; the index stays a heap of exactly the stored nonces and a present cache stays the nonce-sorted content |
| `SortedMaps.TxSortedMap.Forward` | evmcore/tx_list.go:83-97 | removes and returns, in nonce order, exactly the transactions below the threshold; the sliced cache is still the sorted content |
| `SortedMaps.TxSortedMap.Filter` | evmcore/tx_list.go:104-138 | removes and returns exactly the transactions that match |
| `SortedMaps.TxSortedMap.Reheap` | evmcore/tx_list.go:113-120 | rebuilds a duplicate-free heap of exactly the stored nonces |
| `SortedMaps.TxSortedMap.Cap` | evmcore/tx_list.go:142-163 | keeps exactly the k lowest nonces, returns the others from the top down; the cut cache is still the sorted content |
| `SortedMaps.TxSortedMap.Remove` | evmcore/tx_list.go:167-184 | removes exactly one nonce, found or not |
| `SortedMaps.TxSortedMap.Ready` | evmcore/tx_list.go:193-208 | takes exactly the maximal consecutive run from the lowest nonce, sorted, or nothing if the lowest is above the start |
| `SortedMaps.TxSortedMap.Flatten` | evmcore/tx_list.go:215-236 | the nonce-sorted content, whether cached or not |
| `SortedMaps.TxSortedMap.LastElement` | evmcore/tx_list.go:240-243 | the transaction with the highest nonce |
| `SortedMaps.AccountList.Add` | evmcore/tx_list.go:278-303 | refines the list on values: replaces only with the price bump, caps only grow |
| `SortedMaps.AccountList.Filter` | evmcore/tx_list.go:321-350 | refines the list on values and enumerates exactly the removed and the invalidated transactions |
| `SortedMaps.AccountList.Remove` | evmcore/tx_list.go:361-372 | refines the list on values; in strict mode everything above is returned as invalidated |
| `SortedMaps.AccountList.Ready` | evmcore/tx_list.go:381-383 | refines the list on values |
| `TxLists.FilterIsNaive` | evmcore/tx_list.go:321-350 | the cost and gas caps bound every stored transaction, so the short circuit never changes the result of the naive filter |
| `TxLists.ReplaceIff` | evmcore/tx_list.go:278-303 | a replacement is dearer, and by no less than the bump in per cent, less a rounding |
| `TxLists.FilterConserves` | evmcore/tx_list.go:321-350 | kept, removed and invalidated transactions partition the list |
| `TxLists.StrictStaysContiguous` | evmcore/tx_list.go:308-372 | on a contiguous strict list Filter, Remove, Forward and Cap leave a contiguous list with known ends |
| `TxLookups.RemoteToLocals` | evmcore/tx_pool.go:1793-1806 | moves exactly the remote transactions of local senders, counts them, and keeps the known set and the slots |
| `TxLookups.CountWithinSlots` | evmcore/tx_pool.go:1725-1754 | no more transactions are known than slots are taken, if each takes one |
| `PricedLists.TxPricedList.Put` | evmcore/tx_list.go:459-464 | adds one entry for a remote transaction and none for a local one |
| `PricedLists.TxPricedList.Removed` | evmcore/tx_list.go:469-477 | keeps the heap while at most a quarter is stale, otherwise holds exactly the live remotes |
| `PricedLists.TxPricedList.Underpriced` | evmcore/tx_list.go:505-524 | true if and only if some live remote exists and none is cheaper, however stale the heap is |
| `PricedLists.TxPricedList.Cap` | evmcore/tx_list.go:483-501 | returns exactly the live remotes below the threshold and loses no other live entry |
| `PricedLists.TxPricedList.Discard` | evmcore/tx_list.go:530-551 | succeeds if and only if forced or the live weight suffices; takes the cheapest live entries and no more than needed; puts everything back on failure |
| `PricedLists.TxPricedList.Reheap` | evmcore/tx_list.go:554-563 | the heap holds each live remote exactly once |
| `PricedLists.DiscardHonestIff` | evmcore/tx_list.go:530-551 | the slots Discard counts are the slots of the live remotes if and only if no live transaction sits in the heap twice, and are more otherwise |
| `PricedLists.GaveUpBy` | evmcore/tx_list.go:530-551 | what Discard drops: none of it is dearer than a remote that stays, it frees the wanted slots or no remote stays, and without its dearest it would not free enough |
| `PricedLists.FreedSlots` | evmcore/tx_pool.go:654-667 | dropping distinct live transactions frees exactly the slots that were counted |
| `PricedLists.DiscardCountsTwice` | evmcore/tx_list.go:459-551 | calls after which Discard promises more slots than all live transactions have: one of at least four leaves and comes back |
| `TxPools.TxPool.EnqueueTx` | evmcore/tx_pool.go:717-752 | fails if and only if an equal nonce is queued without the price bump; otherwise queue and lookup change in that transaction only |
| `TxPools.TxPool.PromoteTx` | evmcore/tx_pool.go:770-800 | the better of two transactions with a nonce stays pending, the other is forgotten, the virtual nonce moves behind it |
| `TxPools.TxPool.RemoveTx` | evmcore/tx_pool.go:953-999 | exactly one transaction is forgotten, what it leaves non-executable goes to the queue; books and nonce discipline stay |
| `TxPools.TxPool.SetGasPriceWithCap` | evmcore/tx_pool.go:452-461 | drops exactly the remote transactions below the cap; so no known remote pays less than the lower of the new price and the cap; books and nonce discipline stay |
| `TxPools.TxPool.Validate` | evmcore/tx_pool.go:564-617 | passes if and only if signed, not too big, value not negative, gas within the block limit and not below the intrinsic gas, nonce not used, cost covered, price not below the floor of the chain and, unless local, of the pool, type known and not yet in the chain |
| `TxPools.TxPool.FullWantsSlots` | evmcore/tx_pool.go:644-654 | the pool is full by count while room is made by slots: a full pool always asks for some, and the two tests disagree exactly when a transaction fits by count but not by slots |
| `PoolExamples.NotFullButOverLimit` | evmcore/tx_pool.go:644-654 | calls after which a pool is over its limit in slots without ever having been full |
| `PoolExamples.BigOneExists` | evmcore/tx_pool.go:644-654 | transactions for those calls |
| `TxPools.TxPool.MakeRoom` | evmcore/tx_pool.go:644-668 | a remote transaction is refused, and then nothing changes, if and only if no live remote is cheaper (underpriced) or the heap cannot free enough slots (overflow); otherwise the cheapest remotes leave: none dearer than one that stays, enough if there are enough, and not one too many; the pool then has room, if no live one sits in the heap twice |
| `TxPools.TxPool.Evict` | evmcore/tx_pool.go:654-667 | all or nothing unless forced: succeeds if and only if forced or the live weight suffices, and then gives up the cheapest remotes and no others |
| `TxPools.TxPool.ShortIff` | evmcore/tx_pool.go:654-660 | the heap cannot free enough exactly if all remotes together take fewer slots than wanted, if no live one sits in it twice |
| `TxPools.TxPool.Add` | evmcore/tx_pool.go:626-712 | the exact answer for every transaction: known, invalid, underpriced, overflow, or, in a pool that gave up what `MakeRoom` gives up if it was full, accepted if and only if it beats what it would replace; the pool then knows the same transactions as before but for those given up, the replaced and the new one; a local one marks its sender as local if and only if it does not take a place in pending; the slots afterwards; books and nonce discipline stay; an error other than an underpriced replacement changes nothing |
| `TxPools.TxPool.Admit` | evmcore/tx_pool.go:669-711 | the same for a transaction for which there is room, in terms of the sender's lists |
| `PoolExamples.LocalReplacementUnmarked` | evmcore/tx_pool.go:669-703 | calls after which a local transaction is pending and its sender is not local |
| `PoolExamples.ReplacementExists` | evmcore/tx_pool.go:669-703 | transactions for those calls |
| `TxPools.TxPool.ReplacePending` | evmcore/tx_pool.go:671-693 | replaces a pending transaction if and only if the price bump is met |
| `TxPools.TxPool.AdoptLocals` | evmcore/tx_pool.go:699-703 | after adoption no sender marked local has remote transactions |
| `TxPools.TxPool.EvictExpired` | evmcore/tx_pool.go:385-402 | empties exactly the queues of the silent non-local accounts |
| `TxPools.TxPool.PromoteAccount` | evmcore/tx_pool.go:1267-1328 | pending gains exactly the ready run of payable queued transactions, the queue keeps the lowest of the rest |
| `TxPools.TxPool.PromoteExecutables` | evmcore/tx_pool.go:1267-1328 | over all accounts, in any order: each given account gains exactly its ready run and all others stay as they are; keeps books and nonce discipline, and carries a new head half way |
| `TxPools.TxPool.DemoteAccount` | evmcore/tx_pool.go:1465-1515 | pending keeps exactly the payable run, the rest is dropped or queued; reports if and only if there is a gap in front |
| `TxPools.TxPool.DemoteUnexecutables` | evmcore/tx_pool.go:1465-1515 | over all accounts, in any order: each keeps exactly its payable run; finishes what a new head began, and reports no gap if every account's pending run reaches its state nonce |
| `TxPools.TxPool.TruncatePending` | evmcore/tx_pool.go:1333-1415 | exact water-filling: one level for all non-local accounts, which keep their lowest nonces up to it; no higher level fits, and it is never below the guaranteed slots |
| `TxPools.TxPool.TruncateQueue` | evmcore/tx_pool.go:1418-1460 | exactly the global limit remains, or only local queues; the most recently active accounts lose first |
| `TxPools.TxPool.ResetHead` | evmcore/tx_pool.go:1171-1262 | for any head and any reinjected transactions keeps the books; each reinjected one that is new and valid under the new state and the old fork rules enters as `Add` says, and no other |
| `TxPools.TxPool.RunReorg` | evmcore/tx_pool.go:1104-1167 | what a run does to every account: the reinjected ones enter, the dirty accounts, or after a reset all with a queue, gain exactly their ready run, after a reset pending keeps exactly the payable runs, then water-filling, the queue limit and the virtual nonces behind it all; ends within both limits, keeps books, and without reinjection the nonce discipline; no gap unless a state nonce went back; nothing ready stays in the queue of a promoted account, except, exactly, for what a new head leaves behind |
| `PoolStages.PromotedAccountIs` | evmcore/tx_pool.go:1267-1328 | promotion of an account in closed form: of the payable queued transactions, those between two nonces go to pending, the lowest of the others stay |
| `PoolStages.PromotedRun` | evmcore/tx_pool.go:1288-1301 | for an account in order the promoted run is the longest payable one from the virtual nonce, and nothing ready stays queued |
| `PoolStages.DemotedAccountIs` | evmcore/tx_pool.go:1465-1515 | demotion of an account in closed form |
| `PoolStages.DryIffNotLeftBehind` | evmcore/tx_pool.go:1104-1167 | after a reset without reinjection an account ends with nothing ready in its queue if and only if no ready transaction stood right behind a pending run that is still payable |
| `PoolExamples.ResetLeavesReady` | evmcore/tx_pool.go:1104-1167 | calls after which a ready transaction is left in the queue by a reset |
| `PoolExamples.ReadyPairExists` | evmcore/tx_pool.go:1104-1167 | transactions for those calls |
| `TxPools.Perform` | evmcore/tx_pool.go:448-461 | one call of any kind keeps the books, and the nonce discipline unless it reinjects |
| `TxPools.Replay` | evmcore/tx_pool.go:271-323 | any sequence of calls on a new pool: sound books always, nonce discipline without reinjection, both limits after a run; every known transaction has enough gas, size and value within bounds, and no remote pays less than the price floor unless a call lowered the cap below it |
| `PoolNonces.RemovalInOrder` | evmcore/tx_pool.go:969-998 | removing any transaction keeps every account in order |
| `PoolOrder.NewHead` | evmcore/tx_pool.go:1244-1251 | whatever the new state nonces are, every account is ready for promotion |
| `PoolOrder.PromotionMidway` | evmcore/tx_pool.go:1267-1328 | promotion at a new head, account by account |
| `PoolRuns.DemotionNear` | evmcore/tx_pool.go:1465-1515 | demotion puts an account in order wherever the new state nonce lies |
| `PoolOrder.LastPass` | evmcore/tx_pool.go:1145-1149 | setting virtual nonces behind the highest pending one restores the discipline |
| `PoolOrder.OrderedIffNoHole` | evmcore/tx_pool.go:1267-1515 | after reinjection an account ends in order if and only if its ready run does not end short of a payable pending run |
| `PoolOrder.ReinjectionMayLeaveHole` | evmcore/tx_pool.go:1496-1508 | an example: the state nonce goes back from 3 to 1, one transaction returns, and a hole stays in pending |
| `PoolOrder.OrderIsUnbroken` | evmcore/tx_pool.go:1496-1508 | if no state nonce goes back, every pending run reaches its account's state nonce |
| `ReorgScheduler.FirstAndLast` | evmcore/tx_pool.go:1060-1068 | merged resets keep the first old head and the last new head |
| `ReorgScheduler.MergedServes` | evmcore/tx_pool.go:1060-1078 | a merged run covers every request that was merged into it |
| `ReorgScheduler.StepKeeps` | evmcore/tx_pool.go:1003-1150 | every step of the scheduler, its runs, its requesters and the callers under the pool lock keeps the invariant |
| `ReorgScheduler.Safety` | evmcore/tx_pool.go:1003-1101 | in every interleaving at most one run is active, a requester's channel is closed only after a run that serves it, and no channel is closed twice |
| `ReorgScheduler.StepsRunOut` | evmcore/tx_pool.go:1023-1150 | without new callers and requests everything comes to rest, however many events are sent |
| `ReorgScheduler.NotStuck` | evmcore/tx_pool.go:1003-1150 | no deadlock, also with events sent to the loop under the pool lock and during shutdown: nothing rests before the lock is free and every requester's channel is closed |
| `Bits.BitWriter.Write` | utils/bits/bits.go:51-75 | appends exactly the bits of the value, over any number of byte boundaries |
| `Bits.BitReader.Read` | utils/bits/bits.go:81-113 | returns the number of the next bits and moves past them, or fails if there are too few |
| `Bits.BitReader.View` | utils/bits/bits.go:115-119 | the same without moving |
| `Bits.Padding` | utils/bits/bits.go:45-75 | unwritten bits of the last byte are zero |
| `Cser.NumRound` | utils/cser/read_writer.go:68-93 | a number of the chosen width comes back, whatever follows |
| `Cser.NumUnique` | utils/cser/read_writer.go:77-93 | with at least one byte per number, accepted bytes are the only encoding of the number |
| `Cser.NumbersUnique` | utils/cser/read_writer.go:103-138 | 16, 32 and 64-bit numbers are accepted in one form only |
| `Cser.I64Round` | utils/cser/read_writer.go:148-167 | signed numbers come back, the lowest included |
| `Cser.SliceRound` | utils/cser/read_writer.go:203-217 | byte slices come back |
| `Cser.BigIntRound` | utils/cser/read_writer.go:228-244 | big integers come back as absolute values: the sign is not written |
| `CserIO.CompactBytes` | utils/cser/read_writer.go:68-75 | the writing loop yields the little-endian bytes with no superfluous high byte |
| `CserIO.Writer.WriteNum` | utils/cser/read_writer.go:109-112 | the writer appends the encoding of a number to both its streams |
| `CserIO.Reader.ReadNum` | utils/cser/read_writer.go:103-107 | the reader takes exactly that encoding and fails exactly when the value function does |
| `CserBinary.CompactRound` | utils/cser/read_writer.go:35-66 | the length suffix comes back |
| `CserBinary.CompactUnique` | utils/cser/read_writer.go:51-66 | each length is accepted in one form only |
| `CserBinary.PackRound` | utils/cser/binary.go:19-45 | unpacking a packed pair of bit and byte arrays gives the pair |
| `CserBinary.UnpackUnique` | utils/cser/binary.go:30-45 | what unpacks is the packing of its parts |
| `CserBinary.DecodeRound` | utils/cser/binary.go:47-81 | decoding an encoded value succeeds and passes all end-of-stream checks |
| `TxSerializer.SigSurvives` | inter/transaction_serializer.go:15-25 | signature values come back if and only if they are not negative and fit 256 bits |
| `TxSerializer.MarkerIff` | inter/transaction_serializer.go:66-80 | the six bits ahead of a legacy transaction look like the marker of a typed one if and only if nonce and gas are both below 256 |
| `TxSerializer.TxRound` | inter/transaction_serializer.go:27-130 | every transaction that is not refused comes back, up to what the format cannot hold |
| `TxSerializer.TxLayout` | inter/transaction_serializer.go:27-64 | the bytes of a transaction are its type, unless legacy, nonce, gas, price and value, in this order, and so on |
| `TxSerializer.NormalIff` | inter/transaction_serializer.go:27-130 | the format holds a transaction if and only if its numbers are not negative and its signature fits |
| `TxSerializer.MarshalTx` | inter/transaction_serializer.go:27-64 | the writer produces that encoding or the refusal |
| `TxSerializer.UnmarshalTx` | inter/transaction_serializer.go:66-130 | the reader computes that decoding |
| `EventSerializer.MedianBack` | inter/event_serializer.go:27-32 | the median time comes back from its 64-bit difference to the creation time, even where that wraps |
| `EventSerializer.EventRound` | inter/event_serializer.go:20-127 | an event header comes back, whatever follows |
| `EventSerializer.EventLayout` | inter/event_serializer.go:20-35 | the bytes of an event are epoch, Lamport time, creator, sequence number, frame, times, gas power and the number of parents, in this order, and so on |
| `EventSerializer.PayloadRound` | inter/event_serializer.go:129-172 | a payload that is not refused comes back, whatever follows |
| `EventSerializer.WritableIff` | inter/event_serializer.go:20-172 | a payload can be written if and only if it says truly whether it has transactions, no parent is later than it, and its transactions are of known types, legacy ones with gas above 255 |
| `EventSerializer.UnchangedIff` | inter/event_serializer.go:20-172 | a payload comes back unchanged if and only if its parents are in its epoch and its transactions are holdable |
| `EventSerializer.MarshalBinary` | inter/event_serializer.go:175-177 | refused exactly as stated, otherwise the bytes decode to what the format can hold of the payload |
| `EventSerializer.UnmarshalBinary` | inter/event_serializer.go:185-195 | computes the decoding, and fails on exactly the inputs it should |
| `WeightedShuffle.DrawsPermute` | utils/weighted_shuffle.go:86-110 | drawing everything gives a permutation |
| `WeightedShuffle.DrawsPrefix` | utils/weighted_shuffle.go:86-110 | fewer draws are the first of more draws |
| `WeightedShuffle.WordsOfSeed` | utils/weighted_shuffle.go:53-64 | the random words are the eight pieces of four bytes of the seed, lowest byte first, then those of its hash, and so on for ever |
| `WeightedShuffle.NodeShares` | utils/weighted_shuffle.go:66-84 | of the numbers below a node's weight exactly as many stay as its entry weighs, go left as the left subtree weighs and right as the right one weighs |
| `WeightedShuffle.DrawnByWeight` | utils/weighted_shuffle.go:66-84 | along the whole path an entry is drawn in as large a share of the ways as its weight has in all that is left |
| `WeightedShuffle.NextDraw` | utils/weighted_shuffle.go:86-110 | each draw is from what the draws before it left, with the words they left unused |
| `WeightedShuffle.Tree.Build` | utils/weighted_shuffle.go:33-51 | every node shows the weight of its subtree, or some weight is not positive |
| `WeightedShuffle.Tree.Retrieve` | utils/weighted_shuffle.go:66-84 | draws the entry of the reference choice, whose share is `NodeShares`, and updates the sums of exactly the subtree |
| `WeightedShuffle.WeightedPermutation` | utils/weighted_shuffle.go:89-110 | fails exactly if too many are asked for or a weight is not positive, otherwise gives the reference draws |
| `TxTurns.IsMyTxTurn` | gossip/emitter/txs.go:139-151 | drawing only as far as the round is the turn under the full permutation |
| `TxTurns.EveryoneOnce` | gossip/emitter/txs.go:120-151 | in n consecutive rounds each of n validators is scheduled exactly once |
| `TxTurns.OneTurn` | gossip/emitter/txs.go:139-151 | two validators that saw the transaction first at the same time and whose clocks differ by no more than the latency never both have the turn |
| `TxTurns.GroupShares` | gossip/emitter/txs.go:139-151 | nonces of a group of 32 share their order of validators |
| `TxTurns.TurnLasts` | gossip/emitter/txs.go:139-151 | whoever is scheduled in a round has the turn in all but its last second |
| `TxTurns.TurnComes` | gossip/emitter/txs.go:139-151 | every validator gets the turn within as many periods as there are validators, from any round on |
| `RandSelect.Insert` | gossip/randselect.go:90-114 | fills exactly one free leaf and keeps sums, counts and capacities consistent at every level |
| `RandSelect.SetWeight` | gossip/randselect.go:118-139 | changes exactly the leaf at an index and keeps the tree consistent |
| `RandSelect.Choose` | gossip/randselect.go:142-153 | reaches the leaf into whose share the number falls; the panic is unreachable |
| `RandSelect.WeightedRandomSelect.SetItem` | gossip/randselect.go:37-56 | refines a map from items to weights; indices stay valid when a level is added |
| `RandSelect.WeightedRandomSelect.ShareIsWeight` | gossip/randselect.go:142-153 | of the numbers below the total, exactly as many fall to an item as its weight says |
| `RandSelect.WeightedRandomSelect.ChooseOnce` | gossip/randselect.go:62-77 | a pass answers with the one item the number falls to, if it kept its weight or won the draw, and stores the new weight |
| `Lexicographic.BigEndianOrder` | topicsdb/key.go:66-72 | the byte order of keys is the order of block numbers |
| `TopicIndex.IdRound` | topicsdb/key.go:23-46 | block, transaction and index are read back from an identifier |
| `TopicIndex.FetchRound` | topicsdb/record.go:26-60 | topics, address, block hash and data of a log are read back from its record |
| `TopicIndex.Index.Push` | topicsdb/topicsdb.go:132-173 | files a log under its address and every topic, and nothing else |
| `TopicIndex.Index.WalkFirst` | topicsdb/search_lazy.go:20-81 | finds each log of the range exactly as often as the product of matching alternatives |
| `TopicIndex.Index.WalkNexts` | topicsdb/search_lazy.go:84-138 | the same for the remaining positions of one log |
| `TopicIndex.Index.FindInBlocks` | topicsdb/topicsdb.go:46-121 | fails exactly for a pattern without alternatives, otherwise every log comes back as pushed, as often as it matches |
| `TopicIndex.FilterLogs` | gossip/filters/filter.go:233-266 | keeps exactly the accepted logs, in order |
| `TopicIndex.IndexAgrees` | gossip/filters/filter.go:233-266 | without repeated alternatives the matches are the logs the simple filter accepts, each once |
| `TopicIndex.Index.IndexedLogs` | gossip/filters/filter.go:141-158 | the search agrees with the simple filter on the first 254 topics, hence on all of up to 254; and when it fails |
| `TopicIndex.TruncationIff` | topicsdb/topicsdb.go:103-121 | looking at the first 254 topics only changes nothing, whatever was pushed, if and only if there are no more |
| `GasPower.RateIsShare` | eventcheck/gaspowercheck/gas_power_check.go:132-151 | a validator's rate is its share of the allocation rounded down, and never wraps |
| `GasPower.RatesShareAllocation` | eventcheck/gaspowercheck/gas_power_check.go:132-151 | the rates of all validators give out the allocation, but for at most one unit each |
| `GasPower.BucketIs` | eventcheck/gaspowercheck/gas_power_check.go:132-164 | a bucket holds what its rate grants in the longest period and opens with what it grants in the startup period, or the minimums |
| `GasPower.StrangerHasNone` | eventcheck/gaspowercheck/gas_power_check.go:132-140 | who has no stake has no gas power |
| `GasPower.EpochBoundary` | eventcheck/gaspowercheck/gas_power_check.go:85-130 | the first event of an epoch continues from the last one of the epoch before, with the refund, but not below the startup power |
| `GasPower.Newcomer` | eventcheck/gaspowercheck/gas_power_check.go:85-130 | a newcomer starts at the beginning of the epoch with its refund or the startup power |
| `GasPower.AvailableIff` | eventcheck/gaspowercheck/gas_power_check.go:107-130 | wrap-around never gives more than the bucket holds, and exactly when it gives less |
| `GasPower.CalcGasPower` | eventcheck/gaspowercheck/gas_power_check.go:70-105 | both windows, with the power that `EpochBoundary`, `Newcomer` and `LevelIsLeast` describe, or not relevant exactly for another epoch |
| `GasPower.Validate` | eventcheck/gaspowercheck/gas_power_check.go:167-178 | for events within the basic limits, accepted if and only if what is left and used balances exactly |
| `GasPower.TrueBalance` | eventcheck/basiccheck/basic_check.go:64-66 | within the basic limits the compared sum cannot wrap |
| `GasPower.ChainBound` | eventcheck/gaspowercheck/gas_power_check.go:85-178 | along any self-parent chain, use plus level is at most the earlier level plus what the rate granted, and the level stays below the cap |
| `GasPower.AcceptedIsCapped` | eventcheck/gaspowercheck/gas_power_check.go:124-178 | an accepted event uses and leaves no more than the cap, whatever came before it |
| `GasPower.TokenBucket` | eventcheck/gaspowercheck/gas_power_check.go:85-178 | with median times that do not go back, use between two events is at most the cap plus rate times elapsed time |
| `GasPower.LevelIsLeast` | eventcheck/gaspowercheck/gas_power_check.go:85-178 | the level in closed form: the least over when the bucket was last full |
| `GasPower.NetworkBound` | eventcheck/gaspowercheck/gas_power_check.go:85-178 | all validators together use at most their caps plus the network's allocation for the time |
| `Emitter.CalcGasPowerUsed` | eventcheck/epochcheck/epoch_check.go:44-57 | the wrapping sums of the loop are the wrapped total |
| `Emitter.OverheadSteps` | eventcheck/epochcheck/epoch_check.go:44-57 | an event costs its base gas; parents are free up to a number, each further one and each byte of extra data costs |
| `Emitter.ThrottleKeepsReserve` | gossip/emitter/txs.go:41-82 | smoothing never spends the reserve and does not slow down a rich validator |
| `Emitter.ThrottleMonotone` | gossip/emitter/txs.go:41-82 | more gas power never means less gas to use |
| `Emitter.ThrottleIs` | gossip/emitter/txs.go:41-82 | in numbers: everything above the upper threshold, half of what lies between the thresholds, nothing below |
| `Emitter.TxEmitter.EstimatedIs` | gossip/emitter/txs.go:41-58 | what four fifths of the allocation grant in the time since the median, a minute at most |
| `Emitter.Build` | gossip/c_event_callbacks.go:58-72 | used and left split the available gas power in both windows, or the exact error |
| `Emitter.TxEmitter.MaxGasPowerToUse` | gossip/emitter/txs.go:34-104 | exactly the limits cut in order, with sums that wrap going unnoticed |
| `Emitter.TxEmitter.MostGasIsLeast` | gossip/emitter/txs.go:34-104 | where no sum wraps that is the least of all limits |
| `Emitter.TxEmitter.AmpleFills` | gossip/emitter/txs.go:34-104 | a validator with ample power may fill an event |
| `Emitter.TxEmitter.PendingRoom` | gossip/emitter/txs.go:83-93 | pending gas has room for a full event and an empty one of every validator, or three fifths of a block if that is more |
| `Emitter.TxEmitter.SafeIff` | gossip/emitter/txs.go:83-102 | the gas to use leaves the reserve, and keeps pending gas within its limit, if and only if the compared sums do not wrap, or the reserve cuts deep enough |
| `Emitter.ReserveMayBreak` | gossip/emitter/txs.go:94-102 | a run after which an event leaves less than the reserve |
| `Emitter.PendingMayBreak` | gossip/emitter/txs.go:83-93 | a state in which pending gas may pass its limit |
| `Emitter.TxEmitter.Consider` | gossip/emitter/txs.go:165-198 | adds exactly the fitting eligible transactions, stops exactly when not even an empty one fits |
| `Emitter.TxEmitter.AddTxs` | gossip/emitter/txs.go:153-204 | keeps the split and the declared gas, takes the highest price first and each sender's transactions in nonce order, and leaves none out without a reason at the moment it was looked at |
| `Emitter.TxEmitter.CreateEvent` | gossip/emitter/emitter.go:333-374 | an event with a transaction passes the gas checks, leaves more than the threshold and keeps pending gas within its limit, the latter two under the conditions of `SafeIff`; its transactions are chosen as `AddTxs` says |
| `GasAccounting.IntrinsicGas` | evmcore/state_transition.go:111-145 | the exact intrinsic gas, and exactly when it overflows |
| `GasAccounting.IntrinsicSteps` | evmcore/state_transition.go:111-145 | a call starts at 21000 and a creation at 53000; each byte adds 16, or 4 if it is zero; each listed address adds 2400 and each key 1900 |
| `GasAccounting.AppliedIff` | evmcore/state_transition.go:183-262 | a message is applied if and only if its nonce is due, it can be paid, the block has the gas, and it buys its intrinsic gas |
| `GasAccounting.SkippedWhy` | evmcore/state_transition.go:183-262 | otherwise the reason: the nonce is looked at first, then money, then the gas of the block, then intrinsic gas |
| `GasAccounting.ChargeIs` | evmcore/state_transition.go:262-312 | the machine gets what the message bought less its intrinsic gas; a tenth of what it leaves is charged, but not to internal messages, and refunds pay at most half |
| `GasAccounting.NoncesRise` | evmcore/state_transition.go:262-275 | applying a message takes no nonce back, and a call raises the sender's |
| `GasAccounting.ChargeBounds` | evmcore/state_transition.go:276-307 | a message pays no more than it bought and no less than half of what was used |
| `GasAccounting.SkipIsCleanIff` | evmcore/state_transition.go:231-262 | a skipped message changes nothing if and only if it was refused before buying gas, or bought none |
| `GasAccounting.SenderPays` | evmcore/state_transition.go:183-312 | besides what the machine does, the sender pays used gas times price, nobody else pays, and the pool drops by the used gas |
| `GasAccounting.FeesLeave` | evmcore/state_transition.go:183-312 | the supply drops by exactly the fee |
| `GasAccounting.StateTransition.TransitionDb` | evmcore/state_transition.go:231-290 | computes the change of state, pool and result that `AppliedIff`, `ChargeIs` and `SenderPays` describe; adding gas back never panics |
| `BlockProcessing.FilterSkippedTxs` | inter/block.go:43-59 | the single scan keeps exactly the transactions whose index is not skipped |
| `BlockProcessing.Process` | evmcore/state_processor.go:54-94 | applies the transactions in order, or fails exactly for a bad signature |
| `BlockProcessing.RunTells` | evmcore/state_processor.go:54-158 | receipts stand one-to-one for the kept transactions, and cumulative gas is the prefix sum |
| `BlockProcessing.AppliedInNonceOrder` | evmcore/state_processor.go:54-158 | the transactions a block applies for a sender have rising nonces: no call is applied twice |
| `BlockProcessing.InternalFate` | evmcore/state_processor.go:70-78 | internal transactions are sent by the zero address, are never refused for their nonce and keep the tenth |
| `BlockProcessing.GasIsConserved` | evmcore/state_processor.go:54-158 | pool, receipts and what skipped transactions lost make up the block's limit |
| `BlockProcessing.NothingLost` | eventcheck/basiccheck/basic_check.go:34-52 | with the intrinsic gas rule skipped transactions lose nothing |
| `BlockProcessing.SkipMayCharge` | evmcore/state_transition.go:255-262 | without that rule, a signed transaction that is skipped and pays for all its gas |
| `BlockProcessing.FeesAreConserved` | evmcore/state_processor.go:54-158 | over a batch the supply drops by each receipt's gas at its transaction's price |
| `BlockProcessing.GetReceipts` | gossip/evmstore/store_receipts.go:66-74 | rebuilds gas used from differences of cumulative gas |
| `BlockProcessing.RebuildsGas` | gossip/evmstore/store_receipts.go:66-74 | the rebuilt gas is the gas used, even where the sum wrapped, if counting began at zero |
| `BlockProcessing.TellsConcat` | gossip/blockproc/evmmodule/evm.go:85-96 | records of batches joined with moved indices tell of all of them |
| `BlockProcessing.EvmProcessor.Execute` | gossip/blockproc/evmmodule/evm.go:73-97 | any sequence of batches keeps the records true |
| `BlockProcessing.EvmProcessor.Finalize` | gossip/blockproc/evmmodule/evm.go:99-113 | the block's transactions match its receipts one-to-one, and their gas can be read back |
| `MedianTime.MedianOf` | vecmt/median_time.go:21-84 | less than half of the honest weight lies before the median and at least half not after it; the sanity check never fails |
| `MedianTime.MedianUnique` | vecmt/median_time.go:52-70 | there is one such time, so the order of equal times cannot matter |
| `MedianTime.AnswerUnique` | vecmt/median_time.go:52-70 | the answer is one number, however ties are sorted |
| `MedianTime.AnswerIsMedianIff` | vecmt/median_time.go:58-67 | it is the weighted median if and only if the honest weight is at least two |
| `MedianTime.CheaterMayDecide` | vecmt/median_time.go:58-67 | a view for which it is the time of a cheater |
| `MedianTime.MedianIsHonest` | vecmt/median_time.go:30-49 | it is the time of a validator with weight that was not caught forking |
| `MedianTime.MedianWithin` | vecmt/median_time.go:57-70 | it stays within any range outside of which less than half of the weight claims to be |
| `VectorClocks.JoinLaws` | vecmt/vector_ops.go:41-72 | joining is idempotent and associative, a fork absorbs, nothing is neutral; it commutes if and only if equal events have equal times |
| `VectorClocks.JoinSpans` | vecmt/vector_ops.go:41-72 | what is joined spans both sides and has the time of the higher event |
| `VectorClocks.FoldAnyOrder` | vecmt/vector_ops.go:41-72 | observations of a branch may be joined in any order |
| `VectorClocks.HighestBefore.CollectParents` | vecmt/vector_ops.go:41-72 | collecting a list of vectors joins their observations, branch by branch |
| `VectorClocks.TimeVector.Get` | vecmt/vector.go:41-46 | the time at a position, zero beyond the end |
| `VectorClocks.TimeVector.Set` | vecmt/vector.go:49-55 | refines an update of a zero-default map, growing as needed |
| `VectorClocks.HighestBefore.InitWithEvent` | vecmt/vector_ops.go:16-19 | one branch shows exactly the event, all others are as before |
| `VectorClocks.HighestBefore.CollectFrom` | vecmt/vector_ops.go:41-72 | joins exactly the first branches |
| `VectorClocks.HighestBefore.GatherFrom` | vecmt/vector_ops.go:74-93 | a fork if and only if a listed branch is one, otherwise the highest |

## Findings

Where the code does not do what one would expect, the model follows the code. The exact condition is given.

- A reorganisation that reinjects transactions may leave a hole in a pending list. `PoolOrder.OrderedIffNoHole` says
  exactly when; `PoolOrder.ReinjectionMayLeaveHole` is an example.
- `Discard` counts a transaction twice that left the pool and came back while its old heap entry was still there.
  `PricedLists.DiscardHonestIff` says exactly when; `PricedLists.DiscardCountsTwice` gets there by calls.
- A skipped transaction with less than its intrinsic gas still pays for its gas. `GasAccounting.SkipIsCleanIff` says
  exactly when; `BlockProcessing.SkipMayCharge` is an example. The basic checks of events keep such transactions out
  (`BlockProcessing.NothingLost`).
- The index looks at the address and the first 254 topics of a filter; the simple filter looks at all.
  `TopicIndex.TruncationIff` says exactly when that makes a difference.
- A legacy transaction whose nonce and gas are both below 256 would be taken for a typed one (`TxSerializer.MarkerIff`);
  the writer refuses it.
- Below an honest weight of two the median time is the earliest claim, even that of a cheater.
  `MedianTime.AnswerIsMedianIff` says exactly when; `MedianTime.CheaterMayDecide` is an example.
- The emitter compares sums of 64-bit numbers that may wrap, and then an event may leave less than the reserve or pass the
  limit on pending gas. `Emitter.TxEmitter.SafeIff` says exactly when; `Emitter.ReserveMayBreak` and
  `Emitter.PendingMayBreak` are examples.
- The comment in `truncateQueue` speaks of the oldest accounts; the code drops the queues of the most recently active
  accounts first, and so does the model.
- The pool decides by the number of transactions whether it is full, and makes room by slots, so it may be over its limit
  in slots. `TxPools.TxPool.FullWantsSlots` says exactly when; `PoolExamples.NotFullButOverLimit` gets there by calls. A pool that
  is full by number and gives up remote transactions for a remote one ends within its limit (`TxPools.TxPool.Add`), if no live
  one sits in the price heap twice.
- A run with a reset starts all virtual nonces at the state nonces, so a ready transaction in the queue right behind a
  run that stays pending is left there until a later run. `PoolStages.DryIffNotLeftBehind` and the contract of
  `TxPools.TxPool.RunReorg` say exactly when; `PoolExamples.ResetLeavesReady` gets there by calls.
- A local transaction that takes the place of a pending one does not mark its sender as local. The contracts of
  `TxPools.TxPool.Add` and `TxPools.TxPool.Admit` say exactly when; `PoolExamples.LocalReplacementUnmarked` gets there by calls.

## Left out

- The journal, the event feed, metrics, log lines, timers and locking of the pool; times are inputs.
- `SampleHashes`, `Content`, `Status` and other queries of the pool would only add easy members.
- Nonces of 2^64 and above: nonces are natural numbers and do not wrap.
- The pool keeps its nonce lists as values, so aliasing of lists is not modelled; `SortedMaps.AccountList` refines them.
- PoolOrder.OrderedIffNoHole: is about one account, promoted from a virtual nonce equal to its state nonce; a full pool that
  drops pending transactions while reinjecting may lower that nonce, which is not covered.
- TxPools.TxPool.EvictExpired: the accounts that were silent for too long are an input.
- TxPools.TxPool.ResetHead: the walk over the two chains that collects the transactions to reinject is not modelled; they are
  an input.
- The scheduler's steps are atomic; the Go memory model, what the events say and the feed at the end of a run are not modelled.
- EventSerializer.MarshalBinary: arrays of 2^63 bytes and more, and lists whose length does not fit the counter, are not
  covered. Event hashes and RLP are not modelled.
- CserIO.Reader.ReadNum: a byte stream that ends early fails at once as malformed; in Go the slice reaches into the bit array
  behind it and the failure comes at the end as non-canonical. The accepted inputs are the same.
- TxSerializer.UnmarshalTx: the same kind of error for bytes that end early.
- EventSerializer.UnmarshalBinary: the same kind of error for bytes that end early.
- WeightedShuffle.WeightedPermutation: weights with a total of 2^32 and more, where the sums wrap, are not covered.
- WeightedShuffle.NodeShares: is about numbers below the node's weight; the remainder of a 32-bit word is not quite evenly spread
  over them.
- RandSelect.Insert: nodes are values, so update in place is not modelled; weights do not overflow.
- RandSelect.WeightedRandomSelect.ChooseOnce: is one pass; the loop around it may go on as long as weights keep falling.
- TopicIndex.Index.Push: logs with more than 255 topics are not covered.
- TopicIndex.Index.FindInBlocks: cancellation, early stop by the callback and the search without a block range are not modelled.
- GasPower.LevelIsLeast: is about grants that fit the word; the bounds of `GasPower.ChainBound` need no such condition.
- Emitter.TxEmitter.AddTxs: the ring buffer of originated transactions is a function.
- BlockProcessing.AppliedInNonceOrder: the machine raises the nonce of a creation's sender, so for creations nonces do not fall.
- BlockProcessing.Process: logs, bloom filters, state roots and contract addresses are not modelled; block positions
  are natural numbers and not cut to 32 bits.
- BlockProcessing.EvmProcessor.Execute: the node stops on an invalid signature, so valid ones are required.
- VectorClocks.HighestBefore.CollectFrom: the vector of sequence numbers belongs to another library and is a map with
  default; the two vectors are distinct objects.
- The consensus engine, networking, RPC, storage, the virtual machine, genesis, upgrades and key handling are not modelled.
