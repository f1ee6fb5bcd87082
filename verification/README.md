# Verified model of the RocksDB in-memory block caches

This project models the block caches under `rocksdb/cache` and proves what their comments, assertions and
documentation promise. Concurrent code is modelled as a state machine: an atomic load, store, compare-and-swap or
fetch-and-add is a step, a step that is not enabled changes nothing, and a run is any list of steps by any number of
threads. Two accesses share a step only where one of them reads what no other thread can change then: a chain pointer
loaded under the rewrite lock, a key read under a reference or, in `ChainSplit`, a slot that keeps its entry throughout.
Each main theorem is about all runs. Sequential code is modelled as classes and methods with loops, proved against
specifications on plain sequences and maps.

| part | modules |
|---|---|
| splitting a chain while inserts and lookups go on | `ChainSplit`, `ChainSplitProof`, `ChainSplitSteps`, `ChainSplitInserts`, `ChainSplitLookup`, `ChainSplitTheorems`, `ChainSplitMiss` |
| growing the table and publishing its length | `LinearHashing`, `GrowProtocol`, `GrowTheorems` |
| removing entries from a chain under the rewrite lock | `ChainPurge`, `ChainPurgeProof`, `ChainPurgeSteps`, `ChainPurgeTheorems` |
| lookups while entries of all chains are removed and slots used again | `ChainTable`, `ChainTableProof`, `ChainTableTheorems` |
| reference counts and ownership of a slot | `MetaWord`, `SlotProtocol`, `SlotTheorems`, `SlotOverflow` |
| usage and occupancy accounting | `UsageAccounting`, `UsageTheorems`, `ChargeOutcome`, `StrictCapacity` |
| the fixed-size table as a hash table | `FixedProbe`, `FixedTable` |
| slot search and clock eviction of the growing table | `SlotSearch`, `ClockEviction` |
| the LRU cache | `LruRing`, `LruList`, `LruLowInsert`, `LruShard`, `LruShrink`, `LruHandleTable`, `LruScan` |
| reservations, the secondary cache adapter, chunks, keys | `CacheReservation`, `SecondaryAdapter`, `ValueChunks`, `CacheKeys` |
| helpers | `Bits`, `Counting`, `Lists`, `Options`, `Ratio`, `Words` |

Where the code does not meet a property in general, the code is modelled as it is, a run that fails is given, and the
exact condition is proved:

- A lookup beside a split: an entry under destruction is skipped without a look at its home, so a lookup can end
  without a match for an entry that stays. `ChainSplitMiss.CanMissIff` proves for every chain when there is such a run:
  if and only if an entry of the entry's own output chain, one of the other, the entry, and another of the other follow
  each other in this order. `ChainSplitMiss.PatternMisses` gives the run.
- Reference counts and the overflow correction: `SlotTheorems.CountsRightIffCorrectionsAgree`; the correction fires on
  every second group of four release counts, not only near overflow, and two references suffice to break the count
  (`SlotOverflow.TwoReferencesCanBreakTheCount`).
- The low-priority insert into the LRU list: `LruLowInsert.LowInsertKeepsListIff`, and for running into the sentinel
  `LruLowInsert.LowInsertClearIff`; `LruShrink.ShrinkThenLowInsert` is the failing run.
- Lowering the capacity of the secondary adapter: `SecondaryAdapter.Adapter.SetCapacity`, failing run
  `SecondaryAdapter.ShrinkBreaksBalance`.
- Keys of two files: `CacheKeys.FilesCollideIff`, `CacheKeys.SessionFilesCollideIff`; id and key round trips:
  `CacheKeys.IdRoundTrip`, `CacheKeys.KeyRoundTrip`.
- A scan with zero entries per call: `LruScan.ZeroPerCallIsStuck`.

Some facts of the proofs need bookkeeping that the code does not have, such as which entries are already migrated.
It is kept in `Aux` values that lemmas return, or in history fields such as `since`, `wanted` and `condemnedBefore` that
decide nothing.

## Model

| member | source | states |
|---|---|---|
| ChainSplitTheorems.EveryEntryReachable | rocksdb/cache/clock_cache.cc:2293-2621 | after every single step of every run of a split with concurrent inserts, each published entry can be reached by following pointers from the head a lookup picks: the old home's until both heads carry the new shift, then the one its new hash bit selects |
| ChainSplitTheorems.SplitResult | rocksdb/cache/clock_cache.cc:2427-2620 | a finished split leaves exactly the old chain filtered by the new hash bit, in original order, behind what was inserted meanwhile; every pointer has the new shift and each chain ends in its own home's end marker |
| ChainSplitTheorems.RunExtendsLog | rocksdb/cache/clock_cache.cc:3051-3071 | inserts only ever add entries in front |
| ChainSplitTheorems.LookupNeverMisses | rocksdb/cache/clock_cache.cc:3168-3308 | if an entry with the key is on the chain when a lookup begins and does not come to be under destruction, the lookup ends without a match only if entries of both output chains lie around it in one particular order and the last of them is under destruction; for every interleaving with the split, with inserts and with entries coming under destruction, starting from either table length |
| ChainSplitMiss.CanMissIff | rocksdb/cache/clock_cache.cc:3298-3307 | for every chain and every entry with a key of its own: some run of the split lets a lookup miss the entry although it stays, if and only if the chain has such entries around it |
| ChainSplitMiss.PatternMisses | rocksdb/cache/clock_cache.cc:3299-3301 | the run: the lookup stands on the entry before, the split links that to the entry behind, which is condemned and skipped |
| ChainSplitMiss.Drive | rocksdb/cache/clock_cache.cc:2557-2618 | the splitting thread alone brings a frontier to each entry of its output chain in turn |
| ChainSplitTheorems.SplitFinishes | rocksdb/cache/clock_cache.cc:2494-2620 | once the heads are switched, at most 4n + 4 steps of the splitting thread finish the split of n entries, whatever other threads do |
| ChainSplitTheorems.LocksSurviveInserts | rocksdb/cache/clock_cache.cc:3055-3065 | the lock bits the split set are still set when it unlocks: no insert drops them |
| ChainSplitSteps.MoveKeepsChains | rocksdb/cache/clock_cache.cc:2330-2345 | moving a frontier forward keeps the source's weak invariant: migrated parts strung with the new shift, the rest of the old chain untouched behind the earlier frontier |
| ChainSplitSteps.UpgradingKeeps | rocksdb/cache/clock_cache.cc:1809-1838 | each iteration that upgrades the shifts of a range keeps the chain invariant and comes closer to the end |
| LinearHashing.LengthInfoRoundTrip | rocksdb/cache/clock_cache.cc:1682-1712 | packing a table length into threshold and shift loses nothing |
| LinearHashing.HomeInRange | rocksdb/cache/clock_cache.cc:1728-1736 | the home of every hash is below the table length |
| LinearHashing.GrowthRehomes | rocksdb/cache/clock_cache.cc:1728-1736 | growing from n to n + 1 slots re-homes only hashes at the split home n - 2^floor(log2 n), to that home or to n by their next bit |
| LinearHashing.GrowthChangesTwoShifts | rocksdb/cache/clock_cache.cc:2181-2186 | growing by one changes the shift of exactly the split home and the new home |
| GrowProtocol.PopulateHeads | rocksdb/cache/clock_cache.cc:1981-2023 | the constructor's loop gives every initial head exactly the shift its length asks for, and leaves the others unused |
| GrowTheorems.LengthNeverDecreases | rocksdb/cache/clock_cache.cc:2243-2278 | the published length never decreases, over every run of growing, catching-up and inserting threads |
| GrowTheorems.PublishedLengthIsUsable | rocksdb/cache/clock_cache.cc:3022-3049 | the home the published length gives any hash always carries at least the shift it asks for, so the insert branch marked as impossible is never taken |
| GrowTheorems.InsertsLandAtTheirHome | rocksdb/cache/clock_cache.cc:3022-3071 | an insert that started from any stale length links its entry to the head of its own hash |
| GrowTheorems.GrowSlotsAreClaimedOnce | rocksdb/cache/clock_cache.cc:2165-2174 | no two threads work on the same grow slot, none works on a published one, and the length never passes an unpublished one |
| GrowTheorems.SplitPublishesBothHeads | rocksdb/cache/clock_cache.cc:2188-2210 | at the switch the old home has exactly the old shift and the new home already the new one, thanks to the wait for the grandparent home |
| GrowTheorems.SomeGrowCanProceed | rocksdb/cache/clock_cache.cc:2188-2206 | waiting grow operations cannot block each other: the owner of the least pending slot is never kept waiting |
| ChainPurgeTheorems.LockIsExclusive | rocksdb/cache/clock_cache.cc:1861-1953 | the rewrite lock bit is set exactly while one thread holds the lock, and never do two; inserts do not drop it |
| ChainPurgeTheorems.NothingInUseIsLost | rocksdb/cache/clock_cache.cc:2634-2756 | at every moment the chain is all linked entries whose slots are not emptied, newest first, without some that are being destroyed; no entry in use is ever lost, also across restarts and with slots used again |
| ChainPurgeTheorems.FinishedWalkHasPurged | rocksdb/cache/clock_cache.cc:2664-2756 | a finished walk has cut out everything that was being destroyed when it began and is not emptied yet, and everything its own thread destroys, each recorded exactly once |
| ChainPurgeTheorems.EmptiedOffChainByOneThread | rocksdb/cache/clock_cache.cc:2674-2677 | a slot is emptied only when its entry is off the chain, and only by the one thread that destroys the entry |
| ChainTableTheorems.LookupMissesNothing | rocksdb/cache/clock_cache.cc:3168-3308 | a lookup that ends without a match has missed nothing: each matching entry that was linked and visible when it began was hidden or condemned since; for every interleaving of lookups, inserts, removals and clock walks over any number of chains that share their slots, also when slots the lookup stands on are emptied and linked into other chains |
| ChainTableTheorems.ResidentIsNotMissed | rocksdb/cache/clock_cache.cc:3082-3084 | a lookup that begins while an entry with its key is linked and visible does not end without a match, if the entry is neither hidden nor condemned from then on |
| ChainTableTheorems.SlotsAreNotShared | rocksdb/cache/clock_cache.cc:3077-3082 | no slot is ever in use by two chains |
| ChainTableProof.StepClosed | rocksdb/cache/clock_cache.cc:3094-3097 | no step of any chain lets what a lookup can reach lead past an entry it must see |
| ChainPurgeTheorems.LeadsUnique | rocksdb/cache/clock_cache.cc:2736-2754 | the pointers determine the chain, so the chain in the two theorems above is the one a reader follows |
| ChainPurgeSteps.RestartKeeps | rocksdb/cache/clock_cache.cc:2708-2724 | restarting after a failed head update keeps every entry, including those already condemned |
| ChainPurgeSteps.FreeKeeps | rocksdb/cache/clock_cache.cc:3359-3361 | emptying a slot leaves the chain and every other thread's walk as they are |
| ChainPurgeProof.LinkKeeps | rocksdb/cache/clock_cache.cc:3051-3071 | an insert during a walk keeps the walk's view of the chain intact |
| MetaWord.RefcountIsDifference | rocksdb/cache/clock_cache.cc:42-46 | the masked word subtraction gives the difference of the two counters modulo 2^30 |
| MetaWord.FieldsOfMake | rocksdb/cache/clock_cache.h:319-352 | the four fields of the meta word are independent and can be read back |
| MetaWord.AddAcquiresFields | rocksdb/cache/clock_cache.cc:858-862 | adding to the whole word changes only the acquire counter while that does not overflow |
| MetaWord.CorrectionKeepsRefcount | rocksdb/cache/clock_cache.cc:219-236 | the overflow correction keeps the reference count if and only if it does not fire or the top bits of both counters agree |
| SlotOverflow.TwoReferencesCanBreakTheCount | rocksdb/cache/clock_cache.cc:219-236 | a run from an empty slot in which only two agents act and the correction leaves a reference count of 2^29 + 1 for one reference |
| SlotTheorems.CountersMatchReferences | rocksdb/cache/clock_cache.cc:831-1056 | over every run of lookups, inserts, erases, clock updates, visits and releases, those of the growing table included, a shareable slot's reference count is exactly the references held on it, if no counter overflows and each correction finds the top bits equal |
| SlotTheorems.CountsRightIffCorrectionsAgree | rocksdb/cache/clock_cache.cc:165-236 | while no counter overflows, reference counts are right at every moment of a run if and only if each correction that fires finds the top bits of both counters equal |
| SlotTheorems.OneOwner | rocksdb/cache/clock_cache.h:143-185 | a slot is under construction exactly when one agent owns it |
| SlotTheorems.ReferencesPin | rocksdb/cache/clock_cache.h:151-158 | while a reference is held the slot holds the same entry, not freed; a handle from a lookup or insert pins an entry with the key asked for |
| SlotTheorems.FreedOnceInOrder | rocksdb/cache/clock_cache.cc:66-84 | every entry's data is freed at most once, in order of creation, and exactly the entries before the current one have been freed |
| SlotTheorems.NoReferenceUnderflow | rocksdb/cache/clock_cache.cc:900-915 | the assertions on giving references back and on leaving construction never fail |
| SlotTheorems.ErasingOk | rocksdb/cache/clock_cache.cc:980-1037 | each step of an erase keeps counts, ownership and data right, including the weak compare-and-swap loop |
| SlotTheorems.ClockOk | rocksdb/cache/clock_cache.cc:98-163 | so does each clock update based on a word read earlier |
| SlotTheorems.ProbingOk | rocksdb/cache/clock_cache.cc:238-287 | so does an insert that probes an occupied slot with several references at once |
| UsageTheorems.UsageIsConserved | rocksdb/cache/clock_cache.cc:403-553 | in every interleaving, modulo 2^64, usage is metadata plus charges of occupied slots and standalone handles plus what threads have in flight; likewise occupancy and standalone usage |
| UsageTheorems.UsageAtRest | rocksdb/cache/clock_cache.cc:582-684 | with no operation under way nothing is in flight |
| UsageTheorems.LooseNeedMakesRoom | rocksdb/cache/clock_cache.cc:509-534 | the non-strict policy asks for eviction exactly when the charge neither fits nor exceeds what is in use, for at least the charge, and for more than it when over capacity |
| UsageTheorems.SettlingKeeps | rocksdb/cache/clock_cache.cc:466-492 | settling a strict charge after eviction conserves usage on all three outcomes |
| StrictCapacity.UsageNeverExceedsCapacity | rocksdb/cache/clock_cache.cc:440-494 | with the strict limit, one capacity and no growth, usage is exact and at most the capacity at every step |
| ChargeOutcome.ChargeMovesUsage | rocksdb/cache/clock_cache.cc:440-553 | from start to outcome of one charge, on any run, the charging thread's own steps lower usage by exactly what it evicted if it fails, and move it by the charge minus what it evicted if it succeeds, modulo 2^64, strict or not |
| ChargeOutcome.StrictSuccessEvicted | rocksdb/cache/clock_cache.cc:489-491 | a strict charge that asked for eviction and succeeds has evicted something |
| FixedProbe.ProbeInjective | rocksdb/cache/clock_cache.cc:1058-1092 | with an odd increment no slot of a power-of-two table is probed twice in a round |
| FixedProbe.ProbeCovers | rocksdb/cache/clock_cache.cc:1068-1071 | one round probes every slot |
| FixedTable.StopIsSafe | rocksdb/cache/clock_cache.cc:886-888 | a search may stop at a slot with no displacements: no visible copy lies further on |
| FixedTable.Table.Insert | rocksdb/cache/clock_cache.cc:784-829 | puts the entry in an empty slot, newer than all visible copies, and keeps every displacement count equal to the entries pushed past the slot; returns nothing only if a visible copy exists or the table is full, and then changes nothing |
| FixedTable.Table.Lookup | rocksdb/cache/clock_cache.cc:831-891 | returns the newest visible copy of the key with one more reference, whenever one exists |
| FixedTable.Table.Erase | rocksdb/cache/clock_cache.cc:980-1037 | removes or hides every visible copy of the key and nothing else |
| FixedTable.ErasedIsNoCopy | rocksdb/cache/clock_cache.cc:984-998 | after an erase no visible copy of the key is left, and copies of other keys are untouched |
| FixedTable.Table.Rollback | rocksdb/cache/clock_cache.cc:1094-1102 | takes exactly one off the displacements of each slot on the path before the given slot |
| FixedTable.Table.Release | rocksdb/cache/clock_cache.cc:893-966 | frees the entry exactly when the last reference goes and the entry is erased or erasure was asked for |
| FixedTable.Table.Free | rocksdb/cache/clock_cache.cc:1039-1056 | taking an entry out keeps all displacement counts exact |
| SlotSearch.FindSlot | rocksdb/cache/clock_cache.cc:2900-3015 | without concurrent writers, giving up means that no slot below the saved length is free or holds the key and the hinted slot is taken; the home comes first, then the hinted slot, which lies beyond that length |
| SlotSearch.JumpSearch | rocksdb/cache/clock_cache.cc:2960-3014 | the jumps with a shift by one after each round try every slot before giving up, also when increment and length share a factor, and they end |
| SlotSearch.EnoughRounds | rocksdb/cache/clock_cache.cc:2978-3004 | rounds from consecutive starts that are together longer than the table cover it |
| SlotSearch.JumpLengthInRange | rocksdb/cache/clock_cache.cc:2968-2970 | the golden-ratio increment is positive and below the table length for every hash |
| ClockEviction.UnreferencedIsEvicted | rocksdb/cache/clock_cache.cc:98-163 | an undisturbed unreferenced entry is evicted by exactly one visit, number min(countdown, 3) + 1 if visible and 1 if not |
| ClockEviction.PriorityDecidesLifetime | rocksdb/cache/clock_cache.cc:48-64 | left alone, an entry inserted with high, low or bottom priority is evicted by visit 4, 3 or 2 |
| ClockEviction.ReferencedIsNeverEvicted | rocksdb/cache/clock_cache.cc:125-133 | no number of visits changes a referenced entry |
| ClockEviction.PurgedToPinned | rocksdb/cache/clock_cache.cc:2664-2756 | four visits reduce a chain to exactly its referenced entries, in order |
| ClockEviction.Sweeper.Evict | rocksdb/cache/clock_cache.cc:3454-3553 | a quiescent sweep takes the least number of steps after which the request is freed, the effort is too high or every home has been visited four times; each home has had the visits those steps owe it, and freed charge, freed entries and sightings of referenced entries are exactly what these visits amount to |
| ClockEviction.Sweeper.SweepGroup | rocksdb/cache/clock_cache.cc:3504-3516 | one step visits exactly the homes of its group, once each, and counts exactly |
| ClockEviction.PassesVisitAll | rocksdb/cache/clock_cache.cc:3532-3546 | every pass visits each home exactly once, wherever the clock pointer starts |
| ClockEviction.VisitsAreEven | rocksdb/cache/clock_cache.cc:3471-3480 | in between, no home is visited more often than the passes begun, nor less often than those completed |
| ClockEviction.FullSweepLeavesPinned | rocksdb/cache/clock_cache.cc:3532-3546 | a sweep that goes all the way visits every home exactly four times and leaves only referenced entries |
| ClockEviction.UnreferencedTableIsFreed | rocksdb/cache/clock_cache.cc:3527-3551 | without referenced entries and with an effort cap of at least one, a sweep frees the request or empties the table |
| ClockEviction.FreedIsLost | rocksdb/cache/clock_cache.cc:3507-3530 | the charge and the number of entries a sweep reports as freed are what the homes lost |
| ClockEviction.PurgeChain | rocksdb/cache/clock_cache.cc:125-163 | the loop over a chain keeps the survivors of one visit each and counts freed charge, freed entries and pinned entries exactly |
| LruRing.RingRemove | rocksdb/cache/lru_cache.cc:242-244 | unlinking a node from the ring removes exactly that node |
| LruRing.RingInsert | rocksdb/cache/lru_cache.cc:262-265 | linking a node puts it at exactly that position |
| LruList.List.Insert | rocksdb/cache/lru_cache.cc:257-297 | the list stays bottom, low, high with both pointers, flags and all three counters right; the entry goes to the recent end of its pool and the pools end within their limits |
| LruList.List.Remove | rocksdb/cache/lru_cache.cc:233-255 | removes exactly the entry from its segment and its counters, and pulls the segment pointers back |
| LruList.List.MaintainPoolSize | rocksdb/cache/lru_cache.cc:299-320 | terminates with both pools within their limits, without passing the sentinel and without reordering the list |
| LruLowInsert.InsertLow | rocksdb/cache/lru_cache.cc:270-281 | the low-priority branch as written, on machine words: link, both loops, then move the low pointer; its outcome is the specified one |
| LruLowInsert.WalkHigh | rocksdb/cache/lru_cache.cc:300-309 | the first loop follows the ring until the counter is within the limit or the sentinel is reached |
| LruLowInsert.WalkLow | rocksdb/cache/lru_cache.cc:311-319 | so does the second |
| LruLowInsert.LowInsertKeepsListIff | rocksdb/cache/lru_cache.cc:270-281 | after a low-priority insert the list has segments that fit its links, flags, counters and pointers if and only if the high pool was within its limit |
| LruLowInsert.Aftermath | rocksdb/cache/lru_cache.cc:300-309 | otherwise, if the insert ends, the high pool's counter is the charge of what is left of the pool minus the new charge, and the entries taken have lost their flag |
| LruLowInsert.FirstLoopClearIff | rocksdb/cache/lru_cache.cc:300-303 | the first loop stays clear of the sentinel if and only if the high pool was within its limit or some tail of it, less the new charge, is within the limit as a machine word |
| LruLowInsert.LowInsertClearIff | rocksdb/cache/lru_cache.cc:299-320 | and the exact condition for both loops |
| LruLowInsert.MayStopPlainly | rocksdb/cache/lru_cache.cc:300-303 | without wrap-around such a tail has a charge between the new charge and the new charge plus the limit |
| LruLowInsert.SmallChargeIsNotEnough | rocksdb/cache/lru_cache.cc:300-308 | a new charge far below the pool's can still lead into the sentinel |
| LruShrink.ShrinkThenLowInsert | rocksdb/cache/lru_cache.cc:354-365 | a run of a shard: an insert, a lower capacity that evicts nothing, and a low-priority insert that runs into the sentinel |
| LruShard.Shard.EvictFromLRU | rocksdb/cache/lru_cache.cc:322-335 | evicts a prefix of the list, just long enough to make room or the whole list, and keeps the shard consistent |
| LruShard.Shard.Insert | rocksdb/cache/lru_cache.cc:372-428 | evicts as few entries as it takes; refuses exactly if the entry still does not fit and the limit is strict or no handle is wanted; otherwise the entry replaces what its key held and nothing else changes; keeps: listed iff in the table and unreferenced, usage is the sum over live handles, nothing left to evict while over capacity; referenced handles survive |
| LruShard.WithinLimitThroughout | rocksdb/cache/lru_cache.cc:322-335 | a high-priority pool that is within its limit stays so during the eviction for an insert |
| LruShard.Shard.Lookup | rocksdb/cache/lru_cache.cc:430-448 | returns the handle in the table with one more reference and a hit, off the list |
| LruShard.Shard.Enqueue | rocksdb/cache/lru_cache.cc:482-496 | an unreferenced handle goes to the recent end of the pool that its priority, its hits and the enabled pools give it |
| LruShard.Shard.Release | rocksdb/cache/lru_cache.cc:472-518 | frees the handle exactly when the last reference goes and it is out of the table, the shard is over capacity or erasure was asked for; otherwise it goes back on the list |
| LruShard.Shard.Erase | rocksdb/cache/lru_cache.cc:591-615 | takes the key out of the table; the handle dies unless it is referenced |
| LruShard.Shard.CreateStandalone | rocksdb/cache/lru_cache.cc:559-589 | evicts as few entries as it takes; a handle that still does not fit under the strict limit is refused, or made without a charge if that is allowed, and otherwise it is made with its charge; nothing else changes |
| LruShard.Shard.SetCapacity | rocksdb/cache/lru_cache.cc:354-365 | evicts from the old end down to the new capacity, and nothing if that is not needed; keeps the pool premise if the capacity does not shrink |
| LruShard.Shard.EraseUnRefEntries | rocksdb/cache/lru_cache.cc:146-166 | removes exactly the listed handles |
| LruShard.Shard.SetHighPriorityPoolRatio | rocksdb/cache/lru_cache.cc:458-463 | changing the ratio restores the pool limits and keeps the list |
| LruHandleTable.Table.Lookup | rocksdb/cache/lru_cache.cc:45-47 | finds exactly what the map holds for the key |
| LruHandleTable.Table.Insert | rocksdb/cache/lru_cache.cc:49-63 | updates the map at one key, returns what it replaced, and stays exact through a resize |
| LruHandleTable.Table.Remove | rocksdb/cache/lru_cache.cc:65-73 | removes one key from the map and returns its handle |
| LruHandleTable.Table.Resize | rocksdb/cache/lru_cache.cc:83-115 | doubling the table keeps the map, puts each entry in the bucket of its hash and loses or repeats none |
| LruHandleTable.ElemsExact | rocksdb/cache/lru_cache.cc:112 | the number of entries is the number of keys of the map |
| LruHandleTable.Table.ApplyToEntriesRange | rocksdb/cache/lru_cache.h:220-230 | visits each entry of the range of buckets once, in order |
| LruScan.ResidentVisitedOnce | rocksdb/cache/lru_cache.cc:168-202 | a finished scan visited every entry that stayed in the table exactly once, although the table may double between calls |
| LruScan.ScanFinishes | rocksdb/cache/lru_cache.cc:168-202 | with at least one bucket per call the scan of a shard ends within as many calls as its largest table has buckets |
| LruScan.ApplyToAllEntries | rocksdb/cache/sharded_cache.h:238-260 | the rotation over the shards ends within as many rounds as the largest table has buckets, with the scan of every shard finished |
| LruScan.EveryShardVisitedOnce | rocksdb/cache/sharded_cache.h:238-260 | in every shard each entry that stays in it is visited exactly once |
| LruScan.ZeroPerCallIsStuck | rocksdb/cache/sharded_cache.h:247-258 | with zero per call, which the caller's minimum allows, it never moves |
| CacheReservation.Manager.Update | rocksdb/cache/cache_reservation_manager.cc:57-85 | an OK update leaves the least multiple of the dummy size covering the memory, or in delayed mode an unchanged reservation of which at least three quarters are used; it fails exactly when the cache has no room |
| CacheReservation.Manager.Increase | rocksdb/cache/cache_reservation_manager.cc:111-127 | adds dummies until the memory is covered or the cache is full |
| CacheReservation.Manager.Decrease | rocksdb/cache/cache_reservation_manager.cc:129-147 | releases the newest dummies down to the least cover |
| CacheReservation.Manager.UpdateBy | rocksdb/cache/cache_reservation_manager.h:270-285 | changes the memory by a delta that stops at zero, and settles the reservation as an update does |
| CacheReservation.Manager.Make | rocksdb/cache/cache_reservation_manager.cc:87-99 | memory used stays the sum over live reservation handles, also when the cache is full; the reservation is settled as by an update |
| CacheReservation.Manager.ReleaseHandle | rocksdb/cache/cache_reservation_manager.cc:101-109 | returning a handle gives back exactly its amount and settles the reservation as an update does, also when an earlier reservation had failed |
| SecondaryAdapter.Adapter.Insert | rocksdb/cache/secondary_cache_adapter.cc:242-268 | memory set aside plus the secondary's reservation is the secondary capacity; the reservation is the floor of its share of whole chunks, at most the placeholders and the capacity |
| SecondaryAdapter.Adapter.Release | rocksdb/cache/secondary_cache_adapter.cc:307-337 | keeps the same balance |
| SecondaryAdapter.Adapter.SetCapacity | rocksdb/cache/secondary_cache_adapter.cc:478-532 | keeps the balance and the bounds of the reservation for every capacity of at least the placeholders, and in general each exactly under its stated condition |
| SecondaryAdapter.ShrinkBreaksBalance | rocksdb/cache/secondary_cache_adapter.cc:496-510 | a run of an adapter with a share of a quarter that a capacity below the placeholders leaves out of balance |
| ValueChunks.Split | rocksdb/cache/compressed_secondary_cache.cc:305-349 | chunks concatenate to the value, all but the last fill an allocator bin exactly, the charge is the size plus a fixed overhead per chunk, and splitting ends |
| ValueChunks.Merge | rocksdb/cache/compressed_secondary_cache.cc:351-373 | gives the concatenation of any chain of chunks |
| ValueChunks.RoundTrip | rocksdb/cache/compressed_secondary_cache.cc:305-373 | merging undoes splitting for every non-empty value, compressed or not |
| CacheKeys.IdRoundTrip | rocksdb/cache/cache_key.cc:310-362 | an id survives the trip to a key and back if and only if it is empty or its first word is non-zero |
| CacheKeys.KeyRoundTrip | rocksdb/cache/cache_key.cc:350-362 | a key survives the trip to an id and back if and only if it is empty or its first word is non-zero |
| CacheKeys.ReverseIsReversal | rocksdb/util/math.h:280-295 | reversing the lowest bits of a word of any width undoes itself and keeps zero, as the round trips need |
| CacheKeys.FileKeysAreNonZero | rocksdb/cache/cache_key.cc:336-347 | a base key's first word is zero only for the empty id |
| CacheKeys.KeysNeverCollide | rocksdb/cache/cache_key.cc:18-45 | over every run, keys from the two counters and from file offsets are non-empty, and two are equal exactly when both are for files whose base keys have the same first word, at offsets that differ in the bits in which the second words differ |
| CacheKeys.FilesCollideIff | rocksdb/cache/cache_key.h:120-128 | two files share a key among offsets below 2^k if and only if their base keys agree except for the k lowest bits |
| CacheKeys.SessionFilesCollideIff | rocksdb/cache/cache_key.cc:309-347 | two files of one session share a key if and only if one base key was swapped, the other file's word is the reversed session, and the offsets differ in exactly its bits |

## Left out

- Memory orders, memory mapping and alignment: every atomic access is one sequentially consistent step.
- The guard on the number of loop iterations and process termination.
- ChainSplitTheorems.LookupNeverMisses: a lookup spans at most one split of its chain; entries may come under destruction but are not cut out during the split, as the rewrite lock prevents that; the first ten steps of the naive walk, which only ever return a match, are not modelled.
- ChainTableTheorems.LookupMissesNothing: the table does not grow during the lookup; with a split meanwhile it does not hold, by `ChainSplitMiss.CanMissIff`.
- GrowTheorems.SomeGrowCanProceed: the lock part of the wait and the occupancy limit are not modelled; the wait is on the shift only, which allows more behaviours.
- ChainPurgeTheorems.NothingInUseIsLost: finding the right home before locking, which only matters when the table grows, is not modelled.
- SlotTheorems.CountersMatchReferences: needs counters of a shareable word below their 30 bits and agreeing top bits at each correction; the second is exact by `SlotTheorems.CountsRightIffCorrectionsAgree`.
- StrictCapacity.UsageNeverExceedsCapacity: needs a capacity below 2^63, metadata within it, one capacity throughout and no table growth; with growth the metadata charge is added without a check.
- FixedTable.Table.Lookup: operations are atomic, and of the meta word only visibility and references are modelled.
- Full-sweep guarantees for the fixed-size table: its effort cap is one round short of what an entry with the highest countdown needs.
- SlotSearch.FindSlot: no concurrent writers, and a saved length of at least four slots that does not change during the search.
- ClockEviction.Sweeper.Evict: no concurrent threads, a current clock mask and length, and a clock pointer that does not wrap at 2^64.
- LruShard.Shard.Insert: if the new entry is to go on the list in the low-priority branch, the high-priority pool must be within its limit once eviction is over and the replaced entry is gone; `LruLowInsert.LowInsertKeepsListIff` shows that this is needed.
- LruShard.Shard.Release: the same premise, only if the handle goes back on the list in that branch.
- LruShard.Shard.Enqueue: the same premise, for that branch.
- LruList.List.Insert: the same premise, for that branch; `LruLowInsert.InsertLow` has the branch without it.
- LruLowInsert.InsertLow: the total charge on the list is below 2^64; the walk stops at the sentinel, where the source asserts, because the sentinel's charge is not initialised.
- LruHandleTable.Table.Insert: chains are sequences rather than pointers; the hash width is a parameter.
- SecondaryAdapter.Adapter.SetCapacity: the ratio is a fixed rational, and changing it afterwards is not modelled because the source documents a rounding error there.
- CacheKeys.IdRoundTrip: of the downward involution only that it keeps zero is used; it is a parameter.
- Floating-point load factors and pool ratios: rational shares rounded down instead.
- Hash functions, hash seeds and collision probabilities.
- Compression, allocators, item callbacks, statistics, problem reports and printable options.
- Inflating and deflating inside the compressed secondary cache, its dummy entries and admission policies.
- ChargedCache, typed and tiered wrappers, cache statistics collectors and command-line tools: thin layers over what is modelled.
