# Faunus: verified models

Faunus simulates B+Tree indexes over disaggregated memory: clients reach the memory of servers only
through one-sided READ, WRITE, CAS and FAA operations. This project models its two trees, the
protocols around them and its allocator and queue, and proves what they keep in every run.

**The Faunus tree** (`Bits`, `FaunusNodes`, `FaunusRouting`, `FaunusStructure`, `FaunusContents`,
`FaunusSteps`, `FaunusOutcomes`, `FaunusTree`, `FaunusReaders`). Remote memory is a map from addresses
to nodes and items. The class `FaunusIndex` runs the operations of one client on it; every remote operation is one
call of a primitive that appends the state it leaves behind to a ghost trace. The tree refines a map
from keys to values; every state of the trace, also in the middle of a split, is safe for readers; so
a reader whose node reads fall anywhere between those operations, from the root or from any node
cached earlier, answers correctly or tries again, and an inner node cached at any earlier moment costs a
read at most one more attempt. `FaunusOutcomes` says block by block what an insert leaves behind.

**The Faunus protocols** (`KVBlockWords`, `LeafFreeze`, `LeafFence`, `FreezeGoesOn`, `SplitLocks`,
`ManySplits`, `ConcurrentSplits`, `SplitsGoOn`). The packed 64-bit words; any number of concurrent
inserts, updates and splits of one leaf, from any leaf that a split has written or the first one; the node locks of any number of concurrent
splitters; and any number of splitters at work on one tree, with inserts and updates beside them, from
the leaf lock to the growth of the root. These are step systems: one step for one remote operation of one
thread, and theorems about every run. `ConcurrentSplits` refines the lock protocol, and every state of every
run of it is safe for the readers of `FaunusReaders`. `FreezeGoesOn` and `SplitsGoOn` say that nobody stands
still and what the splitters decide.

**The Sherman tree** (`ShermanPages`, `ShermanContents`, `ShermanSteps`, `ShermanTree`). The second
index, with its own page layout, for one client without a cache: it refines a map, never takes a
sibling pointer, and its height is bounded by the number of keys, which keeps the indices of the path
array in range.

**Helpers** (`EpochReclaim`, `TicketLock`, `ServerQueue`, `Allocators`). Epoch reclamation of the range
cache, the local ticket lock with hand-over, the waiting time of a server, and the stack of
allocators: what they keep in every run, and that their threads go on by their own steps. `Fresh` and `Histories` hold unused addresses and sequences of upserts.

Keys and values are naturals, in the order of their bytes. `maxKey` is the largest key, which
clients do not use (src/util/key_management.hpp:29). The branch factor is a power of two and at least
4; the split watermark is a number of blocks. An abstract block with fingerprint, address, free bit
and lock bit stands for its packed word, which `KVBlockWords.PackIsInjective` justifies for the
fingerprints that occur and addresses below 2^46. Random draws are arbitrary values; the allocator of
the trees returns any address not in use, which `Allocators` justifies. Sherman takes address 0 for "no
page" and "no item", so for it the allocator never returns 0: `Allocators.Cluster.Add` puts address 0 into
the size class that asks first, the smallest one, and `Allocators.Cluster.Allocate` never returns it for
another size. This is the class of the root pointer unless an item has fewer than eight bytes.

Where the code falls short of its comments or of what one would expect, the model follows the code:

- The masks of `setAddr` have fifteen digits (src/kv_index/faunus_index.hpp:97): it clears the top
  four bits of the fingerprint and keeps the top four bits of the old address.
  `KVBlockWords.PackRoundTrip` says exactly which fields survive, `KVBlockWords.ComposeRoundTrip` which
  servers' addresses do.
- With a watermark of the whole leaf, an absent key whose leaf is full is never inserted; `Insert`
  says exactly when it succeeds, and `FaunusTree.FullWatermarkGetsStuck` gets there from the empty tree
  with any distinct keys, one for each block of a leaf.
- A redrawn free block differs from what its slot held when the split locked it, but it can repeat a free
  block that the slot showed before that. One split is enough: `LeafFence.OneSplitSuffices` is a run from
  the empty leaf after which a key sits outside the fence. `LeafFence.RunStaysInFence` proves the fence for
  every run whose write-backs repeat no free block that its slot has shown, unlocked, while a key that the
  split moves away was absent; `LeafFence.ReuseBreaksFence` proves that any such repetition lets one more
  client put that key outside the fence.
- A Sherman read reports a key whose value is the smallest value as absent; `Read` says so exactly, and
  `ShermanTree.SmallestValueReadsAsAbsent` shows it from the empty tree.
- `release` may hand over after `can_hand_over` said no and the remote lock was cleared, and the next
  holder then skips the remote lock. `TicketLock.HandOverDespiteRefusal` says exactly when,
  `TicketLock.RemoteAfterHandOver` that this holder works without the remote lock exactly after a refusal,
  and `TicketLock.RefusalThenHandOver` is a run from the start in which it happens. The other direction is
  kept (`TicketLock.PromiseIsKept`).
- `free` does not check that the caller holds the block. `Allocators.GiveIffHeld` says that the guarantees of
  the allocators survive a free exactly if the caller held the block; `Allocators.DoubleFreeSharesABlock`
  shows what a second free does.
- Addresses have 50 bits, 42 of them for the offset on a server. `Allocators.UsableIffFits` says that every
  byte given out has an address of its own, on a server that exists, exactly if there are at most 256 servers
  and none gave out more than 2^42 bytes; `Allocators.LastServerSpills` is a run from the start in which the
  last server's memory runs into that of the first one.

## Model

| member | source | states |
|---|---|---|
| Bits.ProbeIsPermutation | src/kv_index/faunus_index.cpp:462-470 | for every seed the probe order visits each slot of a leaf exactly once |
| Bits.XorLowInvolution | src/kv_index/faunus_index.cpp:470 | exclusive-or with the seed in the index bits is its own inverse |
| Bits.XorLowNarrow | src/kv_index/faunus_index.hpp:64-68 | the 16-bit exclusive-or of two bytes stays a byte |
| Bits.Fingerprint | src/kv_index/faunus_index.hpp:62-69 | the loop computes the fold of the key's bytes, always below 256 |
| KVBlockWords.PackRoundTrip | src/kv_index/faunus_index.hpp:83-99 | flags always come back; the fingerprint exactly if below 2^8, the address exactly if below 2^46 |
| KVBlockWords.WideFingerprintIsLost | src/kv_index/faunus_index.hpp:96-97 | a nine-bit fingerprint that packing cuts |
| KVBlockWords.PackIsInjective | src/kv_index/faunus_index.hpp:83-99 | packed words are equal exactly if all four fields are, so a CAS compares fields |
| KVBlockWords.FetchAddTogglesLock | src/kv_index/faunus_index.cpp:573-580 | FAA of +1 on an unlocked and of -1 on a locked word changes only the lock bit |
| KVBlockWords.LockingTwiceSpills | src/kv_index/faunus_index.cpp:573-580 | FAA of +1 on a locked word unlocks it and flips the free bit |
| KVBlockWords.RedrawChangesAddress | src/kv_index/faunus_index.hpp:101-112 | a redraw leaves the address unchanged exactly if the drawn bits are its low 46 bits, never for addresses below 2^46; the fingerprint becomes the low byte drawn |
| KVBlockWords.StaleInsertFails | src/kv_index/faunus_index.cpp:640-668 | after a split, a CAS armed with the word a free slot held when it was locked fails |
| KVBlockWords.ComposeRoundTrip | src/rdma/global_address.hpp:11-15 | server and offset come back exactly if the offset has 42 bits; the address fits a block exactly for the first 16 servers |
| FaunusNodes.FetchAddIsAddition | src/kv_index/faunus_index.cpp:573-580 | FAA of +1 and -1 on the unpacked block, locked or not, is addition on its 64-bit word with carry and borrow, words tell blocks apart, and the release of a lock word wraps around at 0 |
| FaunusRouting.EnterPreservesRouting | src/kv_index/faunus_index.cpp:764-782 | after a separator enters, keys from it up to the next one go to the new child and all others where they went before |
| FaunusRouting.SplitPreservesRouting | src/kv_index/faunus_index.cpp:826-852 | the two halves of an overfull node, chosen by the middle key, route every key as the overfull node did |
| FaunusRouting.WithEntryShape | src/kv_index/faunus_index.cpp:764-782 | separators stay strictly ascending inside the fence, and the leftover key in the last slot stays the smallest key or the upper fence |
| FaunusRouting.HalvesShape | src/kv_index/faunus_index.cpp:826-852 | the same for both halves of a split |
| FaunusRouting.FindSeparator | src/kv_index/faunus_index.cpp:749-756 | the duplicate test finds exactly the keys in the slots up to the last, leftover included |
| FaunusRouting.FindIndex | src/kv_index/faunus_index.cpp:765-772 | the insertion index is the child the separator routes to |
| FaunusRouting.ShiftRight | src/kv_index/faunus_index.cpp:774-777 | the shift loop moves keys and children one slot and changes nothing else |
| FaunusRouting.EnterEntry | src/kv_index/faunus_index.cpp:773-781 | the shift and the two stores turn the arrays into the node with the separator and its child |
| FaunusStructure.PendingParent | src/kv_index/faunus_index.cpp:741-760 | the node found for a separator has a child ending there, and the duplicate test does not fire, leftover key included |
| FaunusStructure.EnterSettles | src/kv_index/faunus_index.cpp:764-787 | entering the pending separator makes all links exact again: fences partition the key space and levels drop by one |
| FaunusStructure.SplitMovesUp | src/kv_index/faunus_index.cpp:798-863 | splitting a full inner node keeps the structure, with the middle separator pending one level above |
| FaunusStructure.RootGrows | src/kv_index/faunus_index.cpp:868-891 | the new root over the old one and its right neighbour settles the tree |
| FaunusStructure.Cut | src/kv_index/faunus_index.cpp:666-673 | writing two nodes with the parts of a fence keeps all other links and disjoint fences |
| FaunusContents.InsertExact | src/kv_index/faunus_index.cpp:473-495 | the insert CAS on a free block makes the leaf hold exactly the map with the new entry |
| FaunusContents.UpdateExact | src/kv_index/faunus_index.cpp:255-271 | the update CAS makes the leaf hold exactly the map with the new value |
| FaunusContents.PartExact | src/kv_index/faunus_index.cpp:637-668 | a run of the sorted entries makes an exact leaf for the part of the fence its keys lie in |
| FaunusContents.LocksKeepExact | src/kv_index/faunus_index.cpp:573-580 | lock bits change neither what a leaf holds nor how many blocks it uses |
| FaunusContents.FreedItemKeepsExact | src/kv_index/faunus_index.cpp:263-270 | freeing an item no used block points to changes no leaf |
| FaunusContents.PutReaderSafe | src/kv_index/faunus_index.cpp:670-673 | a node write that keeps level and lower fence and does not raise the upper one keeps readers safe |
| FaunusSteps.CandsFind | src/kv_index/faunus_index.cpp:209-253 | looking only at blocks with the key's fingerprint finds the same as a scan of all items of the leaf |
| FaunusSteps.SplitKeepsInv | src/kv_index/faunus_index.cpp:854-859 | both writes of an inner split leave a state safe for readers, and the second one the invariant with a pending separator |
| FaunusSteps.RootKeepsInv | src/kv_index/faunus_index.cpp:868-891 | both writes of a root growth leave a state safe for readers, and the second one a settled tree |
| FaunusSteps.LeafCutKeepsInv | src/kv_index/faunus_index.cpp:666-673 | the same for the two writes of a leaf split |
| FaunusSteps.TraceEvolves | src/kv_index/faunus_index.cpp:666-682 | between any two moments of a trace nodes stay, keep level and lower fence, and fences only shrink |
| FaunusSteps.CachedLinks | src/kv_index/faunus_index.cpp:104-144 | the children of an inner node cached at any earlier moment still exist, one level below, with the lower fences it knows |
| FaunusSteps.StuckInsert | src/kv_index/faunus_index.cpp:517-522 | a leaf can be full only with a watermark of the whole leaf |
| FaunusTree.PickChild | src/kv_index/faunus_index.cpp:172-183 | the child loop, which looks at the leftover key too, picks the child of the key |
| FaunusTree.EnteredNode | src/kv_index/faunus_index.cpp:764-781 | index search and shift build the node with one more separator |
| FaunusTree.Halves | src/kv_index/faunus_index.cpp:826-852 | the copy loops build the two halves of an overfull node |
| FaunusTree.PutEntry | src/kv_index/faunus_index.cpp:616-622 | the ordered map of entries stays strictly sorted and takes a key once |
| FaunusTree.LeafHalves | src/kv_index/faunus_index.cpp:637-668 | the distribution loops give the lower half of the sorted entries to the left leaf and the upper to the right one, all unlocked, the rest free and, on the left, with other addresses than before |
| FaunusTree.FaunusIndex.WriteLeaves | src/kv_index/faunus_index.cpp:633-673 | the two leaves written are the halves that the step system writes, right one first; half of the entries, rounded down, stay in the old leaf |
| FaunusTree.FullWatermarkGetsStuck | src/kv_index/faunus_index.cpp:517-555 | with a full watermark, any distinct keys, one for each block of a leaf, give from the empty tree an index with exactly these keys in a full leaf, and every further key then fails |
| FaunusTree.Redraw | src/kv_index/faunus_index.hpp:101-112 | a redrawn block is free and unlocked and has another address |
| FaunusTree.ProbeFree | src/kv_index/faunus_index.cpp:462-475 | one pass over an unlocked leaf finds its first free block in the probe order of the seed, or -1 exactly if there is none |
| FaunusTree.CountUsed | src/kv_index/faunus_index.cpp:517-521 | the loop counts the used blocks |
| FaunusTree.FaunusIndex.WriteNode | src/rdma/rdma_manager.cpp:178-207 | a node WRITE is allowed only into a state that is safe for readers, and is recorded in the trace |
| FaunusTree.FaunusIndex.CasRoot | src/kv_index/faunus_index.cpp:81-95 | CAS on the root pointer, safe for readers |
| FaunusTree.FaunusIndex.CasLock | src/kv_index/faunus_index.cpp:561-563 | CAS on a node's lock word, the tree unchanged otherwise |
| FaunusTree.FaunusIndex.ReleaseLock | src/kv_index/faunus_index.cpp:565-571 | FAA of -1 on the lock word, wrap-around included; the tree unchanged otherwise |
| FaunusTree.FaunusIndex.FindNode | src/kv_index/faunus_index.cpp:97-193 | the descent from the root ends at the node of the level that covers the key, or says there is none; it reports a lock exactly if a node it reads on the way is locked, of which the node of the level is one only at the root |
| FaunusTree.FaunusIndex.CacheSearch | src/kv_index/faunus_index.cpp:104-112 | a hit is an inner node read unlocked at an earlier moment whose fence covered the key; a miss means that no cached fence covers it |
| FaunusTree.FaunusIndex.FindCached | src/kv_index/faunus_index.cpp:113-144 | from a node cached at any earlier moment, on the wanted level or above it, reaches the node of that level that the children for the key lead to, which does not start above the key; reports a lock exactly if a node read on the way is locked |
| FaunusTree.FaunusIndex.DescendTo | src/kv_index/faunus_index.cpp:133-191 | the descent below a cached node, to any level, by the children for the key; a lock is reported exactly if a node read on the way is locked |
| FaunusTree.FaunusIndex.Remember | src/kv_index/faunus_index.cpp:140-143 | any unlocked inner node may enter the cache |
| FaunusTree.FaunusIndex.Forget | src/kv_index/faunus_index.cpp:120-122 | any entry may leave it, by invalidation or eviction |
| FaunusTree.FaunusIndex.TryLock | src/kv_index/faunus_index.cpp:720-747 | lock CAS and read; a held lock, or a node that does not cover the key and is released again, leaves memory as before |
| FaunusTree.FaunusIndex.LockParent | src/kv_index/faunus_index.cpp:689-756 | a stale cached node costs one attempt; from the root a node that covers the separator and does not have it is locked, or there is no such level |
| FaunusTree.FaunusIndex.InsertInternalEntry | src/kv_index/faunus_index.cpp:685-796 | settles a pending separator through node writes, inner splits and root growth; leaves and items unchanged, every step safe for readers |
| FaunusTree.FaunusIndex.EnterNode | src/kv_index/faunus_index.cpp:764-791 | writes back a node with room and settles the tree |
| FaunusTree.FaunusIndex.SplitInternalNode | src/kv_index/faunus_index.cpp:798-866 | splits a full node, recursively up to a new root, and settles the tree |
| FaunusTree.FaunusIndex.SetupNewRoot | src/kv_index/faunus_index.cpp:868-891 | grows the root and settles the tree |
| FaunusTree.FaunusIndex.LockBlocks | src/kv_index/faunus_index.cpp:573-580 | on unlocked, or on locked blocks, the FAA batch with carry changes exactly the lock bits of the leaf |
| FaunusTree.FaunusIndex.Gather | src/kv_index/faunus_index.cpp:601-622 | reading the items gives the used blocks sorted by key, each key once; of several blocks with one key the last |
| FaunusTree.FaunusIndex.SplitLeaf | src/kv_index/faunus_index.cpp:582-683 | splits exactly if more than half the blocks are used, and then the old leaf keeps the lower half of the entries, the new one gets the upper half, and no other leaf or item changes; otherwise the memory is as before; every step safe for readers |
| FaunusTree.FaunusIndex.Candidates | src/kv_index/faunus_index.cpp:209-253 | the used blocks with the fingerprint and their items, in order, dropped after an insert exactly if there is one; fails exactly on a locked block, except for readers |
| FaunusTree.FaunusIndex.Lookup | src/kv_index/faunus_index.cpp:296-332 | in a leaf that covers the key, found exactly if the map has it, with its value; otherwise a retry |
| FaunusTree.FaunusIndex.RemoveDupes | src/kv_index/faunus_index.cpp:539-551 | after an insert of one client there is no duplicate to remove |
| FaunusTree.FaunusIndex.Initialize | src/kv_index/faunus_index.cpp:29-41 | the first root is an empty leaf over all keys and refines the empty map |
| FaunusTree.FaunusIndex.Read | src/kv_index/faunus_index.cpp:334-369 | returns the map's entry in one attempt; in two exactly if the leaf that the cached node leads to, cached at any earlier moment, has lost the key |
| FaunusTree.FaunusIndex.Insert | src/kv_index/faunus_index.cpp:381-555 | the map gets the entry exactly if the key is present or its leaf is not full, always below a full watermark; one block of the covering leaf changes, the first free one in probe order for a new key; nodes are added exactly if a new key takes that leaf above the watermark and above half a leaf; one item per key, so an update frees the old one; one attempt, two after a stale cached node, a million if it fails; at every step in between readers see the old or the new map |
| FaunusTree.FaunusIndex.TryInsert | src/kv_index/faunus_index.cpp:433-513 | one attempt succeeds exactly if the key is present, which is an update of its block, or a block is free, which is an insertion; otherwise nothing changes |
| FaunusTree.FaunusIndex.UpdateBlock | src/kv_index/faunus_index.cpp:255-271 | swaps the block of a present key and frees the item it pointed to, and that item only; no other block changes |
| FaunusTree.FaunusIndex.InsertBlock | src/kv_index/faunus_index.cpp:473-552 | an absent key goes into the first free block in probe order; the leaf is cut in the middle exactly if it is then above the watermark and above half a leaf, and otherwise only this block has changed |
| FaunusTree.FaunusIndex.InsertAll | src/kv_index/faunus_index.cpp:381-555 | from any state, every sequence of inserts succeeds and gives the map after those upserts, and from the empty tree there are as many items as keys |
| FaunusOutcomes.InsertedCounts | src/kv_index/faunus_index.cpp:266-269 | what inserts leave behind has one item more for a new key and none for a present one, and new nodes exactly if the leaf of a new key is to be cut |
| FaunusOutcomes.CutByLeaf | src/kv_index/faunus_index.cpp:517-527 | whether an insert cuts is decided by the used blocks of the one leaf that covers the key |
| Histories.UpsertsKeepLast | src/kv_index/faunus_index.cpp:445-513 | after a sequence of upserts a key has the value written last, or what it had before |
| FaunusReaders.SearchIsSafe | src/kv_index/faunus_index.cpp:97-193 | a search from the root or any node cached earlier, whose node reads fall at any later and later moments, always stands at an existing node not above the key, one level lower each time |
| FaunusReaders.CachedBegins | src/kv_index/faunus_index.cpp:104-144 | any node cached at an earlier moment whose fence covered the key is such a start |
| FaunusReaders.ReaderAnswersCorrectly | src/kv_index/faunus_index.cpp:296-299 | such a search that reaches a leaf finds exactly the map's entry of that moment or sees a fence without the key; a present key is never reported absent |
| FaunusReaders.LateItemsAnswerCorrectly | src/kv_index/faunus_index.cpp:209-253 | the same when the items are read at any later moments and none of them is freed in between: the key is seen exactly if the map had it when the leaf was read, with its value then |
| FaunusReaders.ReaderGoesOn | src/kv_index/faunus_index.cpp:334-365 | it can always go on, and stands at a leaf after one visit per level |
| LeafFreeze.RunInv | src/kv_index/faunus_index.cpp:582-597 | in every interleaving, from any leaf and with inserts that come with a written item, one splitter at a time, blocks locked as far as it has come, items private until acknowledged, nothing lost |
| LeafFreeze.FrozenLeafIsImage | src/kv_index/faunus_index.cpp:588-597 | from the splitter's READ to its write-back no insert or update changes any block |
| LeafFreeze.CasLandsBeforeLockOrFails | src/kv_index/faunus_index.cpp:255-274 | a CAS that meets a splitter lands on a block not locked yet, or fails |
| LeafFreeze.AcknowledgedIsNeverLost | src/kv_index/faunus_index.cpp:468-498 | an acknowledged key is for ever in the leaf, and in the image of a splitter, or in the blocks of a leaf that a split has written to the right |
| LeafFreeze.LastAcknowledgedIsFound | src/kv_index/faunus_index.cpp:255-274 | of a key never in two blocks at once the leaf shows the item acknowledged last |
| LeafFence.LateInsertFails | src/kv_index/faunus_index.cpp:640-668 | in every run, an insert armed with what a slot held when a split locked it fails at every moment from that split's write-back to the next one |
| LeafFence.SiblingStartsARun | src/kv_index/faunus_index.cpp:633-673 | the leaf a split writes to the right is in its turn the start of a run, also for inserts that raced the split and come over with their item written, so all of this holds for it |
| LeafFence.OneSplitSuffices | src/kv_index/faunus_index.hpp:101-112 | a run from the empty leaf with one split after which a key sits outside the fence |
| LeafFence.ReuseBreaksFence | src/kv_index/faunus_index.hpp:101-112 | if a write-back repeats a free block its slot has shown, with one more client beside it the same run puts a key outside the fence |
| LeafFence.RunStaysInFence | src/kv_index/faunus_index.cpp:640-668 | in every run whose write-backs repeat no such block the leaf holds keys of its fence only |
| LeafFence.SplitWritesHalves | src/kv_index/faunus_index.cpp:637-668 | what the distribution loops build are the halves of the step system |
| FreezeGoesOn.SplitterMoves | src/kv_index/faunus_index.cpp:582-683 | in every run whose leaf holds keys of its fence a splitter always has a next step, up to the release of the leaf |
| FreezeGoesOn.SplitterDecides | src/kv_index/faunus_index.cpp:617-631 | in every run the frozen leaf is cut exactly if the distinct keys in it are more than half its blocks |
| FreezeGoesOn.WriterMoves | src/kv_index/faunus_index.cpp:433-498 | in every run a writer can arm its CAS whenever the leaf is not split, covers the key and has the key or a free block; an armed CAS that meets the block it expects is acknowledged |
| SplitLocks.RunInv | src/kv_index/faunus_index.cpp:561-587 | in every run a lock word is 1 exactly while one thread is inside the node, else 0, and a splitter holds one node of each level from the leaf up |
| SplitLocks.WritesKeepLockWord | src/kv_index/faunus_index.cpp:735-791 | writing back whole nodes never changes a lock word |
| SplitLocks.WaitsAbove | src/kv_index/faunus_index.cpp:148-153 | a splitter tries only locks on levels strictly above all it holds |
| SplitLocks.SomeSplitterIsFree | src/kv_index/faunus_index.cpp:689-747 | in every reachable state with an unfinished splitter, some unfinished splitter meets no held lock on any level it may go to |
| ManySplits.SettledForest | src/kv_index/faunus_index.cpp:741-787 | with no separator pending the structure with many splits is that of the settled tree |
| ManySplits.TakerRoutes | src/kv_index/faunus_index.cpp:741-760 | however many splits are under way, the node that covers a splitter's separator routes it to the child that this splitter cut, and the duplicate test does not fire |
| ManySplits.EnterForest | src/kv_index/faunus_index.cpp:764-787 | a separator enters a node with room and the others stay pending, all links exact but for those |
| ManySplits.LeafForest | src/kv_index/faunus_index.cpp:633-673 | a leaf is cut while any other separators are pending: one more is |
| ManySplits.SplitForest | src/kv_index/faunus_index.cpp:798-863 | a full inner node takes a separator and is cut while any others are pending: its own separator is pending next |
| ManySplits.OneOnTop | src/kv_index/faunus_index.cpp:154-163 | a node as high as the root that a search can reach is the root, so a missing level means that the root itself was cut |
| ManySplits.RootForest | src/kv_index/faunus_index.cpp:868-891 | the new root over the old one and its right neighbour, while any other separators are pending |
| ConcurrentSplits.StepsAreLockSteps | src/kv_index/faunus_index.cpp:582-891 | every step of the splitters on the tree is a step of the lock protocol or changes no lock |
| ConcurrentSplits.RunInv | src/kv_index/faunus_index.cpp:582-891 | in every run of any number of splitters, inserts and updates on one tree, lock words are right, links are exact but for the separators that a splitter is about to enter, and readers are safe |
| ConcurrentSplits.RunIsTrace | src/kv_index/faunus_index.cpp:666-682 | so every run is a trace of states safe for readers in which nodes stay and fences only shrink |
| ConcurrentSplits.ReadersBesideSplitters | src/kv_index/faunus_index.cpp:296-332 | a reader beside them finds the map's entry of the moment it reads the leaf, or a fence without the key |
| ConcurrentSplits.SearchStaysShared | src/kv_index/faunus_index.cpp:126-193 | a search never meets a new node that its parent does not know yet, whatever happens between its reads |
| ConcurrentSplits.SeparatorIsNew | src/kv_index/faunus_index.cpp:749-760 | no splitter ever finds its separator already there |
| ConcurrentSplits.RootCasSucceeds | src/kv_index/faunus_index.cpp:81-95 | the CAS on the root pointer always succeeds |
| ConcurrentSplits.SettledAgain | src/kv_index/faunus_index.cpp:675-682 | whenever all splitters have finished, the tree is settled, exact and unlocked |
| ConcurrentSplits.RunIsLockRun | src/kv_index/faunus_index.cpp:561-587 | without the steps that change no lock a run is a run of the lock protocol |
| ConcurrentSplits.SomeSplitterGoesOn | src/kv_index/faunus_index.cpp:689-747 | while a splitter is unfinished, some unfinished splitter meets no held lock on any level it may go to |
| SplitsGoOn.SplitterMoves | src/kv_index/faunus_index.cpp:582-891 | in every run each unfinished splitter has a step that brings it to another point, whatever the others do |
| SplitsGoOn.LeafDecision | src/kv_index/faunus_index.cpp:617-673 | in every run a leaf is cut exactly if more than half a node of keys of the map lie in its fence; the lower half of them, rounded down, stays left |
| SplitsGoOn.InnerDecision | src/kv_index/faunus_index.cpp:762-866 | in every run a node that takes a separator is cut exactly if it is full, with half a node of separators on the left and one fewer on the right |
| SplitsGoOn.ClientMoves | src/kv_index/faunus_index.cpp:433-498 | in every run a client can insert or update at any linked leaf that covers the key and is not frozen, if the key is there or a block is free |
| ShermanPages.EnterSettles | src/kv_index/sherman_index.cpp:599-629 | entering the pending separator makes all links exact again |
| ShermanPages.PendingParent | src/kv_index/sherman_index.cpp:602-613 | the separator lies strictly between its neighbours in the page that takes it, so it is never an update |
| ShermanPages.Cut | src/kv_index/sherman_index.cpp:646-666 | cutting a page keeps links, disjoint fences and sibling chains, with the separator pending above |
| ShermanPages.SiblingsNeverCycle | src/kv_index/sherman_index.cpp:488-491 | the three assertions on sibling pointers hold at every cut |
| ShermanPages.HalvesCut | src/kv_index/sherman_index.cpp:633-649 | the middle record moves up and its child becomes the leftmost of the right half, all links exact |
| ShermanPages.RootGrows | src/kv_index/sherman_index.cpp:758-771 | the new root over the two halves of the old one settles the tree |
| ShermanPages.StepDown | src/kv_index/sherman_index.cpp:244-272 | the child of a search covers the key, one level below |
| ShermanPages.Nested | src/kv_index/sherman_index.cpp:507-514 | the page above on the path covers the fence of the page below, so also its separator |
| ShermanContents.UpdateExact | src/kv_index/sherman_index.cpp:392-401 | overwriting the item of a present key makes the leaf hold exactly the map with the new value |
| ShermanContents.InsertExact | src/kv_index/sherman_index.cpp:414-423 | a new entry in an empty slot makes the leaf hold exactly the map with the new key |
| ShermanContents.PartExact | src/kv_index/sherman_index.cpp:463-482 | a run of the sorted entries makes an exact leaf for its part of the fence |
| ShermanContents.HeightBound | src/kv_index/sherman_index.cpp:463-477 | a tree with root level h >= 1 holds at least 2 * ceil(C/2)^(h-1) * floor(L/2) keys |
| ShermanContents.FewKeysLowTree | src/kv_index/sherman_index.hpp:22 | with fewer keys than the bound of a level the root is below it |
| ShermanSteps.LeafSplitInv | src/kv_index/sherman_index.cpp:434-499 | sorting and cutting a leaf at its middle keeps the whole invariant, both halves at least half full |
| ShermanSteps.InnerSplitInv | src/kv_index/sherman_index.cpp:625-666 | cutting a full inner page keeps the whole invariant, both halves with at least ceil(C/2) children |
| ShermanSteps.EnterInv | src/kv_index/sherman_index.cpp:616-631 | entering a record into a page with room keeps the whole invariant |
| ShermanSteps.RootInv | src/kv_index/sherman_index.cpp:758-771 | root replacement keeps the whole invariant |
| ShermanTree.PickChild | src/kv_index/sherman_index.cpp:257-271 | the loop picks the child of the key |
| ShermanTree.FindPlace | src/kv_index/sherman_index.cpp:599-613 | the backward search finds the key, or its place among the ascending records |
| ShermanTree.ShiftIn | src/kv_index/sherman_index.cpp:617-621 | the shift inserts the record at its index |
| ShermanTree.EnterRecord | src/kv_index/sherman_index.cpp:599-623 | an absent key gets a record at its place, a present one a new child |
| ShermanTree.SplitRecords | src/kv_index/sherman_index.cpp:633-653 | the copy loop builds the two halves of a full inner page |
| ShermanTree.ScanLeaf | src/kv_index/sherman_index.cpp:383-412 | the scan finds the entry of the key, or counts the entries and finds the first empty slot |
| ShermanTree.SearchLeaf | src/kv_index/sherman_index.cpp:223-242 | the scan returns the map's value of the key, or leaves the result as it was |
| ShermanTree.Gather | src/kv_index/sherman_index.cpp:434-443 | reads the keys of all entries in use |
| ShermanTree.SortByKey | src/kv_index/sherman_index.cpp:444-445 | a permutation in ascending order of keys |
| ShermanTree.SplitEntries | src/kv_index/sherman_index.cpp:450-486 | the loops write the sorted entries back and move the upper half to the sibling |
| ShermanTree.ShermanIndex.constructor | src/kv_index/sherman_index.cpp:51-71 | an empty leaf over all keys refines the empty map, and the path has seven places |
| ShermanTree.ShermanIndex.SearchNode | src/kv_index/sherman_index.cpp:190-275 | right of the fence exactly the sibling, which starts where the page ends; in an inner page the child that covers the key; in a leaf the map's value; the page is noted in the path |
| ShermanTree.ShermanIndex.Read | src/kv_index/sherman_index.cpp:518-577 | found exactly if the map has the key with a value other than the smallest; one page per level, so no sibling is visited |
| ShermanTree.SmallestValueReadsAsAbsent | src/kv_index/sherman_index.cpp:562-571 | from the empty tree, a key inserted with the smallest value is in the map and read as absent |
| ShermanTree.ShermanIndex.Descend | src/kv_index/sherman_index.cpp:328-357 | ends at the leaf that covers the key, with the covering page of every level in the path and no sibling visited |
| ShermanTree.ShermanIndex.Insert | src/kv_index/sherman_index.cpp:300-360 | the map gets the entry, for every tree whose root is below level 7; the path then holds the way from the root and null above it; the item of a present key is overwritten, a new key gets an item and the first empty slot, and its leaf is cut in the middle exactly if this fills it; one item per key |
| ShermanTree.ShermanIndex.InsertToLeaf | src/kv_index/sherman_index.cpp:362-516 | overwrites the item of a present key, or inserts into the first empty slot and cuts a leaf exactly if this fills it; no other leaf changes |
| ShermanTree.ShermanIndex.CutLeaf | src/kv_index/sherman_index.cpp:414-499 | writes the item, the upper half to a new page and the lower half back |
| ShermanTree.ShermanIndex.InsertToInternal | src/kv_index/sherman_index.cpp:583-681 | settles a pending separator, with inner splits up to a new root; the sibling branch and the null path are never reached |
| ShermanTree.ShermanIndex.UpdateRootOffset | src/kv_index/sherman_index.cpp:758-771 | the root CAS succeeds and settles the tree |
| ShermanTree.ShermanIndex.InsertAll | src/kv_index/sherman_index.cpp:300-360 | every sequence of inserts gives the map after those upserts, with one item per key, up to the first with a root on level 7; within the key bound of level 7 there is none |
| EpochReclaim.RunInv | src/cache/range_cache.hpp:149-190 | in every interleaving published epochs are not in the future, each retired slot has one retirer, and whoever may free a reached slot respects its reader's epoch |
| EpochReclaim.FreedSlotIsUnreferenced | src/cache/range_cache.hpp:165-190 | a slot is freed only when no thread is still inside a guard in which it reached the entry |
| EpochReclaim.ReachedStaysAllocated | src/cache/range_cache.hpp:109-115 | a reached entry stays allocated until its reader leaves the guard |
| EpochReclaim.SlotMeetsItsFate | src/cache/range_cache.hpp:174-178 | in every interleaving each slot that a reclaim has dequeued is freed if its stamp is below the limit, and otherwise goes back into the queue with its stamp, before the reclaim ends |
| EpochReclaim.ScanFindsLeast | src/cache/range_cache.hpp:183-190 | in every interleaving the scan asks every registered thread, and the limit is the least non-zero epoch it read, or the global epoch if there was none |
| EpochReclaim.PublishesWhatItLoaded | src/cache/range_cache.hpp:152-156 | in every interleaving a thread enters its guard with the epoch it loaded |
| EpochReclaim.StampIsKept | src/cache/range_cache.hpp:161-163 | in every interleaving a retired slot keeps the epoch of the moment it was stamped, until it is freed |
| EpochReclaim.EpochAdvances | src/cache/range_cache.hpp:178-180 | the global epoch advances, by one, exactly if the reclaim has put a slot back |
| EpochReclaim.AtMost64 | src/cache/range_cache.hpp:165-170 | in every interleaving no thread has dequeued more than 64 slots that it has not decided on |
| EpochReclaim.SlotMoves | src/cache/range_cache.hpp:95-115 | inside its guard a thread can hand out any free slot, link any fresh one, reach and erase any linked one, and dequeue any retired one up to the 64th |
| EpochReclaim.NobodyWaits | src/cache/range_cache.hpp:149-190 | at every moment of every run each thread can leave its guard by its own steps alone, at most one for each registered thread and 68 more |
| EpochReclaim.SlotIsUsedAgain | src/cache/range_cache.hpp:161-181 | a run from the start in which a slot is handed out, retired, put back once, freed by the second reclaim and handed out again |
| TicketLock.RunInv | src/util/local_lock_manager.hpp:72-122 | the invariant of tickets, flags, hand-over count and returned values, in every interleaving |
| TicketLock.MutualExclusion | src/util/local_lock_manager.hpp:72-91 | at most one thread is past the wait |
| TicketLock.TicketsAreConsecutive | src/util/local_lock_manager.hpp:76-83 | outstanding tickets are exactly those from serving up to next |
| TicketLock.FirstComeFirstServed | src/util/local_lock_manager.hpp:85-90 | acquires complete in ticket order, and each returns what the release before it returned |
| TicketLock.AtMostOneFlag | src/util/local_lock_manager.hpp:104-107 | of the 1024 hand-over flags at most one is ever set |
| TicketLock.NineReleases | src/util/local_lock_manager.hpp:104-121 | any nine consecutive releases include one without hand-over |
| TicketLock.EightHandOvers | src/util/local_lock_manager.hpp:94-122 | a run from the start with eight hand-overs in a row and then a release without one although a thread waits |
| TicketLock.ReleaseDecides | src/util/local_lock_manager.hpp:94-122 | in every run a release hands over, and the next acquire says so, exactly if somebody waited when it loaded the word and the eight releases before have not all handed over |
| TicketLock.EveryTicketIsServed | src/util/local_lock_manager.hpp:72-122 | at every moment of every run each outstanding ticket can be reached within eight steps for each ticket before it |
| TicketLock.AnyoneMayDraw | src/util/local_lock_manager.hpp:76-77 | below 2^32 tickets a thread without one can always draw the next one |
| TicketLock.PromiseIsKept | src/util/local_lock_manager.hpp:125-135 | a holder that saw can_hand_over true hands over when it releases, whatever others do |
| TicketLock.HandOverDespiteRefusal | src/kv_index/sherman_index.cpp:168-187 | in every run, after can_hand_over was false, the release hands over and the next acquire returns true exactly if the limit was not reached, nobody waited then, and a ticket was drawn before the release looked |
| TicketLock.RemoteAfterHandOver | src/kv_index/sherman_index.cpp:168-187 | in every run, a holder that was handed over works under the remote lock exactly if its predecessor did and was not refused |
| TicketLock.RefusalThenHandOver | src/kv_index/sherman_index.cpp:168-187 | a run from the start in which this happens: the remote lock, set when the first holder enters, is not set when the second one does |
| ServerQueue.RunInv | src/rdma/rdma_manager.cpp:301-345 | in every interleaving of the CAS loops each request has the earliest place after its predecessor and its own arrival |
| ServerQueue.SlotsAreDisjoint | src/rdma/rdma_manager.cpp:323-336 | no two requests are in service at the same instant |
| ServerQueue.ServedAfterArrival | src/rdma/rdma_manager.cpp:338-345 | service starts neither before the arrival nor later than arrival and predecessor demand, and arrival plus returned delay is the finish |
| ServerQueue.FinishClosedForm | src/rdma/rdma_manager.cpp:323-336 | the finish time is the maximum over the requests of arrival plus all service from there on |
| ServerQueue.SoonServed | src/rdma/rdma_manager.cpp:319-345 | at every moment a caller that has read the clock gets its place by two steps of its own at most, after the requests served by then, with the delay of that place |
| ServerQueue.Server.GetServerTimeDelay | src/rdma/rdma_manager.cpp:301-345 | the request is placed after all served by then, whatever others do between the tries; a try fails only if requests of others came in between or for no reason |
| Allocators.UsableIffFits | src/rdma/global_address.hpp:8-15 | once every server has given out memory, every byte given out has an address of its own on a server that exists exactly if there are at most 256 servers and none gave out more than 2^42 bytes |
| Allocators.LastServerSpills | src/rdma/rpc_allocator.hpp:22-42 | 256 servers asked in turn from the start, the last one for a byte more than its span: that byte has the address of the first server's first byte |
| Allocators.BumpKeepsTiled | src/rdma/memory_server.cpp:58-64 | chunks tile each server's memory from 0 to its next offset |
| Allocators.GrowthKeepsSound | src/rdma/local_allocator.hpp:78-92 | carving a new chunk keeps all blocks pairwise disjoint and each in one place |
| Allocators.TakeKeepsSound | src/rdma/local_allocator.hpp:46-49 | so does handing out a block of a free list |
| Allocators.GiveKeepsSound | src/rdma/local_allocator.hpp:68-70 | so does freeing it to any allocator of its size class |
| Allocators.GiveIffHeld | src/rdma/local_allocator.hpp:68-70 | enqueueing any address keeps the blocks disjoint and each in one place if and only if it is that of a block of this size that a user holds |
| Allocators.NoByteTwice | src/rdma/local_allocator.hpp:109-127 | within the limits of the addresses, handed-out and free-listed blocks have no byte in common, and no free list has a block twice |
| Allocators.Carve | src/rdma/local_allocator.hpp:87-93 | the loop cuts a chunk into consecutive offsets that just cover it |
| Allocators.MemoryServer.Allocate | src/rdma/memory_server.cpp:58-64 | each chunk starts where the one before ended, and is noted as allocated |
| Allocators.RpcAllocator.Allocate | src/rdma/rpc_allocator.hpp:22-42 | request number n goes to server n modulo the number of servers and gets the address of its next offset; chunks stay tiled and in turn |
| Allocators.ServersAreBalanced | src/rdma/rpc_allocator.hpp:38-42 | after any number of requests the numbers of chunks of two servers differ by at most one |
| Allocators.SlabAllocator.constructor | src/rdma/local_allocator.hpp:32-35 | the first slabs, with the count law for no growth |
| Allocators.SlabAllocator.GetSlabs | src/rdma/local_allocator.hpp:78-86 | as many new slabs as there are, cut from one chunk |
| Allocators.SlabAllocator.Allocate | src/rdma/local_allocator.hpp:46-66 | after g growths exactly n * (2^(g+1) - 1) slabs were carved; fails exactly with nothing to carve |
| Allocators.Cluster.Add | src/rdma/local_allocator.hpp:106-111 | a client's slab allocator joins; nobody's blocks change; the first one gets address 0 |
| Allocators.OneBlockAtNull | src/rdma/local_allocator.hpp:106-111 | address 0 belongs to one block, so to one size class |
| Allocators.Cluster.Allocate | src/rdma/local_allocator.hpp:113-119 | the block handed out was in this free list or is new, no other block changes its place, and address 0 goes to its own size class only |
| Allocators.Cluster.Free | src/rdma/local_allocator.hpp:121-124 | any address goes to the free list named, or nowhere if there is none; from a state with all guarantees they still hold exactly if the caller held the block |
| Allocators.DoubleFreeSharesABlock | src/rdma/local_allocator.hpp:68-70 | freeing a listed block again puts it into two places |
| Allocators.Cluster.Serve | src/rdma/local_allocator.hpp:106-127 | after every sequence of requests the blocks held, which are those handed out and not given back, and those listed have no byte in common, if no server gave out more than its span; a request to a client with slabs is never refused |

## Left out

- `del` and merging: not implemented in the source.
- FaunusReaders.LateItemsAnswerCorrectly: an item that is freed before the reader gets to it, because freed items are reused while readers may hold their address (src/kv_index/faunus_index.cpp:267-268); full linearizability of concurrent reads and updates is not claimed.
- LeafFreeze.RunInv: the update CAS is single-shot, items are not recycled and duplicates are not removed, because the retry loop trusts the fingerprint alone (src/kv_index/faunus_index.cpp:259-271).
- The count of freed items in `try_delete_kvblock`, whose success test compares with a pointer (src/kv_index/faunus_index.cpp:288).
- SplitLocks.SomeSplitterIsFree: the search for a node returns any node of the wanted level, and the search's own wait for locked inner nodes is counted among the locks a splitter may meet.
- ConcurrentSplits.RunInv: an insert or update is one step on a leaf that covers the key and is not frozen, each key by one client at a time, as the protocol of one leaf allows it (`LeafFreeze`, `LeafFence`); the lock bits of blocks, which readers ignore, and the freeing of items are not part of it.
- Retry loops of one Faunus client are shown never to be taken where the contract says so (`LockParent`, `SplitLeaf`); the back-off between attempts is not modelled.
- The copy of a key from two slots below in the shift loops (src/kv_index/faunus_index.cpp:775 at the last iteration), which the following store overwrites.
- Nodes enter and leave the cache of `FaunusIndex` between operations, not during one.
- Memory orderings weaker than sequential consistency: the acquire and release orderings of src/cache/range_cache.hpp and src/util/local_lock_manager.hpp are taken as one order of all steps.
- TicketLock.RemoteAfterHandOver: the remote lock is one bit of the compute server; other compute servers, which may take it in between, are not part of the state.
- Maintenance workers and their queues; splits run in the inserting client.
- EpochReclaim.RunInv: the skiplist is a set with insertion and erase-once, the retired queue a bag; an entry used after its guard has ended is not covered.
- Mutual exclusion of the Sherman lock across compute servers (src/kv_index/sherman_index.cpp:115-118, 137-146); Sherman page locks are not part of the one-client model.
- Sherman's cached reads and inserts, and sibling walks during a search, whose result field is never reset (src/kv_index/sherman_index.cpp:210-215, 567-575).
- The entry count in the header of a Sherman leaf, which only the tree printer reads.
- ShermanTree.ShermanIndex.Insert: trees with a root on level 7 or above, for which the source leaves its path array.
- ShermanTree.ShermanIndex.Read: the same trees, because a read notes its pages in the path too.
- Torn reads, page version bytes and checksums: node and page operations are atomic.
- TicketLock.RunInv: fewer than 2^32 acquisitions of a lock node; wrap-around of the ticket word is not modelled.
- Attempts of `try_dequeue` that miss queued slots: a reclaim of `EpochReclaim` may stop dequeuing at any moment.
- The order in which the two halves of a Sherman page are written: nobody reads them in between.
- ServerQueue.RunInv: 64-bit overflow of times is not modelled.
- Allocators.RpcAllocator.Allocate: the request counter does not wrap around at 2^64, and the request and reply queues are one step; memory given back to a server is never given out again, as in the source.
- Allocators.Cluster.Serve: operations of different threads do not interleave inside one slab allocator.
- Sleeping, clocks, bandwidth delays, affinity, logging, statistics, histograms, key sampling, YAML configuration, printing, scripts and benchmark programs.
