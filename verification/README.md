# Verified models of the beaver allocators

Beaver is a suite of memory allocators. Its core, `balloc`, hands out blocks of one fixed super-block without
locks: a bump pointer over the payload, a metadata region shared by 40-byte tree records and 24-byte free slots,
an insert-only search tree from address to owner mask, and a Treiber-style stack of free extents. This project
models that core twice, and the smaller allocators around it once each.

| part | files | what is proved |
|---|---|---|
| concurrent `balloc` | `Machine*.dfy` | a small-step machine, one atomic operation per step, for any number of threads; an invariant over tree, stack, extents, owners and calls in progress; the tree and the metadata region in all runs; exactly which request sizes are safe in all runs; masks, accounts and blocks as the calls say |
| releasing owners | `Releasers.dfy` | exactly one of any number of concurrent releasers sees the mask become empty |
| sequential `balloc` | `BlockAllocator.dfy`, `BlockTree.dfy`, `Registry.dfy`, `RegistryTheorems.dfy`, `RegistryAnswers.dfy` | a class with the pointer structures, which refines a registry without pointers; what every sequence of calls keeps in the registry; every answer from the calls before it |
| bucket hash | `Polynomials.dfy`, `Topology.dfy`, `Buckets.dfy` | the shift-and-add loop is multiplication modulo a GF(2) polynomial; how thread and chunk ids spread over buckets |
| hybrid allocator | `HybridMachine.dfy`, `SlabPacking.dfy`, `Hybrid.dfy` | disjoint ranges in every interleaving; how slabs fill up when calls come one at a time |
| shared-arena buffers | `BufferHistory.dfy`, `PureBuffer.dfy` | interleaved buffers over one arena never disturb each other; how capacity grows |
| owner registry | `Arena.dfy` | blocks held are the addresses somebody owns, by the calls alone; every pin is undone exactly once |
| zeroizing arena | `Secure.dfy` | where every slice is, how long and what is in it, by the calls alone; all zero when handed out, exactly when zeroizing is on |
| shared | `Words.dfy`, `Layout.dfy`, `SearchTree.dfy`, `FreeStack.dfy` | words and masks, the layout of the super-block, the theory of linked search trees and stacks |

`dafny verify dfyconfig.toml` checks everything.

## How to read the results

*Owner masks* are sets of bit positions; `|` is union, `&^` is difference, zero is the empty set. *Pointers* into
the metadata region are raw addresses, and memory is a map from address to record, so stale records and reuse of
addresses are visible.

*Preconditions the code relies on* are written out. Counters are never checked for overflow, so every statement
says where they must not wrap (`NoWrap` in both machines, `Roomy`, `Fits`, `Demands`, `Legal`). Callers of `balloc` share and free
only blocks that somebody owns (`Allowed`, `Disciplined`). In the concurrent machine a release gives up a
non-empty set of bits its caller holds and a share adds bits that nobody holds.

*A promise that the code does not keep.* When `popFree` finds the top slot too small it pushes the same record
back. A third thread that read the record's `next` before can then succeed with its compare-and-swap although
`next` has changed since, and set the head to a slot that is not free any more. Any two request sizes that differ
once aligned are enough: wherever two blocks of the smaller one fit, some legal run of four threads ends with two
callers owning the same bytes (`TwoSizesShareABlock`), or, in less metadata, with a free list that never ends
(`TwoSizesBreakTheList`). The exact condition is one callers can check before they call. `SafeExactlyUnlessMixed`
says of every super-block and every set of request sizes that all interleavings are safe if and only if no two of
the sizes differ once aligned, or there is no room for two blocks of the smaller of two that do and for their
records and slots. On a super-block as `New` lays it out, with sizes of which two blocks fit, that is one aligned
size exactly (`SafeExactlyWithOneSize`). The tree and the metadata region do not depend on the free list, and what
is proved of them holds in every legal run.

*Further findings.* Discipline is not only sufficient for the books of `balloc` to balance but necessary:
`BalancedExactlyWhenDisciplined`. The Latin square of `buildPandiagonal` is one as long as its entries fit 32 bits,
and is not one otherwise: `LatinExactlyWhenNarrow`. Without zeroizing, one byte written before a reset is read
back after it: `CleanExactlyWhenZeroizing`. Although eight consecutive multipliers hit each bucket once
(`WindowsHitEveryBucketOnce`), eight consecutive chunk ids in general do not, because each chunk id also selects
another factor: thread 0 sends chunks 0 and 7 to bucket 0 (`ChunksCollide`). At scale 8 an aligned window of eight
chunk ids spreads over all buckets exactly when the thread id ends in 3 or 7 modulo 8 and the XOR of the other bits of
the two ids leaves the remainder x^2 + x + 1 (`ConsecutiveSpreadExactly`). What does spread is chunk ids eight apart:
two of one aligned window of 64 share a bucket exactly when they select the matrix entry 8
(`StridesSpreadExactly`).

## Model

| member | source | states |
|---|---|---|
| MachineSafety.StepGood | balloc/tree.go:22-109 | every atomic step of every thread, except a stale pop, keeps the invariant that ties tree, free stack, extents, owners and calls in progress |
| MachineSafety.RunsGood | balloc/core.go:74-131 | so does every run of legal steps without stale pops, from any state in which the invariant holds |
| MachineSafety.SafeWithoutStalePops | balloc/core.go:74-131 | in every interleaving of disciplined threads without a stale pop, live blocks are 8-byte aligned, inside the payload, pairwise disjoint and disjoint from everything on the free list, which has each free block once |
| MachineSafety.FittingRunsAreFresh | balloc/tree.go:93-109 | if no request meets a smaller slot on top, no pop is ever stale: slot records are not recycled |
| MachineSafety.SafeWhenSlotsFit | balloc/core.go:74-131 | safety for every interleaving in which no request exceeds the freed slot it pops |
| MachineUniform.SafeWithOneSize | balloc/core.go:74-131 | safety for every interleaving in which all requests round up to one size |
| MachineStalePop.TwoSizesShareABlock | balloc/tree.go:93-109 | for every super-block and every two requests that differ once aligned, with room for two blocks of the smaller and 208 bytes of metadata, some legal run of four threads ends with two grants of the same bytes |
| MachineStalePop.TwoSizesBreakTheList | balloc/tree.go:93-109 | with 128 bytes of metadata, some legal run still ends with a free list that never ends |
| MachineSizes.SafeWhenCramped | balloc/tree.go:83-109 | where two free blocks do not fit, in payload or in metadata, all interleavings are safe whatever the sizes |
| MachineSizes.SafeExactlyUnlessMixed | balloc/tree.go:93-109 | for every super-block and every set of request sizes, all interleavings are safe if and only if no two sizes differ once aligned with room for two blocks of the smaller one, their records and their slots |
| MachineSizes.SafeExactlyWithOneSize | balloc/core.go:42-105 | on a super-block from New, with sizes of which two blocks fit, all interleavings are safe if and only if the sizes are one once aligned |
| MachineTheorems.PopTakesTheTopExactlyWhenFresh | balloc/tree.go:99-102 | what a stale pop does: a successful pop leaves the rest of the list exactly when the next pointer it read is still the top's |
| MachineTree.StepRooted | balloc/core.go:74-131 | every legal step, stale pops included, keeps the tree a search tree, every search and insertion on its path, and metadata records apart and in their region |
| MachineTree.RunsRooted | balloc/core.go:74-131 | so does every legal run |
| MachineTheorems.AlwaysASearchTree | balloc/tree.go:22-56 | after every step of every legal run the links spell out a search tree that holds exactly the inserted addresses |
| MachineTheorems.CursorsStayInInterval | balloc/tree.go:35-71 | in every legal run every insertion and search in progress stands on a record that heads a search tree over an interval containing its address |
| MachineTheorems.SearchesFindWhatWasThere | balloc/tree.go:58-71 | in every legal run a search finds every address present when it started and nothing that was never inserted; Share and FreeVarying never miss a held block |
| MachineTheorems.OneLossPerLink | balloc/tree.go:22-56 | in every legal run an insertion loses at most one compare-and-swap per link, and only on links that are set for good |
| MachineTheorems.ZeroMeansNobodyLeft | balloc/tree.go:73-81 | a release that is about to leave no owner is alone: no caller holds a bit and no other call is under way on the block |
| MachineTheorems.RecordsFitTheBudget | balloc/core.go:164-186 | in every legal run metadata records do not overlap each other or the payload, and 40 bytes per tree record plus 24 per slot fit the region |
| MachineCount.ActiveCounts | balloc/core.go:89-129 | without stale pops the counter of active blocks is the number of blocks callers have, plus the calls between clearing a last owner and counting it out, plus the releases that failed for want of metadata |
| MachineMasks.MaskIsExact | balloc/core.go:107-131 | in every interleaving without stale pops the mask of a live block is the bits that callers hold and those of the calls in progress on it, no more and no less |
| MachineAccounts.HoldersFollowTheCalls | balloc/core.go:74-131 | by the moves alone: a grant has the size asked for, rounded up, and the bits that callers and calls have on it are those of its Alloc and of every Share that has finished, less those handed to FreeVarying |
| MachineBlocks.NothingIsLost | balloc/core.go:84-131 | without stale pops and while metadata lasts, every block ever inserted is with a caller, on the free list or in the hands of a call in progress |
| Releasers.TakeOff | balloc/tree.go:73-81 | a swap that succeeds keeps the invariant: the mask is made up of the parts of those not done, and only the last one sees zero |
| Releasers.ExactlyOneSeesZero | arena/tree.go:76-88 | in every interleaving of the retry loops somebody has seen zero if and only if all are done, and then exactly one has |
| SearchTree.GrowRep | balloc/tree.go:43-51 | setting the nil link that the search for an address ends in keeps a search tree |
| SearchTree.GrowKeepsPaths | balloc/tree.go:43-51 | it takes no record off the path of any other search |
| SearchTree.UniqueKey | balloc/tree.go:35-42 | each address is in the tree at most once |
| SearchTree.PresentGoesOn | balloc/tree.go:58-71 | a search for a present address never meets a nil link before it meets the address |
| FreeStack.ChainUnique | balloc/tree.go:83-91 | the links determine the free stack |
| Layout.NewLayout | balloc/core.go:42-72 | the region for 4096 records comes first, the payload starts where it ends, and a length is refused exactly when less than 4096 payload bytes would be left |
| Words.AlignUp | balloc/core.go:195-197 | the result is a multiple of the alignment, at least the value and less than one alignment above it, or 0 when the addition wraps |
| Words.NormalizeMask | balloc/core.go:188-193 | a mask that names an owner is unchanged, and one that names none becomes owner 0 |
| BlockAllocator.BlockAllocator.constructor | balloc/core.go:57-71 | a new allocator refines the fresh registry |
| BlockAllocator.BlockAllocator.FindNode | balloc/tree.go:58-71 | returns the record of an address, and nil exactly when the registry has none |
| BlockAllocator.BlockAllocator.NewNode | balloc/core.go:164-176 | writes a record above every record that can be reached, or fails when the region is full |
| BlockAllocator.BlockAllocator.NewFreeSlot | balloc/core.go:178-186 | the same for a free slot |
| BlockAllocator.BlockAllocator.InsertNode | balloc/tree.go:22-33 | the block is in the registry with its owners joined to those already there |
| BlockAllocator.BlockAllocator.InsertBelow | balloc/tree.go:35-56 | the same below a root, with the size stored on a match |
| BlockAllocator.BlockAllocator.ClearOwner | balloc/tree.go:73-81 | takes off the layers, in the record and in the registry, and returns the rest |
| BlockAllocator.BlockAllocator.PushFree | balloc/tree.go:83-91 | the extent is on top of the stack and nothing else changes |
| BlockAllocator.BlockAllocator.PopFree | balloc/tree.go:93-109 | takes the top extent exactly when it is large enough; a head that is too small leaves list and records exactly as they were |
| BlockAllocator.BlockAllocator.Alloc | balloc/core.go:74-105 | new state, address and error are the registry's, and the bucket is the product's, or 0 with an error |
| BlockAllocator.BlockAllocator.Share | balloc/core.go:107-114 | new state and error are the registry's: a known block is shared, an unknown one not found |
| BlockAllocator.BlockAllocator.FreeVarying | balloc/core.go:116-131 | new state, answer and error are the registry's: not found exactly for an unknown block, and false exactly while owners are left |
| BlockAllocator.BlockAllocator.Reset | balloc/core.go:133-143 | the registry is fresh again, with all old records still in memory |
| BlockAllocator.BlockAllocator.Close | balloc/core.go:149-158 | the registry is closed and otherwise unchanged |
| BlockAllocator.BlockAllocator.Bucket | balloc/core.go:145-147 | below scale 2^32 the bucket is the remainder of the carry-less product of the entry for the two ids and their XOR, modulo the polynomial for the scale; it is below the scale |
| BlockAllocator.BlockAllocator.Perform | balloc/core.go:74-143 | every sequence of calls gives the outcomes of the registry, one by one |
| BlockAllocator.ReplayAfterReset | balloc/core.go:133-143 | after Reset every sequence of calls gives the addresses, buckets, answers and errors of a fresh allocator at the same base |
| BlockTree.DescribesUpdate | balloc/tree.go:38-42 | storing size and mask in a linked record changes one entry of the registry |
| BlockTree.DescribesGrow | balloc/tree.go:43-51 | linking a record adds one entry, for an address that had none |
| RegistryTheorems.SoundRun | balloc/core.go:74-131 | in every disciplined sequence, through all failures, blocks stay aligned, inside the payload and disjoint, and the free stack holds distinct unowned blocks |
| RegistryTheorems.SoundFromFresh | balloc/core.go:42-131 | in particular from a fresh allocator |
| RegistryTheorems.ModestRunsAreGood | balloc/core.go:81-94 | no counter wraps in a sequence whose requested bytes, and 40 bytes for each call, fit the word from where the counters stand |
| RegistryTheorems.ReusedBlocksKeepTheirExtent | balloc/core.go:84-92 | until the next reset a block keeps the extent it was first given, however often it is freed and reused |
| RegistryTheorems.OwnersFollowTheCalls | balloc/core.go:107-131 | who owns a block after any sequence of calls follows from the calls and their outcomes alone |
| RegistryTheorems.LastFreedFirstReused | balloc/core.go:84-92 | freeing a block and allocating again, if it is large enough, gives the same block with its extent, and leaves the rest of the stack and the bump pointer as they were |
| RegistryTheorems.TooSmallTopStays | balloc/tree.go:103-107 | a request that the top is too small for leaves the free stack unchanged and is served from the bump pointer |
| RegistryTheorems.BalancedRun | balloc/core.go:74-131 | in every disciplined sequence without an out-of-memory error the blocks lie end to end from the payload base to the bump pointer, unowned blocks are exactly the free stack, and the active count is the number of owned blocks |
| RegistryTheorems.BytesAreConserved | balloc/core.go:94-98 | used payload equals owned bytes plus free bytes |
| RegistryTheorems.BalancedExactlyWhenDisciplined | balloc/core.go:107-131 | a call that does not run out of memory keeps the books balanced if and only if it is not a share or free of an unowned block |
| RegistryTheorems.MetadataBudget | balloc/core.go:164-186 | between resets 40 bytes per allocation plus 24 per final free are at most what was left of the region, and nothing once it is exhausted |
| RegistryTheorems.FreshBudget | balloc/core.go:55-68 | for a new super-block the bound is 163840 bytes |
| RegistryTheorems.MetadataFailureIsFinal | balloc/core.go:164-186 | after a failure for want of metadata nothing is allocated or reclaimed until Reset |
| RegistryAnswers.BlocksFollowTheCalls | balloc/core.go:74-143 | a block is known if and only if it was handed out since the last reset |
| RegistryAnswers.AnswersFollowTheCalls | balloc/core.go:107-131 | in every run, by the calls and outcomes before: a share succeeds if and only if the block was handed out; a free is not found if and only if it was not, answers false if and only if an owner is left, and with the last owner gone answers true, or out of memory if and only if the metadata region is full |
| RegistryAnswers.AllocAnswers | balloc/core.go:74-105 | the errors in order, a block large enough for the request, and exactly when there is none |
| RegistryAnswers.ActiveFollowsTheCalls | balloc/core.go:89-129 | the active count is the number of successful allocations since the last reset less that of frees that answered true |
| RegistryAnswers.FreshServes | balloc/core.go:10-72 | a new super-block, of the default 64 MiB or of any other length, serves every sequence of up to 4096 allocations whose bytes fit the payload |
| Topology.GfMultiply | balloc/topology.go:24-40 | for scale 2^k the loop computes the product of the low k bits of the factor with any 64-bit multiplier |
| Topology.ProductIsResidue | balloc/topology.go:24-40 | that product is the remainder of the carry-less product modulo x^k + (poly mod 2^k) |
| Topology.ResidueUnique | balloc/topology.go:34-39 | there is one such remainder |
| Topology.ProductLinear | balloc/topology.go:24-40 | the product is XOR-linear in each factor |
| Topology.ScaleActsAsZero | balloc/topology.go:28-39 | the matrix entry equal to the scale acts as zero |
| Topology.ZeroExactlyOnMultiples | balloc/topology.go:24-40 | at scale 8 the product with a factor 1 to 7 is zero exactly on the multiples of x^3 + x + 1 |
| Topology.WindowsHitEveryBucketOnce | balloc/topology.go:24-40 | at scale 8 eight consecutive multipliers from a multiple of eight hit each bucket exactly once |
| Topology.EachValueOncePerLine | balloc/topology.go:5-14 | while entries fit 32 bits each row and column holds each of 1 to scale exactly once |
| Topology.LatinExactlyWhenNarrow | balloc/topology.go:5-14 | every row holds each of 1 to scale if and only if the scale is below 2^32; above it the entry wraps to zero |
| Topology.BuildPandiagonal | balloc/topology.go:5-14 | the loops fill the whole matrix with those entries |
| Topology.BucketIn | arena/topology.go:30-36 | for any matrix of 64-bit entries and all 64-bit ids the matrix is indexed in bounds, and the bucket is the remainder of the carry-less product of the entry at the two ids and their XOR |
| Topology.BucketFor | balloc/topology.go:16-22 | the same with the entry that the ids select written out, below scale 2^32 |
| Buckets.EqualIds | balloc/topology.go:16-22 | equal ids have bucket 0 |
| Buckets.SwappedIds | balloc/topology.go:16-22 | swapping the ids keeps the bucket |
| Buckets.StridesSpreadExactly | balloc/topology.go:16-40 | at scale 8, chunk ids of one aligned window of 64 that are equal modulo 8 have one bucket if and only if thread and chunk id add up to 7 modulo 8 |
| Buckets.StridesHitEveryBucketOnce | balloc/topology.go:16-40 | otherwise the eight of them hit each bucket exactly once |
| Buckets.ConsecutiveSpreadExactly | balloc/topology.go:16-40 | at scale 8, eight consecutive chunk ids from a multiple of eight have different buckets if and only if the thread id is 3 or 7 modulo 8 and the XOR of the other bits of the ids leaves the remainder 7 |
| Buckets.ChunksCollide | balloc/topology.go:16-40 | so consecutive chunk ids do not spread in general: thread 0 has bucket 0 for chunks 0 and 7 |
| Topology.DiscoverScale | balloc/bootstrap.go:12-21 | the least power of two that is at least 8 and at least the number of cores |
| HybridMachine.StepInv | alloc/hybrid.go:96-123 | every step keeps each slab in one place, each lock with one holder, each snapshot a prefix of its list, and each returned range below its slab's offset |
| HybridMachine.StepPublish | alloc/hybrid.go:119-121 | storing the remembered list and one slab more keeps the invariant, since under the lock the remembered list is the whole list |
| HybridMachine.RangesAreDisjoint | alloc/hybrid.go:46-56 | in every interleaving the ranges returned are non-empty, inside one slab and pairwise disjoint, and no slab is in two places of the shard lists |
| HybridMachine.ListedSlabsAreNeverRewound | alloc/hybrid.go:119-122 | a slab in a list stays there and its offset never goes down |
| HybridMachine.RangesAreAsAsked | alloc/hybrid.go:46-123 | in every interleaving a search that ends returns a range of the size its call asked for, from where the slab's offset was; so does the first try of a new slab unless others have filled it; no other step returns anything |
| SlabPacking.PackKeeps | alloc/hybrid.go:96-123 | a small request is served in full and keeps every slab but the last more than 61440 bytes used |
| SlabPacking.PackAllKeeps | alloc/hybrid.go:96-123 | over any run the places answer the requests inside the slabs without overlap, and bytes served are bytes asked for |
| SlabPacking.SlabsAreEarned | alloc/hybrid.go:107-122 | two or more slabs, k of them, mean that more than (k - 1) * 61440 bytes were asked for |
| Hybrid.SmallArena.Alloc | alloc/hybrid.go:46-56 | returns the bytes from the old offset exactly when they fit; the offset moves in any case |
| Hybrid.Scan | alloc/hybrid.go:99-105 | trying all slabs in turn is trying the last one, and leaves all of them spent when it fails |
| Hybrid.Shard.Slow | alloc/hybrid.go:107-122 | the second pass fails if the first did, and the request starts a new slab |
| Hybrid.Shard.AllocSmall | alloc/hybrid.go:96-123 | a request of 1 to 4096 bytes always succeeds, where the packing puts it |
| Hybrid.Shard.Perform | alloc/hybrid.go:96-123 | any run of small requests on an empty shard gives the places and slabs of the packing, so what is proved of the packing holds of the shard |
| Hybrid.Shard.AllocNothing | alloc/hybrid.go:47-49 | a request of no bytes gives an empty shard its first slab and changes no other shard |
| Hybrid.Hybrid.Alloc | alloc/hybrid.go:85-94 | small requests never reach the block allocator and have bucket 0, larger ones get its answer and its bucket; the other shards do not change |
| Hybrid.Hybrid.Reset | alloc/hybrid.go:136-146 | all shards are empty, no slab is in two shards, and the block allocator is reset |
| BufferHistory.HoldsWhatWasWritten | pure/buffer.go:21-34 | a buffer holds the bytes of its own successful writes since its last reset, joined in order |
| BufferHistory.ReadPlusUnreadIsWritten | pure/buffer.go:37-44 | bytes read and bytes unread together are the bytes written, in order |
| PureBuffer.Arena.Alloc | pure/arena.go:30-43 | returns the bytes from the old offset exactly when they fit; the offset moves in any case |
| PureBuffer.Doubling | pure/buffer.go:61-68 | the loop ends, with the least doubling of the capacity, or of 64, that is enough |
| PureBuffer.Buffer.Grow | pure/buffer.go:61-76 | same contents in a slice beyond all others, or no change; below the old offset no byte changes |
| PureBuffer.Buffer.Write | pure/buffer.go:21-34 | appends all or nothing, fails exactly when the arena is exhausted, keeps the capacity bounds and changes no byte outside its own slice and unused memory |
| PureBuffer.Buffer.Read | pure/buffer.go:37-44 | returns the next unread bytes that fit, or the end of the data |
| PureBuffer.Buffer.Reset | pure/buffer.go:56-59 | empties the buffer and keeps its slice |
| PureBuffer.OthersKeep | pure/buffer.go:61-76 | such a change of one buffer leaves all others with their contents, slices disjoint |
| PureBuffer.Perform | pure/buffer.go:21-76 | any interleaving of calls on any number of buffers over one arena gives each buffer what its own calls made of it; capacity is 0, 64 or a doubling of 64 below twice the peak, and all slices ever had total at most twice the capacity less 64 |
| Arena.MemTree.Insert | arena/tree.go:20-59 | owners join the address; the size stays that of the first insertion |
| Arena.MemTree.FreeVarying | arena/tree.go:76-88 | takes off owners and returns the rest, or reports an unknown address |
| Arena.SameBucket | arena/topology.go:19-36 | below scale 2^32 the bucket is the block allocator's |
| Arena.Arena.Bucket | arena/core.go:107-109 | the remainder of the carry-less product of the 64-bit entry for the two ids and their XOR, below the scale |
| Arena.LedgerRemove | arena/core.go:88-89 | a block that leaves has its pin undone once, and only its pin |
| Arena.EveryPinUndoneOnce | arena/core.go:93-105 | with no block held every pin ever made has been undone exactly once |
| Arena.Arena.Alloc | arena/core.go:40-60 | the block is held and owned; while the arena is open the blocks held are the addresses somebody owns, a closed arena undoes the pin at once, and the bucket is the product's, or 0 with an error |
| Arena.Arena.Share | arena/core.go:62-71 | owners join a held block, and only a held block |
| Arena.Arena.FreeVarying | arena/core.go:73-91 | lets go of the block, and of its pin, exactly with the last owner |
| Arena.FollowsStep | arena/core.go:40-91 | after any sequence of calls an address is known if and only if a block was ever handed out there, and its owners are those of the allocation and the shares less those freed |
| Arena.Arena.Perform | arena/core.go:40-91 | any sequence of calls on a new arena leaves those owners and holds the blocks that somebody owns; a share succeeds if and only if somebody does, a free is not found if and only if no block was ever handed out there, and else answers true if and only if nobody is left |
| Arena.Arena.Close | arena/core.go:93-105 | every pin ever made has been undone exactly once |
| Secure.MemZero | secure/zero_amd64.s:6-25 | clears exactly n bytes and no other |
| Secure.Arena.Alloc | secure/arena.go:30-44 | new state and answer are those of the pages |
| Secure.Arena.Reset | secure/arena.go:48-56 | with zeroizing on, all pages are zero and the offset is rewound |
| Secure.Arena.Perform | secure/arena.go:30-56 | every legal sequence of calls and stores gives the outcomes of the pages |
| Secure.AllocsFollowTheCalls | secure/arena.go:30-56 | in every legal run an allocation gives a slice of the size asked for that begins where the bytes asked for since the last reset end, with the bytes last stored there and not cleared since; it fails if and only if it would end beyond the pages |
| Secure.SlicesAreDisjoint | secure/arena.go:38-43 | slices given without a reset between them are disjoint, of the sizes asked for and inside the pages |
| Secure.HandedOutClean | secure/arena.go:30-56 | with zeroizing on, every slice of every legal run is all zero when handed out |
| Secure.CleanExactlyWhenZeroizing | secure/arena.go:48-56 | that holds for all legal runs of a fresh arena if and only if zeroizing is on |

## Left out

- MachineSafety.SafeWithoutStalePops: Reset and Close are not steps of the concurrent machine, because they must not run concurrently with other calls; a run starts from a fresh or reset allocator.
- BlockAllocator.BlockAllocator.Share: needs an open allocator, as the source does not check and would read unmapped memory.
- BlockAllocator.BlockAllocator.FreeVarying: needs an open allocator, for the same reason.
- BlockAllocator.BlockAllocator.InsertNode: the retry loops run once, since a compare-and-swap right after the load of the same word cannot fail when calls come one at a time; the machine has the retries.
- HybridMachine.StepInv: the slab list of a shard is read as one value, although the source reads a slice header without the lock.
- PureBuffer.Perform: Arena.Reset while buffers are alive invalidates their slices and is not among the calls.
- Hybrid.Hybrid.Alloc: Share and FreeVarying of the hybrid allocator pass straight to the block allocator and have no member of their own; Close returns slabs without rewinding them, which HybridMachine.Initial allows for.
- Words.AlignUp: takes the alignments 8 and 64 that callers pass, not every power of two.
- MachineCount.ActiveCounts: says nothing of runs with stale pops, in which two releases of one grant can both see an empty mask and count twice.
- Memory mapping, page locking, guard pages, cache flushing and process hardening are effects of the operating system or the hardware; mappings are taken to be page-aligned and zero-filled.
- alloc/buffer.go: its growth copies into a slice of length zero, so earlier contents do not survive it; pure/buffer.go is modelled instead.
- alloc/generic.go: typed allocation rests on unsafe casts, and reused memory is not zero.
- HTTP middleware, context injection, JSON helpers, pools of arenas, finalizers and garbage collection.
- The arm64 and the portable variants of memzero; the amd64 routine is modelled.
- 32-bit targets: record sizes are those of a 64-bit machine.
