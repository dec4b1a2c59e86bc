# Verified models of Pedigree's POSIX subsystem

The main part is the allocator of the C library, dlmalloc 2.8.6, in the configuration the build
selects: 8-byte `size_t`, 16-byte alignment, minimum chunk 32 bytes, no footers, no mspaces, no
`mremap`, no locks. Memory is a map from addresses to values, `MallocState` is the state record with
its fields, and the code is modelled in place: bin links, trie pointers, boundary tags, bitmaps and
the segment list are words that the methods overwrite. Ghost fields say what those words stand for:
the chunks, the contents of each bin, the tries, the segments. `SysOk` (module Segments) is the
invariant that ties the two together, and every entry point keeps it for every input and every
answer of the system.

| part | modules |
|---|---|
| arithmetic and bitmaps | Words, BinIndex, BinMaps |
| rings, tries, and their pointer code | Rings, Trie, TreeMemory, TreeBins, SmallBins, BestFit |
| boundary tags and the heap invariant | Chunks, HeapState, Heap, Steps, HeapOps |
| malloc, free, realloc, memalign inside the heap | Malloc, Consolidate, Realloc, Memalign |
| growing, shrinking, accounting | Growth, Segments, SysAlloc, Morecore, Trim |
| entry points, consequences of the invariant, runs | Api, Invariant, Runs |

The smaller parts are the descriptor table and the counts of open files (Descriptors), `memcpy` and
`memset` (Copying), the user-space spinlock (Spinlock), symbolic links (Symlinks) and the leaders of
process groups (ProcessGroups).

What the system does is a parameter. `Answers` holds what `mmap` and `sbrk` return for each request;
they may fail at any time, and what they give is new (`Honest`). `TrimAnswers` does the same for
`munmap` and for lowering the break.

## Model

| member | source | states |
|---|---|---|
| Api.DlMalloc | src/subsys/posix/glue-dlmalloc.c:4571-4705 | The invariant is kept. A success hands out a 16-aligned block with room for the request that was not live before, less than a minimum chunk too large unless it has its own region; every other block keeps place and contents. If something free fits, it says which chunk serves and what becomes of its rest, and segments and footprint stay; if nothing does, which memory of the system serves (FromSystem). It fails exactly if nothing free fits and every way to get memory fails, and then nothing has changed |
| Api.DlFree | src/subsys/posix/glue-dlmalloc.c:4709-4816 | The invariant is kept, the block is gone and every other block keeps place and contents, also through the trimming that follows. Only a block in its own region that the system refuses to unmap stays, and then nothing changes. The footprint goes down by exactly the region, or by what is due by what the freed chunk has become: a trim if it is in a top beyond the threshold, a look for unused segments if it is large, binned and the countdown ends, and otherwise nothing |
| Api.DlRealloc | src/subsys/posix/glue-dlmalloc.c:5212-5255 | On every path the bytes that both sizes have room for are kept, and so are all other blocks. The block stays where it is exactly if it has room there; the call fails exactly if it cannot stay and malloc would fail, and then the old block and everything else is unchanged |
| Api.DlMemalign | src/subsys/posix/glue-dlmalloc.c:5288-5293 | A new block at a multiple of a power of two that is at least the alignment, of at most a minimum chunk too much unless it has its own region, with the invariant and all other blocks kept; it fails exactly if the request is too large or malloc fails for the enlarged request |
| Api.AlignedPow | src/subsys/posix/glue-dlmalloc.c:4919-4925 | For an alignment that is a power of two, that multiple is one of the alignment itself |
| Api.DlMallocTrim | src/subsys/posix/glue-dlmalloc.c:5361-5369 | No block changes; top and the footprint go down by exactly what the answers of the system release, and the result is true if and only if that is something |
| Api.BlocksDisjoint | src/subsys/posix/glue-dlmalloc.c:3314-3325 | Under the invariant, two blocks of the program never overlap, start at multiples of 16 and have at least 16 usable bytes |
| Api.OwnerWrote | src/subsys/posix/glue-dlmalloc.c:2099-2119 | Whatever a program writes to the usable bytes of a block, including the prev_foot word of the next chunk, keeps the invariant and all other blocks |
| Runs.RunOk | src/subsys/posix/glue-dlmalloc.c:4571-4816 | In every run of malloc, free, realloc, memalign, trim and stores from the zeroed record, the invariant holds after each call, and the live blocks are exactly those of the ledger that the program can keep from arguments and results, each with the room asked for |
| Runs.LiveBlocks | src/subsys/posix/glue-dlmalloc.c:4571-4816 | Refinement of a set of intervals: at any moment of any run, the blocks handed out and not taken back are aligned and pairwise disjoint over the bytes asked for |
| Runs.ContentsKept | src/subsys/posix/glue-dlmalloc.c:4571-4816 | Between two calls of a run, if no call in between names a block, it is the same byte for byte |
| Invariant.StartOk | src/subsys/posix/glue-dlmalloc.c:2609-2662 | The zeroed record satisfies the invariant, whatever else is in memory |
| Invariant.Tiling | src/subsys/posix/glue-dlmalloc.c:3450-3480 | The chunks tile each segment: every address is in exactly one chunk, up to the end of top or of the fenceposts |
| Invariant.NoGaps | src/subsys/posix/glue-dlmalloc.c:3450-3480 | Each chunk of a segment ends where the next begins, and only top or fenceposts end the segment |
| Invariant.PinuseBit | src/subsys/posix/glue-dlmalloc.c:3280-3288 | The pinuse bit of an in-use chunk is clear exactly if a free chunk ends where it starts |
| Invariant.FreeNeighbour | src/subsys/posix/glue-dlmalloc.c:3291-3311 | Behind a free chunk is an in-use one that has its pinuse bit clear and the size of the free chunk in its prev_foot; so no two free chunks are neighbours |
| Invariant.NothingLost | src/subsys/posix/glue-dlmalloc.c:4390-4456 | All bytes of a freed chunk belong to one free chunk, or to top |
| Invariant.SmallHome | src/subsys/posix/glue-dlmalloc.c:3390-3411 | A chunk is in small bin i if and only if it is binned and of size 8i |
| Invariant.SmallMark | src/subsys/posix/glue-dlmalloc.c:3390-3411 | Bit i of smallmap is set if and only if some binned chunk has size 8i |
| Invariant.TreeHome | src/subsys/posix/glue-dlmalloc.c:3414-3447 | A chunk is in treebin i, at a node of size z, if and only if it is binned, of size z, and i is the index of z |
| Invariant.TreeMark | src/subsys/posix/glue-dlmalloc.c:3379-3387 | Bit i of treemap is set if and only if some large binned chunk has that index |
| Invariant.FreeHomes | src/subsys/posix/glue-dlmalloc.c:3482-3508 | Between calls a free chunk is either binned or dv; dv and top are exactly the chunks their fields name, with those sizes |
| Invariant.FootprintIs | src/subsys/posix/glue-dlmalloc.c:3482-3508 | footprint is the sum of the segment sizes and of the directly mapped regions not yet unmapped, and at most max_footprint |
| Malloc.TmallocLarge | src/subsys/posix/glue-dlmalloc.c:4461-4529 | A chunk of minimum size among all binned chunks that fit, used if and only if it is smaller than a dv that fits, with its rest binned; 0 and no change otherwise |
| Malloc.TmallocSmall | src/subsys/posix/glue-dlmalloc.c:4532-4567 | A chunk of minimum size among all treebins is split; a rest that is a chunk becomes dv, and the old dv, which has to be small, is binned; without one dv stays |
| Malloc.MallocInHeap | src/subsys/posix/glue-dlmalloc.c:4595-4695 | The free chunk that serves a request: a best fit of the bins before dv, dv before top, as the order of the branches has it, and what becomes of its rest; no change if and only if none fits |
| BestFit.BestFitLarge | src/subsys/posix/glue-dlmalloc.c:4461-4507 | The pointer walk over the path of nb, its deepest untaken right subtree and the next marked bin finds a chunk of minimum size >= nb over all treebins, and none if and only if there is none, for every nb and despite the wrapping differences |
| BestFit.BestFitSmall | src/subsys/posix/glue-dlmalloc.c:4532-4549 | The leftmost descent from the lowest marked treebin finds a smallest chunk of all |
| BestFit.BetterIs | src/subsys/posix/glue-dlmalloc.c:4473-4478 | The unsigned comparison trem < rsize holds exactly for sizes from nb up to below the best so far, so that it never prefers a chunk that is too small |
| BestFit.FollowPath | src/subsys/posix/glue-dlmalloc.c:4467-4489 | The first loop leaves one subtree as the only place for a better fit, within one round more than the bin has undecided bits |
| BestFit.FindSmallest | src/subsys/posix/glue-dlmalloc.c:4500-4507 | The second loop finds the smallest fitting size of a subtree, within one round more than it has undecided bits |
| TreeBins.InsertLargeChunk | src/subsys/posix/glue-dlmalloc.c:3675-3724 | The pointer code turns the trie of the bin into Trie.Insert of it, keeps all treebins well-formed with their map bits, and writes nothing outside the chunks of that bin and its root |
| TreeBins.InsertWalk | src/subsys/posix/glue-dlmalloc.c:3689-3722 | The walk writes what Trie.Insert stands for, within one round more than the bin has undecided bits |
| TreeBins.UnlinkLargeChunk | src/subsys/posix/glue-dlmalloc.c:3743-3812 | The pointer code, with its replacement of an interior node by a leaf, turns the trie into Trie.Remove of it, keeps all treebins well-formed with their map bits, and writes nothing outside that bin |
| TreeBins.LastBinDepth | src/subsys/posix/glue-dlmalloc.c:2932-2934 | The last bin decides from bit 63 down: its tries have at most 61 levels, for sizes are multiples of 16, and a trie of chunks that fit a heap of 1 GB together reaches them, although all sizes are below 2^40 |
| TreeBins.AlignedHeight | src/subsys/posix/glue-dlmalloc.c:3689-3722 | For sizes that are multiples of 16, a trie has at most k - 3 levels for k undecided bits |
| TreeMemory.InsertRep | src/subsys/posix/glue-dlmalloc.c:3689-3722 | What insertion writes represents Trie.Insert, with parent and child links inverse to each other |
| TreeMemory.RemoveRep | src/subsys/posix/glue-dlmalloc.c:3743-3812 | What removal writes represents Trie.Remove, wherever in the trie the chunk is |
| Trie.InsertShape | src/subsys/posix/glue-dlmalloc.c:3328-3376 | Insertion keeps the digital-tree property with distinct sizes |
| Trie.InsertHolds | src/subsys/posix/glue-dlmalloc.c:3675-3724 | Insertion adds the one chunk with its size and changes no other entry |
| Trie.RemoveShape | src/subsys/posix/glue-dlmalloc.c:3328-3376 | Removal, leaf replacement included, keeps the digital-tree property |
| Trie.RemoveHolds | src/subsys/posix/glue-dlmalloc.c:3743-3812 | Removal takes away the one chunk and changes no other entry |
| Trie.HeightBound | src/subsys/posix/glue-dlmalloc.c:3689-3722 | A trie has at most one level more than its range has undecided bits |
| BinIndex.IndexFitsExactly | src/subsys/posix/glue-dlmalloc.c:2865-2939 | A size lies in the range of the bin it is sent to if and only if it is below 2^40, or what the truncation to 32 bits leaves of it still selects the last bin |
| BinIndex.TruncationWitness | src/subsys/posix/glue-dlmalloc.c:2865-2876 | 2^40 is sent to bin 0, whose range does not hold it |
| BinIndex.HigherBinLarger | src/subsys/posix/glue-dlmalloc.c:2865-2939 | Every size in a higher bin is larger than every size in a lower one |
| BinMaps.LowestMarked | src/subsys/posix/glue-dlmalloc.c:2957-2974 | least_bit followed by compute_bit2idx finds the lowest marked bin |
| BinMaps.AboveHas | src/subsys/posix/glue-dlmalloc.c:2960 | left_bits of a bin's bit keeps exactly the marks of the bins above it |
| SmallBins.InsertSmallChunk | src/subsys/posix/glue-dlmalloc.c:3597-3613 | The chunk becomes first of the ring of its bin, and all small bins stay well-formed with their map bits |
| SmallBins.UnlinkSmallChunk | src/subsys/posix/glue-dlmalloc.c:3616-3639 | The ring loses this chunk, its bit is cleared if and only if it was the last, and all small bins stay well-formed |
| HeapOps.ReplaceDv | src/subsys/posix/glue-dlmalloc.c:3661-3670 | For an old dv of small size: it is binned, the chunk is the new dv, and nothing live changes |
| Consolidate.FreeChunk | src/subsys/posix/glue-dlmalloc.c:4390-4456 | The chunk is merged with its free neighbours into top, dv or a binned chunk, into top if and only if it ends where top starts, and into dv if and only if it is otherwise next to dv; the invariant and every other live chunk are kept |
| Realloc.TryReallocChunk | src/subsys/posix/glue-dlmalloc.c:4838-4915 | It succeeds if and only if the chunk and a free chunk, dv or top behind it have room; then contents are kept and the size is less than a minimum chunk too large, and otherwise nothing changes |
| Memalign.AlignChunk | src/subsys/posix/glue-dlmalloc.c:4939-4983 | The over-allocated chunk always has an aligned place behind a leader of at least a minimum chunk; leader and remainder are free again, at least nb bytes remain, and the invariant is kept |
| Memalign.RoundAlignment | src/subsys/posix/glue-dlmalloc.c:4919-4925 | Up to 2^63 the loop ends with a power of two that is at least the alignment and less than twice it, and powers of two stay as they are |
| Memalign.DoublingMisses | src/subsys/posix/glue-dlmalloc.c:4921-4925 | Above 2^63 no round of the loop reaches the alignment |
| SysAlloc.FirstSegment | src/subsys/posix/glue-dlmalloc.c:4203-4217 | The first memory becomes the only segment, with top in it, under the invariant |
| SysAlloc.AppendTop | src/subsys/posix/glue-dlmalloc.c:4229-4238 | Memory behind the segment of top makes that segment and top larger by exactly its size, and no block changes |
| SysAlloc.PrependAlloc | src/subsys/posix/glue-dlmalloc.c:3967-4006 | A request is served from memory in front of a segment, which grows by it and is otherwise as before; the rest becomes part of top, of dv or of a binned chunk with exactly the sizes that this gives, under the invariant |
| SysAlloc.AddSegment | src/subsys/posix/glue-dlmalloc.c:4009-4059 | The new segment goes in front of the list with top in it. The record of the old one and at least two fenceposts fit behind the old top, the rest of which is nothing or a free chunk; the invariant and all blocks are kept |
| SysAlloc.RecordSpot | src/subsys/posix/glue-dlmalloc.c:4013-4018 | TOP_FOOT_SIZE is exactly the room that the record and its fenceposts take |
| Morecore.SysAllocate | src/subsys/posix/glue-dlmalloc.c:4064-4270 | It fails exactly if every way to get memory fails, without any change; what the system gives is always enough to serve the request. A request of at least the threshold, made when there is a top, is at what mmap maps for it, if it does. Otherwise the memory is from contiguous sbrk, else from mmap, else from any sbrk, with the amount that each is asked for, mapped exactly if it is from mmap; the first segment grows by it at its end, or the segment that starts behind it grows at its start if it came in the same way, or it is a new segment in front of all; and the block is at the old top, or at the start of the new memory |
| Morecore.AskSystem | src/subsys/posix/glue-dlmalloc.c:4106-4196 | Which memory the system gives: its base, size and mapped flag for every combination of answers, and that the contiguous way is given up exactly if it was refused |
| Morecore.MmapAlloc | src/subsys/posix/glue-dlmalloc.c:3853-3882 | A block at what mmap returns for the size, rounded up to pages, with its head and the accounts, or no change; it fails exactly if the size wraps around or mmap fails |
| Trim.SysTrim | src/subsys/posix/glue-dlmalloc.c:4322-4385 | No block is touched. Top goes down by the largest multiple of the unit that leaves it more than pad bytes, if its segment is mapped and munmap succeeds; by as much as the break goes down, if the segment is not mapped and the break is at its end; and otherwise not at all. The footprint goes down by that and by the unused segments that go, the result says whether that is anything, and fruitless trimming is not tried again |
| Trim.ReleaseUnusedSegments | src/subsys/posix/glue-dlmalloc.c:4275-4319 | The segments that go are exactly those behind the first that are mapped, hold nothing but one free chunk, and that munmap takes at their place in the list; the result is the sum of their sizes. No block changes, the list stays right, the footprint goes down by the result, and the countdown starts again at the number of segments or 4095 |
| Descriptors.FdTable.GetFd | src/subsys/posix/PosixSubsystem.cc:592-615 | The lowest number that is not marked, as section 2.14 of POSIX.1-2017 wants it, and it is marked then |
| Descriptors.FdTable.FreeFd | src/subsys/posix/PosixSubsystem.cc:629-647 | The entry and its mark are gone, the hint stays right, and the count of the file follows |
| Descriptors.FdTable.AddFileDescriptor | src/subsys/posix/PosixSubsystem.h:356-367 | The entry replaces what was there, which is closed |
| Descriptors.FdTable.CopyDescriptors | src/subsys/posix/PosixSubsystem.cc:649-683 | Afterwards the entries are those of the other table, every old entry is closed and every new one counted |
| Descriptors.FdTable.FreeMultipleFds | src/subsys/posix/PosixSubsystem.cc:685-747 | Exactly the selected entries are closed and unmarked; marks without an entry stay, and the hint stays right |
| Descriptors.FdTable.Dup2 | src/subsys/posix/file-syscalls.cc:1305-1346 | Results and new table for all arguments; the count of the duplicated file never comes down to zero on the way |
| Descriptors.FdTable.Dup | src/subsys/posix/file-syscalls.cc:1276-1303 | A copy at the lowest free number, or failure without a change |
| Descriptors.Dup2RightExactly | src/subsys/posix/file-syscalls.cc:1305-1320 | dup2 returns what POSIX asks for if and only if fd2 is negative, the numbers differ, or fd1 is open; dup2(7, 7) on an empty table does not |
| Descriptors.DupRightExactly | src/subsys/posix/PosixSubsystem.cc:75-83 | dup gives the descriptor that POSIX asks for if and only if the close-on-exec flag of the original is clear; with a descriptor for which it does not |
| Descriptors.FdTable.Close | src/subsys/posix/file-syscalls.cc:139-169 | The entry and its mark are gone, or there was none and nothing changes |
| Descriptors.Conserved | src/subsys/posix/PosixSubsystem.cc:64-134 | If all counts are those of all tables, they still are when one table and the counts change together |
| Descriptors.Kernel.Dup2 | src/subsys/posix/file-syscalls.cc:1305-1346 | Over all tables of all processes the counts equal the live descriptors before and after, which discharges the precondition of Dup2; of the marks, at most that of fd2 is new |
| Descriptors.Kernel.Fork | src/subsys/posix/PosixSubsystem.cc:649-683 | The child has a copy of every descriptor of its parent and no other number marked, and the counts equal the live descriptors over all tables |
| Descriptors.Kernel.CloseMany | src/subsys/posix/PosixSubsystem.cc:685-747 | The same for the closing of ranges, of close-on-exec descriptors and of all; exactly the selected entries and their marks go |
| Copying.Memory.Memcpy | src/subsys/posix/glue-memcpy.c:118-336 | For disjoint objects, up to 524288 bytes or with a destination at a multiple of 16, exactly the n bytes are copied and nothing else changes. Otherwise the object is copied as well, exactly 16 - s1 % 16 bytes behind it are overwritten with what comes behind the source, and nothing else changes |
| Copying.ByteLoopCopies | src/subsys/posix/glue-memcpy.c:157-336 | The byte loop does what section 7.21.2.1 of C99 asks, and touches nothing else |
| Copying.RightExactly | src/subsys/posix/glue-memcpy.c:173-245 | memcpy is the byte loop for n bytes, whatever memory holds, if and only if n is at most 524288 or the destination is 16-byte aligned |
| Copying.Memory.Memset | src/subsys/posix/glue-memset.c:39-143 | Every byte after memset, for every int c, length and alignment, and nothing else is touched |
| Copying.MemsetRightExactly | src/subsys/posix/glue-memset.c:39-143 | memset fills with the byte c, as section 7.21.6.1 of C99 asks, if and only if c is in 0..255 or no whole word is written |
| Spinlock.Safety | src/subsys/posix/glue-pthread.c:543-641 | In every state of every interleaving at most one thread holds the lock, EDEADLK is returned only to the holder, and a holder's unlock never fails |
| Spinlock.LockCall | src/subsys/posix/glue-pthread.c:575-599 | Whatever other threads do in between, a call of lock by the holder returns EDEADLK, and one by any other thread, if it returns, returns success with the lock held |
| Spinlock.TryCall | src/subsys/posix/glue-pthread.c:601-618 | A call of trylock swaps once; it returns EBUSY if and only if the swap finds the lock taken, that is, some thread holds it or is about to or has just given it up, and otherwise returns success with the lock held |
| Spinlock.UnlockCall | src/subsys/posix/glue-pthread.c:620-642 | A call of unlock by the holder returns success, and the thread holds the lock no more |
| Spinlock.Progress | src/subsys/posix/glue-pthread.c:575-642 | Every step brings a thread nearer to the end of its call, unless it waits for a lock that another thread has: the holder that calls lock is at EDEADLK after its swap and one look at the locker |
| Spinlock.StepInv | src/subsys/posix/glue-pthread.c:576-641 | Every atomic step of every thread keeps the relation of atom, locker and holder |
| Spinlock.FreeWhenEmpty | src/subsys/posix/glue-pthread.c:576-620 | A lock that nobody has goes to the next thread that tries, at its first swap |
| Symlinks.TraverseSymlink | src/subsys/posix/file-syscalls.cc:55-83 | It ends on every finite graph; it returns f if and only if the chain of links ends at f, DoesNotExist if and only if it dangles, LoopExists if and only if it never ends |
| Symlinks.OneOutcome | src/subsys/posix/file-syscalls.cc:55-83 | A chain that ends has one end, and neither dangles nor goes on forever |
| ProcessGroups.Group.Exit | src/subsys/posix/PosixSubsystem.cc:372-417 | The group stays valid without the process, with exactly one leader that Leader names; it is destroyed and its id released exactly if the process was its last member |
| ProcessGroups.Group.Destroy | src/subsys/posix/PosixProcess.cc:23-41 | Whoever is left is in no group, and the id is free |
| ProcessGroups.NewChild | src/subsys/posix/PosixProcess.h:98-113 | The child is a member of its parent's group, which stays valid with the same leader, and leads no session |
| ProcessGroups.Process.SetProcessGroup | src/subsys/posix/PosixProcess.h:118-143 | The process is out of the list of its old group and last in that of the new one, whose id is taken |
| ProcessGroups.System.Fork | src/subsys/posix/PosixProcess.h:98-113 | Over all groups, which have distinct ids and disjoint members: all stay in order, no other group changes, and the child leads no session |
| ProcessGroups.System.Exit | src/subsys/posix/PosixSubsystem.cc:372-417 | All groups stay in order, no other group changes, nobody's session does, and a group goes with its id exactly with its last member |
| ProcessGroups.System.SetSid | src/subsys/posix/system-syscalls.cc:1108-1177 | It fails exactly for the leader of a group; otherwise the caller leads a new session and a new group, all groups stay in order, and the old group is destroyed if and only if it had two members; nobody else comes to lead a session or stops to |
| ProcessGroups.System.SetPgid | src/subsys/posix/system-syscalls.cc:1179-1268 | Which group the caller ends in, for all arguments, with the members and leaders of all groups after it; the groups stay in order if and only if the caller does not move, or was not the leader of the group it leaves |
| ProcessGroups.LeaderlessGroup | src/subsys/posix/system-syscalls.cc:1229-1267 | Two calls of setpgid by one process that leave a group without its leader |

## Findings

- `memcpy` of more than 512 KiB to a destination that is not 16-byte aligned writes up to 15 bytes too
  many: the bytes that align the destination are not taken off the length (`Copying.RightExactly`
  has the exact condition, and the memory contents that show it).
- `memset` with a value outside 0..255 fills whole words with something else than the byte, because
  the value is multiplied as a `size_t` (`Copying.MemsetRightExactly`).
- `compute_tree_index` truncates the shifted size to 32 bits, so that sizes from 2^40 on reach wrong
  bins, 2^40 itself bin 0 (`BinIndex.IndexFitsExactly`, `BinIndex.TruncationWitness`).
- The loop of `internal_memalign` that rounds up an alignment does not end for alignments above 2^63
  (`Memalign.DoublingMisses`); up to 2^63 it does (`Memalign.RoundAlignment`).
- A block in its own region that `munmap` refuses to take back stays in the accounts for good: `dlfree`
  returns and `dlrealloc` hands out the copy, and the old region is neither free nor owned by
  anyone who knows of it (`Api.DlFree`, the result `gone`).
- The contiguous way to grow asks only for what top lacks. That is enough only if the new memory joins
  top, and it does because that way is not taken any more once a segment has been mapped: the
  invariant has to carry the noncontiguous flag (`Segments.SysOk`).
- `dup2(fd, fd)` succeeds for an fd that is not open, where POSIX asks for EBADF
  (`Descriptors.Dup2RightExactly`); `dup` keeps the close-on-exec flag of its original, where POSIX asks
  for it to be cleared (`Descriptors.DupRightExactly`).
- `setpgid` by the leader of a group moves it to another group without a successor: the old group keeps
  the name of a leader that is not among its members, and is never destroyed if nobody is left
  (`ProcessGroups.System.SetPgid` has the exact condition, `ProcessGroups.LeaderlessGroup` the calls).
- `setsid` by the only other member of a group destroys the group under its leader, which is then in no
  group (`ProcessGroups.System.SetSid`): the count is compared after the caller has left.
- `setpgid` returns 0 where it sets an error for a session leader or for another process's id, and the
  group it founds has the caller's process id, whatever id was asked for.
- `traverseSymlink` does not enter the file it starts from in its cycle detector. That costs one more
  round on a cycle through it, but changes no outcome (`Symlinks.TraverseSymlink`).

## Left out

- Memory from 2^40 on: `ADDRESS_LIMIT` bounds all addresses, because the tree index is wrong for the
  sizes that would be possible beyond it (`BinIndex.IndexFitsExactly`). Requests may have any size.
- Breaks and regions that are not multiples of 16: `sys_alloc`, `init_top` and `mmap_alloc` handle them
  through `align_offset`; the model has the system return aligned ones, as page-based systems do.
- Systems that return memory twice, lower the break by more than asked, or answer two `sbrk` calls in
  a row with memory that is not contiguous although it ends at the break.
- The checks that call `CORRUPTION_ERROR_ACTION` and `USAGE_ERROR_ACTION`, `least_addr` and the magic
  number: under the invariant the checked conditions hold.
- Locks, `footprint_limit`, `mremap`, mspaces, footers, `mallopt`, `mallinfo` and the inspection
  functions, which are off in this configuration or do not change the heap.
- `dlcalloc`, `dlposix_memalign`, `dlvalloc`, `ialloc` and `internal_bulk_free`, which build on the
  modelled calls.
- Memory as cells: a word is one cell at its address, so that the contents of a block are kept cell by
  cell, and the four bytes of `index` are a word. Partial overwriting of a word is not captured.
- `dlfree` and `dispose_chunk` have the same consolidation code; `Consolidate.FreeChunk` stands for both.
- Fenceposts: one chunk of kind Fence stands for the run of them behind a segment record; that there are
  at least two is part of `SysAlloc.AddSegment`'s proof.
- The branch of `sys_trim` for amounts of half the address space, which `ADDRESS_LIMIT` excludes.
- Api.DlMemalign: alignments above 2^63 are excluded, since the loop of the source does not end for them
  (`Memalign.DoublingMisses`).
- Interleavings of descriptor operations: tables change one call at a time. File locks, consoles,
  sockets, `opendir` descriptors and F_SETFL are not part of the model.
- `ExtensibleBitmap` is a set of numbers; how it stores them is not part of this model.
- The unused `sse2_unaligned_memcpy`, and the order of the bytes inside one SSE or string move.
- The `owner` field of the spinlock, `pthread_spin_destroy`, the yielding between attempts, and calls of
  `pthread_spin_unlock` by a thread that does not hold the lock.
- Sessions, but for who leads one, which `setpgid` asks; the controlling terminal; the scan over other
  processes' ids that `setpgid` refuses. Process ids are taken not to be used again while a group has them.
- Negative first arguments of dup, dup2 and close, which are converted to `size_t`.
- What a link's target string is resolved to: following a link is a function on files.
