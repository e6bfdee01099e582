# Remote mappings and descriptors: a verified model

A set of modified Linux kernel files lets a tracer change the mappings and the descriptors of a stopped
tracee: `src/mm` (areas, mmap, munmap, mprotect, mremap), `src/fs/file.c` (descriptor tables) and
`src/kernel/ptrace.c` (the stop protocol and the tracing links). This project models the parts that carry
state and proves what they keep.

**The address space.** A process keeps its mappings three ways: a list in address order, a search tree that
caches the largest gap of each subtree, and counters. `Areas`, `GapTree`, `VmaIndex`, `VmaChain` and `Adjust` hold
the representation; `Merge`, `Munmap`, `Mprotect`, `CopyVma`, `Mremap`, `Mmap`, `TaskMmap` and `StackGrowth` hold
the operations; `Mm` is the memory descriptor with its fields. What all of it must agree with is one simple
thing, the page view `At(list, p)`: which file, which page of it and which flags page `p` maps, or nothing.
Flags are compared without VM_SOFTDIRTY. Every operation is proved to change the page view exactly as it
should and to keep the invariant `Mm.Valid`:

- `Shaped`: the list is sorted, disjoint and without empty areas; the tree in order is the list; every cached
  gap is the true maximum; map_count and highest_vm_end are exact; one file reference is held per area that
  maps a file.
- `Booked`: total_vm, exec_vm, stack_vm, data_vm and the pages charged are the page sums of the areas in each class,
  plus `drift`. `drift` moves in three places only: a driver's mmap operation that fails keeps the charge of an
  accountable mapping, stack growth charges whether or not the area is accounted, and growth in place counts its
  pages in an `int`.
- `Guarded`: read, write and execute stay within their MAY bits; a shared mapping of a file not open for
  writing has no VM_MAYWRITE.

The page counters follow from the view alone (`PageCount`), so an operation that is right about the view is
right about the counters. `GapSearch` proves that the pruned tree walks agree with a linear scan.
`PageTables` moves page table entries. `Session` runs any sequence of requests against one address space.

**The descriptor table.** `FdTable` and `Descriptors` model the arrays, bitmaps and hint of a table with its lock
held, `RemoteFiles` and `RemoteMmap` the tracer's requests with the references that a caller holds itself while it
works, `FileRefs` the references of all tables, address spaces and callers together, over runs that mix requests of
every kind. `FdProtocol` is the table as a state machine of many tasks, with the lock-free install racing against a
resize. It assumes that files->count covers every task that acts on the table: each acts in the `seat` of a user who
holds a reference, a tracer in that of its stopped tracee. `RemoteDup` is do_dup2_to_remote among other tasks.

**Tracing.** `PtraceStop` is the state machine of freezing a tracee for one request while SIGKILL and events may arrive
at any step, and tasks may be linked to a tracer in the middle of a request. `PtraceLink` is who traces whom, over runs
of attach, traceme, fork, detach, exit and release.

**How the code appears here.** Addresses and lengths are page numbers, except at the entry points, which take
bytes and round and check them as the code does, on 64-bit words. A pointer to an area is its place in the
list; `Vma.id` is the identity of the struct and what the tree holds. vm_flags is the set of its bits. The
outcome of an allocation, of a security hook, of a driver operation and of an anon_vma clone is an arbitrary
choice. An operation's parameter `willing` says that all of these grant what they are asked for. Its contract then
gives the errno exactly, as a function of its arguments and of the state before the call; without it the contract
holds for whatever they answer, and success still means that nothing stood against it. Runs are over arbitrary
answers. Rebalancing is any sequence of rotations, each recomputing the caches it touches. `errno` values are
constructors. The state of the areas is a value (`Space`) inside the object `Mm`: the low-level edits are methods
from `Space` to `Space`, the operations are methods that modify the `Mm`.

**Where the code falls short of the simple law.** Each has an input at which it does, and the exact condition.

- The pages charged are those of accounted areas, but for two cases. A driver operation that fails keeps the
  charge, because `charged` is set to zero before it would be refunded (`TaskMmap.DriverDrift`; exactly when:
  `TaskMmap.DoTaskMmap`). A stack that is not accounted is charged when it grows (`StackGrowth.StackDrift`; exactly
  when: `StackGrowth.ExpandDownwards`). `Session.ServeAll` adds them up over a run.
- The counters are the page sums, but not after growth in place by 2^31 pages or more, because the number of pages
  goes through an `int` (`Mremap.GrowthMiscounts`; exactly when: `Mremap.RegrownExact`).
- A place found for a mapping is free in the address space that was searched. That is the caller's, also when the
  mapping goes into another task, which can lose what it had there (`TaskMmap.SearchedElsewhere`). It loses nothing
  if and only if none of its areas meets the place that is determined by the caller's list before the call
  (`TaskMmap.DoTaskMmap`); in one's own address space nothing is ever lost (`TaskMmap.OwnKept`).
- A comment in move_vma says that a failed move of page tables can always be undone, because the page tables of the
  source are still there. They need not be: a stretch of the source may lack a page-table page while its destination
  has one (`PageTables.UndoLoses`).
  `PageTables.UndoExact` gives the condition on the table before the move.
- do_dup2_to_remote looks into the tracer's table under the lock of the tracee's (`RemoteDup.ClosedMeanwhile`; exactly
  when the file is safe: `RemoteDup.AliveExactly`).
- ptrace_unfreeze_traced looks at the tracee without the lock and then writes under it without looking again. An event
  that wakes a listening tracee in between makes it write over a running task (`PtraceStop.WokenMeanwhile`), or warn
  (`PtraceStop.GoneMeanwhile`). Exactly when not: `PtraceStop.ThawExactly`; which requests are safe:
  `PtraceStop.EveryPathThaws`.
- A remote mremap that has to move is given a place that is free in the caller's address space, and fails when it is not
  in the task's (`Mremap.MoveRefused`; what a move needs: `Mremap.MremapTask`).

## Model

| member | source | states |
|---|---|---|
| VmFlags.ClassExactly | src/mm/mmap.c:3176-3186 | an area counts as executable, stack or data exactly by the masks of its write, execute, shared and stack bits, and never as two of them |
| VmFlags.CleanExactly | src/mm/mmap.c:960-969 | flags compare equal for a merge exactly if they agree on every bit but VM_SOFTDIRTY |
| GapTree.GapIsLargest | src/mm/mmap.c:252-271 | in a consistent tree the cached gap of a node is the largest gap in front of an area of its subtree: none is larger and one is equal |
| GapTree.UpdateRepairs | src/mm/mmap.c:387-394 | propagating from one area makes every cache right again when only that area and its ancestors were stale |
| GapTree.InsertInOrder | src/mm/mmap.c:535-557 | inserting at link k puts the area at place k of the in-order sequence |
| GapTree.HangStale | src/mm/mmap.c:553-556 | a node hung up with cache 0 makes stale no caches but its own and those above it |
| GapTree.InsertConsistent | src/mm/mmap.c:535-557 | hanging a node with cache 0 into the tree and then propagating from it leaves every cache right |
| GapTree.EraseInOrder | src/mm/mmap.c:429-439 | erasing removes exactly that area from the in-order sequence |
| GapTree.EraseRepairs | src/mm/mmap.c:405-439 | erasing the one area whose cache and whose ancestors' caches may be stale leaves every cache right |
| GapTree.RebalanceKeeps | src/mm/mmap.c:396-403 | any rotations keep the order and the right caches |
| GapTree.RotateBack | src/mm/mmap.c:396-403 | a rotation changes the tree, and the opposite rotation gives it back, caches included |
| VmaIndex.FindVma | src/mm/mmap.c:2167-2196 | the tree descent finds the first area that ends above the address, or that there is none |
| VmaIndex.FindVmaLinks | src/mm/mmap.c:473-505 | fails exactly when an area meets the range; otherwise gives the one place where the range fits, and the parent that stands for the successor when there is no predecessor |
| VmaIndex.VmaLink | src/mm/mmap.c:587-606 | list, tree, gaps, counters and file references agree after the link, also when the area becomes the first and its successor comes from the tree parent |
| VmaIndex.LinkShape | src/mm/mmap.c:535-606 | linking an area at its place keeps list, tree, gaps, counters and references in shape, whatever rotations follow |
| VmaChain.Chain.LinkList | src/mm/util.c:210-230 | the writes to mm->mmap, vm_next and vm_prev put the struct at its place in the sequence that the pointers spell, forward and backward, also when it becomes the first |
| VmaChain.Chain.Unlink | src/mm/mmap.c:624-648 | the pointer writes take exactly that struct out of the sequence, whether or not the caller names its predecessor |
| VmaChain.Chain.Detach | src/mm/mmap.c:2545-2569 | the pointer writes cut the stretch out, and what was cut out is a chain of its own |
| VmaChain.LinkedIds | src/mm/util.c:210-230 | the sequence of structs after linking is that of the list of areas after linking |
| VmaChain.LinkBoth | src/mm/mmap.c:559-606 | linking an area keeps pointers, list and tree saying the same |
| VmaChain.DetachBoth | src/mm/mmap.c:2545-2569 | detaching areas keeps pointers, list and tree saying the same, and leaves the areas that go as a chain of their own |
| Adjust.VmaAdjust | src/mm/mmap.c:664-951 | whatever bounds move and however many areas go, the result is in shape and the list is the one the edit asks for; it fails only when an anon_vma has to be cloned and is not to be had, and then the list is unchanged; which struct ends up with which anon_vma is exact |
| Adjust.AbsorbBoth | src/mm/mmap.c:894-922 | two removing passes one after the other leave what absorbing two areas at once would leave |
| Adjust.SwapPass | src/mm/mmap.c:681-702 | the pass that removes the area itself and extends the next one down keeps everything in shape |
| Adjust.InsertPiece | src/mm/mmap.c:845-851 | shrinking an area and linking the cut-off piece on its side gives both in place of the old area and keeps everything in shape; the overlap BUG of the insertion cannot fire |
| Merge.CaseView | src/mm/mmap.c:1051-1062 | in each of the eight cases the page view becomes the request on its range and is unchanged elsewhere |
| Merge.VmaMerge | src/mm/mmap.c:1082-1173 | the page view changes exactly on the range to the requested file, offsets and flags, and one area serves the range; or the list is unchanged. With the same anon_vma all around, or clones granted, it merges if and only if the flags are not special and an area ends where the request begins or one begins where it ends that would map the same there; and it takes all it can: with both neighbours the area runs from the start of the first to the end of the second, and there is one area less, two less if the request covered one |
| Merge.MergeTests | src/mm/mmap.c:1005-1042 | the tests of can_vma_merge_after and can_vma_merge_before hold exactly if the area, continued over the request, would map what is requested, and the other way round, with the same policy and userfaultfd context and no close operation |
| Merge.CaseGrew | src/mm/mmap.c:1127-1150 | filling a hole only extends one area, over its successor when the two meet |
| Munmap.CutView | src/mm/mmap.c:2575-2636 | cutting an area in two does not show in the page view |
| Munmap.SplitVma | src/mm/mmap.c:2575-2636 | on success the area is cut at the address with the new struct on the chosen side, in shape and with one more file reference; on failure nothing changes; a cut inside a huge page is refused, and with memory granted nothing else is |
| Munmap.DetachVmas | src/mm/mmap.c:2545-2569 | detaching removes exactly the areas from the first one on that start below the end, and list, tree, gaps and counters agree afterwards |
| Munmap.UnmapAreas | src/mm/mmap.c:2656-2739 | on success the pages of the range are gone and no others, what is left of a cut area keeps its struct below and gets the new struct above, and map_count does not pass the limit; on error the page view is unchanged even after a split. It fails if an area would lose its middle at the limit of map_count or a huge page would be cut, and with memory granted only then |
| Munmap.StagesCarved | src/mm/mmap.c:2687-2729 | the two cuts and the detaching together leave the list that carving the range out of the original list leaves |
| PageCount.WeightIsCount | src/mm/mmap.c:3176-3186 | the page sum of the areas in a class is the number of pages that the view maps with flags of that class |
| PageCount.WeightMoves | src/mm/mmap.c:3176-3186 | when the view changes only inside a range, each page sum changes by what changes there |
| Edits.LinkNew | src/mm/mmap.c:1700-1753 | a new struct linked into a hole, its file reference taken before, brings everything into shape |
| Edits.SetFlagsView | src/mm/mprotect.c:331-331 | new flags on one area show on its pages and nowhere else |
| Edits.SetFlagsShape | src/mm/mprotect.c:331-331 | new flags on one area leave list, tree, gaps, counters and references in shape |
| Edits.WeightOverlaid | src/mm/mmap.c:1765-1765 | a request laid over vacant pages adds its pages to exactly the classes of its flags |
| Edits.GuardedAreas | src/mm/mprotect.c:443-447 | in a guarded list every area has permissions within its MAY bits, and none to come on a shared mapping of a file not open for writing |
| Edits.GuardedOverlaid | src/mm/mmap.c:957-978 | laying proper flags over a guarded view, by merging or otherwise, keeps it guarded |
| MmStruct.Mm.VmStatAccount | src/mm/mmap.c:3176-3186 | each counter moves by the pages exactly when the flags are of its class |
| MmStruct.Mm.RemoveVmaList | src/mm/mmap.c:2501-2517 | giving back the detached areas one by one brings all counters, the charge and the file references to those of the remaining list |
| MmStruct.Mm.Unmap | src/mm/mmap.c:2656-2739 | unmapping keeps the invariant; the page view loses exactly the range, or nothing on error; where nothing is mapped it succeeds and changes nothing |
| MmStruct.Mm.DoMunmap | src/mm/mmap.c:2656-2739 | EINVAL exactly for a start inside a page, no length, or a range that leaves user space, with nothing changed, or for a huge page that would be cut; success clears exactly the pages that begin in the bytes given; on error the view is unchanged; with memory granted it fails only where it is hindered; map_count stays within its old value or the limit |
| MmStruct.AlignExactly | src/mm/mmap.c:2664-2666 | PAGE_ALIGN rounds up to whole pages, and comes to 0 exactly when that overflows |
| GapSearch.ScanUpFinds | src/mm/mmap.c:1818-1824 | the upward scan returns an address that is aligned, within the limits and free, in the lowest gap with room |
| GapSearch.ScanDownFinds | src/mm/mmap.c:1932-1943 | the downward scan does the same with the highest gap |
| GapSearch.UpExactly | src/mm/mmap.c:1818-1824 | the scan upward fails if and only if every range of the length and align_mask more within the limits meets an area; what it finds is the first aligned address from the lowest such range on |
| GapSearch.DownExactly | src/mm/mmap.c:1932-1943 | the scan downward fails under the same condition, and finds the last aligned address in the highest such range |
| GapSearch.PlainExactly | src/mm/mmap.c:1816-2014 | without alignment an address is found if and only if one is free, upward the lowest and downward the highest |
| GapSearch.WalkUp | src/mm/mmap.c:1853-1896 | the pruned up-and-down walk ends, and stops at the lowest gap with room before the last area, or knows that there is none |
| GapSearch.WalkDown | src/mm/mmap.c:1956-1998 | the mirrored walk stops at the highest such gap |
| GapSearch.UnmappedArea | src/mm/mmap.c:1816-1916 | the tree search returns what the linear scan upward returns, failure included; what that is, in terms of free ranges alone, is UpExactly and PlainExactly |
| GapSearch.UnmappedAreaTopdown | src/mm/mmap.c:1918-2014 | the tree search returns what the linear scan downward returns; what that is: DownExactly and PlainExactly |
| GapSearch.CoveredGap | src/include/linux/mm.h:2106-2113 | no gap in front of an area of a subtree exceeds its cached gap, so a subtree whose cache is too small can be skipped |
| TaskMmap.SearchArea | src/mm/mmap.c:2027-2112 | the search gives exactly what a linear scan gives, top-down below mmap_base and then bottom-up, or bottom-up from mmap_base; the range is free in the address space that was searched |
| TaskMmap.ScanExactly | src/mm/mmap.c:2027-2112 | what the searches give, in terms of free addresses alone: top-down the highest below mmap_base, else the lowest from the fallback base on; bottom-up the lowest from mmap_base on; nothing exactly if there is none |
| TaskMmap.GetUnmappedArea | src/mm/mmap.c:2115-2155 | a fixed address is taken as it is if it is aligned and fits; otherwise the place is the hint if that range is free and within bounds, and what the scan finds if not; the errno is exact but for a hook that denies |
| TaskMmap.PlaceExactly | src/mm/mmap.c:2027-2155 | a mapping that is not fixed goes to the page of its hint, or to mmap_min_addr if that is higher, when the hint is not in page 0 and the range there is free and in user space; else where the scan says; to no place if it could not lie above mmap_min_addr |
| TaskMmap.HintExactly | src/mm/mmap.c:1274-1281 | round_hint_to_min gives 0 for page 0, and otherwise the page of the hint or mmap_min_addr if that is higher |
| TaskMmap.SearchedElsewhere | src/mm/mmap.c:1918-1921 | a caller with nothing mapped is given a page where the task has an area, and the mapping replaces what the task had there |
| TaskMmap.OwnKept | src/mm/mmap.c:2115-2155 | a mapping that is not fixed replaces no page of the address space that was searched, so a task that maps into its own loses nothing |
| TaskMmap.GrantProper | src/mm/mmap.c:1358-1411 | whatever is asked for, granted permissions are within the MAY bits, and a shared mapping of a file not open for writing has neither VM_WRITE nor VM_MAYWRITE |
| TaskMmap.RefusedExactly | src/mm/mmap.c:1358-1432 | the checks grant a mapping if and only if its type is one of two, a growing one is private and without a file, and the open file can be read and mapped, may be shared for writing if that is asked, is not under a mandatory lock, and executed only off noexec mounts; each refusal has its errno |
| TaskMmap.GrantExact | src/mm/mmap.c:1344-1446 | the flags that come out of all checks are, bit by bit, those that the request determines: permissions, MAY bits, sharing, VM_LOCKED, VM_GROWSDOWN, VM_NORESERVE, VM_ACCOUNT and def_flags; file and offset too |
| TaskMmap.DoTaskMmap | src/mm/mmap.c:1301-1454 | success lays exactly the determined file, offsets and flags over the determined place, and nothing that was mapped is replaced if and only if no area of the task meets that place, which can be computed before the call. It succeeds only if, and when everything is granted exactly if, length and offset do not overflow, there are not too many areas, there is a place, the file and the type of mapping permit it, the limits leave room and what is in the way can be unmapped; each reason has its errno. total_vm is within the limit while it is the page sum; failure leaves the range all kept or all removed and nothing else touched; the charge drifts exactly when the driver operation fails for a private, writable, reserved mapping |
| TaskMmap.WantExactly | src/mm/mmap.c:1321-1323 | PROT_EXEC is added exactly if PROT_READ is asked for, the personality says that it implies it, and the file is not on a noexec mount |
| TaskMmap.MapAt | src/mm/mmap.c:1344-1454 | at a place that is known: exactly the determined flags are laid over it, and the errno is that of the checks, the limits and the unmapping |
| TaskMmap.GrantWillCharge | src/mm/mmap.c:1434-1446 | the granted mapping is charged for exactly when it is private and writable, not of a hugetlb file, and MAP_NORESERVE is absent or not honoured |
| TaskMmap.DriverDrift | src/mm/mmap.c:1790-1807 | a private writable mapping of a file that is granted and charged for: with a failing driver operation its page stays charged |
| Mmap.CountVmaPagesRange | src/mm/mmap.c:507-533 | the exact number of mapped pages in the range |
| Mmap.MayExpandExactly | src/mm/mmap.c:3153-3174 | while sums do not wrap around: the bytes stay within RLIMIT_AS, and those of private writable areas other than stacks within RLIMIT_DATA, unless that is not enforced or is 0 and they are within its hard limit |
| Mmap.PlaceArea | src/mm/mmap.c:1690-1753 | a neighbour is extended or a new area linked, backed by a shmem file when it is shared memory without a file; when clones are granted a neighbour is extended if and only if one can be; on failure the list is unchanged |
| Mmap.PlaceNew | src/mm/mmap.c:1700-1807 | the file reference is taken before the driver operation and dropped when that fails: afterwards one is held per area, on every path |
| Mmap.MapVacant | src/mm/mmap.c:1680-1808 | on vacant pages the mapping shows exactly the request and all counters follow; every failure refunds the charge, except that of the driver |
| Mmap.ClearOldMaps | src/mm/mmap.c:1671-1675 | the clearing loop takes at most one round and leaves the range free, every counter less by exactly the pages that were there; or it fails, with memory granted only where unmapping is hindered, and the view is unchanged |
| Mmap.MmapRegion | src/mm/mmap.c:1645-1808 | success changes the view exactly on the range and leaves total_vm within the limit while it is the page sum, because the pages replaced are counted exactly; it succeeds only if the limits leave room and what is in the way can be unmapped, and when everything is granted exactly then; failure keeps or removes the whole range; the charge drifts exactly when the driver operation of an accountable mapping fails |
| Mmap.MergedFinish | src/mm/mmap.c:1765-1786 | after a merge the finishing touches show nowhere: VM_LOCKED is never cleared on pages that were mapped before |
| Mmap.SettledExactly | src/mm/mmap.c:1766-1773 | VM_LOCKED is lost exactly by mappings that are special or of huge pages, and no other bit is |
| TaskMmap.DoBrk | src/mm/mmap.c:2883-2964 | a request of 0 does nothing, one that overflows fails; otherwise the heap pages, rounded up, show exactly at an aligned place that MAP_FIXED would be granted, counted as data and charged; with memory granted it fails exactly where the place is bad, the limits forbid it, what is in the way cannot be unmapped or too many areas are left; failure keeps or removes the whole range |
| TaskMmap.BrkIsMmap | src/mm/mmap.c:2883-2889 | do_brk maps what a fixed private mapping of anonymous memory with the same permissions would map |
| Mmap.BrkRegion | src/mm/mmap.c:2914-2964 | from the clearing loop on: exactly the heap request is laid over the view, with all counters following; with memory granted it succeeds exactly if the old maps can go, the limits leave room without their pages, and not too many areas are left |
| Mmap.EnoughMemory | src/mm/util.c:547-626 | the pages stay charged on success and are refunded on failure |
| StackGrowth.ExpandDownwards | src/mm/mmap.c:2351-2414 | growth maps exactly the new pages with offsets continued downward, updates the gap in front and leaves the area with an anon_vma; it succeeds only within the limits on memory and stack size and the offsets, and with memory granted exactly then; the charge drifts by the growth exactly when the area is not accounted |
| StackGrowth.FindExtendVma | src/mm/mmap.c:2471-2490 | a returned area contains the address; a mapped address is always found; at an unmapped one the first area above grows only if it is a stack that can, and with memory granted exactly then; the charge drifts by exactly the pages of an area that is not accounted |
| StackGrowth.StackDrift | src/mm/mmap.c:2228-2270 | a proper stack without VM_ACCOUNT that can grow by a page which is charged and not accounted |
| Mprotect.Isolate | src/mm/mprotect.c:316-326 | splitting off the piece does not show in the view, whether or not both splits succeed; with memory granted they do exactly if as many more areas are allowed as cuts are made and no huge page is cut |
| Mprotect.ChangeArea | src/mm/mprotect.c:299-331 | the piece shows the new flags and nothing else changes, whether it was merged or split off; with memory granted one of the two happens exactly if the piece can be merged or isolated |
| Mprotect.MprotectFixup | src/mm/mprotect.c:263-355 | on success exactly the piece has the new flags, with VM_ACCOUNT when it became chargeable, and all counters follow; on error the view is unchanged and the charge refunded; with memory granted it fails exactly when RLIMIT_DATA forbids it or the piece can be neither merged nor isolated |
| Mprotect.FixedProt | src/mm/mprotect.c:427-441 | bit by bit: read and write are set if and only if they are asked for, execute also where PROT_READ implies it and VM_MAYEXEC is set, VM_ACCOUNT is added exactly to private pages that become writable and are not exempt, every other bit is kept; asking again changes nothing |
| Mprotect.WithinMayMeans | src/mm/mprotect.c:443-447 | the test against the MAY bits passes exactly if each permission asked for is one that the page may have |
| Mprotect.ProtectRange | src/mm/mprotect.c:413-472 | there is a cut point: all pages before it are mapped, could have the permissions asked for and have them, bit by bit, while every other bit but VM_ACCOUNT is as before and that is set exactly on pages that became chargeable; none after it changed; also when a merge makes the loop jump past the requested piece. Without limits in the way it stops only at a page that is not mapped, with ENOMEM, or whose MAY bits forbid it, with EACCES |
| Mprotect.DoMprotect | src/mm/mprotect.c:357-476 | the effective range is the pages of the bytes given, with PROT_GROWSDOWN or PROT_GROWSUP from the start or to the end of the first area; each bad argument has its errno and changes nothing; up to the cut point the pages have exactly the permissions asked for, and success means that this is the end. Without limits in the way it succeeds if and only if every page of the range is mapped and may have them, and otherwise stops at the first that may not |
| Mprotect.ProtectStep | src/mm/mprotect.c:457-464 | pages skipped by the jump already had what was asked for |
| CopyVma.NoSelfMerge | src/mm/mmap.c:3098-3114 | only an anonymous area that was never faulted in can be merged with its own copy, so the VM_BUG_ON does not fire |
| CopyVma.Copy | src/mm/mmap.c:3072-3147 | the copy shows the source's file, flags and continued offsets on the new range and nothing else changes; the source is where it was or inside the new area; it fails where the range is taken, and with memory granted only there |
| Mremap.RestoreCarved | src/mm/mremap.c:316-353 | concealing VM_ACCOUNT, unmapping part of the area and restoring the flag on the one or two pieces left is the same as unmapping alone |
| Mremap.RetireAccounted | src/mm/mremap.c:316-353 | the counters come out exact and the charge moves by the unmapped pages, whether the unmapping succeeds or fails |
| Mremap.CopyLag | src/mm/mremap.c:324-335 | how far each counter is behind or ahead of the list between the copy and the accounting |
| Mremap.MoveVma | src/mm/mremap.c:251-361 | success shows the source at the new place with offsets continued and the old range gone, unless old_len is 0 or the last unmapping fails; failure undoes the copy; a place that meets an area is refused with nothing changed; what is charged ahead is accounted for on each path; when everything is granted it fails only for too many areas or a place that is taken |
| Mremap.VmaToResize | src/mm/mremap.c:363-414 | the area found contains the whole source range, the growth is within the limit, and exactly the growth of an accounted area is charged; the errno of every refusal is exact |
| Mremap.MremapTo | src/mm/mremap.c:422-477 | success relocates exactly the source to the chosen place and drops a tail; failure touches nothing outside the new range and the tail and keeps the first pages of the source. When everything is granted it succeeds exactly if the destination is one it takes and can be unmapped, then the tail, and then the source can be resized and moved; in between the lists are those with exactly these pages gone |
| Mremap.MoveTrimmed | src/mm/mremap.c:452-477 | once the destination is clear and the tail gone: the source is relocated exactly, and the errno is that of resizing and moving |
| Mremap.GrowInPlace | src/mm/mremap.c:547-580 | growth in place maps exactly the pages after the area, and puts the counters of its classes off by exactly what the cut to an int loses; when everything is granted it happens exactly if nothing lies in between, the end is in user space and the grown area would be granted its place |
| Mremap.RegrownExact | src/mm/mremap.c:565-565 | the counters stay exact if and only if fewer than 2^31 pages were added |
| Mremap.GrowthMiscounts | src/mm/mremap.c:565-565 | an area with room to grow by 2^31 pages, which the int takes for -2^31 |
| Mremap.Int32Exact | src/mm/mremap.c:565-565 | a page count survives the cut to an int exactly when it is below 2^31 |
| Mremap.MremapTask | src/mm/mremap.c:498-614 | the view after success is exactly the shrunk, grown or relocated one, and the address returned says where; a move that is not fixed goes to the place that the search of the caller's list finds, and only if that is free in the task's. When everything is granted: bad arguments give EINVAL; shrinking fails only if the tail cannot be unmapped; growing happens in place if and only if the source ends its area and there is room behind it, otherwise by a move if that is allowed and there is a place, and the errno of each refusal is exact. After failure the first min(old, new) pages of the source are mapped as before; the counters are put off only by growth in place, and by exactly what the int loses |
| Mremap.OwnObtainable | src/mm/mremap.c:586-600 | in its own address space a task is always given a place that is free |
| Mremap.MoveRefused | src/mm/mremap.c:586-600 | a caller and a task for which the place found is taken in the task, so that it cannot be moved although there is room |
| PageTables.MovedFurther | src/mm/mremap.c:200-240 | moving a stretch and then the next is moving both |
| PageTables.MovedEntry | src/mm/mremap.c:155-172 | each entry of the source is at the same distance in the destination, soft-dirty, and no longer in the source |
| PageTables.MovedBack | src/mm/mremap.c:299-310 | moving entries to an empty range and back restores every entry but for soft-dirty bits |
| PageTables.PageTable.MovePtes | src/mm/mremap.c:104-180 | exactly the entries of a stretch inside one page-table page on each side move to the same offset |
| PageTables.PageTable.Extent | src/mm/mremap.c:202-206 | a stretch is never empty and does not cross a page-table page |
| PageTables.PageTable.MovePageTables | src/mm/mremap.c:184-249 | every round makes progress; exactly the entries of the first `done` pages have moved; it stops at the first entry whose source has a page-table page and whose destination lacks one that the allocator refuses, and nowhere else |
| PageTables.PageTable.MoveOrUndo | src/mm/mremap.c:290-314 | when the move fails, the table is as before but for soft-dirty bits if and only if nothing was mapped where the way back did not get; if the move is undoable it always is |
| PageTables.BackExact | src/mm/mremap.c:299-310 | of k entries that moved away the first m came back: all is restored if and only if the others were empty |
| PageTables.UndoExact | src/mm/mremap.c:299-310 | whatever the allocator answers there and back, a failed move loses no entry if and only if it is undoable: wherever it may end, nothing is mapped from the first page on that lacks a page-table page for the way back |
| PageTables.BackedUndoable | src/mm/mremap.c:299-303 | a move is undoable when all page-table pages of the source are there, which the comment takes for granted |
| PageTables.UndoLoses | src/mm/mremap.c:299-310 | a table and answers of the allocator with which the entry of a page stays behind |
| Session.Serve | src/kernel/ptrace.c:1224-1238 | any request keeps list, tree, gaps, references and permissions exact, and one that succeeds has had its effect on the page view: mapped, cleared, reprotected, remapped or grown; each counter is the page sum and what it is off by, which moves exactly by the pages of a failed driver operation, of a stack that is not accounted, or of growth in place by 2^31 pages or more |
| Session.ServeAll | src/kernel/ptrace.c:1224-1238 | the invariant holds after any sequence of requests, and every counter is the page sum of its class and what the flaws of the run, each named with its request, add up to |
| Session.FlawlessExact | src/mm/mmap.c:3176-3186 | without such flaws, counters that were the page sums still are |
| FdTable.FullSkip | src/fs/file.c:480-492 | words marked full contain no free number, so they can be skipped |
| FdTable.Fdt.SetOpenFd | src/fs/file.c:257-263 | sets exactly one bit and keeps the full bits exact |
| FdTable.Fdt.ClearOpenFd | src/fs/file.c:265-269 | clears exactly one bit and keeps the full bits exact |
| FdTable.Fdt.FindNextFd | src/fs/file.c:480-492 | the two-level search finds the first free number, as a bit-by-bit scan would |
| FdTable.FindNextZeroBit | src/fs/file.c:486-491 | the first clear bit from the start on, or the size |
| Descriptors.TableSizeFits | src/fs/file.c:104-157 | a table has whole words and never more than the limit in whole words or about twice what is needed; it has room for the number asked for if and only if that lies below the limit in whole words |
| Descriptors.CopyExact | src/fs/file.c:68-84 | the full bits copied with the open bits are right in the new table, spare bits included |
| Descriptors.CopyFdtable | src/fs/file.c:90-102 | the new table holds the old slots and bits and nothing more, full bits exact |
| Descriptors.Files.ExpandFdtable | src/fs/file.c:166-201 | after growth the table exceeds the number asked for and every slot and bit is as before; an error changes nothing; without lack of memory it fails exactly when the limit in whole words lies below the number, with EMFILE |
| Descriptors.Files.ExpandFiles | src/fs/file.c:211-244 | the same, growing exactly when it has to: a number within the table never fails, and ENOMEM comes only from an allocation that was needed |
| Descriptors.Files.NextFree | src/fs/file.c:508-514 | starting at the hint finds the lowest free number from `start` on |
| Descriptors.Files.AllocFd | src/fs/file.c:497-553 | returns the lowest free number from `start` on and below `end`, now open with its close_on_exec bit set as asked and its slot empty; nothing else changes; EMFILE exactly if that number is not below `end`, or is outside the table and the table may not grow to it; ENOMEM only if the table had to grow |
| Descriptors.Files.PutUnusedFd | src/fs/file.c:566-572 | the number is free again and everything below next_fd still open |
| Descriptors.Files.FdInstall | src/fs/file.c:604-623 | a reserved empty slot gets the file, and the caller's own reference becomes the slot's; no other slot and no bit changes |
| Descriptors.Files.CloseFd | src/fs/file.c:635-656 | empties an occupied slot, frees its number and drops its reference; otherwise EBADF and no change |
| Descriptors.Files.DoDup2 | src/fs/file.c:833-875 | a reserved number is busy; otherwise the slot gets the file with a reference of its own and what it held is dropped |
| Descriptors.Files.DoCloseOnExec | src/fs/file.c:658-692 | exactly the occupied slots with the bit are emptied, freed and dropped; all bits are cleared |
| Descriptors.Files.CloseFiles | src/fs/file.c:386-416 | every slot is empty and no reference left |
| Descriptors.Files.CountOpenFiles | src/fs/file.c:271-283 | whole words, no open number behind them, and one in the last of them unless it is the first |
| Descriptors.DupFd | src/fs/file.c:290-384 | the new table has the same files in the same slots with a reference each, and exactly those numbers open: reserved ones are free in it; without lack of memory it fails exactly when the open numbers of the old one no longer fit the limit |
| RemoteFiles.DupAcross | src/kernel/ptrace.c:942-999 | the file gets the lowest free number of the other table, with the close_on_exec bit as asked and one reference; bad flags, a bad descriptor, and a number out of reach each have their errno, ENOMEM only comes when the table had to grow, and on error no slot, bit or reference changes; on every path the caller holds the references of its own that it held before; also when both tables are the same |
| RemoteFiles.Fget | src/fs/file.c:694-737 | the file in the slot unless its mode is in the mask, with one more reference of the caller's own if there is one |
| RemoteMmap.DoMmapRemote | src/mm/mmap.c:1468-1516 | the file of the tracer's descriptor, or none, is mapped into the tracee as do_task_mmap does it; a bad descriptor or one opened with O_PATH gives EBADF and changes nothing; huge pages come from a hugetlb file and in whole huge pages, and MAP_HUGETLB on another file is EINVAL; when everything is granted the errno is exact; on every path the reference taken for the call is dropped |
| RemoteMmap.AskedAsPassed | src/mm/mmap.c:1468-1516 | every argument of the call reaches do_task_mmap unchanged, but for the length of a mapping of huge pages |
| RemoteMmap.AlignBound | src/mm/mmap.c:1481-1482 | that length is rounded up to whole huge pages, and comes to 0 exactly when that overflows |
| RemoteMmap.VmMmapRemote | src/mm/util.c:327-355 | an offset that is not whole pages, or a range that wraps around, gives EINVAL and changes nothing; otherwise the request and the errno are do_task_mmap's |
| RemoteFiles.Dup2ToRemote | src/fs/file.c:899-929 | the chosen slot of the tracee gets the tracer's file, what it held is dropped; on error nothing changes but the size. EINVAL for bad flags, EBADF for a number or a slot that is out of reach or empty, EBUSY for a number that is only reserved, each exactly then |
| RemoteDup.AliveExactly | src/fs/file.c:899-929 | in every run with others the file still has a reference when get_file is called, if and only if both tables are one or the tracer is the only user of its own (files->count is 1) |
| RemoteDup.ClosedMeanwhile | src/fs/file.c:914-924 | a run in which the number is closed in the seat of another user, by that one or by who traces it, between the look and the reference |
| FileRefs.RefsAreUses | src/mm/mmap.c:165-177 | for every file, references held for tables and address spaces in order equal the slots and areas that hold it |
| FileRefs.ServeSteps | src/kernel/ptrace.c:1224-1254 | after any sequence of dup, dup2, close, exec, exit and fork between any tables, of mapping files from their slots, and of mmap, munmap, mprotect, mremap, brk and stack growth in any address spaces, on success and error paths alike, callers hold no references of their own and every file has exactly as many references as slots and areas hold it |
| FileRefs.ServeStep | src/kernel/ptrace.c:1224-1254 | each request leaves the callers with the references of their own that they had before |
| FdProtocol.Keep | src/fs/file.c:166-244 | every step of every task keeps the protocol's invariant |
| FdProtocol.KeepStore | src/fs/file.c:615-621 | the lock-free store keeps the invariant, by which it goes to the table in force and no copy of that table has been made yet |
| FdProtocol.KeepWait | src/fs/file.c:175-179 | the grace period keeps the invariant, by which no task is past its check afterwards: with one user there is no other task inside, with more all of them are waited for |
| FdProtocol.NothingLost | src/fs/file.c:604-623 | in every interleaving, from the step that installs a file until a step closes or replaces it, the table in force holds it in its slot, whatever resizes come between |
| FdProtocol.NoBug | src/fs/file.c:604-623 | in every interleaving the BUG_ON of the install, the BUG_ON of the expansion and the slot check of the allocation never fire |
| FdProtocol.ReservedStays | src/fs/file.c:833-875 | in every interleaving a reserved number stays reserved and its slot empty until its owner stores into it or releases it, however many steps of others come between |
| FdProtocol.NoLeak | src/fs/file.c:566-579 | in every interleaving that starts without reservations a number is open if and only if its slot holds a file or exactly one task has reserved it: what is closed or released is free again |
| FdProtocol.CallsAllowed | src/fs/file.c:833-875 | while the lock is free a number can be reserved exactly if it is empty and nobody has reserved it, closed exactly if it holds a file, and be the target of dup2 exactly if nobody has reserved it |
| FdProtocol.CallsDo | src/fs/file.c:635-656 | such a call reserves, releases, closes or replaces that one number, and no other slot changes |
| FdProtocol.NeverStuck | src/fs/file.c:166-201 | in every interleaving a task in the middle of a call can go on by itself, an install without any lock; only a resizer in its grace period waits, for tasks in the read section that can all go on, and who wants the lock waits for one that can |
| FdProtocol.InstallAlone | src/fs/file.c:604-623 | an install that no resize comes between puts its file into its slot and changes nothing else |
| FdProtocol.ResizeAlone | src/fs/file.c:166-201 | a resize that is let alone ends with a table of the new size, the same files and the same open numbers, flag and lock given up |
| PtraceStop.Keep | src/kernel/ptrace.c:163-249 | every step of every tracer, tracee, signal and event keeps the invariant of the stop protocol, also the write of an unfreezing that comes too late |
| PtraceStop.FrozenOnlyInRequest | src/kernel/ptrace.c:163-194 | in every run a tracee is frozen only inside a request of its own tracer, with no other task in a request on it, and no tracee with SIGKILL pending is asleep killably |
| PtraceStop.FreezesExactly | src/kernel/ptrace.c:163-179 | the attach check freezes the child exactly if it is the caller's tracee, stopped, not listening and without SIGKILL pending; otherwise nothing happens |
| PtraceStop.AtAnyMoment | src/kernel/ptrace.c:163-194 | SIGKILL can come at any moment and wakes a tracee that sleeps killably, but not one that is frozen; nothing but the stop itself keeps a tracee from running on, dying and being released |
| PtraceStop.NotExecuting | src/kernel/ptrace.c:213-249 | while a tracer acts on a child it froze, the child is its tracee, scheduled out, and nothing else can wake it |
| PtraceStop.EveryPathThaws | src/kernel/ptrace.c:1312-1319 | in every run, from the step that freezes a tracee to the end of the request, the child is the same and, unless dead and released, the tracer's own; the request ends by giving up, detaching, finding the child awake or unfreezing it, and then it is not frozen; detached it runs untraced; unfrozen it is awake if SIGKILL is pending and asleep killably if not; unless the request was PTRACE_LISTEN, unfreezing finds it frozen and asleep |
| PtraceStop.NeverStuck | src/kernel/ptrace.c:1284-1324 | in every run a caller in a request can take its next step, unless the child it has frozen has yet to schedule out; then the child can, and after that the caller |
| PtraceStop.RequestAlone | src/kernel/ptrace.c:163-194 | a request that leaves the child asleep, with nothing in between, leaves the child as it was |
| PtraceStop.KilledMeanwhile | src/kernel/ptrace.c:163-194 | with SIGKILL in the middle the child stays frozen for the request and runs after it |
| PtraceStop.ResumeAlone | src/kernel/ptrace.c:163-194 | a request that wakes the child leaves it running, and the unfreezing leaves it alone |
| PtraceStop.NoWarning | src/kernel/ptrace.c:181-249 | both warnings of the attach check, before freezing and after waiting in vain, are never given, nor the one in the unfreezing if the child was not listening at the look |
| PtraceStop.ThawExactly | src/kernel/ptrace.c:181-194 | in every run the locked write of the unfreezing finds the child frozen and asleep, if and only if the child was not listening when it was looked at without the lock; the same of its warning staying away |
| PtraceStop.WokenMeanwhile | src/kernel/ptrace.c:1122-1148 | a run in which an event wakes a listening child between the look and the write, which then puts a running task into TASK_TRACED |
| PtraceStop.GoneMeanwhile | src/kernel/ptrace.c:181-194 | a run in which that child is dead and released when the warning is evaluated |
| PtraceLink.LinkKeeps | src/kernel/ptrace.c:70-78 | linking keeps every task on exactly its tracer's list with one credential reference |
| PtraceLink.UnlinkKeeps | src/kernel/ptrace.c:108-122 | unlinking does too |
| PtraceLink.OnOneList | src/kernel/ptrace.c:70-78 | a task has ptrace flags if and only if it is on a list, that list is its parent's, and it then holds a credential |
| PtraceLink.TaskList.Link | src/kernel/ptrace.c:70-78 | the BUG_ON on a task that is already on a list cannot fire |
| PtraceLink.TaskList.Attach | src/kernel/ptrace.c:332-434 | success links a live, untraced task of another group that is no kernel thread to the caller, with exactly the flags of the request and its options, and changes no other task; options outside the mask are EIO; each refusal has its errno, and without a policy or a signal in the way there is no other; an error changes nothing |
| PtraceLink.AttachedBits | src/kernel/ptrace.c:339-348 | an attached task is traced, seized exactly if that was asked for, and has each event option and EXITKILL exactly if it was seized with it |
| PtraceLink.BitMeans | src/kernel/ptrace.c:554-555 | the test for a flag looks at that bit alone, whatever the bits above and below it |
| PtraceLink.TaskList.Traceme | src/kernel/ptrace.c:442-463 | success links the caller to its real parent, unless that is exiting; a task that is traced already gets EPERM, and unless a policy denies it no other does |
| PtraceLink.TaskList.ForkInit | src/include/linux/ptrace.h:198-217 | a new task is traced by its creator's tracer with the same flags, when wanted and the creator is traced |
| PtraceLink.TaskList.DetachOne | src/kernel/ptrace.c:493-516 | the task is unlinked, and left to be reaped exactly when nobody will wait for it |
| PtraceLink.WhoIsReaped | src/kernel/ptrace.c:499-515 | on the spot are reaped: no live task, every zombie thread but a leader, no leader with other threads left, any other leader exactly if its parent, told of it or the tracer itself, does not care |
| PtraceLink.TaskList.ExitPtrace | src/kernel/ptrace.c:549-560 | the list ends up empty, every tracee is back with its real parent and untraced, those marked are killed, and exactly the tasks that must be reaped are collected |
| PtraceLink.TraceeFate | src/kernel/ptrace.c:549-560 | a tracee of the one that exits is with its real parent again and untraced, and it is killed exactly if it was seized with EXITKILL or had been killed before |
| PtraceLink.TaskList.DetachFrom | src/kernel/ptrace.c:518-543 | ESRCH unless the child is the caller's own live tracee, EIO for a signal that is none, each exactly then and with nothing changed; otherwise it is detached, and the BUG_ON in unlink and the warning in detach do not fire |
| PtraceLink.TaskList.ReleaseTask | src/include/linux/ptrace.h:225-230 | a task that has exited is unlinked and released and no other is touched, and neither BUG_ON of its release fires |
| PtraceLink.TaskList.LeaveTracees | src/kernel/ptrace.c:549-560 | after exit_ptrace an exiting task traces nobody and is marked as past it, so that the invariant lets nobody be linked to it again; every other task has met its fate, and exactly the tasks that must be reaped are collected |
| PtraceLink.TaskList.Serve | src/kernel/ptrace.c:1284-1324 | any call of any task keeps the links, and a task past exit_ptrace without tracees; it fails without effect or has exactly its own effect on all tasks, and unless it is denied it fails only where it must |
| PtraceLink.ServeAll | src/kernel/ptrace.c:1284-1324 | after any sequence of attach, traceme, fork, detach, exit and release from the first task on, a task has ptrace flags if and only if it is on exactly its parent's list, and then holds that one's credential |

## Left out

- src/mm/gup.c, change_protection and page faults: they depend on code that is not part of this model.
- Huge pages in move_page_tables, and huge-page policy elsewhere: only the alignment test of a split is modelled.
- Red-black balancing: any rotations are allowed instead.
- anon_vma chains, interval trees, memory policy, uprobes, KSM and userfaultfd: the tests on them are compared as opaque values or chosen freely.
- vmacache: only the tree descent of find_vma is modelled.
- locked_vm and population: the limit tests on locked memory are free choices; VM_LOCKONFAULT is not told apart from other bits.
- Drivers that change an area's address, flags or file in their mmap operation.
- Protection keys, and the architecture's own test of protection bits.
- Addresses that a file or shmem chooses by an operation of its own; the areas of hugetlb files.
- Compat entry points, copying arguments from user space, register sets, siginfo, capabilities and audit.
- Special mappings, mm_take_all_locks, reserve notifiers and the string helpers: easy or unrelated.
- Weak memory: steps are sequentially consistent, with the grace period as an explicit wait.
- Job control in __ptrace_unlink (reinstating a group stop) and reparenting when a real parent exits.
- Task release, events and ptrace_stop itself are steps of `PtraceStop` as the comments in ptrace.c describe them; their code is not part of this model. A task may stop with SIGKILL pending; what it cannot do then is to schedule out, unless it is frozen.
- VmaIndex.LinkShape: the list is a sequence here; the pointers that spell it, in place, are those of VmaChain, kept in step by LinkBoth and DetachBoth.
- Mmap.EnoughMemory: the overcommit policy is a free choice, because its inputs are free memory, swap and sysctls.
- Mremap.MoveVma: whether the page tables move is a free outcome; PageTables says what becomes of the entries. The zapping of entries by an unmapping is not part of this model.
- Descriptors.Files.ExpandFdtable: the lock stays held; FdProtocol has the steps in between.
- Descriptors.Files.ExpandFiles: waiting for another resize is covered by FdProtocol only.
- Descriptors.Files.AllocFd: no other task changes the table while it grows, so the lowest free number before the call is the one returned.
- Descriptors.Files.DoCloseOnExec: no other task changes the table while a file is being closed; FdProtocol has closes among the steps of others.
- Descriptors.DupFd: the old table does not change while the new one is being allocated.
- RemoteFiles.Fget: without the retry when a file is being freed, because the table is not being changed meanwhile.
- TaskMmap.GrantExact: without VM_DENYWRITE, which do_mmap_remote does not let through, and protection keys.
- TaskMmap.GetUnmappedArea: without the get_unmapped_area operations of files and of shmem.
- RemoteFiles.Dup2ToRemote: the tracer's slot is read in one step; RemoteDup has what other tasks do meanwhile.
- PtraceLink.TaskList.Attach: without SIGSTOP and the wait for a stopped task to trap; whether the credential mutex is interrupted and access is denied are free choices.
- PtraceLink.TaskList.ForkInit: without the stop that awaits a new tracee.
- TaskMmap.GrantProper: drivers are taken not to edit the flags afterwards.
