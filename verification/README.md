# Density: queues and stack allocation, in Dafny

A Dafny model of the C++ library *density*: its paged heterogeneous FIFO (`heter_queue`), its paged stack
allocator (`lifo_allocator`) with the arrays and buffers on top of it, its mutex-protected queue
(`conc_heter_queue`), and the address arithmetic all of them rest on. `dafny verify dfyconfig.toml` checks it.

## How it is built

- **Arithmetic.** `Bits` defines the bitwise operations on integers of any size, `Align` the alignment functions
  with the masks the library uses and what they mean, `DivMod` the few facts about remainders they need.
  `AlignedHeap` is over-aligned allocation on top of `operator new`, with the saved back pointer.
- **The underlying allocator.** `Allocators.Allocator` is the documented contract of pages and heap blocks: any
  placement that respects alignments and overlaps nothing in use may be returned, and any request may fail.
- **The queue, abstractly.** `Fifo` knows elements being put, elements that can be consumed and elements being
  consumed, and nothing of addresses. Its invariant and its theorems are about every run of its operations.
  `FifoEnds` says what each operation does to the entries, and when nothing is left of them.
- **The queue, in memory.** `QueueLayout` says how words, flags, descriptors and objects in pages represent a
  sequence of slots, and which pages and heap blocks it owns. `HeterQueues.HeterQueue` is a class with the fields of
  the C++ class; its methods follow the C++ bodies, and their contracts tie every call to one abstract operation,
  while `Valid()` keeps the whole representation, including that the state is the result of the logged operations.
- **The stack allocator.** `LifoLayout` says how one integer and the page headers represent the stack of living
  blocks; `LifoAllocators.LifoAllocator` is the class. `LifoArrays` is what is built on it.
- **The concurrent queue.** `ConcModel` cuts every call of `conc_heter_queue` and of its handles into small steps,
  which threads interleave in any way. `ConcDiscipline` states the lock discipline as a property of the code that a
  thread has still to run; `ConcQueues` derives that every run is a run of sequential queues; `ConcCalls` says what a
  whole call does, from its beginning to its return, whatever the other threads do meanwhile. `ConcRebind` is about
  the one call that breaks the discipline. `ConcDeadlock` says which pairs of mutexes a call demands and derives when
  no threads ever wait for each other; `ConcContention` gives the exact condition for given calls.

## What was found

In five places the code does not do what a caller may expect of it. It is modelled as it is, with the exact condition
and an input for each:

1. `next_valid` masks its first hop with 3 instead of all the flags. From an element in an external block it lands
   four bytes behind the next control block (`QueueIteration.FirstHopExactly`). One put that is too large for a page
   is enough (`QueueWitness.ExternalHop`).
2. `aligned_allocate` may write its header before the beginning of the raw block, for example with alignment 8 and
   offset 4 (`AlignedHeap.HeaderInsideExactly`, `AlignedHeap.HeaderOutsideWitness`). The queues and the stack
   allocator always use offset 0.
3. The compile-time checks of `heter_queue` do not imply that an external block descriptor fits in a page; if it does
   not, placing it never ends (`QueueConfigs.DescriptorExactly`, `QueueConfigs.MisfitRegimes`,
   `QueueConfigs.ChecksNotEnough`).
4. Starting a reentrant consume on the queue its handle already points to releases the mutex before it accesses the
   queue (`ConcDiscipline.CallGuarded`, `ConcRebind.RebindExactly`, `ConcRebind.ConsumeDuringPut`).
5. Moving a reentrant consume handle to another queue locks the old mutex and then the new one. Threads doing so
   around a ring of queues can wait for each other forever (`ConcContention.RingExactly`,
   `ConcContention.TwoCallsExactly`, `ConcContention.CycleFromStart`). It cannot happen, with any number of threads
   and handles, if calls lock mutexes in the order of some rank (`ConcDeadlock.NoDeadlock`).

## Model

| member | source | states |
|---|---|---|
| Bits.AndIsBitwise | include/density/density_common.h:109-113 | The recursive `And` on integers is the machine operation: bit by bit, for every bit. |
| Bits.XorIsBitwise | include/density/lifo.h:237-242 | The same for `Xor`. |
| Bits.OrIsBitwise | include/density/heter_queue.h:2826 | The same for `Or`, which sets the external flag. |
| Align.PowerOf2Test | include/density/density_common.h:109-113 | On a word of any width, `n & (n - 1)` is zero if and only if `n` is a power of two or zero. |
| Align.LowerAlignGreatest | include/density/density_common.h:198-208 | Lower alignment gives the greatest aligned address that is not above the given one. |
| Align.UpperAlignLeast | include/density/density_common.h:264-274 | Upper alignment gives the least aligned address that is not below the given one. |
| Align.LowerAlignAtGreatest | include/density/density_common.h:231-240 | The variant with an offset gives the greatest address whose byte at the offset is aligned. |
| Align.UpperAlignAtLeast | include/density/density_common.h:324-333 | The same for upper alignment. |
| Align.LowerMask | include/density/density_common.h:310-317 | The complement mask of a word computes lower alignment, for every word and every power of two. |
| Align.UpperMask | include/density/density_common.h:296-303 | The mask expression computes upper alignment if and only if the addition does not overflow; otherwise it gives zero. |
| Align.SameFrameMask | include/density/heter_queue.h:2674-2679 | The exclusive-or test for "same page" holds if and only if both addresses are in the same aligned frame. |
| Align.SizeLog2Inverse | include/density/density_common.h:396-399 | `size_log2` inverts powers of two. |
| AlignedHeap.UserBlockContained | include/density/density_common.h:477-486 | The user block is aligned at its offset and inside the raw block, for every raw address. |
| AlignedHeap.HeaderInsideExactly | include/density/density_common.h:480-482 | The back-pointer header is inside every raw block that `operator new` may return, at any non-null aligned address, if and only if a condition on alignment and offset holds. |
| AlignedHeap.HeaderOutsideWitness | include/density/density_common.h:480-482 | A concrete call for which the header is before the raw block. |
| AlignedHeap.Heap.AlignedAllocate | include/density/density_common.h:460-488 | A grant is aligned, disjoint from all others, and its header leads back to its raw block; it may also fail, as the `try_` variant does, and then nothing changes. |
| AlignedHeap.Heap.AlignedDeallocate | include/density/density_common.h:564-595 | With the arguments of the allocation, exactly the original raw block is released, with its original size. |
| AlignedHeap.GrantsApart | include/density/density_common.h:460-488 | No two living user blocks overlap, nor does one overlap the header of another. |
| Fifo.ApplyKeepsInv | include/density/heter_queue.h:2860-2962 | Every operation keeps order, conservation (committed = visible + being consumed + consumed) and uniqueness. |
| Fifo.RunKeepsInv | include/density/heter_queue.h:2860-2962 | So does every run, of any length, with any number of open handles. |
| Fifo.VisibleChange | include/density/heter_queue.h:2860-2962 | What each operation changes of the visible sequence: committing a put and canceling a consume insert the element at the position its start order gives it, starting a consume takes the first, everything else changes nothing. |
| FifoEnds.EntriesAfter | include/density/heter_queue.h:2860-2962 | What each operation does to the entries: a canceled put and a committed consume are gone, and only they; every other operation changes one phase or adds one entry; the rest keeps its order. |
| FifoEnds.HistoriesAfter | include/density/heter_queue.h:2860-2962 | Only committing a put or a consume adds to the histories, and adds the item of its entry. |
| FifoEnds.VisibleExactly | include/density/heter_queue.h:2614-2642 | The visible sequence holds exactly the items that are ready, in the order of their starts. |
| FifoEnds.EndedExactly | include/density/heter_queue.h:2964-2972 | Over every run: all started puts and consumes have been committed or canceled if and only if every entry left is ready; then clearing leaves nothing, and the queue can be destroyed. |
| Fifo.HandleKept | include/density/heter_queue.h:2893-2962 | An element bound to a handle keeps its identity, its content and its phase until an operation through that handle. |
| Fifo.ExactlyOnce | include/density/heter_queue.h:2893-2919 | No element is visible, being consumed and consumed more than once in all, and exactly the committed ones are. |
| Fifo.TakesEarliest | include/density/heter_queue.h:2893-2909 | A consume takes the earliest committed element that nobody has consumed or is consuming. |
| Fifo.VisibleDetermined | include/density/heter_queue.h:2893-2962 | Two runs with the same committed, held and consumed elements show the same sequence, whatever their order. |
| Fifo.ClearResult | include/density/heter_queue.h:480-491 | Clearing consumes exactly the visible elements, in order, and leaves pending and held ones. |
| FifoEnds.ClearLeaves | include/density/heter_queue.h:480-491 | Clearing leaves exactly the entries that are not ready, in order. |
| Fifo.ClearIsRun | include/density/heter_queue.h:480-491 | Clearing is a run of consume starts and commits. |
| Fifo.PlayIsRun | include/density/heter_queue.h:2893-2919 | Pushes and pops are runs of put and consume starts and commits. |
| FifoEnds.MovesMean | include/density/heter_queue.h:2893-2919 | A push adds its value behind the visible ones; a pop consumes the first visible item. |
| Fifo.FirstInFirstOut | include/density/heter_queue.h:2893-2919 | For every sequence of pushes and pops on an empty queue, the run of their operations is possible, and leaves the values popped followed by the values visible equal to the values pushed, in order. |
| QueueLayout.WordParts | include/density/heter_queue.h:26-38 | Address and flags can be recovered from the sum in `m_next`, for every combination of flags. |
| QueueConfigs.ValidExactly | include/density/heter_queue.h:237-284 | A configuration that passes the compile-time checks is good for the proofs if and only if a descriptor fits in a page. |
| QueueConfigs.DescriptorExactly | include/density/heter_queue.h:2813-2821 | The descriptor of an external block fits at some place of some page if and only if the page is large enough for two control blocks, the type and the descriptor. |
| QueueConfigs.MisfitRegimes | include/density/heter_queue.h:250-252 | If it does not fit, placing it fails to end in one of two ways, depending on whether the size limit wraps around: external blocks nested without end, or pages allocated without end. |
| QueueConfigs.ChecksNotEnough | include/density/heter_queue.h:275-284 | For every configuration there is a size of the runtime type that passes the checks and leaves no room for the descriptor. |
| QueueConfigs.SmallTypesWork | include/density/heter_queue.h:275-284 | Runtime types no larger than the minimum alignment always leave room. |
| QueueSteps.SentinelOverflows | include/density/heter_queue.h:234-237 | From the initial value of the tail, every allocation overflows its page, so that the first page gets allocated. |
| QueueSteps.FixedDecides | include/density/heter_queue.h:2766-2790 | The fixed-size overload, which does not align the element when it need not, takes the same decision at every tail, the misaligned initial one included. |
| QueueSteps.FreshPageFits | include/density/heter_queue.h:2736-2742 | An allocation that passes the "may fit in a page" test fits in a fresh page, whatever its alignment. |
| QueueSteps.OutsideTooLarge | include/density/heter_queue.h:2736-2748 | Its converse, up to the slack of the test: what goes into a heap block does not fit in a fresh page with a runtime type and the bytes its alignment may cost. |
| QueueSteps.DecideExactly | include/density/heter_queue.h:2722-2748 | The tail page is used if and only if there is room in it behind the tail; a heap block if and only if there is none and the element is too large for a page of its own. |
| QueueSteps.StorageLeast | include/density/heter_queue.h:2715-2724 | The storage is at the first aligned address behind the control block and the runtime type. |
| QueueSteps.NormalLeast | include/density/heter_queue.h:2702-2706 | The raised alignment is the larger of the two, and the raised size the least multiple of the minimum alignment that is large enough. |
| QueueSteps.AppendKeepsChain | include/density/heter_queue.h:2725-2735 | Appending a slot keeps the chain: every hop stays in its page, except from a page jump to the first byte of a page. |
| QueueSteps.LinkPage | include/density/heter_queue.h:2839-2858 | Linking a page adds one dead jump slot and one owned page, and nothing else. |
| QueueSteps.LinkExternal | include/density/heter_queue.h:2820-2828 | Setting the external flag and writing the descriptor gives the heap block to the slot. |
| QueueFlags.SetFlags | include/density/heter_queue.h:2872-2891 | Changing the flags of a slot changes its status and nothing else: chain, addresses and resources stay. |
| QueueFlags.SweepFirst | include/density/heter_queue.h:2921-2949 | Reclaiming the first slot frees its heap block if and only if it has one, read at the fixed offset, and its page if and only if the chain leaves it. |
| QueueFlags.DropDeadKeeps | include/density/heter_queue.h:2921-2954 | A sweep keeps every slot from the first live one on. |
| QueueObjects.StoragesApart | include/density/heter_queue.h:2718-2735 | The storages of two slots never overlap, in pages or in the heap. |
| QueueObjects.StorageMissesHeaders | include/density/heter_queue.h:2715-2735 | No storage overlaps the control block, runtime type or descriptor of any slot. |
| QueueObjects.StorageMissesTail | include/density/heter_queue.h:2726-2733 | Nor the place of the next control block. |
| QueueObjects.HeadersApart | include/density/heter_queue.h:2715-2735 | What the queue writes for one slot overlaps nothing it writes for another. |
| QueueObjects.ElementFound | include/density/heter_queue.h:2649-2671 | `get_element` recomputes exactly the storage that was allocated, in the page or external. |
| QueueObjects.OwnedPages | include/density/heter_queue.h:2942-2945 | The pages owned are exactly those the chain goes through. |
| QueueObjects.OwnedBlocks | include/density/heter_queue.h:2935-2940 | The heap blocks owned are exactly those of the external slots, each with its size and alignment. |
| QueueObjects.RawBlockUsable | include/density/heter_queue.h:605-618 | As long as its element is alive, the storage of a raw block is still in the chain, in a page or a heap block that has not been given back. |
| QueueIteration.FirstHopExactly | include/density/heter_queue.h:2628-2642 | The first hop of `next_valid` reaches the next control block if and only if the element is not external; otherwise it lands four bytes behind, where no control block is. |
| QueueWitness.ExternalHop | include/density/heter_queue.h:2628-2642 | Unless an allocation fails, one large put and its commit give a queue on which the iterator hops over the tail. |
| HeterQueues.GrownDetermined | include/density/heter_queue.h:2697-2810 | Both overloads: with the same pages and heap blocks, the same allocation leads to the same chain and the same result. |
| HeterQueues.HeterQueue.constructor | include/density/heter_queue.h:294-299 | A new queue is empty, owns nothing, and has the sentinel as head and tail. |
| HeterQueues.HeterQueue.AllocateNewPage | include/density/heter_queue.h:2839-2858 | Adds a dead jump slot to a fresh page, or gives the queue its first page; a failure changes nothing. |
| HeterQueues.HeterQueue.InplaceAllocate | include/density/heter_queue.h:2697-2750 | Places the slot in the tail page, a fresh page or the heap, as the sizes decide; at most two attempts and one nested call. A heap block is allocated if and only if the element fits neither behind the tail nor in a page of its own. It fails if and only if the underlying allocator does, which it does not ask when the tail page has room; a failure leaves head, tail, slots and resources as they were. |
| HeterQueues.HeterQueue.InplaceAllocateFixed | include/density/heter_queue.h:2753-2810 | The same outcome as the overload for run-time sizes, heap blocks and failures included. |
| HeterQueues.HeterQueue.ExternalAllocate | include/density/heter_queue.h:2812-2837 | The heap block belongs to the new slot, or has been returned if the descriptor could not be placed. |
| HeterQueues.HeterQueue.StartPut | include/density/heter_queue.h:1237-1316 | One abstract put start, at the address returned, with the slot placed as the sizes decide, in a heap block if and only if it fits nowhere else. It fails to allocate if and only if the underlying allocator fails, and then leaves everything as it was; a failed construction leaves only dead slots. |
| HeterQueues.HeterQueue.AbandonSlot | include/density/heter_queue.h:1256-1265 | A slot whose object could not be constructed becomes dead, and the queue is valid again. |
| HeterQueues.HeterQueue.CommitPut | include/density/heter_queue.h:704-708 | One abstract commit, without writing to memory; the slot becomes ready and nothing else changes. |
| HeterQueues.HeterQueue.CancelPut | include/density/heter_queue.h:2860-2870 | One abstract cancel; the slot of the control block is dead and without its object, and nothing else changes. |
| HeterQueues.HeterQueue.CommitReentrantPut | include/density/heter_queue.h:2872-2878 | One abstract commit; the slot becomes ready and nothing else changes. |
| HeterQueues.HeterQueue.CancelReentrantPut | include/density/heter_queue.h:2880-2891 | One abstract cancel; the slot of the control block is dead and without its object, and nothing else changes. |
| HeterQueues.HeterQueue.RawAllocate | include/density/heter_queue.h:612-618 | An aligned block in a new slot, placed as the sizes decide, in a heap block if and only if it fits nowhere else, that is dead from birth and lives as long as the element being put; nothing observable changes. It fails if and only if the underlying allocator does. |
| HeterQueues.HeterQueue.StartConsume | include/density/heter_queue.h:2893-2909 | Binds the first visible element, and none if and only if none is visible; only the status of its slot changes. |
| HeterQueues.HeterQueue.StartConsumeWith | include/density/heter_queue.h:1056-1066 | An operation object in use, on this queue or on another one, is canceled first, in its own queue: there its element is back at its place before the next one is taken here. |
| HeterQueues.HeterQueue.CancelConsume | include/density/heter_queue.h:2956-2962 | One abstract cancel; the slot is ready again and nothing else changes. |
| HeterQueues.HeterQueue.CommitConsume | include/density/heter_queue.h:2911-2919 | One abstract commit; the slot is dead and the dead slots at the head are gone. |
| HeterQueues.HeterQueue.CleanDeadElements | include/density/heter_queue.h:2921-2954 | Removes exactly the dead slots before the first live one, and returns exactly their pages and heap blocks. |
| HeterQueues.HeterQueue.Clear | include/density/heter_queue.h:480-491 | Consumes everything visible; elements held by handles and raw blocks stay. |
| HeterQueues.HeterQueue.Destroy | include/density/heter_queue.h:2964-2972 | Without open handles, head reaches tail and every page and heap block is returned. |
| HeterQueues.HeterQueue.Empty | include/density/heter_queue.h:458-471 | True if and only if nothing is visible. |
| HeterQueues.HeterQueue.FirstValid | include/density/heter_queue.h:2614-2626 | The first visible element. |
| HeterQueues.HeterQueue.NextValid | include/density/heter_queue.h:2628-2642 | From a visible element that is not external, the next visible one. |
| HeterQueues.HeterQueue.Dereference | include/density/heter_queue.h:2378-2386 | An iterator shows the type and the element that were put. |
| HeterQueues.HeterQueue.Iterate | include/density/heter_queue.h:2556-2642 | Iterating shows the type and the value of every visible element, in order, and nothing else. |
| HeterQueues.Equals | include/density/heter_queue.h:2580-2596 | Two queues compare equal if and only if they show equally many elements with, one by one, the same type and the same value. |
| LifoLayout.VirginFacts | include/density/lifo.h:336-338 | The initial top hosts no block of positive size, and never looks like the top of an empty page. |
| LifoLayout.AddressesDecide | include/density/lifo.h:145-154 | In every state, the addresses alone tell whether the most recent block is in the top page, in the page under it, or in the heap. |
| LifoLayout.OverflowMeansFull | include/density/lifo.h:97-104 | When a small block does not fit, the top page holds bytes of living blocks: a page never goes over an empty one. |
| LifoAllocators.FitsExactly | include/density/lifo.h:97-100 | In a page, the test for room holds if and only if the block ends before the page does. |
| LifoLayout.EmptyPageOnTop | include/density/lifo.h:268-276 | An empty page over a page with living bytes changes nothing for the living blocks. |
| LifoLayout.BlocksApart | include/density/lifo.h:93-114 | The most recent block overlaps no other living block. |
| LifoLayout.BlocksMissHeaders | include/density/lifo.h:228-231 | No living block overlaps the header of a page. |
| LifoLayout.DropSecond | include/density/lifo.h:200-207 | Removing an external block from under the most recent one keeps the stack. |
| LifoAllocators.LastLevel | include/density/lifo.h:212-218 | Without living blocks there is at most one page, and the top is in it; no heap block is left. |
| LifoAllocators.LifoAllocator.constructor | include/density/lifo.h:62-73 | A new allocator has no blocks and owns nothing. |
| LifoAllocators.LifoAllocator.Allocate | include/density/lifo.h:93-114 | An aligned block on top of the stack, disjoint from all others and from the page headers, behind the top, in a new page or in the heap as the size decides. It fails if and only if the underlying allocator does, never when the block fits in the page, and then changes nothing. |
| LifoAllocators.LifoAllocator.AllocateSlowPath | include/density/lifo.h:244-262 | The case of an overflow. |
| LifoAllocators.LifoAllocator.AllocateEmpty | include/density/lifo.h:129 | An empty block at the top: it cannot fail, and changes neither the top nor the pages. |
| LifoAllocators.LifoAllocator.Deallocate | include/density/lifo.h:140-154 | Takes exactly the most recent block off the stack. |
| LifoAllocators.LifoAllocator.DeallocateSlowPath | include/density/lifo.h:264-283 | The case of a block that is not in the top page. |
| LifoAllocators.LifoAllocator.SetTopAndAllocate | include/density/lifo.h:287-320 | Lowers the top and allocates there; in the same page it cannot fail; if it fails it has lowered nothing. |
| LifoAllocators.LifoAllocator.Reallocate | include/density/lifo.h:172-209 | The block has the new size and keeps its bytes up to the smaller size, wherever it was and wherever it goes; no other block's bytes and no page header change. It stays in place if it fits, as when shrinking in its page; it fails if and only if the underlying allocator does, and then changes nothing. |
| LifoAllocators.LifoAllocator.Destroy | include/density/lifo.h:212-218 | Once all blocks are gone, everything is returned to the underlying allocator. |
| LifoAllocators.ReadCopied | include/density/lifo.h:322-333 | What memory holds after a copy, at every address. |
| LifoArrays.MemSizeAligned | include/density/lifo.h:495-503 | The size asked of the stack is a multiple of its alignment, enough, and wastes less than the alignment. |
| LifoArrays.ElementsFit | include/density/lifo.h:528-546 | The elements are aligned for their type, the skipped bytes are at most the overhead, and all elements are inside the block. |
| LifoArrays.OverheadNeeded | include/density/lifo.h:525-526 | A smaller overhead would not do: some block needs all of it. |
| LifoArrays.Construct | include/density/lifo.h:505-546 | The elements of a new array overlap no other living block; construction fails only if the underlying allocator does. |
| LifoArrays.Destruct | include/density/lifo.h:548-552 | The destructor gives back exactly what the constructor took. |
| LifoArrays.LifoBuffer.constructor | include/density/lifo.h:428-430 | An empty buffer takes nothing from the pages and is the top of the stack. |
| LifoArrays.LifoBuffer.Resize | include/density/lifo.h:464-471 | Keeps the bytes up to the smaller size and every other block; stays in place if the new size fits there; a failure, which is one of the underlying allocator, changes nothing. |
| LifoArrays.LifoBuffer.Destroy | include/density/lifo.h:447-450 | Takes the buffer off the stack. |
| ConcDiscipline.CallGuarded | include/density/conc_heter_queue.h:1563-1585 | The code of every call releases what it acquires and leaves its handle settled; it accesses queues only under their mutex if and only if it is not a reentrant consume started on the queue its handle points to. |
| ConcDiscipline.RebindElsewhere | include/density/conc_heter_queue.h:1568-1584 | Moving a handle to another queue holds both mutexes for the cancel, and the new one for the start. |
| ConcDiscipline.InvokeKeepsLocks | include/density/conc_heter_queue.h:896-904 | Beginning a call keeps the lock discipline of all threads: that of releasing always, that of accessing except in that case. |
| ConcDiscipline.AdvanceKeepsLocks | include/density/conc_heter_queue.h:409-431 | So does every step of every call. |
| ConcQueues.HandleOwnsMutex | include/density/conc_heter_queue.h:501-519 | A non-empty non-reentrant handle implies that the mutex of its queue is locked, by it or by the call that fills it, in the thread that uses it. |
| ConcQueues.NoOpenHere | include/density/conc_heter_queue.h:613-659 | A thread that accesses a queue never finds the put of another thread half done. |
| ConcQueues.AdvanceKeepsData | include/density/conc_heter_queue.h:1251-1276 | Every step keeps each queue equal to the run of its log, and each element bound to at most one handle. What is logged is the subject of `ConcCalls.CallPerforms`. |
| ConcQueues.AdvanceKeepsHeld | include/density/conc_heter_queue.h:1029-1036 | Every element that is being put or consumed is bound to a handle, through which it can be ended. |
| ConcQueues.RunSafe | include/density/conc_heter_queue.h:193-1765 | All this in every state of every interleaving. |
| ConcQueues.Linearizable | include/density/conc_heter_queue.h:193-1765 | Each queue is in the state that its logged operations, one after the other, give; the sequential contract is never broken. |
| ConcQueues.LogInLockOrder | include/density/conc_heter_queue.h:1029-1036 | An operation is logged only by a step of the thread that owns the mutex: the order of the log is that of the critical sections. |
| ConcQueues.NoRace | include/density/conc_heter_queue.h:1664-1672 | No two threads are ever about to access the same queue. |
| ConcQueues.ClearAccess | include/density/conc_heter_queue.h:206-210 | Clearing the queue behind the mutex leaves nothing visible and every bound handle bound. |
| ConcCalls.CallPerforms | include/density/conc_heter_queue.h:409-431 | Whatever other threads do during a call, a start logs the start, a commit the commit, a cancel and a restart the cancel, on the queue of the handle; raw allocations and `empty` log nothing. The handle is left bound or empty, locked or not, and pointing to a queue, as the call says: a finished reentrant consume still points to its queue, a finished put to none. |
| ConcCalls.ClearCall | include/density/conc_heter_queue.h:206-210 | From its beginning to its return, a clear consumes what is visible when it gets the mutex, leaves what is being put or consumed, and touches no other queue; at its return nothing is visible. |
| ConcCalls.LogGrows | include/density/conc_heter_queue.h:193-1765 | While the other threads do nothing, the log grows by what the call performs. |
| ConcCalls.MoveLocksInOrder | include/density/conc_heter_queue.h:1567-1576 | Moving a handle locks the mutex of the old queue, and then that of the new one. |
| ConcRebind.RebindExactly | include/density/conc_heter_queue.h:1563-1585 | Starting a consume on an unlocked queue can access it without its mutex if and only if it is a reentrant consume on the queue the handle points to. |
| ConcRebind.ConsumeDuringPut | include/density/conc_heter_queue.h:1563-1585 | A run in which the unlocked consume meets an element that another thread is still putting. |
| ConcDeadlock.CallDemands | include/density/conc_heter_queue.h:1567-1576 | The exact pairs of a mutex that the thread owns and a mutex that the call wants meanwhile, read off the call, its handle and what the thread owns before. |
| ConcDeadlock.DemandsShrink | include/density/conc_heter_queue.h:1567-1584 | A step of a thread adds no demands. |
| ConcDeadlock.NoDeadlock | include/density/conc_heter_queue.h:193-1765 | In every run in which calls lock mutexes in the order of some rank, there is never a cycle of waiting threads, of any length and whoever holds the locks. |
| ConcDeadlock.WaitEnds | include/density/conc_heter_queue.h:193-1765 | While all demands rise in rank, as in every such run, each chain of waiting threads ends at one that does not wait. |
| ConcDeadlock.CycleForever | include/density/conc_heter_queue.h:193-1765 | Nothing that any thread does ends a cycle. |
| ConcContention.TwoCallsExactly | include/density/conc_heter_queue.h:1567-1576 | Two calls can end up waiting for each other if and only if each demands, while it owns a mutex, one that the other one owns while it demands that; non-reentrant handles included. |
| ConcContention.SwappedExactly | include/density/conc_heter_queue.h:1567-1576 | While no mutex is locked, that is if and only if both start a reentrant consume on the queue that the handle of the other one points to. |
| ConcContention.RingExactly | include/density/conc_heter_queue.h:1567-1576 | Any number of calls, while no mutex is locked, can end up in a cycle if and only if they move their handles around a ring of queues. |
| ConcContention.AllBegin | include/density/conc_heter_queue.h:1567-1576 | Calls of distinct threads with distinct handles can all begin before any of them takes a step, with the handles they had. |
| ConcContention.CycleFromStart | include/density/conc_heter_queue.h:1563-1585 | A run from the initial state into such a cycle, which is final. |

## Left out

- HeterQueues.HeterQueue.NextValid: only from elements that are not external, because the code is wrong there; `QueueIteration.FirstHopExactly` is the exact condition.
- HeterQueues.HeterQueue.Iterate: only if no visible element is external, for the same reason.
- HeterQueues.Equals: only if no visible element of either queue is external, for the same reason.
- AlignedHeap.Heap.AlignedAllocate: requires that the header fits; `AlignedHeap.HeaderInsideExactly` is the exact condition, and it always holds for offset 0.
- HeterQueues.HeterQueue.constructor: requires a configuration in which a descriptor fits in a page; `QueueConfigs.ValidExactly` is the exact condition.
- HeterQueues.HeterQueue.StartPut: construction is a value that appears at the storage address, or throws; `runtime_type`, type erasure and the effects of constructors and destructors are not modelled. The methods that push, emplace or copy-construct are this one followed by a commit.
- ConcQueues.Linearizable: for runs without the call of finding 4; `ConcRebind.RebindExactly` shows that it cannot hold with it. Each access to the sequential queue is one step; what it does inside is `HeterQueue`. Raw allocations and `empty` are accesses that do not change the observable queue.
- ConcContention.TwoCallsExactly: where the two threads own all the locked mutexes and neither call locks a mutex its own thread owns, which `std::mutex` leaves undefined. With mutexes of other threads, whether a call gets as far as it demands depends on these.
- Using a queue while a non-reentrant operation is open is undefined in the documentation; it is the precondition `NoOpen` of the sequential queue, and what mutexes guarantee in the concurrent one.
- Moving and swapping handles and queues, copying queues, move assignment of handles (which commits the old operation), and the cached pairs of iterators. In the concurrent model a handle object is used by one thread at a time.
- Failures of mutexes, and threads that lock a mutex they already own, which block here.
- The lock-free queues: the files that implement them are not part of this model.
- Page pools, pinning and zeroed pages of the default allocator: only its documented contract.
- Function queues, which are adapters, and `io_runtimetype_features.h`.
- The wrap-around of 64-bit addresses and sizes, except in the alignment expressions (`Align.UpperMask`). Pointers have 8 bytes, and a descriptor of an external block 24.
- Which thread owns a stack allocator: the thread-local instance is a parameter.
- Constructors and destructors of the elements of a `lifo_array`, and its iterators.
- `cv_qual` ordering and `builtin_optional`: easy and finite.
