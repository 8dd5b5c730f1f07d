# Verified model of `cslab`, `cbpf-rs` and `RcuBox`

A Dafny 4.11 model of three crates of this repository, and proofs about it:

- **`cslab`**: the fixed-capacity slab with its free list, presence bitmap and word-at-a-time
  scanner; and `RcuCslab`, which finalizes removals when reference-counted generations die, under
  weak memory and with any interleaving of one writer, its removable entries, readers and
  destructors.
- **`cbpf-rs`**: the classic-BPF validator, and the interpreter whose unchecked accesses,
  unchecked additions and `unreachable_unchecked` rest on it.
- **`rcu`**: `RcuBox` in its mutex-and-`Arc` form, alone and holding an `RcuCslabReader`.

`dafny verify dfyconfig.toml` checks everything.

## How it is laid out

| files | what they hold |
|---|---|
| `Options`, `Paths`, `Words`, `BitOps`, `Bits` | optional values; runs of any transition relation; bitmap words and the naive scan; bitwise operations on integers, and what they do bit by bit |
| `SlabSpec` | a slab as a value: items, which are present, the free slots in order, the frontier |
| `Freelist`, `Cslab` | relative-offset free list; the storage and the slab as classes over arrays |
| `BitmapScan`, `ScanRuns` | the double-ended scanner; whole scans against changing and unchanging bitmaps |
| `Chain` | generations, their counts, links and destructors |
| `StoreHistory`, `StoreEffects` | store histories, views, release and acquire; what each critical section does to them |
| `RcuMachine` | states, the nineteen kinds of step, and the invariant |
| `RcuHandleSteps`, `RcuAccessSteps`, `RcuIterationSteps`, `RcuStoreSteps` | every step keeps the invariant |
| `RcuFrames` | what a step leaves alone |
| `RcuTheorems` | what follows for every run |
| `RcuIteration` | removable iteration from its start to its end |
| `RcuProgress` | what the writer can always do, what new readers find, how destructors and storage come to an end; example runs |
| `Reclamation`, `RcuCslab` | what one thread's calls leave behind, destructors included; the classes `RcuCslab` and `RcuIterMut` |
| `CallsAreRuns` | each such call is a run of the machine |
| `BoxedReader` | a box holding a reader, guards, and the machine of `RcuMachine` underneath |
| `BoxUpdates`, `RcuBox` | concurrent calls on a box; the box as a class |
| `BpfInsn`, `BpfValidate` | opcodes, the table of what is dispatched, the validator |
| `BpfSemantics`, `BpfInterpreter` | a fully checked reference semantics; the interpreter as written |
| `BpfOpcodes` | what each opcode does, from its number, without the table |
| `BpfExact` | what the validator rejects, in terms of what a step can do |

## How the program is modelled

- **Steps.** A critical section of the writer lock is one step, since nothing else can run inside
  it. `mark_removed` of a generation is two steps, the mark and the push to `pending_removes`, and
  an advance is two, linking the next generation and replacing `cur_gen`. So are a generation's
  destructor body and the release of its `next_gen`. A load of a bitmap word with the item read
  after it is one step.
- **Memory.** Every bitmap word, slot and the frontier has the history of its stores. A thread has
  a view, the oldest store it may still read at each place; an acquire load may read any store not
  older than its view and joins the view that store released; taking the lock joins the view the
  last unlock released. A handle has a view too, a lower bound for whoever uses it next; a thread
  using a reader is an observer with its own. Item reads are plain: the proofs show that they see
  the slot's last store.
- **The `'a` borrow** of `iter_mut` is state: the writer's handle is unavailable while the iterator
  lives or any proxy can still be used. A proxy's borrow ends at its last use, a step of its own
  that hands what its holder has seen back to the writer; its reference to the generation may be
  dropped any time later, since a proxy has no destructor but its `Arc`'s.
- **What readers rely on** is state too: for each reader, the slots ever found present through it,
  with the item and the store then read. Loads add to it, a clone copies it, and only the drop of
  the reader ends it, so the promise survives the thread that did the finding.
- **Words and integers.** A bitmap word is a vector of 64 bits; indices are bounded by `usize` and
  offsets by `isize`. A capacity is at most `isize::MAX`, which allocating the table implies, and
  positive. BPF values are integers below 2^32 with the wrap-around written out; the packet length
  is truncated to 32 bits as in the source.
- **Errors and panics.** An insertion into a full slab returns an error and changes nothing, so it
  is no step of the machine. Marking a slot that is not present, and finalizing one that is, panic
  in the source; here they are preconditions, and the proofs show that proxies and destructors
  always meet them.
- **Scanners.** What a scanner finds in each word it loads is given by an arbitrary function of
  time, so an arbitrary environment may change the bitmap between loads.
- **Boxes.** A guard's closure-free lifetime is: clone the `Arc` under the lock, look,
  dereference, drop. The closure of an `update` uses the boxed reader under the lock, without a
  counted reference of its own. Everything `RcuMachine` allows may happen in between, except what
  ownership forbids: dropping a reader that lives in a cell, or using it without a guard or the
  lock. In `BoxUpdates` the calls that have taken effect are logged in the order of the lock, and
  each call remembers which calls had returned when it began.
- **Generations in the class** `RcuCslab` are numbered in order of creation and kept with their
  counts, as an `Arc` allocation is; who holds the counted references is ghost state.

Where code and documentation differ, the code is followed. `ExclIter` is an `ExactSizeIterator`
whose `size_hint` and `count` never decrease (cslab/src/lib.rs:485-491); `CountIsExactWhileFresh`
says exactly when the number is right. The validator rejects some programs that could do no harm,
those with a jump out of the program on a side its test never takes; `BpfExact` says exactly which.

## Model

| member | source | states |
|---|---|---|
| `RcuTheorems.StepKeeps` | cslab/src/lib.rs:1285-1830 | every step of the writer, readers, proxies, destructors and the storage's drop keeps the whole invariant |
| `RcuTheorems.ReachableIsGood` | cslab/src/lib.rs:1534-1552 | so it holds in every state of every run from zeroed memory |
| `RcuTheorems.LoadsAreSound` | cslab/src/lib.rs:163-192 | a reader that loads a flag set, in whatever store of its word it may still read, finds an item not finalized; its item load sees exactly what the insertion stored, the removal is on no older generation's list, and later frontier loads cover the slot |
| `RcuTheorems.OldRemovalsAreInvisible` | cslab/src/lib.rs:1309-1317 | a reader never sees as present an item whose removal was recorded in a generation older than its own |
| `RcuTheorems.WriterReadsExactly` | cslab/src/lib.rs:1577-1583 | the writer's unsynchronized `get` is exact: a flag it can load is set if and only if the item is present, and then it reads the item inserted |
| `RcuProgress.RemovalNeverWaits` | cslab/src/lib.rs:1674-1684 | whatever readers hold, the writer can mark a present item and record it in the current generation |
| `RcuProgress.AdvanceNeverWaits` | cslab/src/lib.rs:1686-1723 | and it can always move on to the next generation, which leaves slab and readers as they were |
| `RcuProgress.ProxiesCanRemove` | cslab/src/lib.rs:1814-1822 | a proxy not yet used can always remove its item: that slot is marked and recorded in the proxy's own generation, whichever is current |
| `RcuProgress.BorrowsEnd` | cslab/src/lib.rs:1793-1807 | a proxy can be put away whenever it is not in the middle of a removal, which ends its borrow and nothing else; its reference can be dropped from then on |
| `RcuProgress.DropsGiveUpOne` | cslab/src/lib.rs:1398-1414 | the drop of a reader, proxy or writer gives up one reference, to the generation its holder belonged to |
| `RcuProgress.RemovedCanStillBeFound` | cslab/src/lib.rs:1422-1426 | a removal does not reach older readers at once: through any reader that was there before, a thread may still find the item afterwards, and reads it |
| `RcuProgress.NewReadersSeeWhatIsThere` | cslab/src/lib.rs:1625-1638 | a thread looking through a reader just created finds an item if and only if it is present, whichever store its load reads, and reads what was inserted |
| `RcuProgress.RemovedWhileRead` | cslab/src/lib.rs:1272-1298 | it does happen that a reader keeps reading an item the writer has removed, one generation behind |
| `StoreEffects.ClearingMustRelease` | cslab/src/lib.rs:180-192 | after clearing another slot's flag in the same word, a reader's load still finds the first item, if the clearing store was a release; had it been relaxed, the load would have taught the reader nothing about the slot |
| `StoreHistory.LoadIsSound` | cslab/src/lib.rs:68-82 | an acquire load of a set flag by a thread with a sound view brings it up to date on the slot and on the frontier |
| `StoreEffects.InsertMirrors` | cslab/src/lib.rs:649-666 | item, then frontier, then flag keeps histories and slab in step: set flags publish the slot's last store and a frontier beyond it |
| `RcuTheorems.ReadersPin` | cslab/src/lib.rs:1427-1452 | over every run: from when any thread finds a slot present through a reader until that reader is dropped, the slot holds that same item and is not written, whichever threads come and go |
| `RcuTheorems.FoundIsReadable` | cslab/src/lib.rs:1438-1452 | so `get_unchecked`, by any thread synchronized with the one that found the slot, reads that item |
| `RcuTheorems.LateRemovalsAreSafe` | cslab/src/lib.rs:1801-1822 | in every run: while a proxy can still be used, even after its iterator, no reader can be created and none belongs to a generation newer than the one its removal goes to |
| `RcuProgress.LateProxy` | cslab/src/lib.rs:1793-1822 | and there are such proxies: a run in which one outlives its iterator and the advance that ends it, and can still remove its item |
| `RcuTheorems.ProxiesDereference` | cslab/src/lib.rs:1824-1830 | in every run a proxy reads the item its iterator found for as long as it can be used; until used its item is present, so its `remove` never hits the assertion in `mark_removed` |
| `RcuMachine.PendingListIsClean` | cslab/src/lib.rs:1376-1394 | what a destructor finalizes is allocated, marked and listed once, in every interleaving |
| `RcuTheorems.RemainingIsExact` | cslab/src/lib.rs:1763-1791 | under any mix of yields, removals and kept proxies, `remaining` is the number of entries to come, never negative, and something is yielded if and only if it is positive |
| `RcuIteration.StartsWithEverything` | cslab/src/lib.rs:1616-1623 | a new removable iterator has every present item ahead of it |
| `RcuIteration.YieldsTheNearest` | cslab/src/lib.rs:1763-1791 | it yields the first present item from the end that was asked |
| `RcuIteration.NoneMeansDone` | cslab/src/lib.rs:1763-1791 | and nothing only when no present item is ahead |
| `RcuIteration.NothingIsSkipped` | cslab/src/lib.rs:1763-1791 | over every run in which the iterator lives, every item present when it was made has been yielded or is still ahead |
| `RcuIteration.NothingIsYieldedTwice` | cslab/src/lib.rs:1763-1791 | no slot is yielded twice by one iterator, whichever ends are asked |
| `RcuTheorems.EveryItemDestroyedOnce` | cslab/src/lib.rs:301-316 | when the storage goes, the items destroyed are those ever inserted, each once |
| `RcuTheorems.EveryItemSomewhere` | cslab/src/lib.rs:1376-1394 | before that, each inserted item is in exactly one slot or was destroyed, never both |
| `RcuProgress.DestructorsEnd` | cslab/src/lib.rs:1335-1355 | from every state the destructors under way can run to the end, after which none is left to run |
| `RcuProgress.StorageCanGo` | cslab/src/lib.rs:301-316 | once no handle is left they can run until the storage may be dropped |
| `RcuProgress.StorageGoes` | cslab/src/lib.rs:301-316 | and it does happen: a run that inserts an item and ends with the storage dropped and that item destroyed |
| `RcuTheorems.AccountingIsExact` | cslab/src/lib.rs:1365-1374 | pending lists and removals in flight are duplicate-free, disjoint, and together exactly the allocated slots that are not present |
| `RcuTheorems.FinalizedExactlyWhenUnpinned` | cslab/src/lib.rs:1339-1341 | with no destructor running, a generation is gone if and only if no handle belongs to it or an older one |
| `RcuTheorems.CloneSharesGeneration` | cslab/src/lib.rs:1462-1469 | a reader can be cloned whenever it lives; the clone belongs to its generation, which counts one more, sees what it has seen and may rely on what was found through it |
| `RcuTheorems.ReadersStayInTheirGeneration` | cslab/src/lib.rs:1398-1414 | over every run a reader's generation never changes until it is dropped |
| `RcuTheorems.ClonesPinTheSame` | cslab/src/lib.rs:1404-1405 | so a clone and its source pin the same generation over every run in which both live |
| `RcuTheorems.ClonesPinNothingMore` | cslab/src/lib.rs:1404-1405 | and the clone keeps no generation from being finalized that its source does not keep |
| `GenerationChain.FinalizedInOrder` | cslab/src/lib.rs:1335-1355 | when a generation's destructor runs, all older ones are gone, all newer ones live, and every handle is newer |
| `GenerationChain.DropFinalizesUnpinnedRun` | cslab/src/lib.rs:1712-1722 | dropping one handle finalizes exactly the generations it alone pinned, none older than its own |
| `GenerationChain.LinkKeeps` | cslab/src/lib.rs:1703-1716 | linking a new generation keeps counts exact and the chain unbroken |
| `GenerationChain.SwapKeeps` | cslab/src/lib.rs:1718-1722 | so does replacing `cur_gen` |
| `Reclamation.ReclaimsExactly` | cslab/src/lib.rs:1376-1394 | a cascade of destructors finalizes exactly the removals recorded in the generations that went, leaves every other slot alone, and destroys the items of exactly the slots it frees, each once |
| `Reclamation.AdvanceAloneFinalizesAll` | cslab/src/lib.rs:1693-1697 | with no handle but the writer's, an advance finalizes every removal at once |
| `Reclamation.RemovedIsCoherent` | cslab/src/lib.rs:1365-1374 | marking and recording a present slot adds that one record to that generation's list and keeps every marked slot recorded exactly once |
| `CallsAreRuns.InsertIsARun` | cslab/src/lib.rs:1645-1652 | what an insertion does to the slab is a run of the machine |
| `CallsAreRuns.RemovalIsARun` | cslab/src/lib.rs:1674-1684 | so is marking and recording |
| `CallsAreRuns.AdvanceIsARun` | cslab/src/lib.rs:1703-1723 | so is an advance: link, replace, then body and release of each destructor it causes, leaving exactly what `RcuCslab.AdvanceGeneration` leaves |
| `CallsAreRuns.ReaderIsARun` | cslab/src/lib.rs:1625-1638 | so is creating a reader, which counts in the writer's generation |
| `CallsAreRuns.CloneIsARun` | cslab/src/lib.rs:1462-1469 | so is cloning one, which counts in its source's |
| `CallsAreRuns.DropIsARun` | cslab/src/lib.rs:1398-1414 | so is a reader's drop with the destructors it causes |
| `CallsAreRuns.CascadeIsARun` | cslab/src/lib.rs:1352-1355 | so are the destructors alone, from any state at rest |
| `ManagedSlab.RcuCslab.constructor` | cslab/src/lib.rs:1534-1552 | a new slab is empty, with one generation |
| `ManagedSlab.RcuCslab.Insert` | cslab/src/lib.rs:1645-1652 | fails if and only if every slot is allocated; else uses the first free slot |
| `ManagedSlab.RcuCslab.MarkRemoved` | cslab/src/lib.rs:1674-1684 | marks the slot and records it in the current generation, nothing else |
| `ManagedSlab.RcuCslab.FinalizeList` | cslab/src/lib.rs:1377-1389 | a destructor's body frees the listed slots in order and takes out their items |
| `ManagedSlab.RcuCslab.Destroy` | cslab/src/lib.rs:1352-1355 | the destructors that follow a last drop, link by link, are the specified cascade |
| `ManagedSlab.RcuCslab.CloneReader` | cslab/src/lib.rs:1462-1469 | a clone counts one more reference to its source's generation, current or not, and nothing else changes |
| `ManagedSlab.RcuCslab.DropHandle` | cslab/src/lib.rs:1398-1414 | dropping a reader or proxy, with all it sets off |
| `ManagedSlab.RcuCslab.AdvanceGeneration` | cslab/src/lib.rs:1703-1723 | a new empty generation is linked and current; the old one is released, and reclaimed if that was its last reference |
| `ManagedSlab.RcuCslab.ScheduleFinalization` | cslab/src/lib.rs:1686-1701 | advances once and returns a reader of the new generation |
| `ManagedSlab.RcuCslab.Remove` | cslab/src/lib.rs:1725-1732 | mark, record, advance, and a reader of the new generation |
| `ManagedSlab.RcuCslab.RemoveEntry` | cslab/src/lib.rs:1814-1822 | a proxy's `remove` records in the proxy's own generation, current or not, and drops the proxy |
| `ManagedSlab.RcuCslab.Clear` | cslab/src/lib.rs:1734-1744 | marks every present item once in slot order, advances exactly one generation, and leaves nothing present for its reader to see |
| `ManagedSlab.RcuIterMut.Next` | cslab/src/lib.rs:1763-1774 | yields a present slot ahead and one proxy for it, if and only if `remaining` is positive, which it then decrements without underflow |
| `ManagedSlab.RcuIterMut.NextBack` | cslab/src/lib.rs:1781-1791 | the same from the back |
| `Freelist.ZeroedIsLinked` | cslab/src/lib.rs:194-197 | zeroed memory is the free list 0, 1, ... up to the capacity |
| `Freelist.PushFree` | cslab/src/lib.rs:750-753 | the offset written on finalization is in range and decodes to the old head |
| `Freelist.LinksStayInside` | cslab/src/lib.rs:646-647 | following offsets stays inside the table and reaches only free slots |
| `Freelist.LinksAreUnique` | cslab/src/lib.rs:561-561 | the slots determine the list |
| `ConcurrentSlab.InsertKeeps` | cslab/src/lib.rs:637-672 | insertion keeps list, bitmap, frontier and slots consistent and is insertion into the abstract slab |
| `ConcurrentSlab.MarkKeeps` | cslab/src/lib.rs:707-723 | so is marking |
| `ConcurrentSlab.FinalizeKeeps` | cslab/src/lib.rs:739-758 | so is finalization |
| `ConcurrentSlab.Cslab.Insert` | cslab/src/lib.rs:637-672 | fails if and only if allocated equals capacity; else takes the slot `vacant_key` names |
| `ConcurrentSlab.Cslab.VacantKey` | cslab/src/lib.rs:675-683 | the head of the free list, if a slot is free |
| `ConcurrentSlab.Cslab.MarkRemoved` | cslab/src/lib.rs:707-723 | clears one flag and nothing else |
| `ConcurrentSlab.Cslab.FinalizeRemove` | cslab/src/lib.rs:739-758 | returns the item and puts its slot at the head of the free list |
| `ConcurrentSlab.Cslab.Iterate` | cslab/src/lib.rs:620-622 | a fresh exclusive iterator's count is the number of slots its scan lists, which is `len` |
| `ConcurrentSlab.CslabStorage.ContainsKey` | cslab/src/lib.rs:338-348 | true if and only if the slot's flag is set, false out of range |
| `ConcurrentSlab.CslabStorage.Get` | cslab/src/lib.rs:326-334 | the item of a present slot, else nothing |
| `ConcurrentSlab.CslabStorage.Drop` | cslab/src/lib.rs:301-308 | destroys the items of exactly the slots whose flags are set, in slot order |
| `ConcurrentSlab.FullExactlyWhenUnlinked` | cslab/src/lib.rs:561-561 | the list is at its end if and only if every slot is allocated |
| `ConcurrentSlab.ScanListsPresent` | cslab/src/lib.rs:616-622 | scanning to the frontier lists every present slot once |
| `SlabSpec.SlotsAddUp` | cslab/src/lib.rs:595-605 | allocated and free slots add up to the capacity; allocated minus present is what is pending |
| `SlabSpec.LastFreedFirstReused` | cslab/src/lib.rs:750-753 | freed slots are reused last-in first-out, before any freed earlier |
| `SlabSpec.InsertRemoveIsIdentity` | cslab/src/lib.rs:637-758 | insert, mark and finalize give the slab back, up to the frontier |
| `BitmapScan.Iter.Next` | cslab/src/lib.rs:379-414 | skips only slots it saw clear, yields one it saw set, never reads a word out of range, ends only past everything |
| `BitmapScan.Iter.NextBack` | cslab/src/lib.rs:422-458 | the mirror image |
| `ScanRuns.ConcurrentScan` | cslab/src/lib.rs:544-549 | with words changing between loads: yields are in order, each set when loaded, and a slot set throughout is yielded exactly once by a finished scan |
| `ScanRuns.ScanIsNaive` | cslab/src/lib.rs:376-459 | any interleaving of both ends on an unchanged bitmap yields the naive bit-by-bit scan |
| `ScanRuns.Fused` | cslab/src/lib.rs:461-461 | after a `None` every later call returns `None` |
| `ScanRuns.CountIsExactWhileFresh` | cslab/src/lib.rs:485-491 | the exclusive iterator's count is the number of entries to come if and only if none has been yielded |
| `ScanRuns.CountGoesStale` | cslab/src/lib.rs:485-491 | one item, one call, and it is off by one |
| `BoxedReader.BoxStepKeeps` | rcu/src/rcu.rs:111-175 | counts of cells stay exact, readers in cells stay alive, and only guards and the closure of an `update` under the lock use them, whatever the slab does meanwhile |
| `BoxedReader.UnderlyingIsEnabled` | rcu/src/rcu.rs:149-162 | a cell whose last reference is gone can drop its reader: nobody is using it |
| `BoxedReader.ReaderCanBeBoxed` | rcu/src/rcu.rs:138-140 | any reader just created can be put in a box, so everything below is about states that occur |
| `BoxedReader.LookupsFind` | rcu/src/rcu.rs:474-494 | a lookup through a guard that loads a flag set finds the item the slot holds |
| `BoxedReader.LookupDereferences` | rcu/src/rcu.rs:474-494 | a guard returned for a key dereferences to the item its lookup found |
| `BoxedReader.GuardsDereference` | rcu/src/rcu.rs:458-473 | and does so for its whole life, over every run of writes to the box and of the slab's writer, readers and destructors |
| `BoxedReader.UpdatesAreAtomic` | rcu/src/rcu.rs:164-173 | from the start of an `update` to its end, over every run, the cell its closure looks at is the box's current one and its reader lives |
| `BoxedReader.InstallsItsReader` | rcu/src/rcu.rs:157-173 | after a `write` of a reader, or an `update` whose closure returns it, the box holds that reader, and the one before is what the call will drop |
| `BoxedReader.HeldUntilReplaced` | rcu/src/rcu.rs:142-173 | over every run without another `write` or successful `update` it stays so |
| `BoxedReader.DeclinedLeavesTheBox` | rcu/src/rcu.rs:166-168 | an `update` whose closure declines leaves cells and references alone |
| `BoxedReader.GetsSeeTheLastWrite` | rcu/src/rcu.rs:149-173 | in such a run every `get` gives its thread the reader last installed, and so does every `update` its closure |
| `BoxedReader.ReaderGoesWithItsCell` | rcu/src/rcu.rs:157-162 | the drop of a cell's value drops the reader in it and no other handle |
| `BoxedReader.NothingLeaks` | rcu/src/rcu.rs:157-162 | a cell that nothing refers to has lost its reader or can drop it now |
| `BoxUpdates.UpdatesAreNeverLost` | rcu/src/rcu.rs:142-173 | in every interleaving the calls have an order: every call that has returned is in it once; the box had a value before and after each, from the initial to the present one, a `write` leaving what it was given, an `update` what its closure makes, a `get` the same, and each reported on that value; and a call that returned before another began comes before it |
| `BoxUpdates.WritesTakeEffect` | rcu/src/rcu.rs:157-162 | a `write` that has returned is in that order, did not fail, and the box held its value right after it |
| `BoxUpdates.LastWriteStands` | rcu/src/rcu.rs:157-162 | with only `get`s after it in that order, the box still holds it |
| `BoxUpdates.GetsReadWrites` | rcu/src/rcu.rs:149-162 | a `get` with only `get`s between it and a `write` returned what was written |
| `BoxUpdates.UpdatesSeeWrites` | rcu/src/rcu.rs:157-173 | an `update` likewise leaves what its closure makes of what was written, or that if it declined |
| `BoxUpdates.UpdatesFailOnlyIfDeclined` | rcu/src/rcu.rs:164-173 | an `update` that has returned failed if and only if its closure declined the value at its place |
| `BoxUpdates.CounterCountsCalls` | rcu/src/rcu.rs:164-173 | so after every run a counter bumped by every `update` stands at the number of calls made |
| `RcuBoxes.RcuBox.Get` | rcu/src/rcu.rs:149-155 | a counted reference to the current cell |
| `RcuBoxes.RcuBox.Inspect` | rcu/src/rcu.rs:142-147 | the closure sees the current value, and nothing stays counted |
| `RcuBoxes.RcuBox.Write` | rcu/src/rcu.rs:157-162 | replaces the cell; the old value goes if and only if no guard holds it |
| `RcuBoxes.RcuBox.Update` | rcu/src/rcu.rs:164-173 | the closure sees the value it replaces; declining leaves the box as it was |
| `RcuBoxes.RcuBox.Release` | rcu/src/rcu.rs:118-127 | a guard's end drops the value if and only if it was the last reference |
| `BpfValidate.DoValidate` | cbpf-rs/src/lib.rs:394-546 | accepts if and only if every opcode is dispatched, targets and memory slots are in range, no constant divisor is zero and the last instruction returns; else reports the lowest bad instruction's error, `MissingReturn` only when none is bad, `ProgramTooLarge` first |
| `BpfValidate.ForwardIsAcceptedBackward` | cbpf-rs/src/lib.rs:487-516 | what is accepted without backward jumps is accepted with them |
| `BpfValidate.BackwardOnly` | cbpf-rs/src/lib.rs:495-503 | and not conversely |
| `BpfExact.AcceptsExactly` | cbpf-rs/src/lib.rs:394-546 | a program is accepted if and only if it is neither empty nor too large, from no machine can an instruction be undefined or leave the program (or go backward without the flag), none always divides by zero, the last one returns, and no jump leaves the program on a side its test never takes |
| `BpfExact.LastMustReturn` | cbpf-rs/src/lib.rs:538-543 | without backward jumps the last condition but one follows from the others |
| `BpfExact.InvalidIsMeaningless` | cbpf-rs/src/lib.rs:402-534 | `InvalidInstruction` is reported exactly for instructions that are undefined whatever the machine |
| `BpfExact.BadAccessOverreaches` | cbpf-rs/src/lib.rs:424-466 | `BadMemoryAccess` exactly for those undefined with 16 words of memory and defined with more |
| `BpfExact.ZeroDivisorDivides` | cbpf-rs/src/lib.rs:478-482 | `DivideByZero` exactly for those that divide by zero from every machine |
| `BpfExact.BadJumpExactly` | cbpf-rs/src/lib.rs:487-516 | `BadJumpTarget` exactly for jumps that can go wrong, or leave the program on a side never taken |
| `BpfExact.ConditionalGoesWrong` | cbpf-rs/src/lib.rs:506-512 | a conditional jump can go wrong if and only if a side its test can take leaves the program |
| `BpfExact.DeadSideIsRejected` | cbpf-rs/src/lib.rs:506-512 | so the validator rejects more than it must: a program none of whose instructions can go wrong is rejected for a jump never taken |
| `BpfSemantics.StepIsSafe` | cbpf-rs/src/lib.rs:209-392 | progress and preservation: a step of a validated program is never stuck and keeps pc and memory in range |
| `BpfSemantics.NeverStuck` | cbpf-rs/src/lib.rs:209-392 | over runs of every length, under either flag setting |
| `BpfSemantics.ForwardProgramsHalt` | cbpf-rs/src/lib.rs:168-170 | without backward jumps a program returns within as many iterations as it has instructions |
| `BpfSemantics.ConstantDivisorIsNonzero` | cbpf-rs/src/lib.rs:478-482 | the interpreter's tests for a zero constant divisor are dead code |
| `BpfSemantics.RunExtends` | cbpf-rs/src/lib.rs:223-287 | without a length instruction, a run with no out-of-range load is the same on the packet followed by any bytes |
| `BpfSemantics.ExtensionNeedsBoth` | cbpf-rs/src/lib.rs:223-287 | and neither condition can be left out |
| `Bits.BitsDetermine` | cbpf-rs/src/lib.rs:331-347 | a number is determined by its bits, so the rows that follow say everything about the bitwise operations |
| `BpfOpcodes.ReturnConstant` | cbpf-rs/src/lib.rs:220 | opcode 0x06: returns its constant |
| `BpfOpcodes.ReturnAccumulator` | cbpf-rs/src/lib.rs:221 | opcode 0x16: returns the accumulator |
| `BpfOpcodes.LoadWordAt` | cbpf-rs/src/lib.rs:223-230 | opcode 0x20: loads the big-endian word at `k`, or returns 0 if it is not all in the packet |
| `BpfOpcodes.LoadHalfwordAt` | cbpf-rs/src/lib.rs:232-239 | opcode 0x28: loads the big-endian halfword at `k`, or returns 0 if it is not all in the packet |
| `BpfOpcodes.LoadByteAt` | cbpf-rs/src/lib.rs:241-248 | opcode 0x30: loads the big-endian byte at `k`, or returns 0 if it is not all in the packet |
| `BpfOpcodes.LoadWordFrom` | cbpf-rs/src/lib.rs:253-260 | opcode 0x40: loads the big-endian word at `x + k` modulo 2^32, or returns 0 if it is not all in the packet |
| `BpfOpcodes.LoadHalfwordFrom` | cbpf-rs/src/lib.rs:262-269 | opcode 0x48: loads the big-endian halfword at `x + k` modulo 2^32, or returns 0 if it is not all in the packet |
| `BpfOpcodes.LoadByteFrom` | cbpf-rs/src/lib.rs:271-278 | opcode 0x50: loads the big-endian byte at `x + k` modulo 2^32, or returns 0 if it is not all in the packet |
| `BpfOpcodes.LoadHeaderLength` | cbpf-rs/src/lib.rs:280-287 | opcode 0xb1: `x` becomes four times the low half of the byte at `k` |
| `BpfOpcodes.LoadLength` | cbpf-rs/src/lib.rs:250 | opcode 0x80: `a` becomes the packet length, truncated to 32 bits |
| `BpfOpcodes.LoadLengthIndex` | cbpf-rs/src/lib.rs:251 | opcode 0x81: `x` becomes the packet length, truncated to 32 bits |
| `BpfOpcodes.LoadConstant` | cbpf-rs/src/lib.rs:289 | opcode 0x00: `a` becomes `k` |
| `BpfOpcodes.LoadConstantIndex` | cbpf-rs/src/lib.rs:290 | opcode 0x01: `x` becomes `k` |
| `BpfOpcodes.LoadScratch` | cbpf-rs/src/lib.rs:292 | opcode 0x60: `a` becomes memory word `k` |
| `BpfOpcodes.LoadScratchIndex` | cbpf-rs/src/lib.rs:293 | opcode 0x61: `x` becomes memory word `k` |
| `BpfOpcodes.StoreScratch` | cbpf-rs/src/lib.rs:296 | opcode 0x62: memory word `k` becomes `a` |
| `BpfOpcodes.StoreScratchIndex` | cbpf-rs/src/lib.rs:297 | opcode 0x63: memory word `k` becomes `x` |
| `BpfOpcodes.JumpAlwaysGoes` | cbpf-rs/src/lib.rs:299-302 | opcode 0x05: goes `k` instructions further, modulo 2^32 |
| `BpfOpcodes.JumpIfGreater` | cbpf-rs/src/lib.rs:304 | opcode 0x25: takes `jt` if and only if `a > k`, else `jf` |
| `BpfOpcodes.JumpIfGreaterIndex` | cbpf-rs/src/lib.rs:309 | opcode 0x2d: takes `jt` if and only if `a > x`, else `jf` |
| `BpfOpcodes.JumpIfAtLeast` | cbpf-rs/src/lib.rs:305 | opcode 0x35: takes `jt` if and only if `a >= k`, else `jf` |
| `BpfOpcodes.JumpIfAtLeastIndex` | cbpf-rs/src/lib.rs:310 | opcode 0x3d: takes `jt` if and only if `a >= x`, else `jf` |
| `BpfOpcodes.JumpIfEqual` | cbpf-rs/src/lib.rs:306 | opcode 0x15: takes `jt` if and only if `a == k`, else `jf` |
| `BpfOpcodes.JumpIfEqualIndex` | cbpf-rs/src/lib.rs:311 | opcode 0x1d: takes `jt` if and only if `a == x`, else `jf` |
| `BpfOpcodes.JumpIfCommonBit` | cbpf-rs/src/lib.rs:307 | opcode 0x45: takes `jt` if and only if `a` and `k` have a set bit in common, else `jf` |
| `BpfOpcodes.JumpIfCommonBitIndex` | cbpf-rs/src/lib.rs:312 | opcode 0x4d: takes `jt` if and only if `a` and `x` have a set bit in common, else `jf` |
| `BpfOpcodes.AddConstant` | cbpf-rs/src/lib.rs:349 | opcode 0x04: `a` becomes `a + k` modulo 2^32 |
| `BpfOpcodes.AddIndex` | cbpf-rs/src/lib.rs:314 | opcode 0x0c: `a` becomes `a + x` modulo 2^32 |
| `BpfOpcodes.SubtractConstant` | cbpf-rs/src/lib.rs:350 | opcode 0x14: `a` becomes `a - k` modulo 2^32 |
| `BpfOpcodes.SubtractIndex` | cbpf-rs/src/lib.rs:315 | opcode 0x1c: `a` becomes `a - x` modulo 2^32 |
| `BpfOpcodes.MultiplyConstant` | cbpf-rs/src/lib.rs:351 | opcode 0x24: `a` becomes `a * k` modulo 2^32 |
| `BpfOpcodes.MultiplyIndex` | cbpf-rs/src/lib.rs:316 | opcode 0x2c: `a` becomes `a * x` modulo 2^32 |
| `BpfOpcodes.DivideConstant` | cbpf-rs/src/lib.rs:352-358 | opcode 0x34: `a` becomes the quotient by `k`, or 0 is returned if that is 0 |
| `BpfOpcodes.DivideIndex` | cbpf-rs/src/lib.rs:317-323 | opcode 0x3c: `a` becomes the quotient by `x`, or 0 is returned if that is 0 |
| `BpfOpcodes.RemainConstant` | cbpf-rs/src/lib.rs:359-365 | opcode 0x94: `a` becomes the remainder by `k`, or 0 is returned if that is 0 |
| `BpfOpcodes.RemainIndex` | cbpf-rs/src/lib.rs:324-330 | opcode 0x9c: `a` becomes the remainder by `x`, or 0 is returned if that is 0 |
| `BpfOpcodes.AndConstant` | cbpf-rs/src/lib.rs:366 | opcode 0x54: each bit of `a` afterwards is set if and only if it was set in both `a` and `k` |
| `BpfOpcodes.AndIndex` | cbpf-rs/src/lib.rs:331 | opcode 0x5c: each bit of `a` afterwards is set if and only if it was set in both `a` and `x` |
| `BpfOpcodes.OrConstant` | cbpf-rs/src/lib.rs:367 | opcode 0x44: each bit of `a` afterwards is set if and only if it was set in `a` or in `k` |
| `BpfOpcodes.OrIndex` | cbpf-rs/src/lib.rs:332 | opcode 0x4c: each bit of `a` afterwards is set if and only if it was set in `a` or in `x` |
| `BpfOpcodes.XorConstant` | cbpf-rs/src/lib.rs:368 | opcode 0xa4: each bit of `a` afterwards is set if and only if it was set in exactly one of `a` and `k` |
| `BpfOpcodes.XorIndex` | cbpf-rs/src/lib.rs:333 | opcode 0xac: each bit of `a` afterwards is set if and only if it was set in exactly one of `a` and `x` |
| `BpfOpcodes.ShiftLeftConstant` | cbpf-rs/src/lib.rs:369-375 | opcode 0x64: bit `i` of `a` afterwards is the former bit `i - k`, nothing comes in and what leaves the top is lost, for every `k` |
| `BpfOpcodes.ShiftLeftIndex` | cbpf-rs/src/lib.rs:334-340 | opcode 0x6c: bit `i` of `a` afterwards is the former bit `i - x`, nothing comes in and what leaves the top is lost, for every `x` |
| `BpfOpcodes.ShiftRightConstant` | cbpf-rs/src/lib.rs:376-382 | opcode 0x74: bit `i` of `a` afterwards is the former bit `i + k`, for every `k` |
| `BpfOpcodes.ShiftRightIndex` | cbpf-rs/src/lib.rs:341-347 | opcode 0x7c: bit `i` of `a` afterwards is the former bit `i + x`, for every `x` |
| `BpfOpcodes.NegateAccumulator` | cbpf-rs/src/lib.rs:384 | opcode 0x84: `a` becomes `-a` modulo 2^32 |
| `BpfOpcodes.CopyToIndex` | cbpf-rs/src/lib.rs:386 | opcode 0x07: `x` becomes `a` |
| `BpfOpcodes.CopyToAccumulator` | cbpf-rs/src/lib.rs:387 | opcode 0x87: `a` becomes `x` |
| `BpfOpcodes.UnknownIsStuck` | cbpf-rs/src/lib.rs:389 | every other opcode is undefined |
| `BpfOpcodes.BeginsFromZero` | cbpf-rs/src/lib.rs:210-213 | a run begins with both registers and all scratch memory zero |
| `BpfOpcodes.AddsConstants` | cbpf-rs/src/lib.rs:209-392 | loading two constants, adding and returning yields their sum modulo 2^32, on every packet |
| `BpfInterpreter.WordIsLoad` | cbpf-rs/src/lib.rs:137-142 | shifts and ors of four bytes are the big-endian place value |
| `BpfInterpreter.HalfwordIsLoad` | cbpf-rs/src/lib.rs:132-135 | likewise of two |
| `BpfInterpreter.AluCodeIsArithmetic` | cbpf-rs/src/lib.rs:314-384 | the wrapping operations are arithmetic modulo 2^32, and the guarded shifts are shifts by any amount |
| `BpfInterpreter.LoadChecked` | cbpf-rs/src/lib.rs:223-274 | the bounds tests admit exactly the loads that lie in the packet |
| `BpfInterpreter.Arm` | cbpf-rs/src/lib.rs:219-390 | every arm does what the checked semantics does |
| `BpfInterpreter.FilterSlice` | cbpf-rs/src/lib.rs:209-392 | the unchecked loop equals the checked semantics on every validated program and packet |
| `BpfInterpreter.Filter` | cbpf-rs/src/lib.rs:205-207 | for programs without backward jumps it returns, with that value |

## Left out

- FilterSlice: cut off after a given number of iterations, because a program with backward jumps may never return; `Filter` needs no cut-off.
- Cslab.Iterate: exact while nothing has been yielded, because the code never decreases the count.
- Raw allocation, layout, the union and `UnsafeCell`: a slot is a tagged value and the bitmap an array of words; `Send` and `Sync` bounds are not modelled.
- Capacity zero: the source rejects it with an assertion (cslab/src/lib.rs:234), so a positive capacity is a precondition here.
- Memory orderings of `Arc`'s own counters: reference-count changes happen in the order of the run, and a destructor follows the accesses of the handles whose drop caused it.
- Mutex poisoning, panics in item destructors or in closures, and leaked handles (`mem::forget`).
- The reader side of `Iter` inside the machine of `RcuMachine`: a reader's scan is a sequence of its loads there; order and completeness of scans are proved in `ScanRuns`.
- The classes `RcuCslab`, `RcuIterMut` and `RcuBox` run one call at a time; interleaving is in `RcuMachine`, `BoxedReader` and `BoxUpdates`. An iterator dropped early, or one whose proxies outlive it, is a run of the machine rather than a method of the class.
- `VacantEntry` and `VacantRcuEntry`: an insertion split in two under the same borrow.
- Decreasing the frontier, which the design notes discuss and the code does not do.
- The crossbeam-epoch, aarc, arc-swap and rwlock forms of `RcuBox`, and `RcuOptionGuard`.
- Conversions from and to pcap types, `new_unvalidated` and the fuzz targets of `cbpf-rs`.
- `zpr-ext` and `zpr-utils`: wrappers over system calls and a cryptography library, and fixed-size address conversions.
