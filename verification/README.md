# Verified model of the Multi2Sim OpenCL and CUDA runtimes

Multi2Sim's runtime libraries stand between an application and the simulated device. This project models,
in Dafny, the parts of them that are hardest to get right by reading: the command queues and streams that
several threads share, and the data structures underneath.

* **Circular list** (`Ring.dfy`, `List.dfy`): the growable circular buffer of `list.c` as a class over an
  array. Every operation refines an operation on the sequence it denotes, and its in-place quicksort is
  proved to sort and permute for every position of the head.
* **Allocation tracker** (`HashTable.dfy`, `MHandle.dfy`, `GuardBytes.dfy`, `Tombstones.dfy`): the
  open-addressing table with tombstones of `mhandle.c`, its rehashing and running totals, and malloc, realloc
  and free with guard bytes on top of it. The table refines a finite map from pointers to blocks.
* **OpenCL command queues** (`OpenCLModel.dfy`, `OpenCLSafety.dfy`, `OpenCLProgress.dfy`, `OpenCLOrder.dfy`,
  `OpenCLCalls.dfy`, `OpenCLDeadlock.dfy`, `OpenCLDrain.dfy`, `OpenCLRuntime.dfy`): any number of queues with one worker thread
  each, host threads, wait lists, completion and user events, reference counts, the `process` flag and its
  condition variable, as a labelled transition system. Results hold for every interleaving and every length
  of run.
* **Buffer mapping** (`OpenCLMem.dfy`, `OpenCLMapping.dfy`): clEnqueueMapBuffer, clEnqueueUnmapMemObject and
  their commands, which run later than the calls, as a transition system of a buffer and its pending commands.
* **CUDA streams** (`CudaModel.dfy`, `CudaOrder.dfy`, `CudaStream.dfy`, `CudaEvents.dfy`, `CudaDrain.dfy`,
  `CudaCalls.dfy`, `CudaLaunch.dfy`, `CudaRuntime.dfy`): the stream worker, events, and the launch that is spread over
  cudaConfigureCall, cudaSetupArgument, cudaLaunch and cuLaunchKernel while the worker is already looking at
  the command.
* **ELF symbols and buffers** (`ElfSymbols.dfy`, `ElfBuffer.dfy`): the sorted symbol index, whose lookup equals
  a linear scan, and line reading.

`Basics.dfy` holds the types that several modules share.

## How to read it

The two protocols follow one pattern. `...Model` gives the states, the steps (`Label`), when a step can be
taken (`Enabled`) and what it does (`Apply`). Invariants are predicates on states; a lemma per kind of step
shows that the step keeps them, `StepInv` collects those lemmas, and `RunInv` extends them to all runs. Fields
marked as history record what happened; a step depends on them only for what callers owe (a command is
enqueued once, an application releases only references that it holds). `...Runtime` has the operations as
methods that update objects, with the loops of the C code, and proves that each does to its objects what the
step of the transition system does: for OpenCL to the queue and to the table of events, for CUDA to the whole
state.

`OpenCLCalls`, `CudaEvents` and `CudaLaunch` state what a caller gets in terms of the calls that it made, over
whole runs. Order, safety and conservation results hold for every run. Where a result depends on how the library is
called, a predicate says so. `Polite` (deadlock freedom, shutdown): a wait list names events of commands
already enqueued, which is how applications get them, and nothing is enqueued after END. `Own` (the CUDA launch
handoff): a thread configures streams that it created; for any other stream its next cudaSetupArgument does
not find the one it configured. `Closed` and `Unblocked` (OpenCL drains): the commands that a queue needs,
directly or through others, and no open user event among those they wait for.

What the code does not do is stated with its exact condition and a concrete input:

* A lookup in the allocation table ends if and only if the pointer is live or a slot has never been used
  (`SearchEndsExactly`). Tombstones are not counted when the table decides to grow, so a program that never
  holds more than eight blocks can reach a table on which every failing lookup runs forever
  (`FillWithTombstones`).
* A block can be freed only if it is not empty, although an empty one can be allocated (`FreeBlock`,
  `FreeOfEmptyBlock`).
* A buffer mapped for writing only is not fetched but is written back whole, so unmapping it changes bytes
  that nobody stored, unless the region equals the host memory already (`IdentityExactly`,
  `WriteOnlyMapLosesData`).
* The mapped flag is cleared when the unmap command runs, not when it is enqueued. So a program that maps a
  buffer again right after unmapping it can abort (`RemapAborts`), and a second unmap is accepted and then
  fatal if the queue is drained (`SecondUnmapAborts`), though later maps may happen to save it
  (`SecondUnmapMaySurvive`). A run is safe at all of its points if and only if it maps only while unmapped and
  unmaps only while no unmap is pending (`SafeExactly`).
* The list of a queue that is being freed is empty when its worker has returned if and only if no command but
  the last one enqueued is END (`EmptyAfterEndExactly`, `EnqueueAfterEnd`).
* A worker that waits for a user event which is set to an error code waits forever (`FailedWaitIsForever`);
  otherwise the workers are stuck on a set of commands only if one of them waits for an open user event
  (`StuckExactly`).
* cudaSetupArgument and cudaLaunch address the command at index 0, whatever it is, and cuLaunchKernel the
  first kernel launch of the list, although the comments speak of the last command. A launch works under every
  interleaving if and only if it has an argument, its stream is empty at cudaConfigureCall, and the thread is
  configuring no stream with a lower index (`LaunchWorksExactly`). Otherwise its arguments may be attached to a
  command that is gone when cudaLaunch looks for them (`SetupMissesItsLaunch`), or the same calls may work
  (`SameCallsMayWork`), depending on the worker. A launch without arguments fails always (`NeedsArgument`).

Where code and comments differ the model follows the code. Besides the comment just mentioned,
elf_buffer_read_line is documented to return the number of bytes read; it returns the number of characters
stored, without the terminator it consumed. With shared memory, CL_MEM_COPY_HOST_PTR alone copies nothing.

## Model

Source paths are relative to the root of the Multi2Sim repository. The table names the members that state a
result; lemmas that only prepare one are documented where they stand.

| member | source | states |
|---|---|---|
| `OpenCLDeadlock.StuckExactly` | multi2sim/runtime/opencl/event.c:121-146 | deadlock freedom over any number of queues, as an exact condition: when no worker can go on, a set of commands that needs no others contains an active command if and only if the worker of one of its commands waits for an open user event |
| `OpenCLDeadlock.Progress` | multi2sim/runtime/opencl/command-queue.c:47-57 | an active command always has a worker that can take a step, or a command that it needs waits for an open user event: the chain of needed commands goes back in the order of enqueueing |
| `OpenCLDrain.NeverDeadlocked` | multi2sim/runtime/opencl/command-queue.c:47-57 | the same in every state reached by a run in which wait lists name events already handed out |
| `OpenCLDeadlock.FailedWaitIsForever` | multi2sim/runtime/opencl/event.c:140-142 | a worker that waits for a user event set to an error code waits for it in every continuation |
| `OpenCLDeadlock.RunKeepsClosed` | multi2sim/runtime/opencl/command.c:199-206 | what an enqueued command needs never changes afterwards |
| `OpenCLDrain.DrainIsBounded` | multi2sim/runtime/opencl/command-queue.c:133-167 | any run made of worker steps only (spurious wakeups excluded) has at most as many steps as the work measure of its first state |
| `OpenCLDrain.StepWork` | multi2sim/runtime/opencl/command.c:411-429 | each step of a worker strictly decreases the measure summed over all queues, including the flush before a wait, which may wake another worker |
| `OpenCLDrain.DrainEnds` | multi2sim/runtime/opencl/command-queue.c:41-61 | from every state of the invariant the workers can be run until none can go on |
| `OpenCLDrain.FlushIsHonoured` | multi2sim/runtime/opencl/command-queue.c:120-150 | after any run a flush leads to execution: however the workers interleave they stop within a bound known at the flush, and then everything enqueued on the queue before it has been freed in order and has run, END excepted, unless one of these commands or one that they need waits for a user event |
| `OpenCLDrain.FlushedAreDone` | multi2sim/runtime/opencl/command-queue.c:120-130 | when the workers are stuck, every flushed command that no open user event blocks has been taken, run and freed in order |
| `OpenCLDrain.FlushCovers` | multi2sim/runtime/opencl/command-queue.c:120-130 | after a flush all commands enqueued so far will be taken without another flush, whether or not `process` was already set |
| `OpenCLDrain.RunKeepsFlushed` | multi2sim/runtime/opencl/command-queue.c:143-150 | no run of other threads undoes a flush before the commands it covers have been taken |
| `OpenCLDrain.Shutdown` | multi2sim/runtime/opencl/command-queue.c:87-102 | once END is last in a queue and flushed, however other threads interleave, when no worker can move and no user event blocks the queue, the worker has returned, the list is empty, everything before END has run, and everything was freed in enqueue order |
| `OpenCLDrain.EmptyAfterEndExactly` | multi2sim/runtime/opencl/command-queue.c:92-96 | in every run, the assertion after the join holds when the worker has returned if and only if no command but the last one enqueued is END |
| `OpenCLDrain.EnqueueAfterEnd` | multi2sim/runtime/opencl/command-queue.c:92-96 | concrete run in which a command enqueued after END is left in the list when the worker has returned |
| `OpenCLCalls.StartsAfterItsWaits` | multi2sim/runtime/opencl/command.c:182-220 | from the call that creates a command with a kind, queue, wait list and wish for an event: in every later state it is just that, it has an event exactly if asked for, once it has started every event that the caller named is complete, and until it is freed it holds a reference on each for every time it was named |
| `OpenCLCalls.HistoryIsEnqueued` | multi2sim/runtime/opencl/command-queue.c:105-117 | over any run, a queue's history grows by exactly the commands that the calls enqueue on it, in order |
| `OpenCLCalls.NothingBeforeFlush` | multi2sim/runtime/opencl/command-queue.c:143-145 | in every run without a flush of the queue, by a call or before a wait, a queue that is not being processed takes no command |
| `OpenCLCalls.CountFromCalls` | multi2sim/runtime/opencl/event.c:254-272 | in every run an event's reference count is one, plus its clRetainEvent calls, minus its clReleaseEvent calls, plus what the commands not yet freed hold |
| `OpenCLCalls.UserEventIsFinal` | multi2sim/runtime/opencl/event.c:288-295 | what a user event was set to is its status in every continuation |
| `OpenCLCalls.CompletingReleases` | multi2sim/runtime/opencl/event.c:295-297 | after a user event has been set to complete, every worker that waits for it, then or later, can go on to its next event |
| `OpenCLOrder.InOrderExecution` | multi2sim/runtime/opencl/command-queue.c:105-167 | in every run a command's event is given a prefix of QUEUED, SUBMITTED, RUNNING, COMPLETE, and from status RUNNING on every event of its wait list is complete and every command enqueued earlier on its queue has finished and been freed |
| `OpenCLOrder.QueueDiscipline` | multi2sim/runtime/opencl/command-queue.c:105-150 | in every run each queue runs and frees prefixes of its enqueue history, its list is the rest of that history, `process` implies a non-empty list, and an unsignalled sleeping worker implies `process` is 0 (no lost wakeup) |
| `OpenCLOrder.ReferencesConserved` | multi2sim/runtime/opencl/command.c:202-216 | in every run an event's count is the application's references plus its occurrences in wait lists and done slots of commands not yet freed; after all frees only the application's remain; an event in use is never destroyed |
| `OpenCLOrder.FinishCoversEarlier` | multi2sim/runtime/opencl/event.c:388-410 | clFinish: in every run, when the event of a command is complete, every command enqueued earlier on its queue has been run and freed |
| `OpenCLOrder.RunTrail` | multi2sim/runtime/opencl/event.c:66-118 | over any run a status once given to an event is never withdrawn |
| `OpenCLProgress.StepOrdered` | multi2sim/runtime/opencl/command.c:199-216 | every step keeps the order argument: wait lists name commands enqueued earlier, stamps grow along each queue with END last, and an awaited listed command's queue stays processable |
| `OpenCLProgress.FlushReachesAwaited` | multi2sim/runtime/opencl/event.c:125-135 | the flush at the start of a wait makes the queue of the awaited command processable |
| `OpenCLProgress.ProcessUntilEmpty` | multi2sim/runtime/opencl/command-queue.c:148-150 | no step of any thread resets `process` except the dequeue that empties the list |
| `OpenCLSafety.StepInv` | multi2sim/runtime/opencl/command-queue.c:41-167 | every step of every thread keeps the whole invariant: queue shape, FIFO, no lost wakeup, event life cycle, satisfied wait lists and reference conservation |
| `OpenCLSafety.RunInv` | multi2sim/runtime/opencl/command-queue.c:41-167 | the invariant holds in every state of every run |
| `OpenCLSafety.RefsAfterFree` | multi2sim/runtime/opencl/command.c:388-408 | freeing a command gives back exactly the references that its creation took, for every event and also for repeated wait events |
| `OpenCLSafety.WaitEventsAlive` | multi2sim/runtime/opencl/command.c:202-206 | all wait events and the done event of a command that is not freed still exist |
| `OpenCLSafety.NeverSkipsWaits` | multi2sim/runtime/opencl/event.c:166-174 | the early return of clWaitForEvents on a destroyed event is unreachable from opencl_command_run, so waits are never skipped |
| `OpenCLRuntime.CommandQueue.constructor` | multi2sim/runtime/opencl/command-queue.c:64-84 | a new queue is the initial queue of the transition system, over an empty circular list |
| `OpenCLRuntime.CommandQueue.Enqueue` | multi2sim/runtime/opencl/command-queue.c:105-117 | sets the event to QUEUED and appends to list and history, and changes nothing else, as the enqueue step does |
| `OpenCLRuntime.CommandQueue.Flush` | multi2sim/runtime/opencl/command-queue.c:120-130 | the mutable flush equals the flush step, signal included |
| `OpenCLRuntime.CommandQueue.Dequeue` | multi2sim/runtime/opencl/command-queue.c:133-167 | one pass under the lock: sleeps exactly when the loop test fails, otherwise takes the head, sets its event to SUBMITTED, resets `process` exactly when the list becomes empty, and frees END and leaves the thread |
| `OpenCLRuntime.CommandQueue.FlushForWait` | multi2sim/runtime/opencl/event.c:121-135 | before a wait, the queue of the event is flushed, also when it is the worker's own |
| `OpenCLRuntime.CommandQueue.PassWait` | multi2sim/runtime/opencl/event.c:140-142 | the wait goes on to the next event exactly when this one is complete |
| `OpenCLRuntime.CommandQueue.Start` | multi2sim/runtime/opencl/command.c:411-418 | the event becomes RUNNING before the command's function is called |
| `OpenCLRuntime.CommandQueue.Finish` | multi2sim/runtime/opencl/command.c:419-424 | the event becomes COMPLETE after it, and the command counts as run |
| `OpenCLRuntime.CommandQueue.Free` | multi2sim/runtime/opencl/command.c:388-408 | the worker's release of a finished command equals the free step and cannot fail while the command holds its references |
| `OpenCLRuntime.EventTable.UpdateRefs` | multi2sim/runtime/opencl/object.c:164-200 | succeeds exactly on an existing object and changes only its count, by the given amount |
| `OpenCLRuntime.EventTable.RetainWaits` | multi2sim/runtime/opencl/command.c:202-206 | the retain loop succeeds if and only if all wait events exist, and then adds to every event its number of occurrences |
| `OpenCLRuntime.EventTable.ReleaseWaits` | multi2sim/runtime/opencl/command.c:392-396 | the release loop takes from every event its number of occurrences, and cannot fail while those references are held |
| `OpenCLRuntime.EventTable.ReleaseCommand` | multi2sim/runtime/opencl/command.c:388-408 | opencl_command_free on the mutable table equals the release step and never reaches its fatal errors while the command holds its references |
| `OpenCLMapping.RoundTrip` | multi2sim/runtime/opencl/command.c:79-159 | after any well-behaved run of map, unmap, their queued commands and stores, with any number of maps, nothing has aborted, and whenever the buffer is unmapped the device holds exactly what it would hold if all stores had been made on it directly, in order |
| `OpenCLMapping.RunTracks` | multi2sim/runtime/opencl/command.c:79-159 | in every state of such a run the region is in host memory or on the device, as the pending commands say, and together they are the directly stored contents |
| `OpenCLMapping.MapReads` | multi2sim/runtime/opencl/command.c:90-104 | what a map for reading is for, whether or not it is for writing too: in a well-behaved run, once the map command has run and while the buffer stays mapped and the device leaves the region alone, the application reads at every place of the region it asked for what the directly stored contents have there |
| `OpenCLMapping.SafeExactly` | multi2sim/runtime/opencl/command-queue.c:683-794 | for every run: at all of its points nothing has aborted and the queue can be drained without aborting, if and only if the buffer is mapped only while unmapped, and an unmap is accepted only while none is pending |
| `OpenCLMapping.StepIsSafeExactly` | multi2sim/runtime/opencl/command-queue.c:683-794 | a single call or command keeps a safe state safe if and only if it obeys that rule |
| `OpenCLMapping.DrainsExactly` | multi2sim/runtime/opencl/command.c:86-88 | pending commands run through without a fatal error if and only if there are none, or the buffer is mapped and no command follows an unmap |
| `OpenCLMapping.RunKeepsValid` | multi2sim/runtime/opencl/command-queue.c:697-721 | over every run: a mapped buffer has host memory and its region is inside the buffer; shared memory has one copy |
| `OpenCLMapping.NoStores` | multi2sim/runtime/opencl/command.c:79-159 | without stores, well-behaved maps and unmaps ask for the identity on the device |
| `OpenCLMapping.RemapAborts` | multi2sim/runtime/opencl/command-queue.c:685-687 | concrete run of an in-order program that aborts because it maps again before its unmap command has run |
| `OpenCLMapping.SecondUnmapAborts` | multi2sim/runtime/opencl/command-queue.c:788-805 | concrete run in which a second unmap is accepted, and is fatal when the queue is drained |
| `OpenCLMapping.SecondUnmapMaySurvive` | multi2sim/runtime/opencl/command-queue.c:788-805 | concrete continuation in which later maps, at the right times, keep that second unmap from being fatal |
| `OpenCLMem.MapTakesRegion` | multi2sim/runtime/opencl/command-queue.c:697-721 | the buffer takes the caller's flags, offset and size; host memory stays, or is the device memory, or is new and zero |
| `OpenCLMem.MapFetches` | multi2sim/runtime/opencl/command.c:90-104 | byte by byte: separate memory mapped with the read bit gets the region from the device, and nothing else changes |
| `OpenCLMem.UnmapWritesBack` | multi2sim/runtime/opencl/command.c:124-153 | byte by byte: separate memory mapped with the write bit gives the region back; host memory of its own is freed, and any other is kept |
| `OpenCLMem.IdentityExactly` | multi2sim/runtime/opencl/command.c:92-138 | map and unmap without stores leave the device unchanged if and only if the map was for reading, or not for writing, or the region equals the host memory already |
| `OpenCLMem.WriteOnlyMapLosesData` | multi2sim/runtime/opencl/command.c:92-138 | concrete buffer whose contents a write-only map followed by unmap destroys |
| `OpenCLMem.CreateBuffer` | multi2sim/runtime/opencl/mem.c:88-168 | refused exactly when a host pointer is needed and missing; otherwise the new buffer is unmapped and its device memory has the user's bytes where the code copies or uses them |
| `OpenCLMem.MemObject.constructor` | multi2sim/runtime/opencl/mem.c:130-163 | the device memory is the user's array exactly for shared memory that uses the pointer, and holds its bytes when the pointer is used, or copied to separate memory |
| `OpenCLMem.MemObject.EnqueueMap` | multi2sim/runtime/opencl/command-queue.c:683-721 | fatal exactly when already mapped, invalid exactly when the region leaves the buffer, otherwise sets the map fields to the arguments, provides host memory (what there was, the device memory itself, or fresh) and returns the pointer at the offset; errors change nothing |
| `OpenCLMem.MemObject.RunMap` | multi2sim/runtime/opencl/command.c:79-109 | fatal exactly when not mapped, otherwise the map command of the value model; after a map for reading, host and device agree on the region |
| `OpenCLMem.MemObject.RunUnmap` | multi2sim/runtime/opencl/command.c:113-159 | fatal exactly when not mapped, otherwise the unmap command of the value model; after a map for writing the device has the host's bytes in the region, and host memory is released exactly if it was the runtime's own |
| `OpenCLMem.MemObject.EnqueueUnmap` | multi2sim/runtime/opencl/command-queue.c:788-794 | accepted exactly for a mapped buffer and a pointer inside its host memory, wherever the mapped region lies |
| `OpenCLMem.SecondUnmapIsFatal` | multi2sim/runtime/opencl/command-queue.c:788-805 | the same on the mutable object: both unmaps are accepted, and the second one is fatal if it runs before another map |
| `MHandle.Tracker.Insert` | multi2sim/runtime/cuda/mhandle.c:119-143 | adds exactly the pointer to the map of live blocks, one to the count and its size to the bytes; without growth it fills the first slot on the probe path that is not live; with growth there is a table of double size without tombstones; terminates because growth never nests |
| `MHandle.Tracker.Grow` | multi2sim/runtime/cuda/mhandle.c:91-116 | rehashing keeps the map, the count and the bytes, doubles the table, drops every tombstone, and keeps every pointer reachable |
| `MHandle.Tracker.Move` | multi2sim/runtime/cuda/mhandle.c:107-113 | one rehash insertion keeps the totals and never triggers another growth |
| `MHandle.Tracker.FindFree` | multi2sim/runtime/cuda/mhandle.c:128-131 | the probe loop ends at the first slot that is not live, all slots before it on the path being live |
| `MHandle.Tracker.Get` | multi2sim/runtime/cuda/mhandle.c:146-159 | where the search ends, the result is a slot holding the pointer, or none exactly when the pointer is not live |
| `HashTable.SearchEndsExactly` | multi2sim/runtime/cuda/mhandle.c:150-157 | for every table and pointer, the lookup loop ends if and only if the pointer is live or some slot has never been used |
| `HashTable.ProbeExactly` | multi2sim/runtime/cuda/mhandle.c:129-131 | the k-th slot that the loops visit is (pointer + k) modulo the size, and lies k places along the path |
| `Tombstones.FillWithTombstones` | multi2sim/runtime/cuda/mhandle.c:124-131 | a program of mhandle_malloc and mhandle_free calls, with at most eight blocks at a time on addresses aligned to 16 bytes, reaches a table with nothing live on which the lookup of every pointer runs forever |
| `MHandle.Tracker.Remove` | multi2sim/runtime/cuda/mhandle.c:162-180 | aborts exactly on a pointer that is not live; otherwise takes exactly it out of the map and out of both totals, and keeps every slot as active as it was |
| `MHandle.Tracker.Finish` | multi2sim/runtime/cuda/mhandle.c:494-515 | reports the place of every live block once, in the order of the table, and the assertion on remaining bytes holds in every state between calls |
| `MHandle.Tracker.constructor` | multi2sim/runtime/cuda/mhandle.c:75-88 | the initial table stands for the empty map and has no slot in use |
| `HashTable.WellFormedAfterInsert` | multi2sim/runtime/cuda/mhandle.c:128-140 | filling the first slot on a pointer's path that is not live keeps all pointers unique and reachable through slots in use |
| `HashTable.WellFormedAfterRemove` | multi2sim/runtime/cuda/mhandle.c:175-176 | a tombstone breaks no probe path |
| `HashTable.BlocksAfterInsert` | multi2sim/runtime/cuda/mhandle.c:133-140 | storing a new pointer in a slot that is not live adds exactly that binding to the map |
| `HashTable.BlocksAfterRemove` | multi2sim/runtime/cuda/mhandle.c:175-176 | marking a slot removed deletes exactly its binding from the map |
| `HashTable.CountIsMapSize` | multi2sim/runtime/cuda/mhandle.c:141-142 | the number of live slots is the number of live blocks |
| `GuardBytes.StoresKeepGuards` | multi2sim/runtime/cuda/mhandle.c:195-221 | any sequence of stores that avoids a block's guard bytes leaves the block passing its check |
| `GuardBytes.ChangedGuardIsSeen` | multi2sim/runtime/cuda/mhandle.c:212-221 | a single guard byte with a different value makes the check fail |
| `GuardBytes.MarkCorrupt` | multi2sim/runtime/cuda/mhandle.c:183-192 | writes both guards and no other byte |
| `GuardBytes.CheckCorrupt` | multi2sim/runtime/cuda/mhandle.c:195-255 | asserts exactly on an empty block, passes exactly when both guards are intact, otherwise reports the side that the last test found and the nearest live pointers below and above |
| `GuardBytes.FindNeighbours` | multi2sim/runtime/cuda/mhandle.c:223-237 | the scan finds the greatest live pointer below and the least live pointer above, or none if there is none |
| `GuardBytes.Heap.Malloc` | multi2sim/runtime/cuda/mhandle.c:304-325 | adds exactly the new block to the live map and the totals, with intact guards, changes no other byte, and keeps all blocks separate and intact |
| `GuardBytes.Heap.Register` | multi2sim/runtime/cuda/mhandle.c:549-552 | adds exactly the block, without guards |
| `GuardBytes.Heap.FreeBlock` | multi2sim/runtime/cuda/mhandle.c:264-301 | each outcome exactly characterised: null is ignored, a pointer that is not live aborts, an empty block hits the assertion, a changed guard is reported; otherwise exactly that block is cleared and leaves the map and totals and no other block is touched; without corruption none is reported |
| `GuardBytes.Heap.Realloc` | multi2sim/runtime/cuda/mhandle.c:357-415 | each outcome exactly characterised; a failure changes nothing; size 0 frees; otherwise the old block is replaced by the new one in the map and the totals with intact guards, the common part of the contents is kept, and other blocks are untouched |
| `GuardBytes.Heap.Replace` | multi2sim/runtime/cuda/mhandle.c:398-414 | the old entry leaves and the new one enters with the count unchanged and the common contents kept, also when the block stays in place or overlaps its old place |
| `GuardBytes.FreeOfEmptyBlock` | multi2sim/runtime/cuda/mhandle.c:207-213 | a block of size 0 from malloc cannot be freed: the size assertion fails |
| `CircularList.List.Sort` | multi2sim/runtime/cuda/list.c:302-306 | for every head position and every comparator that is a total preorder on the elements: terminates with a sorted permutation of the old contents |
| `CircularList.List.SortRange` | multi2sim/runtime/cuda/list.c:57-82 | sorts [lo, hi], permutes only inside it, and both recursive calls are on shorter ranges |
| `CircularList.List.Partition` | multi2sim/runtime/cuda/list.c:61-77 | Hoare partition around the value at hi: a rearrangement of [lo, hi] with everything before i at most and everything after j at least the pivot, and both sides strictly shorter than the range |
| `CircularList.List.ScanBoth` | multi2sim/runtime/cuda/list.c:66-69 | both inner loops stop inside [lo, hi] at a misplaced pair and extend the partition |
| `CircularList.List.Insert` | multi2sim/runtime/cuda/list.c:171-211 | sequence insertion at every index, on both shift sides, across wraparound and growth; an index out of range changes only the error code |
| `CircularList.List.RemoveAt` | multi2sim/runtime/cuda/list.c:235-276 | sequence deletion on both shift sides, returning the element; an index out of range changes only the error code |
| `CircularList.List.Remove` | multi2sim/runtime/cuda/list.c:279-290 | takes out the first occurrence, or nothing and an error code |
| `CircularList.List.IndexOf` | multi2sim/runtime/cuda/list.c:214-232 | the least index of the element, or -1 exactly when it does not occur |
| `CircularList.List.Grow` | multi2sim/runtime/cuda/list.c:33-54 | doubles the size and moves the same contents to the start |
| `CircularList.List.Add` | multi2sim/runtime/cuda/list.c:125-136 | appends, across wraparound and growth |
| `CircularList.List.Get` | multi2sim/runtime/cuda/list.c:139-152 | the element at the logical index, or NULL and an error code exactly outside the bounds |
| `CircularList.List.Set` | multi2sim/runtime/cuda/list.c:155-168 | overwrites one logical position, or changes only the error code |
| `CircularList.List.Pop` | multi2sim/runtime/cuda/list.c:315-323 | returns and removes the last element; on an empty list changes only the error code |
| `CircularList.List.Dequeue` | multi2sim/runtime/cuda/list.c:354-362 | returns and removes the first element; on an empty list changes only the error code |
| `CircularList.List.Clear` | multi2sim/runtime/cuda/list.c:293-299 | empties the list |
| `CircularList.List.constructor` | multi2sim/runtime/cuda/list.c:91-102 | an empty list with at least four cells |
| `Ordering.AfterBothSides` | multi2sim/runtime/cuda/list.c:78-81 | the two recursive calls on the sides of a partition sort the whole range and stay inside it |
| `ElfSymbols.ElfFile.GetByAddress` | multi2sim/runtime/cuda/elf-format.c:268-319 | equals a linear specification over all symbols that does not use the comparator: none exactly when no symbol has a positive value at most addr; otherwise, of those with the greatest such value, one with the lowest binding and of these the first name in byte order, and the offset from it |
| `ElfSymbols.Lookup` | multi2sim/runtime/cuda/elf-format.c:188-319 | loading the entries of a file and looking an address up gives the best of the entries that have a name, whatever their order in the file |
| `ElfSymbols.CompareExactly` | multi2sim/runtime/cuda/elf-format.c:156-184 | the comparator is negative exactly for a lower value, or the same value and a lower binding (upper half of info), or the same of both and a name that comes first |
| `ElfSymbols.StrCmpExactly` | multi2sim/runtime/cuda/elf-format.c:181-181 | strcmp is negative exactly for a proper prefix, or a smaller byte at the first difference |
| `ElfSymbols.ElfFile.Search` | multi2sim/runtime/cuda/elf-format.c:284-298 | the binary search ends at an entry holding the greatest value not above addr |
| `ElfSymbols.ElfFile.FirstWithValue` | multi2sim/runtime/cuda/elf-format.c:305-313 | the walk backwards ends at the first entry with that value, also at the start of the table |
| `ElfSymbols.ElfFile.ReadSymbolTable` | multi2sim/runtime/cuda/elf-format.c:226-265 | the table is sorted by the comparator and holds exactly the named entries |
| `ElfSymbols.AddNamed` | multi2sim/runtime/cuda/elf-format.c:188-223 | adds every entry with a non-empty name as often as it occurs, and no other, in file order |
| `ElfSymbols.CompareIsPreorder` | multi2sim/runtime/cuda/elf-format.c:156-184 | the three-level comparison is a total preorder, so it can be sorted by |
| `ElfSymbols.BestIsUnique` | multi2sim/runtime/cuda/elf-format.c:156-184 | the linear specification determines value, binding and name of its answer, whatever the order of the symbols |
| `ElfBuffer.Buffer.ReadAll` | multi2sim/runtime/cuda/elf-format.c:74-105 | reading lines to the end partitions the buffer: the lines with their consumed terminators put back are exactly the unread bytes, each line is short enough and free of terminators |
| `ElfBuffer.Buffer.ReadLine` | multi2sim/runtime/cuda/elf-format.c:74-105 | one line: text and terminator are exactly the bytes consumed, at most `size` bytes are written, the rest of the destination is untouched, a terminator after exactly size - 1 characters is left for the next line, and the position moves if and only if size is at least 2 and bytes are left |
| `ElfBuffer.Buffer.Read` | multi2sim/runtime/cuda/elf-format.c:116-133 | reads the requested number of bytes or all that is left, copies exactly those, and with no destination only moves |
| `ElfBuffer.Buffer.Seek` | multi2sim/runtime/cuda/elf-format.c:56-61 | accepts exactly the positions within the buffer, its end included |
| `CudaLaunch.LaunchWorksExactly` | multi2sim/runtime/cuda/api-rt.c:1044-1245 | the exact condition for the handoff: a launch works under every interleaving with workers and other threads, every call finding its command and the thread's own command being released with its own configuration, kernel and argument bytes, if and only if it has an argument and, at cudaConfigureCall, the stream is empty and the thread is configuring none that it would find before it |
| `CudaLaunch.LaunchRunsAsCalled` | multi2sim/runtime/cuda/api-rt.c:1044-1245 | launch handoff end to end: under that condition the command runs at most once, with exactly these dimensions, this kernel and the bytes these arguments had, in this order, when cudaLaunch read them, and has run after six steps of its worker or when the stream is empty, whatever other threads do, and whatever the thread launches next as long as it configures this stream only when that is empty |
| `CudaLaunch.WantedMeans` | multi2sim/runtime/cuda/api-rt.c:1214-1222 | what is released is the launch with this configuration and kernel whose argument i has, at byte b, what memory has b places after the argument's address |
| `CudaLaunch.SetupPhase` | multi2sim/runtime/cuda/api-rt.c:1121-1126 | any number of cudaSetupArgument calls, with steps of others in between, add their arguments to the launch in call order |
| `CudaLaunch.OthersLeaveHead` | multi2sim/runtime/cuda/api.c:2026-2078 | no step of a worker or another thread moves or changes an unfinished launch at index 0 |
| `CudaLaunch.SentRuns` | multi2sim/runtime/cuda/stream.c:311-327 | as long as its thread configures the stream only when that is empty, a released command is filled in by nobody until it has run, and runs within six steps of its worker |
| `CudaLaunch.NeedsArgument` | multi2sim/runtime/cuda/api-rt.c:1214-1222 | a launch without arguments never works: the argument list is a null pointer |
| `CudaLaunch.NeedsEmptyList` | multi2sim/runtime/cuda/api-rt.c:1121-1126 | with commands left in the stream some interleaving breaks the launch: the arguments go to an older command, and the worker runs it before cudaLaunch, or an older launch takes the calls |
| `CudaLaunch.SetupMissesItsLaunch` | multi2sim/runtime/cuda/api-rt.c:1202-1217 | concrete run in which the argument is attached to a memory copy, the worker runs the copy, and cudaLaunch finds a command without arguments |
| `CudaLaunch.SameCallsMayWork` | multi2sim/runtime/cuda/api.c:2036-2077 | the same calls without a worker step in between release the new launch as called |
| `CudaCalls.CallsTouchOwn` | multi2sim/runtime/cuda/api-rt.c:1111-1126 | the calls of a thread change only commands of the stream it finds as its own |
| `CudaCalls.RunGood` | multi2sim/runtime/cuda/api.c:2026-2043 | in every run in which threads configure their own streams, a thread inside a launch works on the stream that its search finds |
| `CudaDrain.ReadyCommandsRun` | multi2sim/runtime/cuda/stream.c:305-330 | in every run, once the first n commands of a stream are ready, each step of its worker brings it one nearer to having run them all, and no other step throws it back |
| `CudaDrain.StreamDrains` | multi2sim/runtime/cuda/stream.c:305-330 | a stream of ready commands becomes empty in a number of worker steps known from the start, and everything in it has run in order |
| `CudaEvents.QueryExactly` | multi2sim/runtime/cuda/api.c:1787-1847 | cuEventRecord then cuEventQuery, over every interleaving: with no other record call of the event and no older command of it left to run, the event is recorded if and only if the new command has run; so not right after the call, and always when its stream has been seen empty |
| `CudaEvents.RecordIsVisible` | multi2sim/runtime/cuda/stream.c:203-214 | whatever other calls do, once the command of a cuEventRecord has run, or its stream has been seen empty, the event is recorded until it is reset |
| `CudaEvents.ResetNotReady` | multi2sim/runtime/cuda/api.c:1803-1804 | after the reset in cuEventRecord the event is not recorded in any run in which no command of it runs |
| `CudaEvents.RecordedExactly` | multi2sim/runtime/cuda/stream.c:210-211 | without a reset, an event is recorded if and only if it was, or a command of it has run meanwhile |
| `CudaEvents.HistoryIsEnqueued` | multi2sim/runtime/cuda/stream.c:366-373 | over any run, a stream's history grows by exactly the commands that the calls enqueue on it, in order |
| `CudaEvents.StepAppends` | multi2sim/runtime/cuda/stream.c:247-292 | each call puts one command with its own function, configuration and readiness at the end of its own stream, and no other step adds one |
| `CudaEvents.StepMemory` | multi2sim/runtime/cuda/api-rt.c:1221-1221 | host memory changes only by stores, at their own address: what cudaLaunch reads is what was stored last |
| `CudaStream.RecordedAfterSynchronize` | multi2sim/runtime/cuda/stream.c:203-214 | in every run, when the stream is seen empty, an event whose last cuEventRecord went to it, with none under way, is recorded, so cuEventQuery answers success |
| `CudaStream.OnlyLaunchedKernelsRun` | multi2sim/runtime/cuda/stream.c:317-322 | in every run, a kernel that has run was given its kernel by cuLaunchKernel and was ready |
| `CudaStream.StepInv` | multi2sim/runtime/cuda/stream.c:203-330 | every step keeps events, kernels and logs in agreement |
| `CudaOrder.StreamFifo` | multi2sim/runtime/cuda/stream.c:305-330 | in every run: the commands that ran are the first ones enqueued, in order and once each; the command dequeued and freed is the one just run |
| `CudaOrder.Synchronized` | multi2sim/runtime/cuda/api.c:1737-1739 | in every run, when the list is seen empty every command ever enqueued on the stream has run and is complete |
| `CudaOrder.StepInOrder` | multi2sim/runtime/cuda/stream.c:305-387 | every step of every thread keeps list, history, log, ready and completed flags in agreement |
| `CudaModel.FindStream` | multi2sim/runtime/cuda/api-rt.c:1111-1119 | the least index of a stream that the thread owns and is configuring, or none exactly when there is none |
| `CudaModel.FindLaunch` | multi2sim/runtime/cuda/api.c:2036-2043 | the least index of a kernel launch in the list, or none exactly when there is none |
| `CudaRuntime.Runtime.constructor` | multi2sim/runtime/cuda/stream.c:333-352 | new streams form an initial state of the transition system |
| `CudaRuntime.Runtime.FindConfiguring` | multi2sim/runtime/cuda/api-rt.c:1111-1119 | the search loop finds the first stream that the thread is configuring |
| `CudaRuntime.Runtime.FindKernel` | multi2sim/runtime/cuda/api.c:2036-2043 | the search loop finds the first kernel launch |
| `CudaRuntime.Runtime.CopyArguments` | multi2sim/runtime/cuda/api-rt.c:1214-1222 | the copy loops produce one block per argument, of its size, whose byte k is the byte of memory k places after its address |
| `CudaRuntime.Runtime.ResetEvent` | multi2sim/runtime/cuda/api.c:1803-1804 | the event is not recorded, and nothing else changes |
| `CudaRuntime.Runtime.EnqueueRecord` | multi2sim/runtime/cuda/api.c:1812-1815 | the rest of cuEventRecord is the step that enqueues the command of the event |
| `CudaRuntime.Runtime.EventQuery` | multi2sim/runtime/cuda/api.c:1836-1846 | succeeds exactly for a recorded event |
| `CudaRuntime.Runtime.ConfigureCall` | multi2sim/runtime/cuda/api-rt.c:1044-1090 | the mutable call is the configure step |
| `CudaRuntime.Runtime.SetupArgument` | multi2sim/runtime/cuda/api-rt.c:1092-1133 | the mutable call is the setup step, on the command at index 0 whatever it is |
| `CudaRuntime.Runtime.PrepareLaunch` | multi2sim/runtime/cuda/api-rt.c:1192-1222 | the first part of cudaLaunch is the step that copies the argument bytes of the command at index 0 whatever it is |
| `CudaRuntime.Runtime.FillLaunch` | multi2sim/runtime/cuda/api.c:2026-2075 | cuLaunchKernel up to the last but one assignment is the step that fills in the first kernel launch of the list |
| `CudaRuntime.Runtime.FinishLaunch` | multi2sim/runtime/cuda/api.c:2077-2077 | ready_to_run and the end of configuring are the last two steps of a launch |
| `CudaRuntime.Runtime.WorkerPass` | multi2sim/runtime/cuda/stream.c:313-326 | a pass does nothing unless the head is ready; otherwise it is the worker's six steps: peek, test, run, mark, dequeue, free |

## Left out

- Integer widths: sizes, counts, positions, reference counts and byte totals are unbounded integers; overflow of C `int` and `unsigned long` is not modelled. Symbol values and addresses are 32-bit, where no operation can overflow.
- Weak memory: every step of the two protocols is atomic and sequentially consistent. An access to a command list is one step, with or without the lock, together with what the call then does to the command it got; that a worker may free an older command between the two is not modelled.
- Form: the transition systems are values, because their results range over interleavings of threads. `OpenCLRuntime` and `CudaRuntime` give the operations as methods on objects, which run without interruption; in `CudaRuntime` the lists and commands are sequences rather than linked objects, so aliasing between commands is not captured.
- opencl_command_queue_free: the queue is never destroyed in the model. In the code it is, while events of its commands still point to it, and a later wait for such an event locks it (`multi2sim/runtime/opencl/event.c:125-135`).
- opencl_command_create: one step in the OpenCL transition system; its loop over wait events is `OpenCLRuntime.EventTable.RetainWaits`. The wait array, which the command keeps by pointer, is taken not to change until the command is freed.
- opencl_command_run: the device functions for reading, writing, copying and running kernels are one abstract step that ends; profiling times are left out.
- OpenCLDrain.NeverDeadlocked: needs wait lists that name events already handed out by the call that enqueued their commands; a wait list that names an event of a later command is left out.
- clEnqueueMapBuffer: checks of queue, object and event arguments are left out, and so is the clFinish of a blocking map, whose effect is stated by FinishCoversEarlier.
- OpenCLMem.MemObject.constructor: fresh device memory is zero, where the allocator leaves it undefined; failure of the allocator is left out.
- OpenCLMapping.RoundTrip: one buffer and the map and unmap commands of one in-order queue; that these run in the order of enqueueing is what InOrderExecution and QueueDiscipline state.
- opencl_object_find and the object list: an event exists as long as its reference count is positive.
- MHandle.Tracker.Insert: requires a pointer that is not live. malloc and realloc never return a live one; the code would store it a second time and the table would then not stand for a map.
- GuardBytes.Heap.Register: requires a pointer that is not live, for the same reason; registering a block twice is left out.
- GuardBytes.Heap.Malloc: takes the address as a parameter, with the C library's promise that the region is free; running out of memory is left out.
- GuardBytes.Heap.Realloc: takes the address as a parameter; a failing realloc of the C library is left out, and the bytes beyond the common part are unspecified.
- GuardBytes.Heap.FreeBlock: requires that the lookup ends; SearchEndsExactly says when it does.
- mhandle_calloc, mhandle_strdup, the wrappers without tracking and `__mhandle_check`: repetitions of the modelled operations.
- MHandle.Tracker.Finish: does not model the freeing of the table and the reset of the variables after the report.
- CircularList.List.Sort: the comparator is a function; a comparator with side effects, or one that is no total preorder, is left out.
- list_top, list_bottom, list_head, list_tail, list_count and list_free: reads of single fields or elements.
- elf_symbol_get_by_name, and the parsing of ELF headers and sections: the entries of all symbol sections are given as a sequence of values, so two table entries that are equal are not told apart by address.
- ElfBuffer.Buffer.ReadAll: the loop of callers that read to the end; with size 1 no call makes progress, as ReadLine states.
- CudaLaunch.LaunchWorksExactly: ranges over runs in which threads configure streams that they created.
- cudaLaunch copies the bytes of all arguments in one step, and reads dimensions that cuLaunchKernel then ignores.
- cuLaunchKernel's branch for a missing command: unreachable behind the preceding assertion.
- cuEventSynchronize, cuStreamWaitEvent, stream destruction and device reset: they wait on other flags than the ones that are set, or abandon queued commands, so no guarantee holds.
- cuMemcpyAsync, callbacks and kernels as such: commands without further effect (`Other`) or an abstract body; the driver, ioctl calls, file input and debug output are left out.
- HSA runtime, option handling, device tables and instruction packing: no state shared between calls, or behaviour that C leaves undefined.
