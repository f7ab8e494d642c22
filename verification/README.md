# Verification model of the Fomos kernel

Fomos is a cooperative kernel: drivers, applications and timers are futures that
one executor polls in turn. This project models the parts of it that are small
concurrent protocols, or whose correctness spans many calls, and proves what they
promise. Each source file's mutable objects are classes here, with methods proved
against functions on values; the properties are then proved of those functions,
over every run.

| file | models |
|---|---|
| `Virtqueue.dfy` | the split virtqueue of `virtio.rs`: descriptor table, free stack, the two wrapping 16-bit rings, and their refinement to unbounded FIFO queues |
| `GpuProtocol.dfy` | the request/completion protocol of `virtio_gpu.rs`: any number of requesting tasks, the completion task and a device, interleaved at every lock section and device access |
| `GpuDriver.dfy` | the lock sections and loops of `virtio_gpu.rs` in place, and the proof that they are runs of the protocol |
| `GpuProgress.dfy` | from every reachable state each pending request can be delivered; what a pass of the completion loop is to the executor |
| `JointTurn.dfy` | executor and request protocol as one machine, turn after turn |
| `Virgl.dfy` | the 3D command encoders of `virtio_gpu.rs`, padding included, against a decoder that follows header lengths |
| `Executor.dfy` | the executor, its queues and wake sources, its rounds, and its refinement of `SimpleExecutor` |
| `Wakeups.dfy` | what the executor keeps whatever the order of its effects, stale wake-ups included |
| `Timers.dfy` | timer futures against the tick interrupt |
| `Memory.dfy`, `Paging.dfy` | the buffered frame allocator, and who owns each frame it hands out: heap, page tables, queues, buffers, framebuffer |
| `Bringup.dfy` | from the memory map, through a queue's pages, to the drivers' start states |
| `Loader.dfy` | ELF loading with relocation mixed into copying |
| `AppStore.dfy` | the one store slot lent to all applications, frame after frame |
| `Keys.dfy`, `Input.dfy`, `InputDriver.dfy`, `Console.dfy`, `InputSystem.dfy` | from a device's input events, through the shared input state and the frame loop, to what the console application handles |
| `Wrappers.dfy`, `Finite.dfy`, `Arithmetic.dfy` | an option type, finite sets and sequences without repetition, division with remainder |

The parts meet. `Bringup.StartGpu` and `Bringup.StartInput` take a queue's pages from
the kernel's allocator and hand them to the drivers: the result is a state the drivers'
protocols start from (`Start`). `GpuProtocol`
and `InputDriver` use the queue operations and the ring invariant of `Virtqueue`.
The input driver shares its input state with other drivers and the frame loop;
`InputSystem.ConsoleFollowsDevices` cuts any such run at its frame ends and shows
that the pieces are the frames `Console` is proved about.
In every reachable state a pass of a driver's loop is a run of its protocol
(`GpuDriver.DrainIsRun`, `InputDriver.DrainIsRun`), and a poll of the completion task is one
the executor's rounds allow (`GpuProgress.CompletionPollIsLegal`). `JointTurn` runs executor
and protocol together: what the device has reported when a turn starts is delivered when
it ends. A waker that a timer leaves behind when it answers
`Ready` after registering (`Timers`) is a stale wake-up of `Wakeups`.

Some properties hold only up to a bound. Where one does, the bound is proved
exact: 16-bit indices name the right slot if and only if the queue size divides
2^16; requests cannot run out of descriptors if and only if the queue has ten plus two
for each task; the executor loses no task and no push fails if and only if live
tasks and outstanding stale wake-ups together number at most 100; no timer sleeps for
ever if and only if at most 128 registrations fall between two ticks, or one task at
most sleeps; the history ring is read faithfully if and only if at most 64 events are
new; a command is framed if and only if its length fits 16 bits; loading segment by
segment agrees with copying first if and only if no copy over a byte of a relocated word
comes after that word's last relocation; a key's state means what its comment says, for
every sequence of events in a frame, if and only if those events are plain
(`Keys.MeaningExactly`).

Some findings, each stated by a lemma. The version of `allocate_frame` left in a
comment starts from the same `next` and would skip the first frame
(`Memory.CommentedVersionSkipsFirst`). The last frame of a usable region whose end
is not page-aligned sticks out of the region (`Memory.WholeFramesInside`). A key
that is pressed again in the frame of its first press, as an auto-repeating keyboard does, or
that changes three times in a frame, does not show the state its comment describes;
`Keys.MeaningExactly` says for which events it does. A relocated word that sticks
out of its segment into the file part of a later one is overwritten
(`Loader.StraddlingWordDiffers`); for disjoint segments and words apart this is the
only way the loader's order matters (`Loader.DisjointOrdersAgreeExactly`). With 100 tasks queued a single stale wake-up
panics (`Wakeups.CapacityIsExact`). An input event whose key code is 1024 or more
stops the kernel (`Console.PanicsOnUnknownKey`).

Assumptions shared by all parts: one core, no tick inside a held lock, one GPU
and queue 0 selected, a queue of at most 256 descriptors, and devices that
follow sections 2.7.5 to 2.7.14 of VIRTIO 1.2: heads are taken in order, completed in any
order, reported once, and only writable descriptors are written. The frames taken for the
rings are zero when taken: the kernel never clears them (bootloader/kernel/src/virtio.rs:396-416,
bootloader/kernel/src/memory.rs:81-95), and both ring indices are read from them.

## Model

| member | source | states |
|---|---|---|
| Virtqueue.Virtio.constructor | bootloader/kernel/src/virtio.rs:357-416 | a fresh queue has every descriptor free, in order, its own page each, both rings empty and `last_used_idx` one before 0 |
| Virtqueue.Virtio.GetFreeDescId | bootloader/kernel/src/virtio.rs:49-51 | pops the free stack, or leaves it alone and answers `None` |
| Virtqueue.Virtio.GetFreeTwiceDescId | bootloader/kernel/src/virtio.rs:52-58 | pops two descriptors, last one first, or none at all |
| Virtqueue.Virtio.MakeAvailable | bootloader/kernel/src/virtio.rs:495-505 | one slot of the available ring and the wrapped index change, nothing else |
| Virtqueue.Virtio.MakeWritable | bootloader/kernel/src/virtio.rs:507-515 | the descriptor becomes a whole writable page at its old address |
| Virtqueue.Virtio.PublishRequest | bootloader/kernel/src/virtio.rs:522-537 | the data overwrites only the start of the head's page; head links to the writable next; the head alone is published |
| Virtqueue.Virtio.SetFreeDescId | bootloader/kernel/src/virtio.rs:60-62 | pushes the descriptor back on the stack |
| Virtqueue.Virtio.PopUsed | bootloader/kernel/src/virtio.rs:562-580 | pops one used element when the incremented index differs from the device's, else changes nothing |
| Virtqueue.WrapNamesSlot | bootloader/kernel/src/virtio.rs:500-503 | an index kept modulo 2^16 names the ring slot of the unbounded index exactly when the queue size divides 2^16 |
| Virtqueue.CountersMeet | bootloader/kernel/src/virtio.rs:571-571 | comparing 16-bit indices for equality compares the unbounded ones, while they are less than 2^16 apart |
| Virtqueue.PublishKeepsRings | bootloader/kernel/src/virtio.rs:495-505 | with fewer chains outstanding than descriptors, publishing overwrites no slot the device has still to read |
| Virtqueue.TakeReadsFifo | bootloader/kernel/src/virtio.rs:495-505 | the device sees a head exactly when one is outstanding, and then the oldest |
| Virtqueue.CompleteKeepsRings | bootloader/kernel/src/virtio.rs:562-580 | a completion overwrites no used slot the driver has still to read |
| Virtqueue.NextUsedReadsFifo | bootloader/kernel/src/virtio.rs:562-580 | `next_used` answers exactly when a completion is unread, and then with the oldest, across any number of wraps |
| Virtqueue.UnreadIsCompleted | bootloader/kernel/src/virtio.rs:562-580 | the 16-bit indices show exactly how many completions are unread, and each unread slot names a descriptor of the queue, if the completions do |
| Virtqueue.RingsAreFifo | bootloader/kernel/src/virtio.rs:495-505 | both rings together present the view of two unbounded FIFO queues |
| GpuProtocol.RingsRefineFifo | bootloader/kernel/src/drivers/virtio_gpu.rs:49-81 | in every state any interleaving of tasks and device reaches, the rings are unbounded FIFO queues: indices are the counters modulo 2^16, and at most queue-size chains are outstanding |
| GpuProtocol.RepliesMatch | bootloader/kernel/src/drivers/virtio_gpu.rs:515-534 | what a caller reads from its reply buffer is what the device had written there on completing that very submission, and no submission is delivered twice |
| GpuProtocol.DeviceSeesRequest | bootloader/kernel/src/virtio.rs:522-537 | until it is collected, a device that reads the flags as section 2.7.5 of VIRTIO 1.2 defines them finds two distinct descriptors: the submitted bytes with the link bit alone, then a page of 4096 bytes with the write bit alone, shared with no other live chain |
| GpuProtocol.DeviceReachesOwnBuffer | bootloader/kernel/src/drivers/virtio_gpu.rs:515-534 | the only writable descriptor a device can reach from a chain it holds is that chain's own reply buffer |
| GpuProtocol.ChainShape | bootloader/kernel/src/virtio.rs:517-537 | by the standard's bits a posted buffer is a chain of one, a request a chain of two ending in its writable page |
| GpuProtocol.LiveHeadsDiffer | bootloader/kernel/src/drivers/virtio_gpu.rs:515-534 | no two submissions not yet collected have the same head, so a waker slot serves one of them |
| GpuProtocol.RingHasRoom | bootloader/kernel/src/virtio.rs:495-505 | a descriptor that heads no outstanding chain can be published without filling the ring past its size |
| GpuProtocol.DescriptorsConserved | bootloader/kernel/src/virtio.rs:38-62 | free stack, posted ids and the pairs of tasks hold each descriptor exactly once, in every reachable state |
| GpuProtocol.FreeSlotsAreEmpty | bootloader/kernel/src/drivers/virtio_gpu.rs:550-586 | in every reachable state the waker slot of each free descriptor is empty |
| GpuProtocol.ExactlyOnce | bootloader/kernel/src/drivers/virtio_gpu.rs:550-586 | every request was made by a task, and is waited for, collected and about to be read, or delivered, and is delivered at most once, wherever its wake-up fell around the two lock sections |
| GpuProtocol.NoLostWakeup | bootloader/kernel/src/drivers/virtio_gpu.rs:28-43 | a task that got `Pending` is queued if its slot is `Done`; otherwise its waker is in the slot and a step that advances its chain is possible; slots of free descriptors are empty |
| GpuProtocol.RunDoesNotPanic | bootloader/kernel/src/drivers/virtio_gpu.rs:531-533 | with two descriptors a task and ten more, no run reaches the panic branch |
| GpuProtocol.PanicsExactlyWhenShort | bootloader/kernel/src/drivers/virtio_gpu.rs:515-533 | the panic branch is reachable exactly when the queue is shorter than 2k + 10, for k > 0 requesting tasks |
| GpuProtocol.DrainBounded | bootloader/kernel/src/drivers/virtio_gpu.rs:60-67 | while only the completion loop and the device act, nothing is published, so the loop pops at most the chains outstanding when it began |
| GpuProtocol.DrainWakesOnce | bootloader/kernel/src/drivers/virtio_gpu.rs:58-70 | the completion loop wakes each registered task exactly once if it turned its slot to `Done`, and no other task |
| GpuProtocol.StepKeeps | bootloader/kernel/src/drivers/virtio_gpu.rs:49-81 | every lock section and device access keeps the whole invariant |
| GpuDriver.StepsAreLockSections | bootloader/kernel/src/drivers/virtio_gpu.rs:550-586 | the protocol's two poll steps do to the slots, and answer, what the two lock sections do |
| GpuDriver.IdWakers.Wake | bootloader/kernel/src/drivers/virtio_gpu.rs:35-42 | the slot becomes `Done`, and exactly a registered task is woken |
| GpuDriver.IdWakers.PollFirst | bootloader/kernel/src/drivers/virtio_gpu.rs:556-574 | registers in an empty slot, empties a `Done` one, replaces a waker and goes on |
| GpuDriver.IdWakers.PollSecond | bootloader/kernel/src/drivers/virtio_gpu.rs:575-584 | empties a `Done` slot and is ready, else pending with the slot untouched |
| GpuDriver.Drain | bootloader/kernel/src/drivers/virtio_gpu.rs:59-67 | the loop terminates with the used ring read to its end and each popped id signalled, in order |
| GpuDriver.DrainIsRun | bootloader/kernel/src/drivers/virtio_gpu.rs:58-70 | from every reachable state with nothing in hand, a pass of the loop is a run of the protocol that leaves no completion unread |
| GpuDriver.CompletionsInRange | bootloader/kernel/src/drivers/virtio_gpu.rs:60-67 | whenever the invariant holds, every unread completion names a descriptor, so a waker slot |
| GpuDriver.PostAhead | bootloader/kernel/src/drivers/virtio_gpu.rs:73-79 | posts the top ten of the free stack, fewer if it runs out |
| GpuDriver.PostedAheadExactly | bootloader/kernel/src/drivers/virtio_gpu.rs:73-79 | after n turns of the loop exactly the top n descriptors of the stack, or all, are offered, each a whole page the device may write |
| GpuDriver.PostAheadIsRun | bootloader/kernel/src/drivers/virtio_gpu.rs:73-79 | the posting loop is a run of the protocol |
| GpuDriver.Boot | bootloader/kernel/src/virtio.rs:357-474 | a queue of power-of-two size, at most 256, over distinct pages is a start of the protocol |
| GpuDriver.RequestCanComplete | bootloader/kernel/src/drivers/virtio_gpu.rs:515-534 | from any start, for any data and any answer, a run exists in which the caller reads just that answer: the protocol's theorems are not about empty runs |
| GpuProgress.RequestsCanBeDelivered | bootloader/kernel/src/drivers/virtio_gpu.rs:515-534 | from every reachable state that has not panicked, every request made so far can run to its delivery |
| GpuProgress.SomeStepAdvances | bootloader/kernel/src/drivers/virtio_gpu.rs:515-586 | at every stage of a pending request some step is possible now that brings it closer |
| GpuProgress.CompletionPollIsLegal | bootloader/kernel/src/drivers/virtio_gpu.rs:58-70 | in every reachable state one poll of the completion task wakes tasks whose wakers are registered, each once, and yields: a poll the executor's rounds allow |
| GpuProgress.DrainedWakes | bootloader/kernel/src/drivers/virtio_gpu.rs:60-67 | a pass of the loop adds to the woken tasks exactly those it found registered |
| GpuProgress.ReportedIsCollected | bootloader/kernel/src/drivers/virtio_gpu.rs:58-70 | a task waiting for a request already reported when the pass starts is queued after it, and its next poll is ready |
| JointTurn.EveryTurnDelivers | bootloader/kernel/src/task/executor.rs:128-146 | after any number of turns of executor, tasks and device together: a request the device has reported when a turn starts is delivered to its caller when that turn ends |
| JointTurn.RoundDelivers | bootloader/kernel/src/task/executor.rs:97-124 | the same for one round of `run_ready_tasks` with the completion task queued, whatever other tasks and the device do in it |
| JointTurn.TurnKeeps | bootloader/kernel/src/task/executor.rs:128-146 | a turn is a legal round of the executor between pulling and waking; afterwards each waiting task is queued if its slot is `Done`, has its waker registered otherwise, and the completion task is queued |
| JointTurn.TurnExists | bootloader/kernel/src/task/executor.rs:128-146 | from every such state a turn is possible |
| JointTurn.CompletionIsLegal | bootloader/kernel/src/drivers/virtio_gpu.rs:58-70 | the wakers a poll of the completion task fires are registered with the executor, each fired once |
| JointTurn.RunMovesOn | bootloader/kernel/src/drivers/virtio_gpu.rs:515-586 | over any run no submission falls back to an earlier stage |
| GpuDriver.Begin | bootloader/kernel/src/drivers/virtio_gpu.rs:515-521 | takes a pair and publishes the request on it, or changes nothing where the source panics |
| GpuDriver.Finish | bootloader/kernel/src/drivers/virtio_gpu.rs:524-530 | both descriptors go back on the stack and the reply's descriptor is returned |
| Virgl.DecodesWhenFramed | bootloader/kernel/src/drivers/virtio_gpu.rs:281-328 | cutting a stream at header bits 16-31 gives back exactly the commands, number, object byte and every payload word in order, if and only if every length fits those bits, whatever decodable words follow |
| Virgl.SubmissionDecodes | bootloader/kernel/src/drivers/virtio_gpu.rs:403-412 | any commands that fit 512 words decode to exactly their own frames, followed by one empty NOP for each padding word; the first `len` words decode to them alone |
| Virgl.StreamNamesCommands | bootloader/kernel/src/drivers/virtio_gpu.rs:281-328 | different lists of commands whose lengths fit 16 bits have different streams |
| Virgl.ZerosAreNops | bootloader/kernel/src/drivers/virtio_gpu.rs:408-411 | zero padding reads as empty NOPs |
| Virgl.CommandBuffer.CmdClear | bootloader/kernel/src/drivers/virtio_gpu.rs:281-301 | appends the nine words of a clear, whatever depth and stencil are asked for |
| Virgl.CommandBuffer.CmdSetFramebufferState | bootloader/kernel/src/drivers/virtio_gpu.rs:303-313 | appends header, count, a zero and every handle in order |
| Virgl.CommandBuffer.CmdCreateSurface | bootloader/kernel/src/drivers/virtio_gpu.rs:315-328 | appends the six words of a surface creation |
| Virgl.CommandBuffer.Seal | bootloader/kernel/src/drivers/virtio_gpu.rs:407-412 | pads to 512 words and fails exactly on a longer stream; `len` is the length before padding |
| Wakeups.NoTaskLost | bootloader/kernel/src/task/executor.rs:87-146 | while live tasks and stale wake-ups number at most 100, after any effects in any order each live task has a queue entry, a registered waker or a poll in progress; no push failed; cached wakers belong to live tasks |
| Wakeups.OnePlaceEach | bootloader/kernel/src/task/executor.rs:87-146 | without stale wake-ups each live task is in exactly one of spawn queue, ready queue, yield queue, registered wakers or being polled |
| Wakeups.DeadWakeIsSkipped | bootloader/kernel/src/task/executor.rs:107-110 | a wake-up of a finished task costs its queue entry and changes nothing else |
| Wakeups.CapacityIsExact | bootloader/kernel/src/task/executor.rs:77-78 | no task is lost in any run exactly when the bounds on live tasks and on stale wake-ups add up to at most 100, or no task may live |
| Wakeups.StaleWakesPanic | bootloader/kernel/src/task/executor.rs:153-157 | beyond that bound, for any number of live tasks up to 100, a run panics in `wake_task` |
| Wakeups.RoundIsFifo | bootloader/kernel/src/task/executor.rs:97-124 | however ticks and stale wake-ups fall into a round, it pops the ids that were ready, then those pushed meanwhile, in that order |
| Wakeups.RoundPopsAll | bootloader/kernel/src/task/executor.rs:97-124 | a finished round pops each id exactly as often as it was ready or pushed, and no more |
| Executor.RoundOrder | bootloader/kernel/src/task/executor.rs:97-124 | a round polls the tasks that were ready, then those the completion task woke, in that order, and its length is bounded by their number |
| Executor.RoundCounts | bootloader/kernel/src/task/executor.rs:97-124 | no task is polled more than twice in a round, the completion task once; a finished round polled every task ready at its start; at most two polls a live task |
| Executor.RunSimulates | bootloader/kernel/src/task/executor.rs:128-146 | after any number of turns the simple queue is the ready, spawn and yield queues in a row, and both executors made the same polls |
| Executor.NextPoll | bootloader/kernel/src/task/executor.rs:128-146 | while tasks remain, the executor polls again within 2 * 100 + 4 turns of its inner loops |
| Executor.RefinesSimpleExactly | bootloader/kernel/src/task/executor.rs:41-52 | for every program of tasks that suspend by `yield_once`, both executors make the same sequence of polls, exactly when at most 100 tasks are spawned |
| Executor.SimpleExecutor.Turn | bootloader/kernel/src/task/executor.rs:42-51 | pops the front task, polls it, and puts it at the back unless it finished |
| Executor.Executor.WakeTask | bootloader/kernel/src/task/executor.rs:153-157 | pushes on the ready queue, or panics when it is full |
| Executor.Executor.SpawnTask | bootloader/kernel/src/task/executor.rs:57-61 | pushes a task with a new id, or drops it when the spawn queue is full |
| Executor.Executor.PollNext | bootloader/kernel/src/task/executor.rs:106-123 | skips a task that no longer exists; otherwise polls it with its cached waker and forgets a finished one |
| Executor.Executor.RunReadyTasks | bootloader/kernel/src/task/executor.rs:97-124 | the loop terminates with an empty ready queue, having polled what was ready and what was woken, in order |
| Executor.Executor.PullSpawned | bootloader/kernel/src/task/executor.rs:130-132 | every spawned task moves to the ready queue, in order |
| Executor.Executor.DrainYielders | bootloader/kernel/src/task/executor.rs:142-144 | every yielded task moves to the ready queue, in order |
| Executor.Executor.RunTurn | bootloader/kernel/src/task/executor.rs:129-145 | one turn of the endless loop polls the ready, the spawned and then the woken tasks, wakes all yielders and keeps every task; its state is the round's, between pulling and waking |
| Timers.ReadyExactly | bootloader/kernel/src/interrupts.rs:124-150 | over any run after a sleep of ms begins at T, both looks at the clock answer `Ready` from T + ms on and not before, and the clock counts the ticks |
| Timers.RegisteredInOrder | bootloader/kernel/src/interrupts.rs:86-91 | the handler wakes each registered task once, in slot order |
| Timers.SleepEnds | bootloader/kernel/src/interrupts.rs:79-150 | once ticks bring the clock to T + ms, a task pending in a sleep of ms begun at T is queued, and its poll is ready |
| Timers.NoLostTick | bootloader/kernel/src/interrupts.rs:131-171 | over every interleaving with ticks, for tasks that sleep any number of times, a pending timer's task is registered or queued and no timer is early, exactly when at most 128 registrations fall between two ticks or there is one task at most |
| Timers.RunKeeps | bootloader/kernel/src/interrupts.rs:79-150 | any run within those bounds keeps the invariant behind that |
| Timers.RegisterKeepsOthers | bootloader/kernel/src/interrupts.rs:159-171 | registering displaces no waker, and fails to register exactly when the table is full |
| Timers.WakerTable.Tick | bootloader/kernel/src/interrupts.rs:79-93 | counts one millisecond, wakes every registered task once, in slot order, and empties the table |
| Timers.WakerTable.AddWaker | bootloader/kernel/src/interrupts.rs:159-171 | fills the first empty slot and returns its index; a full table is unchanged and gives 0 |
| Memory.UsableFramesExact | bootloader/kernel/src/memory.rs:67-77 | the frames on offer are exactly the page-aligned addresses in usable regions |
| Memory.UsableFramesDistinct | bootloader/kernel/src/memory.rs:67-77 | over disjoint regions no frame is on offer twice |
| Memory.RangeFramesAscend | bootloader/kernel/src/memory.rs:74-76 | a region offers the frame of its start, then each next one 4096 bytes on, as many as begin before its end |
| Memory.UsableFramesInOrder | bootloader/kernel/src/memory.rs:67-77 | the usable regions are served in the order of the map, each upward from its start |
| Memory.WholeFramesInside | bootloader/kernel/src/memory.rs:71-76 | every offered frame lies wholly inside its region exactly when both ends of the region are page-aligned |
| Memory.AllocateNext | bootloader/kernel/src/memory.rs:81-95 | each call hands out the next frame in order, through refill, reversal and a short last batch |
| Memory.BufferedIsSimple | bootloader/kernel/src/memory.rs:81-99 | for any regions and any number of calls the k-th answer is the k-th usable frame, and `None` for ever after the last: the one-frame-a-call allocator |
| Memory.CommentedVersionSkipsFirst | bootloader/kernel/src/memory.rs:96-98 | the version in the comment, started from the same `next`, answers one frame late, so differs at every answer before exhaustion |
| Memory.BootInfoFrameAllocator.FillBuffer | bootloader/kernel/src/memory.rs:83-92 | the loop and the reversal leave the next 32 frames of the map, or all that are left, last one first |
| Memory.BootInfoFrameAllocator.AllocateFrame | bootloader/kernel/src/memory.rs:81-95 | hands out the first frame of the map's order not handed out yet, or none when all are |
| Paging.Kernel.constructor | bootloader/kernel/src/memory.rs:58-64 | over a memory map of disjoint aligned regions nothing is owned yet |
| Paging.Kernel.TakeFrame | bootloader/kernel/src/memory.rs:81-95 | takes the next frame on offer, which had no owner, exactly while one is left |
| Paging.Kernel.MapTo | bootloader/kernel/src/main.rs:150-150 | mapping gives the frame to that page alone; page tables drawn on the way get frames of their own; succeeds exactly when the page is not mapped and enough frames are left for the missing tables; a mapped page keeps its frame |
| Paging.Kernel.MakeTables | bootloader/kernel/src/main.rs:150-150 | the missing tables of a page get frames of their own, exactly when enough are left |
| Paging.Kernel.CreateIdentity | bootloader/kernel/src/main.rs:141-152 | the page returned is mapped to itself, was never handed out before, and no other entry shares it; panics exactly when no frame is left, succeeds exactly when the next frame's page is free and its tables fit |
| Paging.Kernel.InitHeap | bootloader/kernel/src/allocator.rs:56-75 | every heap page gets a frame of its own that was never handed out before, exactly when none was mapped and frames are left for all pages and their missing tables |
| Paging.Kernel.TakeRun | bootloader/kernel/src/main.rs:167-177 | holds every page of a contiguous run, all fresh, exactly when the next n frames on offer follow one another; else panics. Never panics while they lie in one region |
| Paging.RegionFollows | bootloader/kernel/src/main.rs:165-177 | frames of one region follow one another from any of them on |
| Paging.TablesOfAddress | bootloader/kernel/src/main.rs:150-150 | a mapping needs one table for each 2 MiB, 1 GiB and 512 GiB of addresses |
| Paging.Kernel.CreateIdentityRun | bootloader/kernel/src/main.rs:165-193 | n pages are a contiguous run of fresh frames, each mapped to itself; panics exactly when the next frames do not follow one another, succeeds exactly when moreover none is mapped and the tables fit |
| Paging.Kernel.MapRun | bootloader/kernel/src/main.rs:179-191 | maps every page of the run to itself, exactly when none is mapped and frames are left for the missing tables |
| Paging.Kernel.SetupQueue | bootloader/kernel/src/virtio.rs:365-411 | descriptor table, every descriptor's buffer and both rings are distinct fresh identity-mapped pages, exactly when the next pages on offer can be mapped one after another |
| Bringup.TakeBuffers | bootloader/kernel/src/virtio.rs:365-411 | a queue's buffers are pages of their own, mapped to themselves and never handed out before |
| Bringup.StartGpu | bootloader/kernel/src/virtio.rs:357-474 | over pages taken from the allocator the GPU's queue is a start of its protocol, exactly when the pages can be had |
| Bringup.StartInput | bootloader/kernel/src/virtio.rs:357-474 | likewise for an input device |
| Loader.LoadsLikeTextbook | bootloader/kernel/src/app.rs:86-125 | for disjoint Load segments whose relocated words stay inside, even overlapping ones, copying and relocating segment by segment gives the image of copying all, then relocating once |
| Loader.OrdersAgreeExactly | bootloader/kernel/src/app.rs:86-125 | with relocated words apart, the two orders agree for every file exactly when no copy over a byte of a relocated word comes after the word's last relocation; segments may overlap and words straddle |
| Loader.DisjointOrdersAgreeExactly | bootloader/kernel/src/app.rs:86-125 | for segments with disjoint memory, exactly when no word that starts in one segment reaches into the file part of a later one |
| Loader.StraddlingWordDiffers | bootloader/kernel/src/app.rs:105-115 | a concrete image on which the orders differ |
| Loader.UnrelocatedByte | bootloader/kernel/src/app.rs:82-97 | in a loaded well-formed file a byte of a segment that no relocation covers is the file's, and 0 past the file size |
| Loader.RelocatedWord | bootloader/kernel/src/app.rs:111-115 | with words apart and no copy after a word's last relocation, the eight bytes of a relocated word are addend plus load address modulo 2^64, lowest first; segments may overlap and words straddle |
| Loader.PositionIndependent | bootloader/kernel/src/app.rs:99-122 | under the same condition, loads at two addresses differ only inside relocated words, and there by the distance of the addresses modulo 2^64 |
| Loader.DiffersInWords | bootloader/kernel/src/app.rs:99-122 | that they differ only there holds of every file that loads |
| Loader.ProperFits | bootloader/kernel/src/app.rs:86-125 | in a well-formed file long enough for its segments every access is in bounds |
| Loader.ProperIsLast | bootloader/kernel/src/app.rs:86-125 | in a well-formed file no copy follows a word's last relocation |
| Loader.ImageSizeIsHighest | bootloader/kernel/src/app.rs:66-77 | the image size is the highest end of a header that occupies memory, 0 without one |
| Loader.DecodeEncode | bootloader/kernel/src/app.rs:112-114 | a word stored in eight bytes reads back |
| Loader.FindSize | bootloader/kernel/src/app.rs:66-77 | the loop finds the highest end of a header that occupies memory |
| Loader.CopySegment | bootloader/kernel/src/app.rs:90-97 | the copy loop succeeds exactly when file and image are long enough, and then replaces just the segment's file part |
| Loader.RelocateSegment | bootloader/kernel/src/app.rs:101-121 | applies, in file order, the relocations whose offset is in the segment; it stops exactly where the source would write outside the image; with words apart each of them then holds addend plus load address |
| Loader.Load | bootloader/kernel/src/app.rs:66-125 | loading succeeds exactly when every copy and every relocated word is in bounds, and builds the interleaved image over zeros; a well-formed file long enough for its segments always loads; with words apart and none copied over afterwards, every relocated word holds addend plus load address |
| AppStore.FramesIsolate | bootloader/kernel/src/main.rs:416-425 | over any number of frames and applications, each is called once a frame with its own pid, finds what it left the frame before, and the slot is empty afterwards |
| AppStore.RunsApart | bootloader/kernel/src/app.rs:203-216 | seen from one application, any sequence of calls through the shared slot is a run of it alone |
| AppStore.OthersDoNotMatter | bootloader/kernel/src/app.rs:23-40 | neither the other applications, nor their stores, nor what the slot held, change what an application finds |
| AppStore.FramesInOrder | bootloader/kernel/src/main.rs:416-421 | each frame calls the applications in their order, each with what the frame shows it |
| AppStore.VisitsInOrder | bootloader/kernel/src/app.rs:203-216 | the k-th visit is the k-th call's application at work on what it found |
| AppStore.App.Invoke | bootloader/kernel/src/app.rs:203-216 | drops what the slot held, lends the own store, keeps what the application left, and empties the slot |
| AppStore.Frame | bootloader/kernel/src/main.rs:418-421 | one frame in place is one call of each application, in order |
| AppStore.Play | bootloader/kernel/src/main.rs:416-425 | the frame loop in place is the run of calls the theorems speak of |
| Keys.DownIffLastPress | bootloader/kernel/src/globals.rs:87-107 | over every schedule of events and frames a state is 128 or more exactly when the key's last event was a press |
| Keys.EdgeShownOnce | bootloader/kernel/src/globals.rs:98-107 | from the end of a frame until the next event the state is `Off` or `On`: an edge is shown in one frame at most |
| Keys.MeaningExactly | bootloader/kernel/src/globals.rs:60-72 | for every sequence of events in a frame the state is the documented one exactly when, counting the changes since a direction was last repeated modulo 3: 0 and the key never left its old state, 1 and it has moved, 2 and it is back |
| Keys.AfterEvents | bootloader/kernel/src/globals.rs:87-97 | the state after any events depends only on that count modulo 3 and on the last direction |
| Keys.AlternatingMeaning | bootloader/kernel/src/globals.rs:60-72 | hence with n alternating events exactly when n is 0 or leaves 1 or 2 modulo 6 |
| Keys.RepeatedMeaning | bootloader/kernel/src/globals.rs:88-97 | hence with n equal events that change the key once, exactly when n is at most 1 |
| Input.EventsReachInput | bootloader/kernel/src/drivers/virtio_input.rs:22-34 | events are applied without a panic exactly when every key code is in the table; the ring then holds the last 64 key events and each key has followed its own |
| Input.KeyLogTakes | bootloader/kernel/src/drivers/virtio_input.rs:22-24 | an event of type 1 is logged as a press of its code unless its value is 0, no other event is logged |
| Input.PointerFollows | bootloader/kernel/src/drivers/virtio_input.rs:25-31 | over any events the pointer is where the signed amounts of code 0 across and code 1 down take it, stopping at 0, while sums fit 32 signed bits |
| Input.LogKeyKeepsRing | bootloader/kernel/src/globals.rs:80-84 | logging one event keeps the last 64 at their numbers modulo 64 |
| Input.MoveClamps | bootloader/kernel/src/drivers/virtio_input.rs:26-29 | the pointer moves by the signed amount and stops at 0, exactly while the sum fits 32 signed bits |
| Input.InputState.HandleIncomingState | bootloader/kernel/src/globals.rs:80-84 | logs the event, advances one key, panics on a key past the table |
| Input.InputState.Update | bootloader/kernel/src/drivers/virtio_input.rs:22-34 | a device event of each type does what its branch says and no more |
| Input.InputState.EndFrame | bootloader/kernel/src/globals.rs:53-57 | steps every key and nothing else |
| Input.SlotHoldsNewest | bootloader/kernel/src/globals.rs:82-82 | a slot holds the newest event whose number is its own modulo 64 |
| Input.ReaderMeets | app_console/src/main.rs:603-605 | the reader meets consecutive numbers from its first, each slot's newest event, and all of them unless the handler left early |
| Input.ReaderThreads | app_console/src/main.rs:603-812 | the reader feeds the handler each event with the state the one before left, and stops at the first answer that is not to go on |
| Input.FaithfulIffSixtyFour | app_console/src/main.rs:604-605 | over every history of updates, the reader sees the new events themselves exactly when at most 64 are new |
| Input.ReplayKeepsRing | bootloader/kernel/src/globals.rs:12-19 | whoever updates the shared state and however many frames end, the ring holds the last 64 key events of all drivers merged, and it panics exactly on a key past the table |
| InputDriver.InputFollowsDevice | bootloader/kernel/src/drivers/virtio_input.rs:15-38 | over every interleaving with the device, other drivers and the frame loop, the events this driver applied are a prefix of those its device completed, in used order, and all of them once the ring is drained; the input state is what all updates made it |
| InputDriver.EventReadsBack | bootloader/kernel/src/drivers/virtio_input.rs:3-9 | a buffer that starts with type, code and value in two, two and four bytes, lowest first, is read as that event |
| InputDriver.KeyEventReachesLog | bootloader/kernel/src/drivers/virtio_input.rs:19-24 | from every reachable state, a key event that the device writes in that layout is reported, and once applied it is in the shared log as that key, a press unless its value is 0 |
| InputDriver.EveryDescriptorAccountedFor | bootloader/kernel/src/drivers/virtio_input.rs:15-38 | every descriptor is free, offered, in the device, reported or in the driver's hand, in one of them and once; after start-up none is free |
| InputDriver.StepKeeps | bootloader/kernel/src/drivers/virtio_input.rs:15-38 | every step of driver or device keeps the whole invariant |
| InputDriver.DeviceWriteKeeps | bootloader/kernel/src/drivers/virtio_input.rs:20-21 | a buffer the device may write is never one the driver has still to read |
| InputDriver.Boot | bootloader/kernel/src/virtio.rs:357-474 | a queue over distinct pages and a fresh input state are a start of the driver's protocol |
| InputDriver.Drain | bootloader/kernel/src/drivers/virtio_input.rs:19-36 | the loop terminates with every used event applied and its descriptor posted again, or at a panic |
| InputDriver.DrainIsRun | bootloader/kernel/src/drivers/virtio_input.rs:19-36 | from every reachable state after start-up with no event in hand, a pass of the loop that does not panic is a run of the protocol after which every reported event is applied |
| InputDriver.CompletionsInRange | bootloader/kernel/src/drivers/virtio_input.rs:19-36 | whenever the invariant holds, every unread completion names a descriptor |
| InputDriver.PostAll | bootloader/kernel/src/drivers/virtio_input.rs:15-17 | posts every free descriptor, last one first |
| InputDriver.PostAllIsRun | bootloader/kernel/src/drivers/virtio_input.rs:15-17 | the posting loop is a run of the protocol |
| InputSystem.CutIsPlay | bootloader/kernel/src/main.rs:416-425 | cut at its frame ends, any history of updates is a run of the frame loop: same state, same events, none lost or reordered |
| InputSystem.ConsoleFollowsDevices | app_console/src/main.rs:603-812 | over every interleaving of device, drivers and frame loop, the console's frames carry the events applied, and it handles consecutive new ones, with at most 64 new a prefix of them in order |
| InputSystem.ConsoleHandlesDeviceEvents | app_console/src/main.rs:603-605 | with one device, an event handled in a frame with at most 64 new ones is the one the device completed under that number |
| InputSystem.EventsHandledOnce | app_console/src/main.rs:812-812 | over every such interleaving no event number is handled twice |
| Console.RunIsFaithful | app_console/src/main.rs:603-812 | in every frame of every run the console handles consecutive new event numbers from the first; with at most 64 new, a prefix of the new events in order |
| Console.HandledOnce | app_console/src/main.rs:812-812 | no event number is handled twice over a whole run, and numbers only grow |
| Console.VisitMeets | app_console/src/main.rs:603-812 | one frame, from the number last seen: what is handled, and that everything counts as seen afterwards |
| Console.VisitLeaves | app_console/src/main.rs:603-812 | without the focus nothing is handled; with it the store keeps the state of the last answer, or is dropped on a reset; everything counts as seen |
| Console.VisitMeetsAll | app_console/src/main.rs:603-605 | an active console whose handler always goes on meets every new event |
| Console.PanicsOnUnknownKey | bootloader/kernel/src/globals.rs:83-83 | a run panics exactly when some key event's code is past the table |
| Console.RunShowsKeys | bootloader/kernel/src/main.rs:416-425 | after any run of frames a key is `On` if its last event was a press, else `Off` |
| Console.KeyShowsLastEvent | bootloader/kernel/src/main.rs:416-425 | in terms of the device's events: a key is `On` exactly when the last event of type 1 with its code had a value other than 0 |
| Console.ConsoleStore.ReadInputs | app_console/src/main.rs:603-812 | the loop over the ring, with its early exit and its reset, does what the frame's specification says |

## Left out

- Port I/O, model-specific registers, descriptor-table set-up, APIC and PCI access, serial and logger: hardware plumbing without state of its own.
- The virtio capability walk, feature negotiation and `kick`: their result is the model's initial queue.
- The internals of `linked_list_allocator`, the `x86_64` mapper, `crossbeam`, `AtomicWaker` and `xmas_elf`: they appear as a page map, a bounded FIFO queue, a one-shot waker and parsed headers.
- Several cores, and a spinlock taken again by an interrupt: one core and no tick inside a held lock.
- GPU command semantics, EDID, format enumerations, drawing, layout, fonts and the script interpreter: data, or libraries not modelled here.
- The mapping of physical memory in 2 MiB pages (bootloader/kernel/src/main.rs:233-270): it aliases all frames on purpose; it draws frames from the allocator only for missing page tables.
- Descriptor, buffer and completion memory is one page of numbers per address; the kernel's volatile accesses are steps of their own only where the device can act in between.
- A queue is fixed at queue 0 of one device, and its size at most 256, as one page of descriptors and 256 waker slots require.
- `request` gives its descriptors back and reads its reply in two lock sections with no `await` between them: no other task takes descriptors in between (`NoneReturning`).
- Reference counts and drops of tasks and wakers; a task is its id, and the u64 id counter and the allocator's `next` do not wrap.
- The registered wakers and the yield queue, globals in the source, are fields of class `Executor` here.
- Executor.RoundOrder: is about rounds in which only the completion task fires wakers; the order with ticks and stale wake-ups is `Wakeups.RoundIsFifo`, where a tick may add each sleeping task once more.
- Executor.RoundCounts: is about the same rounds; the count with ticks and stale wake-ups is `Wakeups.RoundPopsAll`.
- Executor.Executor.RunTurn: is about a turn without ticks, and the interrupt flag and the halt are not in it; ticks during the halt are part of `JointTurn.JointTurn`.
- JointTurn.EveryTurnDelivers: between two polls a requesting task is idle or waits, a waiting one first polls its wait, and ticks fall between turns; that the device reports at all is not promised.
- Timers.WakerTable.Tick: does not model the separate `WAKER`, which nothing registers with.
- Loader.Load: stops where the source writes a relocated word outside the image, unchecked; what that write does is not described. The relocation type is ignored as the source ignores it.
- Loader.OrdersAgreeExactly: is about relocated words that do not overlap one another.
- Paging.Kernel.CreateIdentityRun: a request for no page still takes a frame and maps nothing, as in the source; the frame is then nobody's.
- AppStore.App.Invoke: an application is a total function of pid, store and what it is shown; its own static memory and the framebuffer it draws on are part of what it is shown.
- Input.InputState.HandleIncomingState: says nothing of the state after a panic, which the source leaves in a copy that is never stored.
- Input.Move: wraps as the release build does; a debug build would stop on overflow.
- Console.ConsoleStore.ReadInputs: what the handler does with one event is a parameter; the focus change by a click comes before it and is a parameter of the frame.
- Keys.MeaningExactly: the comments name only the three released states; the pressed ones are read by symmetry.
- Virgl.CommandBuffer.CmdClear: depth and stencil are ignored by the source, so nothing about them is stated.
- `FrameBufferWriter` text output (its body is commented out) and the key-symbol table: a dead function and a finite lookup.
