# KUMO kernel: a verified model

KUMO is a capability microkernel. This project models the parts of it whose correctness is
hardest to see by reading, and proves what they promise.

- **Capabilities and IPC** (`Objects`, `HandleTables`, `Channels`, `Transfers`, `Ports`,
  `Registry`, `CloseCascade`, `Shedding`, and over whole runs `CapabilitySystem`, `Ownership`,
  `CapabilityRuns`, `Reclamation`, `RootChannels`, `MessageOrder`, `OrphanedEndpoint`,
  `CapabilityLaws`): handle tables whose entries own counted references, channels whose messages
  carry such entries, the close that cascades through mailboxes, ports that merge signals. A
  reference count is modelled as the number it is, raised by clones and lowered by drops, so
  that "the count is the number of owners" is a theorem. `CapabilitySystem` puts all tables,
  mailboxes and owners in flight into one state with one step per operation; the run theorems
  hold for every sequence of steps. `CapabilityLaws` says of each operation, in terms of lookups
  and mailboxes only, when it succeeds, what it answers otherwise and what exactly it changes.
- **Scheduler** (`ReadyQueues`, `Scheduler`, `RoundRobin`, `ReadyOrder`, `Dispatchers`): the
  two-level bitmap over 256 FIFOs against the plain array of FIFOs, the dispatcher's scheduling
  points, the order in which equals run, and how long one waits.
- **Device page-table pool** (`DeviceMemory`, `DeviceTables`, `TableLaws`, `TablePools`): frames
  that must never come near an issued memory object and leases that own them alone.
- **Console ring** (`ConsoleRing`): one producer, one consumer, no lock, every load, slot access
  and store a step of its own.
- **Kernel log** (`LogStamps`, `LogLines`, `LogHistory`, `LogStream`, `KernelLogs`): line assembly
  per source, the 64 KiB ring against the stream of all lines, and what reads return.
- **Least squares** (`LeastSquares`, `BestFit`, `IpcStats`): the integer fit behind `ipcstat`.
- **Devicetree summary** (`DeviceTree`, `DeviceTreeParser`, `DeviceTreeBlob`,
  `DeviceTreeRoundTrip`, `DeviceTreeErrors`, `Utf8`): the parser of `imager`, against the blob
  format of the Devicetree Specification, release v0.4, sections 5.2, 5.4 and 5.5, and text
  against section 3 of RFC 3629.

Code that changes things in place is a class whose methods are proved equal to functions on
values; the properties are proved about those functions and about runs of them. Code that only
computes is functions and lemmas. `dafny verify dfyconfig.toml` checks everything.

## Where the code and its own words differ

The model follows the code.

- `reap_unowned_channels` (kernel/src/ipc.rs:546-569) says the pairs it removes were drained. A
  closed endpoint that kept its mailbox because it had another owner, and whose last owner was
  then dropped inside a message, was not: its queued owners go silently, and an endpoint that
  thereby loses its last owner stays open. `OrphanedEndpoint.RunOrphans` is a run from boot that
  ends so; `CloseCascade.ReapOrphansIff` and `CloseCascade.CloseExact` say exactly when the
  reap takes an endpoint's last owner, and `Reclamation.RunCloseExact` says so of every state of every run.
- `channel_create` (kernel/src/ipc.rs:205-223) leaves the first handle behind when the second
  insertion fails, naming a channel that does not exist. `Reclamation.ChannelResolvesIff` says
  exactly when that happens, and `Reclamation.BootRunResolves` that nothing else ever keeps a
  capability from resolving.
- `Log::read` (kernel/src/kmsg.rs:199-212) says it resumes at the first whole line still kept.
  When the oldest kept byte is itself the start of a line, it skips that line.
  `LogStream.SkipsAKeptLineIff` says so exactly, and `LogStream.SkipsAKeptLine` is a history
  where it does.
- `Log::append` (kernel/src/kmsg.rs:137-165) takes a source numbered `u64::MAX` for a free slot.
  `LogLines.ReservedSourceIff` says exactly when its byte then falls outside the buffer. The
  other log theorems hold up to that point, whoever writes; what they say of a source's lines
  they say of all sources but this one.
- `commit_vmo` (kernel/src/device_memory.rs:422-434) asserts what `prepare_vmo` established; the
  assertion relies on what is allocated between the two. `DeviceTables.CommitAssertionIff` says
  exactly which allocations break it.

## Model

| member | source | states |
|---|---|---|
| `Objects.RcHeap.CloneOf` | kernel/src/object.rs:94-116 | cloning an owner raises its lineage's strong count by one and no other |
| `Objects.RcHeap.DropAll` | kernel/src/object.rs:94-116 | dropping entries lowers each lineage by the entries that own it, and none below zero |
| `Objects.InsertRefinesMap` | kernel/src/object.rs:363-385 | insertion is the update of a finite map at a key never issued before; entries stay ascending |
| `Objects.RemoveRefinesMap` | kernel/src/object.rs:256-272 | removal deletes exactly one key of the map, and the key stays issued |
| `Objects.StageThenRollback` | kernel/src/object.rs:327-361 | staging a grant and rolling it back restores the target's entries; only its number is spent |
| `Objects.ObjectManager.Create` | kernel/src/object.rs:66-75 | ids are handed out in order and saturate at the last one |
| `HandleTables.HandleTable.FindPosition` | kernel/src/object.rs:305-315 | binary search finds exactly the index a linear lookup finds |
| `HandleTables.HandleTable.RequireEntry` | kernel/src/object.rs:226-240 | a handle is accepted exactly when it is live, of the kind and holds the rights, with the error of the first check that fails |
| `HandleTables.HandleTable.InsertEntry` | kernel/src/object.rs:296-298 | an entry is installed under the next number, or the table is full for good |
| `HandleTables.HandleTable.Remove` | kernel/src/object.rs:256-272 | an entry leaves the table with its reference, which nobody drops |
| `HandleTables.HandleTable.Close` | kernel/src/object.rs:252-254 | an entry leaves the table and its lineage loses one owner |
| `HandleTables.HandleTable.Drain` | kernel/src/object.rs:292-294 | all entries leave in order, the issue counter stays |
| `HandleTables.HandleTable.Duplicate` | kernel/src/object.rs:242-250 | the object's duplicate is the specification's, counts included, whose outcome `CapabilityLaws.DuplicateAnswers` and `CapabilityLaws.DuplicateNarrows` settle case by case |
| `HandleTables.HandleTable.StageGrantTo` | kernel/src/object.rs:327-349 | the object's grant is the specification's, the source untouched; `CapabilityLaws.StageAnswers` and `CapabilityLaws.StageGrants` settle its outcome |
| `HandleTables.HandleTable.CommitGrant` | kernel/src/object.rs:351-357 | a move closes the source, a copy changes nothing |
| `HandleTables.HandleTable.RollbackGrant` | kernel/src/object.rs:359-361 | closes what was staged |
| `Objects.ContainsSingles` | lib/kumo-abi/src/object.rs:66-68 | each single right is held only by those that have it |
| `Objects.KoidsCountUp` | kernel/src/object.rs:66-75 | ids count up from 1 and stay at the last one |
| `CapabilityLaws.RequireAnswers` | kernel/src/object.rs:226-240 | by lookups alone: accepted exactly when live, of the kind and with the rights; each of the three refusals exactly when it is the first that applies |
| `CapabilityLaws.DuplicateAnswers` | kernel/src/object.rs:242-250 | succeeds exactly for a live handle that has DUPLICATE and the rights asked for, with a number left; each of the three refusals exactly in its case |
| `CapabilityLaws.DuplicateNarrows` | kernel/src/object.rs:242-250 | the next number then names the same object and lineage with exactly the rights asked for; every other handle of every table, and all else, is as before; a refused one changes nothing |
| `CapabilityLaws.StageAnswers` | kernel/src/object.rs:327-349 | succeeds exactly for a live handle with TRANSFER (move) or DUPLICATE (copy) and a number left in the target; each refusal exactly in its case |
| `CapabilityLaws.StageGrants` | kernel/src/object.rs:327-349 | the target's next number names the same object, lineage and rights; every other handle is as before |
| `CapabilityLaws.MintMakes` | kernel/src/object.rs:159-219 | a new object is named by the next number with the rights given, with a lineage exactly for device contexts and interrupts |
| `CapabilityLaws.HandleLeaves` | kernel/src/object.rs:252-272 | closing and removing take exactly that handle out; the one drops its owner, the other keeps it in flight |
| `CapabilityLaws.TableDrains` | kernel/src/object.rs:292-294 | draining leaves no live handle and all entries in flight, in order |
| `Channels.CascadeStepMeasure` | kernel/src/ipc.rs:508-544 | each turn of the close loop lowers queued plus listed channel capabilities by exactly one |
| `CloseCascade.CascadeExact` | kernel/src/ipc.rs:508-544 | closing closes the argument and exactly the open endpoints that lose their last owner on the way, each carried by one closed before it; every other endpoint is untouched; the result lists the peers open at their turn |
| `CloseCascade.CloseExact` | kernel/src/ipc.rs:508-569 | the cascade followed by the reap, in every sound registry: the reap takes no endpoint's last owner away exactly when the cascade leaves every owned endpoint an owner outside the pairs then dead; then exactly the pairs with two closed, unowned ends are gone |
| `CloseCascade.CloseOutcome` | kernel/src/ipc.rs:508-569 | the outcome endpoint by endpoint in the final registry: closed and empty or gone, orphaned and unnoticed, or untouched |
| `CloseCascade.ReapOrphansIff` | kernel/src/ipc.rs:546-569 | the reap takes no endpoint's last owner away exactly when every owned endpoint has an owner that is not queued in a dead pair; the index loop is then the filter that keeps the other pairs |
| `CloseCascade.QuietSpares` | kernel/src/ipc.rs:546-551 | that condition holds after the cascade whenever no closed endpoint held a queued channel capability before the call |
| `OrphanedEndpoint.RunOrphans` | kernel/src/ipc.rs:508-569 | twelve operations from boot reach a state in which closing an endpoint takes the last owner of an open one, leaves it open and signals nobody |
| `Shedding.CloseSheds` | kernel/src/ipc.rs:508-569 | whatever the registry: a close lowers each count by exactly the queued owners it drops and removes no record with an owner left |
| `Transfers.CollectIff` | kernel/src/ipc.rs:274-307 | a send collects its handles exactly when they are distinct, live and transferable, in order |
| `Transfers.SendConserves` | kernel/src/ipc.rs:274-307 | a send moves owners from the table into the message: per lineage none is made or lost |
| `Transfers.InstallExact` | kernel/src/ipc.rs:88-110 | received entries are numbered consecutively after the existing ones, which stay as they are |
| `Transfers.ReceiveConserves` | kernel/src/ipc.rs:88-110 | a receive moves owners from the message into the table: per lineage none is made or lost |
| `Transfers.ReceivedResolve` | kernel/src/ipc.rs:309-326 | each received handle names the same object with the same rights, in order |
| `Registry.IpcRegistry.ChannelCreate` | kernel/src/ipc.rs:205-223 | two handles and a pair, or the failures of either insertion |
| `Registry.IpcRegistry.RootChannelCreate` | kernel/src/ipc.rs:186-203 | one handle and a pair whose left end has no owner count |
| `Registry.IpcRegistry.PortCreate` | kernel/src/ipc.rs:225-242 | one handle and a port record that observes it |
| `Registry.IpcRegistry.TakeUnreferencedPorts` | kernel/src/ipc.rs:575-595 | removes exactly the ports without an owner, and returns their ids in order |
| `Registry.IpcRegistry.ChannelWrite` | kernel/src/ipc.rs:274-307 | all or nothing: a refused send changes no table, mailbox or count; a successful one moves exactly the named entries; when it succeeds and what is queued: `CapabilityLaws.SendAnswers`, `CapabilityLaws.SendMoves` |
| `Registry.IpcRegistry.ChannelRead` | kernel/src/ipc.rs:309-326 | all or nothing: a failed receive leaves entries, mailbox and counts as they were, also after a partial installation; when it succeeds and what it answers: `CapabilityLaws.ReceiveAnswers`, `CapabilityLaws.ReceiveMoves` |
| `Registry.IpcRegistry.CloseEndpoint` | kernel/src/ipc.rs:508-544 | the worklist loop computes the cascade and the reap of the specification |
| `Registry.IpcRegistry.ReapUnowned` | kernel/src/ipc.rs:552-569 | the index loop computes the reap of the specification, counts included |
| `CapabilityLaws.SendAnswers` | kernel/src/ipc.rs:274-307 | a send through a usable handle succeeds exactly when every named handle is new in the list, live and transferable, both lengths are within bounds and the peer is open; otherwise the answer is that of the first of these that fails, for the first bad handle |
| `CapabilityLaws.SendMoves` | kernel/src/ipc.rs:274-307 | then exactly the named handles leave the sender's table and exactly the peer's mailbox grows, at its end, by the header, bytes and entries sent; a refused send changes nothing |
| `CapabilityLaws.ReceiveAnswers` | kernel/src/ipc.rs:309-326 | a receive through a usable handle succeeds exactly when a message waits whose entries fit the numbers left, and tells its bytes, ordinal, flags and as many handles as it carries; on an empty mailbox it is ShouldWait exactly when the peer is open, PeerClosed exactly when not |
| `CapabilityLaws.ReceiveMoves` | kernel/src/ipc.rs:309-326 | then the front message leaves that mailbox and its entries are named by the next numbers in order, all handles issued before as they were; one that does not fit changes only that no number is left, one on an empty mailbox changes nothing |
| `CapabilityLaws.RunReceives` | kernel/src/ipc.rs:309-326 | in every state of every run from boot, a usable channel handle leads to its endpoint, unless its channel was never made, and a receive through it answers so |
| `CapabilityLaws.Unusable` | kernel/src/ipc.rs:274-326 | through any other handle, or for a channel that is not there, the answer is the handle check's or NotChannel, and nothing changes |
| `CapabilityLaws.KernelSends` | kernel/src/ipc.rs:680-686 | the kernel's message joins the end of the peer's mailbox exactly if that is open, and nothing else changes |
| `CapabilityLaws.KernelReceives` | kernel/src/ipc.rs:688-711 | the kernel takes the front message and its entries; on an empty mailbox nothing changes |
| `CapabilityLaws.ChannelMade` | kernel/src/ipc.rs:205-223 | with two numbers left: two handles, two open empty ends, each other's peer; with one left only the first handle; with none nothing |
| `CapabilityLaws.FreshWaits` | kernel/src/ipc.rs:205-223 | a read of either end of a new channel is told to wait |
| `CapabilityLaws.RootChannelMade` | kernel/src/ipc.rs:186-203 | one handle, to the right end; the left end has no owner count |
| `CapabilityLaws.PortMade` | kernel/src/ipc.rs:225-242 | one handle and an empty port that observes it, or nothing |
| `CapabilityLaws.RightsOfNew` | kernel/src/ipc.rs:186-242 | the rights new channel and port handles have |
| `CapabilityLaws.CloseAnswers` | kernel/src/ipc.rs:508-509 | a close is refused exactly for an id no endpoint has |
| `CapabilityLaws.TakesPortByPort` | kernel/src/ipc.rs:575-595 | whatever ports came before, a port is taken, and its id returned, exactly when it has an observed lineage without an owner |
| `Channels.LastListedFirst` | kernel/src/ipc.rs:522-537 | the cascade's worklist is a stack: what was listed later, with all that follows from it, is finished before what was listed earlier |
| `Ports.Port.QueueSignal` | kernel/src/ipc.rs:822-832 | merges a signal into the source's pending packet or appends one |
| `Ports.Port.Wait` | kernel/src/ipc.rs:834-850 | takes the front packet, or reports that there is none |
| `Ports.PendingExact` | kernel/src/ipc.rs:822-850 | over any history: pending packets are the sources signalled since their last delivery, once each, in the order of their first such signal, each with the union of its signals since |
| `Ports.DeliveredInTurn` | kernel/src/ipc.rs:822-850 | the packet at index i is delivered by the (i+1)-th wait, whatever other sources signal meanwhile |
| `CapabilityRuns.CountsAreOwners` | kernel/src/object.rs:94-116 | after any run, a strong count is exactly the owners in all tables, mailboxes and in flight, so an observer reports unreferenced exactly when there is none |
| `CapabilityRuns.MethodsApply` | kernel/src/ipc.rs:274-326 | what the methods require of counts (they cover every table and everything queued) holds in every state of every run |
| `CapabilityRuns.RightsNeverWiden` | kernel/src/object.rs:226-250 | after any run, every capability anywhere lies within rights some mint gave that object |
| `CapabilityRuns.OnlyGrantsRaise` | kernel/src/object.rs:242-272 | sends and receives change no count; only a duplicate or a staged grant of an owner with the right for it raises one, by one |
| `CapabilityRuns.MoveConserves` | kernel/src/object.rs:327-357 | a committed move conserves every count |
| `CapabilityRuns.RollbackRestores` | kernel/src/object.rs:327-361 | a rolled-back grant restores every count and both tables' entries |
| `CapabilityRuns.RunEndures` | kernel/src/object.rs:305-320 | over any run, a handle number once issued keeps its entry or loses it for good, and exhaustion is permanent |
| `Reclamation.BootRunResolves` | kernel/src/ipc.rs:463-595 | in every run from boot, after any amount of closing and reaping, a channel or port capability in any table, mailbox or in flight resolves to its own record exactly unless its channel was never made, which is so only for a `channel_create` entered with a single handle number left |
| `Reclamation.RunResolves` | kernel/src/ipc.rs:463-595 | the same from any state of the run invariant, with the ids lost before |
| `Reclamation.ChannelResolvesIff` | kernel/src/ipc.rs:205-223 | `channel_create` keeps that property exactly when it is not entered with a single handle number left |
| `Reclamation.CoreIsSound` | kernel/src/ipc.rs:508-544 | every state of every run meets the assumptions of the close cascade's account |
| `Reclamation.RunCascadeExact` | kernel/src/ipc.rs:508-544 | so in every state of every run a close closes exactly what it should |
| `Reclamation.RunCloseExact` | kernel/src/ipc.rs:508-569 | and its reap takes some endpoint's last owner away exactly when the cascade leaves some owned endpoint only owners queued in dead pairs |
| `RootChannels.RootMade` | kernel/src/ipc.rs:186-203 | with a handle number left, `root_channel_create` makes a pair the kernel finds under its id |
| `RootChannels.RunKeepsRoots` | kernel/src/ipc.rs:463-476 | after any run the kernel finds the same root channel under its id |
| `RootChannels.RootStays` | kernel/src/ipc.rs:186-203 | so a root channel made at any point of any run from boot is found ever after |
| `MessageOrder.RunInOrder` | kernel/src/ipc.rs:680-711 | over any run, what an endpoint received is a prefix of what was sent to it, in order, and while it is open the rest waits in its mailbox; the capabilities the receiver's new handles name in its table are those the sender's handles named in its own |
| `MessageOrder.BootRunInOrder` | kernel/src/ipc.rs:274-326 | in particular in every run from boot |
| `ReadyQueues.TopLevelIs` | kernel/src/sched.rs:144-151 | two trailing-zero counts find the lowest nonempty of 256 levels |
| `ReadyQueues.PriorityClass.TopLevel` | kernel/src/sched.rs:144-151 | the bitmap answer is that of the plain array of FIFOs |
| `ReadyQueues.PriorityClass.Enqueue` | kernel/src/sched.rs:161-166 | appends to one level; bitmap, summary and length keep agreeing with the levels |
| `ReadyQueues.PriorityClass.Dequeue` | kernel/src/sched.rs:168-181 | removes the first occurrence at the level, if any |
| `ReadyQueues.PriorityClass.PickNext` | kernel/src/sched.rs:183-193 | takes the front of the most urgent level |
| `ReadyQueues.PriorityClass.IsEmpty` | kernel/src/sched.rs:199-201 | the summary is zero exactly when no thread is ready |
| `Scheduler.PointKeeps` | kernel/src/sched.rs:326-523 | after every scheduling point, from any state: no ready thread is more urgent than the running one, idle runs only when nothing is ready, every level keeps its threads (one more after a wake, without the running one after a block), the decision names the old and the new thread, and a thread switched to has its whole quantum before it |
| `Scheduler.DequeueTakesOne` | kernel/src/sched.rs:319-321 | removing a ready thread takes one occurrence of it from its level and nothing else |
| `Scheduler.DequeueTakesFirst` | kernel/src/sched.rs:168-181 | it is the first occurrence, and the others keep their order |
| `ReadyOrder.PointInOrder` | kernel/src/sched.rs:326-523 | at every scheduling point, from any state: every level is what it was with the woken thread and then the one giving way at its tail, without its front if that is chosen; the one chosen is the front of the most urgent level with anyone in it, and one is chosen exactly when nobody stays running; the ticks and the idle thread likewise |
| `ReadyOrder.DecisionIs` | kernel/src/sched.rs:363-499 | the decision returned is NothingToRun, Continue or Switch exactly as the running thread goes, stays or is replaced |
| `ReadyOrder.LevelsAreQueues` | kernel/src/sched.rs:326-523 | over any run of scheduling points, preemptions included, each level is a FIFO: those who waited and then those who joined, in order, are those chosen and then those still waiting |
| `ReadyOrder.AheadRunsFirst` | kernel/src/sched.rs:474-523 | so the i-th waiting at a level is the i-th chosen from it, or still waits behind as many as are left: who is ahead runs first |
| `Dispatchers.Dispatcher.OnTimerTick` | kernel/src/sched.rs:363-388 | a tick of the object is a tick of the specification |
| `Dispatchers.Dispatcher.RescheduleCurrent` | kernel/src/sched.rs:392-404 | a reschedule of the object is one of the specification |
| `Dispatchers.Dispatcher.WakeRt` | kernel/src/sched.rs:326-329 | a wake of the object is one of the specification |
| `Dispatchers.Dispatcher.YieldCurrent` | kernel/src/sched.rs:409-421 | a yield of the object is one of the specification |
| `Dispatchers.Dispatcher.BlockCurrent` | kernel/src/sched.rs:425-429 | a block of the object is one of the specification |
| `Dispatchers.Dispatcher.DispatchAfterRemoved` | kernel/src/sched.rs:440-472 | its branch for a disagreeing peek and pick is unreachable |
| `Dispatchers.Dispatcher.PreemptToRt` | kernel/src/sched.rs:474-499 | a preemption of the object is one of the specification, which `ReadyOrder.PointInOrder` puts in order; its branch for an empty queue is unreachable |
| `Dispatchers.Dispatcher.RotateSameLevel` | kernel/src/sched.rs:501-523 | its branch for an empty queue is unreachable |
| `RoundRobin.ServedInTurn` | kernel/src/sched.rs:363-388 | with nothing more urgent ready, the i-th waiting equal runs from tick (quantum - ticks) + i * quantum on for one quantum, whatever equal or less urgent threads arrive |
| `RoundRobin.NotServedEarly` | kernel/src/sched.rs:363-388 | before that tick one of those ahead of it runs |
| `RoundRobin.YieldsRotate` | kernel/src/sched.rs:409-421 | after k yields the running thread is the (k mod n)-th of the line of n, and the line is only rotated |
| `Dispatchers.SchedulerSample` | kernel/src/actorstat.rs:126-154 | the measured rotation fails only for an unsupported size, no steps or a clock that went back |
| `DeviceMemory.DmaExclusionsExact` | kernel/src/device_memory.rs:438-448 | a DMA object can be issued exactly when it avoids the blocks `dma_exclusions` reports |
| `DeviceMemory.ReachApart` | kernel/src/device_memory.rs:379-420 | a page outside an object's reach shares no 2 MiB block with it (device, DMA) or no byte (RAM) |
| `DeviceMemory.OverlapMeans` | kernel/src/device_memory.rs:379-420 | the overlap test of two nonempty spans in range holds exactly when they share an address |
| `TableLaws.TakesFirst` | kernel/src/device_memory.rs:728-735 | with a frame unleased, an allocation returns the first such frame and leases it; the allocator is not asked and no memory changes |
| `TableLaws.TakesCandidate` | kernel/src/device_memory.rs:736-757 | with every frame leased, it returns the candidate, zeroed and as a new leased frame, exactly when that is aligned, below 4 GiB, clear of every exclusion and not yet a frame |
| `TableLaws.TakeYields` | kernel/src/device_memory.rs:728-757 | so an allocation yields a page exactly when a frame is unleased or the candidate may be taken on |
| `TableLaws.GiveIs` | kernel/src/device_memory.rs:768-788 | a release by the owner unleases that frame, zeroes its page and drops it from that lease, and nothing else |
| `TableLaws.GiveByOthers` | kernel/src/device_memory.rs:768-773 | a release by anyone else changes nothing |
| `TableLaws.GivenCanBeTaken` | kernel/src/device_memory.rs:728-788 | after a release the next allocation, by anyone and whatever the allocator offers, returns an unleased frame without touching memory, and the page released if no other was unleased |
| `TableLaws.StoreIs` | kernel/src/device_memory.rs:763-767 | a store by the owner changes one word; by anyone else, or past the page, none |
| `TableLaws.PrepareAnswers` | kernel/src/device_memory.rs:379-420 | memory without a fixed place is always accepted, RAM exactly when it ends below 2^64 and meets no frame; the only refusal is AccessDenied |
| `TableLaws.PrepareBlocks` | kernel/src/device_memory.rs:379-420 | device and DMA memory is accepted exactly when it can be rounded out to 2 MiB blocks below 2^64 and no frame lies in one of its blocks; what is reserved are those blocks |
| `TableLaws.CommitIs` | kernel/src/device_memory.rs:422-434 | a commit adds the span to what is excluded and the object to what is issued, and uses the ticket up |
| `DeviceTables.RunKeeps` | kernel/src/device_memory.rs:357-448 | over any run in which prepares, commits, takes, stores and releases interleave: frames distinct, aligned, below 4 GiB and clear of every exclusion; a frame is leased exactly when one lease owns it; free frames are zero |
| `DeviceTables.FramesApart` | kernel/src/device_memory.rs:379-434 | over any run, no frame shares a 2 MiB block with issued device or DMA memory, nor a byte with issued RAM |
| `DeviceTables.TakesZeroedAlone` | kernel/src/device_memory.rs:728-757 | every page handed out reads all zero and has no other owner |
| `DeviceTables.RunLeavesPage` | kernel/src/device_memory.rs:758-788 | over any run in which its owner leaves a page alone, the page keeps what was stored in it |
| `DeviceTables.GivesBack` | kernel/src/device_memory.rs:768-788 | the assertions of a release by its owner hold |
| `DeviceTables.CommitAssertionIff` | kernel/src/device_memory.rs:422-434 | whatever runs between a prepare and its commit, the assertion of the commit holds exactly when no allocation on the way found the pool without a free frame and was offered a fitting page that meets the span |
| `DeviceTables.PreparedCommits` | kernel/src/device_memory.rs:379-434 | so in every run from boot; with nothing in between, a prepared object is issued |
| `DeviceTables.CommitAssertionCanFail` | kernel/src/device_memory.rs:422-434 | a concrete allocation between prepare and commit makes it fail |
| `TablePools.TablePool.PrepareVmo` | kernel/src/device_memory.rs:379-420 | refuses exactly the objects whose reach overflows or meets a frame |
| `TablePools.TablePool.CommitVmo` | kernel/src/device_memory.rs:422-434 | records the reach of an issued object |
| `TablePools.TablePool.DmaExclusions` | kernel/src/device_memory.rs:438-448 | each block with a frame in it, once |
| `TablePools.TableLease.AllocatePage` | kernel/src/device_memory.rs:728-757 | an allocation of the object is one of the specification, memory included; when it yields a page and which: `TableLaws.TakesFirst`, `TableLaws.TakesCandidate` |
| `TablePools.TableLease.Write` | kernel/src/device_memory.rs:763-767 | changes one word of one owned page |
| `TablePools.TableLease.ReleasePage` | kernel/src/device_memory.rs:768-788 | scrubs all 1024 words, frees the frame and forgets the page |
| `ConsoleRing.EveryInterleaving` | kernel/src/conin.rs:60-80 | under every interleaving of single loads, slot accesses and stores: popped bytes followed by buffered bytes are the accepted ones, at most 255 are held, the sides never meet in a slot, a push is refused only by a full ring |
| `ConsoleRing.StepCoherent` | kernel/src/conin.rs:60-80 | a stale copy of the other side's index is still safe at every step |
| `ConsoleRing.EveryCallAccounted` | kernel/src/conin.rs:60-80 | over any interleaving, every push that came back was accepted or refused and every pop gave a byte or found nothing |
| `ConsoleRing.PushAlone` | kernel/src/conin.rs:60-69 | a push left to itself appends its byte, unless 255 are held |
| `ConsoleRing.PopAlone` | kernel/src/conin.rs:72-80 | a pop left to itself takes the oldest byte, unless there is none |
| `LogStamps.FormatStamp` | kernel/src/kmsg.rs:233-256 | the two digit loops write the stamp of the specification |
| `LogStamps.StampReads` | kernel/src/kmsg.rs:233-256 | the stamp reads back as ns / 1000 modulo 10^11 |
| `LogStamps.StampShape` | kernel/src/kmsg.rs:233-256 | the stamp is `[`, five places for the seconds, blank before their first digit, `.`, six digits, `]` and a blank |
| `LogLines.HistoryKept` | kernel/src/kmsg.rs:137-190 | however sources interleave, as long as every byte finds room, a source's kept lines and its unfinished line are what it wrote without CR and LF, in order |
| `LogLines.FedGood` | kernel/src/kmsg.rs:137-154 | a byte that finds room leaves one line per source, within length, free of CR and LF |
| `LogLines.SourcedRuns` | kernel/src/kmsg.rs:137-154 | in a history without source u64::MAX every byte finds room in its buffer |
| `LogHistory.EveryLine` | kernel/src/kmsg.rs:137-190 | every kept line was started by a byte that found no line of its source, has that byte's time and just what its source wrote from there to the byte that ended it: its own line feed, the byte that filled it, or a newcomer's byte when this line's first byte was the earliest of the eight |
| `LogLines.StartsFresh` | kernel/src/kmsg.rs:156-180 | a line starts empty with the time of its first byte and is the youngest |
| `LogLines.ReservedSourceIff` | kernel/src/kmsg.rs:137-165 | for source u64::MAX a byte falls outside the buffer exactly when the first free slot last held a full line |
| `LogLines.ReservedSourceOverruns` | kernel/src/kmsg.rs:137-165 | one full line is enough for that |
| `LogStream.KeptReadIsSlice` | kernel/src/kmsg.rs:202-219 | a read at an offset still kept is that slice of the stream of lines |
| `LogStream.OverwrittenRead` | kernel/src/kmsg.rs:202-219 | a read at an overwritten offset returns the stream from the start of a line on, as much as there is room for, and the offset after it; that start is within 256 bytes after the oldest kept byte |
| `LogStream.LineLies` | kernel/src/kmsg.rs:182-190 | between its offset and the next, a line is its stamp, its body and a line feed |
| `LogStream.ReadPastEnd` | kernel/src/kmsg.rs:202-219 | a read past the end returns nothing and the end |
| `LogStream.OverwrittenReadStarts` | kernel/src/kmsg.rs:202-212 | the start of such a read is a line boundary within 256 bytes after the oldest kept byte |
| `LogStream.SkipsAKeptLineIff` | kernel/src/kmsg.rs:199-219 | it returns what a read at the first whole line still kept returns exactly when the oldest kept byte is not itself a line start |
| `LogStream.SkipsAKeptLine` | kernel/src/kmsg.rs:199-219 | after 257 full lines a read at offset 0 with room for the whole ring returns lines 2 to 256; line 1 is kept whole and skipped |
| `LogStream.PiecesConcatenate` | kernel/src/kmsg.rs:202-219 | reads in pieces give what one read gives |
| `KernelLogs.Log.Append` | kernel/src/kmsg.rs:137-154 | the object takes the bytes as the specification does, up to the first that falls outside its buffer, which only source u64::MAX can cause; its ring keeps the last 64 KiB of the stream |
| `KernelLogs.Log.CommitSlot` | kernel/src/kmsg.rs:182-190 | stamp, body and line feed go to the ring and the slot is free |
| `KernelLogs.Log.Push` | kernel/src/kmsg.rs:192-197 | the ring agrees with the stream after every byte |
| `KernelLogs.Log.ReadInto` | kernel/src/kmsg.rs:202-219 | fills the destination as the specification's read, settled by `LogStream.KeptReadIsSlice`, `LogStream.OverwrittenRead` and `LogStream.ReadPastEnd`, and leaves the rest of it alone |
| `KernelLogs.WritesAreHistory` | kernel/src/kmsg.rs:137-154 | a log that took writes in turn is the assembly of that history of bytes, and every byte of the history found room |
| `LeastSquares.DetIsPairSum` | kernel/src/ipcstat.rs:215-220 | the determinant is the sum over pairs of the squared cross product |
| `LeastSquares.QuotientTruncates` | kernel/src/ipcstat.rs:222-248 | the division truncates toward zero |
| `LeastSquares.SolvesIff` | kernel/src/ipcstat.rs:215-223 | the determinant is never negative; a fit exists exactly for two or more intervals not all of one ratio |
| `LeastSquares.SeparationIsPercent` | kernel/src/ipcstat.rs:235-247 | separation lies in 0..100 and its scale is never zero |
| `LeastSquares.OrderIrrelevant` | kernel/src/ipcstat.rs:200-211 | the order of intervals does not matter |
| `LeastSquares.FitRecoversLinear` | kernel/src/ipcstat.rs:215-248 | a fit to exact linear data gives back both series' rational rates, scaled and truncated |
| `LeastSquares.TwoIsCramer` | kernel/src/ipcstat.rs:251-267 | for two intervals the result is the exact solve |
| `BestFit.FitIsLeast` | kernel/src/ipcstat.rs:213-234 | what a fit returns are the truncated rates of least squared error over its intervals, among all rational rates, for both series |
| `IpcStats.DifferenceIsWhatPassed` | kernel/src/ipcstat.rs:144-155 | the difference of two readings is what passed between them, also across a wrap of the 32-bit counter |
| `IpcStats.BackIsNothing` | kernel/src/ipcstat.rs:144-155 | a counter or clock that went back counts as having stood still |
| `IpcStats.IntervalsRecover` | kernel/src/ipcstat.rs:200-248 | when system calls and switches of all intervals cost constant rates per event and per millisecond, the fit returns exactly these rates, each in its own field, per hundred and per second |
| `IpcStats.Accumulator.Add` | kernel/src/ipcstat.rs:200-211 | the sums become those of one more interval |
| `IpcStats.Accumulator.SolveFit` | kernel/src/ipcstat.rs:215-248 | computes the fit of the specification from the sums |
| `IpcStats.FitTwo` | kernel/src/ipcstat.rs:262-267 | two intervals give the exact solve, or nothing when they have one ratio |
| `DeviceTreeParser.Parse` | imager/src/lib.rs:270-357 | for every byte string the cursor loop stays in range, moves on at every turn and computes the parse of the specification, errors included |
| `DeviceTreeParser.ReadStrings` | imager/src/lib.rs:467-481 | splits at zero bytes, leaves out empty pieces, stops at the first that is not UTF-8 |
| `DeviceTreeErrors.HeaderAnswers` | imager/src/lib.rs:279-307 | too small exactly below 40 bytes, bad magic exactly for another magic number, then each block that passes its limit, in order, with both sizes |
| `DeviceTreeErrors.RootAnswers` | imager/src/lib.rs:309-320 | a block that does not begin with a node, or whose first node has a name, is answered MissingRootNode; one whose first name does not end in it, InvalidOffset; one cut off before its first token, Truncated |
| `DeviceTreeErrors.TokenAnswers` | imager/src/lib.rs:325-348 | a gap is stepped over; the start or end of a node or the end of the tree ends the root properties |
| `DeviceTreeErrors.BadToken` | imager/src/lib.rs:325-348 | any other token is refused by its number, and so is a block that ends within a token |
| `DeviceTreeErrors.FarProperty` | imager/src/lib.rs:329-336 | a property that passes the end of the block is refused with both ends |
| `DeviceTreeErrors.SpoiledSummary` | imager/src/lib.rs:325-348 | root entries followed by something refused are refused with that, or with the error of the first entry that is not understood |
| `DeviceTreeErrors.SpellsIs` | imager/src/lib.rs:337-341 | a property is `model` or `compatible` exactly when its name has those letters, no fewer and no more |
| `DeviceTreeErrors.NameAnswers` | imager/src/lib.rs:446-455 | a name ends at its first zero byte; it is refused outside the strings, without an end, or when it is not UTF-8 |
| `DeviceTreeErrors.ModelAnswers` | imager/src/lib.rs:457-465 | a model ends at its first zero byte or with the data |
| `DeviceTreeErrors.ListAnswers` | imager/src/lib.rs:467-480 | a list is its nonempty pieces in order, refused exactly when one is not UTF-8 |
| `Utf8.ValidIff` | imager/src/lib.rs:446-480 | bytes are text exactly when they are the encoding of some characters, by section 3 of RFC 3629 |
| `DeviceTreeBlob.ParsesMeaning` | imager/src/lib.rs:270-357 | parsing any blob with an unnamed root node is reading its root properties in order, wherever its blocks lie |
| `DeviceTreeRoundTrip.ParsesBack` | imager/src/lib.rs:270-357 | it returns the last model and the last compatible list, whatever other properties and gaps there are |
| `DeviceTreeRoundTrip.LastIsFinal` | imager/src/lib.rs:316-352 | those are the model and the list of the greatest index that has one |
| `DeviceTreeRoundTrip.RoundTrip` | imager/src/lib.rs:270-357 | parsing what was encoded gives back what was put in |

## Left out

- Vector capacities, failing reservations, `shrink_sparse` and `compact`: heap tuning that changes no contents.
- `insert` of a channel object without a lineage: the run model mints channels only through `channel_create` and `root_channel_create`, as the kernel does.
- Object ids running out: the run theorems assume two ids are left whenever an object is made; `create` itself saturates, and the model of it does.
- `channel_call`, `install_call` and `remove_message_with_bytes`: hooks of a call engine that is not part of this model; the last would also need an exception in the order of messages.
- `ChannelEndpoints.pair`: a vector index that reaping shifts; nothing here relies on it.
- Signals of processes and objects other than port packets, and `channel_signals_by_koid`: easy members.
- `on_donation` and `rebalance`: no-ops in this scheduler.
- The idle class of the scheduler as an object of its own: it is one optional thread id, kept here as a field of the dispatcher.
- 64-bit words of the bitmap as machine words: they are naturals below 2^64 with bitwise operators defined bit by bit.
- `OfflineMappings`, `PublishedMappings`, `KernelPages` and `FramebufferRam`: the table walker, the raw memory and the boot record they wrap are not part of this model. The page allocator is a parameter that offers a candidate page, already zeroed; `DeviceTables.RunLeavesPage` alone assumes that the candidate is not a frame in use.
- Weak memory in the console ring: steps interleave but are seen in order, which the acquire and release orderings of the two index variables and a single core are there for.
- `poll_from_irq`, escape sequences, power and shell commands: small case tables over hardware.
- The early console copy, console levels and the busy flag of the kernel log: easy members.
- The buffer of an unfinished log line as an array in place: it is the sequence of its used bytes, so stale bytes past the length are not modelled; that the index is in range is proved.
- `written`, the order counters of the log and the sums of the fit as fixed-width integers: they are unbounded here; the narrowing of the fit's results to 64 bits is explicit.
- The latched counters and the report of `ipcstat`, and the census of `actorstat`: atomics and text output.
- The rest of `imager`, boot code, drivers, user programs and build scripts: hardware, I/O and plumbing.
- LogLines.HistoryKept: says nothing of what the source `u64::MAX` wrote, whose bytes go to whatever line a free slot last had; it holds for every other source however that one interferes.
- LogHistory.EveryLine: leaves out lines of the source `u64::MAX`, which start with another source's bytes.
