# ContainerInfra: verification model

A Dafny model of how ContainerInfra runs containers as microVMs, from the bytes a container writes to a
pipe to the log entry a gRPC client reads, together with the node's resource allocator. Verify with
`dafny verify dfyconfig.toml`.

## What is modelled

**Log hub** (`Ring`, `LogHub`, `LogStream`, `PacketHandler`). A machine's log is a 256-entry ring, a list
of bounded subscriber channels compacted after failed sends, and a side record of the last state. The
classes follow the source; the ring is an array. `LogStream` interleaves the packet handler, any number
of subscribers, their forwarding tasks and their gRPC clients, and shows that every client sees a
contiguous piece of the one unbounded history.

**Guest pipe splitter** (`Lines`, `Splitter`, `WholeLog`, `ByteBuffer`, `SplitterThread`,
`IntendedSplitter`). `Lines` is the reference: split a byte stream on newlines. `Splitter` and
`SplitterThread` are the code as written; `WholeLog` says exactly when their log is right.
`IntendedSplitter` is what the code is meant to do; it is not code of the repository.

**Framing and the stream** (`Framing`, `Wire`). Big-endian length prefixes, the two readers with their
different length checks, and threads that share the stream under a mutex while the guest may die between
any two bytes. The bitcode codec is a parameter.

**Slots, rules and the manager** (`Text`, `Decimal`, `Slots`, `RuleTable`, `Node`, `NodeKernel`,
`NodeEvents`, `NodeRuns`, `NodeManager`, `Forwarding`, `PublishedPorts`). u16 and u8 address arithmetic, the free list, the kernel's ordered rule chains with `-A`,
`-I` and `-D`, rule books that undo themselves, and every run of provision (failing at any point), port
publication, deprovision, machine exit and drain. A slot whose provisioning fails is dropped by the code;
the model keeps such slots in a ghost set, `lost`. `Forwarding` reads the rules from their texts as
iptables does and says what they do to TCP packets; `PublishedPorts` carries that over every run.

**Locks** (`LockOrder`). The lock programs of all node-manager tasks and the data they touch,
first-come-first-served locks, no use of timeouts.

**One machine's life** (`Lifecycle`, `LifecycleRuns`). The guest's main thread, shutdown reader, pipe
threads, layer workers, container waiter and exit channel, with the host's handler and shutdown, over all
interleavings.

**Image layers** (`LayerPool`, `Overlay`). The download workers, and the overlay mount they lead to.

**End to end** (`StreamRefinement`, `EndToEnd`). The byte stream refines the packets of the lifecycle;
splitter, byte stream, lifecycle and log hub composed.

## What the proofs show about the code

- The splitter as written is not exact. Line 145 of `instance/src/host.rs` moves one byte too few to the
  front, and a second newline in one read is not looked for. The read `a\nbc` logs `a` and `b\n`
  (`SingleReadFails`). Two exact conditions are proved for every stream and every chunking:
  - `AsWrittenExactIff`: the log is right after every read if and only if every read is clean. Clean is a
    test on the unterminated piece and the read: no newline and fewer than 1024 bytes in all; or a
    newline with nothing behind it; or a newline with at most 2048 newline-free bytes behind it whose last
    byte happens to equal the stale byte the short copy leaves (plus one coincidence with the overflow
    marker itself).
  - `WholeLogIsRightIff`: the log of a closed pipe is the newline split of its stream if and only if every
    read is harmless. Besides clean reads there are just two harmless ones. The last read may contain a
    whole 2048-byte line with its newline behind another newline: the end of file then flushes that line
    (`LateReadLogsRight`). And a read may leave an unterminated piece of 1024 to 1032 bytes that is wrong
    only behind byte 1024, if the next read has no newline and is harmless in turn: this comes out
    right only when the line goes on as the overflow marker itself (`MarkerLogsRight`).
  - `ErrorLogIsRightIff` is the same for a pipe whose read fails, which flushes nothing.
- The id counter's arithmetic is exact for ids below 16384 and no further (`SlotExistsIff`). The
  build the documentation describes is a debug build, where id 16384 panics; a release build would hand out
  an address twice (`WrappedGatewayCollidesIff`). A run stays below that bound if and only if live,
  in-flight and lost slots together never exceed 16384 (`NextIdIsHighWater`).
- The guest reports the container's own exit code after a shutdown only because the host sends at most
  one `Shutdown`; a second one would be taken for the exit (`SecondShutdownLosesTheCode`).
- `HostCommunication::exit` writes `Exited` before its message, and the host stops reading there, so the
  message never reaches the host's log (`NothingReadAfterExit`, `MessageIsNeverTaken`).
- The layer folder drops the digest's colon. Digests of one algorithm keep separate folders; across
  algorithms two digests can share one (`FoldersCoincideIff`).

## Assumptions

- Delete commands for rules and taps succeed. A new machine's UUID differs from all earlier ones. A tap
  device can be created only if no device of its name exists.
- The host's own rules, including the global `conntrack` rule, do not equal a rule some stack could add
  (`NodeKernel.FreshHost`).
- bitcode: decoding inverts encoding for the packets in hand, and encodings fit the host's length check.
  These are hypotheses of each lemma that needs them (`Framing.Inverts`, `Framing.FitsHost`).
- tokio and standard-library locks and channels behave as documented: mutual exclusion, FIFO, bounded.
- Timestamps are arbitrary. A timeout is a step that may or may not happen; no result relies on one.
- A panic in the guest powers the machine off (the panic hook), so it is the step `Die`.
- In `LockOrder` a handler's wait for bytes from its guest is an ordinary step, so "all tasks finish" also
  assumes that the guest's stream ends or that its next packet comes.

## Model

| member | source | states |
|---|---|---|
| Ring.CircularBuffer.constructor | nodemanager/src/machine/vsock.rs:75-80 | an empty ring of the given capacity |
| Ring.CircularBuffer.PushFront | nodemanager/src/machine/vsock.rs:87-89 | the array ring refines "append to the unbounded history", evicting the oldest when full |
| Ring.CircularBuffer.Iter | nodemanager/src/machine/vsock.rs:122-134 | iteration yields the newest entries of the history, newest first, and nothing else |
| LogHub.Channel.TrySend | nodemanager/src/machine/vsock.rs:96-98 | fails exactly when the channel is full or its receiver gone, and then changes nothing |
| LogHub.KeptIsFilter | nodemanager/src/machine/vsock.rs:94-109 | dropping by index list equals an order-preserving filter of the accepting subscribers |
| LogHub.MachineCommunicator.OfferToAll | nodemanager/src/machine/vsock.rs:94-100 | each subscriber is offered the entry once; the index list holds exactly the failures |
| LogHub.MachineCommunicator.Retain | nodemanager/src/machine/vsock.rs:102-109 | the counter-driven `retain` keeps exactly the subscribers not listed, in order |
| LogHub.MachineCommunicator.KeptFacts | nodemanager/src/machine/vsock.rs:94-109 | the kept list is duplicate free and holds exactly the accepting subscribers, each with the entry appended |
| LogHub.MachineCommunicator.PushLog | nodemanager/src/machine/vsock.rs:87-110 | history grows by the entry; subscribers become the filter of those that accepted; dropped ones are unchanged |
| LogHub.MachineCommunicator.SubscribeLog | nodemanager/src/machine/vsock.rs:112-116 | a fresh empty channel is appended to the subscribers |
| LogHub.MachineCommunicator.CloneBufferWithState | nodemanager/src/machine/vsock.rs:118-149 | returns the snapshot of the unbounded history and the state field |
| LogHub.SnapshotShowsCurrentState | nodemanager/src/machine/vsock.rs:118-149 | a snapshot is the newest 256 entries oldest first, plus the state exactly if its entry was evicted; its last state is the current one |
| LogHub.MachineCommunicator.GetAndSubscribeToLogs | nodemanager/src/machine/machine.rs:189-201 | snapshot and subscription belong to the same moment of the history |
| LogHub.MachineCommunicator.DropSubscribers | nodemanager/src/machine/vsock.rs:151-153 | no subscriber is left and nothing else changes |
| LogStream.RunKeepsInv | nodemanager/src/machine/vsock.rs:87-210 | every interleaving keeps each client's account of what it is owed |
| LogStream.ObserverSeesContiguousHistory | nodemanager/src/manager.rs:279-296 | over every run a client has received a prefix of snapshot plus the contiguous entries pushed after it; nothing lost, repeated or reordered at the seam |
| LogStream.AnySnapshotShowsCurrentState | nodemanager/src/machine/machine.rs:203-210 | in every reachable state a snapshot is the newest 256 entries plus at most one state record, and shows the current state |
| LogStream.CompletedStreamLosesNothing | nodemanager/src/manager.rs:284-296 | a forwarding task returns early only if its client has gone; a stream that ended on its own delivered the whole entitlement |
| LogStream.StreamCanAlwaysDrain | nodemanager/src/manager.rs:284-296 | from every reachable state the task and the client's reads alone bring the client all it is entitled to so far, and the end of the stream once it is unsubscribed |
| LogStream.SubscribeStartsNow | nodemanager/src/machine/machine.rs:189-201 | a new client is subscribed, holds the snapshot of this moment and is owed everything from here on |
| LogStream.SubscribedClientMissesNothing | nodemanager/src/manager.rs:284-296 | what a live subscriber has read, has queued and has in hand is everything so far; its lag is bounded by the two channels |
| LogStream.SubscriptionEndsIff | nodemanager/src/machine/vsock.rs:96-109 | a subscription ends if and only if a push finds 128 entries queued or the task gone, the handler returns with the lock free, or the communicator is dropped |
| LogStream.PushRefinesPushLog | nodemanager/src/machine/vsock.rs:87-110 | the push of the runs is the filter that `PushLog` is proved against |
| Lines.SplitMore | instance/src/host.rs:101-167 | the reference split is incremental: more bytes complete the pending piece |
| Lines.SplitLosesNothing | instance/src/host.rs:101-167 | lines joined by newlines plus the pending piece give the stream back |
| Lines.LinesHaveNoNewline | instance/src/host.rs:101-167 | no line of the reference split contains a newline |
| Splitter.EveryLineIsBounded | instance/src/host.rs:107-127 | on every schedule each line has fewer than 3072 raw bytes and each read has room for at least 1024 |
| Splitter.ReadIsExactIff | instance/src/host.rs:129-159 | from an exact state, one read leads to an exact state if and only if it is clean |
| Splitter.AsWrittenExactIff | instance/src/host.rs:101-167 | for every stream and chunking, the log is the newline split after every read if and only if every read is clean |
| Splitter.CleanReadsSplitExactly | instance/src/host.rs:114-163 | on clean reads an end of file logs the newline split and a read error loses just the unterminated rest (exactly when they come out right is `WholeLog`) |
| Splitter.ExactIsObservable | instance/src/host.rs:114-128 | exactness can be told from the log alone |
| Splitter.TwoNewlinesNeverClean | instance/src/host.rs:130-150 | after a read with two newlines the log is not yet exact: a complete line has not been sent |
| WholeLog.WholeLogIsRightIff | instance/src/host.rs:101-167 | for every stream and chunking, the log of a closed pipe is the newline split if and only if every read is harmless |
| WholeLog.KindsAfterRead | instance/src/host.rs:129-159 | exact recurrences for the three kinds of state that can still lead to a right log: exact, dormant, one line late |
| WholeLog.ErrorLogIsRightIff | instance/src/host.rs:160-163 | after a read error the log holds exactly the complete lines if and only if each read with a newline has one and meets a right buffer |
| WholeLog.TwoNewlinesOnlyAtTheEnd | instance/src/host.rs:130-150 | a read with two newlines leaves the whole log wrong unless it is the last and the late one |
| WholeLog.ShortLinesReadWhole | instance/src/host.rs:101-167 | if newlines only end reads and all lines are under 1024 bytes, the log is exactly the newline split |
| WholeLog.LateReadLogsRight | instance/src/host.rs:114-128 | an unclean last read, a newline and a 2048-byte line with its newline, that still logs right |
| WholeLog.MarkerLogsRight | instance/src/host.rs:152-157 | an unclean read that logs right because the line goes on as the overflow marker |
| Splitter.SingleReadFails | instance/src/host.rs:143-150 | the read `a\nbc` logs `a` and `b\n` instead of `a` and `bc` |
| Splitter.LineReadFacts | instance/src/host.rs:131-150 | after a newline: the line sent, and a rest whose last byte is stale |
| Splitter.NewlineTerminatedReads | instance/src/host.rs:129-159 | when newlines only end reads, every log is clipped lines: first 1024 bytes, marker, last read's part before the newline |
| ByteBuffer.CopyWithin | instance/src/host.rs:145 | the in-place loop over the array is the simultaneous copy of the range, the rest unchanged |
| ByteBuffer.FindNewline | instance/src/host.rs:130 | the position of the first newline of the slice, or its length |
| SplitterThread.LineBuffer.OnData | instance/src/host.rs:129-159 | the array code does what `Splitter.Read` says, all indices in bounds |
| SplitterThread.LineBuffer.OnEof | instance/src/host.rs:114-128 | the final piece is flushed only if nonempty |
| SplitterThread.PipeToLog | instance/src/host.rs:101-167 | the whole thread logs what `Splitter` says for its reads, whether they end in end of file or in an error |
| IntendedSplitter.IntendedIsExact | instance/src/host.rs:101-167 | intended version: for every stream with lines under 1024 bytes and every chunking, the log is the newline split |
| IntendedSplitter.ChunkingIsIrrelevant | instance/src/host.rs:113 | intended version: the log does not depend on how reads chunk the stream |
| IntendedSplitter.ReadInPlace | instance/src/host.rs:129-159 | intended version over the source's buffer refines its specification |
| IntendedSplitter.SendLines | instance/src/host.rs:130-150 | intended version: all complete lines are sent and the whole rest is at the front |
| Framing.BeRoundTrip | instance/src/host.rs:51 | `to_be_bytes` then `from_be_bytes` is the value modulo 2^32 |
| Framing.BeOnto | nodemanager/src/machine/vsock.rs:219 | every four bytes are the encoding of the number they decode to, the first byte carrying 2^24 |
| Framing.FrameRoundTrip | nodemanager/src/machine/vsock.rs:212-254 | reading a written frame gives the packet and leaves exactly what follows |
| Framing.CutFrameFails | nodemanager/src/machine/vsock.rs:217-253 | an incomplete frame is never read as a packet |
| Framing.LengthChecksDiffer | instance/src/host.rs:175-178 | the guest's reader accepts a frame if and only if it has at most 2048 bytes, the host's if and only if it has 1 byte to 1 MB |
| Framing.WholeFramesIsLargest | nodemanager/src/machine/vsock.rs:212-254 | the count of whole frames before a cut is the largest that fits |
| Framing.CutStreamYieldsWholeFrames | nodemanager/src/machine/vsock.rs:174-205 | cutting the stream anywhere yields exactly the whole frames before the cut, up to the first `Exited` |
| Framing.StreamRoundTrip | nodemanager/src/machine/vsock.rs:174-205 | reading everything written gives the packets up to and including the first `Exited` |
| Framing.NothingReadAfterExit | instance/src/host.rs:83-93 | nothing after `Exited`, such as its own message, is ever read |
| Wire.HostReadsWholeFrames | instance/src/host.rs:41-55 | no interleaving tears a frame: the host reads exactly the complete frames in mutex order |
| Wire.LogInterleavesThreads | instance/src/main.rs:142-158 | restricted to one thread, the stream is a prefix of what that thread writes, and in the end all of it |
| PacketHandler.GuestStream.ReadFromStream | nodemanager/src/machine/vsock.rs:212-254 | the reader over the live stream does what the frame reader says and consumes no more |
| PacketHandler.OnlyLastIsExit | nodemanager/src/machine/vsock.rs:185-190 | only the last packet the handler sees can be `Exited` |
| PacketHandler.HandlePacket | nodemanager/src/machine/vsock.rs:180-198 | one packet extends the history by its entry and keeps the state field current |
| PacketHandler.PacketHandlerTask | nodemanager/src/machine/vsock.rs:169-210 | the whole task: history grows by the entries of the packets read; the exit is the guest's, or `Unknown`; no subscriber is left if the final `try_lock` succeeds |
| Decimal.ParsePrint | nodemanager/src/networking.rs:310 | decimal printing can be read back |
| Decimal.DottedInjective | nodemanager/src/networking.rs:116 | different addresses print differently |
| Decimal.ParseDotted | nodemanager/src/networking.rs:116 | a printed address reads back octet by octet, in order |
| Decimal.ParsePrintedEndpoint | nodemanager/src/networking.rs:173 | a DNAT target reads back as that address and that port |
| Slots.SlotExistsIff | nodemanager/src/networking.rs:307-318 | no u16 or u8 step overflows if and only if the id is below 16384 |
| Slots.SlotIsTheUsableHosts | nodemanager/src/networking.rs:312-317 | gateway and guest are the two usable hosts of the /30 at 172.16.0.0 + 4 id, inside 172.16.0.0/12 |
| Slots.FirstSlot | nodemanager/src/networking.rs:307-322 | id 0 is 172.16.0.1, 172.16.0.2 and tap0, in print |
| Slots.SlotsDisjoint | nodemanager/src/networking.rs:310-322 | different ids: different /30 blocks, addresses, gateways and tap names |
| Slots.TakeUndoesReturn | nodemanager/src/networking.rs:303-305 | a slot just returned is the next one handed out, and the allocator is then as before |
| Slots.WrappedGatewayCollidesIff | nodemanager/src/networking.rs:307-317 | with wrapping arithmetic two ids collide if and only if they agree modulo 16384 |
| Slots.NetworkManager.NextSlot | nodemanager/src/networking.rs:302-323 | last recovered slot first, else the next id's slot; the counter moves even if the arithmetic then panics |
| Slots.NetworkManager.Reclaim | nodemanager/src/networking.rs:331-333 | the slot is appended to the free list |
| RuleTable.RulesOfSlotsDisjoint | nodemanager/src/networking.rs:115-239 | no rule text can belong to two slots |
| RuleTable.DeletingABookRemovesItsRules | nodemanager/src/networking.rs:85-92 | deleting a book's entries one first match at a time removes exactly its owner's rules and keeps the order of the others |
| RuleTable.AddActsOnItsChain | nodemanager/src/networking.rs:65-69 | adding to the table is appending to or heading the named chain, and no other |
| RuleTable.DeleteActsOnItsChain | nodemanager/src/networking.rs:85-92 | deleting from the table is deleting from the named chain, and no other |
| RuleTable.IpRuleBook.AddIpRule | nodemanager/src/networking.rs:65-83 | a rule enters the book exactly when its command succeeded |
| RuleTable.IpRuleBook.Drop | nodemanager/src/networking.rs:85-92 | every entry is deleted from the table, oldest first |
| Node.TakenSlotIsFree | nodemanager/src/networking.rs:302-323 | a slot handed out is not live and not lost, and stays accounted for |
| NodeKernel.SetupAndDropIsNothing | nodemanager/src/networking.rs:85-148 | a setup that stops part way and is dropped leaves the table as it was |
| NodeKernel.FailedProvisionLeavesNoTrace | nodemanager/src/manager.rs:60-97 | a provisioning that fails at any step leaves rules, taps and machines unchanged |
| NodeKernel.DroppingABook | nodemanager/src/networking.rs:85-92 | dropping one book clears its slot's rules and changes nothing elsewhere |
| NodeKernel.LiveSlotsDiffer | nodemanager/src/networking.rs:302-333 | two live machines share no address, gateway or tap name |
| NodeRuns.RunKeepsInv | nodemanager/src/manager.rs:60-149 | every run keeps the slot, rule, tap and machine invariants |
| NodeRuns.SlotsArePartitioned | nodemanager/src/networking.rs:302-333 | over every run recovered, live and lost slots are disjoint and together exactly the slots made |
| NodeRuns.NextIdIsHighWater | nodemanager/src/networking.rs:302-318 | the counter is the high-water mark of live, in-flight and lost slots; a run overflows if and only if the mark exceeds 16384 |
| NodeRuns.TableIsBasePlusLiveBooks | nodemanager/src/networking.rs:65-92 | in every reachable state the table is the host's rules in their order plus exactly the live books |
| NodeRuns.DroppingOneStackSparesTheOthers | nodemanager/src/networking.rs:85-239 | dropping one stack removes its rules only; every other machine's rules keep their order |
| NodeRuns.EmptyNodeRestoresTheHost | nodemanager/src/manager.rs:142-149 | without machines, rules and taps are the host's original ones, in order |
| NodeRuns.DrainRestoresTheHost | nodemanager/src/manager.rs:142-149 | a drain in any order empties the node and restores the host |
| NodeRuns.RecoveredSlotIsClean | nodemanager/src/networking.rs:257-263 | a recovered slot's tap and rules are gone before it is handed out again |
| NodeRuns.EachMachineConsumedOnce | nodemanager/src/manager.rs:102-149 | over every race each machine is live or given back, never both or twice; after its cleanup it is given back |
| NodeRuns.FailedProvisionLosesItsSlot | nodemanager/src/networking.rs:325-329 | the slot of a failed provisioning is never recovered nor used again, in any continuation |
| NodeRuns.ProvisionedMachineIsLive | nodemanager/src/manager.rs:72-110 | a successful provisioning makes the machine live on the slot handed out, with its tap and rules, and changes nothing else |
| NodeEvents.ReportedExitsAreTheHandlers | nodemanager/src/manager.rs:130-140 | with a subscription the exits reported are exactly those whose notification ran, each once and with the exit its handler stopped with; without one, none |
| NodeEvents.CleanupCanAlwaysFinish | nodemanager/src/manager.rs:104-140 | from every reachable state each machine's cleanup can come to its end, and then the machine is not live |
| Forwarding.DnatMeans | nodemanager/src/networking.rs:158-176 | the rule's text rewrites exactly the packets for the host port on the interface, to the machine's address and the guest port |
| Forwarding.ForwardReplyMeans | nodemanager/src/networking.rs:195-215 | the rule accepts exactly the machine's packets from the guest port that open no connection |
| Forwarding.ForwardNewMeans | nodemanager/src/networking.rs:216-236 | the rule accepts exactly the packets to the machine's tap device and guest port |
| Forwarding.MasqueradeMeans | nodemanager/src/networking.rs:118-132 | the rule masquerades exactly the packets from the machine's address to the public interface |
| Forwarding.PublishedPortReachesTheMachine | nodemanager/src/networking.rs:150-239 | after the three commands a packet for the host port that no earlier rule claims is rewritten to the machine's guest port and accepted |
| Forwarding.RepliesAreLetOut | nodemanager/src/networking.rs:195-215 | ... and its replies are accepted |
| Forwarding.OtherPacketsAreUnaffected | nodemanager/src/networking.rs:150-239 | ... and all other packets are rewritten and decided as before |
| PublishedPorts.PublishingReachesTheMachine | nodemanager/src/manager.rs:369-383 | in every reachable state a live machine's port can be published, with this effect |
| PublishedPorts.PublishedPortsReachTheirMachines | nodemanager/src/networking.rs:158-176 | in every reachable state a published port that no other rule claims goes to the machine that published it |
| PublishedPorts.LiveRulesAccept | nodemanager/src/networking.rs:134-146 | in every reachable state what one machine's rules accept is accepted, unless the host's own rules decide otherwise |
| PublishedPorts.MachinesCanReachOut | nodemanager/src/networking.rs:115-148 | in every reachable state each live machine's outbound packets are accepted and those from its address masqueraded |
| PublishedPorts.DroppedMachineIsUnreachable | nodemanager/src/networking.rs:85-92 | after a machine's drop no rule the node added sends packets to its address or lets them to or from its tap device |
| NodeManager.InnerNodeManager.Provision | nodemanager/src/manager.rs:60-111 | the imperative code does the model's provisioning step for every outcome |
| NodeManager.InnerNodeManager.Deprovision | nodemanager/src/manager.rs:113-128 | ... the deprovisioning step; a missing machine changes nothing |
| NodeManager.InnerNodeManager.Publish | nodemanager/src/networking.rs:150-239 | ... one publication command; a failed one changes nothing |
| NodeManager.InnerNodeManager.HandleMachineExit | nodemanager/src/manager.rs:130-140 | a subscriber is sent this machine's id and exit, then the machine is gone |
| NodeManager.InnerNodeManager.DrainAll | nodemanager/src/manager.rs:142-149 | ... the drain step for some order of all machines, and no machine is left |
| LockOrder.EveryJobIsOrdered | nodemanager/src/manager.rs:60-149 | every task takes locks in rising rank, touches data only under its lock, writes it only under the exclusive lock, and ends holding none |
| LockOrder.ProvisionTouchesItsData | nodemanager/src/manager.rs:65-100 | provisioning writes the network manager and the machine map |
| LockOrder.ReadersTouchTheirData | nodemanager/src/manager.rs:264-383 | log requests read the map and write one communicator; publications one machine's stack |
| LockOrder.TakeDownTouches | nodemanager/src/manager.rs:113-128 | deprovisioning writes the map and the network manager and, if graceful, the communicator |
| LockOrder.NoDataRace | nodemanager/src/manager.rs:60-149 | in every reachable state an exclusive lock has one holder, and two tasks about to touch the same data both read it |
| LockOrder.NoDeadlock | nodemanager/src/machine/machine.rs:157-187 | in every reachable state with an unfinished task some task can step, without timeouts |
| LockOrder.EveryStepMakesProgress | nodemanager/src/manager.rs:60-149 | every step uses up a bounded measure, so all tasks finish once no more arrive |
| Lifecycle.RunKeepsInv | instance/src/main.rs:61-193 | all interleavings of guest and host keep the stream, channel and handler invariants |
| LifecycleRuns.StatesAppearInOrder | instance/src/main.rs:61-125 | states are reported in the order Online, PullingContainerImage, ExecutingContainer, each at most once |
| LifecycleRuns.ExitedAtMostOnce | instance/src/host.rs:83-93 | the guest writes `Exited` at most once |
| LifecycleRuns.ExitSaysWhatHappened | instance/src/main.rs:147-190 | a failed pull if and only if the reference or the pull failed, which is before the container starts; otherwise the code the container ended with (9999 if none), or two shutdowns came first |
| LifecycleRuns.EndedIsEvent | instance/src/main.rs:149-158 | the container ends at most once and the guest keeps how |
| LifecycleRuns.MessageIsNeverTaken | instance/src/host.rs:83-93 | the message of a failed parse or pull stands right behind `Exited`, and the host's history ends before it |
| LifecycleRuns.EveryNoteIsWritten | instance/src/host.rs:62-93 | every message of the init system is written exactly once, in the order of the events |
| LifecycleRuns.OneShutdownKeepsTheCode | instance/src/main.rs:160-190 | with the host's single shutdown, at whatever moment, the exit carries the code the container ended with, 9999 if none |
| LifecycleRuns.SecondShutdownLosesTheCode | instance/src/main.rs:160-186 | a run with two shutdowns that exits without the container's code |
| LifecycleRuns.GuestCanAlwaysFinish | instance/src/main.rs:160-193 | no interleaving hangs the guest: from every reachable live state guest and container alone reach `Exited` |
| LifecycleRuns.HostReportsUnknownIff | nodemanager/src/machine/vsock.rs:174-209 | `Unknown` if and only if the reader stopped before an `Exited`; otherwise the guest's own exit |
| LifecycleRuns.HostReportsWhatHappened | nodemanager/src/machine/vsock.rs:51-59 | on a failure-free run the node reports a failed pull if and only if the pull failed, a graceful exit if and only if the guest took two shutdowns, else the container's own code |
| LifecycleRuns.HistoryHoldsAPrefixOfEachPipe | nodemanager/src/machine/vsock.rs:174-205 | under any failure each pipe's lines in the history are a prefix of those emitted |
| LifecycleRuns.FailureFreeRunDeliversEverything | instance/src/main.rs:142-190 | without failures every line of both pipes is in the history exactly once, in order, before `Exited` is handled |
| LayerPool.StepKeepsPlaces | instance/src/containers/mod.rs:69-110 | each worker step moves a layer from one place to the next and loses none |
| LayerPool.LayersArePartitioned | instance/src/containers/mod.rs:50-110 | over every interleaving each layer is in exactly one place, with as many workers as layers up to five |
| LayerPool.LabelsCountUp | instance/src/containers/mod.rs:97-105 | progress messages are labelled 1, 2, 3 and so on in the order sent, each for another extracted layer |
| LayerPool.SuccessMeansEveryLayerOnce | instance/src/containers/mod.rs:112-114 | success: every layer extracted and reported exactly once under the labels 1 to n |
| LayerPool.SucceedsIffNoneFailed | instance/src/containers/mod.rs:112-114 | main's answer is success if and only if no layer's download or unpacking failed |
| LayerPool.RunsAreBounded | instance/src/containers/mod.rs:69-114 | queued and unfinished work bounds the length of every run |
| LayerPool.NeverStuck | instance/src/containers/mod.rs:69-114 | a pull without an answer always has a next step |
| LayerPool.SharedWork.PopFront | instance/src/containers/mod.rs:79-82 | the queue hands out the layer the step system says |
| LayerPool.SharedWork.CountAndAnnounce | instance/src/containers/mod.rs:97-105 | counter and messages after one report are those of the step system |
| Overlay.FoldersCoincideIff | instance/src/containers/mod.rs:63-67 | exactly when two digests share a folder; never two different ones of the same algorithm |
| Overlay.LayerFolders | instance/src/containers/mod.rs:61-67 | the loop yields one colon-free folder per layer, in manifest order |
| Overlay.FolderHolds | instance/src/containers/mod.rs:83-90 | whatever the order of unpacking, a folder holds its layer's files once that layer is done |
| Text.SplitUndoesJoinIff | instance/src/containers/fs.rs:39-44 | splitting gives a joined list back if and only if it is nonempty and no entry contains the separator |
| Overlay.OptionIsReadBackIff | instance/src/containers/fs.rs:39-44 | the mount option is read back as the reversed folder list if and only if there is a folder and no name contains a colon |
| Overlay.FirstMatchIsLatestLayer | instance/src/containers/fs.rs:39-44 | first match through the reversed list is the manifest's layers applied in order |
| Overlay.MountShowsTheImage | instance/src/containers/fs.rs:31-51 | whatever the workers' interleaving, every path of the mount shows what the manifest's layers put there |
| Overlay.NoLayersNoMount | instance/src/containers/fs.rs:31-51 | a manifest without layers yields an option that names no folder |
| StreamRefinement.PacketsArePrefix | nodemanager/src/machine/vsock.rs:212-254 | whatever bytes have arrived, they hold a prefix of the packets written, with `Exited` only last |
| StreamRefinement.BytesReadAreTaken | nodemanager/src/machine/vsock.rs:169-210 | bytes refine packets: for any run of the byte stream the machine's life can take exactly the packets in the arrived bytes, with the history and exit the handler computes from them |
| EndToEnd.EveryLineFitsAFrame | nodemanager/src/machine/vsock.rs:228-231 | every splitter line makes a frame the host accepts, if lossy decoding at most triples it and the codec adds a bounded amount |
| EndToEnd.PipeHoldsWhatWasEmitted | instance/src/main.rs:142-145 | in every run a pipe's lines are those its thread has emitted, in order |
| EndToEnd.ArrivedBytesHoldEveryLine | instance/src/main.rs:187-190 | without failures, the bytes up to the arrived `Exited` hold every line of both pipes, in order |
| EndToEnd.HubRecordsWhatItHandles | nodemanager/src/machine/vsock.rs:174-205 | in every run the hub's history is the entries of the packets handled |
| EndToEnd.EarlyClientHoldsEverything | nodemanager/src/manager.rs:279-296 | a client that subscribed before the first eviction and was never too slow ends with the whole history |
| EndToEnd.ClientSeesTheContainersOutput | instance/src/host.rs:101-167 | on a failure-free run with harmless reads, over the byte stream, such a client's lines of a pipe are exactly the newline split of the container's bytes |

## Left out

- Process spawning, MMDS, mounts, the registry client and Firecracker's HTTP interface: each is a step that succeeds or fails.
- `proto/src/auth.rs`, `nodecli` and `instance/src/containers/rt.rs`: comparisons, command-line parsing and assembly of a spec, which would give only easy members.
- The internals of bitcode, tokio, the `circular_buffer` crate, iptables and overlayfs. The ring is written out; the others are hypotheses or small models.
- UTF-8: lines are bytes up to `EndToEnd`, where decoding is a function parameter.
- NodeManager.InnerNodeManager.Provision: network stacks are values in the machine map and their `Drop` is called explicitly where the source's ownership rules run it; the child process left behind when `Machine::new` fails is not part of this model.
- Slots.NetworkManager.NextSlot: overflow is the panic of a debug build; the wrapped release-build address is covered by `WrappedGatewayCollidesIff` only. Locks after such a panic (tokio mutexes do not poison) are not modelled.
- NodeManager.InnerNodeManager.Publish: ports that do not fit u16 are refused before anything is touched (nodemanager/src/manager.rs:352-355); that check is not part of this model.
- LockOrder.NoDeadlock: the handler's last `try_lock`, which never waits, is an ordinary step; the exit-notification channel is taken to be read; the task that sends on it holds no lock.
- Lifecycle.RunKeepsInv: a batch of packets written under one hold of the mutex is one event; `Wire` has the byte-level interleaving, and `StreamRefinement` relates the two by the packets written in mutex order.
- LayerPool.SharedWork.PopFront: a worker's loop is steps of a transition system, so that workers can interleave; the shared queue and counter are the class.
- Overlay.MountShowsTheImage: layers hold regular files without whiteouts, unpacking a layer is one step, the upper directory starts empty, and how a kernel treats a directory named twice is not modelled.
- EndToEnd.ClientSeesTheContainersOutput: splitter, byte stream, life and hub are separate runs that agree on the actions they share: the lines emitted, the packets written and the packets handled.
- Forwarding.DnatMeans: TCP only; rule options other than those listed in `Forwarding` are ignored, so a rule of the host's own counts as matching at least what it matches, and the results that depend on such rules say so.
- Log texts, `as_proto_log_message` and the tracing output.
