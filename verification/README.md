# A verified model of the VirtIO block device

The modelled program is a VirtIO 1.1 block device on the MMIO transport with one split virtqueue: a guest driver writes
descriptor chains and ring entries into its own memory and rings a doorbell register; the device walks the available
ring, follows each chain, moves data between guest buffers and a disk, writes a status byte, appends an element to the
used ring and sets an interrupt bit.

Every operation that changes state in the program is a method of a class (`GuestMemory`, `AvailableRing`, `UsedRing`,
`VirtioQueue`, `BlockBackend`, `VirtioMmioBlockDevice`) with the program's fields, loops, branches and error order. Each
method is proved equal to a function on values, and the theorems are about those functions:

* `Common`, `Bytes`, `Bits`, `WrappingCounters`: error kinds, little-endian images, register bit operations, 16-bit
  counters against the unbounded counters they stand for.
* `Wire`, `Layout`: words in memory byte by byte, and where every shared structure lies, at literal offsets.
* `Memory`: guest memory as bytes, an arbitrary relation saying which accesses translate, and a log of writes.
* `Descriptors`, `Rings`, `BlockRequests`, `Queues`: the chain walk, the two rings, scatter/gather execution, the queue.
* `QueueEngine`, `BlockDevice`: one notification, the registers, and the device object. The notification handler reads
  through a clone of the queue while the live queue changes; its methods are proved to do what processing the live queue
  in place would (`ProcessQueue`).
* `Transfers`: what scatter and gather move, and that data written through one segmentation reads back through another.
* `ChainEffects`, `RingContents`, `Batches`: one notification exactly.
* `HeadMeaning`: what handling one head does, told from the bytes of its chain.
* `ReportedLengths`: the reported length against the bytes really written.
* `SequentialMeaning`: one notification against a specification with no queue at all.
* `WriteOrder`, `WriteOrderRuns`: the order of the device's writes in one notification and in a whole run, whatever the
  used ring holds and however long the batches are.
* `Publication`, `PublicationRuns`: what that order is worth to a driver that keeps no more outstanding than fits, at every
  prefix of the write log.
* `Interrupts`: when the interrupt bit is raised.
* `DeviceRuns`, `Conservation`, `RegisterHistory`: invariants over every run of register writes and guest stores,
  completions against consumption, and the registers as functions of the writes made to them.
* `RegisterMap`: each MMIO offset as a change of the device's fields, and runs of raw MMIO accesses.
* `DriverProtocol`, `BringUp`: driver and device together, over every interleaving from power-on.
* `RunMeaning`: a whole protocol run against a machine with no rings.
* `DataPath`: write-then-read through the whole device, among other requests and doorbells.
* `Walkthrough`, `FlushWalkthrough`, `DataWalkthrough`: concrete runs from power-on, given byte by byte, that meet the
  premises of the protocol and data-path theorems; one with a chain that is no request, and one that loses a completion.

Three vocabulary choices matter when reading the contracts. `used.history` and `avail.consumed` are ghost, unbounded
counterparts of the 16-bit counters. `from` (or `got`) is the first completion the driver has not reaped. A memory
access fails or succeeds by an arbitrary fixed relation, so a statement without a `...Mapped` premise holds whichever
accesses fail. `Wired` is the representation invariant of a queue that can be served; `Matched` adds that both rings
have the queue's present size, which only the driver's side of the protocol needs.

Where the program departs from its own documentation or from VirtIO 1.1 the model follows the program: address registers
are write-once, so two nonzero halves do not assemble (`HalvesAssembleIff`); a ring keeps the queue size it was created
with (`SlotsAgreeIff`); the reported length counts all data descriptors, whatever their direction (`ReportedLenIff`); a
request whose status byte cannot be written runs but is never completed (`NotificationExact`); the suppression flag read
is the used ring's own (`InterruptRaisedIff`); a reset keeps the queue size (`ResetRestoresPowerOn`); a register write
past the end of the device is documented as ignored but is refused as an invalid register (`MmioWrite`); event index is
offered as a feature and ignored when processing.

## Model

| member | source | states |
|---|---|---|
| BringUp.PowerOnToCompletion | axvirtio-blk/src/mmio/device.rs:387-472 | From power-on, any accepted configuration followed by any interleaving of publishing, memory traffic, doorbells and reaping that ends in a doorbell completes exactly the published heads, each once, and the driver can read all of them in order |
| DriverProtocol.RunsRefine | axvirtio-common/src/queue/used.rs:166-207 | Over every such interleaving the 16-bit rings carry two unbounded queues: nothing published, completed or read is lost, repeated, overwritten or revised, across any number of wraparounds, and both device counters agree between notifications |
| DriverProtocol.ExactlyOnce | axvirtio-blk/src/mmio/device.rs:387-472 | After any run ending in a doorbell the multiset of completed heads is the multiset of published heads |
| DriverProtocol.DoorbellKeeps | axvirtio-blk/src/mmio/device.rs:446-461 | A doorbell completes every outstanding head exactly once: requests in published order, then unparsable heads in published order with length 0 |
| DriverProtocol.ReapingReadsEverything | axvirtio-common/src/queue/used.rs:166-207 | Reaping through the driver's own 16-bit counter reads every completion, in order |
| DriverProtocol.PublishCarries | axvirtio-common/src/queue/available.rs:202-216 | With fewer than a ring outstanding, publishing overwrites no entry the device has yet to read |
| DriverProtocol.FetchedArePublished | axvirtio-common/src/queue/available.rs:187-199 | The device fetches exactly the published, unconsumed heads, in order, wherever the 16-bit index wraps |
| DriverProtocol.ReapReadsNext | axvirtio-common/src/queue/used.rs:166-207 | The driver's next read of the used ring yields the next unread completion, or nothing exactly when there is none |
| DriverProtocol.CompletionBytes | axvirtio-common/src/queue/used.rs:136-207 | In every reachable protocol state the word at offset 2 of the used ring counts the completions, and each one not yet read is in the eight bytes at `4 + 8 * (k mod size)` |
| DriverProtocol.PublishedBytes | axvirtio-common/src/queue/available.rs:202-216 | Likewise the word at offset 2 of the available ring counts the published heads, and each one not yet consumed is in the two bytes at `4 + 2 * (k mod size)` |
| BringUp.MatchedIff | axvirtio-common/src/queue/mod.rs:72-127 | The configuration histories that leave a ready queue with rings of its own size are exactly: ready last set, three addresses, both rings addressed while the queue had its present size |
| BringUp.SlotsAgreeIff | axvirtio-common/src/queue/available.rs:187-199 | The slot read for an unbounded counter is always in bounds, and is the driver's slot for every counter if and only if the queue was not made smaller than the ring |
| BringUp.ShrunkQueueMisreads | axvirtio-common/src/queue/mod.rs:72-102 | The concrete failure: after an available ring was addressed with 256 entries and the queue then set to 128, entry 128 is read from slot 0 and not from slot 128 |
| BringUp.EntryForCounter | axvirtio-blk/src/mmio/device.rs:407-421 | In every reachable configuration the entry read for counter `k` is slot `k` modulo the smaller of queue and ring size |
| BringUp.LoopRunsDistanceTimes | axvirtio-blk/src/mmio/device.rs:404-444 | The loop over a wrapping cursor is a loop counting `(avail_idx - last_avail) mod 65536` steps of an unbounded one |
| FlushWalkthrough.FlushFromPowerOn | axvirtio-blk/src/mmio/device.rs:350-492 | A concrete run from power-on: five 32-bit stores at literal MMIO offsets, descriptors and header given word by word, a published head and a store to the doorbell meet every premise of PowerOnToCompletion; the chain parses as a flush, its status byte goes from 255 to 0, the used ring's words count and name the head, and the interrupt status goes from 0 to 1 |
| FlushWalkthrough.ShortHeaderFromPowerOn | axvirtio-blk/src/mmio/device.rs:428-441 | The same with a header descriptor of 8 bytes: the chain is no request, its status byte goes from 255 to 1, the head is completed with length zero and the interrupt is raised |
| FlushWalkthrough.LostFromPowerOn | axvirtio-blk/src/mmio/device.rs:619-628 | The concrete failure: with the status descriptor past the end of memory the same chain parses, its entry is consumed, nothing is completed, and the two 16-bit counters differ |
| DataWalkthrough.DataFromPowerOn | axvirtio-blk/src/block/request.rs:136-236 | A concrete run from power-on, both chains and both headers given word by word, that writes any 512 bytes with one request and reads them with another: it meets every premise of the data-path theorem, the reader's buffer ends holding them, and the used ring's words name heads 0 and 3 with length 512 |
| RunMeaning.RunIsSequential | axvirtio-blk/src/mmio/device.rs:387-492 | After any protocol run the disk, and memory outside the used ring, are those of a machine with no rings that handles the published heads one by one at each doorbell |
| DataPath.WriteThenReadThroughDevice | axvirtio-blk/src/block/request.rs:136-236 | A write handled among any other requests, then any run with any doorbells, then a read of the same sectors handled among any other requests: if none between them writes those sectors and none after the read in its batch writes to its buffers, the reader's buffers hold the writer's bytes, however either is cut |
| DataPath.RunKeepsSectors | axvirtio-blk/src/block/request.rs:188-236 | Over any protocol run whose doorbells handle no write to some sectors, those sectors keep what they hold |
| DataPath.RegionStays | axvirtio-blk/src/mmio/device.rs:407-492 | What a request left in a region outside the used ring is there after the doorbell, unless a later chain of the batch may write to it |
| RunMeaning.DoorbellMeaning | axvirtio-blk/src/mmio/device.rs:387-472 | One doorbell does to disk and to memory outside the used ring what handling the outstanding heads in published order does |
| Conservation.RunConserves | axvirtio-blk/src/mmio/device.rs:407-461 | Over every run of register writes, resets and guest stores with mapped, disjoint chains, however long the batches and whatever the used ring holds: consumed equals completed plus the requests lost to unwritable status bytes since the last reset, so the two 16-bit counters agree exactly when that number is a multiple of 65536 |
| Batches.NotificationExact | axvirtio-blk/src/mmio/device.rs:428-461 | One notification over mapped, disjoint memory, however long the batch and whatever the used ring holds, consumes all pending heads and completes their stable partition, parsed then unparsable; as much as was consumed if and only if every pending request's status byte can be written |
| Batches.NotificationKeepsRing | axvirtio-common/src/queue/used.rs:166-207 | If the batch fits beside what the driver has not reaped, every unreaped element stays in its slot and the index tells how many there are |
| Batches.DrainAdvances | axvirtio-blk/src/mmio/device.rs:407-444 | The loop completes parsed heads at once and defers the others, each in available order |
| Batches.ElemsLen | axvirtio-blk/src/mmio/device.rs:619-640 | One element per head that is not lost, and none is lost if and only if every request's status byte can be written |
| Batches.AppendContents | axvirtio-common/src/queue/used.rs:166-192 | Appending with room keeps every unreaped element intact, adds the new one, and announces it |
| SequentialMeaning.NotificationMeaning | axvirtio-blk/src/mmio/device.rs:387-492 | Whatever accesses fail, after one notification the disk, and memory outside the used ring, are what parsing, executing and writing the status of the pending heads one by one leaves |
| SequentialMeaning.BadChainAnywhere | axvirtio-blk/src/mmio/device.rs:428-441 | Taking an unparsable head out of a batch changes neither the disk nor any byte but that head's own status byte |
| SequentialMeaning.HandleMeaning | axvirtio-blk/src/mmio/device.rs:475-492 | Handling a head is handling it with no ring and then appending exactly its element, if its chain is a request whose status byte can be written |
| WriteOrder.NotificationWritesInOrder | axvirtio-common/src/queue/used.rs:166-207 | For chains and rings that lie apart, however long the batch, whatever the used ring holds and whichever accesses fail: every write of a notification leaves the used ring alone, or is the next completion's element in its slot, after its own status byte with the value that handling the heads in order gives, or is the index, announcing exactly the elements written so far |
| WriteOrder.AppendInOrder | axvirtio-common/src/queue/used.rs:166-207 | Appending writes the element first and the index second, with no premise on room or on the ring's contents; a failed index write leaves the header behind, never ahead |
| WriteOrderRuns.EveryWriteInOrder | axvirtio-common/src/queue/used.rs:166-207 | Every write the device makes in a run of register writes, resets and guest stores, the used ring included, whose served notifications meet chains and rings that lie apart, belongs to a served notification that wrote in that order throughout |
| PublicationRuns.EveryPrefixIsSafe | axvirtio-common/src/queue/used.rs:166-207 | For a driver that leaves the used ring to the device, reaps what is announced and keeps no more outstanding than fits: at every prefix of the whole write trace the index announces only completions that are intact in their slots, each after its status byte |
| PublicationRuns.PowerOnIsSafe | axvirtio-blk/src/mmio/device.rs:84-120 | The same for every such run from power-on |
| PublicationRuns.RunKeepsTrust | axvirtio-common/src/queue/used.rs:166-207 | In every state of such a run the index may be behind but never leads, and every unreaped element is in its slot, after failed index writes too |
| Publication.NotificationKeepsTrust | axvirtio-common/src/queue/used.rs:166-207 | If the batch fits beside what was not reaped and the ring was as the driver expects, then at every prefix of the notification's writes, with any accesses failing, the index announces only intact completions, and afterwards the ring is again as the driver expects |
| WriteOrder.StatusIsLogged | axvirtio-blk/src/mmio/device.rs:619-628 | When a request reaches its used element its status byte, with the value it must have, is among the writes after exactly the elements before it |
| Interrupts.InterruptRaisedIff | axvirtio-blk/src/mmio/device.rs:446-471 | A notification sets bit 0 of the interrupt status if and only if the word at offset 2 of the available ring can be read and had moved, and the used ring's header can be read and bit 0 of its first byte was clear, when it began; otherwise the status is unchanged |
| Interrupts.RequestInterrupts | axvirtio-blk/src/mmio/device.rs:642-657 | A request raises the interrupt as soon as it is published, not only at the end of the batch: exactly if its status byte, its slot and the index can be accessed and NO_NOTIFY is clear |
| DeviceRuns.RunKeepsInv | axvirtio-common/src/queue/mod.rs:72-140 | In every state of every run: the selected queue exists, a ring exists exactly when its address is nonzero and sits there, sizes are powers of two up to 256, completions never exceed consumption, interrupt status is 0 or 1 |
| DeviceRuns.ProcessQueueKeepsRep | axvirtio-blk/src/mmio/device.rs:407-461 | Whatever accesses fail, a notification completes no more than it consumes and moves only counters |
| DeviceRuns.FallbacksAreDead | axvirtio-common/src/queue/mod.rs:152-167 | Whenever a notification is served the table and both rings exist, so the paths without them are never taken |
| DeviceRuns.OnlyServedNotificationsTouchMemory | axvirtio-blk/src/mmio/device.rs:350-384 | Memory and disk change only in a notification taken with DRIVER_OK set, the queue ready and three nonzero addresses |
| DeviceRuns.CompletionRaisesInterrupt | axvirtio-blk/src/mmio/device.rs:642-669 | From every reachable state, a notification that completes something and leaves bit 0 of the used ring's first byte clear leaves the interrupt pending |
| DeviceRuns.InterruptStaysPending | axvirtio-blk/src/mmio/device.rs:280-283 | A pending interrupt survives every run without an acknowledge of bit 0 or a reset |
| DeviceRuns.AckStaysBit | axvirtio-blk/src/mmio/device.rs:280-283 | Acknowledging clears the pending bit exactly when bit 0 is written, and keeps the status 0 or 1 |
| RegisterHistory.RegistersAreTheirHistory | axvirtio-blk/src/mmio/device.rs:240-340 | After any run from power-on: each feature half is the last value written while selected, each address the first nonzero contribution, each ring size the queue size at that moment, all since reset; the queue size is the last acceptable one ever |
| RegisterHistory.HalvesAssembleIff | axvirtio-blk/src/mmio/device.rs:287-304 | Two 32-bit halves assemble into the 64-bit table address, in either order, if and only if one of them is zero |
| RegisterHistory.HighAddressIsLost | axvirtio-common/src/queue/mod.rs:81-90 | The concrete failure: a table at 4 GiB + 0x1000 ends up at 0x1000 |
| RegisterHistory.NegotiationOutcome | axvirtio-blk/src/mmio/device.rs:672-711 | A nonzero status write is stored bit for bit, except that FEATURES_OK is withheld and FAILED set exactly when some accepted feature was not offered |
| RegisterHistory.AcknowledgeClears | axvirtio-blk/src/mmio/device.rs:280-283 | An acknowledge clears exactly the interrupt bits written |
| RegisterHistory.ResetRestoresPowerOn | axvirtio-blk/src/mmio/device.rs:714-727 | From every reachable state a reset gives the power-on state, except that the queue keeps its size |
| Queues.AcceptedSizes | axvirtio-common/src/queue/mod.rs:72-78 | The mask test accepts exactly the powers of two from 1 to 256 |
| Bits.MaskTest | axvirtio-common/src/queue/mod.rs:72-78 | `n & (n - 1)` is zero exactly for powers of two |
| Descriptors.FollowExactlyChains | axvirtio-common/src/queue/descriptor.rs:198-227 | The walk succeeds exactly when a terminated chain of readable slots starts at the head; it returns that chain, with distinct slots, at most `size` of them |
| Descriptors.FollowedChainsAreProper | axvirtio-common/src/queue/descriptor.rs:236-258 | Every followed chain has NEXT on all but its last descriptor and not on the last, so validation never answers `Ok(false)` |
| Descriptors.FollowFails | axvirtio-common/src/queue/descriptor.rs:198-227 | Over a set table the walk fails with InvalidAddress exactly if the links lead to a slot inside the table that cannot be read, and with InvalidQueue if they lead outside the table or through more slots than it has |
| Descriptors.ChainDistinct | axvirtio-common/src/queue/descriptor.rs:198-227 | A chain that ends visits no slot twice |
| Descriptors.DescRoundTrip | axvirtio-common/src/queue/descriptor.rs:183-195 | A descriptor written to memory decodes to itself |
| Layout.DescriptorLayout | axvirtio-common/src/queue/descriptor.rs:170-180 | Descriptor `i` is the sixteen bytes at `16 * i`: address, length, flags and next at 0, 8, 12 and 14, NEXT and WRITE bits 0 and 1 of byte 12; the three errors are told apart |
| Layout.DescriptorImage | axvirtio-common/src/queue/descriptor.rs:183-195 | A written descriptor is its four fields in little-endian bytes, in that order |
| Descriptors.FollowFrame | axvirtio-common/src/queue/descriptor.rs:198-227 | A chain walk depends on no memory but the table |
| Descriptors.DescriptorTable.FollowChain | axvirtio-common/src/queue/descriptor.rs:198-227 | The loop with its guard terminates and computes the walk, error for error |
| Descriptors.DescriptorTable.ValidateChain | axvirtio-common/src/queue/descriptor.rs:236-258 | Answers whether the followed chain has proper flags |
| Descriptors.DescriptorTable.GetDataBuffers | axvirtio-common/src/queue/descriptor.rs:261-284 | For a block device, the descriptors strictly between first and last, with address, length and direction |
| Descriptors.DescriptorTable.GetStatusAddr | axvirtio-common/src/queue/descriptor.rs:287-301 | The last descriptor's address when it is writable and nonempty, else an error |
| Descriptors.DescriptorTable.ReadDescriptor | axvirtio-common/src/queue/descriptor.rs:170-180 | Out-of-table, unset and unreadable slots fail with their own errors |
| Descriptors.DescriptorTable.WriteDescriptor | axvirtio-common/src/queue/descriptor.rs:183-195 | A written descriptor reads back; no byte outside its slot changes; it fails as the read would |
| Transfers.ReadRequestExact | axvirtio-blk/src/block/request.rs:136-185 | A read succeeds exactly when the backend does and all writable buffers are accessible; disjoint ones then hold the first W backend bytes in chain order; nothing else changes; the range error is never returned |
| Transfers.WriteRequestExact | axvirtio-blk/src/block/request.rs:188-236 | A write hands the backend exactly the readable buffers in order, then zeros up to the total length; the range error is never returned |
| Transfers.WriteThenRead | axvirtio-blk/src/block/request.rs:136-236 | Data written through one chain reads back through any other at the same sector, whatever happens to guest memory between |
| Transfers.SegmentationIndependence | axvirtio-blk/src/block/request.rs:136-236 | Pure-direction chains of equal total length carry the payload byte for byte, however each is cut |
| Transfers.StatusMeaning | axvirtio-blk/src/mmio/device.rs:603-616 | The status byte is 2 exactly for request types other than 0, 1 and 4, 0 exactly when the disk serves the request and every buffer of its direction is accessible, and 1 otherwise |
| Transfers.TypeMeaning | axvirtio-blk/src/block/request.rs:121-133 | Type 0 reads and leaves the disk alone, type 1 writes and leaves memory alone, type 4 and the unknown types leave both alone |
| Transfers.SizeIsBothDirections | axvirtio-blk/src/block/request.rs:100-104 | The size of a request is the lengths of its readable and of its writable buffers together, each whole |
| Transfers.ScatterDelivers | axvirtio-blk/src/block/request.rs:150-176 | Later buffers never disturb earlier disjoint ones: together they hold the front of the data |
| Transfers.OutcomeAgree | axvirtio-blk/src/block/request.rs:121-133 | A request's effect depends on no guest byte outside its readable buffers |
| BlockRequests.BlockRequest.HandleRead | axvirtio-blk/src/block/request.rs:136-185 | The scatter loop with its running offset computes the scatter function |
| BlockRequests.BlockRequest.GatherInto | axvirtio-blk/src/block/request.rs:193-220 | The gather loop fills the front of a zeroed buffer with the readable buffers |
| BlockRequests.BlockRequest.HandleWrite | axvirtio-blk/src/block/request.rs:188-236 | Nothing reaches the disk unless the whole payload was gathered |
| BlockRequests.BlockRequest.Execute | axvirtio-blk/src/block/request.rs:107-133 | Dispatch on the request type; an unknown type touches nothing |
| ChainEffects.StatusRewalkAgrees | axvirtio-common/src/queue/mod.rs:276-293 | The walk made to write the status byte, after the data copy, still finds the descriptor the parse found |
| ChainEffects.ParseExactlyRequests | axvirtio-blk/src/mmio/device.rs:495-600 | Parsing succeeds exactly on heads of terminated chains with a readable, accessible 16-byte header first and a writable status last, and finds that chain's type, sector, status address and the buffers between, in order |
| HeadMeaning.ReadHead | axvirtio-blk/src/block/request.rs:136-185 | A request chain whose header starts with bytes 0, 0, 0, 0 reads: if it can, its buffers end holding the disk's bytes from `512 * sector` on, in order, its status byte is 0; the disk never changes |
| HeadMeaning.WriteHead | axvirtio-blk/src/block/request.rs:188-236 | One that starts with 1, 0, 0, 0 writes: if it can, the disk's bytes from `512 * sector` on become its readable buffers' bytes, then zeros, no other byte of the disk changes, and the status byte is 0; memory changes nowhere else |
| HeadMeaning.OtherHead | axvirtio-blk/src/block/request.rs:121-133 | Any other type stores only a status byte: 0 or 1 for a flush, as the disk answers, and 2 for unknown types |
| HeadMeaning.StatusAddrIs | axvirtio-common/src/queue/descriptor.rs:287-301 | The status address of any terminated chain, request or not, is that of its last slot if flag bit 1 is set and the length is not 0, and an error otherwise |
| HeadMeaning.NoChainNoStatus | axvirtio-common/src/queue/descriptor.rs:287-301 | Without a terminated chain of readable slots at the head there is no status address |
| HeadMeaning.RejectedHeadIsMarked | axvirtio-blk/src/mmio/device.rs:428-441 | The head of a chain that is no request is deferred with length 0, and 1 is stored at its status address if there is one and it is accessible; nothing else changes |
| ChainEffects.DataBuffersAre | axvirtio-common/src/queue/descriptor.rs:261-284 | The data buffers are the descriptors strictly between first and last for a block device, and all of them for any other, with their addresses, whole lengths and flag bit 1 |
| ChainEffects.RunRequestStages | axvirtio-blk/src/mmio/device.rs:475-492 | A parsed request touches neither table nor rings before its used element, which is published exactly when its status byte could be written |
| ReportedLengths.ReportedLenIff | axvirtio-blk/src/mmio/device.rs:486-489 | For each kind of request and outcome, the exact condition on its buffers under which the reported length is the number of bytes written, the status byte included |
| ReportedLengths.RequestWrites | axvirtio-blk/src/block/request.rs:150-176 | The bytes in a request's writes are those of the writable buffers before the first inaccessible one, for a read the disk serves, and the status byte |
| ReportedLengths.ReportedLenIsOff | axvirtio-blk/src/mmio/device.rs:486-489 | The concrete failure: a 512-byte read writes 513 bytes and a 512-byte write one, and both report 512 |
| ChainEffects.ParseFrame | axvirtio-blk/src/mmio/device.rs:495-552 | Whether and where a chain parses depends on no memory but the table |
| RingContents.ElementStore | axvirtio-common/src/queue/used.rs:172-186 | Writing the next element overwrites no unreaped one and not the index |
| RingContents.IndexStore | axvirtio-common/src/queue/used.rs:195-207 | Writing the index changes no element |
| Rings.ElemRoundTrip | axvirtio-common/src/queue/used.rs:166-192 | A used element written to memory decodes to itself |
| Layout.UsedLayout | axvirtio-common/src/queue/used.rs:136-207 | An append puts head and length in the words at `4 + 8 * (idx mod size)` and the advanced counter in the word at 2; if the first access fails nothing changes, if only the second fails element and counter have moved and the index has not |
| Layout.UsedFrame | axvirtio-common/src/queue/used.rs:166-207 | An append changes no other byte |
| Layout.UsedUnset | axvirtio-common/src/queue/used.rs:166-170 | A ring without an address or without entries refuses to append and changes nothing |
| Layout.AvailableLayout | axvirtio-common/src/queue/available.rs:111-199 | The available index is the word at offset 2 and entry `i` the word at `4 + 2 * (i mod size)`, or the errors |
| Layout.FlagLayout | axvirtio-common/src/queue/used.rs:242-249 | Notifications are wanted exactly if bit 0 of the used ring's first byte is clear |
| Layout.HeaderOutcome | axvirtio-blk/src/mmio/device.rs:555-600 | A header is refused if its descriptor has flag bit 1 or less than 16 bytes, or cannot be read, each with its error; otherwise type, priority and sector are the words at offsets 0, 4 and 8 |
| Layout.HeaderLayout | axvirtio-blk/src/mmio/device.rs:555-600 | Request type, priority and sector are the words at offsets 0, 4 and 8 of the header's sixteen bytes |
| Layout.DiskLayout | axvirtio-blk/src/block/request.rs:136-236 | Sector `s` of the disk begins at byte `512 * s`: reads return the bytes from there and writes replace exactly those |
| Wire.ReadsAt | axvirtio-common/src/queue/descriptor.rs:170-180 | Words of 2, 4 and 8 bytes are read least significant byte first |
| Rings.AvailableRing.ReadAvailIdx | axvirtio-common/src/queue/available.rs:169-179 | The index field at offset 2, or the error of an unset ring or failed access |
| Rings.AvailableRing.ReadAvailRingEntry | axvirtio-common/src/queue/available.rs:187-199 | The entry in the slot reduced by the ring's own size |
| Rings.AvailableRing.WriteAvailRingEntry | axvirtio-common/src/queue/available.rs:202-216 | What is written is what the entry then reads; nothing else changes |
| Rings.AvailableRing.GetAvailableCount | axvirtio-common/src/queue/available.rs:219-222 | The wrapping distance from the last seen index |
| Rings.AvailableRing.UpdateLastAvailIdx | axvirtio-common/src/queue/available.rs:142-144 | Moves the cursor, and the unbounded count by the wrapping distance |
| Rings.UsedRing.AddUsed | axvirtio-common/src/queue/used.rs:166-192 | Element, counter, index, in that order; a failed element write changes nothing, a failed index write leaves the counter advanced |
| Rings.UsedRing.WriteUsedIdx | axvirtio-common/src/queue/used.rs:195-207 | Stores the counter in the index field or reports why not |
| Rings.UsedRing.ShouldNotify | axvirtio-common/src/queue/used.rs:242-249 | Bit 0 of the used ring's own flags is clear |
| Queues.VirtioQueue.constructor | axvirtio-common/src/queue/mod.rs:52-69 | A queue without addresses, not ready, whose maximal size is its first |
| Queues.VirtioQueue.Clone | axvirtio-blk/src/mmio/device.rs:357-371 | The copy has the same value and shares no ring object with the original |
| Queues.VirtioQueue.SetQueueSize | axvirtio-common/src/queue/mod.rs:72-78 | Only acceptable sizes change the queue; existing rings keep theirs |
| Queues.VirtioQueue.SetDescTableAddr | axvirtio-common/src/queue/mod.rs:81-90 | Write-once; a nonzero address brings a table of the present size |
| Queues.VirtioQueue.SetAvailRingAddr | axvirtio-common/src/queue/mod.rs:93-102 | Write-once; a nonzero address brings a ring of the present size with zero counters |
| Queues.VirtioQueue.SetUsedRingAddr | axvirtio-common/src/queue/mod.rs:105-114 | Write-once; a nonzero address brings a ring of the present size with zero counters |
| Queues.VirtioQueue.Reset | axvirtio-common/src/queue/mod.rs:130-140 | Back to a fresh queue, but of the same size |
| Queues.VirtioQueue.AddUsed | axvirtio-common/src/queue/mod.rs:152-167 | Refuses an invalid queue; otherwise appends through the ring and records its counter on success |
| Queues.VirtioQueue.UpdateLastAvailIdx | axvirtio-common/src/queue/mod.rs:210-216 | The ring's cursor, or the reduced fallback without a ring |
| Queues.VirtioQueue.GetLastAvailIdx | axvirtio-common/src/queue/mod.rs:219-225 | The ring's cursor, or the fallback without a ring |
| Queues.VirtioQueue.ValidateBlockChain | axvirtio-common/src/queue/mod.rs:228-239 | Whether the followed chain has the minimal length |
| Queues.VirtioQueue.WriteStatusByte | axvirtio-common/src/queue/mod.rs:276-293 | One byte at the address of a fresh walk's last descriptor |
| BlockDevice.VirtioMmioBlockDevice.constructor | axvirtio-blk/src/mmio/device.rs:84-120 | The power-on state: one queue of 256, all registers zero |
| BlockDevice.VirtioMmioBlockDevice.ParseBlockHeader | axvirtio-blk/src/mmio/device.rs:555-600 | The first descriptor of a walk as a header, with each of its failures |
| BlockDevice.VirtioMmioBlockDevice.ParseVirtioRequest | axvirtio-blk/src/mmio/device.rs:495-552 | Four walks of one chain agree: header, data buffers and status address are the first, middle and last elements of a single walk |
| BlockDevice.VirtioMmioBlockDevice.ExecuteBlockRequest | axvirtio-blk/src/mmio/device.rs:603-616 | Every outcome becomes a status byte; none is an error |
| BlockDevice.VirtioMmioBlockDevice.AddUsedBuffer | axvirtio-blk/src/mmio/device.rs:619-657 | Status byte first; if it fails nothing is published and no interrupt raised |
| BlockDevice.VirtioMmioBlockDevice.ProcessDescriptorChain | axvirtio-blk/src/mmio/device.rs:475-492 | Reading through the clone has the effect of reading the live queue; it fails exactly when the chain does not parse |
| BlockDevice.VirtioMmioBlockDevice.DrainAvailable | axvirtio-blk/src/mmio/device.rs:403-444 | The loop over the clone does to the live queue what draining it in place would |
| BlockDevice.VirtioMmioBlockDevice.ProcessQueueRequests | axvirtio-blk/src/mmio/device.rs:387-472 | The whole batch through the clone equals the batch in place |
| BlockDevice.VirtioMmioBlockDevice.CompleteBatch | axvirtio-blk/src/mmio/device.rs:446-471 | Advances the cursor, completes the deferred heads in order ignoring failures, then notifies |
| BlockDevice.VirtioMmioBlockDevice.HandleQueueNotify | axvirtio-blk/src/mmio/device.rs:350-384 | Serves the queue exactly under the stated conditions, and otherwise changes nothing |
| BlockDevice.VirtioMmioBlockDevice.TriggerInterrupt | axvirtio-blk/src/mmio/device.rs:660-669 | Sets bit 0 of the interrupt status and no other |
| Interrupts.InterruptSetsBit | axvirtio-blk/src/mmio/device.rs:660-669 | Raising the interrupt sets bit 0 of the status and keeps every other bit |
| BlockDevice.VirtioMmioBlockDevice.HandleStatusWrite | axvirtio-blk/src/mmio/device.rs:672-711 | Zero resets; FEATURES_OK is replaced by FAILED when an unoffered feature was accepted |
| BlockDevice.VirtioMmioBlockDevice.ResetDevice | axvirtio-blk/src/mmio/device.rs:714-727 | Clears every register but the status, and resets the queue |
| BlockDevice.VirtioMmioBlockDevice.MmioWrite | axvirtio-blk/src/mmio/device.rs:218-348 | Every write has the effect that RegisterMap tells offset by offset: a 32-bit write inside the device at a writable register acts with its low 32 bits; other widths below configuration space are dropped silently, everything else is refused |
| BlockDevice.OffsetReaches | axvirtio-common/src/mmio/transport.rs:65-87 | Checking range, width and offset one after the other accepts exactly the writes that name a writable register, and drops exactly the ones of a wrong width |
| RegisterMap.DeviceFeaturesSelAt014 | axvirtio-blk/src/mmio/device.rs:237-239 | A 32-bit write at 0x014 stores its low 32 bits as the device feature selector and changes nothing else |
| RegisterMap.DriverFeaturesAt020 | axvirtio-blk/src/mmio/device.rs:240-252 | A write at 0x020 replaces the low half of the driver's features under selector 0, the high half under 1, and nothing under any other |
| RegisterMap.DriverFeaturesSelAt024 | axvirtio-blk/src/mmio/device.rs:253-255 | A write at 0x024 stores the driver feature selector |
| RegisterMap.QueueSelAt030 | axvirtio-blk/src/mmio/device.rs:256-261 | A write at 0x030 selects the queue that its low 16 bits number, if there is one, and changes nothing else |
| RegisterMap.QueueNumAt038 | axvirtio-blk/src/mmio/device.rs:262-268 | A write at 0x038 makes its low 16 bits the queue size exactly if they are 1, 2, 4, ..., 128 or 256, whatever the size was |
| RegisterMap.QueueReadyAt044 | axvirtio-blk/src/mmio/device.rs:269-275 | A write at 0x044 makes the queue ready exactly if its low 32 bits are not zero |
| RegisterMap.QueueNotifyAt050 | axvirtio-blk/src/mmio/device.rs:276-279 | A write at 0x050 serves the queue exactly if its low 16 bits are 0, status bit 2 is set, the queue is ready and its three addresses are nonzero; otherwise nothing changes |
| RegisterMap.OtherDoorbellsAreSilent | axvirtio-blk/src/mmio/device.rs:276-279 | A doorbell for queue 256, or any queue but 0, rings nothing |
| RegisterMap.InterruptAckAt064 | axvirtio-blk/src/mmio/device.rs:280-283 | A write at 0x064 clears the interrupt exactly if it has bit 0 |
| RegisterMap.ZeroAt070 | axvirtio-blk/src/mmio/device.rs:714-727 | Zero at 0x070 clears every register and empties the queue, whose size stays |
| RegisterMap.StatusAt070 | axvirtio-blk/src/mmio/device.rs:672-711 | Any other value at 0x070 is stored, with 8 taken away and 128 added if it has bit 3 and some accepted feature is not among 1, 2, 6, 9, 29 and 32 |
| RegisterMap.DescAt080And084 | axvirtio-blk/src/mmio/device.rs:287-304 | While the table address is zero, a nonzero write at 0x080, or at 0x084 shifted by 32, becomes the address of a table of the present size; otherwise nothing changes |
| RegisterMap.AvailAt090And094 | axvirtio-blk/src/mmio/device.rs:305-322 | The same at 0x090 and 0x094 for the available ring, with zero counters |
| RegisterMap.UsedAt0A0And0A4 | axvirtio-blk/src/mmio/device.rs:323-340 | The same at 0x0a0 and 0x0a4 for the used ring |
| RegisterMap.OthersAreRefused | axvirtio-blk/src/mmio/device.rs:341-343 | A 32-bit write at any other offset, or past the end of the device, is refused and changes nothing |
| RegisterMap.WidthsAreChecked | axvirtio-common/src/mmio/transport.rs:65-87 | A write of another width changes nothing; it is dropped silently below offset 0x100 inside the device, and refused elsewhere |
| RegisterMap.BelowBaseIsRefused | axvirtio-common/src/mmio/transport.rs:34-42 | From an address below the base, where the range check saturates and the offset wraps, every write is refused unless the device sits in the last 256 bytes of the address space |
| RegisterMap.FeaturesAreOffered | axvirtio-blk/src/constants/block.rs:48-57 | The bits of the offered feature word are exactly 1, 2, 6, 9, 29 and 32 |
| RegisterMap.AccessesAreEvents | axvirtio-blk/src/mmio/device.rs:218-348 | Every run of raw MMIO writes, of any address and width, and guest stores is a run of register events, so every run theorem holds of it |
| RegisterMap.PowerOnState | axvirtio-blk/src/mmio/device.rs:84-120 | Power-on: one queue of 256 entries, unready and without addresses, and every register zero |
| WrappingCounters.SlotOfCounter | axvirtio-common/src/queue/used.rs:171-175 | Wrapping a counter at 65536 never changes the slot it names |
| WrappingCounters.SlotsDistinct | axvirtio-common/src/queue/used.rs:171-175 | Counters less than a ring apart name different slots |
| WrappingCounters.DistanceOfCounters | axvirtio-common/src/queue/available.rs:219-222 | The wrapping difference of two counters less than 65536 apart is their true difference |
| WrappingCounters.DoubleReduction | axvirtio-common/src/queue/available.rs:187-199 | Reducing by the queue's size and then the ring's is one reduction by the smaller |

## Left out

- Host address translation and the memory accessor's internals: a range either translates or fails, by a relation that
  does not change over time. axaddrspace is not part of this model.
- Address arithmetic past 2^64: addresses computed from a base are unbounded.
- Storage backends: the disk is one byte image that may refuse any access but never serves part of one; the byte counts a
  backend returns, which the program only logs, do not exist here.
- Locks, `Arc` and concurrency between MMIO accesses: one access at a time, so a queue and its clone never race.
- The accessor every object holds: here it is passed to the methods that use it.
- Delivery of interrupts to the guest: only the interrupt status register.
- Event index, indirect descriptors, `pop_avail`, `used_event` and `avail_event`: offered or declared, never used when a
  notification is processed.
- MMIO reads, configuration space and identification registers: short case splits.
- Panics on arithmetic overflow in debug builds: an address below the device's base wraps here, as in release builds.
- More than one queue: the program builds exactly one.
- `chain_length`, ring header writes, `set_notification`, `set_interrupt_suppression`, descriptor flag setters: unused by
  the device.
- Overflow of `next_used + 1` in the fallback of `add_used`: that path is dead (`FallbacksAreDead`).
- Notifications that overlap: the exactly-once results need each notification to finish before the next begins.
