# Models of the Raspberry Pi Windows BSP drivers

This project models the stateful cores of five drivers and proves what they keep over whole runs.

| module | what it models |
|---|---|
| `VchiqHandshake` | the Armed/Fired doorbell handshake between peers, interrupt, DPCs and a worker thread, one shared access per step |
| `VchiqStream`, `VchiqRing`, `VchiqChannel` | one direction of the VCHIQ slot transport: the writer with its slots and tokens, the shared slot queue, the receiver with reference counts and pending lists |
| `VchiqLayout` | the division of the VCHIQ allocation into slots and the fragment table, and the packing of message ids |
| `VchiqPending` | one service's pending data, VCHI and bulk lists, with the client's requests that drain them |
| `VchiqBulk`, `VchiqRequests` | the history of the bulk transfers of one direction; how often each await or dequeue request is completed |
| `VchiqService` | the transport and the lists of a service together, from the peer's writer to the client |
| `Bytes` | chains of buffers (memory descriptor lists), shared by the I2C and SPI models |
| `I2cTransfer` | an I2C transfer through dispatch routine, interrupts and completion accounting |
| `I2cCompletion` | who completes an I2C request: dispatch routine, DPC or cancel routine, interleaved freely |
| `I2cDevice` | both together: what each request is completed with |
| `PwmRing` | counting and unlinking of played audio packets, interleaved with the audio driver and the DMA |
| `PwmControlBlocks` | the construction of DMA control blocks and the link table |
| `GpioStorm` | interrupt-storm watchdogs, masks and shadow registers of one GPIO bank |
| `GpioBits`, `GpioPins` | packed bit-field arrays, and the function and pull configuration of the pins kept in them |
| `Runs` | runs of a state machine, shared by the three protocols modelled step by step |
| `Spi` | the polled full-duplex transfer over buffer chains, and requests of several transfers |

How the source's state appears here:

* Device contexts, request contexts and file contexts are classes whose methods update the fields the driver updates.
  Lists, slot memory and register banks are fields of sequence type; where the driver fills an array (`PwmControlBlocks`,
  `BitfieldArray`) so does the model. Fields marked `ghost` are histories that only the contracts mention.
* Protocols whose interleaving matters (`VchiqHandshake`, `I2cCompletion`, `PwmRing`) are state machines over steps, and
  their theorems are about every run. Memory is sequentially consistent.
* In `VchiqChannel` and `VchiqPending` every queue operation is one step, and so is dropping a reference together with
  the test and the recycling that follow it. A received message is two steps, entering its handler and leaving it
  behind; writer, recycle thread and clients may act between them. The firmware peer is taken to be the mirror image of
  the driver, so one class serves both directions. Stream positions and recycle indices are natural numbers; they do
  not wrap at 2^32. The position at which a message was parsed stands for the address of its list entry. Message ids
  sent have a type other than padding. An absent buffer is an empty payload. A wait for a slot takes a token if there
  is one and otherwise ends with the timeout or the stop event.
* Unpredictable hardware is an arbitrary value at every register read (I2C) or an arbitrary script of polls (SPI). Calls
  into the kernel appear as parameters that say whether they succeed.
* In `PwmRing` the DMA moves on along the links, and the audio driver links a packet only while the in-use count is below
  the ring size. The interrupt routine finds in the address register the first block of the packet that plays, as the
  link names it. Counting allows the DMA to get a whole ring ahead of the last interrupt; unlinking assumes that it stays
  less than a ring ahead of the count.

Results where the code falls short of what one would expect, each with its exact condition:

* A reservation stays inside one slot if and only if its aligned size is at most 4096 bytes; `VchiqAcquireTxSpace` does
  not test this (`VchiqStream.RequestInsideOneSlot`). The tokens go on paying for exactly the slots the stream enters if
  and only if that is so, or the larger reservation fails after padding what was left of a slot
  (`VchiqChannel.Channel.AcquireTxSpace`). Queueing a message requires it.
* The fragment table lies inside the allocation if and only if the allocation is slot-aligned, and then it occupies the
  very bytes of the last slave slot (`VchiqLayout`). That slot is never handed out
  (`VchiqChannel.Channel.LastSlotNeverHandedOut`).
* The DONE reported as number k of a direction has completed the k-th accepted bulk request if and only if no request
  accepted up to then is gone: cancelled while it waited, or completed by a DONE that could not be put into the data list
  (`VchiqPending.FileContext.BulkPairing`). `VchiqPending.CancelledBulkMispairs` is a run in which a client is given the
  user data of a cancelled request.
* An await or dequeue request that waits no longer has been completed exactly once if and only if serving the dequeue
  requests did not stop for want of room in its own IOCTL, and otherwise twice (`VchiqPending.FileContext.Run`). For a
  dequeue request that is the case when a message of the VCHI list is larger than the buffer of the request it comes to,
  its own being the last in the queue (`VchiqPending.FileContext.DequeueMessage`); for an await request it takes into
  account what the oldest await request is given (`VchiqPending.FileContext.AwaitCompletion`). In
  `VchiqPending.AwaitCompletedTwice` the await request itself is completed twice, in `VchiqPending.CompletedWhileItWaits`
  a dequeue request that waits behind a refused one.
* No await request waits in front of a message that fits its buffer, in any run in which none asked for zero messages and
  none was cancelled (`VchiqPending.FileContext.Run`). A request for zero messages breaks this if and only if it is the
  only one, its first message is the DONE of a bulk without a report and its second one fits
  (`VchiqPending.RequestAttended`); a cancellation if and only if the oldest request is cancelled and the message that did
  not fit it fits the next one (`VchiqPending.FileContext.CancelAwait`), which then waits for the next arrival or request:
  `VchiqPending.CancelledAwaitStarvesNext` is such a run.
* Without an error bit, a transfer reports success with its full length if and only if its state waits for DONE
  (`I2cTransfer.InterruptContext.ProcessRequestCompletion`). In whole runs that is so for every request that was started
  while no DPC was pending (`I2cDevice.Device.Run`). A DPC does not know which request it was queued for: one that is
  pending when a read is started can complete it at once, with success and without a byte
  (`I2cDevice.PendingDpcEndsRead`); `I2cDevice.StaleDpcEndsNextRead` is a run in which a cancelled read leaves one behind.
* A write-read sequence sends its whole chain, whatever lies behind the buffers, if and only if the chain is one buffer
  or its last buffer holds at least two bytes (`I2cTransfer.InterruptContext.WholeChainSent`); two buffers of one byte
  are a chain whose second byte is never sent (`I2cTransfer.SingleByteTailIsLost`).
* The address scan of the audio interrupt makes the right packet the last one completed if and only if the register value
  lies behind the first control block of the packet before the one that plays, and not behind that of the playing one;
  for packet 0, values behind all first blocks will do too (`PwmRing.ScanFindsPredecessor`). First blocks reached by
  their link always meet this. The address the DMA is started with carries the offset of the uncached alias and meets it
  if and only if the offset is zero or leads behind all first blocks; second blocks, whose addresses carry the offset
  too, meet it only for packet 0 and if they lie behind all first blocks (`PwmRing.ScanOfDriverAddresses`).
* The DMA finds a zero link behind the queued packets if and only if the ring is not full, or the packet a ring earlier is
  already unlinked (`PwmRing.WalkVisitsQueue`).
* Opening a GPIO interrupt keeps the storm bound if and only if the pin's watchdog has not run out
  (`GpioStorm.Bank.EnableInterrupt`); `GpioStorm.ReopenedBeforeDpc` is a run in which it has.
* Reverting a pin always brings back its initial function, and its default pull if and only if that function is not
  OUTPUT or the pull is the default one already (`GpioPins.RevertBringsBack`); `GpioPins.OutputPinKeepsPull` is a run
  that leaves a pull-up behind.

`dafny verify dfyconfig.toml` checks the whole project.

## Model

| member | source | states |
|---|---|---|
| VchiqHandshake.NoLostWakeUp | drivers/misc/vchiq/slots.c:2610-2642 | in every run of peers, interrupt, DPCs and worker, a worker asleep on an unset event with unread data has a wake-up under way: a peer mid-signal, a doorbell, or a DPC that has yet to look or will set the event |
| VchiqHandshake.WakeUpArrives | drivers/misc/vchiq/slots.c:311-327 | from such a state the signalling steps are bounded by a rank, and when none is left the worker's event is set; both comparison forms of the two workers |
| VchiqHandshake.BlockedIsNotExhausted | drivers/misc/vchiq/interrupt.c:155-187 | a worker asleep on unread data always leaves a signalling step enabled |
| VchiqHandshake.DpcStepKeepsInv | drivers/misc/vchiq/interrupt.c:169-177 | each read and write of any number of concurrent DPCs (test Armed, test Fired, clear Armed, set event) keeps the handshake invariant |
| VchiqHandshake.PeerStepKeepsInv | drivers/misc/vchiq/slots.c:319-324 | so does each step of a signalling peer (set Fired, test Armed, ring) |
| VchiqHandshake.WorkerStepKeepsInv | drivers/misc/vchiq/slots.c:799-818 | so does each step of the worker (test Fired, wait, test position, consume, clear Fired, arm) |
| VchiqHandshake.RunKeepsInv | drivers/misc/vchiq/slots.c:470-482 | the invariant holds after any run |
| VchiqHandshake.LateResetLosesWakeUp | drivers/misc/vchiq/slots.h:67-92 | the order "reset, then arm" matters: a worker that cleared Fired once, after arming, has a run that leaves it asleep on unread data with nobody to wake it |
| VchiqStream.HeaderRoundTrip | drivers/misc/vchiq/slots.c:913-935 | id and size written into a slot as little-endian words read back |
| VchiqStream.MessageIsWritten | drivers/misc/vchiq/slots.c:929-941 | after header and payload are stored the slot holds the message, and still every record that ends before it |
| VchiqStream.PaddingIsWritten | drivers/misc/vchiq/slots.c:377-388 | the same for a padding header |
| VchiqStream.RequestInsideOneSlot | drivers/misc/vchiq/slots.c:371-389 | a placed request does not cross a slot boundary if and only if its aligned size is at most a slot |
| VchiqRing.ClaimKeepsRing | drivers/misc/vchiq/slots.c:391-429 | an unclaimed queue entry can still be read from the circular queue, lies in range and differs from every slot in use; claiming it keeps the ring invariant |
| VchiqRing.RecycleKeepsRing | drivers/misc/vchiq/slots.c:2562-2566 | handing back a held slot at the next queue index overwrites no entry that is still needed |
| VchiqRing.HeldEntryReadable | drivers/misc/vchiq/slots.h:37-47 | the entry of a slot the receiver has not finished is still in the queue |
| VchiqChannel.Channel.constructor | drivers/misc/vchiq/slots.c:114-134 | the queue is filled with all slots but tokens and recycle index start one short; the invariant holds |
| VchiqChannel.Channel.AcquireTxSpace | drivers/misc/vchiq/slots.c:357-439 | for any request: the reserved position, the token taken and the status in every case, including a wait that fails after padding; exactly when tokens still pay for the slots entered; and for a request that fits a slot the invariant and the slot the reservation lies in |
| VchiqChannel.Channel.QueueMessageAsync | drivers/misc/vchiq/slots.c:900-966 | on success exactly this message is appended to what has been queued and everything is published; otherwise nothing is queued |
| VchiqChannel.Channel.ProcessRecycleTxSlot | drivers/misc/vchiq/slots.c:838-874 | every slot that has come back since becomes a token |
| VchiqChannel.Channel.RecycleSlot | drivers/misc/vchiq/slots.c:2534-2581 | the slot becomes the next queue entry exactly when it is neither in use nor referenced, and nothing changes otherwise |
| VchiqChannel.Channel.ReleaseMsg | drivers/misc/vchiq/slots.c:1663-1682 | one reference less, and the recycling that follows from it |
| VchiqChannel.Channel.BeginMessage | drivers/misc/vchiq/slots.c:470-487 | a message enters its handler: its slot is in use, it is shown as queued, and a pending entry holds a reference if it is kept |
| VchiqChannel.Channel.EndMessage | drivers/misc/vchiq/slots.c:799-814 | the position moves on, and behind its last message the slot is released |
| VchiqChannel.Channel.Serve | drivers/misc/vchiq/slots.c:1708-1746 | clients take entries or drop them, while a message is in its handler or not; each message taken is the one queued |
| VchiqChannel.Channel.ParseNext | drivers/misc/vchiq/slots.c:471-816 | the next message is shown as the writer queued it and tracked if its handler keeps it; clients may take entries, this one included, before the position moves on and the slot is released; what they take is what was queued |
| VchiqChannel.Channel.ProcessRxSlot | drivers/misc/vchiq/slots.c:457-819 | everything published is parsed, with clients acting inside every handler; when all is published, what has been received is what has been queued; exactly the kept messages are tracked, less those taken |
| VchiqChannel.Channel.AddPendingMsg | drivers/misc/vchiq/slots.c:1771-1823 | a new entry with the slot and place of the message, and a reference to its slot |
| VchiqChannel.Channel.RemovePendingMsg | drivers/misc/vchiq/slots.c:2042-2083 | the entry taken out yields byte for byte the message the writer queued, also when it moves to the VCHI list |
| VchiqChannel.Channel.RemovePendingVchiMsg | drivers/misc/vchiq/slots.c:2452-2500 | the same for a dequeued entry |
| VchiqChannel.Channel.Conservation | drivers/misc/vchiq/slots.c:847-869 | tokens + slots entered by the stream = recycle index; tokens never exceed their limit; slots held by the receiver + entries not yet claimed are all slots but one; every unclaimed entry is unoverwritten and names a slot nobody holds |
| VchiqChannel.Channel.LastSlotNeverHandedOut | drivers/misc/vchiq/slots.c:114-134 | the last slot of the range is never claimed, held, current or pointed to |
| VchiqChannel.Channel.RefCountIsEntries | drivers/misc/vchiq/slots.c:1630-1682 | each slot's reference count is the number of data plus VCHI entries that name it |
| VchiqChannel.Channel.HandedBackExactly | drivers/misc/vchiq/slots.c:2547-2578 | a slot has been handed back if and only if its end has been parsed and no pending entry refers to it; then all its messages have been parsed |
| VchiqChannel.Channel.PointerReadable | drivers/misc/vchiq/slots.c:1806-1813 | a pending entry points to its message, still stored in a slot that has not been handed back |
| VchiqChannel.Channel.ReceivedIsPrefix | drivers/misc/vchiq/slots.c:799-811 | what the handlers were shown is a prefix of what was queued, and all of it once everything is parsed |
| VchiqChannel.Channel.Run | drivers/misc/vchiq/slots.c:457-966 | any sequence of steps of writer, recycle thread, receiver and clients, the latter also between entering and leaving a handler, keeps the invariant; every message taken is the one queued |
| VchiqLayout.LastSlotIsFragmentTable | drivers/misc/vchiq/slots.c:77-100 | of all slots exactly the last slave slot of an aligned allocation shares bytes with the fragment table, and then all of them |
| VchiqLayout.FragmentTableInsideAllocation | drivers/misc/vchiq/slots.c:49-53 | the table stays inside the allocation if and only if that is slot-aligned |
| VchiqLayout.SlaveRangeFitsQueue | drivers/misc/vchiq/slots.c:138-145 | the slave's slots fit the 64-entry queue with at least one slot beside the last |
| VchiqLayout.MsgIdRoundTrip | drivers/misc/vchiq/vchiq_core.h:46-52 | type and ports read back from a packed id if and only if each fits its field |
| VchiqLayout.MsgIdFields | drivers/misc/vchiq/vchiq_core.h:46-52 | every id is the packing of its fields |
| VchiqPending.FileContext.DeliveryOrder | drivers/misc/vchiq/slots.c:1806-1813 | data messages returned, then those pending, are those that arrived; for a VCHI service those dequeued, then those in either list, are too, if no list allocation failed, and the number missing is the number of failures |
| VchiqPending.FileContext.TakeMessages | drivers/misc/vchiq/slots.c:1912-2083 | how many messages the copying loop takes, what it returns for them, and what is left in all three lists |
| VchiqPending.UndersizedTakesNothing | drivers/misc/vchiq/slots.c:1917-1936 | nothing is taken if and only if the first message does not fit the client's buffer |
| VchiqPending.ReturnedMessages | drivers/misc/vchiq/slots.c:1950-2044 | the data messages among the completions are exactly those taken, in order, each once |
| VchiqPending.TrackedAll | drivers/misc/vchiq/slots.c:2058-2077 | all data messages reach the VCHI list if and only if no allocation for one is refused |
| VchiqPending.FileContext.ProcessPendingMsg | drivers/misc/vchiq/slots.c:1496-1541 | how many messages the oldest waiting request takes and what it is given for them; it stays at the head of its queue when that is nothing, and otherwise which dequeue requests are served with which messages, and why serving stops; what happens to the pending bulks and to the reports of each direction |
| VchiqPending.FileContext.RemovePendingVchiMsg | drivers/misc/vchiq/slots.c:2389-2509 | head of the list or one of two errors, and an unchanged list on either error |
| VchiqPending.FileContext.ProcessPendingVchiMsg | drivers/misc/vchiq/slots.c:1560-1610 | which dequeue requests are served with which messages, and why serving stops |
| VchiqPending.FileContext.AwaitCompletion | drivers/misc/vchiq/ioctl.c:518-546 | a new await request joins its queue; what the oldest one takes and is given, which dequeue requests are then served, and which requests are completed; as a condition on the lists and queues before, whether that stops for want of room, so that the caller completes its own request once more; and exactly when no await request is left waiting in front of a message that fits its buffer |
| VchiqPending.FileContext.DequeueMessage | drivers/misc/vchiq/ioctl.c:562-600 | a dequeue request that does not wait is answered at once when there is nothing; otherwise which waiting requests are served and completed; and, as a condition on the list and the queue before, whether that stops for want of room, so that the caller completes its own request, wherever it is |
| VchiqPending.FileContext.Run | drivers/misc/vchiq/ioctl.c:518-600 | any sequence of arrivals, await, dequeue and bulk requests and cancellations keeps the invariant; afterwards each await or dequeue request has been completed at most once, and exactly once when it waits no longer, if its own IOCTL did not fail, and otherwise exactly twice; and if none asked for zero messages and none was cancelled, no await request waits in front of a message that fits its buffer |
| VchiqPending.FileContext.CompletedOnce | drivers/misc/vchiq/ioctl.c:530-600 | in every valid state how often a request has been completed, from whether it waits and whether its own IOCTL failed |
| VchiqPending.ProgressStops | drivers/misc/vchiq/slots.c:2096-2118 | serving fails in a round if and only if the oldest await request is given something and a message then comes to a buffer too small for it; both can be told from the lists and queues before |
| VchiqPending.TakesExactly | drivers/misc/vchiq/slots.c:1912-2085 | the copying loop stops at exactly one place, the first at which the list is empty, the message does not fit or enough is returned |
| VchiqPending.AwaitCompletedTwice | drivers/misc/vchiq/ioctl.c:530-543 | two dequeue requests wait with small buffers: an await request is completed with the message and once more by its IOCTL |
| VchiqPending.CompletedWhileItWaits | drivers/misc/vchiq/ioctl.c:586-596 | a dequeue request whose IOCTL refuses an older one is completed while it waits, and again with the message |
| VchiqPending.FileContext.MessageArrives | drivers/misc/vchiq/slots.c:563-772 | what the receive loop does with data and bulk completions: a DONE takes the oldest bulk request of its direction out of its queue; exactly when the message joins the data list; the round that then serves the oldest await request, with its completions, or that nothing at all changes; and no await request is left waiting in front of a message that fits its buffer if none was |
| VchiqPending.ArrivalAttended | drivers/misc/vchiq/slots.c:1708-1746 | one round of serving behind an arrival is enough: no await request is left in front of a message that fits its buffer |
| VchiqPending.RequestAttended | drivers/misc/vchiq/slots.c:1912-2096 | the same behind a new await request if and only if it is not a lone request for zero messages whose first message is a silent DONE and whose second fits too |
| VchiqPending.FileContext.CancelAwait | drivers/misc/vchiq/file.c:85-107 | the cancelled request leaves its queue and is completed once; exactly when no await request is then left in front of a message that fits |
| VchiqPending.CancelledAwaitStarvesNext | drivers/misc/vchiq/slots.c:1507-1535 | a run in which the cancellation of a request with a small buffer leaves the next one waiting in front of a message that fits |
| VchiqPending.CopyOf | drivers/misc/vchiq/slots.c:2042-2050 | what is copied for a message out of its slot: id and size, four bytes each, and the payload |
| VchiqPending.CopiesFit | drivers/misc/vchiq/slots.c:1926-1936 | header and payload of every message copied in a round are at most as long as the buffer of its request, and a first message that is longer is not taken |
| VchiqPending.FileContext.ProcessBulkTransfer | drivers/misc/vchiq/slots.c:1113-1229 | an accepted submission is at the tail of both queues; a failed one leaves both exactly as they were |
| VchiqPending.FileContext.BulkDoneArrives | drivers/misc/vchiq/slots.c:637-770 | a DONE completes the oldest request of its direction and joins the data list, or is dropped |
| VchiqPending.FileContext.CancelBulk | drivers/misc/vchiq/slots.c:1150-1157 | a cancelled request leaves its queue but not the pending bulk list |
| VchiqPending.FileContext.BulkPairing | drivers/misc/vchiq/slots.c:1959-2033 | the bulk completions a client has been given in a direction are those of the bulks reported, in order, less exactly those in blocking mode or without a callback; the k-th report carries the k-th submission's user data and mode, and its DONE has completed that very request if and only if nothing accepted up to then was cancelled or had its DONE dropped |
| VchiqBulk.PairedExactly | drivers/misc/vchiq/slots.c:2251-2285 | which accepted request the k-th DONE of one direction has completed, for any history of submissions, cancellations and DONEs |
| VchiqBulk.CancelKeepsLane | drivers/misc/vchiq/slots.c:1195-1222 | the history invariant behind the pairing survives the cancellation of any waiting request |
| VchiqBulk.CancelShifts | drivers/misc/vchiq/slots.c:1195-1222 | from a cancelled request's place on, every DONE completes a later request than the one it is reported for |
| VchiqPending.CancelledBulkMispairs | drivers/misc/vchiq/slots.c:1950-2033 | two bulks accepted, the first cancelled: the DONE completes the second request and the client is given the first one's user data |
| VchiqPending.ReturnedReports | drivers/misc/vchiq/slots.c:1950-2033 | the bulk completions returned for the DONEs of a direction are those of the pending bulks they speak for, in order, as far as these ask for a callback |
| VchiqBulk.DoneFindsBulk | drivers/misc/vchiq/slots.c:2263-2271 | a DONE waiting in the data list always finds a pending bulk, cancelled requests or not |
| VchiqService.Service.Receive | drivers/misc/vchiq/slots.c:470-819 | a message of the stream that is for the port joins its data list, tied to its slot, and the oldest await request is served with what that round gives, or it is lost because its entry cannot be allocated; exactly when nothing of the port changes; no await request is left in front of a message that fits |
| VchiqService.Service.Await | drivers/misc/vchiq/ioctl.c:518-546 | an await request, the round of serving that follows, and the copies made out of the slots for the messages taken and dequeued |
| VchiqService.Service.CopyOut | drivers/misc/vchiq/slots.c:1912-2085 | what the lists hold for the messages taken and dequeued is what is copied out of the slots for them, and their entries go or move on |
| VchiqService.Service.EndToEnd | drivers/misc/vchiq/slots.c:1806-1813 | the data messages returned to the client are those copied out of slots; with those still in the list they are the ones received for the port, in order, unless an allocation failed; these are a prefix of what the peer queued for the port, and all of it once everything is parsed |
| VchiqService.Service.Run | drivers/misc/vchiq/slots.c:457-966 | any interleaving of the peer's writer, the receive thread and the clients of all ports keeps the invariant; without a failed allocation the client has been given a prefix of what was queued for its port; if no await request asked for zero messages or was cancelled, none waits in front of a message that fits |
| I2cTransfer.InterruptContext.WholeChainSent | drivers/i2c/bcm2836/device.cpp:1099-1194 | once the read is programmed the FIFO has been given the whole chain if that is one buffer or its last buffer holds two bytes, and otherwise the byte behind the last buffer but one in place of the last byte |
| I2cTransfer.SingleByteTailIsLost | drivers/i2c/bcm2836/device.cpp:1068-1195 | a transfer of two buffers of one byte through any number of interrupts of any device: it has sent the first byte, and the byte behind the first buffer for the second |
| I2cTransfer.OneByteLeft | drivers/i2c/bcm2836/device.cpp:1104-1131 | when the test "one byte left" holds, and whether the position then still has that byte |
| I2cTransfer.InterruptContext.WriteFifo | drivers/i2c/bcm2836/device.cpp:256-279 | a prefix of the data is pushed, short only because the FIFO is full |
| I2cTransfer.InterruptContext.ReadFifoMdl | drivers/i2c/bcm2836/device.cpp:203-250 | received bytes fill the current buffer in order, short only because the FIFO is empty |
| I2cTransfer.InterruptContext.Send | drivers/i2c/bcm2836/device.cpp:998-1030 | the bytes pushed stay a prefix of the buffer; the state changes exactly when all are |
| I2cTransfer.InterruptContext.Receive | drivers/i2c/bcm2836/device.cpp:1031-1067 | the buffer holds the bytes received in order, and behind them what it held before |
| I2cTransfer.InterruptContext.SendSequence | drivers/i2c/bcm2836/device.cpp:1068-1195 | pushes a further prefix of the chain; stops early only because TXD, or with one byte left TXW, is clear; otherwise the read is programmed |
| I2cTransfer.InterruptContext.ReceiveSequence | drivers/i2c/bcm2836/device.cpp:1196-1244 | received bytes fill the read chain in order; the state changes exactly when the chain is full |
| I2cTransfer.InterruptContext.SequenceOrder | drivers/i2c/bcm2836/device.cpp:1133-1194 | before the read is programmed a proper prefix of the chain is out; afterwards it has been programmed once and all bytes are out, the last one right if and only if it was within reach or equals what lies behind |
| I2cTransfer.InterruptContext.OnRead | drivers/i2c/bcm2836/device.cpp:282-386 | status and state after starting a read, including the failure paths: the client's buffer is what is filled |
| I2cTransfer.InterruptContext.OnWrite | drivers/i2c/bcm2836/device.cpp:389-501 | the same for a write, with the initial fill of the FIFO by a prefix of the client's buffer |
| I2cTransfer.InterruptContext.OnSequence | drivers/i2c/bcm2836/device.cpp:639-826 | which of its five statuses starting a write followed by a read ends with, and the state it leaves: both chains, and the first byte sent; nothing changes when the request or its descriptors are refused |
| I2cTransfer.InterruptContext.StartSequenceWrite | drivers/i2c/bcm2836/device.cpp:507-632 | the first byte, and for a single byte the read programmed with it, once the transfer is active; the failures of that wait |
| I2cTransfer.InterruptContext.WaitForTransferActive | drivers/i2c/bcm2836/device.cpp:48-70 | success exactly when the status last read shows an active transfer, no device exactly when it shows an unacknowledged address, and a timeout otherwise |
| I2cTransfer.InterruptContext.HandleInterrupt | drivers/i2c/bcm2836/device.cpp:875-1304 | keeps the transfer invariant under any status; claims, captures and queues the DPC exactly as the status and state demand, the DPC only from an error-flagged or WAIT_FOR_DONE state; moves at most one state on, leaves a transfer state only with nothing left to move, and stays in it only because the device is not ready |
| I2cTransfer.InterruptContext.RecordError | drivers/i2c/bcm2836/device.cpp:935-985 | an error bit is captured once, and the DPC waits only for a second DONE |
| I2cTransfer.InterruptContext.ProcessRequestCompletion | drivers/i2c/bcm2836/device.cpp:1330-1495 | in every state the exact status: without a captured error, exactly when it is a success, and then the full length if and only if the state waits for DONE; with one, exactly when it is an internal error, a timeout, a missing device or a partial success, and the information of that; any failure reports zero |
| I2cTransfer.InterruptContext.SuccessMeansDone | drivers/i2c/bcm2836/device.cpp:1454-1488 | success without error in a state that waits for DONE means all bytes handed over and the receive memory holding exactly the bytes that came in; in any other state it is a read that is not done, reporting the bytes moved so far |
| I2cCompletion.ExactlyOnce | drivers/i2c/bcm2836/device.cpp:1498-1580 | over all runs each request is completed at most once, and once DPCs and cancel routines have returned exactly once unless it is still current and cancelable |
| I2cCompletion.DpcAfterCancel | drivers/i2c/bcm2836/device.cpp:1526-1558 | a DPC that finds its request cancelled or gone changes nothing |
| I2cCompletion.ResetHitsNoOther | drivers/i2c/bcm2836/device.cpp:847-872 | a hardware reset by DPC or cancel routine never hits another request |
| I2cCompletion.RequestStepKeepsInv | drivers/i2c/bcm2836/device.cpp:79-110 | starting, cancelling and the cancel routine keep "one owner per request" |
| I2cCompletion.DpcStepKeepsInv | drivers/i2c/bcm2836/device.cpp:1515-1579 | so does each part of any number of DPCs |
| I2cCompletion.StartFindsIdle | drivers/i2c/bcm2836/device.cpp:79-110 | a request is started only when no earlier one is current or owned by a DPC |
| I2cDevice.Device.Run | drivers/i2c/bcm2836/device.cpp:1498-1580 | any interleaving of reads, writes, sequences, cancellations, interrupts and DPCs: each request is completed at most once, with information at most its length, and if no DPC was pending when it was started, success without an error bit means its full length |
| I2cDevice.Device.Start | drivers/i2c/bcm2836/device.cpp:282-826 | a started transfer and its request become current together, and the context holds that very transfer: its kind, what it sends and the memory it fills; a refused or already cancelled one is completed on the spot |
| I2cDevice.Device.Interrupt | drivers/i2c/bcm2836/device.cpp:875-1304 | what an interrupt captures and when it queues the DPC, in the device as a whole |
| I2cDevice.Device.DpcStep | drivers/i2c/bcm2836/device.cpp:1515-1579 | what a DPC completes its request with, and that it resets the hardware only then |
| I2cDevice.PendingDpcEndsRead | drivers/i2c/bcm2836/device.cpp:1409-1437 | whatever happened before, a DPC pending at the start of a read completes it at once with success and no byte |
| I2cDevice.StaleDpcEndsNextRead | drivers/i2c/bcm2836/device.cpp:834-872 | a run that gets there: an interrupted read is cancelled before its DPC runs, and the next read is completed short |
| PwmRing.ModularCountIsExact | drivers/pwm/bcm2836/dmaInterrupt.cpp:90-117 | the modular difference is the true number of packets for 1 to N packets, across wrap-around and on the first call |
| PwmRing.FindCurrentPacket | drivers/pwm/bcm2836/dmaInterrupt.cpp:331-348 | the scan stops at the first packet whose first control block is not below the address |
| PwmRing.ScanFindsPredecessor | drivers/pwm/bcm2836/dmaInterrupt.cpp:331-348 | for any register value, the exact window in which the scan makes a packet's predecessor the last one completed |
| PwmRing.ScanOfDriverAddresses | drivers/pwm/bcm2836/dma.cpp:147-418 | which of the addresses the driver gives to the DMA lie in that window: block addresses with and without the offset of the uncached alias |
| PwmRing.InterruptCounts | drivers/pwm/bcm2836/dmaInterrupt.cpp:331-366 | an interrupt counts exactly the packets played since the last one looked, and starts unlinking at the last of them |
| PwmRing.CountersAreExact | drivers/pwm/bcm2836/dmaInterrupt.cpp:331-383 | over runs of any length, with interrupts from one packet to a whole ring apart, the packets processed are between interrupts the number of the packet that played when the routine last looked, modulo 2^32, and during one they will be when its own count is added |
| PwmRing.WalkVisitsQueue | drivers/pwm/bcm2836/dmaInterrupt.cpp:369-381 | from wherever the DMA is, the links lead through exactly the queued packets in ring order; exactly when the next link is zero |
| PwmRing.InterruptClearsCounted | drivers/pwm/bcm2836/dmaInterrupt.cpp:376-381 | between interrupts exactly the links into queued packets are set that had not been completed when the routine last looked, each to the address of its packet's first block |
| PwmRing.DmaFollowsQueue | drivers/pwm/bcm2836/dmaInterrupt.h:13-14 | while the DMA is less than a ring ahead of the count, the link behind the packet it plays is set if and only if another packet is queued |
| PwmRing.UnlinkSafety | drivers/pwm/bcm2836/dmaInterrupt.cpp:366-383 | in whole runs the in-use count is that of packets linked and not counted, and the DMA, which follows the links, plays queued packets only and stops before none |
| PwmRing.UnlinkKeeps | drivers/pwm/bcm2836/dmaInterrupt.cpp:376-381 | each cleared link is that of the next packet counted, whatever the audio driver does in between |
| PwmRing.LowerKeeps | drivers/pwm/bcm2836/dmaInterrupt.cpp:382-383 | lowering the count after all links are cleared keeps the ring invariant |
| PwmRing.LinkKeeps | drivers/audio/bcm2836/EndpointsCommon/minwavertstream.cpp:936-952 | a packet linked while in-use was below N overwrites no link that is needed |
| PwmRing.LoweringFirstLosesPacket | drivers/pwm/bcm2836/dmaInterrupt.cpp:366-383 | with the count lowered first there is a run at whose end a packet is linked, counted as in use and within reach, but the link to it is zero and the DMA cannot move on |
| PwmControlBlocks.DeviceContext.InitializeAudio | drivers/pwm/bcm2836/dma.cpp:271-456 | each error exit, and on success, read off the arrays: entered at its link value each packet is two control blocks; following their successors the DMA visits these two and stops; it reads exactly the packet's bytes, less the dropped sample, and interrupts in the second block only; and the link table chains the packets cyclically; for any packet size but zero |
| PwmControlBlocks.BlocksPlay | drivers/pwm/bcm2836/dma.cpp:375-437 | the two blocks of a packet, followed from its link value, play that packet and nothing else |
| PwmControlBlocks.ControlPageFits | drivers/pwm/bcm2836/dma.cpp:57-81 | blocks and link table fit the page, and which packet sizes are accepted |
| PwmControlBlocks.BlocksInOrder | drivers/pwm/bcm2836/dma.cpp:393-437 | blocks are ordered, disjoint and inside the DMA buffer |
| PwmControlBlocks.BlocksTile | drivers/pwm/bcm2836/dma.cpp:364-437 | every byte of the packets belongs to exactly one block, but for the eight bytes of the dropped sample, which no block plays |
| PwmControlBlocks.DropIndexInRange | drivers/pwm/bcm2836/dma.cpp:364-373 | a sample is dropped if and only if 5320 samples hold at least one packet, and then in one of the packets |
| PwmControlBlocks.DeviceContext.FindCompletedPacket | drivers/pwm/bcm2836/dmaInterrupt.cpp:148-173 | after an underflow the source address scan over the control blocks finds the packet behind which the DMA stopped, also the last one |
| GpioStorm.Bank.PreProcessControllerInterrupt | drivers/gpio/bcm2836/BcmGpio.cpp:112-152 | new watchdog counts, exactly which pins are disabled, and the invariants |
| GpioStorm.Bank.EvtDpcFunc | drivers/gpio/bcm2836/BcmGpio.cpp:155-192 | disabled pins wait for the timer and all watchdogs are right again, in whatever state they were |
| GpioStorm.Bank.EvtReenableInterruptTimerFunc | drivers/gpio/bcm2836/BcmGpio.cpp:640-670 | waiting pins are enabled with their events cleared |
| GpioStorm.Bank.MaskInterrupts | drivers/gpio/bcm2836/BcmGpio.cpp:195-209 | no register detects a masked pin and none has an event left; other pins are detected as before |
| GpioStorm.Bank.ClearActiveInterrupts | drivers/gpio/bcm2836/BcmGpio.cpp:249-261 | the events of the given pins are cleared, and neither masks nor watchdogs change |
| GpioStorm.Bank.UnmaskInterrupt | drivers/gpio/bcm2836/BcmGpio.cpp:212-232 | the pin is added to the one register for its mode and polarity, and its event is cleared |
| GpioStorm.Bank.EnableInterrupt | drivers/gpio/bcm2836/BcmGpio.cpp:502-521 | the pin is added to the one register for its mode and polarity, and the hardware detects the enabled pins of each; the watchdogs stay right if and only if the pin's own has not run out, so in particular when no DPC is due |
| GpioStorm.Bank.DisableInterrupt | drivers/gpio/bcm2836/BcmGpio.cpp:540-553 | the pin leaves every mask and register and the hardware, and other pins stay in theirs |
| GpioStorm.Bank.HardwareFollows | drivers/gpio/bcm2836/BcmGpio.cpp:395-412 | in every state each of the four hardware registers holds exactly the enabled pins of its shadow |
| GpioStorm.Bank.StormBound | drivers/gpio/bcm2836/BcmGpio.hpp:84-89 | at most ten interrupt runs see a pin between two DPC runs, and the tenth disables it |
| GpioStorm.Bank.Run | drivers/gpio/bcm2836/BcmGpio.cpp:112-192 | any interleaving of events, interrupts, DPCs, timers and calls: unless a pin has been opened with its watchdog run out since the DPC last ran, at most ten interrupt runs have seen a pin since then, and one seen ten times is disabled; open pins are detected or on their way back |
| GpioStorm.Bank.OpenPinsComeBack | drivers/gpio/bcm2836/BcmGpio.cpp:164-191 | an open pin is detected as configured or has a DPC or timer on its way |
| GpioStorm.ReopenedBeforeDpc | drivers/gpio/bcm2836/BcmGpio.cpp:134-136 | a run that closes and reopens a pin before the DPC: an eleventh interrupt sees it and its count wraps to 255 |
| GpioBits.GetAfterSet | drivers/gpio/bcm2836/BcmUtility.hpp:100-114 | for every width and length, an element reads back what was stored and no other element changes |
| GpioBits.BitfieldArray.Set | drivers/gpio/bcm2836/BcmUtility.hpp:106-114 | the same for the update in place, bit by bit: element i takes the bits from i % (32 / w) * w on of word i / (32 / w), for a width of w, and no other bit of the storage changes |
| GpioBits.ElementBits | drivers/gpio/bcm2836/BcmUtility.hpp:80-114 | where an element lies in its word, for storing and reading alike, for every width |
| GpioPins.Controller.SetDriveMode | drivers/gpio/bcm2836/BcmGpio.cpp:414-455 | function and pull of this pin only, in the shadow and in the hardware: bits p % 10 * 3 to p % 10 * 3 + 2 of function register p / 10, no other bit of them, and the pull of the pin by its number, for each pull asked for |
| GpioPins.CodeValues | drivers/gpio/bcm2836/BcmGpio.hpp:31-46 | the numbers the function and pull codes stand for, bit by bit |
| GpioPins.Controller.UpdatePullMode | drivers/gpio/bcm2836/BcmGpio.cpp:987-1009 | shadow and pin agree on the pull, also when the update is skipped |
| GpioPins.Controller.RevertPinToDefault | drivers/gpio/bcm2836/BcmGpio.cpp:458-469 | the initial function, the default pull unless that function is OUTPUT, when the pull stays, and no other pin |
| GpioPins.RevertBringsBack | drivers/gpio/bcm2836/BcmGpio.cpp:425-469 | a reverted pin has its default pull if and only if its initial function is not OUTPUT or the pull was the default one before |
| GpioPins.OutputPinKeepsPull | drivers/gpio/bcm2836/BcmGpio.cpp:676-743 | a pin with initial function OUTPUT, connected as input with pull-up and disconnected, keeps the pull-up |
| GpioPins.Controller.ConnectIoPins | drivers/gpio/bcm2836/BcmGpio.cpp:676-712 | the pins listed are driven as asked, no other pin changes, closed pins stay restored |
| GpioPins.Controller.DisconnectIoPins | drivers/gpio/bcm2836/BcmGpio.cpp:715-743 | the pins listed are reverted, except those that serve an interrupt or are to be preserved, and no other pin changes; exactly which pins count as preserved from then on |
| GpioPins.Controller.EnableInterrupt | drivers/gpio/bcm2836/BcmGpio.cpp:487-502 | an input with the pull asked for, unless connected for I/O, when nothing changes; no other pin changes |
| GpioPins.Controller.DisableInterrupt | drivers/gpio/bcm2836/BcmGpio.cpp:555-560 | reverted, function and pull, unless connected for I/O, when nothing changes; no other pin changes |
| GpioPins.Controller.ConnectFunctionConfigPins | drivers/gpio/bcm2836/BcmGpio.cpp:566-617 | alternate functions 2 to 7 only, with both error exits; the pins listed are driven as asked and no other changes |
| GpioPins.Controller.DisconnectFunctionConfigPins | drivers/gpio/bcm2836/BcmGpio.cpp:620-637 | all pins listed are reverted and no other changes |
| GpioPins.Controller.ClosedPinRestored | drivers/gpio/bcm2836/BcmGpio.cpp:606-634 | in every run without preserved configurations a closed pin has its initial function, and its default pull if that is not OUTPUT |
| Spi.MdlGetByte | drivers/spi/bcm2836/device.h:141-186 | the byte at an index of the concatenated chain, or an error |
| Spi.MdlSetByte | drivers/spi/bcm2836/device.h:218-263 | that byte of the concatenation is replaced and nothing else |
| Spi.Request.DoOneTransferPollMode | drivers/spi/bcm2836/controller.cpp:165-342 | for any polls: bytes out are the write chain in order and then zeros; bytes in are those the FIFO gave, poll by poll, which fill the read chain in order, the rest being dropped; information is the client bytes moved, on success, when everything is, and on cancellation; chains that are too short |
| Spi.Request.CompleteTransfer | drivers/spi/bcm2836/controller.cpp:400-415 | when a request is completed, and its running total |
| Spi.Request.OnRequestPollMode | drivers/spi/bcm2836/device.cpp:1703-1716 | each transfer of a request in turn: its direction, what it sends and what it stores of the bytes that came in; the request reports the sum of their bytes, in full for each that succeeds |
| Spi.Request.OnFullDuplexPollMode | drivers/spi/bcm2836/device.cpp:1695-1701 | on success everything written and read at once, with the bytes the FIFO gave, and reported in full; on cancellation the bytes moved so far; completed unless it still polls |

## Left out

- VchiqQueueMultiElementAsync: its payload copy steps a header pointer by element sizes, so that its payload is not the concatenation of the elements.
- The slot transport at positions beyond 2^32: the receive loop compares positions with `<`, which the model's natural numbers do not wrap.
- Finer interleavings of whole queue operations: the position is published after the transmit mutex is released, and the reference count is decremented, tested and recycled in separate accesses.
- The worker threads of VCHIQ going idle: Fired is cleared only inside the message loop.
- The sync threads of VCHIQ: unsupported in the driver.
- Opening, closing and connecting VCHIQ services, and the emptying of the lists when a file is closed.
- VchiqPending.FileContext.BulkDoneArrives: up to the data list; taking messages from it is ProcessPendingMsg, and both are MessageArrives. The status and length with which the bulk request itself is completed are not modelled.
- VchiqPending.FileContext.Run: counts the driver's and the framework's completions of await and dequeue requests; a buffer of a request that cannot be retrieved, and a request that cannot be put into its queue, are not modelled.
- VchiqService.Service.Run: one port's lists in full; other ports are entries that their clients take.
- Page lists, scatter/gather lists, DMA adapters and memory mapping: kernel calls that succeed or fail.
- VchiqChannel.Channel.AcquireTxSpace: the padding header of a request larger than a slot, before any slot has been claimed, goes to a null pointer in the driver.
- VchiqChannel.Channel.QueueMessageAsync: requires the aligned size to be at most a slot, since a larger message would be written over whatever lies behind the slot and the model's slots are separate; and an event or semaphore wait that outlasts a later release of a slot is not modelled, the wait is one step.
- I2cCompletion.ExactlyOnce: the one-byte sequence path whose request cannot be marked cancelable after interrupts are enabled is not modelled; a start is one step.
- I2cTransfer.InterruptContext.HandleInterrupt: register writes to Control and Status are modelled only where they program the read.
- The clock divider, slave address and clock-stretch settings of an I2C transfer.
- Clearing the counters and restarting after an underflow, and pausing audio: a restart unlinks everything and starts the ring anew.
- PwmRing.WalkVisitsQueue: assumes, as PwmRing.UnlinkSafety does, that the DMA stays less than a ring ahead of the count; a full ring's links close into a cycle, in which it would play packets again.
- PwmRing.CountersAreExact: the register shows a first block reached by its link; the other addresses are those of PwmRing.ScanOfDriverAddresses.
- PwmControlBlocks.DeviceContext.InitializeAudio: a packet size of zero, at which the source divides by zero; and of a control block the fields that are the same in all (the FIFO address, the stride, and the bits of the transfer information other than the interrupt enable).
- The priming counters, notification events and timestamps of the audio interrupt and its DPC.
- The silence packets with which the audio driver fills the ring before a late first packet.
- GpioStorm.Bank.EnableInterrupt: setting the open mask and the drive mode before the lock is taken is one step with the rest.
- GPIO pin reads and writes, and the empty reconfigure callback.
- In-place memory of buffer chains in the I2C and SPI models: chains are sequences held by the request, so aliasing between buffers is not captured.
- SPI chip select, clock configuration, delays between transfers and FIFO flushing.
- Request dispatch, power and plug-and-play callbacks, registry and COM plumbing of all drivers.
