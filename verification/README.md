# Verified model of the streaming server's cores

The server delivers RTP streams from an event loop (a bundled libev), a pool of packet slots shared
by one producer and many consumers, and a set of media readers. This project models the parts of it
whose correctness depends on long-lived state, and proves what they are for:

- **libev's cross-thread wakeup** (`Wakeup.dfy`). Senders and the loop are state machines whose every
  access to a shared variable is one atomic step; any number of senders, any interleaving,
  sequentially consistent. Results: no lost wakeup and no needless one, nothing delivered that was
  not sent, and once the senders are quiet everything is delivered and the loop is asleep again
  within a bounded number of its steps.
- **libev's timers** (`Heap.dfy`, `Timers.dfy`): the 4-ary heap with back-indices and cached keys,
  `ev_timer_start`, `ev_timer_stop`, `ev_timer_again`, `timers_reify`, and the two reschedules.
- **libev's pending queues** (`Pending.dfy`), with callbacks that feed and clear events while the
  queues are being emptied. `Ev.dfy` is the watcher structure that both share.
- **libev's fd reconciliation** with the swap-removal index of the poll backend (`Fds.dfy`).
- **The bufferpool.** `PoolModel.dfy` is a transition system over the pool's own fields and the log
  the pool stands for; `PoolProofs.dfy`, `PoolReserve.dfy`, `PoolSteps.dfy`, `PoolOrder.dfy` and
  `PoolRuns.dfy` hold what every run keeps, `PoolThreads.dfy` what another thread may do between the
  calls of one operation, `PoolSkip.dfy` the runs in which the pool is not a log;
  `BufferPool.dfy` is the pool as a class whose methods are proved to perform exactly those
  transitions.
- **The H.264 packetiser.** `H264.dfy` defines the splitter, the packetiser and, as the
  specification, the receiver of RFC 6184; `H264Proofs.dfy` and `H264Stream.dfy` prove
  fragmentation and the end-to-end round trip; `H264Reader.dfy` is the byte-by-byte reader with
  its buffer and file position, proved to compute those functions.
- **MD5 streaming** (`Md5.dfy`), **the MPEG-4 bit reader** (`BitField.dfy`) and **the pool of
  RTP/RTCP ports** (`PortPool.dfy`). `Words.dfy` holds the byte and word types of the first two.

`dafny verify dfyconfig.toml` checks everything.

## What the code does not promise

The model follows the code. Where a natural property is false of it, the exact condition is proved:

- Reserving a slot can make a consumer blind until the next commit. `OMSbuff_getslot` may add a page
  after the write position; if a consumer last read from the slot at the write position and that slot
  has been rewritten since, the never-written first slot of the page now comes next for it. Although
  packets wait, its next read fails or hands out that empty slot (`PoolReserve.BlindReadsNothing`).
  `PoolReserve.ReserveBlindsIff` says exactly when that happens, `PoolSteps.ReadWorksIff` that the reads
  of exactly the blind consumers go wrong, `PoolReserve.ProduceSights` that the next commit ends it,
  and `PoolSkip.EmptySlotRun` reaches it in a pool of any size with a single consumer. It matters
  because `get_frame` (mediainfo/get_frame.c:16-37) reserves before it knows whether there is anything
  to commit. The runs of the model are all sequences of calls in which no blind consumer reads or
  leaves (`PoolSteps.Safe`); those in which consumers wait for the commit are among them
  (`PoolSteps.PatientIsSafe`).
- A bufferpool consumer that shares the pool does not always read in order. `PoolSkip.SkippingRun` is,
  for every initial size n >= 2, a run with two consumers in which one of them is given packet n + 10
  right after packet n. `PoolOrder.ReadIsNextIff` says exactly when a read yields the
  next packet, `PoolOrder.WriteKeepsOrder` and `PoolOrder.ReserveKeepsOrder` exactly which calls put a
  consumer out of step (those that add a page while a consumer has read everything), and
  `PoolRuns.ReadsAreTheLog` that runs without such calls are in order; runs with one consumer at a
  time and runs without growth are among them.
- In a bufferpool of one slot a packet is given out again if and only if another consumer still has to
  read it (`PoolSkip.OneSlotRepeatsIff`, with the failing run in `PoolSkip.OneSlotRepeats`).
- `MD5Update` computes `i + 63` in 32 bits. The block loop is right if and only if the buffered bytes
  and the input are together fewer than 2^32 (`Md5.ScanOkIff`, with the failing input of
  `Md5.LongInputFails`).
- `get_field` returns a signed `int`: the field's value exactly when it is below 2^31
  (`BitField.FieldExact`).
- The packetiser loses the forbidden bit of every NAL unit (a 1-bit field is assigned 0x80), so a unit
  comes back unchanged if and only if that bit is 0 (`H264Stream.AsSentExact`); a unit of one byte
  ends the stream (`H264Stream.HeaderOnlyEnds`); the last unit of the file gains a byte 0xFF
  (`H264Stream.WholeFile`); a unit of type 0 or of types 24 to 31 that is not fragmented cannot be
  told by a receiver (`H264Proofs.ReceivePackets`); a unit that does not fit into the frame buffer
  with the start codes around it overruns that buffer (`H264Stream.ParseUnit`).
- `RTP_release_port_pair` accepts any pair while something is leased. The pool stays conserved if and
  only if the pool entry that the pair stands for is leased (`PortPool.ReleaseBreaksIff`; releasing a
  pair twice breaks it, `PortPool.DoubleReleaseInput`). A pair one port above a leased one stands for
  the same entry (`PortPool.EntryOfIff`), so its release ends a lease that its holder still uses.

## Assumptions

- `ev_tstamp` is a real number. Event masks are sets of bit positions, `|=` is union.
- `HPARENT` of the root is the root, because C division truncates.
- Timers do not have negative repeat values (asserted in the source).
- The bufferpool starts with at least two slots and its `seq` argument is 0, as its callers pass it.
- Each call on the pool is one step, as it holds the pool's lock, except the drain loop of
  `OMSbuff_unref`. Producing, reading and leaving happen in one thread, the scheduler's
  (schedule/schedule_do.c:55 and 81); consumers join from another one (schedule/schedule_start.c:24),
  at any time: between reserving and committing (`PoolThreads.CommitsReserved`), between looking at a
  slot and consuming it (`PoolThreads.JoinKeepsSelect`), and during the drain loop
  (`PoolThreads.JoinsDuringLeave`).
- `sharding_packet`, which is not initialised in the source, starts at 0.
- `UINT4` is the 32-bit word its comment says it is.
- Ports are positive.

## Model

| member | source | states |
|---|---|---|
| Wakeup.StepKeepsInv | libev-4.20/ev.c:2293-2406 | every atomic step of a sender or of the loop keeps: owed targets are marked or being fed, marked targets have a raised summary flag or a sender or scan about to see them, and a raised flag has a wakeup under way (pipe, skip flag or a sender inside `evpipe_write`) |
| Wakeup.ReachableInv | libev-4.20/ev.c:2293-2406 | that invariant after every interleaving of any number of senders with the loop |
| Wakeup.BlockedOwesNothing | libev-4.20/ev.c:3469-3531 | a loop blocked in poll with an empty pipe and no sender inside a send owes nothing, and all marks, flags and the skip flag are down |
| Wakeup.NoLostWakeup | libev-4.20/ev.c:2293-2339 | the same for every run: no async or signal has an undelivered send while the loop sleeps |
| Wakeup.QuietDelivers | libev-4.20/ev.c:2343-2406 | from any state of the invariant, a loop left alone delivers everything owed; it leaves a blocking poll only because of the pipe |
| Wakeup.EveryRunDelivers | libev-4.20/ev.c:2410-2424 | every send of every run is delivered within two laps of the loop once the senders are quiet |
| Wakeup.LoopSleeps | libev-4.20/ev.c:2343-2406 | from any state of the invariant, a loop left alone reads the pipe empty and blocks in its poll with everything delivered and nothing marked, within three laps and one for each read of the pipe |
| Wakeup.EveryRunSleeps | libev-4.20/ev.c:3469-3531 | the same after every run that leaves the senders quiet |
| Wakeup.NextRound | libev-4.20/ev.c:2350-2368 | between two polls an interrupted loop reads the pipe exactly once, an eventfd at once and a pipe four bytes at a time |
| Wakeup.CallbackIffWoken | libev-4.20/ev.c:3521-3531 | after a poll the pipe callback runs if and only if the pipe is readable or a wakeup was skipped |
| Wakeup.FedOnlyIfSent | libev-4.20/ev.c:2376-2404 | in every run a target's events are fed at most as often as it was sent to |
| Wakeup.NoNeedlessWakeup | libev-4.20/ev.c:2293-2339 | in every run a sender leaves at once if and only if the flag is up already, and without writing if and only if the loop is not around its poll; a write makes at most one byte |
| Wakeup.WantedAroundPoll | libev-4.20/ev.c:3469-3525 | in every run the loop asks for wakeups exactly from before it decides to block until after its poll |
| Wakeup.BlocksOnlyIfAllowed | libev-4.20/ev.c:3474 | the loop never blocks in a run in which there is always another reason not to |
| Heap.UpOrders | libev-4.20/ev.c:2186-2206 | sifting up a key that is too small for its place restores heap order |
| Heap.DownOrders | libev-4.20/ev.c:2106-2148 | sifting down a key that is too large restores heap order |
| Heap.UpDisplaces | libev-4.20/ev.c:2186-2206 | only elements with a later key make way for a key on its way to the root |
| Heap.DownDisplaces | libev-4.20/ev.c:2106-2148 | only elements with an earlier key make way for a key on its way down |
| Heap.MinChildIsMin | libev-4.20/ev.c:2120-2139 | the child chosen is the leftmost of the smallest of the up to four children; none is chosen only if there is none |
| Heap.FastMinChild | libev-4.20/ev.c:2121-2127 | the unrolled path chooses the child of the specification |
| Heap.SlowMinChild | libev-4.20/ev.c:2128-2134 | the guarded path chooses the same child |
| Heap.RootIsMin | libev-4.20/ev.c:2969-2982 | in a heap the root is no later than any element |
| Heap.Upheap | libev-4.20/ev.c:2186-2206 | moving the hole in place computes the sift and leaves every `active` field equal to its array index |
| Heap.Downheap | libev-4.20/ev.c:2106-2148 | likewise away from the root |
| Heap.AdjustOrders | libev-4.20/ev.c:2208-2216 | replacing any one element of a heap and adjusting there gives a heap |
| Heap.AdjustContents | libev-4.20/ev.c:2208-2216 | adjusting keeps the multiset of elements |
| Heap.Adjustheap | libev-4.20/ev.c:2208-2216 | the array operation does that, with back-indices |
| Heap.Reheap | libev-4.20/ev.c:2218-2228 | after arbitrary key changes: heap order, back-indices, the same multiset of elements |
| Timers.Loop.TimerStart | libev-4.20/ev.c:3740-3762 | heap order, back-indices, cached keys and "the array holds exactly the active timers" are kept; exactly this timer is added, its key made absolute; a running one is left alone |
| Timers.Loop.TimerStop | libev-4.20/ev.c:3764-3792 | the same is kept; exactly this timer is removed with its pending event, its key made relative again |
| Timers.Loop.TimerAgain | libev-4.20/ev.c:3794-3819 | a repeating timer runs until now + repeat afterwards, another one is stopped and its key made relative; pending events are cleared |
| Timers.FireStep | libev-4.20/ev.c:3192-3216 | firing the earliest expired timer extends the fired sequence in expiry order, never fires a timer twice, and changes no other key; a repeating one gets the later of key + repeat and now |
| Timers.FiredBounded | libev-4.20/ev.c:3192-3216 | the measure that ends the loop: no more timers fire than were running |
| Timers.Loop.FireExpired | libev-4.20/ev.c:3192-3216 | exactly the timers expired on entry fire, once each and in order; a repeating one goes on with key at + repeat or now, whichever is later, others are stopped with a relative key; no other key or timer changes |
| Timers.Loop.TimersReify | libev-4.20/ev.c:3186-3222 | in addition the ones that are stopped lose what they were owed, all of them get EV_TIMER, and no other watcher's pending events change; if none was pending they are delivered first in their priority, in expiry order |
| Timers.FedInExpiryOrder | libev-4.20/ev.c:1871-1884 | feeding in reverse into a queue emptied from its end delivers in the original order |
| Timers.DeliveredByPriority | libev-4.20/ev.c:3141-3159 | what then runs is, by priority from the highest: the expired timers in expiry order, then what was queued before |
| Timers.Loop.RunExpired | libev-4.20/ev.c:3186-3222 | `timers_reify` and `ev_invoke_pending` together, whatever was pending and whatever the callbacks feed and clear: exactly the expired timers fire; the calls account for everything that is then owed, so that each fired timer is called with EV_TIMER unless a callback clears it; no call finds a watcher of higher priority pending, and nothing is left pending; if no expired timer was pending and the callbacks leave the queues alone, the calls are exactly the expired timers in expiry order and then those pending before, priority by priority |
| Timers.TimersReschedule | libev-4.20/ev.c:3316-3328 | a uniform shift keeps the timer heap without moving an element |
| Timers.PeriodicsReschedule | libev-4.20/ev.c:3293-3314 | after recomputing all keys the heap is rebuilt with order, back-indices, cached keys and the same watchers |
| Pending.PendingQueues.FeedEvent | libev-4.20/ev.c:1852-1869 | a watcher is queued at most once, at the place its `pending` field names, with the OR of all events fed to it; one that is pending keeps its place |
| Pending.PendingQueues.ClearPending | libev-4.20/ev.c:3641-3666 | returns what was owed and puts the dummy in the place of exactly this watcher |
| Pending.OwedBelow | libev-4.20/ev.c:3141-3159 | when the queues above a priority are empty, no watcher of a higher priority is pending |
| Pending.PendingQueues.InvokePending | libev-4.20/ev.c:3141-3159 | with arbitrary feeding and clearing callbacks: each call finds exactly what the calls before it left, is for a watcher of the highest priority pending and gets all that watcher is owed; in the end all queues are empty and nothing is owed; callbacks that leave the queues alone run in delivery order |
| Pending.NoEventLost | libev-4.20/ev.c:3141-3159 | from such a sequence of calls: everything owed at the beginning and everything a callback feeds is given to its watcher by a later call, or a callback clears it |
| Pending.DeliveredPops | libev-4.20/ev.c:3148-3158 | taking the last element of the highest nonempty queue delivers the head of the delivery order |
| Pending.FedReverseDelivers | libev-4.20/ev.c:1871-1884 | a batch fed in reverse is delivered in its own order, before what was queued at that priority |
| Pending.PendingQueues.FeedReversed | libev-4.20/ev.c:1878-1884 | every element of the batch is owed the event; the queues are the specification's if none was pending |
| Fds.FdTable.FdChange | libev-4.20/ev.c:1991-2004 | `fdchanges` lists without duplicates exactly the descriptors whose `reify` is nonzero |
| Fds.FdTable.IoStart | libev-4.20/ev.c:3695-3719 | the watcher joins the head of the list of its descriptor, which is marked for reification, with EV__IOFDSET if the watcher has it; no other list or mark changes; nothing happens if it is active |
| Fds.FdTable.IoStop | libev-4.20/ev.c:3721-3738 | the watcher's pending events are cleared, it leaves its list and the descriptor is marked; no other list or mark changes; only the first happens if it is not active |
| Fds.FdTable.WlistDel | libev-4.20/ev.c:3626-3639 | removes exactly the given element |
| Fds.UnionIsWanted | libev-4.20/ev.c:1969-1979 | the OR over a descriptor's list is the OR of the masks of its active watchers |
| Fds.FdTable.PollModify | libev-4.20/ev_poll.c:51-86 | the poll array asks for POLLIN if and only if the new mask has EV_READ and for POLLOUT if and only if it has EV_WRITE, and for the old masks of all others; `polls` and `pollidxs` stay inverse, also when an element is removed by swapping |
| Fds.FdTable.FdReify | libev-4.20/ev.c:1932-1989 | afterwards no descriptor is marked, and the poll array holds exactly the descriptors with an active interested watcher, each once, with POLLIN if and only if one of them wants to read and POLLOUT if and only if one wants to write |
| Fds.SettledIsReconciled | libev-4.20/ev.c:1932-1989 | agreement of the settled masks with the poll array means that the kernel is asked for exactly what the watchers want |
| PoolSteps.Run | bufferpool/OMSbuff_getslot.c:28-47 | after every sequence of getslot, write, join, read and leave calls in which no blind consumer reads or leaves, with any number of consumers and any growth, the pool invariant holds (ring, window, join point, cursors, reference lower bounds, consumer count) |
| PoolSteps.ReadWorksIff | bufferpool/OMSbuff_gotreader.c:28-42 | the next read of a consumer finds an unread packet if there is one, and nothing otherwise, if and only if the consumer is not blind |
| PoolSteps.PatientIsSafe | mediainfo/get_frame.c:16-37 | every sequence of calls in which consumers read and leave only when no reservation is outstanding is such a run |
| PoolProofs.ProduceKeepsInv | bufferpool/OMSbuff_write.c:69-76 | reserving, filling and committing a slot keeps the invariant, with or without a new page |
| PoolReserve.ReserveKeepsInv | bufferpool/OMSbuff_getslot.c:28-47 | a reservation keeps the invariant, also when the one before it was not committed |
| PoolReserve.ReserveFills | bufferpool/OMSbuff_getslot.c:28-47 | a reservation hands out a free slot, and of what was there before changes only the data of that slot and the link to a new page |
| PoolReserve.ReserveBlindsIff | bufferpool/OMSbuff_addpage.c:28-61 | after a reservation a consumer is blind if and only if it was before or a page was added after the slot it last read from, which has been rewritten since |
| PoolReserve.ReserveKeepsSightIff | mediainfo/get_frame.c:16-29 | no consumer is blind after a reservation if and only if none was and no page went in before such a consumer |
| PoolReserve.BlindReadsNothing | bufferpool/OMSbuff_gotreader.c:31-42 | a blind consumer has packets to read, but its next read fails or gives it a never-written slot; which of the two is said exactly |
| PoolReserve.EmptyReadSticks | bufferpool/OMSbuff_gotreader.c:44-53 | if it is given that slot, the slot's 16-bit count falls below 0 to 65535 and the consumer has lost its place |
| PoolReserve.ProduceSights | bufferpool/OMSbuff_write.c:69-76 | after a commit nobody is blind |
| PoolReserve.ReserveThenProduce | bufferpool/OMSbuff_getslot.c:28-35 | reserving a slot and then writing is the same as writing |
| PoolReserve.ReserveAllThenProduce | mediainfo/get_frame.c:16-37 | however many reservations were not committed, once the next packet is committed the state is as if there had been none |
| PoolThreads.CommitsReserved | bufferpool/OMSbuff_write.c:44-76 | whatever consumers do between a reservation and its commit, the reserved slot stays the next one, free, and the write does nothing but commit to it |
| PoolThreads.JoinKeepsSelect | bufferpool/OMSbuff_getreader.c:10-48 | a consumer that joins does not change which slot another one is given next |
| PoolThreads.JoinsDuringLeave | bufferpool/OMSbuff_unref.c:7-24 | consumers that join at any points of the drain loop of a leaving one leave the pool as if they had joined after it |
| PoolRuns.RingShape | bufferpool/OMSbuff_addpage.c:28-61 | in every run `next` is one cycle through all slots; walked from after the write position: free slots, then consecutive packets up to the newest; a free slot was never written, unless it is the one that comes next |
| PoolSteps.SelectUnread | bufferpool/OMSbuff_gotreader.c:28-42 | a read by a consumer that is not blind succeeds exactly when something is unread, and selects a referenced slot with a packet newer than any given before |
| PoolSteps.ReadKeepsCore | bufferpool/OMSbuff_gotreader.c:44-53 | such a read keeps the invariant, advances its consumer and nobody else, and leaves the consumer not blind |
| PoolSteps.Drain | bufferpool/OMSbuff_unref.c:17 | the drain loop ends, with everything read and all other consumers unchanged |
| PoolSteps.Leave | bufferpool/OMSbuff_unref.c:7-24 | leaving removes exactly this consumer and keeps the invariant |
| PoolOrder.UnreadIsKept | bufferpool/OMSbuff_getslot.c:28-35 | in every run a packet that a registered consumer has still to read is in the ring, unchanged and referenced |
| PoolOrder.DeliveriesAdvance | bufferpool/OMSbuff_gotreader.c:31-53 | in every run each consumer is given packets of the log with strictly increasing numbers from its join point on, and unless it is blind a read fails only at the end of the log |
| PoolOrder.ReadIsNextIff | bufferpool/OMSbuff_gotreader.c:31-42 | a read yields the packet after the last one read if and only if that packet is in one of the two slots the consumer remembers and the consumer is not blind |
| PoolOrder.KeptReadsNext | bufferpool/OMSbuff_gotreader.c:31-42 | while the slot of the last packet read has not been rewritten, the next read yields the next packet, whatever the growth and the number of consumers |
| PoolOrder.WriteKeepsOrder | bufferpool/OMSbuff_getslot.c:28-35 | producing keeps all consumers in order if and only if it does not add a page while one of them has read everything |
| PoolOrder.ReserveKeepsOrder | bufferpool/OMSbuff_getslot.c:28-35 | the same for reserving a slot |
| PoolOrder.FreshSelectsNext | bufferpool/OMSbuff_gotreader.c:31-42 | a consumer in order that is not blind is given exactly the next packet |
| PoolRuns.ReadsAreTheLog | bufferpool/OMSbuff_ref.c:27-37 | in orderly runs every consumer reads exactly the packets written from its join point on, without gap or repeat, and a slot's `refs` is the number of consumers still to read it |
| PoolRuns.OneAtATimeIsOrderly | bufferpool/OMSbuff_addpage.c:28-61 | with one consumer at a time every run is orderly, however often pages are added |
| PoolRuns.NoGrowthIsOrderly | bufferpool/OMSbuff_getslot.c:28-35 | with any number of consumers, runs that add no page are orderly |
| PoolRuns.GrowthBound | bufferpool/OMSbuff_getslot.c:28-33 | with one consumer at a time there are never more slots than the larger of the initial number and the largest backlog plus 9, and plus 8 if every page was written to at once |
| PoolRuns.AbandonedPage | mediainfo/get_frame.c:19-29 | a page that is added and not written to makes the number of slots exactly the backlog plus 9 |
| PoolRuns.JoinStartsFrame | bufferpool/OMSbuff_getslot.c:36-46 | when the slot at the join point is reused, the join point moves off it, past packets of the same timestamp to the first with another one, or to the newest packet |
| PoolRuns.JoinPoint | bufferpool/OMSbuff_ref.c:27-28 | in every run a consumer that joins starts at the first packet, at a packet with another timestamp than the one before it, or at a packet that was the newest when the join point moved there |
| PoolSkip.SkippingRun | bufferpool/OMSbuff_gotreader.c:39-42 | for every initial size n >= 2 a run of two consumers in which one is given packet n + 10 after packet n while the packets between are still in the ring |
| PoolSkip.EmptySlotRun | mediainfo/get_frame.c:19-29 | for every initial size n >= 2 a run of one consumer that ends with a reservation and leaves the consumer, which has packets to read, about to be given a slot that was never written |
| PoolSkip.OneSlotRepeatsIff | bufferpool/OMSbuff_gotreader.c:31-53 | in a pool of one slot the packet just read is given out again if and only if others still have to read it |
| PoolSkip.OneSlotRepeats | bufferpool/OMSbuff_new.c:9-52 | two consumers join a new pool of one slot, a packet is written, and the first to read gets it twice |
| BufferPool.OMSBuffer.constructor | bufferpool/OMSbuff_new.c:9-52 | the new ring of any positive size is the initial state of the model; it satisfies the invariant if and only if it has at least two slots |
| BufferPool.NewBuffer | bufferpool/OMSbuff_new.c:9-52 | a buffer is returned exactly for a positive size, and then it is that ring |
| BufferPool.OMSBuffer.AddPage | bufferpool/OMSbuff_addpage.c:28-63 | the page is linked in after the given slot and before its old successor |
| BufferPool.OMSBuffer.PushJoin | bufferpool/OMSbuff_getslot.c:36-46 | the push loop ends at the slot of the next frame start |
| BufferPool.OMSBuffer.GetSlot | bufferpool/OMSbuff_getslot.c:14-52 | grows exactly when the next slot is still referenced, else hands out that slot after pushing the join point |
| BufferPool.OMSBuffer.ReserveSlot | mediainfo/get_frame.c:19-22 | reserving a slot and letting the reader of the medium fill it performs one reservation step of the model |
| BufferPool.OMSBuffer.CommitPacket | bufferpool/OMSbuff_write.c:44-76 | committing to the reserved slot performs one produce step of the model |
| BufferPool.OMSBuffer.ProducePacket | mediainfo/get_frame.c:16-37 | one iteration of the producer is a produce step if reading the medium gave data, and a reservation step if not |
| BufferPool.OMSBuffer.Ref | bufferpool/OMSbuff_ref.c:11-46 | performs one join step: a new consumer at the join point |
| BufferPool.OMSBuffer.AddReferences | bufferpool/OMSbuff_ref.c:30-35 | the walk ends and adds one reference to exactly the slots from the join point to the newest |
| BufferPool.OMSBuffer.GetReader | bufferpool/OMSbuff_getreader.c:10-48 | shows the slot the next read will take, fails exactly when nothing is unread unless the consumer is blind, and sets `firstts` once |
| BufferPool.OMSBuffer.GotReader | bufferpool/OMSbuff_gotreader.c:16-61 | performs one read step, also for a blind consumer; for any other it fails exactly when nothing is unread and keeps the pool valid |
| BufferPool.OMSBuffer.Unref | bufferpool/OMSbuff_unref.c:7-24 | performs one leave step |
| H264Proofs.Fragmentation | mediainfo/read_h264.c:181-253 | a payload of L > 1400 bytes yields L/1400 + 1 packets, all but the last of 1402 bytes, with one timestamp; each has type 28, the reference bits and the type of the unit; start bit on the first only, end bit and marker on the last only; the packetiser asks to be called again; the payloads concatenate to the original, also when the last is empty |
| H264Proofs.SinglePacket | mediainfo/read_h264.c:164-179 | a unit of at most 1400 bytes is one packet with the marker: itself without the forbidden bit |
| H264Proofs.ReceivePackets | mediainfo/read_h264.c:160-253 | an RFC 6184 receiver completes from the packets of a unit exactly that unit with the forbidden bit cleared, if and only if the unit is fragmented or of a type from 1 to 23 |
| H264Proofs.YieldsAtMostOne | mediainfo/read_h264.c:160-253 | the packets of any unit make a receiver complete at most one unit, with nothing left over when it does |
| H264Proofs.ParseFails | mediainfo/read_h264.c:45-60 | the splitter reports the end of the file if and only if there are fewer bytes than a start code, and a missing start code, with four bytes skipped, if and only if the next four are none |
| H264Stream.ReadFails | mediainfo/read_h264.c:153-156 | a call that finds no start code reports the end and only moves the file position |
| H264Stream.ParseUnit | mediainfo/read_h264.c:39-107 | the splitter returns a unit followed by a start code exactly, and stops before that code, if and only if the unit with both start codes fits into the 100000-byte buffer; otherwise it overruns it |
| H264Stream.ParseLast | mediainfo/read_h264.c:64-84 | at the end of the file the last unit comes back with one spurious byte and reading restarts at the beginning |
| H264Stream.RunsUnit | mediainfo/read_h264.c:126-260 | repeated calls send the packets of the parsed unit, one frame time later than the previous unit |
| H264Stream.RoundTrip | mediainfo/read_h264.c:126-260 | for every list of units behind any mix of start codes that fit the buffer, repeated calls and an RFC 6184 receiver give back the units followed by another start code, in order, byte for byte up to the forbidden bit, if and only if each of them is fragmented or of a type from 1 to 23 |
| H264Stream.WholeFile | mediainfo/read_h264.c:62-84 | the same for the whole file, the last unit with its spurious byte; then reading starts over |
| H264Stream.AsSentExact | mediainfo/read_h264.c:100 | a unit comes back unchanged if and only if its forbidden bit is 0, and otherwise only loses that bit |
| H264Stream.HeaderOnlyEnds | mediainfo/read_h264.c:158-160 | a unit of one byte ends the stream: the units before it are sent, and the next call reports end of file, with the file position behind that unit |
| H264Reader.Reader.StartCode | mediainfo/read_h264.c:45-60 | reads a 3- or 4-byte start code, or fails as the specification says |
| H264Reader.Reader.Search | mediainfo/read_h264.c:62-89 | the byte loop, with its wrap at end of file, stops at the next start code with all bytes before it in the buffer |
| H264Reader.Reader.GetNalu | mediainfo/read_h264.c:39-107 | the result and the new file position are those of the splitter function |
| H264Reader.Reader.ReadH264 | mediainfo/read_h264.c:126-260 | the packet sent and the new state are those of the packetiser function |
| Md5.BlocksConcat | md5/md5c.c:139-145 | the chain over whole blocks followed by more input is the chain continued from there |
| Md5.BlocksMore | md5/md5c.c:116-153 | chain and tail after more input depend only on the chain, the tail and the input |
| Md5.PadLengthMeets | md5/md5c.c:171-172 | the padding length is the only one that meets section 3.1 of RFC 1321 |
| Md5.Padded | md5/md5c.c:170-176 | the padded message starts with the message and is whole blocks, so that no byte is left out of the digest |
| Md5.PaddedIs | md5/md5c.c:57-61 | after the message there is the byte 0x80, then zeros, and in the last eight bytes 8 times the length modulo 2^64, least significant byte first |
| Md5.InitialBytes | md5/md5c.c:106-109 | the initial chain is the bytes 01 23 45 67 89 ab cd ef fe dc ba 98 76 54 32 10 of section 3.3 of RFC 1321 |
| Md5.DigestIs | md5/md5c.c:179 | the sixteen bytes of the digest are the four words of the final chain, least significant byte first |
| Md5.CountStep | md5/md5c.c:126-130 | the two-word update keeps the count at 8 times the length modulo 2^64 |
| Md5.ScanOkIff | md5/md5c.c:141 | the 32-bit loop test is right up to the end of the input if and only if buffered bytes and input are fewer than 2^32 |
| Md5.LongInputFails | md5/md5c.c:141 | one byte buffered and an input of 2^32 - 1 bytes: the loop test still holds at the end of the input |
| Md5.EncodedAt | md5/md5c.c:282-294 | every word occupies its four bytes, least significant first |
| Md5.LittleEndianValue | md5/md5c.c:282-294 | the four bytes determine the word |
| Md5.Encode | md5/md5c.c:282-294 | the encoding loop computes the specification's bytes |
| Md5.Context.constructor | md5/md5c.c:100-110 | the context of the empty message, with the initial bytes of RFC 1321 |
| Md5.Context.Update | md5/md5c.c:116-153 | however the message is cut: the chain is the fold over its full blocks, the buffer its tail, the count its length |
| Md5.Context.Final | md5/md5c.c:158-184 | the digest is that of RFC 1321 for the whole message, and the context is zeroed |
| BitField.ValueBits | mediainfo/read_MPEG4ES_utils.c:9-28 | the value of a field has exactly the bits read, the first on top |
| BitField.ValueSplit | mediainfo/read_MPEG4ES_utils.c:9-28 | reading a bits and then b bits is reading a + b bits |
| BitField.ValueOfByte | mediainfo/read_MPEG4ES_utils.c:15-19 | the byte path is eight steps of the bit path |
| BitField.FieldWord | mediainfo/read_MPEG4ES_utils.c:9-28 | up to 32 bits the word is exact; the returned int is negative if and only if all 32 are read and the first is set |
| BitField.FieldExact | mediainfo/read_MPEG4ES_utils.c:9-28 | the returned int is the field's value if and only if that is below 2^31 |
| BitField.GetField | mediainfo/read_MPEG4ES_utils.c:9-28 | both paths together compute the big-endian value of the field at any alignment, as the `int` that differs from it by a multiple of 2^32, and advance the offset by its width |
| PortPool.LeasedOnce | rtp/RTP_port_pool_init.c:7-14 | in a conserved pool every entry of the initial pool is either free once or leased once, and one zero stands for each lease |
| PortPool.LivePairs | rtp/RTP_get_port_pair.c:12-19 | live pairs never share a port; RTP is even and RTCP the next odd port for an even start; all lie in a window of twice the pool size |
| PortPool.WindowsFollow | eventloop/eventloop.c:69-73 | the windows of the processes follow each other without a gap, from port 5004 on, and start at even ports |
| PortPool.ForkedPoolsDisjoint | eventloop/eventloop.c:69-73 | pairs leased by different processes never share a port |
| PortPool.ReleaseBreaksIff | rtp/RTP_release_port_pair.c:11-17 | releasing a pair leaves a pool that some leases explain if and only if the entry that the pair stands for is leased |
| PortPool.EntryOfIff | rtp/RTP_release_port_pair.c:13-14 | which pairs stand for an entry: the pair at twice its distance from the start, and the one a port further away from the start |
| PortPool.GetThenRelease | rtp/RTP_get_port_pair.c:12-19 | handing out the first free entry and releasing its pair into the first zero restores the leases, and the pool up to its order |
| PortPool.DoubleRelease | rtp/RTP_release_port_pair.c:11-17 | releasing a pair twice while another pair is leased leaves a pool that no leases explain |
| PortPool.DoubleReleaseInput | rtp/RTP_release_port_pair.c:11-17 | for instance the first pair of the parent process, with the second one leased |
| PortPool.Pool.constructor | rtp/RTP_port_pool_init.c:7-14 | the pool starts conserved, with nothing leased |
| PortPool.Pool.GetPortPair | rtp/RTP_get_port_pair.c:7-20 | succeeds exactly while fewer pairs than connections are leased, takes the first free entry and nothing else, and leases a pair nobody has |
| PortPool.Pool.ReleasePortPair | rtp/RTP_release_port_pair.c:7-18 | succeeds exactly while something is leased, and changes only the first zero; a pair whose entry is leased returns to the pool and conservation is kept; any other leaves a pool that no leases explain |

## Left out

- Wakeup.NoLostWakeup: sequential consistency is assumed, because the source places fences; weaker memory orders, a fork between send and delivery, and starting or stopping async and signal watchers while a send is under way are not modelled. `ev_feed_signal` to a loop that does not own the signal is left out.
- Pending.PendingQueues.InvokePending: a callback is a finite script of feeds and clears; callback number i runs script entry i and later callbacks do nothing, so that the loop ends. Starting and stopping watchers from callbacks is left out.
- Fds.FdTable.FdReify: descriptors closed behind libev's back (`fd_kill`) are left out; watcher lists are sequences.
- Timers.Loop.TimerStart: the array grows to a size of at least what is asked for, without the rounding of `array_nextsize`; `ev_ref` counts and `pri_adjust` are left out.
- Timers.PeriodicsReschedule: the new keys are arbitrary parameters instead of the results of `reschedule_cb` or `periodic_recalc`.
- BufferPool.OMSBuffer.CommitPacket: the 16-bit overflow of `refs` (65536 consumers), failing allocations, a nonzero `seq` argument, and the path of `OMSbuff_write` that copies data into a slot that was not reserved are not modelled.
- PoolSteps.Run: runs of pools of one slot are left out, as such a pool repeats packets as soon as it has two consumers (`PoolSkip.OneSlotRepeatsIff`); the server creates pools of five slots. Runs end before a blind consumer reads or leaves.
- BufferPool.OMSBuffer.Unref: the drain loop of a blind consumer, which decrements the reference count of the empty slot below 0, is not modelled.
- Shared-memory pools, `OMSbuff_read`, `OMSbuff_dump` and `OMSbuff_sync`: mapping and inter-process plumbing around the same selection code.
- H264Reader.Reader.GetNalu: inputs on which the source overruns its 100000-byte buffer, or finds nothing between two start codes, give `Undefined`; nothing is claimed about the state after them.
- H264Stream.RoundTrip: units that contain a start code or end in a zero byte, which Annex B of ITU-T H.264 does not allow, are excluded; units of one byte and units too long for the buffer are `H264Stream.HeaderOnlyEnds` and `H264Stream.ParseUnit`.
- Md5.Context.Update: the arithmetic inside the block transform is an arbitrary function of chain and block; the digest is RFC 1321's for the transform of that RFC.
- BitField.GetField: reads beyond the end of the data are excluded, the source does not check them either; offsets stay below 2^32.
- PortPool.Pool.ReleasePortPair: a pair that stands for the value 0, which marks a leased entry, changes nothing and is left out.
- The epoll, kqueue, event port, select and win32 backends, signalfd, inotify, fork and embed watchers, `event.c` and the C++ wrapper: kernel behaviour or wrappers.
- RTSP requests, SDP, RTCP packets, the scheduler thread, the MPEG-1/2 readers, logging, preferences and the allocator in `src/en_xmalloc.c`: text handling and I/O, or easy members.
