# The gve data path, modelled and proved in Dafny

The gve driver moves packets between the Linux network stack and Google's
virtual NIC. Its data path is a set of small protocols: linked lists of indices
shared by two threads, rings shared with the device, pages shared with the
stack. Their safety rests on invariants over whole runs. This project models
those protocols and proves the invariants.

Each component has the same shape. A state machine says what one atomic step of
each party does: the sender, the completion or polling routine, the device, the
stack, the clock. An invariant is proved of every step, and the theorems quantify over every sequence
of steps, so over every interleaving. Where the driver updates
arrays, list heads and counters in place, a class does the same on arrays, and
every method is proved to take the step of the machine it stands for.

What the steps of a machine mean is stated apart from them: what SKBs hold of a
page is kept in a ledger changed by deliveries and drops, not by the driver; how
long a tag has waited is read off the run; what a step achieves is stated by
places, bytes and times, not by the functions that define it.

| files | component |
|---|---|
| `PageRefs.dfy` | the page-count bias, and its refill one memory access at a time |
| `RxDqoSpec.dfy`, `RxDqoProofs.dfy`, `RxDqoLedger.dfy`, `RxDqoRing.dfy`, `RxDqoRuns.dfy`, `RxDqoPoll.dfy` | DQO receive: buffer states, page chunks, what SKBs hold of them, posting, completions, the counters that tie the rings together, and the poll |
| `TxTagsSpec.dfy`, `TxTagsProofs.dfy`, `TxTagsAccounts.dfy`, `TxTagsRuns.dfy`, `TxTagsLaws.dfy`, `TxTagsRing.dfy` | DQO transmit: completion tags, packet states, timeouts, packet and byte accounts |
| `TxBufs.dfy`, `TxBufsRing.dfy` | DQO transmit: bounce buffers and their admission check |
| `TxDesc.dfy`, `TxDescRuns.dfy`, `TxPlan.dfy` | DQO transmit: descriptors, ring slots, and how a packet is laid out for the device |
| `TxCompl.dfy` | DQO transmit: the bound on the completion ring |
| `Tso.dfy` | DQO transmit: the segmentation check |
| `StopWake.dfy` | DQO transmit: stopping and waking the queue |
| `TxFifoSpec.dfy`, `TxFifoMath.dfy`, `TxFifoMemory.dfy`, `TxFifoProofs.dfy`, `TxFifoRing.dfy` | GQI transmit: the copy FIFO, its descriptors and its accounts |
| `RxGqiSpec.dfy`, `RxGqiLedger.dfy`, `RxGqiRing.dfy`, `RxGqiRuns.dfy` | GQI receive: half-page flipping, the copy pool, refilling, what SKBs hold, and the counters that tie buffers and descriptors together |
| `Polling.dfy` | sequence numbers and generation bits |
| `AdminQ.dfy` | the admin queue and its batches |
| `Arith.dfy`, `Lists.dfy`, `Words.dfy` | ring arithmetic, index-linked lists, 32-bit counters |

Sizes of pages, cachelines and rings are parameters. The device, the stack, the
clock and the allocators are steps or arguments that may take any value. What is
asked of them is written as a guard of the step: completions name only posted
tags, one descriptor completion per report event, no completion for a tag after
its deallocation timeout, no receive completion for a buffer the device was not
given. The stack drops references at any moment, and takes more on what it
already refers to as long as the page count, an `int`, has room for them and for
one reference on every chunk of the page that nobody refers to: those are the
references the driver may still hand out, and without them its refill of the
bias fails (`PageRefs.AddFragKeepsInvExactly`).

Some properties one would like to state do not hold of the code in full
generality. For these the code is kept as it is, and the condition under which
the property holds is proved:

- Segmentation check: the driver counts empty fragments like any other, so nine
  of them make it refuse a packet of one byte (`Tso.EmptyFragmentsCanFail`). Its
  verdict is right exactly when some segment is really spread too far, or none is
  overfull even with the empty fragments (`Tso.VerdictIsRightExactly`).
- End-of-packet mark: it is missing exactly when the last buffer is empty
  (`TxDesc.MarkNeedsLastBuffer`, with a packet in
  `TxDesc.EmptyLastFragmentHasNoMark`).
- Descriptor count: it is too small exactly for a packet that is linearised
  without segmentation and longer than one descriptor (`TxDesc.DirectCountExact`,
  with a packet in `TxDesc.LongPacketIsMiscounted`). The driver does not expect
  such a packet: it relies on an MTU of at most 9216
  (google/gve/gve_tx_dqo.c:586-592), and within the device's limit of 9728 bytes
  the count is exact (`TxDesc.CountExactWithinMtu`).
- Ring slots: descriptors already posted stay as they are as long as no such
  packet is longer than five descriptors, because admission keeps four slots free,
  and not otherwise (`TxDescRuns.SafeExactlyWithinSlack`, with the ring overrun in
  `TxDescRuns.OverrunsTightRing`).
- Waking: a poll that frees room only through timeouts does not wake the queue
  (`StopWake.TimeoutsDoNotWake`).
- Admin queue: a batch that carries the 32-bit command counter to its wrap does
  not see all statuses (`AdminQ.BatchIsFaithfulExactly`).
- AF_XDP admission: one page need not be enough for a frame and its padding
  (`TxFifoMath.PageThresholdSuffices`, `TxFifoMath.PageThresholdCanFallShort`).
- FIFO descriptors: a piece longer than 65535 bytes does not fit its length field
  (`TxFifoProofs.PostedPacketsReadBack` says exactly when a packet reads back, with
  a packet that does not in `TxFifoProofs.LongPacketReadsShort`). The length of the
  whole packet is also a field of 16 bits, and wrong for every packet over 65535
  bytes, also when all its pieces fit.
- Bias refill: it needs one reference of the `int` range to spare
  (`PageRefs.AddFragKeepsInvExactly`, with a page in
  `PageRefs.LastReferenceCannotBeRefilled`).
- Tags: a data or miss completion for a tag that is allocated but not posted puts
  it in two places (`TxTagsRuns.CompletionIsSafeExactlyWhenNotHeld`, with a run in
  `TxTagsRuns.CompletionOfHeldTagBreaks`).
- Fragment count: the 8-bit count tells a packet in hand from none except when the
  packet has a multiple of 256 fragments so far (`Polling.CountTellsExactly`, with
  such a packet in `Polling.LongPacketLooksFinished`).

`dafny verify dfyconfig.toml` checks the project.

## Model

| member | source | states |
|---|---|---|
| PageRefs.AddFragKeepsInvExactly | google/gve/gve_utils.c:75-89 | one more fragment keeps count - bias equal to the outstanding references, the bias positive and the count within int, if and only if it is not the case that the bias is 1 and the count INT_MAX, which is when all references but the driver's last are out |
| PageRefs.FragKeepsCovered | google/gve/gve_utils.c:75-89 | a fragment on a chunk nobody refers to always finds the reference kept back for it |
| PageRefs.LastReferenceCannotBeRefilled | google/gve/gve_utils.c:75-89 | a page for which the refill leaves a bias of zero |
| PageRefs.DropKeepsInv | google/gve/gve_rx.c:395-408 | a reference put by the stack keeps that invariant and lowers the computed count by exactly one |
| PageRefs.GetRefKeepsInv | google/gve/gve_rx.c:395-408 | another reference on a chunk already referred to, with room in the count, keeps that invariant and refers to nothing new |
| PageRefs.DecPagecntBias | google/gve/gve_utils.c:75-89 | the decrement with its refill hands over exactly one reference |
| PageRefill.BiasTrickIsSound | google/gve/gve_utils.c:75-89 | over every run with the stack dropping and taking references between the accesses of the refill: the page is alive, and between operations count - bias is the number of outstanding references and the count is not below the bias |
| PageRefill.RefillTakesEffectOnce | google/gve/gve_utils.c:75-89 | the refill in separate accesses refines the atomic one: it takes effect once, at the decrement or at the read of the count |
| PageRefill.DropDuringRefillIsAtomic | google/gve/gve_utils.c:78-87 | a drop at any point inside the refill is one atomic drop on the refined view |
| PageRefill.TakeDuringRefillIsAtomic | google/gve/gve_utils.c:78-87 | so is another reference taken inside the refill |
| RxDqoProofs.RotationIsSafe | google/gve/gve_rx_dqo.c:568-608 | from the bare count, recycling leaves all references in the cyclic range from the last single-reference offset up to the new offset, or sends the page to wait |
| RxDqoProofs.LoneChunkWaits | google/gve/gve_rx_dqo.c:574-576 | with one buffer per page the page goes to the used list with its one reference |
| RxDqoProofs.ChunksInBytes | google/gve/gve_rx_dqo.c:574-593 | byte offsets advanced by the buffer size and masked move like chunk numbers, and the size test is the test for fewer than two chunks |
| RxDqoLedger.PostedChunkIsUnreferenced | google/gve/gve_rx_dqo.c:121-169 | in every reachable state, with what SKBs hold kept in a ledger of deliveries, drops and takes: no SKB holds a posted chunk or the next chunk of a recycled buffer, all they hold lies in the cyclic range, and the page count less the bias is how much they hold |
| RxDqoLedger.CompletionEffect | google/gve/gve_rx_dqo.c:719-881 | a buffer handed over has exactly one more reference, on the chunk that was posted, moves on to the next chunk, remembers that chunk if nothing else was held, and waits when the circle closes; one copied or refused keeps its page and can be posted again |
| RxDqoLedger.VerdictMeans | google/gve/gve_rx_dqo.c:752-881 | by the fields of any descriptor: which error is returned, and exactly when the buffer itself goes to the stack |
| RxDqoLedger.ScanFindsFirst | google/gve/gve_rx_dqo.c:135-148 | the search takes the first used page nobody holds within its limit, counting round the list, and puts those it passed at the back |
| RxDqoLedger.ObtainMeans | google/gve/gve_rx_dqo.c:534-545 | the next buffer is the oldest recycled one, else the first of five used ones nobody holds; there is none only if neither is to be had and no state or no page is; a state that was free or still busy comes with a new page, and no other page changes |
| RxDqoLedger.RecordAgrees | google/gve/gve_rx_dqo.c:735-741 | every step keeps the references on the driver's pages equal to the ledger |
| RxDqoLedger.HeaderBuffersAttached | google/gve/gve_rx_dqo.c:549-554 | in every reachable state a posted buffer has a header buffer exactly when header split is on |
| RxDqoProofs.QplPagesNeverRunOut | google/gve/gve_rx_dqo.c:186-197 | in every QPL run pages handed out plus free states are all states, the used counter is the length of the used list, and allocation for a free state cannot find the pages used up |
| RxDqoProofs.QplKeepsBuffersBack | google/gve/gve_rx_dqo.c:668-677 | in every QPL run copying on demand keeps 96 buffers off the used list |
| RxDqoProofs.CompletionMovesOneBufferOnce | google/gve/gve_rx_dqo.c:752-881 | for every descriptor: an unknown or unposted buffer changes nothing; a posted one ends on exactly one list, once, and no other buffer changes |
| RxDqoProofs.StepKeepsInv | google/gve/gve_rx_dqo.c:35-207 | every step keeps the partition of the buffer states, the cyclic range of references and the QPL accounts |
| RxDqoProofs.PostAllFills | google/gve/gve_rx_dqo.c:515-566 | the posting loop fills consecutive ring slots with the buffers it posted, each at its current chunk, and leaves all other slots alone |
| RxDqoProofs.PostingIsSafe | google/gve/gve_rx_dqo.c:515-566 | the loop posts no more than there is room for in both queues, and no entry names a chunk an SKB refers to |
| RxDqoRuns.CountersAgree | google/gve/gve_rx_dqo.c:524-558 | over every run of rounds of the posting loop, device, stack and poll: num_free_slots is the completion ring less the buffers out and never negative, the difference of the indices is the number of buffers out and less than the ring, the room is the smaller ring less the buffers out, completions never outnumber their ring, no entry not yet answered is overwritten, and the poll's test succeeds exactly when a completion is unread |
| RxDqoRuns.PostingIsAlwaysSafe | google/gve/gve_rx_dqo.c:515-566 | in every reachable state, also between two rounds of the loop with device and stack acting there, the room is below the ring and at least the rounds the loop still goes, and every entry posted in that room names a chunk no SKB refers to |
| RxDqoRuns.OutstandingChunksAreFree | google/gve/gve_rx_dqo.c:515-566 | in every reachable state, by the same ledger, no SKB holds a chunk the device may write, and the page count less the bias is what SKBs hold |
| RxDqoRuns.PacketsAreFinishedOnce | google/gve/gve_rx_dqo.c:966-1026 | over every run an SKB is in hand exactly when the last completion taken was handled without error and did not end its packet; it has a fragment for every buffer of its packet, at most 17 on one SKB before the next is chained; the packets finished are the ends handled without error |
| RxDqoRuns.StepKeepsInv | google/gve/gve_rx_dqo.c:983-996 | every step keeps the counters, the posted entries, the polled ring and the buffer states |
| RxDqoRuns.TakesInOrder | google/gve/gve_rx_dqo.c:954-981 | the completion the poll takes is the next one the device wrote |
| RxDqoRing.RxRing.constructor | google/gve/gve_rx_dqo.c:307-338 | the initial links represent the initial state |
| RxDqoRing.LinksDetermineLists | google/gve/gve_rx_dqo.c:35-119 | the links and heads alone determine the three lists and the posted buffers, and no list comes back to a buffer |
| RxDqoRing.RxRing.AllocBufState | google/gve/gve_rx_dqo.c:35-53 | takes the head of the free stack and points it to itself, or returns none |
| RxDqoRing.RxRing.IsAllocated | google/gve/gve_rx_dqo.c:55-61 | the self link is there exactly for posted buffers |
| RxDqoRing.RxRing.FreeBufState | google/gve/gve_rx_dqo.c:63-70 | puts a state on the free stack |
| RxDqoRing.RxRing.DequeueRecycled | google/gve/gve_rx_dqo.c:72-93 | takes the oldest recycled buffer, keeping head and tail right |
| RxDqoRing.RxRing.DequeueUsed | google/gve/gve_rx_dqo.c:72-93 | the same for the used list |
| RxDqoRing.RxRing.RecycleBuf | google/gve/gve_rx_dqo.c:95-119 | appends to the recycled list and detaches the header buffer |
| RxDqoRing.RxRing.EnqueueUsed | google/gve/gve_rx_dqo.c:95-112 | appends to the used list |
| RxDqoRing.RxRing.SearchUsed | google/gve/gve_rx_dqo.c:135-148 | the bounded search takes the first unreferenced used buffer within its limit and rotates past the others |
| RxDqoRing.RxRing.GetRecycledBufState | google/gve/gve_rx_dqo.c:121-169 | recycled first, then the search, then without a QPL and without free states the discard |
| RxDqoRing.RxRing.TryRecycleBuf | google/gve/gve_rx_dqo.c:568-608 | takes the recycling step of the machine |
| RxDqoRing.RxRing.Receive | google/gve/gve_rx_dqo.c:752-881 | takes the completion step of the machine for any descriptor and allocation outcomes, returns its error, and keeps the whole invariant |
| RxDqoRing.RxRing.AllocPage | google/gve/gve_rx_dqo.c:171-207 | gives the state a fresh page, in QPL mode the next one, or fails without change |
| RxDqoRing.RxRing.ObtainBuf | google/gve/gve_rx_dqo.c:534-545 | a recycled buffer, else a free state with a fresh page, else none |
| RxDqoRing.BufQueue.Available | google/gve/gve_rx_dqo.c:524-528 | no more than the completions can answer, and so few that after any of these pushes the tail has not come round to the head |
| RxDqoRing.BufQueue.Reclaim | google/gve/gve_rx_dqo.c:983-996 | a completion taken brings the head one nearer to the tail and makes room for exactly one more buffer |
| RxDqoRing.PostBuffers | google/gve/gve_rx_dqo.c:515-566 | the loop in place leaves the state and ring the specification describes, and keeps the whole invariant |
| RxDqoPoll.DqoRx.constructor | google/gve/gve_rx_dqo.c:307-338 | rings, links and queue start in the initial state of the machine |
| RxDqoPoll.DqoRx.DeviceComplete | google/gve/gve_rx_dqo.c:954-970 | the device answers one of the buffers it has, if there is one |
| RxDqoPoll.DqoRx.TakeNext | google/gve/gve_rx_dqo.c:966-1026 | one round takes the next completion through buffer states, queue and SKB in hand, and says whether a packet was finished |
| RxDqoPoll.DqoRx.Poll | google/gve/gve_rx_dqo.c:954-1028 | with the device writing between rounds, the loop is a run of the machine that finishes no more packets than the budget, and leaves a completion unread only when it has finished that many |
| RxDqoPoll.DqoRx.Post | google/gve/gve_rx_dqo.c:515-566 | the posting loop is a run of the machine, and says whether the room is used up |
| TxTagsRuns.TagsAreNeverLostOrDuplicated | google/gve/gve_tx_dqo.c:113-158 | under every interleaving and any completions of posted tags, each tag is seen in exactly one place, no list repeats a tag, and the state field agrees with the place |
| TxTagsRuns.CompletionIsSafeExactlyWhenNotHeld | google/gve/gve_tx_dqo.c:1001-1096 | a completion of any kind and tag keeps the lists sound if and only if it is not a data or miss completion for the tag the sender holds unposted |
| TxTagsRuns.CompletionOfHeldTagBreaks | google/gve/gve_tx_dqo.c:1001-1063 | a run of two steps after which a data completion for the held tag puts it in two places |
| TxTagsRuns.FreeTagStaysFree | google/gve/gve_tx_dqo.c:99-140 | once a free tag has been seen on either list, the allocation gets one whatever the completion thread does in between |
| TxTagsRuns.PacketsAreConserved | google/gve/gve_tx_dqo.c:904-914 | over every run: packets accepted are completed, dropped or held; each SKB is released at most once, and not released exactly while one tag holds it; bytes sent minus completed are those awaiting a first completion |
| TxTagsRuns.EarlyBreakMissesNothing | google/gve/gve_tx_dqo.c:1098-1163 | in every reachable state, if the timeout of the head of a timeout list is still to come then so are all on it |
| TxTagsRuns.ScanIsExact | google/gve/gve_tx_dqo.c:1098-1143 | the scan moves exactly the entries whose timeout is not after now, in order, to the timed-out list |
| TxTagsLaws.CompletionEffect | google/gve/gve_tx_dqo.c:1001-1096 | for any kind and tag, by where the tag is: a delivery counts packet and bytes and frees the tag, a miss, also one marked by the top tag bit, waits a second with its SKB, a late reinjection only frees the tag, anything else changes nothing; the queue hears of the bytes once |
| TxTagsLaws.TalliesAreExact | google/gve/gve_tx_dqo.c:1119-1127 | over every run the packets counted as completed are the deliveries, and those counted as dropped the ones that waited too long or could not be posted |
| TxTagsLaws.TimeoutsAreExact | google/gve/gve_tx_dqo.c:1086-1092 | over every run a missed packet is due one second after it came to the miss list, and a tag sixty seconds after it came to the timed-out list |
| TxTagsLaws.MissedPacketsAreGivenUpInTime | google/gve/gve_tx_dqo.c:1098-1143 | in every reachable state the scan gives up a missed packet exactly when it has waited a second, without mention of timeouts |
| TxTagsLaws.TimedOutTagsAreFreedInTime | google/gve/gve_tx_dqo.c:1145-1163 | in every reachable state the oldest timed-out tag is freed exactly when it has been there a minute, and if it has not then none has |
| TxTagsLaws.StealEffect | google/gve/gve_tx_dqo.c:121-131 | the sender takes over the whole other list in order |
| TxTagsLaws.PostEffect | google/gve/gve_tx_dqo.c:717-761 | a packet goes out on the first free tag, is accepted and not released, and its bytes count as sent |
| TxTagsLaws.FailEffect | google/gve/gve_tx_dqo.c:780-784 | a packet that cannot be posted is dropped and its tag on the way back |
| TxTagsLaws.PollEndEffect | google/gve/gve_tx_dqo.c:1235-1247 | a poll reports the packets and bytes it summed up |
| TxTagsRuns.TimedOutTagIsNotReused | google/gve/gve_tx_dqo.c:1098-1163 | a timed-out tag stays out of circulation until a late reinjection or 60 seconds have passed, over every run |
| TxTagsRuns.MissedPacketIsKept | google/gve/gve_tx_dqo.c:1065-1096 | a missed packet is not given up within a second of its miss completion unless its reinjection comes, over every run |
| TxTagsRuns.StepKeepsInv | google/gve/gve_tx_dqo.c:1001-1163 | every step of either thread keeps places, states, order of timeouts, counts and releases |
| TxTagsRing.TagRing.constructor | google/gve/gve_tx_dqo.c:300-309 | the initial links represent the initial state |
| TxTagsRing.LinksDetermineLists | google/gve/gve_tx_dqo.c:940-978 | the links and heads alone determine the four lists, and no list comes back to a tag |
| TxTagsRing.TagRing.Steal | google/gve/gve_tx_dqo.c:121-131 | takes the whole producer list in one exchange |
| TxTagsRing.TagRing.Pop | google/gve/gve_tx_dqo.c:133-139 | takes the first tag of the sender's list |
| TxTagsRing.TagRing.PushLoad | google/gve/gve_tx_dqo.c:149-150 | loads the head |
| TxTagsRing.TagRing.PushLink | google/gve/gve_tx_dqo.c:152 | links the tag to the loaded head while it is on no list |
| TxTagsRing.TagRing.PushCas | google/gve/gve_tx_dqo.c:153-155 | the swap succeeds exactly when the head is the one loaded, and then the links spell the longer list |
| TxTagsRing.LinkCas | google/gve/gve_tx_dqo.c:142-158 | success of the swap makes the earlier link right whatever happened in between |
| TxTagsRing.TagRing.AppendLinks | google/gve/gve_tx_dqo.c:940-955 | the links of an append at the tail |
| TxTagsRing.TagRing.JoinNeighbours | google/gve/gve_tx_dqo.c:957-978 | removal anywhere joins the neighbours in both directions |
| TxTagsRing.TagRing.FreePending | google/gve/gve_tx_dqo.c:142-158 | the push loop ends with the tag in front of the shared list, however often the sender steals the list before a swap, and is a run of push and steal steps |
| TxTagsRing.TagRing.HandleCompletion | google/gve/gve_tx_dqo.c:1198-1226 | dispatches on kind and top tag bit; takes the completion step of the machine and then, if a tag is freed, the steps of its push |
| TxTagsRing.TopBit | google/gve/gve_tx_dqo.c:1200-1201 | on 16-bit words, testing and clearing the miss bit is a comparison and a subtraction |
| TxTagsRing.TagRing.HandleMiss | google/gve/gve_tx_dqo.c:1065-1096 | takes the miss step for any tag |
| TxTagsRing.TagRing.HandleData | google/gve/gve_tx_dqo.c:1043-1063 | takes the data completion step for any tag, and pushes the tag back |
| TxTagsRing.TagRing.HandleReinjection | google/gve/gve_tx_dqo.c:1016-1042 | takes the reinjection step for any tag, in time, after the timeout, or neither, and pushes a freed tag back |
| TxTagsRing.TagRing.RemoveMissCompletions | google/gve/gve_tx_dqo.c:1098-1143 | the loop is the exact scan: an entry moves if and only if its timeout is not after jiffies |
| TxTagsRing.TagRing.RemoveTimedOutCompletions | google/gve/gve_tx_dqo.c:1145-1163 | the loop frees exactly the tags whose timeout is not after jiffies, oldest first, and is a run of the machine with the sender stealing in between |
| TxBufsProofs.AdmittedPacketsNeverRunOut | google/gve/gve_tx_dqo.c:17-97 | over every interleaving, with wrapping counters and a late cached count: the failure branch of the copy path is never reached, enough buffers are free for what is left of an admitted packet, and a posted packet has exactly its length rounded up in buffers |
| TxBufsProofs.CheckIsExact | google/gve/gve_tx_dqo.c:17-40 | in every reachable state the check says yes if and only if that many buffers are free and counted |
| TxBufsProofs.BuffersAreNeverLostOrDuplicated | google/gve/gve_tx_dqo.c:42-97 | in every reachable state each buffer is on exactly one list or in exactly one packet, once |
| TxBufsProofs.StepKeepsInv | google/gve/gve_tx_dqo.c:665-709 | every step keeps the places, the counters, the promise to the packet in hand and the number of its buffers |
| TxBufsProofs.SenderEffect | google/gve/gve_tx_dqo.c:665-709 | a packet is admitted exactly when its length rounded up to 2048 is free and counted; each round takes the first buffer, after taking over the other list if need be, and copies 2048 bytes or the rest; all copied, it is posted |
| TxBufsProofs.CompletionGivesBack | google/gve/gve_tx_dqo.c:67-97 | all buffers of a completed packet end up in front of the shared list and are counted |
| TxBufsRing.StrungPrepend | google/gve/gve_tx_dqo.c:78-93 | a chain whose last link is the head of a list makes one list with it |
| TxBufsRing.BufRing.constructor | google/gve/gve_tx_dqo.c:233-254 | the initial links represent the initial state |
| TxBufsRing.BufRing.HasFree | google/gve/gve_tx_dqo.c:17-40 | takes the check step on 32-bit counters and returns its answer |
| TxBufsRing.BufRing.AllocBuf | google/gve/gve_tx_dqo.c:42-65 | in an admitted packet returns a buffer, stealing the other list when its own is empty |
| TxBufsRing.BufRing.BeginFree | google/gve/gve_tx_dqo.c:74-82 | strings the buffers of a packet together without touching either list |
| TxBufsRing.BufRing.PushLoad | google/gve/gve_tx_dqo.c:85 | reads the head of the completion thread's list |
| TxBufsRing.BufRing.PushLink | google/gve/gve_tx_dqo.c:87 | links the end of the chain to the head just read |
| TxBufsRing.BufRing.PushCas | google/gve/gve_tx_dqo.c:88-92 | swaps the whole chain in, or leaves everything as it was |
| TxBufsRing.BufRing.AddFree | google/gve/gve_tx_dqo.c:95-96 | counts the chain as free only after it is on the list |
| TxDesc.PiecesShape | google/gve/gve_tx_dqo.c:453-478 | a buffer becomes as many descriptors as computed, each of 1 to 16383 bytes, marked at most on the last |
| TxDesc.PiecesCover | google/gve/gve_tx_dqo.c:453-478 | the descriptors of a buffer cover its addresses exactly and in order |
| TxDesc.DataCovers | google/gve/gve_tx_dqo.c:594-631 | all descriptors of a packet cover its buffers exactly and in order, and number what is computed for them |
| TxDesc.MarkNeedsLastBuffer | google/gve/gve_tx_dqo.c:594-631 | there is one end-of-packet mark, on the last descriptor, if and only if the last buffer is not empty |
| TxDesc.EmptyLastFragmentHasNoMark | google/gve/gve_tx_dqo.c:594-631 | a packet with an empty last fragment whose descriptors carry no mark |
| TxDesc.DirectCountExact | google/gve/gve_tx_dqo.c:868-894 | the count asked for is never too large, and is the count written if and only if the packet is segmented, needs at most ten descriptors, or has at most 16383 bytes |
| TxDesc.CountExactWithinMtu | google/gve/gve_tx_dqo.c:586-592 | packets within the device's limit of 9728 bytes are counted right |
| TxDesc.LongPacketIsMiscounted | google/gve/gve_tx_dqo.c:887-891 | a packet of 20010 bytes for which one descriptor is asked for and two are written |
| TxDesc.RoomLeftExactly | google/gve/gve_tx_dqo.c:896-902 | admission leaves four slots free behind the packet, however many were free, if and only if the count is exact |
| TxDesc.BounceCountExact | google/gve/gve_tx_dqo.c:678-705 | with bounce buffers there is one descriptor for every 2048 bytes of the packet, over its own buffer and of exactly the bytes in it, marked once on the last; together they are the length of the packet |
| TxPlan.PlanMeetsDevice | google/gve/gve_tx_dqo.c:868-894 | what is written of a segmented packet spreads no segment over more than nine buffers, given the verdict of the check; a packet sent whole within the device's limit has at most ten data descriptors |
| TxPlan.PlanKeepsBytes | google/gve/gve_tx_dqo.c:868-894 | linearised or not, the packet keeps its number of bytes |
| TxPlan.PlanCopiesOnlyAtNeed | google/gve/gve_tx_dqo.c:868-894 | a packet that meets the rules as it is goes out from its own buffers |
| TxDesc.DescRing.FillPktDesc | google/gve/gve_tx_dqo.c:453-478 | the loop writes the pieces into consecutive slots round the ring and nothing else |
| TxDesc.DescRing.FillData | google/gve/gve_tx_dqo.c:594-631 | the loop over buffers writes the descriptors of the packet behind its context |
| TxDesc.DescRing.AddSkb | google/gve/gve_tx_dqo.c:717-761 | a packet occupies exactly the slots its buffers need, and that many fewer are free if they fit |
| TxDesc.DescRing.TrySend | google/gve/gve_tx_dqo.c:849-909 | a packet is taken if and only if the count it asks for fits, is then in the ring, and leaves four slots free under exactly the condition of the count; refused, it changes nothing |
| TxDesc.DescRing.TrySendCopy | google/gve/gve_tx_dqo.c:854-909 | the same with bounce buffers, where four slots always stay free |
| TxDesc.DescRing.UpdateHead | google/gve/gve_tx_dqo.c:410-411 | the sender's copy of the head becomes the published one |
| TxDescRuns.PostedDescriptorsStay | google/gve/gve_tx_dqo.c:386-434 | over every run of sends, device progress and head updates: the free slots are counted exactly and every descriptor not known to be done is in its slot as posted, for packets whose count falls short by at most the four slots kept free; with exact counts four slots are free after every packet |
| TxDescRuns.SendEffect | google/gve/gve_tx_dqo.c:896-909 | with room for what it asks for and four slots, a packet is posted behind all others: its context, one more for segmentation, and descriptors over exactly its bytes; else nothing changes |
| TxDescRuns.SafeExactlyWithinSlack | google/gve/gve_tx_dqo.c:887-902 | a packet keeps that from every state if and only if it is segmented, needs at most ten descriptors, or is no longer than five descriptors can hold |
| TxDescRuns.OverrunsTightRing | google/gve/gve_tx_dqo.c:887-902 | an empty ring of seven slots on which every other packet breaks it |
| TxDescRuns.StepKeepsInv | google/gve/gve_tx_dqo.c:717-761 | every step keeps the indices and the posted descriptors |
| TxCompl.CompletionRingIsNeverOverrun | google/gve/gve_tx_dqo.c:274-293 | over every run of sender, driver and device, completions written and not read never exceed the ring |
| TxCompl.EventsKeepUp | google/gve/gve_tx_dqo.c:763-776 | over every run at most 31 descriptors lie behind the last event asked for, so with all events answered at most 33 slots are not free |
| TxCompl.SendEffect | google/gve/gve_tx_dqo.c:896-909 | a packet with a free tag and room for it is sent, and no other |
| TxCompl.TagsFillTheRing | google/gve/gve_tx_dqo.c:274-293 | there are as many tags as leave room for two completions each, and no fewer |
| TxCompl.FewEvents | google/gve/gve_tx_dqo.c:763-776 | report events not yet acknowledged are at most one for every 32 slots |
| TxCompl.StepKeepsTags | google/gve/gve_tx_dqo.c:288-291 | the unread completions of a tag follow its state: none, one, or a miss and its reinjection |
| TxCompl.AvailIsExact | google/gve/gve_tx_dqo.c:386-391 | the masked difference is the exact number of free slots |
| Tso.CanSendTso | google/gve/gve_tx_dqo.c:809-842 | the one-pass loop says yes if and only if no segment is charged with more than nine buffers |
| Tso.VerdictIsRightExactly | google/gve/gve_tx_dqo.c:809-842 | for every packet the verdict agrees with the segments if and only if some segment has bytes in more than nine buffers, or none has more than nine counting its empty fragments; a segmentable packet is refused exactly in the remaining case |
| Tso.ChargeIsSpreadAndEmpties | google/gve/gve_tx_dqo.c:829-839 | a segment is charged for the buffers with bytes in it and for the empty fragments standing in it |
| Tso.CheckMeansSegmentable | google/gve/gve_tx_dqo.c:809-815 | a yes means that no segment has bytes in more than nine buffers; without empty fragments the two are equivalent |
| Tso.EmptyFragmentsCanFail | google/gve/gve_tx_dqo.c:829-839 | nine empty fragments make a one-byte payload fail |
| StopWake.NoLostWakeup | google/gve/gve_tx_dqo.c:404-434 | over every interleaving: stopped with an idle poller means no completion was taken since the stop; with an idle sender too, the room is that at the stop plus what timeouts freed, and without timeouts too little |
| StopWake.SendsOnlyWithRoom | google/gve/gve_tx_dqo.c:394-434 | over every interleaving what a check has found is still there when the packet is sent, and no count goes below zero |
| StopWake.XmitEffect | google/gve/gve_tx_dqo.c:404-434 | undisturbed, a packet is sent and its room taken if and only if there is a tag, enough slots and enough buffers; else the queue stops and nothing is taken |
| StopWake.PollEffect | google/gve/gve_tx_dqo.c:1258-1269 | undisturbed, a poll that takes a completion gives its room back and starts the queue |
| StopWake.TimeoutsDoNotWake | google/gve/gve_tx_dqo.c:1258-1269 | a run in which a timeout frees enough room and the queue stays stopped |
| TxFifoMath.AdmissionSuffices | google/gve/gve_tx.c:347-364 | with more than the required bytes available, header and payload with both paddings fit and never overdraw the FIFO; what is required is within a cacheline of what they use |
| TxFifoMath.AllocUses | google/gve/gve_tx.c:84-133 | an allocation takes its bytes rounded up to a cacheline, records exactly that, and leaves the head aligned where the stream has got to |
| TxFifoMath.AllocSpells | google/gve/gve_tx.c:84-133 | the pieces handed out are the next bytes of the FIFO in order |
| TxFifoMath.HeaderIsContiguous | google/gve/gve_tx.c:63-67 | the headers of a segmented packet, and the first 182 bytes of any other or all of it, get one piece right behind the padding, and there is padding only if that would reach the end of the FIFO |
| TxFifoMath.XdpFirstPiece | google/gve/gve_tx.c:732-743 | an XDP frame comes in one piece behind its padding, or its first piece is all of it or has 182 bytes |
| TxFifoMath.XdpAdmissionSuffices | google/gve/gve_tx.c:725-743 | the bytes asked for an XDP frame are enough for it with its padding |
| TxFifoMath.PageThresholdSuffices | google/gve/gve_tx.c:889-899 | asking for one page is enough if and only if frame and padding round up to no more than a cacheline over a page |
| TxFifoMath.PageThresholdCanFallShort | google/gve/gve_tx.c:889-899 | a full-page frame near the end of the FIFO for which it is not |
| TxFifoMemory.FetchPacket | google/gve/gve_tx.c:527-577 | what the device fetches through a packet's descriptors is the packet, if its pieces fit the length fields |
| TxFifoMemory.FetchFallsShort | google/gve/gve_tx.c:481-495 | a piece too long for its length field makes the device fetch fewer bytes than the packet has |
| TxFifoProofs.PostedPacketsReadBack | google/gve/gve_tx.c:508-580 | over every run, for packets of any length, reading a posted packet not yet cleaned through the ring yields its bytes if and only if its pieces fit their 16-bit length fields, as all pieces of a packet of up to 65535 bytes do; the first descriptor holds exactly the headers of a segmented packet, and of another the first 182 bytes or all; the packet length field is right if and only if the packet has at most 65535 bytes |
| TxFifoProofs.LongPacketReadsShort | google/gve/gve_tx.c:481-495 | a run that posts a packet of 70000 bytes which does not read back |
| TxFifoProofs.SentPacketsAreThere | google/gve/gve_tx.c:824-859 | over every run the packets in the ring are those sent whose first slot is not cleaned, in the order they were sent |
| TxFifoProofs.AdmitEffect | google/gve/gve_tx.c:392-417 | a packet is admitted exactly when there are slots for any packet and more than the required bytes |
| TxFifoProofs.FifoIsConserved | google/gve/gve_tx.c:144-155 | over every run available, being-freed and recorded space add up to the FIFO, available is never negative, and a fully cleaned ring has a full FIFO |
| TxFifoProofs.CanTxMeans | google/gve/gve_tx.c:392-400 | on 32-bit counters the check means enough free slots and enough space |
| TxFifoProofs.StepKeepsInv | google/gve/gve_tx.c:824-859 | every step keeps the accounts, the order of the packets, their bytes and descriptors, and the recorded space |
| TxFifoRing.TxRing.constructor | google/gve/gve_tx.c:39-53 | an empty ring with a full FIFO |
| TxFifoRing.TxRing.AllocFifo | google/gve/gve_tx.c:84-133 | the code in place makes the specified allocation |
| TxFifoRing.TxRing.AddSkbCopy | google/gve/gve_tx.c:508-580 | allocates, writes descriptors and bytes, and moves req as the send step |
| TxFifoRing.TxRing.MaybeStop | google/gve/gve_tx.c:405-417 | takes the admission step and returns its answer |
| TxFifoRing.TxRing.CleanTxDone | google/gve/gve_tx.c:824-859 | the loop cleans that many slots and gives all their space back at the end |
| RxGqiLedger.PostedHalvesAreFree | google/gve/gve_rx.c:844-898 | over every run in both modes, with what SKBs hold kept in a ledger of packets kept, drops and takes: no SKB holds a posted half-page, the slot address is the page address plus page_offset, and the page count less the bias is what SKBs hold |
| RxGqiLedger.CopiesGoToFreeHalves | google/gve/gve_rx.c:431-515 | over every run, by the same ledger, a copy into the pool goes to a half no SKB holds, and every page count less its bias is what SKBs hold |
| RxGqiLedger.TakeEffect | google/gve/gve_rx.c:410-429 | a packet kept in raw mode, or in QPL mode on a page nobody held, adds exactly one reference, on the half it was received in; the slot may flip exactly if nobody held its page, and in QPL mode does so at once; a packet not kept adds none |
| RxGqiLedger.CopyEffect | google/gve/gve_rx.c:431-515 | a copy adds one reference on the half in turn of the pool page in turn; after its second use, or when it is passed over because it is held, the next page is in turn |
| RxGqiLedger.RefillEffect | google/gve/gve_rx.c:844-898 | a slot that may flip turns to its other half, one nobody holds stays, any other gets the new page |
| RxGqiLedger.RecordAgrees | google/gve/gve_rx.c:517-589 | every step keeps the references on the driver's pages equal to the ledger |
| RxGqiProofs.XorIsToggle | google/gve/gve_rx.c:386-393 | on 64-bit words exclusive-or with the half-page bit moves between the two halves |
| RxGqiProofs.ToggleHalf | google/gve/gve_rx.c:386-393 | flipping offset and address goes back and forth between the halves of a page |
| RxGqiProofs.StepKeepsInv | google/gve/gve_rx.c:517-589 | every step keeps references on the two halves counted, free posted halves, free other halves of slots that may flip, and the pool's rotation |
| RxGqiRuns.CountersAgree | google/gve/gve_rx.c:900-963 | over every run of device, poll, refill and stack on a ring of any power-of-two size: packets taken and buffers posted are the counters of the slots, descriptors never outnumber buffers nor buffers slots, the test at the head succeeds exactly when a descriptor is unread and the slot under it is then posted, and by the ledger no SKB holds a half-page the device has filled or may fill |
| RxGqiRuns.StepKeepsInv | google/gve/gve_rx.c:830-898 | every step keeps the two sides in agreement |
| RxGqiRing.RefillStopsRight | google/gve/gve_rx.c:844-898 | a refill ends with a full ring or because a page is needed and none is to be had |
| RxGqiRing.GqiRing.constructor | google/gve/gve_rx.c:111-158 | pages set up, all slots posted |
| RxGqiRing.GqiRing.CanRecycle | google/gve/gve_rx.c:395-408 | 1, 0 or -1 exactly as the outstanding references are none, some or negative |
| RxGqiRing.GqiRing.CopyPacket | google/gve/gve_rx.c:431-515 | takes the pool's step: second half, first half, or a page passed over |
| RxGqiRing.GqiRing.RxQpl | google/gve/gve_rx.c:517-543 | flips at once when the page was free, else copies |
| RxGqiRing.GqiRing.RxSkb | google/gve/gve_rx.c:545-589 | takes the packet step on the oldest posted slot |
| RxGqiRing.GqiRing.RefillBuffers | google/gve/gve_rx.c:844-898 | the loop on 32-bit counters is the specified refill |
| Polling.PollingFollowsTheStream | google/gve/gve_rx.c:900-963 | on a ring of any power-of-two size, with either mark, over every run in which no more buffers are out than the ring has slots: what the driver has taken is a prefix of the device's stream, and the test at the head succeeds exactly when there is more |
| Polling.SeqnosCycle | google/gve/gve_desc.h:135-138 | the numbers go from 1 to 7 and round |
| Polling.SevenNeverDivides | google/gve/gve_desc.h:135-138 | no power of two is a multiple of seven |
| Polling.MarksDiffer | google/gve/gve_rx_dqo.c:959-988 | sequence numbers and generation bits differ from those a lap before |
| Polling.WantNext | google/gve/gve_desc.h:135-138 | the expected mark kept step by step is the mark of the next descriptor |
| Polling.ReadyMeansWritten | google/gve/gve_rx.c:830-842 | a stale or blank slot never passes the test, a written one always does |
| Polling.FragCntIsRun | google/gve/gve_rx.c:914-927 | the 8-bit fragment count is the number of fragments of the packet in hand modulo 256 |
| Polling.CountTellsExactly | google/gve/gve_rx.c:914-927 | the count is zero exactly when no packet is in hand, if and only if the packet in hand has not a positive multiple of 256 fragments |
| Polling.LongPacketLooksFinished | google/gve/gve_rx.c:821-827 | 256 fragments of one packet bring the count to zero |
| Polling.PolledRing.CleanRxDone | google/gve/gve_rx.c:900-927 | with the device writing between rounds, takes consecutive descriptors, over budget only while the packet in hand has not a multiple of 256 fragments, stops short only for the budget, and then with no packet of fewer than 256 fragments in hand |
| AdminQ.ParseErr | google/gve/gve_adminq.c:340-379 | zero exactly for a passed command, else negative |
| AdminQ.ErrorsAreTold | google/gve/gve_adminq.c:340-379 | which statuses mean which error |
| AdminQ.FirstErrorIsFirst | google/gve/gve_adminq.c:381-412 | the first error is zero if and only if all commands passed, and else belongs to a command before which all passed |
| AdminQ.BatchReportsFirstError | google/gve/gve_adminq.c:650-662 | a batch of any size reports the first error of all its commands, however often it is flushed, if the counter does not wrap |
| AdminQ.BatchIsFaithfulExactly | google/gve/gve_adminq.c:384-412 | it does so for every device if and only if the batch is empty or the 32-bit counter stays below its wrap |
| AdminQ.AdminQueue.FirstFailure | google/gve/gve_adminq.c:399-411 | the scan reports the first error between two counter values, or nothing when the counter wrapped between them |
| AdminQ.AdminQueue.KickAndWait | google/gve/gve_adminq.c:384-412 | executes all queued commands in order, and reports the scan |
| AdminQ.AdminQueue.IssueCmd | google/gve/gve_adminq.c:417-447 | flushes exactly when the ring is full, always has room then, and overwrites no command that is not executed |
| AdminQ.AdminQueue.Batch | google/gve/gve_adminq.c:748-760 | executes the commands in order up to the first error seen and returns the specified result |

## Left out

- Probe, reset, suspend, XDP programs, MSI-X and ethtool (google/gve/gve_main.c, google/gve/gve_ethtool.c): kernel plumbing without a protocol of its own.
- DMA mapping, cache synchronisation, prefetching, checksums, hashes and metadata contents: no part of the properties proved.
- Memory ordering weaker than sequential consistency: one step is one access, in program order.
- Failures of DMA mapping and of page allocation after the driver has changed its fields: allocation succeeds or fails before any change.
- Ring teardown and the statistics not named above.
- References the stack takes while the page count stands at INT_MAX, or when only so many are left as there are chunks nobody refers to: the first do not fit the count, and after the second a fragment on each of those chunks would leave the refill without a reference.
- `used_buf_states_cnt` without a QPL: the discard does not adjust it, and it is read in QPL mode only.
- Contents of header buffers under out-of-order receive completions.
- A bound on the retries of the compare-and-swap loops: each round is three steps, and a push goes as many rounds as it is disturbed. In TxTagsRing.TagRing.FreePending the sender disturbs it by stealing; every interleaving is in the machine.
- Wrap-around of jiffies: time is an integer that does not go back.
- `dropped_pkt` raised by both threads at once: the increment is one step.
- Admin queue timeouts: the device answers every doorbell.
- `gve_tx_add_skb_no_copy` of the GQI format, XDP descriptor filling and cleaning, AF_XDP receive: they would repeat what is proved of the copy path, or add easy members.
- Bytes copied into bounce buffers and page chunks: for these the addresses and their owners are modelled; contents are modelled for the GQI FIFO.
- Polling.PollingFollowsTheStream: that posted buffers never exceed the ring is the guard of its posting step; RxDqoRuns.CountersAgree proves it of the DQO counters and RxGqiRuns.CountersAgree of the GQI ones, where there is no such guard.
- TxCompl.CompletionRingIsNeverOverrun: for ring sizes below 32 or divisible by 32, which covers the powers of two the driver uses.
- RxDqoProofs.ChunksInBytes: for buffer sizes that divide the page, as the supported ones do.
