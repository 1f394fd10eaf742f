# Verified models of the reactor's stateful components

The library is a reactor in the style of muduo: an event loop per thread, with timers, a loop-level
memory pool, buffered TCP connections and an asynchronous logger. This project models the six
components whose correctness depends on state kept across many calls, and proves what they keep.

| files | component |
|---|---|
| `Blocks.dfy`, `MemPool.dfy` | the loop-level allocator: layouts of blocks as values, then the pool over memory words |
| `TimerOrder.dfy`, `TimerQueue.dfy` | the timer queue: order theory of the heap array, then the indexed heap and the queue |
| `EventLoop.dfy` | pending callbacks, the wake-up counter and the loop, over all interleavings |
| `Buffer.dfy` | the byte buffer and its network-order integers |
| `Connection.dfy`, `TcpConnection.dfy` | the output path and life cycle of a connection, over all interleavings |
| `AsyncLogging.dfy` | double buffering, recycling and overload dropping, over all arrival patterns |
| `PollPoller.dfy` | the dense array of poll entries, its map and the index in each channel |

Every component that updates its fields is a class, and each of its methods is tied to a function of
the old state or, for the concurrent ones, to one step of a state machine. A step is one section that
holds a mutex or one atomic access, so a theorem about all runs is about all interleavings of any
number of threads. malloc, read, write, poll and the clock are parameters or arbitrary choices within
their documented results.

## Where the code does less than one might expect

These are stated and proved, with the exact condition where there is one.

- Cancelling a timer only sifts down, so heap order can break. It survives if and only if the hole is
  the root, the cancelled timer was the last entry, or the moved timer is not earlier than the parent of
  the hole (`RemoveAtOrder`, `StepOrder`); a broken order can hide a due timer
  (`CancellationCanDelayDueTimer`). To miss nothing a drain needs less than heap order: that the parent of
  every due timer is due (`DrainLeavesNoneDue`). A cancellation keeps that if and only if it is in one of
  the first two cases, or the moved timer is not due, or the parent of the hole is
  (`CancelKeepsClosureIff`). The position index, the map from id to timer and the cached deadline are
  right in any order.
- The assertion at the end of a drain holds if and only if the queue was empty or its root was due
  (`DrainAssertion`, `GetExpiredTimers`); `DrainAssertionCanFail` is a queue where it fails.
- The pool's destructor leaves allocated exactly the areas that came from the first-level allocator
  (`MemPool.Destroy`). A call of `allocate` adds one such area exactly if the heap size grows although
  malloc's recorded answer is null (`MemPool.Allocate`), so the destructor returns everything if and only
  if no call did that (`NothingUnrecordedIff`).
- What the loop thread enqueues before or after `Loop()` is not signalled. It finds the loop in poll with
  nothing to wake it if and only if nothing was signalled already and no other thread pushes or quits
  before that poll (`OutsidePushGetsStuckIff`; `OutsidePushCanGetStuck` is a run where it does), and then
  waits until the poll returns for another reason, at the latest its timeout. The next check of the loop
  sees a `Quit` if and only if it was made inside `Loop()` (`QuitIsSeenIff`, `QuitCanBeForgotten`).
- A `Send` enqueued by another thread can be overtaken by the end of the stream (`SendCanBeOvertaken`);
  while the peer is alive it is kept if and only if no step before its turn has ended the stream
  (`PostedSendKeptIff`).
- Destroying a connection fails the assertion that its channel has no interest left if and only if it is
  still disconnecting (`TcpConnection.StepIntoDestroyed`).
- `AsyncLogger::Append` can place a line exactly if it is shorter than a large buffer (`LineFitsIff`). The
  back thread's assertion that the logger runs holds if and only if nobody stops it before the thread
  begins (`BeginAssertIff`, `BeginAssertCanFail`). What is still buffered when it stops is not written (`StoppedHoldsTheRest`). The
  back thread waits while the queue is non-empty, not while it is empty (base/AsyncLogging.cpp:60); the
  model lets it proceed at any time, which covers both.
- A poll entry once muted stays ignored by poll whatever interest is registered later, until the channel
  is removed (`PollPoller.Revise`, `MutedIsNeverReady`). A registered channel meets the assertions of
  removal if and only if it has no interest now and some update since its registration found it without
  interest (`PollPoller.RemovableIff`). Registering it without interest is not enough
  (`FirstRegistration`), and neither is having been muted once (`MuteThenInterest`). A removed channel
  keeps its stale index, so it cannot be registered again.

## Model

| member | source | states |
|---|---|---|
| Blocks.SoundMeaning | base/allocator/mem_pool.cpp:39-158 | in a sound layout live blocks are pairwise disjoint and disjoint from every free block and the bump region, all lie in areas, no byte of an area is lost, and the sizes add up |
| Blocks.FreeMeaning | base/allocator/mem_pool.cpp:39-158 | free blocks are disjoint from each other and from the bump region, and no address is listed twice, on one list or on two |
| Blocks.SplitTiles | base/allocator/mem_pool.cpp:110-119 | cutting a block in two keeps an exact tiling of the areas and the total size |
| Blocks.GrowTiles | base/allocator/mem_pool.cpp:130-133 | a fresh area, disjoint from all others, extends the tiling exactly |
| Blocks.PieceApart | base/allocator/mem_pool.cpp:130-133 | what is apart from all areas is apart from every block inside them |
| Blocks.LooseIsElsewhere | base/allocator/mem_pool.cpp:88-99 | the eight bytes of the link of a block in hand are in no live block and apart from the link of every listed block |
| MemPools.SizeClasses | base/allocator/mem_pool.h:93-108 | rounding gives the least sufficient multiple of 8, every index is in 0..63, and the list of a request holds blocks of exactly the rounded size |
| MemPools.SegmentFrame | base/allocator/mem_pool.cpp:72-74 | a write elsewhere leaves a chain alone |
| MemPools.SegmentSnoc | base/allocator/mem_pool.cpp:92-101 | writing the link at the end of a chain extends it by that node |
| MemPools.StoreKeepsChains | base/allocator/mem_pool.h:86-90 | no byte of a live block is in a free block's link, so clients may write anywhere in their blocks without breaking a free list |
| MemPools.FreshArea | base/allocator/mem_pool.cpp:130-133 | whatever malloc leaves in a fresh area, no chain and no live byte changes |
| MemPools.PushChains | base/allocator/mem_pool.cpp:69-74 | linking a block in at the front keeps all chains intact, null-terminated and on their own list, and none of the eight bytes written is live |
| MemPools.RecordArea | base/allocator/mem_pool.cpp:130-152 | the areas pushed on the recorded list and those that are not are told apart exactly |
| MemPools.LinkStep | base/allocator/mem_pool.cpp:92-101 | one iteration of the linking loop extends one chain by one block, disturbs no other chain and writes no live byte |
| MemPools.SpanIsProduct | base/allocator/mem_pool.cpp:92-101 | the bytes consumed by the linking loop are the size of a block times their number |
| MemPools.PartialBatch | base/allocator/mem_pool.cpp:114-119 | a bump region with room for some blocks gives at least one, at most the batch, and a whole number of them |
| MemPools.MemPool.FileLeftover | base/allocator/mem_pool.cpp:121-126 | the leftover goes to a strictly smaller class, so the list about to be refilled stays empty, and no live byte changes |
| MemPools.MemPool.Scavenge | base/allocator/mem_pool.cpp:139-148 | the front block of the first non-empty list from the class on becomes the bump region, or there is none and nothing changes |
| MemPools.MemPool.Rescue | base/allocator/mem_pool.cpp:150-155 | an area of the first-level allocator becomes the bump region, and the unrecorded areas grow by exactly that area; or nothing changes |
| MemPools.MemPool.TryMalloc | base/allocator/mem_pool.cpp:130-133 | malloc's answer is recorded, null included; an area becomes the bump region and stays recorded |
| MemPools.MemPool.Replenish | base/allocator/mem_pool.cpp:130-155 | malloc is asked first and its answer recorded; only if that is null is a free block taken, from the smallest sufficient class; only if there is none is the first-level allocator asked; only if that has none does the refill fail; the heap grows exactly by what was asked for and given |
| MemPools.MemPool.ServeFromPool | base/allocator/mem_pool.cpp:110-119 | one to n blocks come off the front of the bump region, all n if they fit, and otherwise so many that less than one block is left |
| MemPools.MemPool.ChunkAlloc | base/allocator/mem_pool.cpp:105-158 | with a block's worth in the bump region nobody is asked for memory; otherwise malloc is asked for twice the batch and a sixteenth of the heap, then as for Replenish; at most one nested call, as many contiguous blocks as fit up to n, and another n left when a fresh area was obtained; live blocks and their bytes untouched |
| MemPools.MemPool.LinkRest | base/allocator/mem_pool.cpp:91-101 | the linking loop threads exactly the remaining n-1 blocks in address order and ends the chain with null |
| MemPools.MemPool.Refill | base/allocator/mem_pool.cpp:77-103 | hands out a block that was not live and fills the empty list with the rest of the batch, of which no other list changes; memory is obtained as for ChunkAlloc; no block is lost by overwriting the head |
| MemPools.MemPool.Allocate | base/allocator/mem_pool.cpp:39-59 | exactly one new live block of the rounded size, disjoint from all others by the invariant, and no live byte touched: the front of its list if there is one; else the front of the bump region; else one of what malloc was asked for, or of the smallest sufficient free block, or of what the first-level allocator gave, and it fails if and only if all three had nothing; the unrecorded areas grow, by exactly the area that starts at the block, if and only if the heap grew although malloc failed |
| MemPools.MemPool.Deallocate | base/allocator/mem_pool.cpp:61-75 | the block leaves the live set and becomes the front of the list of its class, nothing else changes |
| MemPools.MemPool.Destroy | base/allocator/mem_pool.cpp:25-33 | what stays allocated are exactly the unrecorded areas, which calls of Allocate account for |
| MemPools.NothingUnrecordedIff | base/allocator/mem_pool.cpp:130-155 | over the life of a pool the destructor returns everything if and only if no call took the branch of line 152 |
| MemPools.Heap.MasterAllocate | base/allocator/mem_pool.h:31-71 | after any number of rounds of the handler, a fresh disjoint area, or the exception of a missing handler with nothing changed; the answer is kept in a history |
| TimerOrder.SiftDownRestoresOrder | TimerQueue.cpp:107-131 | with order broken only below k and the parent of k not later than its children, sifting down restores heap order |
| TimerOrder.SiftDownStaysInSubtree | TimerQueue.cpp:107-131 | sifting down from k moves nothing outside the subtree of k |
| TimerOrder.SiftUpRestoresOrder | TimerQueue.cpp:49-65 | sifting up restores heap order and reaches the root exactly when the timer is strictly earlier than the root |
| TimerOrder.InsertKeepsOrder | TimerQueue.cpp:39-66 | adding keeps heap order, adds exactly that timer, and reports true exactly when it is strictly earlier than all queued ones |
| TimerOrder.RemoveAtContents | TimerQueue.cpp:82-95 | removal takes out exactly the timer at the index |
| TimerOrder.RemoveBreaksOneEdge | TimerQueue.cpp:82-95 | a moved timer earlier than the parent of the hole leaves exactly one edge out of order |
| TimerOrder.RemoveAtOrder | TimerQueue.cpp:68-97 | cancellation keeps heap order if and only if the hole is the root, the timer was last, or the moved timer is not earlier than the parent of the hole |
| TimerOrder.DrainFiresDue | TimerQueue.cpp:263-276 | on any queue only due timers fire, and the drain stops at a root that is not due |
| TimerOrder.DrainConserves | TimerQueue.cpp:263-276 | on any queue the queue left is the old one without the fired timers plus the replacements of the repeating ones |
| TimerOrder.DrainKeepsOrder | TimerQueue.cpp:263-276 | the drain keeps heap order |
| TimerOrder.SiftDownRestoresClosure | TimerQueue.cpp:107-131 | sifting down repairs the closure of the due timers under parents, too |
| TimerOrder.DrainLeavesNoneDue | TimerQueue.cpp:263-276 | if the parent of every due timer is due, as under heap order, the drain leaves nothing due |
| TimerOrder.CancelKeepsClosureIff | TimerQueue.cpp:82-95 | after a cancellation in a heap-ordered queue that holds if and only if the hole was the root, the timer was last, the moved timer is not due, or the parent of the hole is |
| TimerOrder.DrainInOrder | TimerQueue.cpp:263-276 | on a heap-ordered queue timers fire in nondecreasing order of expiration |
| TimerOrder.DrainFiresAllDue | TimerQueue.cpp:263-276 | under the same condition every due timer fires as often as it was queued |
| TimerOrder.DrainAssertion | TimerQueue.cpp:278-280 | for a queue non-empty before and after, the assertion holds if and only if the root was due before the drain |
| TimerOrder.DrainAssertionCanFail | TimerQueue.cpp:278-280 | a heap-ordered queue of one timer where it fails |
| TimerOrder.CancellationCanDelayDueTimer | TimerQueue.cpp:93-95 | a concrete heap-ordered queue where a cancellation makes the next drain miss a due timer |
| TimerQueues.IndexedSizes | TimerQueue.cpp:45 | the array and the position map have the same size |
| TimerQueues.InsertedView | TimerQueue.cpp:39-66 | insertion is a map update, whatever the order |
| TimerQueues.RemovedView | TimerQueue.cpp:68-97 | removal deletes one id from the map, whatever the order |
| TimerQueues.DrainView | TimerQueue.cpp:263-276 | the drain changes the map from id to timer exactly as its fired timers say, and fires none twice |
| TimerQueues.AfterFiringMeaning | TimerQueue.cpp:269-275 | that is: fired timers without interval are gone, fired timers with one are queued under their id for now plus that interval, all others are as they were |
| TimerQueues.FiredAreDue | TimerQueue.cpp:263-276 | under the same condition the fired ids are exactly the due ones |
| TimerQueues.RemoveKeepsRoot | TimerQueue.cpp:225-235 | removal below the root leaves the root, so the cached deadline need not change |
| TimerQueues.StepOrder | TimerQueue.cpp:211-288 | an operation keeps heap order exactly if it is not a cancellation that fails its condition |
| TimerQueues.RunsStayOrdered | TimerQueue.cpp:211-288 | any run whose cancellations meet their condition stays heap-ordered |
| TimerQueues.TimerMinHeap.Add | TimerQueue.cpp:39-66 | array and result are those of insertion, the map gains the timer, the index stays the exact inverse |
| TimerQueues.TimerMinHeap.Adjust | TimerQueue.cpp:107-131 | the loop computes the sift-down and keeps the index the exact inverse |
| TimerQueues.TimerMinHeap.PopMovedTimer | TimerQueue.cpp:138-163 | removes exactly that id |
| TimerQueues.TimerMinHeap.Del | TimerQueue.cpp:68-97 | removes exactly that id, or nothing for an unknown one; true exactly if it was the root |
| TimerQueues.TimerQueue.AddTimerInLoop | TimerQueue.cpp:199-219 | the map gains the timer, and cached deadline and armed descriptor equal the root's expiration |
| TimerQueues.TimerQueue.CancelTimerInLoop | TimerQueue.cpp:225-236 | the map loses the id, and cached deadline and armed descriptor equal the root's expiration or the maximum |
| TimerQueues.TimerQueue.GetExpiredTimers | TimerQueue.cpp:263-288 | terminates; what fires was queued and had expired, once each; fired repeating timers are due again at now plus their interval under the same id, fired one-shot timers are gone, all others are unchanged; if the parent of every due timer is due, exactly the due ones fire, and from a heap-ordered queue in order, leaving a heap-ordered queue; the assertion holds if and only if the queue was empty or its root had expired before the call |
| LoopProtocol.StepKeepsInv | EventLoop.cpp:93-197 | every step of any thread keeps the invariant |
| LoopProtocol.RunsKeepInv | EventLoop.cpp:93-197 | the invariant holds in every state of every interleaving |
| LoopProtocol.NoLostWakeUp | EventLoop.cpp:104-112 | in poll with a callback pending or quit set, the counter is positive or another thread is about to write it |
| LoopProtocol.StuckOnlyByOutsidePush | EventLoop.cpp:153-167 | without the restriction on the loop thread, a stuck loop has only its own pushes from outside Loop pending |
| LoopProtocol.OutsidePushGetsStuckIff | EventLoop.cpp:164-166 | such a push is stuck at the next poll if and only if nothing was signalled and no other thread pushes or quits before it |
| LoopProtocol.OutsidePushCanGetStuck | EventLoop.cpp:164-166 | a run of three steps where it is stuck |
| LoopProtocol.BridgeReadSucceeds | Bridge.cpp:47-54 | the handler of the eventfd never reads an empty counter, and resets it |
| LoopProtocol.CounterCountsWakes | Bridge.cpp:39-54 | the counter is the number of wake-ups written since it was last read, up to its largest value |
| LoopProtocol.PushesAreConserved | EventLoop.cpp:153-189 | executed, rest of the batch and pending are together the sequence of pushes |
| LoopProtocol.RunsInNextDrain | EventLoop.cpp:177-189 | a callback that runs, runs after its push and in the first drain that swaps after it, never in the batch that enqueued it |
| LoopProtocol.DrainRunsFixedBatch | EventLoop.cpp:177-189 | until a drain ends it works on what was pending at its swap and nothing else |
| LoopProtocol.DrainEndsWithBatch | EventLoop.cpp:177-189 | a drain that ends has run exactly that batch |
| LoopProtocol.QuitEndsAfterThisPass | EventLoop.cpp:104-112 | once quit is set inside Loop the loop thread never polls again and swaps at most one more batch |
| LoopProtocol.QuitIsSetIff | EventLoop.cpp:100-197 | in every run quit is set if and only if somebody set it since Loop was last entered |
| LoopProtocol.LoopIsLeftIff | EventLoop.cpp:104-113 | the check of the loop leads on to poll, or out of the loop if and only if somebody set quit since it was last entered |
| LoopProtocol.OnlyCheckLeaves | EventLoop.cpp:104-113 | nothing but that check leaves the loop |
| LoopProtocol.QuitIsSeenIff | EventLoop.cpp:99-104 | the next check of the loop sees a quit if and only if it was made inside Loop |
| LoopProtocol.QuitCanBeForgotten | EventLoop.cpp:99-100 | a run where a quit made before Loop is lost and the loop polls |
| LoopProtocol.NothingRunsOutside | EventLoop.cpp:104-114 | what is pending when Loop is left stays pending until it is entered again |
| EventLoops.EventLoop.EnqueueEventLoop | EventLoop.cpp:153-167 | the push, and whether a wake-up is due |
| EventLoops.EventLoop.RunInEventLoop | EventLoop.cpp:169-175 | at once on the loop thread, queued otherwise |
| EventLoops.EventLoop.Quit | EventLoop.cpp:191-197 | sets quit; another thread then owes a wake-up |
| EventLoops.EventLoop.WakeUp | Bridge.cpp:39-45 | one more on the counter unless it is full |
| EventLoops.EventLoop.HandleWakeUpFdRead | Bridge.cpp:47-54 | reads a positive count and resets it |
| EventLoops.EventLoop.HandlePendingCallbacks | EventLoop.cpp:177-189 | whatever other threads do before and after the swap and the callbacks do, runs exactly what is pending at the swap, leaves exactly what was pushed after it, and is a path of the machine through that swap |
| Buffers.DecodeEncode | Buffer.h:142-203 | big-endian bytes decode to the number they encode |
| Buffers.EncodeDecode | Buffer.h:142-203 | and every byte string is the encoding of its value |
| Buffers.DecodeFirst | Buffer.h:142-203 | the first byte carries the highest weight, the network order of Appendix B of RFC 791 |
| Buffers.IntRoundTrip | Buffer.h:142-239 | a two's-complement integer of any width survives append and read |
| Buffers.BytesRoundTrip | Buffer.h:170-203 | reading is injective: the bytes are those of the integer read, which is in range |
| Buffers.FieldsRoundTrip | Buffer.h:142-239 | any run of integer appends of mixed widths is undone by the matching reads, whatever follows |
| Buffers.Buffer.Retrieve | Buffer.h:57-69 | drops from the front of the readable bytes; dropping all moves back to the start |
| Buffers.Buffer.RetrieveAsString | Buffer.h:71-76 | the result followed by what remains is what was readable |
| Buffers.Buffer.MoveDown | Buffer.h:293-296 | the overlapping forward copy moves the bytes unchanged |
| Buffers.Buffer.BroadenSpace | Buffer.h:287-301 | makes room and keeps the readable bytes: by moving them down if and only if that gives enough room, by growing otherwise |
| Buffers.Buffer.Append | Buffer.h:89-93 | adds at the back, keeping everything before |
| Buffers.Buffer.Prepend | Buffer.h:108-113 | adds at the front |
| Buffers.Buffer.ReadFd | Buffer.cpp:8-30 | appends exactly the bytes read, also when they spill into the second buffer; a failed read changes nothing |
| Buffers.Buffer.AppendInt | Buffer.h:142-164 | adds the network-order bytes of the integer |
| Buffers.Buffer.ReadInt | Buffer.h:209-239 | removes exactly the bytes of the integer it returns |
| Connection.PayloadWholeOrAbsent | TcpConnection.cpp:170-212 | a payload enters the stream whole or not at all, and stays out exactly when the connection is gone or a direct write reports the peer gone |
| Connection.SendCountsExactly | TcpConnection.cpp:180-207 | a direct write counts exactly the bytes write returned, and only the rest is buffered; otherwise nothing is written |
| Connection.SentIsAccepted | TcpConnection.cpp:109-138 | in every run the bytes sent are the first n of what was offered, for each write that returned n, and nothing else |
| Connection.QueueGains | TcpConnection.cpp:115-119 | a step enqueues the write-complete callback exactly if a write took all it was offered, and the high-water callback exactly if the buffer crossed its mark |
| Connection.CheckedSendIsHeld | TcpConnection.cpp:156-165 | what another thread's Send finds connected is what it posts |
| Connection.LogFlows | TcpConnection.cpp:156-178 | a payload reaches SendInLoop only from the front of the queue or from a Send on the loop thread while connected |
| Connection.QueueFlows | TcpConnection.cpp:161-165 | a payload enters the queue only by a post and leaves it only by being run |
| Connection.EachPayloadOnce | TcpConnection.cpp:156-178 | in every run each payload given to the loop waits or has reached SendInLoop, as often as it was given |
| Connection.LateSendsAreIgnored | TcpConnection.cpp:140-157 | once the connection has left the connected state, a Send whose check comes later gives the loop nothing |
| Connection.StepLifeCycle | TcpConnection.cpp:58-154 | exactly which steps change the state, and which shut the write half down |
| Connection.StepKeepsInv | TcpConnection.cpp:58-212 | every step keeps conservation, write interest, and the shutdown clauses |
| Connection.RunsKeepInv | TcpConnection.cpp:58-212 | in every run: bytes accepted by the socket plus bytes buffered are the kept payloads in order; the channel wants writing exactly when data is buffered; a shutdown is never forgotten |
| Connection.RunsMoveForward | TcpConnection.cpp:58-85 | the state never moves backwards, the stream only grows, and not at all after a write-shutdown |
| Connection.ShutdownIsGraceful | TcpConnection.cpp:115-122 | the write half of a live connection is shut only when disconnecting and after every kept byte was accepted |
| Connection.QueuedSendKeptIff | TcpConnection.cpp:161-177 | while the peer is alive a queued payload is kept exactly when the connection is there and its write half is open at its turn |
| Connection.PostedSendKeptIff | TcpConnection.cpp:156-177 | a payload posted by another thread keeps its place in the queue, and at its turn is kept if and only if no earlier step closed or destroyed the connection, drained it while disconnecting, or ran a shutdown with nothing armed |
| Connection.EndedIff | TcpConnection.cpp:67-154 | these are exactly the steps that end the stream |
| Connection.SendHereKept | TcpConnection.cpp:156-159 | a payload sent on the loop thread of a connected connection is kept while the peer is alive |
| Connection.SendCanBeOvertaken | TcpConnection.cpp:109-145 | from every connected state with unsent data and an idle loop, a Send made before Shutdown can be refused |
| Connection.DrainShuts | TcpConnection.cpp:113-122 | the write that drains a disconnecting connection shuts its write half, whatever is queued |
| Connection.UnsentDataIsReachable | TcpConnection.cpp:180-211 | such a state is reached whatever callbacks are set |
| TcpConnections.TcpConnection.SendInLoop | TcpConnection.cpp:170-212 | the method over the real buffer is that step of the machine |
| TcpConnections.TcpConnection.HandleWrite | TcpConnection.cpp:109-138 | writes a prefix of the buffer, and on draining it drops write interest and carries out a deferred shutdown |
| TcpConnections.TcpConnection.SendCheck | TcpConnection.cpp:156-161 | the check of another thread's Send |
| TcpConnections.TcpConnection.ShutdownHere | TcpConnection.cpp:140-154 | compare-and-swap, then the shutdown or its deferral |
| TcpConnections.TcpConnection.ShutdownSet | TcpConnection.cpp:140-145 | another thread's compare-and-swap, with the enqueueing still to come |
| TcpConnections.TcpConnection.HandleClose | TcpConnection.cpp:79-85 | all interest is dropped and the state is final |
| TcpConnections.TcpConnection.HandleRead | TcpConnection.cpp:94-107 | appends what was read to the input buffer; end of file closes; the output path is untouched |
| TcpConnections.TcpConnection.StepIntoDestroyed | TcpConnection.cpp:67-77 | a connected connection is disconnected, any other is left; the assertion that its channel has no interest fails if and only if it is still disconnecting |
| LoggerProtocol.LineFitsIff | base/AsyncLogging.cpp:24-36 | a line can be placed if and only if it is shorter than a large buffer |
| LoggerProtocol.RotatesIff | base/AsyncLogging.cpp:24-39 | an append leaves the full buffers alone if and only if the current one has room for the line, and otherwise adds exactly the current one to them |
| LoggerProtocol.BuffersAreDense | base/AsyncLogging.cpp:22-41 | in every run with lines shorter than a buffer any two neighbouring buffers hold at least a buffer's worth together |
| LoggerProtocol.BuffersSinceTake | base/AsyncLogging.cpp:22-69 | the buffers hold exactly the bytes appended since the last hand-over |
| LoggerProtocol.OverloadNeedsBytes | base/AsyncLogging.cpp:73-84 | a batch that loses buffers takes at least 13 buffers' worth of bytes since the previous hand-over |
| LoggerProtocol.AppendAddsLine | base/AsyncLogging.cpp:22-41 | whether or not buffers rotate, the shared buffers gain the line at the end |
| LoggerProtocol.StepKeepsShape | base/AsyncLogging.cpp:52-109 | recycling never runs dry: a missing spare implies full buffers, and both spares are back and empty at each loop head |
| LoggerProtocol.StepKeepsInv | base/AsyncLogging.cpp:22-110 | every step keeps the invariant and meets its asserts |
| LoggerProtocol.RunsKeepInv | base/AsyncLogging.cpp:22-110 | in every run: what left the logger, the rest of the batch, what is doomed, the full buffers and the current one are together all appended bytes, in order |
| LoggerProtocol.AssertsNeverFail | base/AsyncLogging.cpp:53-103 | no assert of the loop or of Append fails and no null buffer is used, for lines shorter than a buffer |
| LoggerProtocol.StoppedHoldsTheRest | base/AsyncLogging.cpp:52-112 | without a back thread, what was not handed over is still in the full buffers and the current one |
| LoggerProtocol.BatchFate | base/AsyncLogging.cpp:63-88 | a batch is written whole and in order; one of more than 25 buffers yields a notice and loses exactly those after its first two |
| LoggerProtocol.SmallBatchFate | base/AsyncLogging.cpp:73-88 | up to 25 buffers: all of them and no notice |
| LoggerProtocol.LargeBatchFate | base/AsyncLogging.cpp:73-88 | more: a notice of all but two, then the first two |
| LoggerProtocol.FateBytes | base/AsyncLogging.cpp:73-88 | either way all bytes of the batch leave the logger, in order, as written or as lost |
| LoggerProtocol.NothingLostWithoutOverload | base/AsyncLogging.cpp:73-88 | without such a batch the log file, the batch and the buffers are everything appended, in order |
| LoggerProtocol.BeginAssertIff | base/AsyncLogging.cpp:44 | the assert at the start of the back thread holds if and only if nobody stopped the logger in between |
| LoggerProtocol.BeginAssertCanFail | base/AsyncLogging.cpp:44 | a run of three steps where it fails |
| LoggerProtocol.RunningIff | base/AsyncLogging.h:24-43 | the logger runs exactly if it was started and not stopped since |
| LoggerProtocol.BackThreadEndsIff | base/AsyncLogging.cpp:52 | the check of the back thread ends it if and only if the logger was stopped, and otherwise leads to another batch |
| LoggerProtocol.StopEndsAfterThisPass | base/AsyncLogging.cpp:52-111 | once stopped, the back thread only moves on to its end, and takes a batch only if it was already waiting for one |
| AsyncLoggers.AsyncLogger.Append | base/AsyncLogging.cpp:22-41 | the critical section of a producer; the full buffers stay as they are if and only if the line fits |
| AsyncLoggers.AsyncLogger.TakeBatch | base/AsyncLogging.cpp:57-69 | the critical section of the back thread |
| AsyncLoggers.AsyncLogger.DropOverload | base/AsyncLogging.cpp:73-84 | notice first, then all but two buffers are dropped |
| AsyncLoggers.AsyncLogger.RecycleBuffers | base/AsyncLogging.cpp:90-109 | the batch cut to two always has the buffers that the spares need |
| AsyncLoggers.AsyncLogger.Pass | base/AsyncLogging.cpp:57-109 | a whole iteration, with lines arriving during the writes, gives the batch its fate and ends at the loop head with the invariant |
| PollPollers.DecodeEncode | poller/PollPoller.cpp:55 | the negative encoding is invertible and never a valid descriptor |
| PollPollers.BijectionIsInjective | poller/PollPoller.cpp:26-58 | decoded descriptors are distinct |
| PollPollers.SwapRemoveKeepsBijection | poller/PollPoller.cpp:73-88 | removal by swapping with the last entry keeps entries and registered descriptors in bijection |
| PollPollers.SwapRemoveKeepsIgnored | poller/PollPoller.cpp:73-88 | and keeps exactly the muted descriptors encoded |
| PollPollers.SwapRemovedContents | poller/PollPoller.cpp:73-88 | exactly the removed entry goes, and every other entry is kept whole |
| PollPollers.SwapRemovedEntries | poller/PollPoller.cpp:73-88 | every descriptor that stays keeps its entry |
| PollPollers.SwapRemoveKeepsInterested | poller/PollPoller.cpp:73-88 | every remaining entry holds the interest last given for its descriptor |
| PollPollers.ReadyMember | poller/PollPoller.cpp:91-109 | the ready entries are exactly those with events |
| PollPollers.ReadyDistinct | poller/PollPoller.cpp:91-109 | no descriptor is listed twice |
| PollPollers.ReadyFound | poller/PollPoller.cpp:92-96 | stopping the scan early misses nothing when the announced number is true |
| PollPollers.MutedIsNeverReady | poller/PollPoller.cpp:46-56 | a muted channel is never reported, whatever it registers later |
| PollPollers.PollPoller.UpdateChannel | poller/PollPoller.cpp:26-58 | appends a new entry, or rewrites one without ever undoing the encoding; afterwards entries and channels are in bijection and every entry holds the interest last given |
| PollPollers.PollPoller.RemovableIff | poller/PollPoller.cpp:63-67 | the assertions of removal hold if and only if the channel has no interest now and some update since registration found none |
| PollPollers.MuteThenInterest | poller/PollPoller.cpp:39-57 | a channel muted and then given interest keeps its muted entry and does not meet them |
| PollPollers.FirstRegistration | poller/PollPoller.cpp:29-41 | after its first registration no channel meets that assertion |
| PollPollers.PollPoller.RemoveChannel | poller/PollPoller.cpp:60-89 | exactly the entry of the channel goes; the last entry takes its place whole, and its channel is told its new index; the removed channel keeps its own; every remaining entry holds the interest last given |
| PollPollers.PollPoller.FillActiveChannels | poller/PollPoller.cpp:91-109 | lists the channels of the first n ready entries in order, gives each its events, and touches no other |

## Left out

- Integer overflow of sizes, indices and times: sizes and times are unbounded integers; `TimePoint_t::max()` is only the sentinel of an empty queue.
- TimerQueues.TimerQueue.GetExpiredTimers: one clock value per drain, where the code reads the clock at every iteration; intervals are not negative.
- Running the fired timer callbacks, and the expiry of the timer descriptor itself.
- Request sizes above 512 bytes, which pass through to malloc and free, and of 0 bytes, for which the list index underflows.
- MemPools.Heap.MasterAllocate: a handler that is never removed and never frees enough makes the code loop forever, which the model does not; what a handler does is not modelled beyond leaving the areas of others alone.
- The members of C++ object lifetime: shared and weak pointers, moved-from objects, `Channel::Tie`, placement in the pool.
- Log buffers are values, not objects: each is owned by one pointer, so there is no aliasing to capture; the memory they are recycled in is not modelled beyond being empty again.
- Formatting and rolling of log files, the text of the notice, flushing.
- Buffers.Buffer.AppendInt: the four widths are one member with the width 1, 2, 4 or 8 as a parameter; so are reading, peeking and prepending.
- Closing a connection twice, which its assertion excludes, and what follows a failed assertion.
- User callbacks of a connection are separate steps of the machine, not calls inside a handler.
- The assertion of `Quit` that quit is not yet set (EventLoop.cpp:192): two threads can both pass it, so the model lets `Quit` repeat.
- The handlers of active channels other than the eventfd's: they are the pushes and quits of the loop thread between poll and drain.
- Starting the logger again while its previous back thread has not ended.
- The order of active channels when the library is built with the memory pool, which pushes to the front.
- Registering a channel again after its removal: its stale index violates the assertions of the source.
- Fairness, timeouts, liveness and weak memory order: steps are sequentially consistent and the results are about safety.
- Connector, acceptor, client, server, thread pools, addresses and sockets.
