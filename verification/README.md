# Models and proofs for the inline code of libhv 1.3.0

The repository vendors libhv 1.3.0, an event-driven networking library whose headers carry full
inline implementations of byte buffers, pools, event loops, a server's accept path and protocol
writers. This project models those inline bodies in Dafny and proves what they are for. Whatever a
header only declares is environment and appears as a parameter or as an arbitrary step.

| file | models |
|---|---|
| `RingBuf.dfy` | `HRingBuf`, the FIFO allocator with its hidden end gap (`hbuf.h`) |
| `VLBuf.dfy` | `HVLBuf`, the growable byte deque (`hbuf.h`) |
| `ThreadPool.dfy` | `HThreadPool` as atomic steps of clients and workers (`hthreadpool.h`) |
| `ThreadPoolLocks.dfy`, `ThreadPoolEntries.dfy`, `ThreadPoolCounts.dfy`, `ThreadPoolTasks.dfy` | what every one of those steps keeps |
| `ThreadPoolTheorems.dfy`, `ThreadPoolBounds.dfy`, `ThreadPoolWait.dfy` | what holds in every run, and in runs whose calls keep to a rule |
| `ThreadPoolRuns.dfy`, `ThreadPoolStage.dfy`, `ThreadPoolEarly.dfy`, `ThreadPoolLate.dfy`, `ThreadPoolCrowd.dfy` | concrete runs: two in which `wait` returns early, and one that overshoots the maximum |
| `ThreadPoolVerdict.dfy` | exactly when `wait` can be relied on |
| `ThreadPoolAlone.dfy`, `ThreadPoolRound.dfy` | the effect of a whole call of a client, and of a whole round of a worker, when nobody else moves |
| `ThreadPoolService.dfy` | which tasks find a worker, and what a paused pool still starts |
| `EventPosting.dfy` | the two-phase cross-thread post of `EventLoop` (`EventLoop.h`) |
| `Timers.dfy` | the timer table of `EventLoop` with re-entrant callbacks (`EventLoop.h`) |
| `TcpServer.dfy` | check-then-add admission and per-loop connection counts (`TcpServer.h`) |
| `LoadBalance.dfy` | `nextLoop`, round robin and least connections (`EventLoopThreadPool.h`) |
| `ObjectPool.dfy` | `HObjectPool` (`hobjectpool.h`) |
| `ResponseWriter.dfy` | `HttpResponseWriter` (`HttpResponseWriter.h`) |
| `ResponseRuns.dfy` | what it puts on a connection from one Begin on, however it was used before |
| `Chunked.dfy`, `EventStream.dfy` | what it prints, and independent parsers for it (section 7.1 of RFC 9112; section 9.2.6 of the HTML Standard) |
| `HMath.dfy` | varints and powers of two (`hmath.h`) |
| `Reconnect.dfy` | reconnect backoff and the client cycle (`hloop.h`, `TcpClient.h`) |
| `Wrappers.dfy`, `Counting.dfy` | an option type, bytes, counting in sequences |

Two forms recur. An object used by one thread at a time is a class with the original's fields;
its methods are proved against functions on values, and the promises are lemmas about those
functions and about whole runs of calls. Code that several threads run at once is a step function
on a state; a run is any schedule of steps, and the promises hold after every schedule.

The step functions carry the branches of the source, one step per access to a shared variable or
mutex operation:

| step function | source |
|---|---|
| `ThreadPool.WorkerMove` | `hthreadpool.h` lines 151-183 and 199-219, one program counter per line |
| `ThreadPool.ClientMove` | `hthreadpool.h` lines 70-197 |
| `EventPosting.Step` | `EventLoop.h` lines 176-188 and 216-225 |
| `Timers.Act`, `Timers.Do` | `EventLoop.h` lines 90-146 and 195-214 |
| `TcpServer.Step` | `TcpServer.h` lines 132-150 and 177-236 |
| `LoadBalance.Step` | `EventLoopThreadPool.h` lines 40-45, `TcpServer.h` lines 206 and 234, one counter access a step |
| `ObjectPool.Step` | `hobjectpool.h` lines 50-132 |
| `RingBuf.AllocStep`, `RingBuf.FreeStep` | `hbuf.h` lines 210-244 |
| `Reconnect.Step` | `TcpClient.h` lines 87-169 |

Places where the code does not do what one would expect are results here, each with its exact
condition:

- `wait` leaving its loop while a task still runs (`WaitIsSoundIff`)
- the maximum of the thread pool overshot by racing clients (`MaximumIsKeptIffOneCommitter`)
- a committed task left without a worker (`NoTaskIsStrandedIff`)
- the admission limit overshot by racing loops (`LimitIsExactIffOneLoop`)
- rejected connections that stay in their loop's counter (`CountsLiveIffNoneRejected`, `NoneRejectedIffFewLive`)
- connections that close while the balancer is choosing (`ShareIsKeptIffNoOverlap`, `PeakRisesOnlyOnTiesIffNoOverlap`)
- `Clear` on a pool with objects lent out (`CountIsExactIffNothingWasOut`)
- the header block printed twice (`HeadWrittenOnceIffNotRepeated`)
- chunked bodies without a chunk, or with an empty one in the middle (`ChunkedBodyIsCompleteIffNoneEmpty`)
- body bytes buffered and then lost (`BufferedWriteIsLostIff`, `BodyArrivesIffNotSplit`)
- events with line ends in them (`ReadsBackIffLines`)
- a repeat of 0 turning infinite (`ZeroIsInfiniteIffItFiredFirst`)
- reconnect delays that wrap (`PromiseHoldsIffNoHarmfulWrap`)
- a reconnect that starts after the user has closed (`ClosedStaysDownIffNothingPending`)
- a reconnect cycle that ends for good because no socket could be made (`NeverDownIffSocketsMade`)
- an encoder loop that never ends on negative values (`EncodingEndsIffNonNegative`)

## Model

| member | source | states |
|---|---|---|
| `RingBuf.AllocKeepsLayout` | libhvDemo/header/include/libhv_1.3.0/hv/hbuf.h:210-233 | A served request becomes the newest live block of a layout that is either straight or wrapped once behind a gap; a refused request changes nothing. |
| `RingBuf.FreeKeepsLayout` | libhvDemo/header/include/libhv_1.3.0/hv/hbuf.h:235-244 | Freeing with the length of the oldest block leaves exactly the younger blocks, unmoved, also when the free crosses the hidden end gap. |
| `RingBuf.LayoutIsSafe` | libhvDemo/header/include/libhv_1.3.0/hv/hbuf.h:210-244 | What the layout means: live blocks inside the buffer, pairwise disjoint, `_size` the sum of their lengths. |
| `RingBuf.EveryRunIsSafe` | libhvDemo/header/include/libhv_1.3.0/hv/hbuf.h:207-246 | The same for every history of alloc, free oldest first, and clear, for every capacity. |
| `RingBuf.FragmentationBound` | libhvDemo/header/include/libhv_1.3.0/hv/hbuf.h:210-233 | With no live or requested block longer than m, NULL is returned only when at most 2m - 2 bytes are unallocated. |
| `RingBuf.FragmentationBoundIsTight` | libhvDemo/header/include/libhv_1.3.0/hv/hbuf.h:210-244 | For every m > 1 a run reaches that bound exactly, so it cannot be improved. |
| `RingBuf.EmptyRingServesHalf` | libhvDemo/header/include/libhv_1.3.0/hv/hbuf.h:212-223 | An empty ring serves a request iff it fits on one side of its head, hence every request with 2 * len <= capacity + 1. |
| `RingBuf.HRingBuf.constructor` | libhvDemo/header/include/libhv_1.3.0/hv/hbuf.h:207 | An empty queue of blocks. |
| `RingBuf.HRingBuf.Alloc` | libhvDemo/header/include/libhv_1.3.0/hv/hbuf.h:210-233 | The ring as a FIFO queue of byte blocks: a served request appends one block, a refused one leaves the queue alone. |
| `RingBuf.HRingBuf.Free` | libhvDemo/header/include/libhv_1.3.0/hv/hbuf.h:235-244 | The queue loses its oldest block, and every other block keeps its bytes. |
| `RingBuf.HRingBuf.Fill` | libhvDemo/header/include/libhv_1.3.0/hv/hbuf.h:210-233 | Bytes a caller writes through the pointer it was given change its own block and no other live one. |
| `RingBuf.HRingBuf.Clear` | libhvDemo/header/include/libhv_1.3.0/hv/hbuf.h:246-246 | Back to the empty queue. |
| `VLBuf.GrowthIsBounded` | libhvDemo/header/include/libhv_1.3.0/hv/hbuf.h:128-157 | Over every run of pushes, pops and clears: capacity at most max(initial, 2 * peak size), and all reallocations together copy at most the final capacity minus the initial one. |
| `VLBuf.MoveWithin` | libhvDemo/header/include/libhv_1.3.0/hv/hbuf.h:134-138 | memmove between overlapping ranges in either direction: the destination gets the old source bytes, all others stay. |
| `VLBuf.HVLBuf.constructor` | libhvDemo/header/include/libhv_1.3.0/hv/hbuf.h:122 | An empty sequence in a buffer of the given capacity. |
| `VLBuf.HVLBuf.Resize` | libhvDemo/header/include/libhv_1.3.0/hv/hbuf.h:91-102 | The new buffer begins with the bytes of the old one, as many as fit; contents that fit are kept. |
| `VLBuf.HVLBuf.PushFront` | libhvDemo/header/include/libhv_1.3.0/hv/hbuf.h:128-143 | The contents become data + contents, through reallocation and the slide to the end; the room changes as the growth function says. |
| `VLBuf.HVLBuf.PushBack` | libhvDemo/header/include/libhv_1.3.0/hv/hbuf.h:145-157 | The contents become contents + data, through reallocation and the slide to the start. |
| `VLBuf.HVLBuf.PopFront` | libhvDemo/header/include/libhv_1.3.0/hv/hbuf.h:159-168 | Reads out and drops the first len bytes; with fewer there, nothing happens. |
| `VLBuf.HVLBuf.PopBack` | libhvDemo/header/include/libhv_1.3.0/hv/hbuf.h:170-177 | Reads out and drops the last len bytes; with fewer there, nothing happens. |
| `VLBuf.HVLBuf.Clear` | libhvDemo/header/include/libhv_1.3.0/hv/hbuf.h:179-181 | The contents become empty, the capacity stays. |
| `ThreadPoolLocks.StepKeepsLocks` | libhvDemo/header/include/libhv_1.3.0/hv/hthreadpool.h:138-219 | Every atomic step keeps: each mutex is held by exactly the actor whose program counter is between its lock and unlock. |
| `ThreadPoolEntries.StepKeepsEntries` | libhvDemo/header/include/libhv_1.3.0/hv/hthreadpool.h:81-94 | Every atomic step keeps the invariant of the `threads` list: one entry per worker that has not ended, entries marked STOP only for workers past marking, and what stop() has joined so far. |
| `ThreadPoolEntries.JoinIsSafe` | libhvDemo/header/include/libhv_1.3.0/hv/hthreadpool.h:204-217 | In any state meeting the invariant, a worker about to join holds both mutexes and joins another worker that has released every lock and is on its last line or gone. |
| `ThreadPoolTheorems.JoinsAreSafe` | libhvDemo/header/include/libhv_1.3.0/hv/hthreadpool.h:204-217 | The same in every run of any number of clients. |
| `ThreadPoolTheorems.WaitsGoDown` | libhvDemo/header/include/libhv_1.3.0/hv/hthreadpool.h:159-219 | Whoever a blocked actor waits for is active and strictly less deep in the order join by stop(), task_mutex, thread_mutex, join by delThread. |
| `ThreadPoolTheorems.NoDeadlock` | libhvDemo/header/include/libhv_1.3.0/hv/hthreadpool.h:159-219 | In every run, each actor blocked on a mutex or a join is blocked, through a finite chain, on an actor whose next step is possible and takes it to another line, unless it spins in a pause. |
| `ThreadPoolCounts.StepKeepsBalanced` | libhvDemo/header/include/libhv_1.3.0/hv/hthreadpool.h:171-204 | Every atomic step keeps idle_thread_num + busy workers = cur_thread_num - half-finished addThread + half-finished delThread, except between the two resets of stop(). |
| `ThreadPoolCounts.OneHalfDone` | libhvDemo/header/include/libhv_1.3.0/hv/hthreadpool.h:185-219 | thread_mutex lets at most one addThread or delThread be half done. |
| `ThreadPoolTheorems.CountersBalance` | libhvDemo/header/include/libhv_1.3.0/hv/hthreadpool.h:171-204 | Both together, in every run. |
| `ThreadPoolTheorems.ThreadsNeverTooFew` | libhvDemo/header/include/libhv_1.3.0/hv/hthreadpool.h:70-79 | In every run, whatever the limits and whoever else is in start(): from the step in which any start() finishes until a stop() resets it, cur_thread_num is at least min (max if max is smaller), and so it is whenever the pool is not stopped and nobody is inside start(). |
| `ThreadPoolBounds.ThreadsNeverTooMany` | libhvDemo/header/include/libhv_1.3.0/hv/hthreadpool.h:129-150 | In every run in which m clients call commit or start, cur_thread_num is at most max + m - 1 (0 for m or max 0), however many others wait, pause or stop. |
| `ThreadPoolCrowd.MostThreadsAreReached` | libhvDemo/header/include/libhv_1.3.0/hv/hthreadpool.h:70-79 | For all limits and every m a run reaches that bound exactly. |
| `ThreadPoolCrowd.MaximumIsKeptIffOneCommitter` | libhvDemo/header/include/libhv_1.3.0/hv/hthreadpool.h:129-150 | max itself is kept in every run iff at most one client ever commits or starts, or max is 0. |
| `ThreadPoolBounds.OrderlyKeepsMax` | libhvDemo/header/include/libhv_1.3.0/hv/hthreadpool.h:129-150 | cur_thread_num never exceeds max when calls of commit and start come one at a time, or when max <= min and commits overlap each other once the pool is fully started; whatever other clients do meanwhile. |
| `ThreadPoolBounds.OneCommitterKeepsMax` | libhvDemo/header/include/libhv_1.3.0/hv/hthreadpool.h:129-150 | In particular with calls of commit and start one at a time, whoever makes them. |
| `ThreadPoolTheorems.TasksAreConserved` | libhvDemo/header/include/libhv_1.3.0/hv/hthreadpool.h:134-178 | In every run each committed task is in exactly one of three places (queued, held by exactly one worker, finished), and tasks start in commit order. |
| `ThreadPoolTheorems.StopLeavesNothingRunning` | libhvDemo/header/include/libhv_1.3.0/hv/hthreadpool.h:81-94 | When stop() returns all workers have ended, every started task is finished, the list and both counters are reset, and the unstarted tasks are still queued in commit order. |
| `ThreadPoolWait.StepKeepsSteady` | libhvDemo/header/include/libhv_1.3.0/hv/hthreadpool.h:110-118 | Every step keeps what a waiting client has read meaningful: the queue it saw empty stays empty; an idle count read first and the busy workers together are at most the thread count, and a thread count read first is still the thread count, unless nobody is busy. |
| `ThreadPoolWait.WaitMeansDone` | libhvDemo/header/include/libhv_1.3.0/hv/hthreadpool.h:110-118 | With max <= min or max <= 1 and no commit overlapping it, wait() leaving its loop by break means that every committed task is finished: for either order in which line 112 reads the two counters while no start() overlaps it, and with start() overlapping it if idle_thread_num is read first. |
| `ThreadPoolEarly.WaitCanLeaveEarly` | libhvDemo/header/include/libhv_1.3.0/hv/hthreadpool.h:110-118 | For all other limits a run, even with nothing overlapping wait() and idle_thread_num read first, that breaks while a task runs: a worker half way through delThread makes up for the busy one. |
| `ThreadPoolLate.WaitCanMissAStart` | libhvDemo/header/include/libhv_1.3.0/hv/hthreadpool.h:110-118 | For every max > 0 a run with a start() overlapping a wait() that reads cur_thread_num first and breaks while a task runs: the start() counts one more idle worker between the two reads. |
| `ThreadPoolVerdict.WaitIsSoundIff` | libhvDemo/header/include/libhv_1.3.0/hv/hthreadpool.h:110-118 | Both directions, no commit overlapping: wait() can be relied on iff max <= min or max <= 1, and moreover max is 0, or no start() overlaps it, or cur_thread_num is never read first. |
| `ThreadPoolAlone.CommitAlone` | libhvDemo/header/include/libhv_1.3.0/hv/hthreadpool.h:128-152 | The effect of a whole commit from any state with both mutexes free, only its client moving: the task is queued last, a stopped pool is started, and there is one worker more, launched, counted, idle and listed, iff 0 <= idle_thread_num <= tasks queued before and cur_thread_num < max; nothing else changes. |
| `ThreadPoolAlone.StartAlone` | libhvDemo/header/include/libhv_1.3.0/hv/hthreadpool.h:70-79 | The same for start: nothing on a started pool; else it is running, with as many new workers as wanted, at least min and at most max, that there is room for. |
| `ThreadPoolAlone.PauseAlone` | libhvDemo/header/include/libhv_1.3.0/hv/hthreadpool.h:96-101 | pause ends in PAUSE iff the pool was RUNNING, and changes nothing else. |
| `ThreadPoolAlone.ResumeAlone` | libhvDemo/header/include/libhv_1.3.0/hv/hthreadpool.h:103-108 | resume ends in RUNNING iff the pool was paused, and changes nothing else. |
| `ThreadPoolAlone.WaitAlone` | libhvDemo/header/include/libhv_1.3.0/hv/hthreadpool.h:110-118 | wait changes nothing, and comes back iff the pool is stopped, or the queue is empty and idle_thread_num == cur_thread_num; otherwise it loops for ever. |
| `ThreadPoolRound.TaskRound` | libhvDemo/header/include/libhv_1.3.0/hv/hthreadpool.h:152-178 | A whole round of a worker, only it moving: with a task queued it runs the oldest one and no other, and the counters end as they were. |
| `ThreadPoolRound.IdleRound` | libhvDemo/header/include/libhv_1.3.0/hv/hthreadpool.h:159-170 | Without a task for its whole time and with at most min threads a round changes nothing. |
| `ThreadPoolRound.RetireRound` | libhvDemo/header/include/libhv_1.3.0/hv/hthreadpool.h:164-219 | With more than min threads the worker ends: both counters are one less, its list entry is marked with the time, and exactly the entries marked in an earlier second are joined and erased. |
| `ThreadPoolService.CommitLeavesAWorker` | libhvDemo/header/include/libhv_1.3.0/hv/hthreadpool.h:128-152 | In every run with max > 0, a commit that nothing overlaps leaves its task queued and the pool with a worker that is not on its way out, whatever min. |
| `ThreadPoolService.NoTaskIsStrandedIff` | libhvDemo/header/include/libhv_1.3.0/hv/hthreadpool.h:130-169 | In all runs a task queued in a started pool, nobody being inside start(), finds a worker iff neither min nor max is 0. |
| `ThreadPoolService.RetirementStrands` | libhvDemo/header/include/libhv_1.3.0/hv/hthreadpool.h:130-169 | The run that shows it for min 0: the only worker retires after a commit has counted it idle and before it pushes. |
| `ThreadPoolService.StopEndsDown` | libhvDemo/header/include/libhv_1.3.0/hv/hthreadpool.h:81-94 | In every run, whenever a call of stop() ends, also one that found the pool stopped: the status is STOP, all workers have ended, and both counters are 0. |
| `ThreadPoolService.PausedPoolStartsNoMore` | libhvDemo/header/include/libhv_1.3.0/hv/hthreadpool.h:153-155 | While a pool stays paused, whatever is committed, it starts at most one task for each worker that was past the spin when the pause began. |
| `EventPosting.FrontIsThere` | libhvDemo/header/include/libhv_1.3.0/hv/EventLoop.h:216-225 | A delivery never finds customEvents empty. |
| `EventPosting.StepKeepsInv` | libhvDemo/header/include/libhv_1.3.0/hv/EventLoop.h:176-225 | Every step of any poster or the loop keeps: queue length = undelivered wakeups + posters between push and post, and executed + queued = pushed. |
| `EventPosting.QueueCountsDueDeliveries` | libhvDemo/header/include/libhv_1.3.0/hv/EventLoop.h:176-225 | That equation, and the safety of the next delivery, in every interleaving of any number of posters. |
| `EventPosting.ExactlyOnceInPushOrder` | libhvDemo/header/include/libhv_1.3.0/hv/EventLoop.h:176-225 | In every interleaving functors run in push order, at most once, and exactly once when all posts are complete and all wakeups delivered. |
| `EventPosting.QueuedEventsCanMove` | libhvDemo/header/include/libhv_1.3.0/hv/EventLoop.h:183-187 | While an event is queued, a post or a delivery is possible. |
| `EventPosting.WakeupsOvertake` | libhvDemo/header/include/libhv_1.3.0/hv/EventLoop.h:216-225 | A run in which the wakeup delivered names one event and the functor of another runs: popping is by position. |
| `Timers.BooksAlwaysBalance` | libhvDemo/header/include/libhv_1.3.0/hv/EventLoop.h:195-214 | In every run of sets, kills, resets and fires with re-entrant callbacks: a stored timer set with a finite n >= 1 has callbacks run + stored repeat = n + re-arms, no stored repeat is 0 between events, and even an erased one never ran more often. |
| `Timers.ErasedWhenSpent` | libhvDemo/header/include/libhv_1.3.0/hv/EventLoop.h:207-213 | A fire whose callback does not kill the timer erases it iff its runs have used up its repeats and re-arms. |
| `Timers.FireLeaves` | libhvDemo/header/include/libhv_1.3.0/hv/EventLoop.h:195-214 | What a fire leaves of every timer, whatever its callback sets, kills and resets: the firing one is stored iff it was not killed and has a repeat left or was reset at its last, and with which repeat; another stored one iff it was not killed; an unused ID iff it was set and not killed later, with the repeat it was set with. |
| `Timers.CallLeaves` | libhvDemo/header/include/libhv_1.3.0/hv/EventLoop.h:90-146 | The same for one set, kill or reset outside callbacks. |
| `Timers.ErasedForGood` | libhvDemo/header/include/libhv_1.3.0/hv/EventLoop.h:195-214 | After erasure no later sequence of events runs the callback or brings the timer back. |
| `Timers.ZeroIsInfiniteIffItFiredFirst` | libhvDemo/header/include/libhv_1.3.0/hv/EventLoop.h:204 | In every run, callbacks included: a stored timer set with repeat 0 is infinite iff it fired before any resetTimer; otherwise its runs plus stored repeat are its re-arms. |
| `Timers.ZeroCanBecomeInfinite` | libhvDemo/header/include/libhv_1.3.0/hv/EventLoop.h:204 | The run that shows it: set with 0, then fire. |
| `Timers.GeneratedIDsDiffer` | libhvDemo/header/include/libhv_1.3.0/hv/EventLoop.h:191-193 | Two generated IDs are equal iff both the thread half and the counter half are. |
| `Timers.EventLoop.SetTimer` | libhvDemo/header/include/libhv_1.3.0/hv/EventLoop.h:90-103 | The table gains the timer with its repeat and loses nothing. |
| `Timers.EventLoop.KillTimer` | libhvDemo/header/include/libhv_1.3.0/hv/EventLoop.h:125-133 | The table loses exactly that timer, if it is there. |
| `Timers.EventLoop.ResetTimer` | libhvDemo/header/include/libhv_1.3.0/hv/EventLoop.h:136-146 | A stored repeat of 0 becomes 1; everything else stays. |
| `Timers.EventLoop.OnTimer` | libhvDemo/header/include/libhv_1.3.0/hv/EventLoop.h:195-214 | Looks the ID up, counts down, runs the callback with all it calls, and erases the timer if the object it still holds has repeat 0, although the callback may have erased it already. |
| `TcpServer.StepKeepsPlaced` | libhvDemo/header/include/libhv_1.3.0/hv/TcpServer.h:177-236 | Every step keeps each accepted connection in one place: with the acceptor, queued in a loop, past the check, open on one loop, or gone. |
| `TcpServer.StepKeepsWithinBound` | libhvDemo/header/include/libhv_1.3.0/hv/TcpServer.h:177-190 | Every step keeps channels + connections past the check within limit + n - 1. |
| `TcpServer.AdmissionBound` | libhvDemo/header/include/libhv_1.3.0/hv/TcpServer.h:132-190 | In every interleaving of n loops the channels never exceed max_connections + n - 1 (0 for a limit of 0). |
| `TcpServer.BoundIsMet` | libhvDemo/header/include/libhv_1.3.0/hv/TcpServer.h:177-190 | For every n and limit a run reaches that bound exactly. |
| `TcpServer.LimitIsExactIffOneLoop` | libhvDemo/header/include/libhv_1.3.0/hv/TcpServer.h:177-190 | max_connections itself is kept in every run iff there is one loop or the limit is 0. |
| `TcpServer.StepKeepsConserved` | libhvDemo/header/include/libhv_1.3.0/hv/TcpServer.h:177-236 | Every step keeps, per loop, connectionNum + half-done closes = channels + connections on their way + connections rejected at the limit; closes made by the user's callback inside another close included, to any depth. |
| `TcpServer.ConnectionNumBalances` | libhvDemo/header/include/libhv_1.3.0/hv/TcpServer.h:177-236 | The same in every run, so that no connectionNum is ever negative. |
| `TcpServer.CountsLiveIffNoneRejected` | libhvDemo/header/include/libhv_1.3.0/hv/TcpServer.h:179-234 | In every run a loop's connectionNum counts exactly the connections it has or is about to have iff that loop turned none away. |
| `TcpServer.NoneRejectedIffFewLive` | libhvDemo/header/include/libhv_1.3.0/hv/TcpServer.h:179-183 | With at most k connections accepted and neither closed nor turned away at any moment, no run, however long, turns anybody away iff k <= max_connections. |
| `TcpServer.RejectedNeedsMore` | libhvDemo/header/include/libhv_1.3.0/hv/TcpServer.h:179-183 | Whoever is turned away finds more than max_connections live connections, itself included. |
| `TcpServer.TurnAway` | libhvDemo/header/include/libhv_1.3.0/hv/TcpServer.h:179-183 | The run of limit + 1 connections in which the last one is turned away. |
| `TcpServer.NoUnderflow` | libhvDemo/header/include/libhv_1.3.0/hv/TcpServer.h:203-206 | The unsigned counter is positive whenever onclose decrements it. |
| `LoadBalance.EventLoopThreadPool.NextLoop` | libhvDemo/header/include/libhv_1.3.0/hv/EventLoopThreadPool.h:31-50 | NULL iff there are no loops; round robin takes the next turn and moves the cursor; least connections, with the counters still, takes the first loop with the fewest; the unimplemented policies take loop 0. |
| `LoadBalance.LeastIsUnique` | libhvDemo/header/include/libhv_1.3.0/hv/EventLoopThreadPool.h:40-45 | The first loop with the fewest connections is one loop. |
| `LoadBalance.LeastConnectionsIsFair` | libhvDemo/header/include/libhv_1.3.0/hv/EventLoopThreadPool.h:40-45 | After k accepts from zero each of n loops has k/n connections rounded down or up. |
| `LoadBalance.RoundRobinShape` | libhvDemo/header/include/libhv_1.3.0/hv/EventLoopThreadPool.h:35-37 | Which loops have the extra connection, and where the cursor is, after k turns from any cursor. |
| `LoadBalance.RoundRobinIsFair` | libhvDemo/header/include/libhv_1.3.0/hv/EventLoopThreadPool.h:35-37 | After k turns, from any cursor, each of n loops has k/n connections rounded down or up. |
| `LoadBalance.StillScanIsNextLoop` | libhvDemo/header/include/libhv_1.3.0/hv/EventLoopThreadPool.h:40-45 | A scan of single counter reads, in either order per comparison, chooses what NextLoop returns if no connection closes meanwhile. |
| `LoadBalance.LoadNearPeakShare` | libhvDemo/header/include/libhv_1.3.0/hv/EventLoopThreadPool.h:40-45 | In every interleaving of the scan's reads and the increment with closes, a loop carries c connections only if (c - 1) * n is at most the largest number ever open at once. |
| `LoadBalance.NearShareIsReached` | libhvDemo/header/include/libhv_1.3.0/hv/EventLoopThreadPool.h:40-45 | For every n > 1 and every m a run reaches equality in that bound: a close between scan and increment. |
| `LoadBalance.ShareIsKeptIffNoOverlap` | libhvDemo/header/include/libhv_1.3.0/hv/EventLoopThreadPool.h:40-45 | Every loop keeps to its rounded-up share in all runs iff no close falls between the first read of a scan and the increment, or n is 1. |
| `LoadBalance.PeakRisesOnlyOnTiesIffNoOverlap` | libhvDemo/header/include/libhv_1.3.0/hv/EventLoopThreadPool.h:40-45 | In all runs an accept raises the highest load iff all loops are tied: under exactly the same condition. |
| `ObjectPool.StepKeepsOwned` | libhvDemo/header/include/libhv_1.3.0/hv/hobjectpool.h:50-132 | Every step of any client keeps: each object is idle once, or held by one borrower, or outside the pool. |
| `ObjectPool.StepKeepsCounted` | libhvDemo/header/include/libhv_1.3.0/hv/hobjectpool.h:50-132 | Every step keeps _object_num = idle + lent + being created - what the last Clear forgot, with the lock dropped for the factory. |
| `ObjectPool.EveryRunOwns` | libhvDemo/header/include/libhv_1.3.0/hv/hobjectpool.h:28-132 | In every interleaving, Clear included: _object_num is at most max(max_num, initially created), and no object is idle twice, idle and lent, or lent twice. |
| `ObjectPool.EveryRunCounts` | libhvDemo/header/include/libhv_1.3.0/hv/hobjectpool.h:28-132 | In every interleaving whose Clears come when BorrowNum is 0, _object_num is exactly idle + lent + being created. |
| `ObjectPool.CountIsExactIffNothingWasOut` | libhvDemo/header/include/libhv_1.3.0/hv/hobjectpool.h:128-132 | In every interleaving the count falls short by exactly what was lent or being created at the last Clear; so it is exact iff that was nothing. |
| `ObjectPool.RetryCreatesIffRoom` | libhvDemo/header/include/libhv_1.3.0/hv/hobjectpool.h:66-91 | In every run a borrower that found nothing idle goes on to create an object iff _object_num < _max_num, that is iff fewer than max are idle or out (but for what a Clear forgot); else it waits, or leaves without one if there is no timeout. |
| `ObjectPool.BorrowAlone` | libhvDemo/header/include/libhv_1.3.0/hv/hobjectpool.h:60-92 | In every run a whole Borrow that nothing overlaps gets the oldest idle object if there is one, else a new one iff there is room. |
| `ObjectPool.AllSlotsCanBeLent` | libhvDemo/header/include/libhv_1.3.0/hv/hobjectpool.h:60-75 | For every max, every number created in advance within it and at least max clients, a run in which max borrowers each hold an object, and none is left. |
| `ObjectPool.AddedIffRoom` | libhvDemo/header/include/libhv_1.3.0/hv/hobjectpool.h:101-110 | In every run an object offered by Add is idle afterwards iff there is room, and no other changes. |
| `ObjectPool.RemovedIsOut` | libhvDemo/header/include/libhv_1.3.0/hv/hobjectpool.h:112-126 | In every run Remove takes out the object it is given, if idle, keeping the others in their order; else it changes nothing. |
| `ObjectPool.FirstInFirstOut` | libhvDemo/header/include/libhv_1.3.0/hv/hobjectpool.h:50-110 | In every interleaving without Remove and Clear: the objects made at first, returned and added, in that order, are those borrowed, in that order, followed by the idle ones. |
| `ObjectPool.ClearCanLoseCount` | libhvDemo/header/include/libhv_1.3.0/hv/hobjectpool.h:128-132 | The run that shows it: borrow, Clear, return, and BorrowNum is -1. |
| `ObjectPool.HObjectPool.constructor` | libhvDemo/header/include/libhv_1.3.0/hv/hobjectpool.h:28-42 | Keeps, in order, the objects among the first init_num results of the factory, and counts them. |
| `ObjectPool.HObjectPool.TryBorrow` | libhvDemo/header/include/libhv_1.3.0/hv/hobjectpool.h:50-58 | Takes the front idle object, if any. |
| `ObjectPool.HObjectPool.ReserveSlot` | libhvDemo/header/include/libhv_1.3.0/hv/hobjectpool.h:67-70 | Counts a slot iff the maximum allows. |
| `ObjectPool.HObjectPool.Return` | libhvDemo/header/include/libhv_1.3.0/hv/hobjectpool.h:94-99 | Puts the object behind the idle ones. |
| `ObjectPool.HObjectPool.Add` | libhvDemo/header/include/libhv_1.3.0/hv/hobjectpool.h:101-110 | Refuses at the maximum, else adds an idle object and counts it. |
| `ObjectPool.HObjectPool.Remove` | libhvDemo/header/include/libhv_1.3.0/hv/hobjectpool.h:112-126 | Drops the first occurrence and uncounts it, or changes nothing when there is none. |
| `ObjectPool.HObjectPool.Clear` | libhvDemo/header/include/libhv_1.3.0/hv/hobjectpool.h:128-132 | No idle objects, count 0. |
| `Chunked.HexReadsBack` | libhvDemo/header/include/libhv_1.3.0/hv/HttpResponseWriter.h:82-83 | The printed chunk size is all hex digits and reads back to the size. |
| `Chunked.DecodeOneChunk` | libhvDemo/header/include/libhv_1.3.0/hv/HttpResponseWriter.h:82-91 | A printed non-empty chunk in front of any bytes decodes to its data followed by whatever those decode to. |
| `Chunked.DecodeLastChunk` | libhvDemo/header/include/libhv_1.3.0/hv/HttpResponseWriter.h:99-101 | EndChunked prints what a decoder takes as the end of the body. |
| `Chunked.RoundTrip` | libhvDemo/header/include/libhv_1.3.0/hv/HttpResponseWriter.h:76-101 | Any non-empty pieces printed as chunks in front of a decodable tail decode to their concatenation and the tail's body. |
| `Chunked.EmptyPieceEndsBody` | libhvDemo/header/include/libhv_1.3.0/hv/HttpResponseWriter.h:86-90 | A piece written empty ends the body for the decoder; everything printed behind it is left over. |
| `ResponseWriter.DoKeepsHead` | libhvDemo/header/include/libhv_1.3.0/hv/HttpResponseWriter.h:39-142 | Every call between Begin and End keeps: the header block is out exactly if the writer is past SEND_BEGIN. |
| `ResponseWriter.RunKeepsHead` | libhvDemo/header/include/libhv_1.3.0/hv/HttpResponseWriter.h:39-142 | The same for any sequence of calls. |
| `ResponseRuns.BeginStartsAfresh` | libhvDemo/header/include/libhv_1.3.0/hv/HttpResponseWriter.h:34-37 | Whatever a writer was used for, as long as its connection is up: after Begin, any calls and End it has added exactly what a new writer with that response would write. |
| `ResponseRuns.EndKeepsLinkIffAlive` | libhvDemo/header/include/libhv_1.3.0/hv/HttpResponseWriter.h:144-184 | End of a response leaves the connection up iff the headers it is called with say keep-alive. |
| `ResponseRuns.NextResponse` | libhvDemo/header/include/libhv_1.3.0/hv/HttpResponseWriter.h:34-184 | After an End, the next Begin, any calls and End add what a new writer would write iff the first response was kept alive; otherwise nothing. |
| `ResponseRuns.ChunkedRoundTrip` | libhvDemo/header/include/libhv_1.3.0/hv/HttpResponseWriter.h:34-184 | On a writer used in any way before, its connection up: Begin, one or more non-empty WriteChunked, End with or without data add the header block once, then bytes a chunked decoder reads to exactly the writes, with nothing left over. |
| `ResponseRuns.ChunkedBodyIsCompleteIffNoneEmpty` | libhvDemo/header/include/libhv_1.3.0/hv/HttpResponseWriter.h:34-184 | On any such writer, for any pieces, empty ones included, and End with or without data: from what is added the client decodes exactly the writes and the data, with nothing left over, iff there was a WriteChunked and none was empty. |
| `ResponseRuns.HeadWrittenOnceIffNotRepeated` | libhvDemo/header/include/libhv_1.3.0/hv/HttpResponseWriter.h:34-178 | On any such writer, after Begin and any calls, End leaves exactly one header block added iff not (state is not SEND_CHUNKED, and either End has data for a chunked response or an empty chunk was last). |
| `ResponseRuns.HeadCanGoOutTwice` | libhvDemo/header/include/libhv_1.3.0/hv/HttpResponseWriter.h:161-176 | The run that shows it: an explicit last chunk, then End. |
| `ResponseRuns.NoChunkNoTerminator` | libhvDemo/header/include/libhv_1.3.0/hv/HttpResponseWriter.h:161-178 | The case without any chunk: the wire is the header block alone, which is no complete body. |
| `ResponseWriter.SecondEndIsSilent` | libhvDemo/header/include/libhv_1.3.0/hv/HttpResponseWriter.h:145-146 | A second End changes nothing and writes nothing, whatever the state and data. |
| `ResponseRuns.BodyArrivesIffNotSplit` | libhvDemo/header/include/libhv_1.3.0/hv/HttpResponseWriter.h:103-178 | Body writes before and after EndHeaders on an unchunked response: the client gets all of them iff one side is empty; otherwise those before are lost. |
| `ResponseWriter.BufferedWriteIsLostIff` | libhvDemo/header/include/libhv_1.3.0/hv/HttpResponseWriter.h:103-184 | After a buffered WriteBody, any calls and End: what goes out beside header blocks is as if the write had never been made iff it was empty, or End finds the state SEND_CHUNKED, or SEND_BODY, or past SEND_BEGIN with data of its own for an unchunked response. |
| `ResponseRuns.WholeBodyArrives` | libhvDemo/header/include/libhv_1.3.0/hv/HttpResponseWriter.h:103-178 | Body writes without EndHeaders: End prints one header block of the whole response and then all the writes in order. |
| `ResponseRuns.BuiltResponseArrives` | libhvDemo/header/include/libhv_1.3.0/hv/HttpResponseWriter.h:34-184 | Begin, any WriteStatus, WriteHeader, WriteCookie and unchunked WriteBody in any order, End: one header block and the body of the response with the last status, the last value of each header, all cookies and all body pieces in order. |
| `ResponseRuns.GivenResponseArrives` | libhvDemo/header/include/libhv_1.3.0/hv/HttpResponseWriter.h:122-184 | Begin, WriteResponse, End: header block and body of the given response, once; for a null one those of the writer's own with status 500. |
| `ResponseRuns.EventStreamReadsBack` | libhvDemo/header/include/libhv_1.3.0/hv/HttpResponseWriter.h:133-142 | Begin and one or more SSEvent of single lines: one event-stream header block, then bytes an event-stream parser reads back as exactly those events. |
| `EventStream.ReadsBackIffLines` | libhvDemo/header/include/libhv_1.3.0/hv/HttpResponseWriter.h:137-139 | One printed event is parsed back as itself, using exactly its bytes, iff neither its name nor its data contains CR or LF. |
| `ResponseWriter.HttpResponseWriter.Begin` | libhvDemo/header/include/libhv_1.3.0/hv/HttpResponseWriter.h:34-37 | Resets state and end. |
| `ResponseWriter.HttpResponseWriter.WriteStatus` | libhvDemo/header/include/libhv_1.3.0/hv/HttpResponseWriter.h:39-42 | Sets the status of the response and nothing else. |
| `ResponseWriter.HttpResponseWriter.WriteHeader` | libhvDemo/header/include/libhv_1.3.0/hv/HttpResponseWriter.h:44-47 | Sets one header and nothing else. |
| `ResponseWriter.HttpResponseWriter.WriteCookie` | libhvDemo/header/include/libhv_1.3.0/hv/HttpResponseWriter.h:55-58 | Appends one cookie and nothing else. |
| `ResponseWriter.HttpResponseWriter.EndHeaders` | libhvDemo/header/include/libhv_1.3.0/hv/HttpResponseWriter.h:60-68 | Outside SEND_BEGIN nothing; else sets the header, prints the block and moves to SEND_HEADER. |
| `ResponseWriter.HttpResponseWriter.WriteChunked` | libhvDemo/header/include/libhv_1.3.0/hv/HttpResponseWriter.h:76-93 | Ends the headers if need be, prints one chunk, and moves to SEND_CHUNKED or, without data, to SEND_CHUNKED_END. |
| `ResponseWriter.HttpResponseWriter.WriteBody` | libhvDemo/header/include/libhv_1.3.0/hv/HttpResponseWriter.h:103-116 | A chunk for a chunked response; else buffers in SEND_BEGIN and writes through later. |
| `ResponseWriter.HttpResponseWriter.WriteResponse` | libhvDemo/header/include/libhv_1.3.0/hv/HttpResponseWriter.h:122-131 | A null response sets status 500; else dumps the given response, with headers only in SEND_BEGIN. |
| `ResponseWriter.HttpResponseWriter.SSEvent` | libhvDemo/header/include/libhv_1.3.0/hv/HttpResponseWriter.h:133-142 | Ends the headers as an event stream if need be and writes the event and data lines and the blank line. |
| `ResponseWriter.HttpResponseWriter.End` | libhvDemo/header/include/libhv_1.3.0/hv/HttpResponseWriter.h:144-184 | Nothing when ended or not connected; else closes the chunks or dumps what is still due, and closes the channel unless kept alive. |
| `HMath.VarintEncode` | libhvDemo/header/include/libhv_1.3.0/hv/hmath.h:28-39 | Writes exactly the base-128 encoding of a non-negative value and touches no byte behind it. |
| `HMath.VarintDecode` | libhvDemo/header/include/libhv_1.3.0/hv/hmath.h:42-66 | Returns the value and the new *len for every readable buffer and every limit: found, not enough bytes, or not found in ten. |
| `HMath.RoundTrip` | libhvDemo/header/include/libhv_1.3.0/hv/hmath.h:28-66 | Every non-negative 64-bit value decodes from its encoding, whatever follows it, using exactly its bytes. |
| `HMath.ListRoundTrip` | libhvDemo/header/include/libhv_1.3.0/hv/hmath.h:28-66 | Any list of such values encoded back to back decodes to the same list. |
| `HMath.PrefixNeedsMore` | libhvDemo/header/include/libhv_1.3.0/hv/hmath.h:47-51 | Every non-empty strict prefix of one encoding, given as *len, gives len 0, whatever bytes lie behind it. |
| `HMath.OnlyLimitedBytesMatter` | libhvDemo/header/include/libhv_1.3.0/hv/hmath.h:46-61 | Buffers that agree on the first *len bytes, or on ten, decode alike. |
| `HMath.TooLongIsAnError` | libhvDemo/header/include/libhv_1.3.0/hv/hmath.h:61-65 | With ten bytes there, len is -1 iff all ten are continuation bytes and the limit admits them. |
| `HMath.OnlyUnpaddedBytesReturn` | libhvDemo/header/include/libhv_1.3.0/hv/hmath.h:28-66 | The other direction: bytes that decode re-encode to themselves iff they carry no padding zero byte. |
| `HMath.OrAdds` | libhvDemo/header/include/libhv_1.3.0/hv/hmath.h:52 | Bitwise or of a number with one whose bits all lie above it is their sum. |
| `HMath.OrDigit` | libhvDemo/header/include/libhv_1.3.0/hv/hmath.h:52 | Shifting seven bits into place, cutting at 64 bits and or-ing them in adds the next digit, for all ten bytes. |
| `HMath.DigitsFit` | libhvDemo/header/include/libhv_1.3.0/hv/hmath.h:52 | What is decoded so far is below the weight of the next byte. |
| `HMath.EncodingEndsIffNonNegative` | libhvDemo/header/include/libhv_1.3.0/hv/hmath.h:32-37 | The encoder's loop reaches 0 iff the value is not negative, with an arithmetic shift. |
| `HMath.CountShifts` | libhvDemo/header/include/libhv_1.3.0/hv/hmath.h:7-9 | The loop counts the position of the highest bit. |
| `HMath.ShiftOne` | libhvDemo/header/include/libhv_1.3.0/hv/hmath.h:10-11 | The loop gives 2^e in a word of the given width, 0 when the bit falls out. |
| `HMath.Floor2e` | libhvDemo/header/include/libhv_1.3.0/hv/hmath.h:6-13 | The largest power of two not above num; 1 for 0. |
| `HMath.Ceil2e` | libhvDemo/header/include/libhv_1.3.0/hv/hmath.h:15-24 | The least power of two not below num while the word can hold it, 0 above that. |
| `Reconnect.ReconnSetting.Reset` | libhvDemo/header/include/libhv_1.3.0/hv/hloop.h:620-623 | Delay and retry count become 0, the rest stays. |
| `Reconnect.ReconnSetting.CanRetry` | libhvDemo/header/include/libhv_1.3.0/hv/hloop.h:625-629 | Counts the retry in 32 bits, then compares with the maximum; INFINITE always allows. |
| `Reconnect.ReconnSetting.CalcDelay` | libhvDemo/header/include/libhv_1.3.0/hv/hloop.h:631-645 | The next delay with 32-bit sum or product, raised to the minimum, then cut to the maximum. |
| `Reconnect.DelaysKeepTheirPromise` | libhvDemo/header/include/libhv_1.3.0/hv/hloop.h:584-645 | Without harmful wrap the n-th delay since a reset is min(max, n * min) for policy 1, min(max, min * p^(n-1)) for p >= 2, min(max, min) for 0. |
| `Reconnect.PromiseHoldsIffNoHarmfulWrap` | libhvDemo/header/include/libhv_1.3.0/hv/hloop.h:584-645 | For every setting: all delays are as documented iff neither the step from the maximum nor the one reaching it wraps below the maximum. |
| `Reconnect.DelaysCanWrap` | libhvDemo/header/include/libhv_1.3.0/hv/hloop.h:631-645 | A setting whose second delay is 0x80000000 instead of the promised 0x80000001. |
| `Reconnect.ReconnectsAreBounded` | libhvDemo/header/include/libhv_1.3.0/hv/TcpClient.h:126-169 | In every run, for every setting with a finite N, at most max(0, N - 1) reconnects are scheduled between successful connects. |
| `Reconnect.ReconnectsArePaced` | libhvDemo/header/include/libhv_1.3.0/hv/TcpClient.h:126-169 | In every run, without harmful wrap, the i-th reconnect since a successful connect waits for the promised delay. |
| `Reconnect.RetriedIffAllowed` | libhvDemo/header/include/libhv_1.3.0/hv/TcpClient.h:148-169 | In every run a lost attempt is followed by a scheduled reconnect iff N is infinite or fewer than N - 1 were scheduled since the last connect. |
| `Reconnect.NeverDownIffSocketsMade` | libhvDemo/header/include/libhv_1.3.0/hv/TcpClient.h:98-169 | In every run a client with infinite retries that its user has not closed is not down iff no scheduled attempt ever failed to make a socket: a failed one is not followed by another. |
| `Reconnect.NeverGivenUpIffInfinite` | libhvDemo/header/include/libhv_1.3.0/hv/TcpClient.h:98-169 | While sockets can be made and the user does not close, no run ever leaves the client down iff its retries are infinite. |
| `Reconnect.ClosedStaysDownIffNothingPending` | libhvDemo/header/include/libhv_1.3.0/hv/TcpClient.h:86-169 | In every run a client closed by its user stays down whatever follows iff no reconnect was pending. |
| `Reconnect.PendingAttemptStarts` | libhvDemo/header/include/libhv_1.3.0/hv/TcpClient.h:86-169 | A reconnect pending when the user closes still connects. |
| `Reconnect.LostAfterCloseIsLast` | libhvDemo/header/include/libhv_1.3.0/hv/TcpClient.h:87-156 | In every run a connection or attempt lost after the user has closed is not retried, whatever follows. |
| `Reconnect.TcpClient.OnConnect` | libhvDemo/header/include/libhv_1.3.0/hv/TcpClient.h:126-137 | Connected, and the setting reset if there is one. |
| `Reconnect.TcpClient.OnClose` | libhvDemo/header/include/libhv_1.3.0/hv/TcpClient.h:148-156 | Down, or a reconnect scheduled if the setting allows. |
| `Reconnect.TcpClient.StartReconnect` | libhvDemo/header/include/libhv_1.3.0/hv/TcpClient.h:160-169 | Nothing without a setting; else counts a retry, and if allowed schedules an attempt after the next delay. |
| `Reconnect.TcpClient.TimerFires` | libhvDemo/header/include/libhv_1.3.0/hv/TcpClient.h:98-105 | The scheduled attempt is under way, or the client is down if no socket could be made. |
| `Reconnect.TcpClient.CloseSocket` | libhvDemo/header/include/libhv_1.3.0/hv/TcpClient.h:87-96 | Drops the setting and closes; an attempt already scheduled stays scheduled. |

## Left out

- The thread pool, event posting, the server and the interleavings of the object pool are step functions on values, not classes: concurrent methods cannot be stated in that form. Effects of the C++ memory model and iterator invalidation are not captured.
- stop() of the thread pool overlapping a commit, start, pause or resume of another client, or a worker's retirement: `stop` walks `threads` without thread_mutex, so `Allowed` keeps such calls apart.
- ThreadPool.WorkerMove: the predicate of wait_for (status, then the queue) is one step, since both are read under task_mutex by a thread that only waits; the real-time length of the wait is any length.
- A task that throws, a task that calls the pool itself, and the future returned by commit.
- LoadBalance.EventLoopThreadPool.NextLoop: reads all counters at one instant; the scan with closes between its reads is `LoadBalance.Step`, and `StillScanIsNextLoop` connects the two.
- ThreadPoolTheorems.NoDeadlock: says that somebody can always get on, not that the scheduler lets it.
- HVLBuf: size_t overflow when doubling, buffers owned by the caller, and pushing data that lies inside the buffer itself.
- HRingBuf: resize on a non-empty ring, and frees that are not oldest first or not of the allocated length, which the class does not support.
- Timers: an ID used again after it was set, which generateTimerID does not do; setTimerInLoop from another thread, where runInLoop delays the same call; htimer itself, so that a fire may come at any moment.
- TcpServer: the uint32 range of connectionNum and the order of functors queued in one loop (any order is covered); stopAccept, broadcast and TLS.
- Round robin called from several threads at once, where the cursor is unprotected.
- HPoolObject: no model of its own; it is a client that borrows once and returns what it got, which the labels of `ObjectPool` cover. Null objects given to Return or Add, and changes of the limits while in use, are not.
- HttpResponseWriter: return codes, the strlen variants with length -1, and the field `end` before the first Begin, which the constructor leaves unset. Dump, IsChunked and IsKeepAlive are parameters, as their bodies are not part of this model.
- Chunked.Decode: chunk extensions and trailer fields, which the writer never prints.
- HMath.VarintEncode: negative values, on which the loop does not end (see EncodingEndsIffNonNegative).
- HMath.VarintDecode: the shift of the tenth byte is modelled as wrapping in 64 bits.
- TcpClient: a user calling start, setReconnect or startConnect during the cycle or from a callback.
- Sockets, polling, TLS, time, logging, processes and the demo programs; hendian.h, ConnPool, HFile, singletons and scope guards, which would add only easy members.
