# Verified models of the GameLift sample's concurrency layer

The repository's game server and its load-test client stand on a hand-written
layer: an object-bound job dispatcher over a lock-free queue, a reader/writer
spinlock in one word, sessions over overlapped I/O, a timer whose jobs push into
its own heap, a lock-free object pool, and a two-region byte buffer from which
packets are cut. This project models that layer in Dafny and proves what it
is meant to guarantee.

## How it is modelled

**Concurrent parts** (`JobQueue`, `Dispatcher`, `Spinlock`, `ServerSession`,
`ClientLife`, `SessionReferences`, `Pool`) are step systems. A state holds the shared fields and, for
every thread, where it is in the code and which locals it still needs; one step
is one access to shared memory by one thread. Any number of threads interleave
their steps in any order, and memory is sequentially consistent. A *run* is a
finite sequence of states from the initial one, a *trace* one together with its
steps; the main results hold in every state of every run, and the laws over
traces say what follows from which steps. History fields (`pushed`, `popped`, `accepted`, `sent`, ...)
record what happened; no step reads them to decide what the code does next.

**Sequential parts** (`CircularBuffer`, `ClientSession`, `Timer`) are classes
whose methods update their fields and loop as the source does. `CircularBuffer`
is proved against the functions of module `Ring`, `ClientSession` against those
of module `Framing`, and the laws of those functions are lemmas.

**What comes from outside** - the completion port, sockets, the allocator, the
choice of the next thread - is nondeterministic under a contract: each posted
request completes at most once, failed or with at most the bytes requested; a
new object's address is not in use; `read` returns at most what it was asked for.

The bodies of `Peek`, `Read`, `Write` and `Remove` are in
`GameLiftLinuxServer/CircularBuffer.cpp`; the table cites their declarations.

The parts build on each other. Every object of `Dispatcher` carries a `JobQueue`,
and the dispatcher's runs, seen from one object, are proved to be runs of that
queue, so that the queue's theorems, which need a single consumer, hold in it.
`ServerSession` keeps its bytes in two `Ring`s and uses the write mode of
`Spinlock` as a mutex. `SessionReferences` runs
`Dispatcher` and `ClientLife` together on one reference count: what the
dispatcher takes as given of outside holders is there a property of the
connection, and what the connection takes as given of timers and dispatches a
property of the dispatcher.

| file | models |
|---|---|
| `JobQueue.dfy` | the intrusive multi-producer, single-consumer queue with its stub |
| `Dispatcher.dfy` | `DoTask`, `Flush`, timers' calls of `DoTask`, reference counts, thread-local lists |
| `DispatcherRuns.dfy` | what its runs do with the work submitted, and their progress |
| `Spinlock.dfy` | `FastSpinlock` with 32-bit wrap-around |
| `ServerSession.dfy` | send pipeline, receive token and I/O contexts of one session |
| `ServerSessionRuns.dfy` | what ends its connection, where its bytes go, and its progress |
| `ClientLife.dfy` | connection, disconnection and reference counting of one client session |
| `SessionReferences.dfy` | both on the one count of a client session |
| `Ring.dfy`, `CircularBuffer.dfy` | the byte buffer, as functions and in place |
| `Framing.dfy`, `ClientSession.dfy` | packet framing and the receive loop of the Linux server |
| `Timer.dfy` | the timer heap and its loop (the Linux scheduler has the same loop) |
| `Pool.dfy` | the object pool |

## What the proofs found

Where a property fails, the model keeps the code as it is and the exact
condition is proved.

- The spinlock excludes exactly when at most 2048 threads use it
  (`ExclusionIffFewThreads`); from 2049 on, write claims can wrap round their
  11-bit field and two writers get in. The accounting of the word itself holds for any number.
- The queue is a FIFO in all reachable states exactly when at most one thread is
  inside `Pop` at once (`FifoIffOneConsumer`); with two, one job can be returned
  twice. The dispatcher never lets it happen (`RunOfQueue`).
- A pass of the timer ends exactly when some number n of dispatches catches up
  with what was due at first plus what the first n jobs pushed without delay, and
  dispatches the least such n (`PassEndsIff`, `EndsAfterIff`); one whose jobs push
  themselves again without delay never ends (`SelfRepushNeverEnds`).
- `Pop` after dispatch removes the dispatched timer only because sift-up leaves
  the top in place on ties; from the contract of a priority queue alone it
  would follow exactly when there is no tie (`TopIsForcedIffNoTie`).
- `DispatchPacket` waits by the size field of a header but consumes the size of
  the struct of its type. It is independent of how bytes are split into reads
  exactly when no packet can be looked at before its struct is there
  (`ChunkingIsInvisibleIff`), and it loops for ever exactly on bytes that are complete structs with satisfied
  size fields followed by a header whose size field is satisfied although its type
  has no handler or its struct is not all there (`SpinsIff`).
- Taking the write position of the buffer before its free size, an order C++
  allows in `OnReceive`, goes wrong exactly when the call opens region B
  (`PositionBeforeWindow`). The model takes the size first.
- `PrepareAllocation` loses blocks exactly when a slot was already filled (`PrepareConservesIff`).
- A client session's issue reference leaks exactly when the connection, its
  first `PreRecv` or `DisconnectEx` failed (`LeaksIffLost`).

## Model

| member | source | states |
|---|---|---|
| JobQueue.StepKeeps | DummyClients/DummyClients/JobDispatcher.h:24-79 | with one consumer, each access of Push and Pop keeps the nodes from mTail to mHead one duplicate-free chain in exchange order, every gap in it owed by exactly one half-done push, the stub in it at most once, live nodes accounted for, and returned jobs plus chained jobs equal to the jobs exchanged in |
| JobQueue.ExchangeHeadKeeps | DummyClients/DummyClients/JobDispatcher.h:26-27 | exchanging mHead for a node outside the chain extends it at the end and opens exactly one gap, owed by the thread that exchanged |
| JobQueue.WriteLinkKeeps | DummyClients/DummyClients/JobDispatcher.h:29-29 | writing the owed link closes that gap and changes no other node |
| JobQueue.MoveTailKeeps | DummyClients/DummyClients/JobDispatcher.h:45-53 | moving mTail over a closed link removes the first node from the chain, and no half-done push still refers to it |
| JobQueue.AdvanceKeeps | DummyClients/DummyClients/JobDispatcher.h:51-76 | returning a node returns the oldest job and never the stub, and no in-flight Push will write to it |
| JobQueue.RunIsFifo | DummyClients/DummyClients/JobDispatcher.h:24-79 | on every run the returned jobs are a prefix of the jobs in exchange order, the rest are in the chain, each once, and no access touches a dead node |
| JobQueue.UndisturbedPopReturnsOldest | DummyClients/DummyClients/JobDispatcher.h:33-79 | a Pop that no push overlaps returns the oldest queued job, and null exactly when there is none |
| JobQueue.NullMeansEmptyOrOverlap | DummyClients/DummyClients/JobDispatcher.h:41-78 | Pop returns null only if the queue held no job when it began or a push was in flight during it |
| JobQueue.PopComesToAnEnd | DummyClients/DummyClients/JobDispatcher.h:33-79 | while a job is queued and no other thread's push is half done, every access of Pop brings the return of the oldest job nearer, at most 11 accesses in all, whatever a push made stale before |
| JobQueue.ReturnedJobIsSafeToDelete | DummyClients/DummyClients/JobDispatcher.h:179-182 | a returned job is live until it is deleted, and no half-done push refers to it, so deleting it is safe |
| JobQueue.AccessesAreLive | DummyClients/DummyClients/JobDispatcher.h:24-79 | on every run the node whose mNext a thread in Push or Pop is about to touch is the stub or an entry not yet deleted, and the node Pop is about to return is a job's entry |
| JobQueue.FlagIsTrue | DummyClients/DummyClients/JobDispatcher.h:24-79 | in any state, reachable or not, the fault flag records exactly the accesses to nodes that are not live and the Pops that return the stub |
| JobQueue.HistoryGrows | DummyClients/DummyClients/JobDispatcher.h:24-79 | no step revises the order of the exchanges or of the returns |
| JobQueue.NoJobsMeansStub | DummyClients/DummyClients/JobDispatcher.h:62-68 | a queue without jobs, queued or handed out, is its stub alone |
| JobQueue.TwoConsumersReturnOneJobTwice | DummyClients/DummyClients/JobDispatcher.h:32-53 | when two threads may be inside Pop, a state is reachable in which the first of two jobs has been returned twice |
| JobQueue.FifoIffOneConsumer | DummyClients/DummyClients/JobDispatcher.h:32-79 | jobs are returned in exchange order in every reachable state if and only if at most one thread may be inside Pop at once |
| Dispatcher.StepKeeps | DummyClients/DummyClients/JobDispatcher.h:130-188 | every step of every thread keeps, for each object, the counter, reference, queue and progress invariants, and the shape of each thread's stack |
| Dispatcher.BeginsAlone | DummyClients/DummyClients/JobDispatcher.h:130-188 | on every run a thread whose next access may begin a Pop finds no other thread inside Pop of that object |
| Dispatcher.StepRefinesQueue | DummyClients/DummyClients/JobDispatcher.h:130-188 | a step of the dispatcher leaves each object's queue alone or is a step of that queue with one consumer |
| Dispatcher.RunOfQueue | DummyClients/DummyClients/JobDispatcher.h:130-188 | seen from any one object, a run of the dispatcher is a run of its queue, so the queue's theorems hold in it |
| Dispatcher.CounterIsExact | DummyClients/DummyClients/JobDispatcher.h:130-188 | mRemainTaskCount is the jobs announced but not exchanged in, plus those queued, plus the one being run; it is positive exactly when there is an owner (a Flush or a claim on its way to one), and there is at most one |
| Dispatcher.OneFlusher | DummyClients/DummyClients/JobDispatcher.h:130-188 | two activations of Flush on one object are the same activation of the same thread |
| Dispatcher.JobsRunInOrder | DummyClients/DummyClients/JobDispatcher.h:175-188 | the finished jobs of an object are a prefix of its jobs in exchange order and the one being run is the next, also when jobs submit jobs |
| Dispatcher.OrderIsStable | DummyClients/DummyClients/JobDispatcher.h:24-30 | along a run the order of an object's exchanges is only extended, and no finished job is forgotten |
| Dispatcher.FlushesNeverNest | DummyClients/DummyClients/JobDispatcher.h:145-170 | a thread's stack holds at most one Flush |
| Dispatcher.QuiescentMeansDone | DummyClients/DummyClients/JobDispatcher.h:145-170 | once every thread has left its outermost DoTask, every counter is 0, every job has been executed and deleted, every queue is its stub, and the thread-local list and marker are clear |
| Dispatcher.WorkHasAnOwner | DummyClients/DummyClients/JobDispatcher.h:132-170 | while a counter is positive a thread inside DoTask is responsible for the object |
| Dispatcher.FlushFindsWork | DummyClients/DummyClients/JobDispatcher.h:132-188 | with no push under way a thread inside Pop has a queued job to find |
| Dispatcher.FlushWaitsOnlyForPushes | DummyClients/DummyClients/JobDispatcher.h:177-187 | a call of Pop from Flush returns null only if some thread was between announcing a job for the object and finishing its push |
| Dispatcher.RefCountIsExact | DummyClients/DummyClients/JobDispatcher.h:118-169 | mRefCount is the outside holders plus undispatched timer entries plus dispatches that hold the object, and every release of the dispatcher, a timer or a holder finds it positive |
| Dispatcher.ThreadsNeverStick | DummyClients/DummyClients/JobDispatcher.h:130-188 | a thread inside DoTask always has an enabled next access, and no queue access is ever to a dead node |
| DispatcherRuns.NothingIsDropped | DummyClients/DummyClients/JobDispatcher.h:130-170 | along any run, for each object: the calls of DoTask and timer dispatches made are those still before their exchange plus the jobs exchanged in; the timers set are those dispatched plus those still queued; the outside references taken are those given back plus those held |
| DispatcherRuns.AtRestAllIsDone | DummyClients/DummyClients/JobDispatcher.h:130-188 | once every thread has come home, each object has run exactly as many jobs as there were calls of DoTask and timer dispatches for it |
| DispatcherRuns.RunComesNearer | DummyClients/DummyClients/JobDispatcher.h:130-188 | while no other thread is in the middle of a push, each access of a thread inside DoTask or Flush brings it nearer to leaving its outermost call, and moves no other thread |
| DispatcherRuns.SoloRunsAreBounded | DummyClients/DummyClients/JobDispatcher.h:130-188 | a thread that runs alone, with no other in the middle of a push, makes at most a given number of accesses, 20 per counted job plus what its stack, list and Pop still need |
| DispatcherRuns.ComesHome | DummyClients/DummyClients/JobDispatcher.h:145-170 | from every reachable state such a thread does leave its outermost DoTask |
| DispatcherRuns.TaskIsCarriedOut | DummyClients/DummyClients/JobDispatcher.h:130-188 | from rest, a call of DoTask or a timer dispatch for an object can be followed to rest again by that thread alone, with exactly one more job of that object done and none of any other |
| DispatcherRuns.JobsSubmitJobs | DummyClients/DummyClients/JobDispatcher.h:130-188 | a job may call DoTask for its own or another object: from rest, the one thread carries out both, each exactly once, and no other object runs anything |
| Spinlock.MasksSelectFields | GameLiftGameServer/GameLiftGameServer/FastSpinlock.h:22-27 | the masks pick bits 20 to 30 and bits 0 to 19 of every 32-bit word |
| Spinlock.FieldsAreSeparate | GameLiftGameServer/GameLiftGameServer/FastSpinlock.h:22-27 | with fewer than 4096 claims of each kind the word reads back the read claims exactly and the write claims modulo 2048 |
| Spinlock.AccountingKept | GameLiftGameServer/GameLiftGameServer/FastSpinlock.cpp:15-60 | each access keeps the word equal to the write claims (draining, held or being backed off) times the flag plus the read claims, modulo 2^32, for any number of threads |
| Spinlock.WordIsExact | GameLiftGameServer/GameLiftGameServer/FastSpinlock.cpp:15-60 | that accounting holds on every run, and the word is 0 when all threads are outside |
| Spinlock.ReadingsAreTrue | GameLiftGameServer/GameLiftGameServer/FastSpinlock.cpp:20-53 | with at most 2048 threads each test of the word tells the truth about the claims of the others |
| Spinlock.AccessIsExpected | GameLiftGameServer/GameLiftGameServer/FastSpinlock.cpp:15-60 | on every run of at most 2048 threads each access takes its thread where the true numbers of write and read claims send it: in when there is none in the way, and back or round again when there is |
| Spinlock.RunIsExclusive | GameLiftGameServer/GameLiftGameServer/FastSpinlock.cpp:15-60 | on every run of at most 2048 threads one thread at most drains or holds the write lock, and while one holds it no thread reads |
| Spinlock.ReaderGetsIn | GameLiftGameServer/GameLiftGameServer/FastSpinlock.cpp:42-55 | from every reachable state of at most 2048 threads with no write claim, a reader at its test of the word has the lock after two accesses of its own |
| Spinlock.WriterGetsIn | GameLiftGameServer/GameLiftGameServer/FastSpinlock.cpp:15-35 | with no claim at all, a writer at its test has the lock after three |
| Spinlock.ReadersShare | GameLiftGameServer/GameLiftGameServer/FastSpinlock.cpp:42-55 | for any number of threads from 2 to 2048 a state with two readers at once is reachable |
| Spinlock.TooManyThreadsBreakExclusion | GameLiftGameServer/GameLiftGameServer/FastSpinlock.cpp:23-32 | with more than 2048 threads a state with two writers is reachable |
| Spinlock.ExclusionIffFewThreads | GameLiftGameServer/GameLiftGameServer/FastSpinlock.cpp:15-60 | all reachable states exclude if and only if there are at most 2048 threads |
| ServerSession.StepKeeps | GameLiftGameServer/GameLiftGameServer/Session.cpp:55-208 | every access of every worker and every completion keeps the ownership, lock, send and receive invariants |
| ServerSession.StepsAreSane | GameLiftGameServer/GameLiftGameServer/Session.cpp:118-162 | whatever completion the kernel may deliver lies inside the buffer the request was posted with |
| ServerSession.EffectKeepsOwners | GameLiftGameServer/GameLiftGameServer/OverlappedIOContext.cpp:15-40 | making, posting, taking back or deleting a context keeps every live context with exactly one owner in one role, and never deletes a dead one |
| ServerSession.AppendKeeps | GameLiftGameServer/GameLiftGameServer/Session.cpp:145-151 | Write under the lock appends exactly the bytes it accepts, disturbs none at the front, and no connected session is left with bytes and nothing outstanding unless FlushSend follows |
| ServerSession.CompleteKeeps | GameLiftGameServer/GameLiftGameServer/Session.cpp:189-201 | SendCompletion moves exactly the bytes the kernel took from the buffered to the sent ones, its assertions hold, and FlushSend follows whenever bytes are left |
| ServerSession.AssertionsHold | GameLiftGameServer/GameLiftGameServer/Session.cpp:178-195 | mSendPendingCount is 0 or 1, with the lock free 1 exactly while a posted send is not accounted for; it is 1 where SendCompletion and 0 where FlushSend expect it, and whatever context is about to be deleted is live, so no assertion fires and none is deleted twice |
| ServerSession.BytesAreConserved | GameLiftGameServer/GameLiftGameServer/Session.cpp:138-208 | accepted bytes are the sent bytes followed by the buffered ones, and delivered bytes are the consumed ones followed by the buffered ones, on every run |
| ServerSession.NothingStalls | GameLiftGameServer/GameLiftGameServer/Session.cpp:148-201 | a connected session with bytes to send and its lock free has a send with the kernel or a completion being handled |
| ServerSession.InFlightIsNext | GameLiftGameServer/GameLiftGameServer/Session.cpp:161-165 | the bytes of a posted send are inside the buffer and are the oldest accepted bytes not yet sent |
| ServerSession.InFlightBytesStay | GameLiftGameServer/GameLiftGameServer/Session.cpp:138-165 | while the kernel has a send, its bytes stay where and as they are, whatever PostSend appends |
| ServerSession.OneReceiver | GameLiftGameServer/GameLiftGameServer/IOThread.cpp:77-99 | at most one receive is with the kernel, or else at most one thread is between its completion and the next post, so the unlocked receive buffer has one user |
| ServerSession.NeverDeaf | GameLiftGameServer/GameLiftGameServer/IOThread.cpp:54-111 | a session that stays connected has a receive with the kernel whenever every thread is back in its loop, since a thread gives the token up only on the way to Disconnect |
| ServerSession.ReceivesLandInFreeSpace | GameLiftGameServer/GameLiftGameServer/Session.cpp:111-123 | the kernel may store any completion of a posted receive without leaving the buffer or changing an unread byte |
| ServerSession.NothingLeaks | GameLiftGameServer/GameLiftGameServer/IOThread.cpp:54-113 | with every worker back in its loop the only contexts not deleted are at most one send and one receive the kernel still has |
| SessionRuns.DisconnectHasACause | GameLiftGameServer/GameLiftGameServer/IOThread.cpp:54-111 | a session is disconnected only by a call of Disconnect, a failed or empty completion, a completion of a send with fewer bytes than were posted, a failed post, or a full receive buffer, which the thread that disconnects has met since it last dequeued a completion |
| SessionRuns.CauseEndsConnection | GameLiftGameServer/GameLiftGameServer/IOThread.cpp:54-111 | once one of these has happened, the session is disconnected or the thread it happened to is on its way to Disconnect |
| SessionRuns.DisconnectedIff | GameLiftGameServer/GameLiftGameServer/IOThread.cpp:54-113 | with every worker back in its loop, the session has been disconnected if and only if one of these has happened |
| SessionRuns.PartialSendsEndIt | GameLiftGameServer/GameLiftGameServer/IOThread.cpp:84-111 | the thread that dequeued the completion of a send disconnects at the end of handling it exactly when fewer bytes were transferred than were posted |
| SessionRuns.StepComesNearer | GameLiftGameServer/GameLiftGameServer/IOThread.cpp:40-115 | every access of a worker brings it nearer to its loop or to OnRead, at most 20 accesses, and moves no other worker |
| SessionRuns.ComesToRest | GameLiftGameServer/GameLiftGameServer/IOThread.cpp:40-115 | from every reachable state the workers come back to their loops by their own accesses, whether posts succeed or not |
| SessionRuns.TransfersAreAccounted | GameLiftGameServer/GameLiftGameServer/Session.cpp:92-208 | along any run the bytes of completed sends are those taken out of the send buffer plus the one completion in hand, the bytes of completed receives are those committed plus the one in hand, and exactly as many were consumed as OnRead read |
| SessionRuns.StreamsArePrefixes | GameLiftGameServer/GameLiftGameServer/Session.cpp:92-208 | what the kernel has sent is a prefix of what PostSend accepted, and what OnRead has read is the first bytes of what the kernel received |
| SessionRuns.PostsAskForAll | GameLiftGameServer/GameLiftGameServer/Session.cpp:55-185 | each request posted asks for everything contiguous in the send buffer, for the whole nonempty free window of the receive buffer, or for zero bytes |
| SessionRuns.NothingAfterTheEnd | GameLiftGameServer/GameLiftGameServer/Session.cpp:55-151 | once the session is disconnected and no thread is past a test of IsConnected, no byte is accepted and no receive posted any more |
| SessionRuns.OfferIsTakenOnce | GameLiftGameServer/GameLiftGameServer/Session.cpp:138-152 | whatever other threads do, a call of PostSend either finds the session disconnected and accepts nothing, or appends its bytes in exactly one step under the lock, exactly if they fit |
| SessionRuns.AcceptedWasOffered | GameLiftGameServer/GameLiftGameServer/Session.cpp:138-152 | nothing is ever accepted but the bytes of a call of PostSend under way, under the lock |
| SessionRuns.FlagsAreTrue | GameLiftGameServer/GameLiftGameServer/Session.cpp:178-195 | in any state, reachable or not, the flags record exactly the assertions on mSendPendingCount that fail and the contexts deleted that are not live |
| ClientLife.StepKeeps | DummyClients/DummyClients/Session.cpp:19-204 | every access keeps the reference count and the count of ways to DisconnectCompletion balanced |
| ClientLife.AssertionsHold | DummyClients/DummyClients/Session.cpp:189-204 | the count is the issue reference, the contexts and what timers and dispatches borrow; it is positive before every ReleaseRef of a thread, and a session about to be connected or whose connection completes is not connected, so those assertions never fail (those behind a refused socket option can, and stop the process) |
| ClientLife.GivenBackOnce | DummyClients/DummyClients/Session.cpp:19-187 | the reference taken at issue is given back at most once, by the only thread handling a disconnection, and then another reference still remains |
| ClientLife.LeaksIffLost | DummyClients/DummyClients/PlayerSession.cpp:54-130 | an issued session at rest has count 0 if and only if no way to its DisconnectCompletion was lost to a failed connect, first PreRecv or DisconnectEx |
| ClientLife.EventsAreCounted | DummyClients/DummyClients/Session.cpp:19-204 | along any run the issue and borrowed references, the requests with the kernel and the lost ways are exactly what the steps taken and given back, posted and dequeued, and failed |
| ClientLife.ConnectedIff | DummyClients/DummyClients/PlayerSession.cpp:89-130 | the session is connected exactly from a ConnectCompletion whose options were set until the next DisconnectRequest or failure of the first PreRecv |
| ClientLife.ContextsAreCounted | DummyClients/DummyClients/OverlappedIOContext.cpp:6-21 | the count is the issue and borrowed references plus the contexts made minus the contexts deleted |
| ClientLife.StepsFollow | DummyClients/DummyClients/PlayerSession.cpp:54-130 | on every run each thread's steps come in the order of the code: those of what it handles, a failed first PreRecv leading straight to DeleteIoContext, and those of a disconnection it has won, a failed DisconnectEx to its deletion |
| ClientLife.ReceivingGoesOn | DummyClients/DummyClients/Session.cpp:19-187 | a completed transfer can be followed by the next one, after which the session is exactly as before |
| ClientLife.CanBeEnded | DummyClients/DummyClients/Session.cpp:19-187 | from every reachable state in which the process still runs, the session can be brought to rest, losing nothing more, and the count is then exactly what was lost before |
| ClientLife.FullLife | DummyClients/DummyClients/PlayerSession.cpp:54-130 | a session can be issued and brought to rest with its reference given back exactly once and the count 0 |
| ClientLife.FlagIsTrue | DummyClients/DummyClients/Session.cpp:189-204 | in any state, reachable or not, the flag records exactly a ReleaseRef that finds no reference and a connection begun or completed on a connected session |
| SessionReferences.DispatchKeeps | DummyClients/DummyClients/JobDispatcher.h:118-169 | a dispatcher step on the session changes the count by as much as what timers and dispatches hold of it |
| SessionReferences.ConnectionKeeps | DummyClients/DummyClients/OverlappedIOContext.cpp:6-21 | a step of the connection gives back only a reference that an outside holder has, so it takes none from the dispatcher |
| SessionReferences.RefCountIsExact | DummyClients/DummyClients/Session.cpp:179-204 | with the dispatcher and the connection running on one count, on every run it is the issue reference plus contexts plus timer entries plus dispatches, the assertion of ReleaseRef never fails, and the dispatcher's own releases find it positive |
| SessionReferences.StepsArePossible | DummyClients/DummyClients/Session.cpp:179-204 | counting both on one count shuts out no step of the dispatcher or of the connection |
| Ring.WindowInside | GameLiftLinuxServer/CircularBuffer.h:28-63 | the span GetFreeSpaceSize long at GetBuffer is inside the array and holds no unread byte, a second call gives the same, and opening region B changes neither content nor memory |
| Ring.WindowIsLarge | GameLiftLinuxServer/CircularBuffer.h:28-42 | with no region B before, the span is at least half of all free bytes |
| Ring.WindowIsMaximal | GameLiftLinuxServer/CircularBuffer.h:28-63 | the span at GetBuffer ends at the end of the array or of the free bytes, and with no region B before it is the longer of the two free stretches |
| Ring.WindowEmptyIff | GameLiftLinuxServer/CircularBuffer.h:28-42 | there is no room exactly when the buffer is full or region B has reached A |
| Ring.NeverStalls | GameLiftLinuxServer/CircularBuffer.h:28-42 | a buffer of three packets has room while less than one packet is unread |
| Ring.PositionBeforeWindow | GameLiftLinuxServer/ClientSession.cpp:76-76 | the write position read before the window agrees with it exactly when no region is opened, and otherwise the span runs past the array |
| Ring.CommitAppends | GameLiftLinuxServer/CircularBuffer.h:66-72 | Commit appends exactly the bytes stored at GetBuffer to the unread bytes |
| Ring.FillIsInvisible | GameLiftLinuxServer/CircularBuffer.h:57-63 | storing bytes in the window changes no unread byte and not the window |
| Ring.WriteAppends | GameLiftLinuxServer/CircularBuffer.h:24-24 | Write succeeds exactly when the bytes fit the window and then appends them; a failed Write loses nothing |
| Ring.WriteKeepsFront | GameLiftLinuxServer/CircularBuffer.h:24-24 | the bytes contiguous at the front before a Write stay where and as they are |
| Ring.RemoveDrops | GameLiftLinuxServer/CircularBuffer.h:26-26 | Remove drops that many of the oldest bytes, or all, also when region B moves to the front |
| Ring.ReadTakesPrefix | GameLiftLinuxServer/CircularBuffer.h:22-23 | Peek and Read return the oldest bytes exactly when that many are stored; Read drops them and nothing else |
| Ring.ContiguousIsFront | GameLiftLinuxServer/CircularBuffer.h:49-80 | the bytes at GetBufferStart are the oldest, there are some exactly when any are unread, and they are all but those wrapped round into region B |
| CircularBuffer.CircularBuffer.constructor | GameLiftLinuxServer/CircularBuffer.h:9-14 | a new buffer has its capacity and nothing unread |
| CircularBuffer.CircularBuffer.GetFreeSpaceSize | GameLiftLinuxServer/CircularBuffer.h:28-42 | in place: returns the window of Ring, keeps the unread bytes, and the span fits the array |
| CircularBuffer.CircularBuffer.Commit | GameLiftLinuxServer/CircularBuffer.h:66-72 | in place: the bytes stored at GetBuffer become the newest unread bytes |
| CircularBuffer.CircularBuffer.Peek | GameLiftLinuxServer/CircularBuffer.h:22-22 | in place: copies the oldest bytes out, exactly if that many are stored, and touches nothing else of the destination |
| CircularBuffer.CircularBuffer.Read | GameLiftLinuxServer/CircularBuffer.h:23-23 | in place: as Peek, and drops the bytes it copied |
| CircularBuffer.CircularBuffer.Write | GameLiftLinuxServer/CircularBuffer.h:24-24 | in place: appends the bytes exactly if they fit the window |
| CircularBuffer.CircularBuffer.Remove | GameLiftLinuxServer/CircularBuffer.h:26-26 | in place: drops the oldest bytes |
| Framing.DispatchInParts | GameLiftLinuxServer/PacketHandler.cpp:47-71 | dispatching the first part of a stream and resuming with the rest is dispatching the whole, if no packet can be looked at too early |
| Framing.ChunkingIsInvisibleIff | GameLiftLinuxServer/PacketHandler.cpp:47-71 | every split of a stream into reads has the outcome of the whole if and only if no packet handled can be looked at before its struct is there |
| Framing.PacketRoundTrip | PacketShare/PacketType.h:33-144 | an encoded packet decodes to itself, and its size field is the size of its struct |
| Framing.WireFormat | PacketShare/PacketType.h:17-144 | each packet on the wire, by value: size and type as little-endian shorts (132 and 1, 132 and 31, 260 and 11, 16 and 21), then its fields in order |
| Framing.HeaderFields | PacketShare/PacketType.h:33-45 | size and type of a received header are signed 16-bit values, low byte first |
| Framing.StreamRoundTrip | GameLiftLinuxServer/PacketHandler.cpp:47-135 | for any well-formed packets, any incomplete last one and any split into reads, the handlers run on exactly those packets in order and the incomplete one stays buffered |
| Framing.OutcomeIff | GameLiftLinuxServer/PacketHandler.cpp:15-71 | for all bytes, DispatchPacket handles structs with satisfied size fields as long as they come; it then waits exactly at less than a header or an unsatisfied size field, disconnects exactly at a type out of range, and otherwise never returns |
| Framing.SpinsIff | GameLiftLinuxServer/PacketHandler.cpp:15-71 | the loop never returns if and only if the bytes are structs of their types with satisfied size fields and then a header with satisfied size field whose type has no handler or whose struct is not all there; those structs are handled first |
| Framing.WellFormedFeeds | GameLiftLinuxServer/PacketHandler.cpp:47-71 | however a well-formed stream is read, the outcome is that of the whole and less than one packet is left |
| Framing.StreamsAreServed | PacketShare/PacketType.h:33-144 | encoded packets followed by a part of one are well-formed and dispatched one by one, the part left waiting |
| Framing.ClosedStaysClosed | GameLiftLinuxServer/PacketHandler.cpp:61-66 | a session closed for a bad type stays closed and handles nothing more, whatever is read later |
| ClientSession.ClientSession.DispatchPacket | GameLiftLinuxServer/PacketHandler.cpp:47-71 | the loop over the buffer handles exactly the packets Dispatch says, leaves its rest, and fails to return exactly when Dispatch spins; the connection is afterwards what the packets handled make of it, cut once more exactly at a bad type |
| ClientSession.ClientSession.Handle | GameLiftLinuxServer/PacketHandler.cpp:15-135 | a handler consumes its struct exactly when one is registered and enough bytes are stored, and otherwise nothing; it calls Disconnect exactly for an exit, in the default handler, and for a packet the outside rejects |
| ClientSession.ClientSession.Disconnect | GameLiftLinuxServer/ClientSession.cpp:43-66 | a connected session asks for the linger option and is disconnected exactly if that is granted; a disconnected one does nothing |
| ClientSession.FateIsOneWay | GameLiftLinuxServer/PacketHandler.cpp:15-135 | handling packets never reconnects; the connection is untouched if no packet handled asks for its end, and the option is asked for if one does |
| ClientSession.ClientSession.OnReceive | GameLiftLinuxServer/ClientSession.cpp:70-98 | for any answers of the socket, data in pieces of any size, then no more or an error: the read loop takes all data and has the outcome of feeding it, calls Disconnect at its end exactly if the socket fails then, and leaves the connection otherwise as the packets handled leave it; if the buffer holds three packets, a client's encoded packets are all handled, exactly those and in order, and a part of one is left |
| Timer.TopIsFirst | DummyClients/DummyClients/Timer.h:20-29 | the top of the heap is due first |
| Timer.TurnKeeps | DummyClients/DummyClients/Timer.cpp:30-39 | whatever the dispatched job pushes, ties included, the pop after it removes exactly the dispatched element and nothing due before it is left |
| Timer.Timer.PushTimerJob | DummyClients/DummyClients/Timer.cpp:13-20 | push in place keeps the heap, adds exactly the element of that owner and task due at the current tick plus the delay, and leaves a top that is not due later than it in place |
| Timer.Timer.Pop | DummyClients/DummyClients/Timer.cpp:39-39 | pop in place keeps the heap and removes exactly the top |
| Timer.Timer.DispatchTop | DummyClients/DummyClients/Timer.cpp:30-39 | one turn of the loop in place: the pushes of the job, then the pop |
| Timer.Timer.DoTurns | DummyClients/DummyClients/Timer.cpp:28-40 | the first n turns of the loop, for any jobs that push any number of timers with any delays, without end |
| Timer.GoesOnIff | DummyClients/DummyClients/Timer.cpp:28-40 | after n turns the loop still has a due top if and only if, for every m up to n, more than m elements were due at first or pushed without delay by the first m jobs |
| Timer.EndsAfterIff | DummyClients/DummyClients/Timer.cpp:28-40 | a pass ends after exactly n dispatches if and only if n is the least number that equals the elements due at first plus the pushes without delay of the first n jobs |
| Timer.PassEndsIff | DummyClients/DummyClients/Timer.cpp:28-40 | a pass ends if and only if there is such a number; otherwise it has a due top after any number of dispatches |
| Timer.DelayedPassIsExact | DummyClients/DummyClients/Timer.cpp:28-40 | if every re-push asks for at least one tick, however many there are, a pass ends and dispatches exactly the elements due when it began |
| Timer.ZeroDelayNeverEnds | GameLiftLinuxServer/Scheduler.cpp:26-37 | a pass that begins never ends if each of its jobs pushes something without delay |
| Timer.SelfRepushNeverEnds | GameLiftLinuxServer/Scheduler.cpp:26-37 | nor if the jobs it dispatches push themselves again without delay, and then no number of dispatches catches up |
| Timer.PassIsOver | DummyClients/DummyClients/Timer.cpp:23-41 | a pass that has ended dispatched nothing early and in due order, of what was there when it began exactly what is due, left nothing due, and each element ever in the heap was dispatched once or is still there |
| Timer.PushedIsDispatchedIff | DummyClients/DummyClients/Timer.cpp:13-41 | a timer pushed at tick T with a delay is dispatched by a later pass that ends at tick now if and only if T plus the delay is at most now |
| Timer.Timer.DoTimerJob | DummyClients/DummyClients/Timer.cpp:23-41 | the loop in place, given that the pass ends: it dispatches exactly the length of the pass, with what PassIsOver states |
| Timer.TopIsForcedIffNoTie | DummyClients/DummyClients/Timer.cpp:30-39 | among all heaps of the same elements the top is the one dispatched if and only if nothing else is due at the same tick |
| Pool.StepKeeps | DummyClients/DummyClients/ObjectPool.h:29-48 | every exchange, allocation and release keeps each block in exactly one slot, hand or live object, and frees no block twice |
| Pool.RunConserves | DummyClients/DummyClients/ObjectPool.h:29-48 | that holds in every reachable state, from an empty or a prepared pool |
| Pool.NewIsExclusive | DummyClients/DummyClients/ObjectPool.h:29-38 | the block new returns is in no slot and no other hand and was no live object |
| Pool.FreedIsNobodys | DummyClients/DummyClients/ObjectPool.h:40-48 | the block delete gives back was given out by the allocator, and is no object, in no slot and in no other hand |
| Pool.FlagIsTrue | DummyClients/DummyClients/ObjectPool.h:40-48 | in any state, the flag records exactly the blocks given back that the allocator does not know |
| Pool.SlotsGoRound | DummyClients/DummyClients/ObjectPool.h:29-48 | for every size the compile-time check lets through, the n-th call of new takes the block in slot n modulo the size, or asks the allocator exactly if there is none, and the n-th call of delete leaves its block there and frees what was there, in any interleaving and also after the counters wrap |
| Pool.ObjectsAreCounted | DummyClients/DummyClients/ObjectPool.h:29-48 | the live objects are as many as the calls of new that are over minus the calls of delete |
| Pool.StepCounts | DummyClients/DummyClients/ObjectPool.h:29-48 | every call of new and delete is over after at most two more accesses of its thread, whatever the others do |
| Pool.NothingLeaks | DummyClients/DummyClients/ObjectPool.h:29-48 | with no thread inside new or delete, what the allocator gave out is the live objects and the pooled blocks, and these are disjoint |
| Pool.PrepareConservesIff | DummyClients/DummyClients/ObjectPool.h:21-27 | PrepareAllocation loses no block if and only if every slot was empty |
| Pool.MaskPicksSlot | DummyClients/DummyClients/ObjectPool.h:14-44 | for both pool sizes the masked counter is a slot for every 64-bit value, and the slots go round also where the counter wraps |
| Pool.MaskIsRemainder | DummyClients/DummyClients/ObjectPool.h:14-44 | the bitwise mask is the remainder for every power of two |
| Pool.CheckedIsPowerOfTwo | DummyClients/DummyClients/ObjectPool.h:57-57 | a size that passes the compile-time check is a power of two |

## Left out

- Weak memory: `mNext` and the flags are plain volatile fields in the source; all step systems assume sequential consistency.
- Concurrent code in place: Dafny has no threads, so the queue, dispatcher, lock, sessions and pool are modelled on values, one access at a time, and not as classes; object identity stands in addresses that may be reused after deletion.
- Fairness: no scheduler is assumed, so progress is proved for a thread that runs alone while nothing it waits for is half done (`Spinlock.ReaderGetsIn`, `DispatcherRuns.ComesHome`, `SessionRuns.ComesToRest`), and not that a spin loop ends under every schedule.
- 64-bit counters of the dispatcher and due times of the timer are unbounded integers; only the spinlock word and the pool counters wrap.
- Dispatcher.JobsRunInOrder: the bodies of jobs are modelled only by the calls of `DoTask` and timers they make, at any depth the code allows.
- Dispatcher.RefCountIsExact: that an outside holder gives back only what it took is part of the step system there; for client sessions SessionReferences.RefCountIsExact proves it.
- ClientLife.AssertionsHold: what timers and dispatches borrow and give back is a counter there; SessionReferences.RefCountIsExact ties it to the dispatcher.
- Dispatcher's timers: the entry a worker dispatches is any of its entries; which one is due is the subject of module Timer.
- ServerSession's lock is a mutex; that the write mode of `FastSpinlock` is one is the subject of module Spinlock. Re-entering it through `OnDisconnect` (a broadcast under `GameLiftManager::mLock`) is not modelled, nor is `OnDisconnect`.
- The client's `Session` send and receive paths repeat the server's, without the assertion that the pending count is 1; only its reference counting and connection are modelled.
- ClientLife.GivenBackOnce: a session is issued once, as `ConnectPlayerSessions` does for each session of a game; the branch of `ReleaseRef` that calls `OnRelease` is unreachable after its assertion.
- Timer.Timer.Pop: the standard fixes only that pop removes the top and leaves a heap; the model moves the last element up and sifts it down.
- Timer.Timer.DoTimerJob: a method in Dafny has to end, so this one is given that the pass ends; `PassEndsIff` decides exactly when, and `DoTurns` is any number of turns of one that does not.
- ClientSession.ClientSession.OnReceive: the socket answers finitely often here; the end of the stream, where the source reads no bytes for ever, is any number of empty answers. What handlers and `Disconnect` do elsewhere is left out; whether a handler rejects its packet and whether the socket takes the linger option are inputs.
- `MoveRequest`'s floats are the four bytes they occupy.
- The Windows server's copy of `DispatchPacket` and of the buffer, the dummy client's simpler spinlock, `EchoBack`, logging, crash dumps, AWS calls, matchmaking, player counts and the Cocos2d client.
