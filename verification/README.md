# A verified model of the sherry library

Sherry is a coroutine network library: a chunked byte buffer with its codecs, a fiber scheduler
with timers and fd events underneath hooked system calls, a Redis client on its own event-loop
threads, and the address types. This project models its hard parts in Dafny and proves what they
promise, for every input, every run and every reachable state.

`dafny verify dfyconfig.toml` checks everything.

## Parts

- **Byte array** (`Bits`, `ByteArray`, `Codec`, `Fields`, `FieldStream`, `SocketStream`). The linked
  list of blocks with its cursor is a class; a ghost sequence `flat` is the memory it stands for, and
  `Valid()` says that the cursor is the node that holds the position, null exactly at full capacity.
  Typed fields are written, sought and read back through the class. A little-endian host is assumed,
  and the `ceil` of `addCapacity` is taken as exact.
- **Timers** (`Timer`). The ordered set keyed by (deadline, address) with all its operations, a ghost
  record of real time and of the deadline the waiter knows. A reading taken before the lock may be used
  late; only the one waiter's own readings are taken to come in order.
- **Fd events** (`IoEvents`, `IoManager`). The operations as functions on a value, with the laws of all
  their runs; the `IOManager` class with its table of `FdContext` objects follows those functions.
- **Runtime** (`Runtime`, `RuntimeSafety`, `RuntimeRuns`, `RuntimeAnswers`). Scheduler, fibers, fd events, timers and
  `do_io` composed, as a state machine. One action is one critical section, and what a worker carries from
  one to the next has a place of its own: an entry erased from the queue before the worker counts itself
  active (`stopping()` reads list and counter without the lock), a ready fiber between the counter's
  decrement and its `schedule`, and callbacks between `listExpiredCb` and their `schedule`. These are
  actions made of more than one section: counting and switch-in; yield, switch-out, the state update and
  the counter's decrement after it (`fiber.cc:200` writes HOLD before the context switch, so a finer split
  would not keep exclusivity); `addEvent` with its resize; the readings of one `stopping()`. The dispatch
  of an event finds it still registered (`IoEvents.DispatchKeeps` says what happens otherwise). The clock,
  epoll and the results of system calls, `epoll_ctl` among them, are the choice of the next action. User
  code may give its own handle to foreign code once and yield, as `FoxRedis::cmd` does. Two assumptions are
  made about the outside: nobody schedules from there after `stop`, and foreign code does not hand a fiber
  back after `stop` either. `connect_with_timeout` takes the same actions as a
  `do_io` that never retries, except that after a failed `addEvent` it asks the socket for its error.
- **FoxThread and FoxThreadPool** (`FoxThread`, `FoxThreadPool`). All interleavings of dispatchers and the
  event loop, and of submitters, releases and checks; the classes run the same steps.
- **FoxRedis and RedisManager** (`FoxRedis`, `RedisManager`). The race of reply and timeout over a request
  record on the suspended fiber's stack, and the pools of named connections.
- **IPv6 text** (`Ipv6`). The printing loop, and a reader of section 2.2 of RFC 4291.
- `Sums` holds totals over sequences, `Wrappers` the option type.

## Where the code does not keep a promise

Each is stated exactly, with the condition under which the promise does hold and a concrete run.

- A zero-byte `read` follows a null cursor at full capacity, so a list of fields that ends with an empty
  string is not read back when its bytes fill whole blocks (`ByteArrays.ByteArray.Read`, `FieldStreams.RoundTrip`;
  one in `FieldStreams.EmptyTextCrashes`).
- The positioned `getReadBuffers` walks off the list exactly when the clamped range passes the capacity
  (`ByteArrays.ByteArray.GetReadBuffersAt`; one in `ByteArrays.PastTheEnd`).
- The dispatch loop of `idle` aborts when a reported bit is no longer registered while another still is
  (`IoEvents.DispatchKeeps`, `IoEvents.StaleReportFails`).
- A `do_io` wait can lose its timeout. It does so in two steps and in no other: `addEvent` when `tinfo` is
  already marked and its callback is past `cancelEvent`, because the timer fired between
  `addConditionTimer` and `addEvent`, or the callback of the round before marked `tinfo` after the test of
  `tinfo->cancelled`; and the callback's `cancelEvent` when `epoll_ctl` refuses it. A timed
  wait that did neither has its timeout under way (`RuntimeRuns.LosesExactly`,
  `RuntimeRuns.TimeoutUnderWay`, `RuntimeRuns.UnguardedStays`; runs in `RuntimeRuns.TimeoutCanBeLost` and
  `RuntimeRuns.RefusedCancelLoses`).
- A wait whose registration someone removes with `delEvent` is never resumed, and that is the only suspended
  fiber without a reference to wake it (`RuntimeRuns.SuspendedHasWake`, `RuntimeRuns.DroppedExactly`,
  `RuntimeRuns.DroppedForGood`; a run in `RuntimeRuns.WaitCanBeDropped`).
- `stopping()` can speak too soon: it does not see work that a worker has in its hands, so an idle fiber can
  end while a ready fiber is about to be scheduled again. Once `stopping()` holds everything is over if and
  only if no worker holds anything, and then for good; in a run an ended idle fiber always means that no
  work is left if and only if none ended while a worker held some (`RuntimeRuns.StoppingIsFinal`,
  `RuntimeRuns.ShutExactly`; what is held comes back, `RuntimeRuns.RequeuedComesBack`,
  `RuntimeRuns.FetchedComesBack`, `RuntimeRuns.ExpiredComesBack`; runs in `RuntimeRuns.StopSpeaksTooSoon`,
  `RuntimeRuns.FetchedAfterStop`, `RuntimeRuns.ExpiredAfterStop`).
- `stopping()` does not look at fibers whose handle is in foreign hands: once it holds, exactly those and the
  dropped waits are left suspended outside the workers' hands (`RuntimeRuns.StoppingLeaves`; a run in
  `RuntimeRuns.StopCanAbandon`).
- `FoxThread::stop` before `start` leaves its marker without a wake-up of its own: a quiet loop has run
  everything if and only if there was no such stop or a swap came since (`FoxThreads.QuietIsDone`,
  `FoxThreads.UnsentIsEarlyStop`; a run in `FoxThreads.EarlyStopIsOverlooked`).
- A Redis command that cannot be issued is resumed by its timer, but its context is never deleted
  (`FoxRedis.LeftContexts`, `FoxRedis.LeakExample`).

## Model

| member | source | states |
|---|---|---|
| ByteArrays.ByteArray.constructor | sherry/bytearray.cc:32-40 | one block, empty, big endian, cursor at the first node |
| ByteArrays.ByteArray.Clear | sherry/bytearray.cc:331-342 | only the first block stays, its bytes untouched, position and size 0, and the cursor invariant holds |
| ByteArrays.ByteArray.AddCapacity | sherry/bytearray.cc:498-527 | capacity becomes the least whole number of blocks that holds position + n, never less than before; existing bytes stay; a null cursor moves to the first new block |
| ByteArrays.GrownAddsBlocks | sherry/bytearray.cc:507-508 | the number of blocks the division and ceil ask for is the least that covers the shortage |
| ByteArrays.ByteArray.SetPosition | sherry/bytearray.cc:438-454 | fails exactly beyond the capacity and then changes nothing; else the position is v, the size grows to it, and the walk ends at the node holding v, null at full capacity |
| ByteArrays.ByteArray.Write | sherry/bytearray.cc:344-377 | overwrites the flat memory at the position across any number of blocks, extends the capacity by whole blocks, moves position and size |
| ByteArrays.ByteArray.Read | sherry/bytearray.cc:379-406 | returns exactly the next n flat bytes and advances; out of range exactly when n exceeds the unread size; null cursor exactly for n = 0 at full capacity |
| ByteArrays.ByteArray.ToString | sherry/bytearray.cc:529-537 | all unread flat bytes, state unchanged |
| ByteArrays.ByteArray.GetReadBuffers | sherry/bytearray.cc:555-584 | spans of min(len, unread) bytes that cover exactly the range from the position; state unchanged |
| ByteArrays.ByteArray.GetReadBuffersAt | sherry/bytearray.cc:586-621 | spans cover exactly [p, p + n), with n clamped by what follows the cursor; the walk leaves the list exactly when p + n passes the capacity, never for p at or before the position |
| ByteArrays.PastTheEnd | sherry/bytearray.cc:586-621 | a request that walks off the list |
| ByteArrays.ByteArray.GetWriteBuffers | sherry/bytearray.cc:623-651 | capacity grown, spans cover exactly [position, position + len) |
| SocketStreams.SpansDenoteSlice | sherry/bytearray.cc:555-621 | the bytes of covering spans concatenate to the requested slice of the flat memory |
| SocketStreams.SpansDisjoint | sherry/bytearray.cc:623-651 | two spans of one cover share no byte |
| SocketStreams.SpansReach | sherry/bytearray.cc:623-651 | every position of the range lies in one span |
| SocketStreams.StreamRead | sherry/socket_stream.cc:28-39 | scattering r received bytes into the spans and moving the position leaves what write of those bytes leaves |
| SocketStreams.StreamWrite | sherry/socket_stream.cc:48-61 | the spans sent are the next unread bytes, and the position moves over the sent ones |
| Codec.FixedRoundTrip | sherry/endian.h:12-27 | a word written in either byte order is read back |
| Codec.BigEndianReverses | sherry/bytearray.cc:70-110 | the big-endian layout is the little-endian one reversed |
| Codec.FixedBytes | sherry/bytearray.cc:70-110 | byte i is the i-th from the low end in little endian, from the high end in big endian |
| Codec.EncodeZigzagIs | sherry/bytearray.cc:112-126 | the wrapping arithmetic yields 2v or -2v-1 for every value of the type, INT_MIN included |
| Codec.DecodeZigzagIs | sherry/bytearray.cc:128-135 | the shift-and-xor decoder yields u/2 or -1-u/2 |
| Codec.ZigzagRoundTrip | sherry/bytearray.cc:112-135 | decode after encode is the identity on every width |
| Codec.ZigzagOnto | sherry/bytearray.cc:112-135 | encode after decode is the identity, so they are mutual inverses |
| Codec.VarintFitsItsBuffer | sherry/bytearray.cc:141-165 | at most 5 bytes for 32 bits and 10 for 64 |
| Codec.VarintGroups | sherry/bytearray.cc:141-165 | byte i carries the i-th group of seven bits, its top bit says that more follow, and no last group is written in vain |
| Codec.VarintRoundTrip | sherry/bytearray.cc:253-283 | the bit-by-bit decoder consumes exactly the encoded bytes, whatever follows, and returns the value |
| Codec.VarintReadsAny | sherry/bytearray.cc:253-283 | on any bytes the loop stops at the first without the top bit or when the shift passes the word, and returns what the groups write, cut to the word |
| Codec.VarintRunsOut | sherry/bytearray.cc:253-283 | data that ends inside a varint raises the exception at its end |
| Fields.EncodeIs | sherry/bytearray.cc:63-201 | the bytes of each kind of field: words in the array's order, two's complement, base 128, zigzag, the length cut to its prefix and the text behind it |
| Fields.FieldReadsBack | sherry/bytearray.cc:63-329 | one typed field: read back exactly when its length fits the prefix and it is not an empty string at full capacity; the outcome in each other case |
| Fields.TextReadsBack | sherry/bytearray.cc:179-201 | a string comes back whole exactly when its prefix can say its length, else as a strictly shorter start of it; nothing for a zero length at full capacity |
| Fields.FieldsReadBack | sherry/bytearray.cc:203-329 | lists of typed fields come back, ending where writing ended, if and only if all fit and the list does not end with an empty string at full capacity |
| FieldStreams.VarintBytes | sherry/bytearray.cc:141-150 | the writing loop produces the base-128 groups and stays inside its buffer |
| FieldStreams.WriteField | sherry/bytearray.cc:63-201 | writing a field through the class writes its encoding at the cursor |
| FieldStreams.ReadField | sherry/bytearray.cc:203-329 | reading a field through the class is the decoder on the flat memory, exceptions included |
| FieldStreams.ReadVarint | sherry/bytearray.cc:253-265 | the reading loop is the recursive decoder |
| FieldStreams.WriteThenRead | sherry/bytearray.cc:63-329 | write a list anywhere in an array, seek back, read: the exact condition for getting it back |
| FieldStreams.RoundTrip | tests/test_bytearray.cc:13-55 | the same on a new array for every block size: the list comes back if and only if every string's length fits its prefix and the list does not end with an empty string when the byte count is a multiple of the block size |
| FieldStreams.EmptyTextCrashes | sherry/bytearray.cc:299-305 | an empty 16-bit string in two-byte blocks is written, and reading it back follows the null cursor |
| Timers.LowerBound | sherry/timer.cc:6-24 | in a set ordered by the comparator the elements before the bound are exactly the smaller ones |
| Timers.TimerManager.AddTimer | sherry/timer.cc:99-105 | the timer is pending at now + ms, order and no-missed-deadline invariants kept however late the reading is used, the flag goes up exactly for a new front, and the waiter is woken exactly when it does |
| Timers.TimerManager.AddToFront | sherry/timer.cc:174-185 | insertion keeps the order; the flag goes up exactly for a timer that comes first; without a raised flag an earlier or equal front was there before |
| Timers.TimerManager.Cancel | sherry/timer.cc:40-49 | succeeds exactly for a pending timer, whose find never misses, and removes just it |
| Timers.TimerManager.Refresh | sherry/timer.cc:51-64 | same timers pending, the key changed only while out of the set, no deadline missed though the front check is skipped |
| Timers.TimerManager.Reset | sherry/timer.cc:66-90 | the new period and deadline in each branch, the same timers pending, the flag up exactly for a new front, all invariants kept |
| Timers.TimerManager.GetNextTimer | sherry/timer.cc:120-134 | the time to the earliest deadline, flag lowered, the deadline remembered |
| Timers.TimerManager.DetectClockRollover | sherry/timer.cc:187-195 | the comparison of 64-bit words means: back by more than an hour, or back at all within the clock's first hour |
| Timers.TimerManager.CountDue | sherry/timer.cc:150-158 | exactly the timers at or before now, for every address of the probe; all of them on rollover |
| Timers.TimerManager.ListExpiredCb | sherry/timer.cc:136-172 | the due callbacks in deadline order; one-shots leave for good, recurring ones are pending at now + period, all others untouched |
| Timers.FrontIsAnnounced | sherry/timer.cc:120-134 | with a real time that never went back, and readings used late, a front deadline before the one the waiter saw has raised the flag |
| IoEvents.AddKeeps | sherry/iomanager.cc:147-199 | all views agree after addEvent, failed or not; its assertion fails exactly for a bit already set |
| IoEvents.AddAnswers | sherry/iomanager.cc:147-199 | done exactly for an fd from 1 on with the bit unset and epoll_ctl willing; then that event's bit is set and its slot is filled with what was given, everything else as before; a table too short grows to fd * 1.5 |
| IoEvents.DelKeeps | sherry/iomanager.cc:201-233 | all views agree after delEvent |
| IoEvents.DelAnswers | sherry/iomanager.cc:201-233 | done exactly for a set bit with epoll_ctl willing; then that event's bit and slot are cleared, its task is dropped, everything else as before |
| IoEvents.CancelKeeps | sherry/iomanager.cc:235-265 | all views agree after cancelEvent |
| IoEvents.CancelAnswers | sherry/iomanager.cc:235-265 | the same, with the slot's task at the end of the queue |
| IoEvents.CancelAllKeeps | sherry/iomanager.cc:267-304 | all views agree after cancelAll, and a successful one leaves the fd unused |
| IoEvents.CancelAllAnswers | sherry/iomanager.cc:267-304 | done exactly for an fd with some bit set and epoll_ctl willing; the tasks of both slots are queued, read before write |
| IoEvents.DispatchKeeps | sherry/iomanager.cc:383-421 | all views agree after a dispatch unless triggerEvent's assertion fails, and exactly when that is |
| IoEvents.DispatchAnswers | sherry/iomanager.cc:383-421 | a report is acted on exactly when epoll_ctl agrees, some found event is registered and all are; then the found bits and slots are cleared, their tasks queued, read before write, and the counter falls by their number; else fds, queue and counter are as before |
| IoEvents.TriggerKeeps | sherry/iomanager.cc:80-97 | moving a slot's task to the queue keeps bits, slots, counter and the tally of tasks in step |
| IoEvents.RunKeeps | sherry/iomanager.cc:147-421 | in every run, with every kernel answer: bits = kernel interest, slot filled = bit set, counter = number of bits, and every task accepted is waiting, scheduled or dropped, once |
| IoEvents.StaleReportFails | sherry/iomanager.cc:396-421 | a run in which the dispatch assertion fails |
| IoManager.FdContext.TriggerEvent | sherry/iomanager.cc:80-97 | clears the bit and empties the slot, its task handed out |
| IoManager.IOManager.ContextResize | sherry/iomanager.cc:136-145 | new unused contexts with their own fd numbers, the old ones kept |
| IoManager.IOManager.AskKernel | sherry/iomanager.cc:169-174 | the operation asked of epoll_ctl always fits the kernel's list |
| IoManager.IOManager.Register | sherry/iomanager.cc:147-199 | addEvent on the object table is the function Add |
| IoManager.IOManager.Unregister | sherry/iomanager.cc:201-233 | delEvent on the object table is the function Del |
| IoManager.IOManager.CancelOne | sherry/iomanager.cc:235-265 | cancelEvent on the object table is the function Cancel |
| IoManager.IOManager.CancelEvery | sherry/iomanager.cc:267-304 | cancelAll on the object table is the function CancelAll, and its closing assertion holds |
| IoManager.IOManager.DispatchOne | sherry/iomanager.cc:383-421 | one harvested entry on the object table is the function Dispatch |
| IoManager.IOManager.Perform | sherry/iomanager.cc:147-421 | any operation follows the state machine, keeps the three views and the tally, and adds only new contexts, so operations chain |
| Runtime.Scan | sherry/scheduler.cc:172-195 | the first eligible entry, and a tickle exactly when one pinned elsewhere was passed |
| Runtime.ScanFindsFirst | sherry/scheduler.cc:172-195 | the entry the loop stops at is the one the state machine dequeues; off the end, the worker has nothing to do |
| RuntimeSafety.SoundAction | sherry/scheduler.cc:165-256 | every action leaves what it touches in order and does not disturb what others say |
| RuntimeSafety.ConsistentKept | sherry/scheduler.cc:165-256 | a change with that property keeps the whole invariant |
| RuntimeSafety.FetchSound | sherry/scheduler.cc:187-191 | an entry leaves the queue for the worker's hand, before the worker counts itself active |
| RuntimeSafety.RunFiberSound | sherry/scheduler.cc:204-217 | switching a dequeued fiber in |
| RuntimeSafety.RunCallbackSound | sherry/scheduler.cc:218-237 | running a callback on the kept or a new cb_fiber |
| RuntimeSafety.FinishSound | sherry/fiber.cc:216-249 | the end of a fiber's function, with the reset of a cb_fiber |
| RuntimeSafety.YieldHoldSound | sherry/fiber.cc:197-205 | suspension after a registration, a sleep timer or a handle given away |
| RuntimeSafety.YieldReadySound | sherry/fiber.cc:187-194 | yielding while ready: the worker counts itself inactive with the fiber in its hand |
| RuntimeSafety.RequeueSound | sherry/scheduler.cc:211-230 | the schedule of that fiber, in a section of its own |
| RuntimeSafety.FireSound | sherry/iomanager.cc:363-364 | an expired timer's callback comes into the idle worker's hands |
| RuntimeSafety.ReleaseSound | sherry/iomanager.cc:365-369 | and is scheduled from there |
| RuntimeSafety.UserTimerGone | sherry/timer.cc:40-49 | user code cancels one of its timers |
| RuntimeSafety.TriggerSound | sherry/iomanager.cc:80-97 | a slot's task is scheduled, its handle moved out of the slot, or epoll_ctl refuses and nothing changes |
| RuntimeSafety.DropSound | sherry/iomanager.cc:201-233 | delEvent of a waiting fiber's registration, or refused |
| RuntimeSafety.SleepSound | sherry/hook.cc:169-181 | sleep sets a timer that will schedule the fiber |
| RuntimeSafety.ParkSound | sherry/db/redis.cc:634-638 | a fiber gives its handle away before it yields |
| RuntimeSafety.HandBackSound | sherry/db/redis.cc:499-501 | foreign code schedules the handle it was given |
| RuntimeSafety.BeginSound | sherry/hook.cc:106-131 | a do_io call with its tinfo and its condition timer |
| RuntimeSafety.RegisterSound | sherry/hook.cc:133-142 | addEvent in do_io, with the timer cancelled when it fails |
| RuntimeSafety.DisarmSound | sherry/hook.cc:143-145 | the timer cancelled after the wait |
| RuntimeSafety.CheckSound | sherry/hook.cc:146-149 | the test after the wait keeps everything in order |
| RuntimeSafety.RetrySound | sherry/hook.cc:106-160 | after the test the retry with a new timer or the return, whatever happens to tinfo by then |
| RuntimeSafety.LockSound | sherry/hook.cc:123-128 | the timeout callback locks and marks tinfo, or does nothing |
| RuntimeSafety.ExpireSound | sherry/hook.cc:129-130 | the timeout callback's cancelEvent, whoever is registered then, or refused |
| RuntimeRuns.EveryRun | sherry/scheduler.cc:146-257 | the invariant in every state of every run of workers, fibers, timers and events |
| RuntimeRuns.OneWake | sherry/scheduler.h:83-114 | a fiber that has not started, waits in do_io or sleep, is parked or yielded ready has exactly one reference that can wake it (queue, slot, timer, resume callback or foreign hands), any other fiber none |
| RuntimeRuns.SuspendedHasWake | sherry/iomanager.cc:201-233 | a suspended fiber has a reference that can wake it if and only if its registration was not dropped |
| RuntimeRuns.DroppedExactly | sherry/iomanager.cc:201-233 | a wait is dropped by a successful delEvent of its slot and by nothing else |
| RuntimeRuns.DroppedForGood | sherry/iomanager.cc:228-232 | a dropped wait is not resumed by any later run |
| RuntimeRuns.WaitCanBeDropped | sherry/iomanager.cc:201-233 | a run that leaves a suspended fiber nobody can wake |
| RuntimeRuns.ResumedOnce | sherry/scheduler.cc:204-208 | a switch-in consumes the reference: the fiber runs and nothing can wake it again |
| RuntimeRuns.OneWorker | sherry/fiber.cc:143-156 | no fiber is on two workers, and EXEC means exactly being on one |
| RuntimeRuns.AssertionsHold | sherry/fiber.cc:105-156 | the state assertions of swapIn and reset never fail, and a queued fiber has never ended |
| RuntimeRuns.IoLeavesNothing | sherry/hook.cc:106-160 | a do_io call that returned has no timer and no registration left, and says ETIMEDOUT only if one of its own timers fired |
| RuntimeRuns.TimeoutUnderWay | sherry/hook.cc:122-131 | a timed wait in its slot has a timeout that can still end it if and only if it is not unguarded |
| RuntimeRuns.MarkedTimeoutIsIdle | sherry/hook.cc:124-127 | once tinfo is marked no timeout callback wakes anyone |
| RuntimeRuns.UnguardedStays | sherry/hook.cc:122-153 | a wait whose tinfo is marked with the callback past its cancelEvent stays suspended, without a timeout, until something else happens to its slot |
| RuntimeRuns.LosesExactly | sherry/hook.cc:122-142 | a step takes the timeout from a wait if and only if it is addEvent with tinfo marked and no callback at cancelEvent, or the refused cancelEvent of the wait's own callback |
| RuntimeRuns.ReachableOneCanceller | sherry/hook.cc:123-130 | at most one callback per call gets to cancelEvent, and it has marked tinfo |
| RuntimeRuns.RefusedCancelLoses | sherry/iomanager.cc:254-260 | a run in which the refused cancelEvent takes the timeout |
| RuntimeRuns.TimeoutCanBeLost | sherry/hook.cc:122-142 | a reachable state with a suspended timed wait and no timeout left |
| RuntimeRuns.CountersCount | sherry/scheduler.cc:191-253 | active counter = workers running a task, idle counter = workers inside idle, pending count = filled slots |
| RuntimeRuns.StoppingIsOver | sherry/iomanager.cc:318-324 | when stopping() holds there is no queued, running, timed or event-waiting work: what is left is in workers' or in foreign hands |
| RuntimeRuns.StoppingIsFinal | sherry/iomanager.cc:318-324 | once stopping() holds everything is over if and only if no worker has work in its hands; then no later run makes any, and handles in foreign hands stay there |
| RuntimeRuns.ShutExactly | sherry/scheduler.cc:243-246 | in a run an ended idle fiber means no work is left, at every moment, if and only if no idle fiber ended while a worker had work in its hands |
| RuntimeRuns.RequeuedComesBack | sherry/scheduler.cc:208-212 | a ready fiber in a worker's hand is queued by the worker's next step |
| RuntimeRuns.FetchedComesBack | sherry/scheduler.cc:190-207 | an entry in a worker's hand is run by the worker's next step |
| RuntimeRuns.ExpiredComesBack | sherry/iomanager.cc:363-369 | an expired callback in a worker's hands can be queued |
| RuntimeRuns.StopSpeaksTooSoon | sherry/scheduler.cc:208-212 | a run in which stopping() holds, an idle fiber ends on it, and a fiber is queued afterwards |
| RuntimeRuns.FetchedAfterStop | sherry/scheduler.cc:190-191 | a run in which stopping() holds with a fetched entry in a worker's hand |
| RuntimeRuns.ExpiredAfterStop | sherry/iomanager.cc:363-369 | a run in which stopping() holds with an expired callback in a worker's hands |
| RuntimeRuns.StoppingLeaves | sherry/iomanager.cc:318-324 | once stopping() holds the suspended fibers outside the workers' hands are exactly the dropped waits and those with their handle in foreign hands |
| RuntimeRuns.StopCanAbandon | sherry/iomanager.cc:318-324 | a run that stops on such a fiber |
| RuntimeAnswers.EndsExactly | sherry/hook.cc:133-160 | a do_io call ends as failed exactly on a refused addEvent, as ETIMEDOUT exactly on a marked tinfo at the test, as returned exactly when fun answers after it |
| RuntimeAnswers.ResultStays | sherry/hook.cc:133-160 | a result is final |
| RuntimeAnswers.MarkedExactly | sherry/hook.cc:123-128 | tinfo is marked by the call's own callback that locks it before the call ends, and by nothing else |
| RuntimeAnswers.FiredExactly | sherry/timer.cc:136-172 | a call's timer fired when the expiry of one of its timers was met, and not before |
| RuntimeAnswers.ChecksTinfo | sherry/hook.cc:146-152 | after the wait ETIMEDOUT if and only if tinfo is marked, else fun again |
| RuntimeAnswers.RetriesOrReturns | sherry/hook.cc:109-160 | a new timer for the next round, or the return |
| RuntimeAnswers.BeginsCall | sherry/hook.cc:106-131 | a new, unmarked call; a timer of its own exactly when it has a timeout |
| RuntimeAnswers.RegistersOrFails | sherry/hook.cc:133-142 | the fiber in the slot, or the call failed with its timer gone |
| RuntimeAnswers.DisarmsTimer | sherry/hook.cc:143-145 | the call's own timer leaves, nothing else |
| RuntimeAnswers.LocksOrLeaves | sherry/hook.cc:123-128 | the callback marks a live, unmarked tinfo and goes on to cancelEvent, or does nothing |
| RuntimeAnswers.ExpiryQueues | sherry/hook.cc:129-130 | its cancelEvent queues whoever is in the slot then |
| RuntimeAnswers.NeverStuck | sherry/scheduler.cc:165-256 | a worker that has not exited has a next step in every reachable state |
| RuntimeAnswers.NextStep | sherry/hook.cc:109-160 | a running fiber can take the step its code stands at |
| RuntimeAnswers.WakeQueues | sherry/iomanager.cc:235-265 | readiness and cancelEvent move the slot's task to the end of the queue, and change nothing when epoll_ctl refuses |
| RuntimeAnswers.DropDiscards | sherry/iomanager.cc:201-233 | delEvent takes the slot's task off the board |
| RuntimeAnswers.ScheduleQueues | sherry/scheduler.h:30-80 | a new fiber or callback at the end of the queue, pinned as asked |
| RuntimeAnswers.HandBackQueues | sherry/db/redis.cc:522-526 | a handle given back goes to the end of the queue |
| RuntimeAnswers.UserWaits | sherry/timer.cc:40-49 | user code sets and cancels its timers and watches a slot, and only that changes |
| RuntimeAnswers.TimerComesDue | sherry/timer.cc:159-171 | an expired one-shot leaves the timers, a recurring one stays as well |
| RuntimeAnswers.DueIsQueued | sherry/iomanager.cc:365-369 | its callback goes to the end of the queue |
| RuntimeAnswers.FetchIsFirst | sherry/scheduler.cc:172-195 | a worker fetches the first entry that is neither pinned to another thread nor a running fiber, and rests exactly when there is none |
| RuntimeAnswers.FetchTakes | sherry/scheduler.cc:187-191 | the entry moves from the queue to the worker's hand |
| RuntimeAnswers.SwitchInRuns | sherry/scheduler.cc:204-207 | the fiber runs where it left off |
| RuntimeAnswers.CallBackRuns | sherry/scheduler.cc:218-225 | the callback runs from its start, on the kept cb_fiber or a new one |
| RuntimeAnswers.RequeueQueues | sherry/scheduler.cc:211-212 | the ready fiber goes to the end of the queue |
| RuntimeAnswers.IdleAnswers | sherry/scheduler.cc:243-253 | a worker without a task rests, or exits once its idle fiber has ended |
| RuntimeAnswers.YieldsReady | sherry/fiber.cc:187-194 | off the worker, ready, in the worker's hand |
| RuntimeAnswers.SuspendsOnHold | sherry/fiber.cc:197-205 | off the worker, on hold, a cb_fiber given up |
| RuntimeAnswers.EndsForGood | sherry/fiber.cc:216-249 | ended by return or by exception; a cb_fiber kept for reuse |
| RuntimeAnswers.SleepsOnTimer | sherry/hook.cc:169-181 | a timer that will resume this fiber |
| RuntimeAnswers.ResumesSleeper | sherry/hook.cc:169-181 | its callback queues this fiber |
| RuntimeAnswers.ParksHandle | sherry/db/redis.cc:634-638 | the handle in foreign hands |
| FoxThreads.EveryRun | sherry/db/fox_thread.cc:38-70 | in every interleaving a queued callback has a byte in the pipe, a dispatcher about to send, or a reader about to swap, or the loop has ended, or a stop came before start; and the order of submission is kept |
| FoxThreads.RunsInOrder | sherry/db/fox_thread.cc:47-66 | callbacks run in submission order, at most once, none after a stop marker |
| FoxThreads.SubmittedIs | sherry/db/fox_thread.cc:192-245 | what was submitted is the callbacks of the dispatches and a marker for each stop, in the order of the run |
| FoxThreads.WakeUpComes | sherry/db/fox_thread.cc:192-225 | without an early stop a queued callback of a loop that has not ended has a byte in the pipe, a dispatcher about to send, or a reader about to swap |
| FoxThreads.QuietIsDone | sherry/db/fox_thread.cc:192-225 | when the loop waits on an empty pipe with no sender under way, everything submitted has run if and only if no stop came before start or a swap came since |
| FoxThreads.UnsentIsEarlyStop | sherry/db/fox_thread.cc:233-245 | the marker waits without a byte of its own if and only if a stop came before start and nothing was swapped since |
| FoxThreads.EarlyStopIsOverlooked | sherry/db/fox_thread.cc:233-245 | the run that shows it |
| FoxThreads.FoxThread.BatchDispatch | sherry/db/fox_thread.cc:214-225 | all entries join the end of the list in order and one byte is sent, from outside or from a running callback; dispatch is the batch of one |
| FoxThreads.FoxThread.StopThread | sherry/db/fox_thread.cc:233-245 | the marker is pushed, a byte sent only to a started thread; the caller may be a running callback |
| FoxThreads.FoxThread.TakeAll | sherry/db/fox_thread.cc:38-46 | up to 4096 bytes are taken and the list is swapped out |
| FoxThreads.FoxThread.RunBatch | sherry/db/fox_thread.cc:47-66 | the loop runs the batch up to the marker, with whatever its callbacks dispatch or stop from inside |
| FoxThreads.FoxThread.ReadCb | sherry/db/fox_thread.cc:38-70 | the whole list is swapped out and its callbacks before the first marker have run, the loop going on exactly without one; callbacks may dispatch and stop from inside, all entries counted |
| FoxThreadPools.EveryRun | sherry/db/fox_thread.cc:309-388 | the pool's invariants in every interleaving of submitters, callbacks, releases and checks |
| FoxThreadPools.NothingLost | sherry/db/fox_thread.cc:280-388 | each thread is once in the free list or leased, each callback queued, held by one thread or finished, in FIFO order; with no check under way no free thread leaves a callback waiting |
| FoxThreadPools.SubmittedIs | sherry/db/fox_thread.cc:316-351 | what was submitted is the callbacks of the dispatches, in the order of the run |
| FoxThreadPools.FinishesAndReturns | sherry/db/fox_thread.cc:309-315 | a callback that has run is finished, once, and its released thread joins the free list |
| FoxThreadPools.CheckedHandsOut | sherry/db/fox_thread.cc:357-383 | the front callbacks go to the front threads, one to one, as many as there are of both; all other threads stay |
| FoxThreadPools.CheckedKeeps | sherry/db/fox_thread.cc:357-383 | check ends with no free thread or no queued callback |
| FoxThreadPools.FoxThreadPool.Check | sherry/db/fox_thread.cc:357-383 | the loop hands the front callbacks to the front threads and terminates |
| FoxThreadPools.FoxThreadPool.Begin | sherry/db/fox_thread.cc:280-291 | all threads free, then what was queued is handed out |
| FoxThreadPools.FoxThreadPool.BatchDispatch | sherry/db/fox_thread.cc:336-351 | the callbacks join the queue in order, then check |
| FoxThreadPools.FoxThreadPool.ReleaseFoxThread | sherry/db/fox_thread.cc:309-315 | the released thread goes straight to the first waiting callback, if any |
| FoxRedis.EveryRun | sherry/db/redis.cc:471-774 | the invariant in every interleaving of callers, replies, errors and timeouts |
| FoxRedis.CommandIsSafe | sherry/db/redis.cc:471-530 | a command's fiber is resumed at most once, its record is not used after that, a reply is stored only before the timeout, and m_ctxCount is the number of live contexts |
| FoxRedis.CallWaits | sherry/db/redis.cc:631-638 | a call leaves a record with its handle and no reply, and its pcmd queued |
| FoxRedis.AnswerArrives | sherry/db/redis.cc:471-530 | an answer before the timeout resumes the fiber and leaves v in the record exactly for the reply v; after it the record is as before; the context goes |
| FoxRedis.ReplyStays | sherry/db/redis.cc:471-774 | no other action touches a reply |
| FoxRedis.RecordIsThere | sherry/db/redis.cc:471-774 | whenever a callback looks into the record the caller has not returned |
| FoxRedis.HistoryIs | sherry/db/redis.cc:471-774 | resumed, timed out, issued and alive say exactly which actions the run had |
| FoxRedis.ResumeComes | sherry/db/redis.cc:614-704 | a command not yet resumed has its pcmd queued or its timer armed, and each leads to the resume |
| FoxRedis.Client.Pcmd | sherry/db/redis.cc:675-704 | pcmd on the record: resumed at once when unconnected, else a context with an armed timer and the counter up |
| FoxRedis.Client.CmdCb | sherry/db/redis.cc:471-530 | the answer on the objects: after a timeout the record is left untouched, else the reply is stored and the fiber scheduled; the context goes and the counter falls on every path |
| FoxRedis.Client.EventCb | sherry/db/redis.cc:760-774 | the timeout on the objects: marked, and the fiber scheduled once |
| FoxRedis.LeftContexts | sherry/db/redis.cc:713-774 | with no callback left to come every command's fiber was resumed exactly once, a command has a context if and only if it timed out and could not be issued, and the counter is their number |
| FoxRedis.LeakExample | sherry/db/redis.cc:685-704 | a run that leaves one |
| RedisManagers.RedisManager.constructor | sherry/db/redis.cc:1206-1269 | a list for exactly the names with a known type and a positive pool, of that many new connections of that type, none leased |
| RedisManagers.RedisManager.Connect | sherry/db/redis.cc:1221-1228 | a new connection joins the end of the list of its name |
| RedisManagers.RedisManager.Take | sherry/db/redis.cc:1169-1184 | the front connection, rotated when asynchronous, else out of the list |
| RedisManagers.RedisManager.Settle | sherry/db/redis.cc:1185-1199 | leased, or back in its own list exactly when it was quiet for over 30 s and neither ping nor reconnect worked |
| RedisManagers.RedisManager.Get | sherry/db/redis.cc:1169-1199 | the front connection, exactly when there is one that is asynchronous, recently active, or answers the ping or the reconnect; the list rotated, without its front, or with it at the end, in each case; each connection of the initial pools stays once free under its own name, leased or in a get's hand |
| RedisManagers.RedisManager.FreeRedis | sherry/db/redis.cc:1201-1204 | the connection goes back under its own name, once |
| RedisManagers.RedisManager.GetMany | sherry/db/redis.cc:1178-1184 | after k gets from n asynchronous connections each was returned the floor or the ceiling of k / n times |
| Ipv6.Insert | sherry/address.cc:398-422 | the flag-driven loop prints the groups with the first zero run compressed |
| Ipv6.OneDouble | sherry/address.cc:402-418 | the text has a "::" exactly when some group is zero, once, for the first zero run |
| Ipv6.HexShape | sherry/address.cc:402-418 | no leading zeros |
| Ipv6.ParseCompressed | sherry/address.cc:402-418 | section 2.2 of RFC 4291 reads the text back to the same groups |
| Ipv6.EndpointReadsBack | sherry/address.cc:398-422 | reading the whole text recovers groups and port |
| Ipv6.InsertInjective | sherry/address.cc:398-422 | two endpoints that print alike are the same endpoint |

## Left out

- The worker loop, fibers and do_io are steps over values, not objects: update in place and aliasing of fiber handles are represented by the places a handle can be in. That a stack frame is gone is a flag of the FoxRedis request.
- A block's memory is a field of the node that holds a sequence of bytes, not an array.
- FoxThreads.FoxThread.ReadCb: of what a callback does, only what it dispatches to its own thread and its stops are there.
- RedisManagers.RedisManager.constructor: connecting, the fox threads that build asynchronous connections and the wait for them are one call; pool sizes are not negative.
- FoxThreads.FoxThread.Begin: restarting a thread after join is not modelled.
- RedisManagers.RedisManager.Get: the ping, the reconnect and the clock are arguments.
- The positioned read away from the current block (it starts from the cursor's node), writeToFile, readFromFile, toHexString and the float and double codecs.
- Wake-up by tickle and its liveness; epoll's 3000 ms cap; the order of workers.
- use_caller root-thread mode, thread-local pointers, ucontext switching, stack allocation.
- 64-bit overflow of now + ms in timers.
- Several waiters on one timer set, whose readings could be out of order by more than an hour.
- A fiber handle that user code gives to two parties.
- `stopping()` whose readings of timers, pending events, queue and counter come from different moments; work that appears between two of them can be missed as well.
- Growth of the fd table by two threads at once, and closing an fd that is still registered.
- FoxThreadPool outside advance mode, dispatch to a chosen thread, threads of the pool that are not started.
- FoxRedisCluster, a near copy of FoxRedis; connecting, authentication and the ping timer.
- URI and HTTP parsers (generated machines), http_buffer, stream helpers, address lookup and masks, config, logging, OTA services.
