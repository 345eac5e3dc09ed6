/** sherry/scheduler.cc, sherry/scheduler.h, sherry/fiber.cc, sherry/iomanager.cc and
    sherry/hook.cc composed: workers share a task queue, fibers suspend on fd events and
    timers, and shutdown is decided by counters. One action is one critical section. What a
    worker carries from one to the next is in its hands: a dequeued entry that is not yet
    counted, a ready fiber to be scheduled again, expired callbacks. Counting and switch-in are
    one action, and so are yield, switch-out and the update of the fiber's state after it. */
module Runtime {
  import opened Wrappers

  datatype FiberState = INIT | HOLD | EXEC | TERM | READY | EXCEPT

  // A callback: user code, the timeout of a do_io call, or the resume of a sleeping fiber.
  datatype Callback = UserCb | TimeoutCb(call: nat) | ResumeCb(fiber: nat)
  datatype Task = FiberTask(fiber: nat) | CbTask(cb: Callback)

  // A place where a task waits: the scheduler's queue, by ever-growing ticket; the event slot
  // of an (fd, event) pair; the timer set, by ever-growing id; a fiber that runs a resume
  // callback and has not scheduled its fiber yet; foreign code that a parked fiber gave its
  // handle to, as FoxRedis::cmd does; or the hands of a worker, at its loop or, for an expired
  // timer, in its idle fiber.
  datatype Place =
    | InQueue(ticket: nat) | InSlot(slot: nat) | OnTimer(timer: nat) | InFiber(fiber: nat) | Handed(fiber: nat)
    | Held(worker: nat) | Expired(worker: nat, timer: nat)

  // A waiting task; a queued one may be pinned to a worker, a timer may be recurring.
  datatype Item = Item(task: Task, thread: Option<nat>, recurring: bool)

  // Where a fiber's code stands.
  datatype Pc =
    | Fresh                    // scheduled, not started
    | User                     // ordinary code
    | Armed(call: nat)         // do_io: timer set, about to addEvent
    | Registered(call: nat)    // do_io: in an event slot, about to yield or suspended
    | Dropped(call: nat)       // the same, after someone's delEvent threw the slot away
    | Woken(call: nat)         // do_io: resumed, timer not yet cancelled
    | Checking(call: nat)      // do_io: timer cancelled, about to look at tinfo->cancelled
    | Retrying(call: nat)      // do_io: found it unmarked, calls fun again
    | Sleeping                 // sleep: timer set, about to yield or suspended
    | Parked                   // handle given away, about to yield or suspended
    | Alarm(call: nat)         // timeout callback: about to lock its tinfo
    | Cancelling(call: nat)    // timeout callback: about to cancelEvent
    | Resuming(fiber: nat)     // resume callback: about to schedule the fiber
    | Retained(worker: nat)    // an ended cb_fiber kept for the next callback
    | Ended

  // worker is history: no action looks at it.
  datatype Fiber = Fiber(state: FiberState, pc: Pc, worker: Option<nat>)

  datatype Result = Returned | Failed | TimedOut

  // A do_io call: its event slot, whether it has a timeout, its current timer, whether tinfo
  // is cancelled (tinfo lives until the result); as history, whether a timer of its fired and
  // where the callback of the current timer is until it has locked tinfo.
  datatype Call = Call(owner: nat, slot: nat, timed: bool, timer: Option<nat>, cancelled: bool,
                       result: Option<Result>, fired: bool, alarm: Option<Place>)

  // Fetched: took an entry from the queue and has not counted itself active. Requeueing: counted
  // itself inactive and has not scheduled its ready fiber.
  datatype Mode = AtLoop | Fetched | Running(fiber: nat) | Requeueing | InIdle | Exited
  datatype Worker = Worker(mode: Mode, cbFiber: Option<nat>, idleDone: bool)

  // refs is history: for each fiber, the place of the reference that can wake it.
  datatype State = State(
    fibers: seq<Fiber>, calls: seq<Call>, workers: seq<Worker>,
    board: map<Place, Item>, refs: map<nat, Place>, ticket: nat, timerId: nat,
    active: int, idle: int, pending: int, stopping: bool)

  // What one action changes: an item taken from the board and one put on it, one fiber, one
  // call, one worker (an index past the end adds one) and the three counters.
  datatype Change = Change(
    take: Option<Place>, put: Option<(Place, Item)>,
    fiber: Option<(nat, Fiber)>, call: Option<(nat, Call)>, worker: Option<(nat, Worker)>,
    active: int, idle: int, pending: int, stop: bool)

  const NOTHING := Change(None, None, None, None, None, 0, 0, 0, false)

  // The fiber a task would bring back.
  function Wakes(t: Task): Option<nat> {
    match t
    case FiberTask(f) => Some(f)
    case CbTask(ResumeCb(f)) => Some(f)
    case CbTask(_) => None
  }

  function Store<T>(s: seq<T>, change: Option<(nat, T)>): seq<T> {
    match change
    case None => s
    case Some(c) => if c.0 < |s| then s[c.0 := c.1] else s + [c.1]
  }

  function Taken(s: State, take: Option<Place>): State {
    if take.None? || take.value !in s.board then s
    else
      s.(board := s.board - {take.value},
         refs := match Wakes(s.board[take.value].task) case Some(f) => s.refs - {f} case None => s.refs)
  }

  function Placed(s: State, put: Option<(Place, Item)>): State {
    match put
    case None => s
    case Some(c) =>
      s.(board := s.board[c.0 := c.1],
         refs := match Wakes(c.1.task) case Some(f) => s.refs[f := c.0] case None => s.refs,
         ticket := if c.0.InQueue? then s.ticket + 1 else s.ticket,
         timerId := if c.0.OnTimer? then s.timerId + 1 else s.timerId)
  }

  function Apply(s: State, ch: Change): State {
    var t := Placed(Taken(s, ch.take), ch.put);
    t.(fibers := Store(s.fibers, ch.fiber), calls := Store(s.calls, ch.call), workers := Store(s.workers, ch.worker),
       active := s.active + ch.active, idle := s.idle + ch.idle, pending := s.pending + ch.pending,
       stopping := s.stopping || ch.stop)
  }

  // scheduleNoLock, and setting a timer.
  function Queued(s: State, t: Task, thread: Option<nat>): Option<(Place, Item)> {
    Some((InQueue(s.ticket), Item(t, thread, false)))
  }

  function Timed(s: State, cb: Callback, recurring: bool): Option<(Place, Item)> {
    Some((OnTimer(s.timerId), Item(CbTask(cb), None, recurring)))
  }

  predicate OnWorker(s: State, w: nat) {
    w < |s.workers| && s.workers[w].mode.Running? && s.workers[w].mode.fiber < |s.fibers|
  }

  // The fiber on a worker, and where it stands.
  function Cur(s: State, w: nat): (f: nat)
    requires OnWorker(s, w)
    ensures f < |s.fibers|
  {
    s.workers[w].mode.fiber
  }

  function PcOf(s: State, w: nat): Pc
    requires OnWorker(s, w)
  {
    s.fibers[Cur(s, w)].pc
  }

  function Goto(s: State, w: nat, pc: Pc): Option<(nat, Fiber)>
    requires OnWorker(s, w)
  {
    Some((Cur(s, w), s.fibers[Cur(s, w)].(pc := pc)))
  }

  // schedule, from outside or from user code: a new fiber or a callback.
  function Spawn(s: State, fiber: bool, thread: Option<nat>): Change {
    if fiber then
      NOTHING.(put := Queued(s, FiberTask(|s.fibers|), thread), fiber := Some((|s.fibers|, Fiber(INIT, Fresh, None))))
    else
      NOTHING.(put := Queued(s, CbTask(UserCb), thread))
  }

  // The scan of the queue: entries pinned elsewhere and running fibers are passed over.
  predicate Eligible(s: State, w: nat, e: Item) {
    && (e.thread.None? || e.thread.value == w)
    && (e.task.FiberTask? ==> e.task.fiber < |s.fibers| && !s.fibers[e.task.fiber].state.EXEC?)
  }

  predicate Elsewhere(w: nat, e: Item) {
    e.thread.Some? && e.thread.value != w
  }

  // The loop over the list: it stops at the first eligible entry, and asks for a tickle when it
  // passed one that is pinned to another thread.
  method Scan(s: State, w: nat, entries: seq<Item>) returns (k: nat, tickle: bool)
    requires forall i :: 0 <= i < |entries| && entries[i].task.FiberTask? ==> entries[i].task.fiber < |s.fibers|
    ensures k <= |entries| && (k < |entries| ==> Eligible(s, w, entries[k]))
    ensures forall i :: 0 <= i < k ==> !Eligible(s, w, entries[i])
    ensures tickle <==> exists i :: 0 <= i < k && Elsewhere(w, entries[i])
  {
    k, tickle := 0, false;
    while k < |entries|
      invariant k <= |entries|
      invariant forall i :: 0 <= i < k ==> !Eligible(s, w, entries[i])
      invariant tickle <==> exists i :: 0 <= i < k && Elsewhere(w, entries[i])
    {
      var e := entries[k];
      if Elsewhere(w, e) {
        tickle := true;
      } else if !(e.task.FiberTask? && s.fibers[e.task.fiber].state.EXEC?) {
        return;
      }
      k := k + 1;
    }
  }

  // The tickets of the queue, in order, with their entries.
  ghost predicate Listed(s: State, tickets: seq<nat>, entries: seq<Item>) {
    && |tickets| == |entries|
    && (forall i, j :: 0 <= i < j < |tickets| ==> tickets[i] < tickets[j])
    && (forall i :: 0 <= i < |tickets| ==> InQueue(tickets[i]) in s.board && s.board[InQueue(tickets[i])] == entries[i])
    && (forall p :: p in s.board && p.InQueue? ==> p.ticket in tickets)
  }

  // The entry the scan stops at is the one that may be dequeued; running off the end, the worker
  // has nothing to do.
  lemma ScanFindsFirst(s: State, w: nat, tickets: seq<nat>, entries: seq<Item>, k: nat)
    requires w < |s.workers| && s.workers[w].mode.AtLoop? && Listed(s, tickets, entries)
    requires k <= |entries| && forall i :: 0 <= i < k ==> !Eligible(s, w, entries[i])
    ensures k < |entries| ==> (First(s, w, tickets[k]) <==> Eligible(s, w, entries[k]))
    ensures k == |entries| ==> NothingFor(s, w)
  {
    assert k < |entries| ==> forall i :: k < i < |entries| ==> tickets[k] < tickets[i];
    forall p | p in s.board && p.InQueue? && (k == |entries| || p.ticket < tickets[k])
      ensures !Eligible(s, w, s.board[p])
    {
      var i :| 0 <= i < |tickets| && tickets[i] == p.ticket;
      assert s.board[InQueue(tickets[i])] == entries[i];
    }
  }

  predicate First(s: State, w: nat, k: nat) {
    && w < |s.workers| && s.workers[w].mode.AtLoop?
    && InQueue(k) in s.board && Eligible(s, w, s.board[InQueue(k)])
    && forall p :: p in s.board && p.InQueue? && p.ticket < k ==> !Eligible(s, w, s.board[p])
  }

  // The current timer's callback goes from one place to another.
  function Moved(s: State, t: Task, from: Place, to: Place): Option<(nat, Call)> {
    match t
    case CbTask(TimeoutCb(c)) =>
      if c < |s.calls| && s.calls[c].alarm == Some(from) then Some((c, s.calls[c].(alarm := Some(to)))) else None
    case _ => None
  }

  // The entry leaves the queue; the worker is not counted active yet.
  function Fetch(s: State, w: nat, k: nat): Change
    requires First(s, w, k)
  {
    var item := s.board[InQueue(k)];
    NOTHING.(take := Some(InQueue(k)), put := Some((Held(w), item)),
             call := Moved(s, item.task, InQueue(k), Held(w)),
             worker := Some((w, s.workers[w].(mode := Fetched))))
  }

  predicate Fetching(s: State, w: nat) {
    w < |s.workers| && s.workers[w].mode.Fetched? && Held(w) in s.board
  }

  // A dequeued fiber is switched in; an ended one would be let go.
  function RunFiber(s: State, w: nat): Change
    requires Fetching(s, w) && s.board[Held(w)].task.FiberTask? && s.board[Held(w)].task.fiber < |s.fibers|
  {
    var f := s.board[Held(w)].task.fiber;
    var fb := s.fibers[f];
    if fb.state.TERM? || fb.state.EXCEPT? then
      NOTHING.(take := Some(Held(w)), worker := Some((w, s.workers[w].(mode := AtLoop))))
    else
      NOTHING.(take := Some(Held(w)),
               fiber := Some((f, Fiber(EXEC, if fb.pc.Registered? then Woken(fb.pc.call) else User, Some(w)))),
               worker := Some((w, s.workers[w].(mode := Running(f)))),
               active := 1)
  }

  function Entrance(cb: Callback): Pc {
    match cb
    case UserCb => User
    case TimeoutCb(c) => Alarm(c)
    case ResumeCb(f) => Resuming(f)
  }

  // A dequeued callback runs on the kept cb_fiber or on a new one.
  function RunCallback(s: State, w: nat): Change
    requires Fetching(s, w) && s.board[Held(w)].task.CbTask?
  {
    var item := s.board[Held(w)];
    var f := match s.workers[w].cbFiber case Some(g) => g case None => |s.fibers|;
    NOTHING.(take := Some(Held(w)),
             put := if Wakes(item.task).Some? then Some((InFiber(f), item)) else None,
             fiber := Some((f, Fiber(EXEC, Entrance(item.task.cb), Some(w)))),
             call := Moved(s, item.task, Held(w), InFiber(f)),
             worker := Some((w, s.workers[w].(mode := Running(f), cbFiber := Some(f)))),
             active := 1)
  }

  predicate NothingFor(s: State, w: nat) {
    && w < |s.workers| && s.workers[w].mode.AtLoop?
    && forall p :: p in s.board && p.InQueue? ==> !Eligible(s, w, s.board[p])
  }

  // With no task the worker goes into its idle fiber, or ends when that has ended.
  function Rest(s: State, w: nat): Change
    requires NothingFor(s, w)
  {
    if s.workers[w].idleDone then NOTHING.(worker := Some((w, s.workers[w].(mode := Exited))))
    else NOTHING.(worker := Some((w, s.workers[w].(mode := InIdle))), idle := 1)
  }

  predicate Idling(s: State, w: nat) {
    w < |s.workers| && s.workers[w].mode.InIdle?
  }

  predicate Stopping(s: State) {
    && s.stopping && s.pending == 0 && s.active == 0
    && forall p :: p in s.board ==> !p.OnTimer? && !p.InQueue?
  }

  // Between two passes of idle every expired callback has been scheduled.
  predicate EmptyHanded(s: State, w: nat) {
    forall p :: p in s.board && p.Expired? ==> p.worker != w
  }

  // The idle fiber swaps out, or ends, which it does when it finds the scheduler stopping.
  function Unrest(s: State, w: nat, done: bool): Change
    requires Idling(s, w)
  {
    NOTHING.(worker := Some((w, s.workers[w].(mode := AtLoop, idleDone := s.workers[w].idleDone || done))), idle := -1)
  }

  // listExpiredCb, for one timer.
  function Fire(s: State, w: nat, i: nat): Change
    requires OnTimer(i) in s.board
  {
    var item := s.board[OnTimer(i)];
    NOTHING.(take := if item.recurring then None else Some(OnTimer(i)),
             put := Some((Expired(w, i), Item(item.task, None, false))),
             call := match item.task
                     case CbTask(TimeoutCb(c)) =>
                       if c < |s.calls| then Some((c, s.calls[c].(fired := true, alarm := Some(Expired(w, i))))) else None
                     case _ => None)
  }

  // The schedule after it.
  function Release(s: State, w: nat, i: nat): Change
    requires Expired(w, i) in s.board
  {
    var t := s.board[Expired(w, i)].task;
    NOTHING.(take := Some(Expired(w, i)), put := Queued(s, t, None), call := Moved(s, t, Expired(w, i), InQueue(s.ticket)))
  }

  // cancelEvent, and the dispatch of an event: the slot's task is scheduled, unless epoll_ctl
  // refuses.
  function Trigger(s: State, k: nat, ok: bool): Change {
    if ok && InSlot(k) in s.board then
      NOTHING.(take := Some(InSlot(k)), put := Queued(s, s.board[InSlot(k)].task, None), pending := -1)
    else NOTHING
  }

  // delEvent: a waiting fiber loses its registration, unless epoll_ctl refuses.
  function Drop(s: State, k: nat, ok: bool): Change {
    if !ok || InSlot(k) !in s.board then NOTHING
    else
      NOTHING.(take := Some(InSlot(k)), pending := -1,
               fiber := match s.board[InSlot(k)].task
                        case CbTask(_) => None
                        case FiberTask(f) =>
                          if f < |s.fibers| && s.fibers[f].pc.Registered? then
                            Some((f, s.fibers[f].(pc := Dropped(s.fibers[f].pc.call))))
                          else None)
  }

  // After a switch-out the worker counts itself inactive; a suspended cb_fiber is given up.
  function Leave(s: State, w: nat, fb: Fiber, keep: bool, mode: Mode): Change
    requires OnWorker(s, w)
  {
    var cb := s.workers[w].cbFiber;
    NOTHING.(fiber := Some((Cur(s, w), fb)),
             worker := Some((w, s.workers[w].(mode := mode, cbFiber := if cb == Some(Cur(s, w)) && !keep then None else cb))),
             active := -1)
  }

  function YieldReady(s: State, w: nat): Change
    requires OnWorker(s, w)
  {
    Leave(s, w, Fiber(READY, User, None), false, Requeueing).(
      put := Some((Held(w), Item(FiberTask(Cur(s, w)), None, false))))
  }

  // The schedule of the ready fiber, in a critical section of its own.
  function Requeue(s: State, w: nat): Change
    requires w < |s.workers| && Held(w) in s.board
  {
    NOTHING.(take := Some(Held(w)), put := Queued(s, s.board[Held(w)].task, None),
             worker := Some((w, s.workers[w].(mode := AtLoop))))
  }

  function YieldHold(s: State, w: nat): Change
    requires OnWorker(s, w)
  {
    Leave(s, w, Fiber(HOLD, PcOf(s, w), None), false, AtLoop)
  }

  // The end of a fiber's function; a cb_fiber is reset for reuse.
  function Finish(s: State, w: nat, threw: bool): Change
    requires OnWorker(s, w)
  {
    if s.workers[w].cbFiber == Some(Cur(s, w)) then Leave(s, w, Fiber(INIT, Retained(w), None), true, AtLoop)
    else Leave(s, w, Fiber(if threw then EXCEPT else TERM, Ended, None), true, AtLoop)
  }

  function Sleep(s: State, w: nat): Change
    requires OnWorker(s, w)
  {
    NOTHING.(put := Timed(s, ResumeCb(Cur(s, w)), false), fiber := Goto(s, w, Sleeping))
  }

  // A fiber gives its handle to foreign code before it yields; that code schedules it.
  function Park(s: State, w: nat): Change
    requires OnWorker(s, w)
  {
    NOTHING.(put := Some((Handed(Cur(s, w)), Item(FiberTask(Cur(s, w)), None, false))), fiber := Goto(s, w, Parked))
  }

  function HandBack(s: State, f: nat): Change
    requires Handed(f) in s.board
  {
    NOTHING.(take := Some(Handed(f)), put := Queued(s, s.board[Handed(f)].task, None))
  }

  // do_io up to addEvent: fun answered EAGAIN.
  function Arm(s: State, w: nat, c: nat, call: Call): Change
    requires OnWorker(s, w)
  {
    NOTHING.(put := if call.timed then Timed(s, TimeoutCb(c), false) else None,
             call := Some((c, call.(timer := if call.timed then Some(s.timerId) else None,
                                   alarm := if call.timed then Some(OnTimer(s.timerId)) else None))),
             fiber := Goto(s, w, Armed(c)))
  }

  function Begin(s: State, w: nat, slot: nat, timed: bool): Change
    requires OnWorker(s, w)
  {
    Arm(s, w, |s.calls|, Call(Cur(s, w), slot, timed, None, false, None, false, None))
  }

  // timer->cancel(): the timer goes if it is still there.
  function Disarmed(s: State, call: Call): Option<Place> {
    if call.timer.Some? && OnTimer(call.timer.value) in s.board then Some(OnTimer(call.timer.value)) else None
  }

  function Unalarmed(s: State, c: nat): Call
    requires c < |s.calls|
  {
    if Disarmed(s, s.calls[c]).Some? then s.calls[c].(alarm := None) else s.calls[c]
  }

  function End(s: State, w: nat, c: nat, r: Result): Change
    requires OnWorker(s, w) && c < |s.calls|
  {
    NOTHING.(fiber := Goto(s, w, User), call := Some((c, s.calls[c].(result := Some(r)))))
  }

  predicate InCall(s: State, w: nat) {
    && OnWorker(s, w)
    && (PcOf(s, w).Armed? || PcOf(s, w).Woken? || PcOf(s, w).Checking? || PcOf(s, w).Retrying?
        || PcOf(s, w).Alarm? || PcOf(s, w).Cancelling?)
    && PcOf(s, w).call < |s.calls|
  }

  function Register(s: State, w: nat, ok: bool): Change
    requires InCall(s, w)
  {
    var c := PcOf(s, w).call;
    if ok then
      NOTHING.(put := Some((InSlot(s.calls[c].slot), Item(FiberTask(Cur(s, w)), None, false))),
               fiber := Goto(s, w, Registered(c)), pending := 1)
    else
      End(s, w, c, Failed).(take := Disarmed(s, s.calls[c]),
                            call := Some((c, Unalarmed(s, c).(result := Some(Failed)))))
  }

  function Disarm(s: State, w: nat): Change
    requires InCall(s, w)
  {
    var c := PcOf(s, w).call;
    NOTHING.(take := Disarmed(s, s.calls[c]), call := Some((c, Unalarmed(s, c))), fiber := Goto(s, w, Checking(c)))
  }

  // After the wait: the timeout, or fun again.
  function Check(s: State, w: nat): Change
    requires InCall(s, w)
  {
    var c := PcOf(s, w).call;
    if s.calls[c].cancelled then End(s, w, c, TimedOut) else NOTHING.(fiber := Goto(s, w, Retrying(c)))
  }

  // fun answers EAGAIN again, or the call returns, whatever tinfo says by then.
  function Retry(s: State, w: nat, again: bool): Change
    requires InCall(s, w)
  {
    var c := PcOf(s, w).call;
    if again then Arm(s, w, c, s.calls[c]) else End(s, w, c, Returned)
  }

  // The timeout callback: lock tinfo and mark it, then cancelEvent.
  function Lock(s: State, w: nat): Change
    requires InCall(s, w)
  {
    var c := PcOf(s, w).call;
    var call := if s.calls[c].alarm == Some(InFiber(Cur(s, w))) then s.calls[c].(alarm := None) else s.calls[c];
    if call.result.Some? || call.cancelled then NOTHING.(fiber := Goto(s, w, User), call := Some((c, call)))
    else NOTHING.(fiber := Goto(s, w, Cancelling(c)), call := Some((c, call.(cancelled := true))))
  }

  function Expire(s: State, w: nat, ok: bool): Change
    requires InCall(s, w)
  {
    Trigger(s, s.calls[PcOf(s, w).call].slot, ok).(fiber := Goto(s, w, User))
  }

  function Resume(s: State, w: nat): Change
    requires OnWorker(s, w) && PcOf(s, w).Resuming?
  {
    NOTHING.(take := Some(InFiber(Cur(s, w))), put := Queued(s, FiberTask(PcOf(s, w).fiber), None),
             fiber := Goto(s, w, User))
  }

  // One action of the environment or of a worker. The clock, epoll and the results of system
  // calls are in the choice of the action and its arguments.
  datatype Action =
    | Schedule(fiber: bool, thread: Option<nat>)            // from outside
    | HandedBack(f: nat)                                    // from outside
    | Stop
    | Loop(w: nat, loop: LoopStep)
    | UserCode(w: nat, user: UserStep)
    | Io(w: nat, io: IoStep)

  // The worker's loop and its idle fiber.
  datatype LoopStep =
    | Fetches(k: nat)
    | SwitchIn
    | CallBack
    | Requeues
    | GoIdle
    | LeaveIdle
    | IdleEnds
    | TimerExpires(i: nat)
    | TimerQueues(i: nat)
    | EventArrives(k: nat, ok: bool)

  // User code on a worker.
  datatype UserStep =
    | Schedules(fiber: bool, thread: Option<nat>)
    | SetsTimer(recurring: bool)
    | CancelsTimer(i: nat)
    | Watches(k: nat)
    | Cancels(k: nat, ok: bool)
    | Drops(k: nat, ok: bool)
    | Yields
    | Ends(threw: bool)
    | Sleeps
    | Parks
    | HandsBack(f: nat)

  // do_io, the callback of its timer, and the callback of sleep.
  datatype IoStep =
    | Begins(slot: nat, timed: bool)
    | Registers(ok: bool)
    | Suspends
    | Disarms
    | Checks
    | Retries(again: bool)
    | Locks
    | Expires(ok: bool)
    | Resumes

  // About to yield, in do_io, sleep or after giving the handle away.
  predicate Suspending(pc: Pc) {
    pc.Registered? || pc.Dropped? || pc.Sleeping? || pc.Parked?
  }

  predicate UserAt(s: State, w: nat) {
    OnWorker(s, w) && PcOf(s, w).User?
  }

  predicate LoopEnabled(s: State, w: nat, a: LoopStep) {
    match a
    case Fetches(k) => First(s, w, k)
    case SwitchIn => Fetching(s, w) && s.board[Held(w)].task.FiberTask? && s.board[Held(w)].task.fiber < |s.fibers|
    case CallBack => Fetching(s, w) && s.board[Held(w)].task.CbTask?
    case Requeues => w < |s.workers| && s.workers[w].mode.Requeueing? && Held(w) in s.board
    case GoIdle => NothingFor(s, w)
    case LeaveIdle => Idling(s, w) && EmptyHanded(s, w)
    case IdleEnds => Idling(s, w) && EmptyHanded(s, w) && Stopping(s)
    case TimerExpires(i) => Idling(s, w) && OnTimer(i) in s.board && Expired(w, i) !in s.board
    case TimerQueues(i) => Idling(s, w) && Expired(w, i) in s.board
    case EventArrives(k, _) => Idling(s, w) && InSlot(k) in s.board
  }

  // addEvent's own assertion forbids a second registration of an (fd, event) pair.
  predicate UserEnabled(s: State, w: nat, a: UserStep)
    requires UserAt(s, w)
  {
    match a
    case CancelsTimer(i) => OnTimer(i) in s.board ==> s.board[OnTimer(i)].task == CbTask(UserCb)
    case Watches(k) => InSlot(k) !in s.board
    case HandsBack(f) => Handed(f) in s.board
    case _ => true
  }

  predicate IoEnabled(s: State, w: nat, a: IoStep) {
    match a
    case Begins(_, _) => UserAt(s, w)
    case Registers(ok) =>
      InCall(s, w) && PcOf(s, w).Armed? && (ok ==> InSlot(s.calls[PcOf(s, w).call].slot) !in s.board)
    case Suspends => OnWorker(s, w) && Suspending(PcOf(s, w))
    case Disarms => InCall(s, w) && PcOf(s, w).Woken?
    case Checks => InCall(s, w) && PcOf(s, w).Checking?
    case Retries(_) => InCall(s, w) && PcOf(s, w).Retrying?
    case Locks => InCall(s, w) && PcOf(s, w).Alarm?
    case Expires(_) => InCall(s, w) && PcOf(s, w).Cancelling?
    case Resumes => OnWorker(s, w) && PcOf(s, w).Resuming?
  }

  // Nobody schedules from outside after stop.
  predicate Enabled(s: State, a: Action) {
    match a
    case Schedule(_, _) => !s.stopping
    case HandedBack(f) => !s.stopping && Handed(f) in s.board
    case Stop => true
    case Loop(w, step) => LoopEnabled(s, w, step)
    case UserCode(w, step) => UserAt(s, w) && UserEnabled(s, w, step)
    case Io(w, step) => IoEnabled(s, w, step)
  }

  function LoopEffect(s: State, w: nat, a: LoopStep): Change
    requires LoopEnabled(s, w, a)
  {
    match a
    case Fetches(k) => Fetch(s, w, k)
    case SwitchIn => RunFiber(s, w)
    case CallBack => RunCallback(s, w)
    case Requeues => Requeue(s, w)
    case GoIdle => Rest(s, w)
    case LeaveIdle => Unrest(s, w, false)
    case IdleEnds => Unrest(s, w, true)
    case TimerExpires(i) => Fire(s, w, i)
    case TimerQueues(i) => Release(s, w, i)
    case EventArrives(k, ok) => Trigger(s, k, ok)
  }

  function UserEffect(s: State, w: nat, a: UserStep): Change
    requires UserAt(s, w) && UserEnabled(s, w, a)
  {
    match a
    case Schedules(fiber, thread) => Spawn(s, fiber, thread)
    case SetsTimer(recurring) => NOTHING.(put := Timed(s, UserCb, recurring))
    case CancelsTimer(i) => NOTHING.(take := if OnTimer(i) in s.board then Some(OnTimer(i)) else None)
    case Watches(k) => NOTHING.(put := Some((InSlot(k), Item(CbTask(UserCb), None, false))), pending := 1)
    case Cancels(k, ok) => Trigger(s, k, ok)
    case Drops(k, ok) => Drop(s, k, ok)
    case Yields => YieldReady(s, w)
    case Ends(threw) => Finish(s, w, threw)
    case Sleeps => Sleep(s, w)
    case Parks => Park(s, w)
    case HandsBack(f) => HandBack(s, f)
  }

  function IoEffect(s: State, w: nat, a: IoStep): Change
    requires IoEnabled(s, w, a)
  {
    match a
    case Begins(slot, timed) => Begin(s, w, slot, timed)
    case Registers(ok) => Register(s, w, ok)
    case Suspends => YieldHold(s, w)
    case Disarms => Disarm(s, w)
    case Checks => Check(s, w)
    case Retries(again) => Retry(s, w, again)
    case Locks => Lock(s, w)
    case Expires(ok) => Expire(s, w, ok)
    case Resumes => Resume(s, w)
  }

  function Effect(s: State, a: Action): Change
    requires Enabled(s, a)
  {
    match a
    case Schedule(fiber, thread) => Spawn(s, fiber, thread)
    case HandedBack(f) => HandBack(s, f)
    case Stop => NOTHING.(stop := true)
    case Loop(w, step) => LoopEffect(s, w, step)
    case UserCode(w, step) => UserEffect(s, w, step)
    case Io(w, step) => IoEffect(s, w, step)
  }

  function Do(s: State, a: Action): State
    requires Enabled(s, a)
  {
    Apply(s, Effect(s, a))
  }
}
