/** What each action of the runtime does, in every state a run reaches: which task goes where, who
    runs, and how a do_io call ends. */
module RuntimeAnswers {
  import opened Runtime
  import opened RuntimeSafety
  import opened RuntimeRuns
  import opened Wrappers

  // ---- the board -----------------------------------------------------------------------

  ghost predicate OnlyBoard(t: State, u: State) {
    u.fibers == t.fibers && u.calls == t.calls && u.workers == t.workers && u.stopping == t.stopping
  }

  // schedule, from outside or from user code: a new fiber or a callback, with its pin.
  ghost predicate Spawned(t: State, u: State, fiber: bool, thread: Option<nat>) {
    && u.board == t.board[InQueue(t.ticket) := Item(if fiber then FiberTask(|t.fibers|) else CbTask(UserCb), thread, false)]
    && u.ticket == t.ticket + 1 && u.calls == t.calls && u.workers == t.workers
    && u.fibers == if fiber then t.fibers + [Fiber(INIT, Fresh, None)] else t.fibers
  }

  lemma ScheduleQueues(t: State, fiber: bool, thread: Option<nat>, w: nat)
    ensures Enabled(t, Schedule(fiber, thread)) ==> Spawned(t, Do(t, Schedule(fiber, thread)), fiber, thread)
    ensures Enabled(t, UserCode(w, Schedules(fiber, thread))) ==>
      Spawned(t, Do(t, UserCode(w, Schedules(fiber, thread))), fiber, thread)
  {
  }

  // What is at p goes to the end of the queue; a resume callback's fiber goes in its place.
  ghost predicate Requeued(t: State, u: State, p: Place) {
    && p in t.board && u.ticket == t.ticket + 1
    && u.board == (t.board - {p})[InQueue(t.ticket) := Item(
                     if p.InFiber? && Wakes(t.board[p].task).Some? then FiberTask(Wakes(t.board[p].task).value)
                     else t.board[p].task, None, false)]
  }

  // Readiness and cancelEvent schedule what the slot holds, unless epoll_ctl refuses.
  lemma WakeQueues(t: State, w: nat, k: nat, ok: bool)
    ensures Enabled(t, Loop(w, EventArrives(k, ok))) ==>
      var u := Do(t, Loop(w, EventArrives(k, ok))); if ok then Requeued(t, u, InSlot(k)) && OnlyBoard(t, u) else u == t
    ensures Enabled(t, UserCode(w, Cancels(k, ok))) ==>
      var u := Do(t, UserCode(w, Cancels(k, ok)));
      if ok && InSlot(k) in t.board then Requeued(t, u, InSlot(k)) && OnlyBoard(t, u) else u == t
  {
  }

  // delEvent throws the slot's task away.
  lemma DropDiscards(t: State, w: nat, k: nat, ok: bool)
    requires Enabled(t, UserCode(w, Drops(k, ok)))
    ensures var u := Do(t, UserCode(w, Drops(k, ok)));
      if ok then u.board == t.board - {InSlot(k)} && u.ticket == t.ticket && u.workers == t.workers && u.calls == t.calls
      else u == t
  {
    if InSlot(k) !in t.board {
      assert t.board - {InSlot(k)} == t.board;
    }
  }

  lemma HandBackQueues(t: State, w: nat, f: nat)
    ensures Enabled(t, HandedBack(f)) ==>
      var u := Do(t, HandedBack(f)); Requeued(t, u, Handed(f)) && OnlyBoard(t, u)
    ensures Enabled(t, UserCode(w, HandsBack(f))) ==>
      var u := Do(t, UserCode(w, HandsBack(f))); Requeued(t, u, Handed(f)) && OnlyBoard(t, u)
  {
  }

  lemma UserWaits(t: State, w: nat, recurring: bool, i: nat, k: nat)
    requires UserAt(t, w)
    ensures var u := Do(t, UserCode(w, SetsTimer(recurring)));
      && OnlyBoard(t, u) && u.timerId == t.timerId + 1
      && u.board == t.board[OnTimer(t.timerId) := Item(CbTask(UserCb), None, recurring)]
    ensures Enabled(t, UserCode(w, CancelsTimer(i))) ==>
      var u := Do(t, UserCode(w, CancelsTimer(i))); OnlyBoard(t, u) && u.board == t.board - {OnTimer(i)}
    ensures Enabled(t, UserCode(w, Watches(k))) ==>
      var u := Do(t, UserCode(w, Watches(k)));
      OnlyBoard(t, u) && u.board == t.board[InSlot(k) := Item(CbTask(UserCb), None, false)]
  {
    if OnTimer(i) !in t.board {
      assert t.board - {OnTimer(i)} == t.board;
    }
  }

  // An expired one-shot leaves the timers for the worker's hands; a recurring one stays as well.
  lemma TimerComesDue(t: State, w: nat, i: nat)
    requires Enabled(t, Loop(w, TimerExpires(i)))
    ensures var u, item := Do(t, Loop(w, TimerExpires(i))), t.board[OnTimer(i)];
      && u.board == (if item.recurring then t.board else t.board - {OnTimer(i)})[Expired(w, i) := Item(item.task, None, false)]
      && u.fibers == t.fibers && u.workers == t.workers
  {
  }

  lemma DueIsQueued(t: State, w: nat, i: nat)
    requires Enabled(t, Loop(w, TimerQueues(i)))
    ensures var u := Do(t, Loop(w, TimerQueues(i)));
      Requeued(t, u, Expired(w, i)) && u.fibers == t.fibers && u.workers == t.workers
  {
  }

  // ---- the worker's loop -----------------------------------------------------------------

  // Worker w changes its mode and keeps the rest.
  ghost predicate OnlyMode(t: State, u: State, w: nat, mode: Mode) {
    && w < |t.workers| && u.workers == t.workers[w := t.workers[w].(mode := mode)] && u.fibers == t.fibers
  }

  // What a worker passes over: entries pinned to another worker, and fibers that are running.
  ghost predicate PassedOver(t: State, w: nat, k: nat) {
    && InQueue(k) in t.board
    && ((t.board[InQueue(k)].thread.Some? && t.board[InQueue(k)].thread != Some(w))
        || exists v: nat :: OnWorker(t, v) && t.board[InQueue(k)].task == FiberTask(Cur(t, v)))
  }

  // A worker at its loop fetches the first entry that it may not pass over, and rests exactly when
  // there is none.
  lemma FetchIsFirst(t: State, w: nat, k: nat)
    requires Reachable(t) && w < |t.workers| && t.workers[w].mode.AtLoop?
    ensures Enabled(t, Loop(w, Fetches(k))) <==>
      && InQueue(k) in t.board && !PassedOver(t, w, k)
      && forall j: nat :: j < k && InQueue(j) in t.board ==> PassedOver(t, w, j)
    ensures Enabled(t, Loop(w, GoIdle)) <==> forall j: nat :: InQueue(j) in t.board ==> PassedOver(t, w, j)
  {
    forall j: nat | InQueue(j) in t.board
      ensures Eligible(t, w, t.board[InQueue(j)]) <==> !PassedOver(t, w, j)
    {
      PassedOverIs(t, w, j);
    }
    assert forall p :: p in t.board && p.InQueue? ==> p == InQueue(p.ticket);
  }

  lemma PassedOverIs(t: State, w: nat, k: nat)
    requires Reachable(t) && InQueue(k) in t.board
    ensures Eligible(t, w, t.board[InQueue(k)]) <==> !PassedOver(t, w, k)
  {
    ReachableInv(t);
    assert PlaceOk(t, InQueue(k));
    OneWorker(t);
  }

  lemma FetchTakes(t: State, w: nat, k: nat)
    requires Enabled(t, Loop(w, Fetches(k)))
    ensures var u := Do(t, Loop(w, Fetches(k)));
      && OnlyMode(t, u, w, Fetched) && u.ticket == t.ticket
      && u.board == (t.board - {InQueue(k)})[Held(w) := t.board[InQueue(k)]]
  {
  }

  lemma RequeueQueues(t: State, w: nat)
    requires Enabled(t, Loop(w, Requeues))
    ensures var u := Do(t, Loop(w, Requeues)); OnlyMode(t, u, w, AtLoop) && Requeued(t, u, Held(w)) && u.calls == t.calls
  {
  }

  // A worker without a task rests, or exits once its idle fiber has ended.
  lemma IdleAnswers(t: State, w: nat)
    ensures Enabled(t, Loop(w, GoIdle)) ==>
      var u := Do(t, Loop(w, GoIdle));
      OnlyMode(t, u, w, if t.workers[w].idleDone then Exited else InIdle) && u.board == t.board && u.calls == t.calls
    ensures Enabled(t, Loop(w, LeaveIdle)) ==>
      var u := Do(t, Loop(w, LeaveIdle)); OnlyMode(t, u, w, AtLoop) && u.board == t.board && u.calls == t.calls
    ensures Enabled(t, Loop(w, IdleEnds)) ==>
      var u := Do(t, Loop(w, IdleEnds));
      && u.workers == t.workers[w := t.workers[w].(mode := AtLoop, idleDone := true)]
      && u.board == t.board && u.fibers == t.fibers && u.calls == t.calls
  {
  }

  // A fetched fiber runs where it left off: behind its wait in do_io, else in its own code.
  lemma SwitchInRuns(t: State, w: nat)
    requires Reachable(t) && Enabled(t, Loop(w, SwitchIn))
    ensures var u, f := Do(t, Loop(w, SwitchIn)), t.board[Held(w)].task.fiber;
      && u.board == t.board - {Held(w)} && u.calls == t.calls
      && u.workers == t.workers[w := t.workers[w].(mode := Running(f))]
      && u.fibers == t.fibers[f := Fiber(EXEC, match t.fibers[f].pc case Registered(c) => Woken(c) case _ => User, Some(w))]
  {
    ReachableInv(t);
    HeldIsOff(t, w);
  }

  // A fetched callback runs on the kept cb_fiber, or on a new one, from its first line.
  ghost predicate Runs(t: State, u: State, w: nat, cb: Callback, f: nat) {
    var fb := Fiber(EXEC, match cb case UserCb => User case TimeoutCb(c) => Alarm(c) case ResumeCb(g) => Resuming(g), Some(w));
    && w < |t.workers| && u.workers == t.workers[w := t.workers[w].(mode := Running(f), cbFiber := Some(f))]
    && u.fibers == if f < |t.fibers| then t.fibers[f := fb] else t.fibers + [fb]
  }

  lemma CallBackRuns(t: State, w: nat)
    requires Reachable(t) && Enabled(t, Loop(w, CallBack))
    ensures var u, cb := Do(t, Loop(w, CallBack)), t.board[Held(w)].task.cb;
      var kept := t.workers[w].cbFiber;
      var f := if kept.Some? then kept.value else |t.fibers|;
      && (kept.Some? ==> f < |t.fibers| && t.fibers[f].pc == Retained(w)) && Runs(t, u, w, cb, f)
      && u.board == if cb.ResumeCb? then (t.board - {Held(w)})[InFiber(f) := t.board[Held(w)]] else t.board - {Held(w)}
  {
    ReachableInv(t);
    CallBackChange(t, w);
    if t.workers[w].cbFiber.Some? {
      KeptIsReset(t, w);
    }
  }

  lemma CallBackChange(t: State, w: nat)
    requires Enabled(t, Loop(w, CallBack))
    ensures var u, cb := Do(t, Loop(w, CallBack)), t.board[Held(w)].task.cb;
      var f := if t.workers[w].cbFiber.Some? then t.workers[w].cbFiber.value else |t.fibers|;
      && Runs(t, u, w, cb, f)
      && u.board == if cb.ResumeCb? then (t.board - {Held(w)})[InFiber(f) := t.board[Held(w)]] else t.board - {Held(w)}
  {
  }

  // ---- leaving a worker --------------------------------------------------------------------

  // The fiber on w stands as fb now, and the worker is in mode, without its cb_fiber or with it.
  ghost predicate Left(t: State, u: State, w: nat, fb: Fiber, mode: Mode, cbFiber: Option<nat>)
    requires OnWorker(t, w)
  {
    && u.fibers == t.fibers[Cur(t, w) := fb] && u.calls == t.calls
    && u.workers == t.workers[w := t.workers[w].(mode := mode, cbFiber := cbFiber)]
  }

  ghost function WithoutCur(t: State, w: nat): Option<nat>
    requires OnWorker(t, w)
  {
    if t.workers[w].cbFiber == Some(Cur(t, w)) then None else t.workers[w].cbFiber
  }

  lemma YieldsReady(t: State, w: nat)
    requires UserAt(t, w)
    ensures var u := Do(t, UserCode(w, Yields));
      && Left(t, u, w, Fiber(READY, User, None), Requeueing, WithoutCur(t, w))
      && u.board == t.board[Held(w) := Item(FiberTask(Cur(t, w)), None, false)]
  {
  }

  lemma SuspendsOnHold(t: State, w: nat)
    requires Enabled(t, Io(w, Suspends))
    ensures var u := Do(t, Io(w, Suspends));
      Left(t, u, w, Fiber(HOLD, PcOf(t, w), None), AtLoop, WithoutCur(t, w)) && u.board == t.board
  {
  }

  // A cb_fiber that ends is kept for the next callback; any other fiber is over.
  lemma EndsForGood(t: State, w: nat, threw: bool)
    requires UserAt(t, w)
    ensures var u := Do(t, UserCode(w, Ends(threw)));
      var fb := if t.workers[w].cbFiber == Some(Cur(t, w)) then Fiber(INIT, Retained(w), None)
                else Fiber(if threw then EXCEPT else TERM, Ended, None);
      Left(t, u, w, fb, AtLoop, t.workers[w].cbFiber) && u.board == t.board
  {
  }

  // ---- do_io, sleep and parking --------------------------------------------------------------

  // The fiber on w goes to pc and stays there.
  ghost predicate Moves(t: State, u: State, w: nat, pc: Pc)
    requires OnWorker(t, w)
  {
    u.fibers == t.fibers[Cur(t, w) := t.fibers[Cur(t, w)].(pc := pc)] && u.workers == t.workers
  }

  lemma SleepsOnTimer(t: State, w: nat)
    requires UserAt(t, w)
    ensures var u := Do(t, UserCode(w, Sleeps));
      && Moves(t, u, w, Sleeping) && u.calls == t.calls && u.timerId == t.timerId + 1
      && u.board == t.board[OnTimer(t.timerId) := Item(CbTask(ResumeCb(Cur(t, w))), None, false)]
  {
  }

  lemma ResumesSleeper(t: State, w: nat)
    requires Reachable(t) && Enabled(t, Io(w, Resumes))
    ensures var u := Do(t, Io(w, Resumes));
      && Moves(t, u, w, User) && u.calls == t.calls && Requeued(t, u, InFiber(Cur(t, w)))
      && u.board[InQueue(t.ticket)].task == FiberTask(PcOf(t, w).fiber)
  {
    ReachableInv(t);
    assert FiberOk(t, Cur(t, w));
  }

  lemma ParksHandle(t: State, w: nat)
    requires UserAt(t, w)
    ensures var u := Do(t, UserCode(w, Parks));
      && Moves(t, u, w, Parked) && u.calls == t.calls
      && u.board == t.board[Handed(Cur(t, w)) := Item(FiberTask(Cur(t, w)), None, false)]
  {
  }

  // A timed round sets a timer of its own, whose callback is that of the call.
  ghost predicate Arms(t: State, u: State, w: nat, c: nat, timed: bool)
    requires OnWorker(t, w)
  {
    && Moves(t, u, w, Armed(c)) && c < |u.calls| && u.calls[c].timed == timed
    && u.calls[c].timer == (if timed then Some(t.timerId) else None)
    && u.board == if timed then t.board[OnTimer(t.timerId) := Item(CbTask(TimeoutCb(c)), None, false)] else t.board
  }

  lemma BeginsCall(t: State, w: nat, slot: nat, timed: bool)
    requires UserAt(t, w)
    ensures var u, c := Do(t, Io(w, Begins(slot, timed))), |t.calls|;
      && Arms(t, u, w, c, timed) && |u.calls| == c + 1 && u.calls[..c] == t.calls
      && u.calls[c].owner == Cur(t, w) && u.calls[c].slot == slot
      && !u.calls[c].cancelled && !u.calls[c].fired && u.calls[c].result.None?
  {
  }

  // What stays of a call when its round moves on.
  ghost predicate SameCall(a: Call, b: Call) {
    a.owner == b.owner && a.slot == b.slot && a.timed == b.timed && a.cancelled == b.cancelled && a.fired == b.fired
  }

  lemma RetriesOrReturns(t: State, w: nat, again: bool)
    requires Enabled(t, Io(w, Retries(again)))
    ensures var u, c := Do(t, Io(w, Retries(again))), PcOf(t, w).call;
      && c < |u.calls| && SameCall(u.calls[c], t.calls[c])
      && (again ==> Arms(t, u, w, c, t.calls[c].timed) && u.calls[c].result == t.calls[c].result)
      && (!again ==> Moves(t, u, w, User) && u.board == t.board && u.calls[c].result == Some(Returned))
  {
  }

  // addEvent puts the fiber into the slot; when epoll_ctl refuses, the call fails.
  lemma RegistersOrFails(t: State, w: nat, ok: bool)
    requires Reachable(t) && Enabled(t, Io(w, Registers(ok)))
    ensures var u, c := Do(t, Io(w, Registers(ok))), PcOf(t, w).call;
      && c < |u.calls| && SameCall(u.calls[c], t.calls[c])
      && (ok ==>
            && Moves(t, u, w, Registered(c)) && u.calls == t.calls
            && u.board == t.board[InSlot(t.calls[c].slot) := Item(FiberTask(Cur(t, w)), None, false)])
      && (!ok ==> Moves(t, u, w, User) && u.calls[c].result == Some(Failed) && OwnTimerGone(t, u, c))
  {
    CallTimer(t, PcOf(t, w).call);
  }

  // The board without the call's own timer.
  ghost predicate OwnTimerGone(t: State, u: State, c: nat)
    requires c < |t.calls|
  {
    if t.calls[c].timer.Some? then u.board == t.board - {OnTimer(t.calls[c].timer.value)} else u.board == t.board
  }

  lemma CallTimer(t: State, c: nat)
    requires c < |t.calls|
    ensures t.calls[c].timer.Some? && OnTimer(t.calls[c].timer.value) !in t.board ==>
      t.board - {OnTimer(t.calls[c].timer.value)} == t.board
  {
  }

  lemma DisarmsTimer(t: State, w: nat)
    requires Enabled(t, Io(w, Disarms))
    ensures var u, c := Do(t, Io(w, Disarms)), PcOf(t, w).call;
      && Moves(t, u, w, Checking(c)) && OwnTimerGone(t, u, c)
      && c < |u.calls| && SameCall(u.calls[c], t.calls[c]) && u.calls[c].result == t.calls[c].result
  {
    CallTimer(t, PcOf(t, w).call);
  }

  // After the wait the call reports ETIMEDOUT if and only if its tinfo is marked; else fun is
  // called again.
  lemma ChecksTinfo(t: State, w: nat)
    requires Reachable(t) && Enabled(t, Io(w, Checks))
    ensures var u, c := Do(t, Io(w, Checks)), PcOf(t, w).call;
      && c < |u.calls| && u.board == t.board && SameCall(u.calls[c], t.calls[c])
      && (u.calls[c].result == Some(TimedOut) <==> t.calls[c].cancelled)
      && (t.calls[c].cancelled ==> Moves(t, u, w, User))
      && (!t.calls[c].cancelled ==> Moves(t, u, w, Retrying(c)) && u.calls[c].result.None?)
  {
    ReachableInv(t);
    assert FiberOk(t, Cur(t, w));
  }

  // The timeout callback marks a live, unmarked tinfo and goes on to cancelEvent, or does nothing.
  lemma LocksOrLeaves(t: State, w: nat)
    requires Enabled(t, Io(w, Locks))
    ensures var u, c := Do(t, Io(w, Locks)), PcOf(t, w).call;
      var live := t.calls[c].result.None? && !t.calls[c].cancelled;
      && c < |u.calls| && u.board == t.board && u.calls[c].result == t.calls[c].result
      && (u.calls[c].cancelled <==> t.calls[c].cancelled || live)
      && Moves(t, u, w, if live then Cancelling(c) else User)
  {
  }

  // Its cancelEvent schedules whoever is in the call's slot then, unless epoll_ctl refuses.
  lemma ExpiryQueues(t: State, w: nat, ok: bool)
    requires Enabled(t, Io(w, Expires(ok)))
    ensures var u, p := Do(t, Io(w, Expires(ok))), InSlot(t.calls[PcOf(t, w).call].slot);
      && Moves(t, u, w, User) && u.calls == t.calls
      && if ok && p in t.board then Requeued(t, u, p) else u.board == t.board
  {
  }

  // ---- how a call ends ------------------------------------------------------------------------

  ghost predicate At(t: State, a: Action, pc: Pc) {
    a.Io? && OnWorker(t, a.w) && PcOf(t, a.w) == pc
  }

  lemma CallAfter(t: State, ch: Change, c: nat)
    requires c < |t.calls|
    ensures c < |Apply(t, ch).calls|
    ensures Apply(t, ch).calls[c] == if Touches(ch.call, c) then ch.call.value.1 else t.calls[c]
  {
  }

  // The actions of other code leave result and mark alone.
  lemma LoopLeavesCalls(t: State, w: nat, a: LoopStep, c: nat)
    requires LoopEnabled(t, w, a) && c < |t.calls|
    ensures var u := Do(t, Loop(w, a));
      c < |u.calls| && u.calls[c].result == t.calls[c].result && u.calls[c].cancelled == t.calls[c].cancelled
  {
  }

  lemma UserLeavesCalls(t: State, w: nat, a: UserStep, c: nat)
    requires UserAt(t, w) && UserEnabled(t, w, a) && c < |t.calls|
    ensures var u := Do(t, UserCode(w, a)); c < |u.calls| && u.calls[c] == t.calls[c]
  {
  }

  // A call ends in exactly these ways: a failed addEvent, a marked tinfo at the test, or fun's
  // answer after it; and a result stays.
  lemma EndsExactly(t: State, a: Action, c: nat)
    requires Reachable(t) && Enabled(t, a) && c < |t.calls| && t.calls[c].result.None?
    ensures c < |Do(t, a).calls|
    ensures Do(t, a).calls[c].result == Some(Failed) <==> At(t, a, Armed(c)) && a.io == Registers(false)
    ensures Do(t, a).calls[c].result == Some(TimedOut) <==> At(t, a, Checking(c)) && a.io.Checks? && t.calls[c].cancelled
    ensures Do(t, a).calls[c].result == Some(Returned) <==> At(t, a, Retrying(c)) && a.io == Retries(false)
  {
    match a
    case Loop(w, step) => LoopLeavesCalls(t, w, step, c);
    case UserCode(w, step) => UserLeavesCalls(t, w, step, c);
    case Io(w, step) => IoEnds(t, w, step, c);
    case _ =>
  }

  lemma IoEnds(t: State, w: nat, a: IoStep, c: nat)
    requires IoEnabled(t, w, a) && c < |t.calls| && t.calls[c].result.None?
    ensures c < |Do(t, Io(w, a)).calls|
    ensures Do(t, Io(w, a)).calls[c].result == Some(Failed) <==> At(t, Io(w, a), Armed(c)) && a == Registers(false)
    ensures Do(t, Io(w, a)).calls[c].result == Some(TimedOut) <==> At(t, Io(w, a), Checking(c)) && a.Checks? && t.calls[c].cancelled
    ensures Do(t, Io(w, a)).calls[c].result == Some(Returned) <==> At(t, Io(w, a), Retrying(c)) && a == Retries(false)
  {
  }

  lemma ResultStays(t: State, a: Action, c: nat)
    requires Reachable(t) && Enabled(t, a) && c < |t.calls| && t.calls[c].result.Some?
    ensures c < |Do(t, a).calls| && Do(t, a).calls[c].result == t.calls[c].result
  {
    ReachableInv(t);
    SoundAction(t, a);
    CallAfter(t, Effect(t, a), c);
    if Touches(Effect(t, a).call, c) {
      ResultKept(t, a, c);
    }
  }

  lemma ResultKept(t: State, a: Action, c: nat)
    requires Consistent(t) && Enabled(t, a) && c < |t.calls| && t.calls[c].result.Some? && Touches(Effect(t, a).call, c)
    ensures Effect(t, a).call.value.1.result == t.calls[c].result
  {
    if a.Io? && OnWorker(t, a.w) {
      assert FiberOk(t, Cur(t, a.w));
    }
  }

  // tinfo is marked by a callback of the call that locks it in time, and by nothing else.
  lemma MarkedExactly(t: State, a: Action, c: nat)
    requires Reachable(t) && Enabled(t, a) && c < |t.calls| && !t.calls[c].cancelled
    ensures c < |Do(t, a).calls|
    ensures Do(t, a).calls[c].cancelled <==> At(t, a, Alarm(c)) && a.io.Locks? && t.calls[c].result.None?
  {
    match a
    case Loop(w, step) => LoopLeavesCalls(t, w, step, c);
    case UserCode(w, step) => UserLeavesCalls(t, w, step, c);
    case Io(w, step) => IoMarks(t, w, step, c);
    case _ =>
  }

  lemma IoMarks(t: State, w: nat, a: IoStep, c: nat)
    requires IoEnabled(t, w, a) && c < |t.calls| && !t.calls[c].cancelled
    ensures c < |Do(t, Io(w, a)).calls|
    ensures Do(t, Io(w, a)).calls[c].cancelled <==> At(t, Io(w, a), Alarm(c)) && a.Locks? && t.calls[c].result.None?
  {
  }

  // A call's timer has fired when its expiry was met, and not before.
  lemma FiredExactly(t: State, a: Action, c: nat)
    requires Enabled(t, a) && c < |t.calls| && !t.calls[c].fired
    ensures c < |Do(t, a).calls|
    ensures Do(t, a).calls[c].fired <==>
      a.Loop? && a.loop.TimerExpires? && t.board[OnTimer(a.loop.i)].task == CbTask(TimeoutCb(c))
  {
    match a
    case Loop(w, step) => LoopFires(t, w, step, c);
    case UserCode(w, step) => UserLeavesCalls(t, w, step, c);
    case Io(w, step) => IoLeavesFired(t, w, step, c);
    case _ =>
  }

  lemma LoopFires(t: State, w: nat, a: LoopStep, c: nat)
    requires LoopEnabled(t, w, a) && c < |t.calls| && !t.calls[c].fired
    ensures c < |Do(t, Loop(w, a)).calls|
    ensures Do(t, Loop(w, a)).calls[c].fired <==> a.TimerExpires? && t.board[OnTimer(a.i)].task == CbTask(TimeoutCb(c))
  {
  }

  lemma IoLeavesFired(t: State, w: nat, a: IoStep, c: nat)
    requires IoEnabled(t, w, a) && c < |t.calls|
    ensures c < |Do(t, Io(w, a)).calls| && Do(t, Io(w, a)).calls[c].fired == t.calls[c].fired
  {
  }

  // ---- nobody gets stuck -----------------------------------------------------------------------

  ghost predicate OfWorker(a: Action, w: nat) {
    (a.Loop? || a.UserCode? || a.Io?) && a.w == w
  }

  // The step a running fiber's code stands at, with every answer it may get.
  ghost predicate CanStep(t: State, w: nat)
    requires OnWorker(t, w)
  {
    match PcOf(t, w)
    case User => forall threw :: Enabled(t, UserCode(w, Ends(threw)))
    case Armed(c) =>
      && Enabled(t, Io(w, Registers(false))) && c < |t.calls|
      && (InSlot(t.calls[c].slot) !in t.board ==> Enabled(t, Io(w, Registers(true))))
    case Woken(_) => Enabled(t, Io(w, Disarms))
    case Checking(_) => Enabled(t, Io(w, Checks))
    case Retrying(_) => forall again :: Enabled(t, Io(w, Retries(again)))
    case Alarm(_) => Enabled(t, Io(w, Locks))
    case Cancelling(_) => forall ok :: Enabled(t, Io(w, Expires(ok)))
    case Resuming(_) => Enabled(t, Io(w, Resumes))
    case _ => Enabled(t, Io(w, Suspends))
  }

  // Where a running fiber's code can stand.
  ghost predicate Stands(t: State, pc: Pc) {
    && !pc.Fresh? && !pc.Retained? && !pc.Ended?
    && (InWait(pc) || pc.Alarm? || pc.Cancelling? ==> pc.call < |t.calls|)
  }

  lemma StandsSomewhere(t: State, w: nat)
    requires Consistent(t) && OnWorker(t, w)
    ensures Stands(t, PcOf(t, w))
  {
    assert WorkerOk(t, w);
    assert FiberOk(t, Cur(t, w));
  }

  lemma StepsFrom(t: State, w: nat)
    requires OnWorker(t, w) && Stands(t, PcOf(t, w))
    ensures CanStep(t, w)
  {
  }

  lemma NextStep(t: State, w: nat)
    requires Reachable(t) && OnWorker(t, w)
    ensures CanStep(t, w)
  {
    ReachableInv(t);
    StandsSomewhere(t, w);
    StepsFrom(t, w);
  }

  lemma CanGoOn(t: State, w: nat) returns (a: Action)
    requires Reachable(t) && OnWorker(t, w)
    ensures OfWorker(a, w) && Enabled(t, a)
  {
    NextStep(t, w);
    match PcOf(t, w)
    case User => a := UserCode(w, Ends(false));
    case Armed(_) => a := Io(w, Registers(false));
    case Woken(_) => a := Io(w, Disarms);
    case Checking(_) => a := Io(w, Checks);
    case Retrying(_) => a := Io(w, Retries(false));
    case Alarm(_) => a := Io(w, Locks);
    case Cancelling(_) => a := Io(w, Expires(true));
    case Resuming(_) => a := Io(w, Resumes);
    case _ => a := Io(w, Suspends);
  }

  lemma {:induction false} FirstOf(t: State, w: nat, k: nat) returns (j: nat)
    requires w < |t.workers| && t.workers[w].mode.AtLoop? && InQueue(k) in t.board && Eligible(t, w, t.board[InQueue(k)])
    ensures First(t, w, j)
  {
    if p :| p in t.board && p.InQueue? && p.ticket < k && Eligible(t, w, t.board[p]) {
      j := FirstOf(t, w, p.ticket);
    } else {
      j := k;
    }
  }

  // A worker that has not exited always has a next step.
  lemma NeverStuck(t: State, w: nat) returns (a: Action)
    requires Reachable(t) && w < |t.workers| && !t.workers[w].mode.Exited?
    ensures OfWorker(a, w) && Enabled(t, a)
  {
    ReachableInv(t);
    assert WorkerOk(t, w);
    match t.workers[w].mode
    case AtLoop =>
      if p :| p in t.board && p.InQueue? && Eligible(t, w, t.board[p]) {
        var k := FirstOf(t, w, p.ticket);
        a := Loop(w, Fetches(k));
      } else {
        a := Loop(w, GoIdle);
      }
    case Fetched =>
      FetchedComesBack(t, w);
      a := if Enabled(t, Loop(w, SwitchIn)) then Loop(w, SwitchIn) else Loop(w, CallBack);
    case Running(_) => a := CanGoOn(t, w);
    case Requeueing => a := Loop(w, Requeues);
    case InIdle =>
      if p :| p in t.board && p.Expired? && p.worker == w {
        a := Loop(w, TimerQueues(p.timer));
      } else {
        a := Loop(w, LeaveIdle);
      }
  }
}
