/** The runtime's guarantees in every state a run reaches. */
module RuntimeRuns {
  import opened Runtime
  import opened RuntimeSafety
  import opened Sums
  import opened Wrappers

  function RunningOne(w: Worker): nat {
    if w.mode.Running? then 1 else 0
  }

  function IdleOne(w: Worker): nat {
    if w.mode.InIdle? then 1 else 0
  }

  ghost function SlotsOf(board: map<Place, Item>): set<Place> {
    set p | p in board && p.InSlot?
  }

  // The counters: workers with a task, workers inside idle, filled event slots.
  ghost predicate Counted(s: State) {
    && s.active == Total(RunningOne, s.workers)
    && s.idle == Total(IdleOne, s.workers)
    && s.pending == |SlotsOf(s.board)|
  }

  // Nothing queued, timed, registered or running, and nobody may add anything; all that is left
  // are handles that parked fibers gave to foreign code.
  ghost predicate Over(s: State) {
    s.stopping && (forall p :: p in s.board ==> p.Handed?) && forall w :: 0 <= w < |s.workers| ==> !s.workers[w].mode.Running?
  }

  // No worker is between taking work from one place and putting it in the next.
  ghost predicate NobodyHolds(s: State) {
    (forall w :: 0 <= w < |s.workers| ==> !Holding(s.workers[w].mode)) && forall p :: p in s.board ==> !p.Expired?
  }

  ghost predicate Inv(s: State) {
    Consistent(s) && Counted(s)
  }

  // A change accounts for what it does to workers and slots.
  ghost predicate WorkersBalanced(s: State, ch: Change) {
    && (ch.worker.None? ==> ch.active == 0 && ch.idle == 0)
    && (ch.worker.Some? ==>
          && ch.worker.value.0 < |s.workers|
          && ch.active == RunningOne(ch.worker.value.1) - RunningOne(s.workers[ch.worker.value.0])
          && ch.idle == IdleOne(ch.worker.value.1) - IdleOne(s.workers[ch.worker.value.0]))
  }

  ghost predicate SlotsBalanced(ch: Change) {
    ch.pending == (if ch.put.Some? && ch.put.value.0.InSlot? then 1 else 0)
                  - (if ch.take.Some? && ch.take.value.InSlot? then 1 else 0)
  }

  lemma SlotsLess(board: map<Place, Item>, p: Place)
    requires p in board
    ensures |SlotsOf(board - {p})| == |SlotsOf(board)| - (if p.InSlot? then 1 else 0)
  {
    assert SlotsOf(board - {p}) == SlotsOf(board) - {p};
  }

  lemma SlotsMore(board: map<Place, Item>, p: Place, item: Item)
    requires p !in board
    ensures |SlotsOf(board[p := item])| == |SlotsOf(board)| + (if p.InSlot? then 1 else 0)
  {
    assert SlotsOf(board[p := item]) == if p.InSlot? then SlotsOf(board) + {p} else SlotsOf(board);
  }

  lemma SlotsKept(s: State, ch: Change)
    requires BoardStep(s, ch) && SlotsBalanced(ch)
    ensures |SlotsOf(Apply(s, ch).board)| == |SlotsOf(s.board)| + ch.pending
  {
    if ch.take.Some? {
      SlotsLess(s.board, ch.take.value);
    }
    if ch.put.Some? {
      SlotsMore(Taken(s, ch.take).board, ch.put.value.0, ch.put.value.1);
    }
  }

  lemma CountedKept(s: State, ch: Change)
    requires Counted(s) && BoardStep(s, ch) && WorkersBalanced(s, ch) && SlotsBalanced(ch)
    ensures Counted(Apply(s, ch))
  {
    SlotsKept(s, ch);
    if ch.worker.Some? {
      TotalUpdate(RunningOne, s.workers, ch.worker.value.0, ch.worker.value.1);
      TotalUpdate(IdleOne, s.workers, ch.worker.value.0, ch.worker.value.1);
    }
  }

  lemma DispatchBalances(s: State, w: nat)
    ensures Enabled(s, Loop(w, SwitchIn)) ==> WorkersBalanced(s, RunFiber(s, w))
    ensures Enabled(s, Loop(w, CallBack)) ==> WorkersBalanced(s, RunCallback(s, w))
  {
  }

  lemma WorkersBalance(s: State, a: Action)
    requires Enabled(s, a)
    ensures WorkersBalanced(s, Effect(s, a))
  {
    match a
    case Loop(w, SwitchIn) => DispatchBalances(s, w);
    case Loop(w, CallBack) => DispatchBalances(s, w);
    case _ =>
  }

  lemma SlotsBalance(s: State, a: Action)
    requires Enabled(s, a)
    ensures SlotsBalanced(Effect(s, a))
  {
  }

  lemma {:induction false} NoneLeft(f: Worker -> nat, ws: seq<Worker>, w: nat)
    requires Total(f, ws) == 0 && w < |ws|
    ensures f(ws[w]) == 0
  {
    TotalAtLeast(f, ws, w);
  }

  lemma SlotCounts(board: map<Place, Item>, p: Place)
    requires p in board && p.InSlot?
    ensures |SlotsOf(board)| > 0
  {
    assert p in SlotsOf(board);
  }

  lemma CarrierRuns(s: State, p: Place)
    requires Consistent(s) && p in s.board && p.InFiber?
    ensures exists w :: 0 <= w < |s.workers| && s.workers[w].mode.Running?
  {
    assert PlaceOk(s, p);
    assert FiberOk(s, p.fiber);
  }

  // When stopping() holds there is no queued, running, timed or event-waiting work; there is none
  // at all exactly when no worker has any in its hands.
  lemma StoppingIsOver(s: State)
    requires Consistent(s) && Counted(s) && Stopping(s)
    ensures forall w :: 0 <= w < |s.workers| ==> !s.workers[w].mode.Running?
    ensures forall p :: p in s.board ==> p.Handed? || p.Held? || p.Expired?
    ensures Over(s) <==> NobodyHolds(s)
  {
    forall w | 0 <= w < |s.workers|
      ensures !s.workers[w].mode.Running?
    {
      NoneLeft(RunningOne, s.workers, w);
    }
    forall p | p in s.board
      ensures p.Handed? || p.Held? || p.Expired?
    {
      if p.InSlot? {
        SlotCounts(s.board, p);
      } else if p.InFiber? {
        CarrierRuns(s, p);
      }
    }
    HandsFull(s);
  }

  lemma HandsFull(s: State)
    requires Consistent(s)
    ensures forall w :: 0 <= w < |s.workers| ==> (Holding(s.workers[w].mode) <==> Held(w) in s.board)
    ensures forall p :: p in s.board && p.Held? ==> p.worker < |s.workers|
  {
    forall w | 0 <= w < |s.workers|
      ensures Holding(s.workers[w].mode) <==> Held(w) in s.board
    {
      assert WorkerOk(s, w);
      if !Holding(s.workers[w].mode) {
        HandEmpty(s, w);
      }
    }
    assert forall p :: p in s.board ==> PlaceOk(s, p);
  }

  lemma OverQuiet(s: State, a: Action)
    requires Over(s) && Enabled(s, a)
    ensures Effect(s, a).take.None? && Effect(s, a).put.None?
    ensures Effect(s, a).worker.Some? ==> !Effect(s, a).worker.value.1.mode.Running?
  {
  }

  lemma OverKept(s: State, ch: Change)
    requires Over(s) && ch.take.None? && ch.put.None? && (ch.worker.Some? ==> !ch.worker.value.1.mode.Running?)
    ensures Over(Apply(s, ch)) && Apply(s, ch).board == s.board
  {
  }

  lemma OverStays(s: State, a: Action)
    requires Over(s) && Enabled(s, a)
    ensures Over(Do(s, a)) && Do(s, a).board == s.board
  {
    OverQuiet(s, a);
    OverKept(s, Effect(s, a));
  }

  lemma InvKept(s: State, a: Action)
    requires Inv(s) && Enabled(s, a)
    ensures Inv(Do(s, a))
  {
    SoundAction(s, a);
    ConsistentKept(s, Effect(s, a));
    WorkersBalance(s, a);
    SlotsBalance(s, a);
    CountedKept(s, Effect(s, a));
  }

  ghost predicate Initial(s: State) {
    && s.fibers == [] && s.calls == [] && s.board == map[] && s.refs == map[]
    && s.ticket == s.timerId == s.active == s.idle == s.pending == 0 && !s.stopping
    && forall w :: 0 <= w < |s.workers| ==> s.workers[w] == Worker(AtLoop, None, false)
  }

  ghost predicate Possible(s: State, acts: seq<Action>)
    decreases |acts|, 0
  {
    acts == [] || (Possible(s, acts[..|acts| - 1]) && Enabled(After(s, acts[..|acts| - 1]), acts[|acts| - 1]))
  }

  ghost function After(s: State, acts: seq<Action>): State
    requires Possible(s, acts)
    decreases |acts|, 1
  {
    if acts == [] then s else Do(After(s, acts[..|acts| - 1]), acts[|acts| - 1])
  }

  // A state some run from the start of the scheduler reaches.
  ghost predicate Reachable(t: State) {
    exists s, acts :: Initial(s) && Possible(s, acts) && After(s, acts) == t
  }

  lemma {:induction false} RestingWorkers(ws: seq<Worker>)
    requires forall w :: 0 <= w < |ws| ==> ws[w] == Worker(AtLoop, None, false)
    ensures Total(RunningOne, ws) == 0 && Total(IdleOne, ws) == 0
  {
    if ws != [] {
      RestingWorkers(ws[..|ws| - 1]);
    }
  }

  lemma {:induction false} EveryRun(s: State, acts: seq<Action>)
    requires Initial(s) && Possible(s, acts)
    ensures Inv(After(s, acts))
  {
    if acts == [] {
      RestingWorkers(s.workers);
      assert SlotsOf(s.board) == {};
    } else {
      var before := acts[..|acts| - 1];
      EveryRun(s, before);
      InvKept(After(s, before), acts[|acts| - 1]);
    }
  }

  lemma ReachableInv(t: State)
    requires Reachable(t)
    ensures Inv(t)
  {
    var s, acts :| Initial(s) && Possible(s, acts) && After(s, acts) == t;
    EveryRun(s, acts);
  }

  // The item at place p would wake f.
  ghost predicate Refers(t: State, p: Place, f: nat) {
    p in t.board && Wakes(t.board[p].task) == Some(f)
  }

  // A suspended fiber has exactly one reference that can wake it, any other fiber none.
  lemma OneWake(t: State, f: nat)
    requires Reachable(t) && f < |t.fibers|
    ensures Waits(t.fibers[f]) <==> exists p :: Refers(t, p, f)
    ensures forall p, q :: Refers(t, p, f) && Refers(t, q, f) ==> p == q
  {
    ReachableInv(t);
    assert FiberOk(t, f);
    if Waits(t.fibers[f]) {
      assert Refers(t, t.refs[f], f);
    }
  }

  // Among the fibers that are off their worker for a wake-up, exactly the dropped waits have none.
  lemma SuspendedHasWake(t: State, f: nat)
    requires Reachable(t) && f < |t.fibers| && t.fibers[f].state.HOLD?
    ensures (exists p :: Refers(t, p, f)) <==> !t.fibers[f].pc.Dropped?
  {
    ReachableInv(t);
    assert FiberOk(t, f);
    OneWake(t, f);
  }

  predicate Deletes(a: Action) {
    a.UserCode? && a.user.Drops?
  }

  // A wait is dropped by a successful delEvent of the slot it is registered in, and by nothing else.
  lemma DroppedExactly(t: State, a: Action, f: nat)
    requires Reachable(t) && Enabled(t, a) && f < |t.fibers| && !t.fibers[f].pc.Dropped?
    ensures f < |Do(t, a).fibers|
    ensures Do(t, a).fibers[f].pc.Dropped? <==> Deletes(a) && a.user.ok && Refers(t, InSlot(a.user.k), f)
  {
    ReachableInv(t);
    if Deletes(a) {
      DropIsExact(t, a.w, a.user.k, a.user.ok, f);
    } else {
      if Effect(t, a).fiber.Some? && Effect(t, a).fiber.value.1.pc.Dropped? {
        OnlyDelDrops(t, a);
      }
      NotDropped(t, Effect(t, a), f);
    }
  }

  lemma DropIsExact(t: State, w: nat, k: nat, ok: bool, f: nat)
    requires Consistent(t) && UserAt(t, w) && f < |t.fibers| && !t.fibers[f].pc.Dropped?
    ensures f < |Apply(t, Drop(t, k, ok)).fibers|
    ensures Apply(t, Drop(t, k, ok)).fibers[f].pc.Dropped? <==> ok && Refers(t, InSlot(k), f)
  {
    if InSlot(k) in t.board {
      assert PlaceOk(t, InSlot(k));
    }
    assert FiberOk(t, f);
  }

  lemma OnlyDelDrops(t: State, a: Action)
    requires Enabled(t, a) && !Deletes(a) && Effect(t, a).fiber.Some? && Effect(t, a).fiber.value.1.pc.Dropped?
    ensures a.Io? && a.io.Suspends? && Effect(t, a).fiber.value.0 == Cur(t, a.w) && PcOf(t, a.w).Dropped?
  {
  }

  lemma NotDropped(t: State, ch: Change, f: nat)
    requires f < |t.fibers| && !t.fibers[f].pc.Dropped? && (Touches(ch.fiber, f) ==> !ch.fiber.value.1.pc.Dropped?)
    ensures f < |Apply(t, ch).fibers| && !Apply(t, ch).fibers[f].pc.Dropped?
  {
  }

  // A dropped wait is never resumed.
  lemma DroppedStays(t: State, a: Action, f: nat)
    requires Reachable(t) && Enabled(t, a) && f < |t.fibers| && t.fibers[f].pc.Dropped?
    ensures f < |Do(t, a).fibers| && Do(t, a).fibers[f].pc == t.fibers[f].pc
  {
    ReachableInv(t);
    if Touches(Effect(t, a).fiber, f) {
      DroppedMoves(t, a, f);
    }
    SamePc(t, Effect(t, a), f);
  }

  lemma SamePc(t: State, ch: Change, f: nat)
    requires f < |t.fibers| && (Touches(ch.fiber, f) ==> ch.fiber.value.1.pc == t.fibers[f].pc)
    ensures f < |Apply(t, ch).fibers| && Apply(t, ch).fibers[f].pc == t.fibers[f].pc
  {
  }

  lemma DroppedMoves(t: State, a: Action, f: nat)
    requires Consistent(t) && Enabled(t, a) && Touches(Effect(t, a).fiber, f)
    requires f < |t.fibers| && t.fibers[f].pc.Dropped?
    ensures Effect(t, a).fiber.value.1.pc == t.fibers[f].pc
  {
    assert FiberOk(t, f);
    match a
    case Loop(w, CallBack) =>
      if t.workers[w].cbFiber.Some? {
        KeptIsReset(t, w);
      }
    case Loop(w, SwitchIn) => HeldIsOff(t, w);
    case _ =>
  }

  lemma {:induction false} DroppedForGood(t: State, acts: seq<Action>, f: nat)
    requires Reachable(t) && Possible(t, acts) && f < |t.fibers| && t.fibers[f].pc.Dropped?
    ensures Reachable(After(t, acts))
    ensures f < |After(t, acts).fibers| && After(t, acts).fibers[f].pc == t.fibers[f].pc
  {
    if acts != [] {
      var n := |acts| - 1;
      DroppedForGood(t, acts[..n], f);
      DroppedStays(After(t, acts[..n]), acts[n], f);
      ReachableStep(After(t, acts[..n]), acts[n]);
    }
  }

  // A switch-in consumes that reference: the fiber runs and nothing can wake it a second time.
  lemma ResumedOnce(t: State, w: nat)
    requires Reachable(t) && Enabled(t, Loop(w, SwitchIn))
    ensures var f := t.board[Held(w)].task.fiber;
      var u := Do(t, Loop(w, SwitchIn));
      && f < |u.fibers| && u.fibers[f].state.EXEC? && u.workers[w].mode == Running(f)
      && (t.fibers[f].pc.Registered? ==> u.fibers[f].pc == Woken(t.fibers[f].pc.call))
      && forall p :: !Refers(u, p, f)
  {
    ReachableInv(t);
    assert FiberOk(t, t.board[Held(w)].task.fiber);
  }

  // No fiber is on two workers, and a fiber is EXEC exactly on a worker.
  lemma OneWorker(t: State)
    requires Reachable(t)
    ensures forall v: nat, w: nat :: OnWorker(t, v) && OnWorker(t, w) && Cur(t, v) == Cur(t, w) ==> v == w
    ensures forall f :: 0 <= f < |t.fibers| ==>
      (t.fibers[f].state.EXEC? <==> exists w: nat :: OnWorker(t, w) && Cur(t, w) == f)
  {
    ReachableInv(t);
    assert forall w: nat :: OnWorker(t, w) ==> WorkerOk(t, w);
    forall f | 0 <= f < |t.fibers|
      ensures t.fibers[f].state.EXEC? <==> exists w: nat :: OnWorker(t, w) && Cur(t, w) == f
    {
      assert FiberOk(t, f);
      if t.fibers[f].state.EXEC? {
        assert OnWorker(t, t.fibers[f].worker.value);
      }
    }
  }

  lemma HeldIsOff(t: State, w: nat)
    requires Consistent(t) && Held(w) in t.board && t.board[Held(w)].task.FiberTask?
    ensures var f := t.board[Held(w)].task.fiber; f < |t.fibers| && t.fibers[f].state in {INIT, HOLD, READY}
  {
    assert PlaceOk(t, Held(w));
    assert FiberOk(t, t.board[Held(w)].task.fiber);
  }

  // The assertions of swapIn and reset hold at every switch-in; a queued fiber has not ended.
  lemma AssertionsHold(t: State, w: nat)
    requires Reachable(t)
    ensures Enabled(t, Loop(w, SwitchIn)) ==> t.fibers[t.board[Held(w)].task.fiber].state in {INIT, HOLD, READY}
    ensures Enabled(t, Loop(w, CallBack)) && t.workers[w].cbFiber.Some? ==>
      t.workers[w].cbFiber.value < |t.fibers| && t.fibers[t.workers[w].cbFiber.value].state == INIT
  {
    ReachableInv(t);
    if Enabled(t, Loop(w, SwitchIn)) {
      HeldIsOff(t, w);
    }
    if Enabled(t, Loop(w, CallBack)) && t.workers[w].cbFiber.Some? {
      KeptIsReset(t, w);
      assert FiberOk(t, t.workers[w].cbFiber.value);
    }
  }

  lemma TimerHasOpenCall(t: State, i: nat, c: nat)
    requires Consistent(t) && OnTimer(i) in t.board && t.board[OnTimer(i)].task == CbTask(TimeoutCb(c))
    ensures c < |t.calls| && t.calls[c].result.None?
  {
    assert PlaceOk(t, OnTimer(i));
    assert FiberOk(t, t.calls[c].owner);
  }

  // A call that has returned left no timer and no registration, and it reports a timeout only
  // if one of its own timers fired.
  lemma IoLeavesNothing(t: State, c: nat)
    requires Reachable(t) && c < |t.calls| && t.calls[c].result.Some?
    ensures forall i: nat :: OnTimer(i) in t.board ==> t.board[OnTimer(i)].task != CbTask(TimeoutCb(c))
    ensures forall k: nat :: InSlot(k) in t.board && t.board[InSlot(k)].task.FiberTask? ==>
      var f := t.board[InSlot(k)].task.fiber; f < |t.fibers| && t.fibers[f].pc.Registered? && t.fibers[f].pc.call != c
    ensures t.calls[c].result == Some(TimedOut) ==> t.calls[c].fired
  {
    ReachableInv(t);
    assert CallOk(t, c);
    forall i: nat | OnTimer(i) in t.board
      ensures t.board[OnTimer(i)].task != CbTask(TimeoutCb(c))
    {
      if t.board[OnTimer(i)].task == CbTask(TimeoutCb(c)) {
        TimerHasOpenCall(t, i, c);
      }
    }
    forall k: nat | InSlot(k) in t.board && t.board[InSlot(k)].task.FiberTask?
      ensures var f := t.board[InSlot(k)].task.fiber;
        f < |t.fibers| && t.fibers[f].pc.Registered? && t.fibers[f].pc.call != c
    {
      assert PlaceOk(t, InSlot(k));
      assert FiberOk(t, t.board[InSlot(k)].task.fiber);
    }
  }

  // The counters count.
  lemma CountersCount(t: State)
    requires Reachable(t)
    ensures t.active == Total(RunningOne, t.workers) && t.idle == Total(IdleOne, t.workers)
    ensures t.pending == |SlotsOf(t.board)|
  {
    ReachableInv(t);
  }

  lemma {:induction false} OverForGood(t: State, acts: seq<Action>)
    requires Over(t) && Possible(t, acts)
    ensures Over(After(t, acts)) && After(t, acts).board == t.board
  {
    if acts != [] {
      OverForGood(t, acts[..|acts| - 1]);
      OverStays(After(t, acts[..|acts| - 1]), acts[|acts| - 1]);
    }
  }

  // Once stopping() holds everything is over if and only if no worker has work in its hands, and
  // then no later run makes any.
  lemma StoppingIsFinal(t: State, acts: seq<Action>)
    requires Reachable(t) && Stopping(t) && Possible(t, acts)
    ensures Over(t) <==> NobodyHolds(t)
    ensures NobodyHolds(t) ==> Over(After(t, acts)) && After(t, acts).board == t.board
  {
    ReachableInv(t);
    StoppingIsOver(t);
    if NobodyHolds(t) {
      OverForGood(t, acts);
    }
  }

  // Work in a worker's hands comes back, whatever stopping() says: the worker's next step runs it
  // or queues it.
  lemma RequeuedComesBack(t: State, w: nat)
    requires Reachable(t) && w < |t.workers| && t.workers[w].mode.Requeueing?
    ensures Enabled(t, Loop(w, Requeues)) && t.board[Held(w)].task.FiberTask?
    ensures Refers(Do(t, Loop(w, Requeues)), InQueue(t.ticket), t.board[Held(w)].task.fiber)
  {
    ReachableInv(t);
    assert WorkerOk(t, w);
  }

  lemma FetchedComesBack(t: State, w: nat)
    requires Reachable(t) && w < |t.workers| && t.workers[w].mode.Fetched?
    ensures Enabled(t, Loop(w, SwitchIn)) || Enabled(t, Loop(w, CallBack))
    ensures var a := if Enabled(t, Loop(w, SwitchIn)) then Loop(w, SwitchIn) else Loop(w, CallBack); OnWorker(Do(t, a), w)
  {
    ReachableInv(t);
    assert WorkerOk(t, w);
    assert PlaceOk(t, Held(w));
    if Enabled(t, Loop(w, SwitchIn)) {
      ResumedOnce(t, w);
    }
  }

  lemma ExpiredComesBack(t: State, w: nat, i: nat)
    requires Reachable(t) && Expired(w, i) in t.board
    ensures Enabled(t, Loop(w, TimerQueues(i)))
    ensures var u := Do(t, Loop(w, TimerQueues(i)));
      InQueue(t.ticket) in u.board && u.board[InQueue(t.ticket)].task == t.board[Expired(w, i)].task
  {
    ReachableInv(t);
    assert PlaceOk(t, Expired(w, i));
  }

  // An idle fiber that ends says that everything is over.
  ghost predicate Shut(s: State) {
    forall w :: 0 <= w < |s.workers| && s.workers[w].idleDone ==> Over(s)
  }

  ghost predicate AlwaysShut(s: State, acts: seq<Action>)
    requires Possible(s, acts)
  {
    Shut(After(s, acts)) && (acts != [] ==> AlwaysShut(s, acts[..|acts| - 1]))
  }

  predicate EndsIdle(a: Action) {
    a.Loop? && a.loop.IdleEnds?
  }

  // No idle fiber of the run ended while a worker had work in its hands.
  ghost predicate EndsClean(s: State, acts: seq<Action>)
    requires Possible(s, acts)
  {
    acts != [] ==>
      var before := acts[..|acts| - 1];
      EndsClean(s, before) && (EndsIdle(acts[|acts| - 1]) ==> NobodyHolds(After(s, before)))
  }

  lemma OnlyIdleEnds(s: State, a: Action)
    requires Enabled(s, a) && Effect(s, a).worker.Some? && Effect(s, a).worker.value.1.idleDone
    ensures Effect(s, a).worker.value.0 < |s.workers|
    ensures s.workers[Effect(s, a).worker.value.0].idleDone || a == Loop(Effect(s, a).worker.value.0, IdleEnds)
  {
    if a.Loop? && (a.loop.SwitchIn? || a.loop.CallBack?) {
      DispatchKeepsIdle(s, a.w);
    }
  }

  lemma DispatchKeepsIdle(s: State, w: nat)
    ensures Enabled(s, Loop(w, SwitchIn)) && RunFiber(s, w).worker.Some? ==>
      RunFiber(s, w).worker.value.0 == w && RunFiber(s, w).worker.value.1.idleDone == s.workers[w].idleDone
    ensures Enabled(s, Loop(w, CallBack)) ==>
      RunCallback(s, w).worker.value.0 == w && RunCallback(s, w).worker.value.1.idleDone == s.workers[w].idleDone
  {
  }

  lemma EndsWithIdle(s: State, a: Action, w: nat)
    requires Enabled(s, a) && w < |Do(s, a).workers| && Do(s, a).workers[w].idleDone
    ensures (w < |s.workers| && s.workers[w].idleDone) || a == Loop(w, IdleEnds)
  {
    if Effect(s, a).worker.Some? && Effect(s, a).worker.value.1.idleDone {
      OnlyIdleEnds(s, a);
    }
  }

  lemma ShutKept(s: State, a: Action)
    requires Inv(s) && Enabled(s, a) && Shut(s)
    ensures Shut(Do(s, a)) <==> (EndsIdle(a) ==> NobodyHolds(s))
  {
    if EndsIdle(a) {
      StoppingIsOver(s);
      assert Do(s, a).workers[a.w].idleDone && Do(s, a).board == s.board;
      HandsFull(s);
    }
    if EndsIdle(a) ==> NobodyHolds(s) {
      forall w | 0 <= w < |Do(s, a).workers| && Do(s, a).workers[w].idleDone
        ensures Over(Do(s, a))
      {
        EndsWithIdle(s, a, w);
        OverStays(s, a);
      }
    }
  }

  // In a run an ended idle fiber always means that no work is left, if and only if none ended
  // while a worker had work in its hands.
  lemma {:induction false} ShutExactly(s: State, acts: seq<Action>)
    requires Initial(s) && Possible(s, acts)
    ensures AlwaysShut(s, acts) <==> EndsClean(s, acts)
  {
    if acts != [] {
      var before := acts[..|acts| - 1];
      ShutExactly(s, before);
      EveryRun(s, before);
      if AlwaysShut(s, before) {
        ShutKept(After(s, before), acts[|acts| - 1]);
      }
    }
  }

  ghost predicate InHands(t: State, f: nat) {
    exists p :: Refers(t, p, f) && (p.Held? || p.Expired?)
  }

  // Who is left suspended once stopping() holds, out of the workers' hands: exactly the dropped
  // waits and the fibers whose handle is in foreign hands, which stopping() does not look at.
  lemma StoppingLeaves(t: State, f: nat)
    requires Reachable(t) && Stopping(t) && f < |t.fibers|
    ensures t.fibers[f].state.HOLD? && !InHands(t, f) <==> t.fibers[f].pc.Dropped? || Handed(f) in t.board
  {
    ReachableInv(t);
    StoppingIsOver(t);
    assert FiberOk(t, f);
    if Handed(f) in t.board {
      HandedReferred(t, f);
    }
    if f in t.refs {
      assert Refers(t, t.refs[f], f);
    }
  }

  // Once tinfo is marked, a timeout callback that still comes changes nothing on the board.
  lemma MarkedTimeoutIsIdle(t: State, w: nat)
    requires Reachable(t) && Enabled(t, Io(w, Locks)) && t.calls[PcOf(t, w).call].cancelled
    ensures Do(t, Io(w, Locks)).board == t.board && PcOf(Do(t, Io(w, Locks)), w).User?
  {
  }

  // A do_io wait in slot k whose tinfo is marked and whose timeout callback is past its
  // cancelEvent: no timeout is left for it.
  ghost predicate Unguarded(t: State, f: nat, k: nat) {
    && f < |t.fibers| && t.fibers[f].pc.Registered? && Refers(t, InSlot(k), f)
    && t.fibers[f].pc.call < |t.calls| && t.calls[t.fibers[f].pc.call].cancelled
    && NobodyCancels(t, t.fibers[f].pc.call)
  }

  ghost predicate NobodyCancels(t: State, c: nat) {
    forall g :: 0 <= g < |t.fibers| ==> t.fibers[g].pc != Cancelling(c)
  }

  // A timeout that can still end the wait of call c: its callback is on a timer, queued or about
  // to lock an unmarked tinfo, or is about to call cancelEvent.
  ghost predicate Guarded(t: State, c: nat)
    requires c < |t.calls|
  {
    (!t.calls[c].cancelled && exists p :: AlarmAt(t, c, p)) || !NobodyCancels(t, c)
  }

  // A timed wait in its slot has such a timeout exactly when it is not unguarded.
  lemma TimeoutUnderWay(t: State, f: nat, k: nat)
    requires Reachable(t) && f < |t.fibers| && t.fibers[f].pc.Registered? && Refers(t, InSlot(k), f)
    ensures var c := t.fibers[f].pc.call;
      c < |t.calls| && t.calls[c].owner == f && (t.calls[c].timed ==> (Guarded(t, c) <==> !Unguarded(t, f, k)))
  {
    ReachableInv(t);
    assert FiberOk(t, f);
    assert CallOk(t, t.fibers[f].pc.call);
  }

  // Only the callback that marks tinfo goes on to cancelEvent.
  lemma MarksFirst(t: State, a: Action)
    requires Enabled(t, a) && Effect(t, a).fiber.Some? && Effect(t, a).fiber.value.1.pc.Cancelling?
    ensures var c := Effect(t, a).fiber.value.1.pc.call;
      && c < |t.calls| && !t.calls[c].cancelled
      && Touches(Effect(t, a).call, c) && Effect(t, a).call.value.1.cancelled
  {
  }

  // A callback at cancelEvent has marked its tinfo, and it is the only one there.
  ghost predicate OneCanceller(t: State) {
    && (forall g :: 0 <= g < |t.fibers| && t.fibers[g].pc.Cancelling? ==>
          t.fibers[g].pc.call < |t.calls| && t.calls[t.fibers[g].pc.call].cancelled)
    && (forall g, h :: 0 <= g < h < |t.fibers| && t.fibers[g].pc.Cancelling? ==> t.fibers[h].pc != t.fibers[g].pc)
  }

  lemma OneCancellerStep(t: State, ch: Change)
    requires OneCanceller(t) && CallStep(t, ch)
    requires ch.fiber.Some? && ch.fiber.value.1.pc.Cancelling? ==>
      var c := ch.fiber.value.1.pc.call;
      c < |t.calls| && !t.calls[c].cancelled && Touches(ch.call, c) && ch.call.value.1.cancelled
    ensures OneCanceller(Apply(t, ch))
  {
  }

  lemma OneCancellerKept(t: State, a: Action)
    requires Consistent(t) && OneCanceller(t) && Enabled(t, a)
    ensures OneCanceller(Do(t, a))
  {
    SoundAction(t, a);
    if Effect(t, a).fiber.Some? && Effect(t, a).fiber.value.1.pc.Cancelling? {
      MarksFirst(t, a);
    }
    OneCancellerStep(t, Effect(t, a));
  }

  lemma {:induction false} OneCancellerEver(s: State, acts: seq<Action>)
    requires Initial(s) && Possible(s, acts)
    ensures OneCanceller(After(s, acts))
  {
    if acts != [] {
      var before := acts[..|acts| - 1];
      OneCancellerEver(s, before);
      EveryRun(s, before);
      OneCancellerKept(After(s, before), acts[|acts| - 1]);
    }
  }

  lemma ReachableOneCanceller(t: State)
    requires Reachable(t)
    ensures OneCanceller(t)
  {
    var s, acts :| Initial(s) && Possible(s, acts) && After(s, acts) == t;
    OneCancellerEver(s, acts);
  }

  lemma KeptIsReset(t: State, w: nat)
    requires Consistent(t) && w < |t.workers| && !t.workers[w].mode.Running? && t.workers[w].cbFiber.Some?
    ensures t.workers[w].cbFiber.value < |t.fibers| && t.fibers[t.workers[w].cbFiber.value].pc == Retained(w)
  {
    assert WorkerOk(t, w);
  }

  // A registered fiber is only suspended, switched in, or dropped.
  lemma RegisteredMoves(t: State, a: Action, f: nat)
    requires Consistent(t) && Enabled(t, a) && Touches(Effect(t, a).fiber, f)
    requires f < |t.fibers| && t.fibers[f].pc.Registered?
    ensures Effect(t, a).fiber.value.1.pc == t.fibers[f].pc || TakesFor(t, Effect(t, a), f)
  {
    if a.Loop? && a.loop.CallBack? && t.workers[a.w].cbFiber.Some? {
      KeptIsReset(t, a.w);
    }
  }

  // Its place in the slot is left only by a dispatch, a cancel or a delEvent of the slot.
  lemma HeldInSlot(t: State, ch: Change, f: nat, k: nat)
    requires Linked(t) && BoardStep(t, ch) && ch.take != Some(InSlot(k)) && Refers(t, InSlot(k), f)
    ensures !TakesFor(t, ch, f) && Refers(Apply(t, ch), InSlot(k), f)
  {
  }

  lemma UnguardedKept(t: State, ch: Change, f: nat, k: nat)
    requires Linked(t) && BoardStep(t, ch) && CallStep(t, ch) && Unguarded(t, f, k) && ch.take != Some(InSlot(k))
    requires Touches(ch.fiber, f) ==> ch.fiber.value.1.pc == t.fibers[f].pc || TakesFor(t, ch, f)
    requires ch.fiber.Some? && ch.fiber.value.1.pc.Cancelling? ==>
      ch.fiber.value.1.pc.call < |t.calls| && !t.calls[ch.fiber.value.1.pc.call].cancelled
    ensures Unguarded(Apply(t, ch), f, k)
  {
    HeldInSlot(t, ch, f, k);
  }

  // An unguarded wait stays one until something happens to its slot.
  lemma UnguardedStays(t: State, a: Action, f: nat, k: nat)
    requires Reachable(t) && Enabled(t, a) && Unguarded(t, f, k) && Effect(t, a).take != Some(InSlot(k))
    ensures Unguarded(Do(t, a), f, k)
  {
    ReachableInv(t);
    SoundAction(t, a);
    if Touches(Effect(t, a).fiber, f) {
      RegisteredMoves(t, a, f);
    }
    if Effect(t, a).fiber.Some? && Effect(t, a).fiber.value.1.pc.Cancelling? {
      MarksFirst(t, a);
    }
    UnguardedKept(t, Effect(t, a), f, k);
  }

  // The steps that lose a timeout: addEvent with tinfo already marked and its callback gone, and
  // the callback's cancelEvent refused by epoll_ctl while the wait is registered.
  ghost predicate Loses(t: State, a: Action, f: nat, k: nat)
    requires Enabled(t, a)
  {
    match a
    case Io(w, Registers(ok)) =>
      var c := PcOf(t, w).call;
      ok && Cur(t, w) == f && t.calls[c].slot == k && t.calls[c].cancelled && NobodyCancels(t, c)
    case Io(w, Expires(ok)) =>
      !ok && f < |t.fibers| && t.fibers[f].pc == Registered(PcOf(t, w).call) && Refers(t, InSlot(k), f)
    case _ => false
  }

  lemma LockMarks(t: State, a: Action)
    requires Enabled(t, a) && Effect(t, a).call.Some? && Effect(t, a).call.value.1.cancelled
    ensures Effect(t, a).call.value.0 < |t.calls|
    ensures t.calls[Effect(t, a).call.value.0].cancelled
         || (Effect(t, a).fiber.Some? && Effect(t, a).fiber.value.1.pc == Cancelling(Effect(t, a).call.value.0))
  {
  }

  lemma OnlyLockMarks(t: State, a: Action, c: nat)
    requires Enabled(t, a) && c < |Do(t, a).calls| && Do(t, a).calls[c].cancelled
    requires c < |t.calls| ==> !t.calls[c].cancelled
    ensures Effect(t, a).fiber.Some? && Effect(t, a).fiber.value.1.pc == Cancelling(c)
  {
    LockMarks(t, a);
  }

  lemma MarkerIsThere(t: State, a: Action, c: nat)
    requires Enabled(t, a) && c < |Do(t, a).calls| && Do(t, a).calls[c].cancelled
    requires c < |t.calls| ==> !t.calls[c].cancelled
    ensures !NobodyCancels(Do(t, a), c)
  {
    OnlyLockMarks(t, a, c);
    var g := Effect(t, a).fiber.value.0;
    assert Do(t, a).fibers[if g < |t.fibers| then g else |t.fibers|].pc == Cancelling(c);
  }

  lemma OnlyCancelLeaves(t: State, a: Action, g: nat)
    requires Consistent(t) && Enabled(t, a) && g < |t.fibers| && t.fibers[g].pc.Cancelling?
    requires Touches(Effect(t, a).fiber, g)
    ensures a.Io? && a.io.Expires? && Cur(t, a.w) == g
  {
    assert FiberOk(t, g);
    match a
    case Loop(w, CallBack) =>
      if t.workers[w].cbFiber.Some? {
        KeptIsReset(t, w);
      }
    case Loop(w, SwitchIn) => HeldIsOff(t, w);
    case _ =>
  }

  lemma OnlyRegisterFills(t: State, a: Action)
    requires Enabled(t, a) && Effect(t, a).put.Some? && Effect(t, a).put.value.0.InSlot?
    requires Wakes(Effect(t, a).put.value.1.task).Some?
    ensures a.Io? && a.io == Registers(true) && Effect(t, a) == Register(t, a.w, true)
  {
  }

  lemma LeftInSlot(t: State, ch: Change, f: nat, k: nat)
    requires Linked(t) && BoardStep(t, ch) && Refers(t, InSlot(k), f) && Refers(Apply(t, ch), InSlot(k), f)
    ensures ch.take != Some(InSlot(k)) && !TakesFor(t, ch, f)
  {
  }

  // A wait that was in its slot before: only a refused cancelEvent loses it.
  lemma LostWhileWaiting(t: State, a: Action, f: nat, k: nat)
    requires Consistent(t) && Enabled(t, a) && !Unguarded(t, f, k) && Refers(t, InSlot(k), f)
    requires Unguarded(Do(t, a), f, k)
    ensures a.Io? && a.io.Expires? && Loses(t, a, f, k)
  {
    assert PlaceOk(t, InSlot(k));
    assert FiberOk(t, f);
    SoundAction(t, a);
    LeftInSlot(t, Effect(t, a), f, k);
    if Touches(Effect(t, a).fiber, f) {
      RegisteredMoves(t, a, f);
    }
    var c := t.fibers[f].pc.call;
    CancellerTouched(t, a, c);
  }

  // When call c comes to have its tinfo marked and nobody at cancelEvent, the callback was there.
  lemma CancellerTouched(t: State, a: Action, c: nat)
    requires Consistent(t) && Enabled(t, a) && c < |t.calls| && (t.calls[c].cancelled ==> !NobodyCancels(t, c))
    requires c < |Do(t, a).calls| && Do(t, a).calls[c].cancelled && NobodyCancels(Do(t, a), c)
    ensures a.Io? && a.io.Expires? && PcOf(t, a.w) == Cancelling(c)
  {
    if !t.calls[c].cancelled {
      MarkerIsThere(t, a, c);
    } else {
      var g := LeftTouched(t, Effect(t, a), c);
      OnlyCancelLeaves(t, a, g);
    }
  }

  lemma LeftTouched(t: State, ch: Change, c: nat) returns (g: nat)
    requires !NobodyCancels(t, c) && NobodyCancels(Apply(t, ch), c)
    ensures g < |t.fibers| && t.fibers[g].pc == Cancelling(c) && Touches(ch.fiber, g)
  {
    g :| 0 <= g < |t.fibers| && t.fibers[g].pc == Cancelling(c);
    Untouched(t, ch, g);
  }

  lemma Untouched(t: State, ch: Change, g: nat)
    requires g < |t.fibers|
    ensures g < |Apply(t, ch).fibers| && (Touches(ch.fiber, g) || Apply(t, ch).fibers[g] == t.fibers[g])
  {
  }

  // A wait that enters its slot: only addEvent with tinfo marked and the callback gone.
  lemma LostOnEntry(t: State, a: Action, f: nat, k: nat)
    requires Consistent(t) && Enabled(t, a) && !Refers(t, InSlot(k), f) && Unguarded(Do(t, a), f, k)
    ensures a.Io? && a.io.Registers? && Loses(t, a, f, k)
  {
    OnlyRegisterFills(t, a);
    forall g | 0 <= g < |t.fibers|
      ensures t.fibers[g].pc != Cancelling(PcOf(t, a.w).call)
    {
      assert Do(t, a).fibers[g].pc != Cancelling(PcOf(t, a.w).call);
    }
  }

  lemma LosesIndeed(t: State, a: Action, f: nat, k: nat)
    requires Consistent(t) && OneCanceller(t) && Enabled(t, a) && Loses(t, a, f, k)
    ensures Unguarded(Do(t, a), f, k)
  {
  }

  // The timeout of a wait is lost by these two steps and by no other.
  lemma LosesExactly(t: State, a: Action, f: nat, k: nat)
    requires Reachable(t) && Enabled(t, a) && !Unguarded(t, f, k)
    ensures Unguarded(Do(t, a), f, k) <==> Loses(t, a, f, k)
  {
    ReachableInv(t);
    ReachableOneCanceller(t);
    if Unguarded(Do(t, a), f, k) {
      if Refers(t, InSlot(k), f) {
        LostWhileWaiting(t, a, f, k);
      } else {
        LostOnEntry(t, a, f, k);
      }
    } else if Loses(t, a, f, k) {
      LosesIndeed(t, a, f, k);
    }
  }

  lemma ReachableStep(t: State, a: Action)
    requires Reachable(t) && Enabled(t, a)
    ensures Reachable(Do(t, a))
  {
    var s, acts :| Initial(s) && Possible(s, acts) && After(s, acts) == t;
    assert (acts + [a])[..|acts|] == acts;
    assert After(s, acts + [a]) == Do(t, a);
  }

  ghost function Rearranged(board: map<Place, Item>, ch: Change): map<Place, Item> {
    var left := if ch.take.Some? then board - {ch.take.value} else board;
    if ch.put.Some? then left[ch.put.value.0 := ch.put.value.1] else left
  }

  ghost predicate Follows(s: State, ch: Change, t: State) {
    && t.board == Rearranged(s.board, ch)
    && t.fibers == Store(s.fibers, ch.fiber) && t.calls == Store(s.calls, ch.call) && t.workers == Store(s.workers, ch.worker)
    && t.ticket == s.ticket + (if ch.put.Some? && ch.put.value.0.InQueue? then 1 else 0)
    && t.timerId == s.timerId + (if ch.put.Some? && ch.put.value.0.OnTimer? then 1 else 0)
    && t.active == s.active + ch.active && t.pending == s.pending + ch.pending && t.stopping == (s.stopping || ch.stop)
  }

  lemma Applied(s: State, ch: Change)
    ensures Follows(s, ch, Apply(s, ch))
  {
    assert ch.take.Some? && ch.take.value !in s.board ==> s.board - {ch.take.value} == s.board;
  }

  // One step of a run.
  lemma Next(s: State, a: Action) returns (t: State)
    requires Reachable(s) && Enabled(s, a)
    ensures Reachable(t) && Follows(s, Effect(s, a), t)
  {
    ReachableStep(s, a);
    Applied(s, Effect(s, a));
    t := Do(s, a);
  }

  // Such a mark can come before the registration: the timer fires between addConditionTimer
  // and addEvent, its cancelEvent finds nothing, and the fiber is then suspended with a timeout
  // that no longer exists. Two workers; fiber 0 is in do_io on slot 7.
  lemma QueuedStart() returns (t: State)
    ensures Reachable(t) && t.ticket == 1 && t.timerId == 0 && t.calls == [] && t.fibers == []
    ensures t.board == map[InQueue(0) := Item(CbTask(UserCb), None, false)]
    ensures t.workers == [Worker(AtLoop, None, false), Worker(AtLoop, None, false)] && t.active == 0 && t.pending == 0
  {
    var rest := Worker(AtLoop, None, false);
    var s := State([], [], [rest, rest], map[], map[], 0, 0, 0, 0, 0, false);
    assert Possible(s, []) && After(s, []) == s;
    t := Next(s, Schedule(false, None));
  }

  lemma FetchedStart() returns (t: State)
    ensures Reachable(t) && t.ticket == 1 && t.timerId == 0 && t.calls == [] && t.fibers == []
    ensures t.board == map[Held(0) := Item(CbTask(UserCb), None, false)]
    ensures t.workers == [Worker(Fetched, None, false), Worker(AtLoop, None, false)] && t.active == 0 && t.pending == 0
  {
    var s := QueuedStart();
    t := Next(s, Loop(0, Fetches(0)));
  }

  lemma StartedIo() returns (t: State)
    ensures Reachable(t) && t.board == map[] && t.ticket == 1 && t.timerId == 0 && t.calls == []
    ensures |t.workers| == 2 && t.workers[0] == Worker(Running(0), Some(0), false) && t.workers[1] == Worker(AtLoop, None, false)
    ensures |t.fibers| == 1 && t.fibers[0] == Fiber(EXEC, User, Some(0)) && t.active == 1 && t.pending == 0
  {
    t := FetchedStart();
    t := Next(t, Loop(0, CallBack));
  }

  lemma BegunIo() returns (t: State)
    ensures Reachable(t) && t.ticket == 1
    ensures t.board == map[OnTimer(0) := Item(CbTask(TimeoutCb(0)), None, false)]
    ensures |t.workers| == 2 && t.workers[0] == Worker(Running(0), Some(0), false) && t.workers[1] == Worker(AtLoop, None, false)
    ensures |t.fibers| == 1 && t.fibers[0] == Fiber(EXEC, Armed(0), Some(0))
    ensures |t.calls| == 1 && t.calls[0] == Call(0, 7, true, Some(0), false, None, false, Some(OnTimer(0)))
  {
    t := StartedIo();
    t := Next(t, Io(0, Begins(7, true)));
  }

  lemma ArmedIo() returns (t: State)
    ensures Reachable(t) && t.ticket == 1
    ensures t.board == map[OnTimer(0) := Item(CbTask(TimeoutCb(0)), None, false)]
    ensures |t.workers| == 2 && t.workers[0] == Worker(Running(0), Some(0), false) && t.workers[1] == Worker(InIdle, None, false)
    ensures |t.fibers| == 1 && t.fibers[0] == Fiber(EXEC, Armed(0), Some(0))
    ensures |t.calls| == 1 && t.calls[0] == Call(0, 7, true, Some(0), false, None, false, Some(OnTimer(0)))
  {
    t := BegunIo();
    t := Next(t, Loop(1, GoIdle));
  }

  lemma ExpiredIo() returns (t: State)
    ensures Reachable(t) && t.ticket == 1
    ensures t.board == map[Expired(1, 0) := Item(CbTask(TimeoutCb(0)), None, false)]
    ensures |t.workers| == 2 && t.workers[0] == Worker(Running(0), Some(0), false) && t.workers[1] == Worker(InIdle, None, false)
    ensures |t.fibers| == 1 && t.fibers[0] == Fiber(EXEC, Armed(0), Some(0))
    ensures |t.calls| == 1 && t.calls[0] == Call(0, 7, true, Some(0), false, None, true, Some(Expired(1, 0)))
  {
    t := ArmedIo();
    t := Next(t, Loop(1, TimerExpires(0)));
  }

  lemma FiredIo() returns (t: State)
    ensures Reachable(t) && t.ticket == 2
    ensures t.board == map[InQueue(1) := Item(CbTask(TimeoutCb(0)), None, false)]
    ensures |t.workers| == 2 && t.workers[0] == Worker(Running(0), Some(0), false) && t.workers[1] == Worker(AtLoop, None, false)
    ensures |t.fibers| == 1 && t.fibers[0] == Fiber(EXEC, Armed(0), Some(0))
    ensures |t.calls| == 1 && t.calls[0] == Call(0, 7, true, Some(0), false, None, true, Some(InQueue(1)))
  {
    t := ExpiredIo();
    t := Next(t, Loop(1, TimerQueues(0)));
    assert t.board == map[InQueue(1) := Item(CbTask(TimeoutCb(0)), None, false)];
    t := Next(t, Loop(1, LeaveIdle));
  }

  lemma FetchedIo() returns (t: State)
    ensures Reachable(t) && t.board == map[Held(1) := Item(CbTask(TimeoutCb(0)), None, false)]
    ensures |t.workers| == 2 && t.workers[0] == Worker(Running(0), Some(0), false) && t.workers[1] == Worker(Fetched, None, false)
    ensures |t.fibers| == 1 && t.fibers[0] == Fiber(EXEC, Armed(0), Some(0))
    ensures |t.calls| == 1 && t.calls[0] == Call(0, 7, true, Some(0), false, None, true, Some(Held(1)))
  {
    t := FiredIo();
    t := Next(t, Loop(1, Fetches(1)));
  }

  lemma AlarmedIo() returns (t: State)
    ensures Reachable(t) && t.board == map[]
    ensures |t.fibers| == 2 && t.fibers[0] == Fiber(EXEC, Armed(0), Some(0)) && t.fibers[1] == Fiber(EXEC, Alarm(0), Some(1))
    ensures |t.workers| == 2 && t.workers[0] == Worker(Running(0), Some(0), false) && t.workers[1] == Worker(Running(1), Some(1), false)
    ensures |t.calls| == 1 && t.calls[0] == Call(0, 7, true, Some(0), false, None, true, Some(InFiber(1)))
  {
    t := FetchedIo();
    t := Next(t, Loop(1, CallBack));
  }

  lemma LockedIo() returns (t: State)
    ensures Reachable(t) && t.board == map[]
    ensures |t.fibers| == 2 && t.fibers[0] == Fiber(EXEC, Armed(0), Some(0)) && t.fibers[1] == Fiber(EXEC, Cancelling(0), Some(1))
    ensures |t.workers| == 2 && t.workers[0] == Worker(Running(0), Some(0), false) && t.workers[1] == Worker(Running(1), Some(1), false)
    ensures |t.calls| == 1 && t.calls[0] == Call(0, 7, true, Some(0), true, None, true, None)
  {
    t := AlarmedIo();
    t := Next(t, Io(1, Locks));
  }

  lemma MarkedIo() returns (t: State)
    ensures Reachable(t) && t.board == map[]
    ensures |t.fibers| == 2 && t.fibers[0] == Fiber(EXEC, Armed(0), Some(0)) && t.fibers[1] == Fiber(EXEC, User, Some(1))
    ensures |t.workers| == 2 && t.workers[0] == Worker(Running(0), Some(0), false) && t.workers[1] == Worker(Running(1), Some(1), false)
    ensures |t.calls| == 1 && t.calls[0] == Call(0, 7, true, Some(0), true, None, true, None)
  {
    t := LockedIo();
    t := Next(t, Io(1, Expires(true)));
  }

  lemma RegisteredIo() returns (t: State)
    ensures Reachable(t) && t.board == map[InSlot(7) := Item(FiberTask(0), None, false)]
    ensures |t.fibers| == 2 && t.fibers[0] == Fiber(EXEC, Registered(0), Some(0)) && t.fibers[1] == Fiber(EXEC, User, Some(1))
    ensures |t.workers| == 2 && t.workers[0] == Worker(Running(0), Some(0), false) && t.workers[1] == Worker(Running(1), Some(1), false)
    ensures |t.calls| == 1 && t.calls[0] == Call(0, 7, true, Some(0), true, None, true, None)
  {
    t := MarkedIo();
    t := Next(t, Io(0, Registers(true)));
  }

  lemma SuspendedIo() returns (t: State)
    ensures Reachable(t) && t.board == map[InSlot(7) := Item(FiberTask(0), None, false)]
    ensures |t.workers| == 2 && t.workers[1] == Worker(Running(1), Some(1), false)
    ensures |t.fibers| == 2 && t.fibers[0] == Fiber(HOLD, Registered(0), None) && t.fibers[1] == Fiber(EXEC, User, Some(1))
    ensures |t.calls| == 1 && t.calls[0] == Call(0, 7, true, Some(0), true, None, true, None)
  {
    t := RegisteredIo();
    t := Next(t, Io(0, Suspends));
  }

  lemma OnlyInSlot(t: State)
    requires Consistent(t) && t.board == map[InSlot(7) := Item(FiberTask(0), None, false)]
    requires |t.fibers| == 2 && t.fibers[0].pc == Registered(0) && t.fibers[1].pc.User?
    requires |t.calls| == 1 && t.calls[0].cancelled
    ensures Unguarded(t, 0, 7) && forall p :: !AlarmAt(t, 0, p)
  {
    assert FiberOk(t, 0);
    assert t.refs[0] in t.board;
    forall p
      ensures !AlarmAt(t, 0, p)
    {
      assert p in t.board ==> p == InSlot(7);
    }
  }

  lemma TimeoutCanBeLost() returns (t: State)
    ensures Reachable(t) && |t.fibers| == 2 && t.fibers[0] == Fiber(HOLD, Registered(0), None)
    ensures |t.calls| == 1 && t.calls[0].timed && t.calls[0].result.None?
    ensures Unguarded(t, 0, 7) && forall p :: !AlarmAt(t, 0, p)
  {
    t := SuspendedIo();
    ReachableInv(t);
    OnlyInSlot(t);
  }

  // The other way: the wait is registered when its timer fires, and epoll_ctl refuses the
  // callback's cancelEvent.
  lemma RegisteredWait() returns (t: State)
    ensures Reachable(t) && t.ticket == 1
    ensures t.board == map[InSlot(7) := Item(FiberTask(0), None, false), OnTimer(0) := Item(CbTask(TimeoutCb(0)), None, false)]
    ensures |t.workers| == 2 && t.workers[1] == Worker(InIdle, None, false)
    ensures |t.fibers| == 1 && t.fibers[0] == Fiber(EXEC, Registered(0), Some(0))
    ensures |t.calls| == 1 && t.calls[0] == Call(0, 7, true, Some(0), false, None, false, Some(OnTimer(0)))
  {
    t := ArmedIo();
    t := Next(t, Io(0, Registers(true)));
  }

  lemma ExpiredWait() returns (t: State)
    ensures Reachable(t) && t.ticket == 1
    ensures t.board == map[InSlot(7) := Item(FiberTask(0), None, false), Expired(1, 0) := Item(CbTask(TimeoutCb(0)), None, false)]
    ensures |t.workers| == 2 && t.workers[1] == Worker(InIdle, None, false)
    ensures |t.fibers| == 1 && t.fibers[0] == Fiber(EXEC, Registered(0), Some(0))
    ensures |t.calls| == 1 && t.calls[0] == Call(0, 7, true, Some(0), false, None, true, Some(Expired(1, 0)))
  {
    var s := RegisteredWait();
    var timeout := Item(CbTask(TimeoutCb(0)), None, false);
    assert Effect(s, Loop(1, TimerExpires(0))) ==
      NOTHING.(take := Some(OnTimer(0)), put := Some((Expired(1, 0), timeout)),
               call := Some((0, s.calls[0].(fired := true, alarm := Some(Expired(1, 0))))));
    t := Next(s, Loop(1, TimerExpires(0)));
    assert t.board == (s.board - {OnTimer(0)})[Expired(1, 0) := timeout];
  }

  lemma FiredWait() returns (t: State)
    ensures Reachable(t) && t.ticket == 2
    ensures t.board == map[InSlot(7) := Item(FiberTask(0), None, false), InQueue(1) := Item(CbTask(TimeoutCb(0)), None, false)]
    ensures |t.workers| == 2 && t.workers[1] == Worker(InIdle, None, false)
    ensures |t.fibers| == 1 && t.fibers[0] == Fiber(EXEC, Registered(0), Some(0))
    ensures |t.calls| == 1 && t.calls[0] == Call(0, 7, true, Some(0), false, None, true, Some(InQueue(1)))
  {
    var s := ExpiredWait();
    var timeout := Item(CbTask(TimeoutCb(0)), None, false);
    assert Effect(s, Loop(1, TimerQueues(0))) ==
      NOTHING.(take := Some(Expired(1, 0)), put := Some((InQueue(1), timeout)),
               call := Some((0, s.calls[0].(alarm := Some(InQueue(1))))));
    t := Next(s, Loop(1, TimerQueues(0)));
    assert t.board == (s.board - {Expired(1, 0)})[InQueue(1) := timeout];
  }

  lemma QueuedAlarm() returns (t: State)
    ensures Reachable(t)
    ensures t.board == map[InSlot(7) := Item(FiberTask(0), None, false), InQueue(1) := Item(CbTask(TimeoutCb(0)), None, false)]
    ensures |t.workers| == 2 && t.workers[1] == Worker(AtLoop, None, false)
    ensures |t.fibers| == 1 && t.fibers[0] == Fiber(EXEC, Registered(0), Some(0))
    ensures |t.calls| == 1 && t.calls[0] == Call(0, 7, true, Some(0), false, None, true, Some(InQueue(1)))
  {
    t := FiredWait();
    assert InQueue(1) in t.board;
    t := Next(t, Loop(1, LeaveIdle));
  }

  lemma FetchedWait() returns (t: State)
    ensures Reachable(t)
    ensures t.board == map[InSlot(7) := Item(FiberTask(0), None, false), Held(1) := Item(CbTask(TimeoutCb(0)), None, false)]
    ensures |t.workers| == 2 && t.workers[1] == Worker(Fetched, None, false)
    ensures |t.fibers| == 1 && t.fibers[0] == Fiber(EXEC, Registered(0), Some(0))
    ensures |t.calls| == 1 && t.calls[0] == Call(0, 7, true, Some(0), false, None, true, Some(Held(1)))
  {
    var s := QueuedAlarm();
    t := Next(s, Loop(1, Fetches(1)));
    assert t.board == (s.board - {InQueue(1)})[Held(1) := Item(CbTask(TimeoutCb(0)), None, false)];
  }

  lemma AlarmedWait() returns (t: State)
    ensures Reachable(t) && t.board == map[InSlot(7) := Item(FiberTask(0), None, false)]
    ensures |t.workers| == 2 && t.workers[1] == Worker(Running(1), Some(1), false)
    ensures |t.fibers| == 2 && t.fibers[0] == Fiber(EXEC, Registered(0), Some(0)) && t.fibers[1] == Fiber(EXEC, Alarm(0), Some(1))
    ensures |t.calls| == 1 && t.calls[0] == Call(0, 7, true, Some(0), false, None, true, Some(InFiber(1)))
  {
    var s := FetchedWait();
    t := Next(s, Loop(1, CallBack));
    assert t.board == s.board - {Held(1)};
  }

  lemma CancellingWait() returns (t: State)
    ensures Reachable(t) && t.board == map[InSlot(7) := Item(FiberTask(0), None, false)]
    ensures |t.workers| == 2 && t.workers[1] == Worker(Running(1), Some(1), false)
    ensures |t.fibers| == 2 && t.fibers[0] == Fiber(EXEC, Registered(0), Some(0)) && t.fibers[1] == Fiber(EXEC, Cancelling(0), Some(1))
    ensures |t.calls| == 1 && t.calls[0] == Call(0, 7, true, Some(0), true, None, true, None)
  {
    t := AlarmedWait();
    t := Next(t, Io(1, Locks));
  }

  lemma RefusedCancelLoses() returns (t: State)
    ensures Reachable(t) && |t.calls| == 1 && t.calls[0].timed && t.calls[0].result.None?
    ensures Unguarded(t, 0, 7)
  {
    t := CancellingWait();
    LosesExactly(t, Io(1, Expires(false)), 0, 7);
    t := Next(t, Io(1, Expires(false)));
  }

  // A run that drops a wait: another fiber's delEvent meets a suspended one.
  lemma WaitCanBeDropped() returns (t: State)
    ensures Reachable(t) && |t.fibers| == 2 && t.fibers[0] == Fiber(HOLD, Dropped(0), None)
    ensures forall p :: !Refers(t, p, 0)
  {
    var s := SuspendedIo();
    t := Next(s, UserCode(1, Drops(7, true)));
    SuspendedHasWake(t, 0);
  }

  // A run that stops on a parked fiber.
  lemma ParkedIo() returns (t: State)
    ensures Reachable(t) && |t.fibers| == 1 && t.fibers[0] == Fiber(EXEC, Parked, Some(0))
    ensures t.board == map[Handed(0) := Item(FiberTask(0), None, false)]
    ensures |t.workers| == 2 && t.workers[0] == Worker(Running(0), Some(0), false)
    ensures t.active == 1 && t.pending == 0
  {
    t := StartedIo();
    t := Next(t, UserCode(0, Parks));
  }

  lemma StopCanAbandon() returns (t: State)
    ensures Reachable(t) && Stopping(t) && |t.fibers| == 1 && t.fibers[0] == Fiber(HOLD, Parked, None)
  {
    t := ParkedIo();
    t := Next(t, Io(0, Suspends));
    assert t.board == map[Handed(0) := Item(FiberTask(0), None, false)];
    t := Next(t, Stop);
  }

  // A run in which stopping() speaks too soon: fiber 0 yields ready on worker 0, which counts
  // itself inactive before it schedules the fiber again; in between worker 1's idle fiber ends.
  lemma StoppedIo() returns (t: State)
    ensures Reachable(t) && t.board == map[] && t.ticket == 1 && t.stopping && t.active == 1 && t.pending == 0
    ensures |t.workers| == 2 && t.workers[0] == Worker(Running(0), Some(0), false) && t.workers[1] == Worker(InIdle, None, false)
    ensures |t.fibers| == 1 && t.fibers[0] == Fiber(EXEC, User, Some(0))
  {
    t := StartedIo();
    t := Next(t, Loop(1, GoIdle));
    t := Next(t, Stop);
  }

  lemma YieldedAfterStop() returns (t: State)
    ensures Reachable(t) && Stopping(t) && t.ticket == 1
    ensures t.board == map[Held(0) := Item(FiberTask(0), None, false)]
    ensures |t.workers| == 2 && t.workers[0] == Worker(Requeueing, None, false) && t.workers[1] == Worker(InIdle, None, false)
  {
    t := StoppedIo();
    t := Next(t, UserCode(0, Yields));
  }

  lemma StopSpeaksTooSoon() returns (s: State, t: State)
    ensures Reachable(s) && Stopping(s) && Possible(s, [Loop(1, IdleEnds), Loop(0, Requeues)])
    ensures t == After(s, [Loop(1, IdleEnds), Loop(0, Requeues)])
    ensures |t.workers| == 2 && t.workers[1].idleDone
    ensures InQueue(1) in t.board && t.board[InQueue(1)].task == FiberTask(0)
  {
    s := YieldedAfterStop();
    var u := Do(s, Loop(1, IdleEnds));
    assert u.board == s.board && u.workers[0] == s.workers[0];
    t := Do(u, Loop(0, Requeues));
    assert [Loop(1, IdleEnds), Loop(0, Requeues)][..1] == [Loop(1, IdleEnds)] && [Loop(1, IdleEnds)][..0] == [];
  }

  // The other two ways to have work in hand: an entry just taken from the queue, and a callback
  // just taken from the timers.
  lemma FetchedAfterStop() returns (t: State)
    ensures Reachable(t) && Stopping(t) && |t.workers| == 2 && t.workers[0].mode.Fetched?
  {
    t := FetchedStart();
    t := Next(t, Stop);
  }

  lemma TimedAlone() returns (t: State)
    ensures Reachable(t) && |t.workers| == 2 && t.workers[1] == Worker(AtLoop, None, false)
    ensures t.board == map[OnTimer(0) := Item(CbTask(UserCb), None, false)] && t.active == 0 && t.pending == 0
  {
    t := StartedIo();
    t := Next(t, UserCode(0, SetsTimer(false)));
    t := Next(t, UserCode(0, Ends(false)));
  }

  lemma ExpiredAfterStop() returns (t: State)
    ensures Reachable(t) && Stopping(t) && Expired(1, 0) in t.board
  {
    t := TimedAlone();
    t := Next(t, Loop(1, GoIdle));
    t := Next(t, Loop(1, TimerExpires(0)));
    t := Next(t, Stop);
  }
}
