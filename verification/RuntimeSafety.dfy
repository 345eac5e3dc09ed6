/** What every run of the runtime keeps: one wake-up reference per suspended fiber, one worker
    per running fiber, calls that own their timers and registrations, and counters that count.
    Each part of the invariant speaks about one fiber, place, call or worker; an action touches
    one of each, so it is enough to look at those and at what the others say about them. */
module RuntimeSafety {
  import opened Runtime
  import opened Sums
  import opened Wrappers

  // refs records exactly the references there are, so no fiber has two.
  ghost predicate Linked(s: State) {
    && (forall p :: p in s.board && Wakes(s.board[p].task).Some? ==>
          Wakes(s.board[p].task).value in s.refs && s.refs[Wakes(s.board[p].task).value] == p)
    && (forall f :: f in s.refs ==> s.refs[f] in s.board && Wakes(s.board[s.refs[f]].task) == Some(f))
  }

  // The fibers that someone has to wake: not started, suspended in do_io, in sleep or with their
  // handle given away (or about to be), or yielded while ready. A wait whose registration was
  // dropped is not among them: nobody can.
  ghost predicate Waits(fb: Fiber) {
    fb.pc.Fresh? || fb.pc.Registered? || fb.pc.Sleeping? || fb.pc.Parked? || (fb.pc.User? && fb.state.READY?)
  }

  // The state a fiber may have where its code stands; it is EXEC exactly on a worker.
  ghost predicate Fits(fb: Fiber) {
    && (fb.state.EXEC? <==> fb.worker.Some?)
    && match fb.pc
       case Fresh => fb.state.INIT?
       case User => fb.state.EXEC? || fb.state.READY?
       case Registered(_) => fb.state.EXEC? || fb.state.HOLD?
       case Dropped(_) => fb.state.EXEC? || fb.state.HOLD?
       case Sleeping => fb.state.EXEC? || fb.state.HOLD?
       case Parked => fb.state.EXEC? || fb.state.HOLD?
       case Retained(_) => fb.state.INIT?
       case Ended => fb.state.TERM? || fb.state.EXCEPT?
       case _ => fb.state.EXEC?
  }

  // Inside do_io, and inside it before the timer is cancelled.
  ghost predicate InWait(pc: Pc) {
    pc.Armed? || pc.Registered? || pc.Dropped? || pc.Woken? || pc.Checking? || pc.Retrying?
  }

  ghost predicate Early(pc: Pc) {
    InWait(pc) && !pc.Checking? && !pc.Retrying?
  }

  // A fiber is referred to exactly when it waits, from a slot only inside do_io, by foreign code
  // only after it gave its handle away; a worker that has it in its hand will find it on no worker.
  ghost predicate Referred(s: State, f: nat, fb: Fiber) {
    && (f in s.refs <==> Waits(fb))
    && (f in s.refs && s.refs[f].InSlot? ==>
          fb.pc.Registered? && fb.pc.call < |s.calls| && s.calls[fb.pc.call].slot == s.refs[f].slot)
    && (f in s.refs && s.refs[f].Handed? ==> fb.pc.Parked?)
    && (f in s.refs && s.refs[f].Held? && s.refs[f] in s.board && s.board[s.refs[f]].task.FiberTask? ==> !fb.state.EXEC?)
    && (fb.pc.Resuming? ==> InFiber(f) in s.board && s.board[InFiber(f)].task == CbTask(ResumeCb(fb.pc.fiber)))
  }

  // Inside do_io the call is the fiber's own and has no result yet; until its timer is
  // cancelled its timeout is under way, or tinfo is marked. A timeout callback comes from a
  // timer that fired.
  ghost predicate Calling(s: State, f: nat, pc: Pc) {
    && (InWait(pc) ==> pc.call < |s.calls| && s.calls[pc.call].owner == f && s.calls[pc.call].result.None?)
    && (Early(pc) && s.calls[pc.call].timed && !s.calls[pc.call].cancelled ==> s.calls[pc.call].alarm.Some?)
    && (pc.Alarm? || pc.Cancelling? ==> pc.call < |s.calls| && s.calls[pc.call].fired)
  }

  ghost predicate FiberOk(s: State, f: nat)
    requires f < |s.fibers|
  {
    var fb := s.fibers[f];
    && Fits(fb) && Referred(s, f, fb) && Calling(s, f, fb.pc)
    && (fb.worker.Some? ==> fb.worker.value < |s.workers| && s.workers[fb.worker.value].mode == Running(f))
  }

  ghost predicate PlaceOk(s: State, p: Place)
    requires p in s.board
  {
    var t := s.board[p].task;
    && (Wakes(t).Some? ==> Wakes(t).value < |s.fibers|)
    && match p
       case InQueue(k) => k < s.ticket && FromFired(s, t)
       case InSlot(k) => t.FiberTask? || t == CbTask(UserCb)
       case OnTimer(i) =>
         && i < s.timerId && t.CbTask? && (s.board[p].recurring ==> t.cb.UserCb?)
         && (t.cb.TimeoutCb? ==> Owned(s, t.cb.call, i))
       case InFiber(g) => g < |s.fibers| && s.fibers[g].pc.Resuming?
       case Handed(g) => t == FiberTask(g)
       case Held(v) => v < |s.workers| && Holding(s.workers[v].mode) && FromFired(s, t)
       case Expired(v, i) => Idling(s, v) && FromFired(s, t)
  }

  ghost predicate FromFired(s: State, t: Task) {
    t.CbTask? && t.cb.TimeoutCb? ==> t.cb.call < |s.calls| && s.calls[t.cb.call].fired
  }

  // A worker that has something in its hand.
  predicate Holding(mode: Mode) {
    mode.Fetched? || mode.Requeueing?
  }

  // A pending timeout is the current timer of a call whose fiber is still before its cancel.
  ghost predicate Owned(s: State, c: nat, i: nat) {
    && c < |s.calls| && s.calls[c].timer == Some(i) && s.calls[c].owner < |s.fibers|
    && Early(s.fibers[s.calls[c].owner].pc) && s.fibers[s.calls[c].owner].pc.call == c
  }

  ghost predicate CallOk(s: State, c: nat)
    requires c < |s.calls|
  {
    var call := s.calls[c];
    && (call.cancelled ==> call.fired)
    && (call.result == Some(TimedOut) ==> call.fired)
    && (call.timer.Some? ==> call.timer.value < s.timerId)
    && (call.timer.Some? && OnTimer(call.timer.value) in s.board ==>
          s.board[OnTimer(call.timer.value)].task == CbTask(TimeoutCb(c)))
    && (call.alarm.Some? ==> AlarmAt(s, c, call.alarm.value))
  }

  // The timeout callback of call c is at p: on its timer, queued or about to lock tinfo.
  ghost predicate AlarmAt(s: State, c: nat, p: Place) {
    if p.InFiber? then p.fiber < |s.fibers| && s.fibers[p.fiber].pc == Alarm(c)
    else p in s.board && s.board[p].task == CbTask(TimeoutCb(c))
  }

  ghost predicate WorkerOk(s: State, w: nat)
    requires w < |s.workers|
  {
    var wk := s.workers[w];
    && (wk.mode.Running? ==> wk.mode.fiber < |s.fibers| && s.fibers[wk.mode.fiber].worker == Some(w))
    && (Holding(wk.mode) ==> Held(w) in s.board && (wk.mode.Requeueing? ==> s.board[Held(w)].task.FiberTask?))
    && (wk.cbFiber.Some? ==>
          && wk.cbFiber.value < |s.fibers|
          && (wk.mode == Running(wk.cbFiber.value) || s.fibers[wk.cbFiber.value].pc == Retained(w)))
  }

  ghost predicate Consistent(s: State) {
    && Linked(s)
    && (forall f :: 0 <= f < |s.fibers| ==> FiberOk(s, f))
    && (forall p :: p in s.board ==> PlaceOk(s, p))
    && (forall c :: 0 <= c < |s.calls| ==> CallOk(s, c))
    && (forall w :: 0 <= w < |s.workers| ==> WorkerOk(s, w))
  }

  // The fiber, worker or call an action changes.
  ghost predicate Touches<T>(change: Option<(nat, T)>, i: nat) {
    change.Some? && change.value.0 == i
  }

  ghost predicate TakesFor(s: State, ch: Change, f: nat) {
    ch.take.Some? && ch.take.value in s.board && Wakes(s.board[ch.take.value].task) == Some(f)
  }

  ghost predicate PutsFor(ch: Change, f: nat) {
    ch.put.Some? && Wakes(ch.put.value.1.task) == Some(f)
  }

  // An item is taken where there is one and put where there is none, under a new ticket or id.
  ghost predicate BoardStep(s: State, ch: Change) {
    && (ch.take.Some? ==> ch.take.value in s.board)
    && (ch.put.Some? ==>
          && ch.put.value.0 !in s.board
          && (ch.put.value.0.InQueue? ==> ch.put.value.0.ticket == s.ticket)
          && (ch.put.value.0.OnTimer? ==> ch.put.value.0.timer == s.timerId)
          && (Wakes(ch.put.value.1.task).Some? ==>
                Wakes(ch.put.value.1.task).value !in s.refs || TakesFor(s, ch, Wakes(ch.put.value.1.task).value)))
  }

  lemma LinkedKept(s: State, ch: Change)
    requires Linked(s) && BoardStep(s, ch)
    ensures Linked(Apply(s, ch))
  {
    LinkedTaken(s, ch.take);
    LinkedPlaced(Taken(s, ch.take), ch.put);
  }

  lemma LinkedTaken(s: State, take: Option<Place>)
    requires Linked(s)
    ensures Linked(Taken(s, take))
  {
  }

  lemma LinkedPlaced(s: State, put: Option<(Place, Item)>)
    requires Linked(s) && (put.Some? ==> put.value.0 !in s.board)
    requires put.Some? && Wakes(put.value.1.task).Some? ==> Wakes(put.value.1.task).value !in s.refs
    ensures Linked(Placed(s, put))
  {
  }

  ghost predicate TimerGone(s: State, ch: Change, c: nat)
    requires c < |s.calls|
  {
    s.calls[c].timer.Some? ==>
      OnTimer(s.calls[c].timer.value) !in s.board || ch.take == Some(OnTimer(s.calls[c].timer.value))
  }

  // References come and go for the touched fiber only; another fiber's may move, but not into
  // a slot or into foreign hands, and a worker fetches only what is on no worker.
  ghost predicate RefStep(s: State, ch: Change) {
    && (ch.take.Some? && ch.take.value in s.board && Wakes(s.board[ch.take.value].task).Some? ==>
          var x := Wakes(s.board[ch.take.value].task).value; Touches(ch.fiber, x) || PutsFor(ch, x))
    && (ch.put.Some? && Wakes(ch.put.value.1.task).Some? ==>
          var x := Wakes(ch.put.value.1.task).value;
          || Touches(ch.fiber, x)
          || (TakesFor(s, ch, x) && !ch.put.value.0.InSlot? && !ch.put.value.0.Handed?
              && (ch.put.value.0.Held? && ch.put.value.1.task.FiberTask? ==> x < |s.fibers| && !s.fibers[x].state.EXEC?)))
    && (ch.take.Some? && ch.take.value.InFiber? ==> Touches(ch.fiber, ch.take.value.fiber))
    && (ch.put.Some? && ch.put.value.0.InFiber? ==> Touches(ch.fiber, ch.put.value.0.fiber))
  }

  // A touched fiber leaves behind neither a carried reference, nor a worker, nor a timer.
  ghost predicate FiberStep(s: State, ch: Change) {
    ch.fiber.Some? ==>
      var f, new' := ch.fiber.value.0, ch.fiber.value.1;
      f <= |s.fibers| && (f < |s.fibers| ==>
        var was := s.fibers[f];
        && (was.pc.Resuming? ==> ch.take == Some(InFiber(f)))
        && (was.worker.Some? && new'.worker != was.worker ==> Touches(ch.worker, was.worker.value))
        && (was.pc.Retained? ==> Touches(ch.worker, was.pc.worker))
        && (Early(was.pc) && was.pc.call < |s.calls| && !(Early(new'.pc) && new'.pc.call == was.pc.call) ==>
              TimerGone(s, ch, was.pc.call)))
  }

  ghost predicate WorkerStep(s: State, ch: Change) {
    ch.worker.Some? ==>
      var w, new' := ch.worker.value.0, ch.worker.value.1;
      && w < |s.workers|
      && (s.workers[w].mode.Running? && new'.mode != s.workers[w].mode ==> Touches(ch.fiber, s.workers[w].mode.fiber))
      && (Holding(s.workers[w].mode) ==> ch.take == Some(Held(w)))
      && (s.workers[w].mode.InIdle? ==> EmptyHanded(s, w))
  }

  ghost predicate HandStep(ch: Change) {
    && (ch.take.Some? && ch.take.value.Held? ==> Touches(ch.worker, ch.take.value.worker))
    && (ch.put.Some? && ch.put.value.0.Held? ==> Touches(ch.worker, ch.put.value.0.worker))
  }

  ghost predicate CallStep(s: State, ch: Change) {
    ch.call.Some? ==>
      var c, new' := ch.call.value.0, ch.call.value.1;
      c <= |s.calls| && (c < |s.calls| ==>
        var was := s.calls[c];
        && new'.owner == was.owner && new'.slot == was.slot && (was.fired ==> new'.fired)
        && new'.timed == was.timed && (was.cancelled ==> new'.cancelled)
        && (new'.result != was.result ==> Touches(ch.fiber, was.owner))
        && (was.alarm.Some? && new'.alarm.None? ==> new'.cancelled || new'.result.Some? || Touches(ch.fiber, was.owner))
        && (new'.timer != was.timer ==> TimerGone(s, ch, c)))
  }

  // A timeout callback that moves or locks takes the call's record of it along.
  ghost predicate AlarmStep(s: State, ch: Change) {
    && (ch.take.Some? && ch.take.value in s.board ==>
          match s.board[ch.take.value].task
          case CbTask(TimeoutCb(c)) => c < |s.calls| && s.calls[c].alarm == ch.take ==> Touches(ch.call, c)
          case _ => true)
    && (ch.fiber.Some? && ch.fiber.value.0 < |s.fibers| ==>
          match s.fibers[ch.fiber.value.0].pc
          case Alarm(c) => c < |s.calls| && s.calls[c].alarm == Some(InFiber(ch.fiber.value.0)) ==> Touches(ch.call, c)
          case _ => true)
  }

  ghost predicate Stepping(s: State, ch: Change) {
    && BoardStep(s, ch) && RefStep(s, ch) && FiberStep(s, ch) && WorkerStep(s, ch) && CallStep(s, ch)
    && AlarmStep(s, ch) && HandStep(ch)
  }

  lemma ReferredKept(s: State, ch: Change, f: nat, fb: Fiber)
    requires Linked(s) && BoardStep(s, ch) && RefStep(s, ch) && CallStep(s, ch)
    requires f < |s.fibers| && s.fibers[f] == fb && Referred(s, f, fb) && !Touches(ch.fiber, f)
    ensures Referred(Apply(s, ch), f, fb)
  {
  }

  lemma CallingKept(s: State, ch: Change, f: nat, pc: Pc)
    requires CallStep(s, ch) && Calling(s, f, pc) && !Touches(ch.fiber, f)
    ensures Calling(Apply(s, ch), f, pc)
  {
  }

  lemma FiberKept(s: State, ch: Change, f: nat)
    requires Linked(s) && Stepping(s, ch) && f < |s.fibers| && FiberOk(s, f) && !Touches(ch.fiber, f)
    ensures f < |Apply(s, ch).fibers| && FiberOk(Apply(s, ch), f)
  {
    ReferredKept(s, ch, f, s.fibers[f]);
    CallingKept(s, ch, f, s.fibers[f].pc);
  }

  lemma OwnedKept(s: State, ch: Change, c: nat, i: nat)
    requires FiberStep(s, ch) && CallStep(s, ch) && Owned(s, c, i) && OnTimer(i) in s.board && ch.take != Some(OnTimer(i))
    ensures Owned(Apply(s, ch), c, i)
  {
  }

  lemma PlaceKept(s: State, ch: Change, p: Place)
    requires Stepping(s, ch) && p in s.board && PlaceOk(s, p) && ch.take != Some(p)
    ensures p in Apply(s, ch).board && PlaceOk(Apply(s, ch), p)
  {
    if p.OnTimer? && s.board[p].task.cb.TimeoutCb? {
      OwnedKept(s, ch, s.board[p].task.cb.call, p.timer);
    }
  }

  lemma CallKept(s: State, ch: Change, c: nat)
    requires Stepping(s, ch) && c < |s.calls| && CallOk(s, c) && !Touches(ch.call, c)
    ensures c < |Apply(s, ch).calls| && CallOk(Apply(s, ch), c)
  {
  }

  lemma WorkerKept(s: State, ch: Change, w: nat)
    requires Stepping(s, ch) && w < |s.workers| && WorkerOk(s, w) && !Touches(ch.worker, w)
    ensures w < |Apply(s, ch).workers| && WorkerOk(Apply(s, ch), w)
  {
  }

  // What an action touches is in order afterwards.
  ghost predicate FiberDone(t: State, ch: Change) {
    ch.fiber.Some? && ch.fiber.value.0 < |t.fibers| ==> FiberOk(t, ch.fiber.value.0)
  }

  ghost predicate RestDone(t: State, ch: Change) {
    && (ch.put.Some? ==> ch.put.value.0 in t.board && PlaceOk(t, ch.put.value.0))
    && (ch.call.Some? && ch.call.value.0 < |t.calls| ==> CallOk(t, ch.call.value.0))
    && (ch.worker.Some? && ch.worker.value.0 < |t.workers| ==> WorkerOk(t, ch.worker.value.0))
  }

  ghost predicate Sound(s: State, ch: Change) {
    Stepping(s, ch) && FiberDone(Apply(s, ch), ch) && RestDone(Apply(s, ch), ch)
  }

  lemma FibersKept(s: State, ch: Change)
    requires Consistent(s) && Sound(s, ch)
    ensures forall f :: 0 <= f < |Apply(s, ch).fibers| ==> FiberOk(Apply(s, ch), f)
  {
    forall f | 0 <= f < |Apply(s, ch).fibers|
      ensures FiberOk(Apply(s, ch), f)
    {
      if f < |s.fibers| && !Touches(ch.fiber, f) {
        FiberKept(s, ch, f);
      }
    }
  }

  lemma RestKept(s: State, ch: Change)
    requires Consistent(s) && Sound(s, ch)
    ensures forall p :: p in Apply(s, ch).board ==> PlaceOk(Apply(s, ch), p)
    ensures forall c :: 0 <= c < |Apply(s, ch).calls| ==> CallOk(Apply(s, ch), c)
    ensures forall w :: 0 <= w < |Apply(s, ch).workers| ==> WorkerOk(Apply(s, ch), w)
  {
    var t := Apply(s, ch);
    forall p | p in t.board
      ensures PlaceOk(t, p)
    {
      if p in s.board && ch.take != Some(p) {
        PlaceKept(s, ch, p);
      }
    }
    forall c | 0 <= c < |t.calls|
      ensures CallOk(t, c)
    {
      if c < |s.calls| && !Touches(ch.call, c) {
        CallKept(s, ch, c);
      }
    }
    forall w | 0 <= w < |t.workers|
      ensures WorkerOk(t, w)
    {
      if w < |s.workers| && !Touches(ch.worker, w) {
        WorkerKept(s, ch, w);
      }
    }
  }

  lemma ConsistentKept(s: State, ch: Change)
    requires Consistent(s) && Sound(s, ch)
    ensures Consistent(Apply(s, ch))
  {
    LinkedKept(s, ch);
    FibersKept(s, ch);
    RestKept(s, ch);
  }

  lemma CallInOrder(s: State, c: nat)
    requires Consistent(s) && c < |s.calls|
    ensures CallOk(s, c)
    ensures var i := s.calls[c].timer; i.Some? && OnTimer(i.value) in s.board ==> PlaceOk(s, OnTimer(i.value))
  {
  }

  lemma ReferredExists(s: State, f: nat)
    requires Consistent(s)
    ensures f in s.refs ==> f < |s.fibers|
  {
    if f in s.refs {
      assert PlaceOk(s, s.refs[f]);
    }
  }

  lemma CarriedResumes(s: State, f: nat)
    requires Consistent(s)
    ensures InFiber(f) in s.board ==> f < |s.fibers| && s.fibers[f].pc.Resuming?
  {
    if InFiber(f) in s.board {
      assert PlaceOk(s, InFiber(f));
    }
  }

  lemma SpawnSound(s: State, fiber: bool, thread: Option<nat>)
    requires Consistent(s)
    ensures Sound(s, Spawn(s, fiber, thread))
  {
  }

  // A worker that is not between two critical sections has nothing in its hand.
  lemma HandEmpty(s: State, w: nat)
    requires Consistent(s) && w < |s.workers| && !Holding(s.workers[w].mode)
    ensures Held(w) !in s.board
  {
    if Held(w) in s.board {
      HandFull(s, w);
    }
  }

  lemma HandFull(s: State, w: nat)
    requires Consistent(s) && Held(w) in s.board
    ensures w < |s.workers| && Holding(s.workers[w].mode)
  {
    assert PlaceOk(s, Held(w));
  }

  lemma FetchSound(s: State, w: nat, k: nat)
    requires Consistent(s) && First(s, w, k)
    ensures Sound(s, Fetch(s, w, k))
  {
    HandEmpty(s, w);
    assert WorkerOk(s, w);
    assert PlaceOk(s, InQueue(k));
    if s.board[InQueue(k)].task.CbTask? && s.board[InQueue(k)].task.cb.TimeoutCb? {
      CallInOrder(s, s.board[InQueue(k)].task.cb.call);
    }
  }

  lemma RunFiberStepping(s: State, w: nat)
    requires Consistent(s) && Enabled(s, Loop(w, SwitchIn))
    ensures Stepping(s, RunFiber(s, w))
  {
    assert WorkerOk(s, w);
    assert PlaceOk(s, Held(w));
    assert FiberOk(s, s.board[Held(w)].task.fiber);
  }

  lemma RunFiberFiber(s: State, w: nat)
    requires Consistent(s) && Enabled(s, Loop(w, SwitchIn))
    ensures FiberDone(Apply(s, RunFiber(s, w)), RunFiber(s, w))
  {
    assert WorkerOk(s, w);
    assert PlaceOk(s, Held(w));
    assert FiberOk(s, s.board[Held(w)].task.fiber);
  }

  lemma RunFiberSound(s: State, w: nat)
    requires Consistent(s) && Enabled(s, Loop(w, SwitchIn))
    ensures Sound(s, RunFiber(s, w))
  {
    RunFiberStepping(s, w);
    RunFiberFiber(s, w);
    assert WorkerOk(s, w);
    assert PlaceOk(s, Held(w));
    assert FiberOk(s, s.board[Held(w)].task.fiber);
  }

  lemma RequeueSound(s: State, w: nat)
    requires Consistent(s) && Enabled(s, Loop(w, Requeues))
    ensures Sound(s, Requeue(s, w))
  {
    assert WorkerOk(s, w);
    assert PlaceOk(s, Held(w));
  }

  lemma RunCallbackStepping(s: State, w: nat)
    requires Consistent(s) && Enabled(s, Loop(w, CallBack))
    ensures Stepping(s, RunCallback(s, w))
  {
    assert WorkerOk(s, w);
    assert PlaceOk(s, Held(w));
    if s.workers[w].cbFiber.Some? {
      assert FiberOk(s, s.workers[w].cbFiber.value);
    }
    CarriedResumes(s, RunCallback(s, w).fiber.value.0);
    if s.board[Held(w)].task.cb.TimeoutCb? {
      CallInOrder(s, s.board[Held(w)].task.cb.call);
    }
  }

  // Nothing wakes the fiber that runs a callback.
  lemma RunCallbackUnreferred(s: State, w: nat)
    requires Consistent(s) && Enabled(s, Loop(w, CallBack))
    ensures RunCallback(s, w).fiber.value.0 !in Apply(s, RunCallback(s, w)).refs
  {
    var f := RunCallback(s, w).fiber.value.0;
    assert WorkerOk(s, w);
    assert PlaceOk(s, Held(w));
    if f < |s.fibers| {
      assert FiberOk(s, f);
    }
    ReferredExists(s, f);
  }

  lemma RunCallbackFiber(s: State, w: nat)
    requires Consistent(s) && Enabled(s, Loop(w, CallBack))
    ensures FiberDone(Apply(s, RunCallback(s, w)), RunCallback(s, w))
  {
    var ch, cb := RunCallback(s, w), s.board[Held(w)].task.cb;
    var f, t := ch.fiber.value.0, Apply(s, ch);
    assert WorkerOk(s, w);
    assert PlaceOk(s, Held(w));
    if f < |s.fibers| {
      assert FiberOk(s, f);
    }
    RunCallbackUnreferred(s, w);
    assert t.fibers[f] == Fiber(EXEC, Entrance(cb), Some(w));
  }

  lemma RunCallbackRest(s: State, w: nat)
    requires Consistent(s) && Enabled(s, Loop(w, CallBack))
    ensures RestDone(Apply(s, RunCallback(s, w)), RunCallback(s, w))
  {
    assert WorkerOk(s, w);
    assert PlaceOk(s, Held(w));
    if s.workers[w].cbFiber.Some? {
      assert FiberOk(s, s.workers[w].cbFiber.value);
    }
    CarriedResumes(s, RunCallback(s, w).fiber.value.0);
    if s.board[Held(w)].task.cb.TimeoutCb? {
      CallInOrder(s, s.board[Held(w)].task.cb.call);
    }
  }

  lemma RunCallbackSound(s: State, w: nat)
    requires Consistent(s) && Enabled(s, Loop(w, CallBack))
    ensures Sound(s, RunCallback(s, w))
  {
    RunCallbackStepping(s, w);
    RunCallbackFiber(s, w);
    RunCallbackRest(s, w);
  }

  lemma RestSound(s: State, w: nat)
    requires Consistent(s) && NothingFor(s, w)
    ensures Sound(s, Rest(s, w))
  {
    assert WorkerOk(s, w);
  }

  lemma UnrestSound(s: State, w: nat, done: bool)
    requires Consistent(s) && Idling(s, w) && EmptyHanded(s, w)
    ensures Sound(s, Unrest(s, w, done))
  {
    assert WorkerOk(s, w);
  }

  lemma FireSound(s: State, w: nat, i: nat)
    requires Consistent(s) && Idling(s, w) && OnTimer(i) in s.board && Expired(w, i) !in s.board
    ensures Sound(s, Fire(s, w, i))
  {
    assert PlaceOk(s, OnTimer(i));
  }

  lemma ReleaseSound(s: State, w: nat, i: nat)
    requires Consistent(s) && Expired(w, i) in s.board
    ensures Sound(s, Release(s, w, i))
  {
    assert PlaceOk(s, Expired(w, i));
    if s.board[Expired(w, i)].task.CbTask? && s.board[Expired(w, i)].task.cb.TimeoutCb? {
      CallInOrder(s, s.board[Expired(w, i)].task.cb.call);
    }
  }

  lemma TriggerSound(s: State, k: nat, ok: bool)
    requires Consistent(s)
    ensures Sound(s, Trigger(s, k, ok))
  {
  }

  lemma UserTimerSound(s: State, recurring: bool)
    requires Consistent(s)
    ensures Sound(s, NOTHING.(put := Timed(s, UserCb, recurring)))
  {
  }

  lemma UserTimerGone(s: State, i: nat)
    requires Consistent(s) && (OnTimer(i) in s.board ==> s.board[OnTimer(i)].task == CbTask(UserCb))
    ensures Sound(s, NOTHING.(take := if OnTimer(i) in s.board then Some(OnTimer(i)) else None))
  {
  }

  lemma WatchSound(s: State, k: nat)
    requires Consistent(s) && InSlot(k) !in s.board
    ensures Sound(s, NOTHING.(put := Some((InSlot(k), Item(CbTask(UserCb), None, false))), pending := 1))
  {
  }

  lemma DropSound(s: State, k: nat, ok: bool)
    requires Consistent(s)
    ensures Sound(s, Drop(s, k, ok))
  {
    if InSlot(k) in s.board && s.board[InSlot(k)].task.FiberTask? {
      assert PlaceOk(s, InSlot(k));
      assert FiberOk(s, s.board[InSlot(k)].task.fiber);
    }
  }

  lemma YieldReadySound(s: State, w: nat)
    requires Consistent(s) && UserAt(s, w)
    ensures Sound(s, YieldReady(s, w))
  {
    HandEmpty(s, w);
    assert WorkerOk(s, w);
    assert FiberOk(s, Cur(s, w));
  }

  lemma YieldHoldSound(s: State, w: nat)
    requires Consistent(s) && OnWorker(s, w) && Suspending(PcOf(s, w))
    ensures Sound(s, YieldHold(s, w))
  {
    assert WorkerOk(s, w);
    assert FiberOk(s, Cur(s, w));
  }

  lemma FinishStepping(s: State, w: nat, threw: bool)
    requires Consistent(s) && UserAt(s, w)
    ensures Stepping(s, Finish(s, w, threw))
  {
    assert WorkerOk(s, w);
    assert FiberOk(s, Cur(s, w));
  }

  lemma FinishFiber(s: State, w: nat, threw: bool)
    requires Consistent(s) && UserAt(s, w)
    ensures FiberDone(Apply(s, Finish(s, w, threw)), Finish(s, w, threw))
  {
    assert WorkerOk(s, w);
    assert FiberOk(s, Cur(s, w));
  }

  lemma FinishSound(s: State, w: nat, threw: bool)
    requires Consistent(s) && UserAt(s, w)
    ensures Sound(s, Finish(s, w, threw))
  {
    FinishStepping(s, w, threw);
    FinishFiber(s, w, threw);
    assert WorkerOk(s, w);
    assert FiberOk(s, Cur(s, w));
  }

  lemma SleepSound(s: State, w: nat)
    requires Consistent(s) && UserAt(s, w)
    ensures Sound(s, Sleep(s, w))
  {
    assert WorkerOk(s, w);
    assert FiberOk(s, Cur(s, w));
  }

  lemma HandedReferred(s: State, f: nat)
    requires Consistent(s) && Handed(f) in s.board
    ensures f < |s.fibers| && s.board[Handed(f)].task == FiberTask(f) && f in s.refs && s.refs[f] == Handed(f)
  {
    assert PlaceOk(s, Handed(f));
  }

  lemma ParkSound(s: State, w: nat)
    requires Consistent(s) && UserAt(s, w)
    ensures Sound(s, Park(s, w))
  {
    assert WorkerOk(s, w);
    assert FiberOk(s, Cur(s, w));
    if Handed(Cur(s, w)) in s.board {
      HandedReferred(s, Cur(s, w));
    }
  }

  lemma HandBackSound(s: State, f: nat)
    requires Consistent(s) && Handed(f) in s.board
    ensures Sound(s, HandBack(s, f))
  {
    HandedReferred(s, f);
  }

  lemma BeginSound(s: State, w: nat, slot: nat, timed: bool)
    requires Consistent(s) && UserAt(s, w)
    ensures Sound(s, Begin(s, w, slot, timed))
  {
    assert WorkerOk(s, w);
    assert FiberOk(s, Cur(s, w));
  }

  lemma RegisterStepping(s: State, w: nat, ok: bool)
    requires Consistent(s) && InCall(s, w) && PcOf(s, w).Armed? && (ok ==> InSlot(s.calls[PcOf(s, w).call].slot) !in s.board)
    ensures Stepping(s, Register(s, w, ok))
  {
    assert WorkerOk(s, w);
    assert FiberOk(s, Cur(s, w));
    CallInOrder(s, PcOf(s, w).call);
  }

  lemma RegisterFiber(s: State, w: nat, ok: bool)
    requires Consistent(s) && InCall(s, w) && PcOf(s, w).Armed? && (ok ==> InSlot(s.calls[PcOf(s, w).call].slot) !in s.board)
    ensures FiberDone(Apply(s, Register(s, w, ok)), Register(s, w, ok))
  {
    assert WorkerOk(s, w);
    assert FiberOk(s, Cur(s, w));
    CallInOrder(s, PcOf(s, w).call);
  }

  lemma RegisterRest(s: State, w: nat, ok: bool)
    requires Consistent(s) && InCall(s, w) && PcOf(s, w).Armed? && (ok ==> InSlot(s.calls[PcOf(s, w).call].slot) !in s.board)
    ensures RestDone(Apply(s, Register(s, w, ok)), Register(s, w, ok))
  {
    assert WorkerOk(s, w);
    assert FiberOk(s, Cur(s, w));
    CallInOrder(s, PcOf(s, w).call);
  }

  lemma RegisterSound(s: State, w: nat, ok: bool)
    requires Consistent(s) && InCall(s, w) && PcOf(s, w).Armed? && (ok ==> InSlot(s.calls[PcOf(s, w).call].slot) !in s.board)
    ensures Sound(s, Register(s, w, ok))
  {
    RegisterStepping(s, w, ok);
    RegisterFiber(s, w, ok);
    RegisterRest(s, w, ok);
  }

  lemma DisarmStepping(s: State, w: nat)
    requires Consistent(s) && InCall(s, w) && PcOf(s, w).Woken?
    ensures Stepping(s, Disarm(s, w))
  {
    assert WorkerOk(s, w);
    assert FiberOk(s, Cur(s, w));
    CallInOrder(s, PcOf(s, w).call);
  }

  lemma DisarmFiber(s: State, w: nat)
    requires Consistent(s) && InCall(s, w) && PcOf(s, w).Woken?
    ensures FiberDone(Apply(s, Disarm(s, w)), Disarm(s, w))
  {
    assert WorkerOk(s, w);
    assert FiberOk(s, Cur(s, w));
    CallInOrder(s, PcOf(s, w).call);
  }

  lemma DisarmSound(s: State, w: nat)
    requires Consistent(s) && InCall(s, w) && PcOf(s, w).Woken?
    ensures Sound(s, Disarm(s, w))
  {
    DisarmStepping(s, w);
    DisarmFiber(s, w);
    assert WorkerOk(s, w);
    assert FiberOk(s, Cur(s, w));
    CallInOrder(s, PcOf(s, w).call);
  }

  lemma CheckSound(s: State, w: nat)
    requires Consistent(s) && InCall(s, w) && PcOf(s, w).Checking?
    ensures Sound(s, Check(s, w))
  {
    assert WorkerOk(s, w);
    assert FiberOk(s, Cur(s, w));
    CallInOrder(s, PcOf(s, w).call);
  }

  lemma RetryStepping(s: State, w: nat, again: bool)
    requires Consistent(s) && InCall(s, w) && PcOf(s, w).Retrying?
    ensures Stepping(s, Retry(s, w, again))
  {
    assert WorkerOk(s, w);
    assert FiberOk(s, Cur(s, w));
    CallInOrder(s, PcOf(s, w).call);
  }

  lemma RetrySound(s: State, w: nat, again: bool)
    requires Consistent(s) && InCall(s, w) && PcOf(s, w).Retrying?
    ensures Sound(s, Retry(s, w, again))
  {
    RetryStepping(s, w, again);
    assert WorkerOk(s, w);
    assert FiberOk(s, Cur(s, w));
    CallInOrder(s, PcOf(s, w).call);
  }

  lemma LockStepping(s: State, w: nat)
    requires Consistent(s) && InCall(s, w) && PcOf(s, w).Alarm?
    ensures Stepping(s, Lock(s, w))
  {
    assert WorkerOk(s, w);
    assert FiberOk(s, Cur(s, w));
    CallInOrder(s, PcOf(s, w).call);
  }

  lemma LockFiber(s: State, w: nat)
    requires Consistent(s) && InCall(s, w) && PcOf(s, w).Alarm?
    ensures FiberDone(Apply(s, Lock(s, w)), Lock(s, w))
  {
    assert WorkerOk(s, w);
    assert FiberOk(s, Cur(s, w));
    CallInOrder(s, PcOf(s, w).call);
  }

  lemma LockRest(s: State, w: nat)
    requires Consistent(s) && InCall(s, w) && PcOf(s, w).Alarm?
    ensures RestDone(Apply(s, Lock(s, w)), Lock(s, w))
  {
    assert WorkerOk(s, w);
    assert FiberOk(s, Cur(s, w));
    CallInOrder(s, PcOf(s, w).call);
  }

  lemma LockSound(s: State, w: nat)
    requires Consistent(s) && InCall(s, w) && PcOf(s, w).Alarm?
    ensures Sound(s, Lock(s, w))
  {
    LockStepping(s, w);
    LockFiber(s, w);
    LockRest(s, w);
  }

  lemma ExpireSound(s: State, w: nat, ok: bool)
    requires Consistent(s) && InCall(s, w) && PcOf(s, w).Cancelling?
    ensures Sound(s, Expire(s, w, ok))
  {
    assert WorkerOk(s, w);
    assert FiberOk(s, Cur(s, w));
    TriggerSound(s, s.calls[PcOf(s, w).call].slot, ok);
  }

  lemma ResumeSound(s: State, w: nat)
    requires Consistent(s) && OnWorker(s, w) && PcOf(s, w).Resuming?
    ensures Sound(s, Resume(s, w))
  {
    assert WorkerOk(s, w);
    assert FiberOk(s, Cur(s, w));
    assert PlaceOk(s, InFiber(Cur(s, w)));
    assert FiberOk(s, PcOf(s, w).fiber);
  }

  lemma LoopSound(s: State, w: nat, a: LoopStep)
    requires Consistent(s) && LoopEnabled(s, w, a)
    ensures Sound(s, LoopEffect(s, w, a))
  {
    match a
    case Fetches(k) => FetchSound(s, w, k);
    case SwitchIn => RunFiberSound(s, w);
    case CallBack => RunCallbackSound(s, w);
    case Requeues => RequeueSound(s, w);
    case GoIdle => RestSound(s, w);
    case LeaveIdle => UnrestSound(s, w, false);
    case IdleEnds => UnrestSound(s, w, true);
    case TimerExpires(i) => FireSound(s, w, i);
    case TimerQueues(i) => ReleaseSound(s, w, i);
    case EventArrives(k, ok) => TriggerSound(s, k, ok);
  }

  lemma UserSound(s: State, w: nat, a: UserStep)
    requires Consistent(s) && UserAt(s, w) && UserEnabled(s, w, a)
    ensures Sound(s, UserEffect(s, w, a))
  {
    match a
    case Schedules(fiber, thread) => SpawnSound(s, fiber, thread);
    case SetsTimer(recurring) => UserTimerSound(s, recurring);
    case CancelsTimer(i) => UserTimerGone(s, i);
    case Watches(k) => WatchSound(s, k);
    case Cancels(k, ok) => TriggerSound(s, k, ok);
    case Drops(k, ok) => DropSound(s, k, ok);
    case Yields => YieldReadySound(s, w);
    case Ends(threw) => FinishSound(s, w, threw);
    case Sleeps => SleepSound(s, w);
    case Parks => ParkSound(s, w);
    case HandsBack(f) => HandBackSound(s, f);
  }

  lemma IoSound(s: State, w: nat, a: IoStep)
    requires Consistent(s) && IoEnabled(s, w, a)
    ensures Sound(s, IoEffect(s, w, a))
  {
    match a
    case Begins(slot, timed) => BeginSound(s, w, slot, timed);
    case Registers(ok) => RegisterSound(s, w, ok);
    case Suspends => YieldHoldSound(s, w);
    case Disarms => DisarmSound(s, w);
    case Checks => CheckSound(s, w);
    case Retries(again) => RetrySound(s, w, again);
    case Locks => LockSound(s, w);
    case Expires(ok) => ExpireSound(s, w, ok);
    case Resumes => ResumeSound(s, w);
  }

  lemma SoundAction(s: State, a: Action)
    requires Consistent(s) && Enabled(s, a)
    ensures Sound(s, Effect(s, a))
  {
    match a
    case Schedule(fiber, thread) => SpawnSound(s, fiber, thread);
    case HandedBack(f) => HandBackSound(s, f);
    case Stop =>
    case Loop(w, step) => LoopSound(s, w, step);
    case UserCode(w, step) => UserSound(s, w, step);
    case Io(w, step) => IoSound(s, w, step);
  }
}
