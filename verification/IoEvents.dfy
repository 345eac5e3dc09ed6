/** sherry/iomanager.cc: registration, removal and dispatch of fd events. The operations are
    functions on a value holding what the IOManager holds; three views of the interest in an
    fd (its bits, its filled slots, the kernel's list) are kept in step by every run, and no
    task handed to addEvent is lost or doubled. */
module IoEvents {
  import opened Sums
  import opened Wrappers

  datatype Event = READ | WRITE
  datatype Task = FiberTask(fiber: nat) | CallbackTask(cb: nat)
  datatype EpollOp = ADD | MOD | DEL
  datatype Outcome = Done | Refused | AssertFailed

  // The event bits.
  datatype Mask = Mask(read: bool, write: bool)
  {
    predicate Has(e: Event) {
      if e.READ? then read else write
    }

    predicate Within(m: Mask) {
      (read ==> m.read) && (write ==> m.write)
    }

    function Or(m: Mask): Mask {
      Mask(read || m.read, write || m.write)
    }

    function And(m: Mask): Mask {
      Mask(read && m.read, write && m.write)
    }

    function Less(m: Mask): Mask {
      Mask(read && !m.read, write && !m.write)
    }
  }

  const NONE := Mask(false, false)

  function Bit(e: Event): Mask {
    Mask(e.READ?, e.WRITE?)
  }

  datatype EventContext = EventContext(scheduler: bool, fiber: Option<nat>, cb: Option<nat>)
  {
    predicate Filled() {
      scheduler && (fiber.Some? <==> cb.None?)
    }

    // What the slot would schedule: the callback if there is one, else the fiber, if any.
    function Tasks(): seq<Task> {
      if cb.Some? then [CallbackTask(cb.value)]
      else if fiber.Some? then [FiberTask(fiber.value)]
      else []
    }
  }

  const EMPTY := EventContext(false, None, None)

  function SlotFor(t: Task): EventContext {
    match t
    case FiberTask(f) => EventContext(true, Some(f), None)
    case CallbackTask(c) => EventContext(true, None, Some(c))
  }

  // What an FdContext holds at one moment.
  datatype FdView = FdView(events: Mask, read: EventContext, write: EventContext)
  {
    function Slot(e: Event): EventContext {
      if e.READ? then read else write
    }

    function With(e: Event, c: EventContext): FdView {
      if e.READ? then FdView(events.Or(Bit(e)), c, write) else FdView(events.Or(Bit(e)), read, c)
    }

    function Minus(e: Event): FdView {
      if e.READ? then FdView(events.Less(Bit(e)), EMPTY, write) else FdView(events.Less(Bit(e)), read, EMPTY)
    }

    // A slot is filled exactly when its bit is set, and bare otherwise.
    predicate Agrees() {
      && (if events.read then read.Filled() else read == EMPTY)
      && (if events.write then write.Filled() else write == EMPTY)
    }
  }

  const UNUSED := FdView(NONE, EMPTY, EMPTY)

  function CountOf(v: FdView): nat {
    (if v.events.read then 1 else 0) + (if v.events.write then 1 else 0)
  }

  function TasksOf(v: FdView): multiset<Task> {
    multiset(v.read.Tasks()) + multiset(v.write.Tasks())
  }

  // accepted and dropped are history: the tasks addEvent took and those delEvent threw away.
  datatype State = State(
    view: seq<FdView>, pending: int, queue: seq<Task>, kernel: map<nat, Mask>,
    accepted: multiset<Task>, dropped: multiset<Task>)

  function Unused(n: nat): seq<FdView> {
    seq(n, _ => UNUSED)
  }

  ghost predicate Initial(s: State) {
    s == State(Unused(32), 0, [], map[], multiset{}, multiset{})
  }

  // The kernel's answer ok is the environment's.
  function EpollCtl(kernel: map<nat, Mask>, op: EpollOp, fd: nat, events: Mask, ok: bool): map<nat, Mask> {
    if !ok then kernel else if op.DEL? then kernel - {fd} else kernel[fd := events]
  }

  // contextResize(fd * 1.5), when the table is too short for fd.
  function Extended(vs: seq<FdView>, fd: nat): seq<FdView> {
    if fd < |vs| || fd + fd / 2 < |vs| then vs else vs + Unused(fd + fd / 2 - |vs|)
  }

  ghost function Grow(s: State, fd: nat): State {
    s.(view := Extended(s.view, fd))
  }

  // The part of addEvent under the fd's lock.
  ghost function AddAt(s: State, fd: nat, e: Event, t: Task, ok: bool): (State, Outcome)
    requires fd < |s.view|
  {
    var v := s.view[fd];
    if v.events.Has(e) then (s, AssertFailed)
    else if !ok then (s, Refused)
    else
      (s.(view := s.view[fd := v.With(e, SlotFor(t))],
          pending := s.pending + 1,
          kernel := EpollCtl(s.kernel, if v.events != NONE then MOD else ADD, fd, v.events.Or(Bit(e)), ok),
          accepted := s.accepted + multiset{t}),
       Done)
  }

  ghost function Add(s: State, fd: int, e: Event, t: Task, ok: bool): (State, Outcome) {
    if fd < 1 then (s, Refused)
    else if |Grow(s, fd).view| <= fd then (s, AssertFailed)
    else AddAt(Grow(s, fd), fd, e, t, ok)
  }

  // The kernel's list after fd keeps only the bits `left`.
  function Narrow(kernel: map<nat, Mask>, fd: nat, left: Mask, ok: bool): map<nat, Mask> {
    EpollCtl(kernel, if left != NONE then MOD else DEL, fd, left, ok)
  }

  ghost function Del(s: State, fd: nat, e: Event, ok: bool): (State, Outcome) {
    if |s.view| <= fd || !s.view[fd].events.Has(e) || !ok then (s, Refused)
    else
      (s.(view := s.view[fd := s.view[fd].Minus(e)],
          pending := s.pending - 1,
          kernel := Narrow(s.kernel, fd, s.view[fd].events.Less(Bit(e)), ok),
          dropped := s.dropped + multiset(s.view[fd].Slot(e).Tasks())),
       Done)
  }

  // triggerEvent and the count that follows it.
  ghost function Trigger(s: State, fd: nat, e: Event): State
    requires fd < |s.view|
  {
    s.(view := s.view[fd := s.view[fd].Minus(e)],
       queue := s.queue + s.view[fd].Slot(e).Tasks(),
       pending := s.pending - 1)
  }

  ghost function TriggerAll(s: State, fd: nat, m: Mask): State
    requires fd < |s.view|
  {
    var s1 := if m.read then Trigger(s, fd, READ) else s;
    if m.write then Trigger(s1, fd, WRITE) else s1
  }

  ghost function Cancel(s: State, fd: nat, e: Event, ok: bool): (State, Outcome) {
    if |s.view| <= fd || !s.view[fd].events.Has(e) || !ok then (s, Refused)
    else
      (Trigger(s.(kernel := Narrow(s.kernel, fd, s.view[fd].events.Less(Bit(e)), ok)), fd, e), Done)
  }

  ghost function CancelAll(s: State, fd: nat, ok: bool): (State, Outcome) {
    if |s.view| <= fd || s.view[fd].events == NONE || !ok then (s, Refused)
    else (TriggerAll(s.(kernel := EpollCtl(s.kernel, DEL, fd, NONE, ok)), fd, s.view[fd].events), Done)
  }

  // One epoll_wait entry: the reported bits, and whether the error or hang-up bit is there.
  datatype Harvest = Harvest(fd: nat, events: Mask, broken: bool)
  {
    function Real(registered: Mask): Mask {
      if broken then events.Or(registered) else events
    }
  }

  // One harvested entry in idle. A bit reported but no longer registered reaches the assertion
  // of triggerEvent, unless no reported bit is registered any more.
  ghost function Dispatch(s: State, h: Harvest, ok: bool): (State, Outcome) {
    if |s.view| <= h.fd then (s, Refused)
    else
      var registered := s.view[h.fd].events;
      var found := h.Real(registered);
      if registered.And(found) == NONE || !ok then (s, Refused)
      else
        var t := s.(kernel := Narrow(s.kernel, h.fd, registered.Less(found), ok));
        if found.Within(registered) then (TriggerAll(t, h.fd, found), Done) else (t, AssertFailed)
  }

  datatype Op =
    | AddEvent(anyFd: int, e: Event, t: Task, ok: bool)
    | DelEvent(fd: nat, e: Event, ok: bool)
    | CancelEvent(fd: nat, e: Event, ok: bool)
    | CancelAllEvents(fd: nat, ok: bool)
    | DispatchEvent(h: Harvest, ok: bool)

  ghost function Step(s: State, op: Op): (State, Outcome) {
    match op
    case AddEvent(fd, e, t, ok) => Add(s, fd, e, t, ok)
    case DelEvent(fd, e, ok) => Del(s, fd, e, ok)
    case CancelEvent(fd, e, ok) => Cancel(s, fd, e, ok)
    case CancelAllEvents(fd, ok) => CancelAll(s, fd, ok)
    case DispatchEvent(h, ok) => Dispatch(s, h, ok)
  }

  // An operation after a run; a failed assertion ends it.
  ghost function Then(before: Option<State>, op: Op): Option<State> {
    if before.None? || Step(before.value, op).1.AssertFailed? then None
    else Some(Step(before.value, op).0)
  }

  // The state after the operations, if no assertion failed on the way.
  ghost function Run(s: State, ops: seq<Op>): Option<State> {
    if ops == [] then Some(s) else Then(Run(s, ops[..|ops| - 1]), ops[|ops| - 1])
  }

  // The kernel's list has an fd exactly when it has a bit, with the same bits.
  ghost predicate Matches(kernel: map<nat, Mask>, vs: seq<FdView>) {
    && (forall i :: 0 <= i < |vs| ==> (i in kernel <==> vs[i].events != NONE))
    && (forall i :: i in kernel ==> i < |vs| && kernel[i] == vs[i].events)
  }

  ghost predicate Agreeing(vs: seq<FdView>) {
    forall i :: 0 <= i < |vs| ==> vs[i].Agrees()
  }

  // The counter is the number of set bits; every task taken is waiting, scheduled or dropped,
  // counted once.
  ghost predicate Counted(s: State) {
    s.pending == Total(CountOf, s.view)
  }

  ghost predicate Conserved(s: State) {
    s.accepted == Gather(TasksOf, s.view) + multiset(s.queue) + s.dropped
  }

  ghost predicate Books(s: State) {
    Agreeing(s.view) && Counted(s) && Conserved(s)
  }

  ghost predicate Inv(s: State) {
    |s.view| >= 32 && Matches(s.kernel, s.view) && Books(s)
  }

  lemma CountAfter(vs: seq<FdView>, fd: nat, v: FdView)
    requires fd < |vs|
    ensures Total(CountOf, vs[fd := v]) == Total(CountOf, vs) - CountOf(vs[fd]) + CountOf(v)
  {
    TotalUpdate(CountOf, vs, fd, v);
  }

  lemma Exchange<T>(a: multiset<T>, b: multiset<T>, x: multiset<T>, y: multiset<T>)
    requires b + x == a + (x + y)
    ensures b == a + y
  {
    forall t
      ensures b[t] == (a + y)[t]
    {
      assert (b + x)[t] == (a + (x + y))[t];
    }
  }

  lemma WaitingWith(vs: seq<FdView>, fd: nat, e: Event, t: Task)
    requires fd < |vs| && vs[fd].Slot(e) == EMPTY
    ensures Gather(TasksOf, vs[fd := vs[fd].With(e, SlotFor(t))]) == Gather(TasksOf, vs) + multiset{t}
  {
    var w := vs[fd].With(e, SlotFor(t));
    GatherUpdate(TasksOf, vs, fd, w);
    assert TasksOf(w) == TasksOf(vs[fd]) + multiset{t};
    Exchange(Gather(TasksOf, vs), Gather(TasksOf, vs[fd := w]), TasksOf(vs[fd]), multiset{t});
  }

  lemma WaitingMinus(vs: seq<FdView>, fd: nat, e: Event)
    requires fd < |vs|
    ensures Gather(TasksOf, vs) == Gather(TasksOf, vs[fd := vs[fd].Minus(e)]) + multiset(vs[fd].Slot(e).Tasks())
  {
    var w := vs[fd].Minus(e);
    GatherUpdate(TasksOf, vs, fd, w);
    assert TasksOf(vs[fd]) == TasksOf(w) + multiset(vs[fd].Slot(e).Tasks());
    Exchange(Gather(TasksOf, vs[fd := w]), Gather(TasksOf, vs), TasksOf(w), multiset(vs[fd].Slot(e).Tasks()));
  }

  lemma {:induction false} GrowKeeps(vs: seq<FdView>, ws: seq<FdView>)
    requires vs <= ws && forall i :: |vs| <= i < |ws| ==> ws[i] == UNUSED
    ensures Total(CountOf, ws) == Total(CountOf, vs) && Gather(TasksOf, ws) == Gather(TasksOf, vs)
  {
    var n := |ws| - 1;
    if vs != ws {
      GrowKeeps(vs, ws[..n]);
      assert ws == ws[..n] + [UNUSED];
      TotalAppend(CountOf, ws[..n], UNUSED);
      GatherAppend(TasksOf, ws[..n], UNUSED);
    }
  }

  lemma TriggerKeeps(s: State, fd: nat, e: Event)
    requires Books(s) && fd < |s.view| && s.view[fd].events.Has(e)
    ensures Books(Trigger(s, fd, e))
  {
    CountAfter(s.view, fd, s.view[fd].Minus(e));
    WaitingMinus(s.view, fd, e);
  }

  lemma TriggerAllKeeps(s: State, fd: nat, m: Mask)
    requires Books(s) && fd < |s.view| && m.Within(s.view[fd].events)
    ensures Books(TriggerAll(s, fd, m))
  {
    if m.read {
      TriggerKeeps(s, fd, READ);
    }
    if m.write {
      TriggerKeeps(if m.read then Trigger(s, fd, READ) else s, fd, WRITE);
    }
  }

  lemma TriggerAllView(s: State, fd: nat, m: Mask)
    requires fd < |s.view|
    ensures TriggerAll(s, fd, m).kernel == s.kernel && |TriggerAll(s, fd, m).view| == |s.view|
    ensures forall i :: 0 <= i < |s.view| && i != fd ==> TriggerAll(s, fd, m).view[i] == s.view[i]
    ensures TriggerAll(s, fd, m).view[fd].events == s.view[fd].events.Less(m)
  {
  }

  lemma Rotate<T>(a: multiset<T>, b: multiset<T>, c: multiset<T>, x: multiset<T>)
    ensures a + b + c + x == a + x + b + c
  {
  }

  lemma FillConserves(s: State, fd: nat, e: Event, t: Task)
    requires Conserved(s) && fd < |s.view| && s.view[fd].Slot(e) == EMPTY
    ensures s.accepted + multiset{t} ==
      Gather(TasksOf, s.view[fd := s.view[fd].With(e, SlotFor(t))]) + multiset(s.queue) + s.dropped
  {
    WaitingWith(s.view, fd, e, t);
    Rotate(Gather(TasksOf, s.view), multiset(s.queue), s.dropped, multiset{t});
  }

  lemma FillKeeps(s: State, fd: nat, e: Event, t: Task, kernel: map<nat, Mask>)
    requires Books(s) && fd < |s.view| && !s.view[fd].events.Has(e)
    ensures Books(s.(view := s.view[fd := s.view[fd].With(e, SlotFor(t))], pending := s.pending + 1,
                     kernel := kernel, accepted := s.accepted + multiset{t}))
  {
    assert s.view[fd].Agrees();
    var w := s.view[fd].With(e, SlotFor(t));
    assert w.Agrees() && CountOf(w) == CountOf(s.view[fd]) + 1;
    CountAfter(s.view, fd, w);
    FillConserves(s, fd, e, t);
  }

  lemma ResetKeeps(s: State, fd: nat, e: Event, kernel: map<nat, Mask>)
    requires Books(s) && fd < |s.view| && s.view[fd].events.Has(e)
    ensures Books(s.(view := s.view[fd := s.view[fd].Minus(e)], pending := s.pending - 1,
                     kernel := kernel, dropped := s.dropped + multiset(s.view[fd].Slot(e).Tasks())))
  {
    CountAfter(s.view, fd, s.view[fd].Minus(e));
    WaitingMinus(s.view, fd, e);
  }

  lemma MatchesAfter(kernel: map<nat, Mask>, vs: seq<FdView>, fd: nat, ws: seq<FdView>)
    requires Matches(kernel, vs) && fd < |vs| == |ws|
    requires forall i :: 0 <= i < |vs| && i != fd ==> ws[i] == vs[i]
    ensures Matches(if ws[fd].events == NONE then kernel - {fd} else kernel[fd := ws[fd].events], ws)
  {
  }

  lemma ExtendedIs(vs: seq<FdView>, fd: nat)
    requires |vs| >= 32
    ensures vs <= Extended(vs, fd) && fd < |Extended(vs, fd)|
    ensures fd < |vs| ==> Extended(vs, fd) == vs
    ensures fd >= |vs| ==> |Extended(vs, fd)| == fd + fd / 2
    ensures forall i :: |vs| <= i < |Extended(vs, fd)| ==> Extended(vs, fd)[i] == UNUSED
  {
  }

  lemma GrowBooks(s: State, ws: seq<FdView>)
    requires Inv(s) && s.view <= ws && forall i :: |s.view| <= i < |ws| ==> ws[i] == UNUSED
    ensures Inv(s.(view := ws))
  {
    GrowKeeps(s.view, ws);
  }

  lemma AddKeeps(s: State, fd: int, e: Event, t: Task, ok: bool)
    requires Inv(s)
    ensures Inv(Add(s, fd, e, t, ok).0)
    ensures Add(s, fd, e, t, ok).1.AssertFailed? <==> 0 < fd < |s.view| && s.view[fd].events.Has(e)
  {
    if fd >= 1 {
      var g := Grow(s, fd);
      ExtendedIs(s.view, fd);
      GrowBooks(s, g.view);
      AddAtKeeps(g, fd, e, t, ok);
    }
  }

  lemma AddAtKeeps(s: State, fd: nat, e: Event, t: Task, ok: bool)
    requires Inv(s) && fd < |s.view|
    ensures Inv(AddAt(s, fd, e, t, ok).0)
  {
    if !s.view[fd].events.Has(e) && ok {
      MatchesAfter(s.kernel, s.view, fd, s.view[fd := s.view[fd].With(e, SlotFor(t))]);
      FillKeeps(s, fd, e, t, AddAt(s, fd, e, t, ok).0.kernel);
    }
  }

  lemma DelKeeps(s: State, fd: nat, e: Event, ok: bool)
    requires Inv(s)
    ensures Inv(Del(s, fd, e, ok).0)
  {
    if fd < |s.view| && s.view[fd].events.Has(e) && ok {
      MatchesAfter(s.kernel, s.view, fd, s.view[fd := s.view[fd].Minus(e)]);
      ResetKeeps(s, fd, e, Del(s, fd, e, ok).0.kernel);
    }
  }

  lemma CancelKeeps(s: State, fd: nat, e: Event, ok: bool)
    requires Inv(s)
    ensures Inv(Cancel(s, fd, e, ok).0)
  {
    if fd < |s.view| && s.view[fd].events.Has(e) && ok {
      TriggerKeeps(s.(kernel := Narrow(s.kernel, fd, s.view[fd].events.Less(Bit(e)), ok)), fd, e);
      MatchesAfter(s.kernel, s.view, fd, s.view[fd := s.view[fd].Minus(e)]);
    }
  }

  lemma CancelAllKeeps(s: State, fd: nat, ok: bool)
    requires Inv(s)
    ensures Inv(CancelAll(s, fd, ok).0)
    ensures CancelAll(s, fd, ok).1.Done? ==> CancelAll(s, fd, ok).0.view[fd] == UNUSED
  {
    if fd < |s.view| && s.view[fd].events != NONE && ok {
      var t := s.(kernel := EpollCtl(s.kernel, DEL, fd, NONE, ok));
      TriggerAllKeeps(t, fd, s.view[fd].events);
      TriggerAllView(t, fd, s.view[fd].events);
      MatchesAfter(s.kernel, s.view, fd, TriggerAll(t, fd, s.view[fd].events).view);
    }
  }

  // The assertion in triggerEvent fails exactly when a reported bit is no longer registered
  // while another reported bit, or an error on a registered fd, still is.
  lemma DispatchKeeps(s: State, h: Harvest, ok: bool)
    requires Inv(s) && h.fd < |s.view|
    ensures !Dispatch(s, h, ok).1.AssertFailed? ==> Inv(Dispatch(s, h, ok).0)
    ensures Dispatch(s, h, ok).1.AssertFailed? <==>
      ok && h.Real(s.view[h.fd].events).And(s.view[h.fd].events) != NONE && !h.events.Within(s.view[h.fd].events)
  {
    var registered := s.view[h.fd].events;
    var found := h.Real(registered);
    if registered.And(found) != NONE && ok && found.Within(registered) {
      var t := s.(kernel := Narrow(s.kernel, h.fd, registered.Less(found), ok));
      TriggerAllKeeps(t, h.fd, found);
      TriggerAllView(t, h.fd, found);
      MatchesAfter(s.kernel, s.view, h.fd, TriggerAll(t, h.fd, found).view);
    }
  }

  // ---- what each operation answers -----------------------------------------------------

  // What fd had before, in the table or past its end.
  function Before(s: State, fd: nat): FdView {
    if fd < |s.view| then s.view[fd] else UNUSED
  }

  // The other fds are as they were; new ones are unused.
  ghost predicate OnlyAt(s: State, u: State, fd: int) {
    |s.view| <= |u.view| && forall i :: 0 <= i < |u.view| && i != fd ==> u.view[i] == Before(s, i)
  }

  // Done exactly for an fd from 1 on whose bit is not set, when epoll_ctl agrees: then the event's
  // bit is set and its slot holds the given one, and everything else is as before.
  lemma AddAnswers(s: State, fd: int, e: Event, t: Task, ok: bool)
    requires Inv(s)
    ensures var r := Add(s, fd, e, t, ok);
      && (r.1.Done? <==> fd >= 1 && !Before(s, fd).events.Has(e) && ok)
      && (r.1.Refused? <==> fd < 1 || (!Before(s, fd).events.Has(e) && !ok))
      && OnlyAt(s, r.0, fd) && r.0.queue == s.queue && r.0.dropped == s.dropped
      && |r.0.view| == (if fd < |s.view| then |s.view| else fd + fd / 2)
      && (r.1.Done? ==>
            && fd < |r.0.view| && r.0.view[fd].Slot(e).Filled() && r.0.view[fd].Slot(e).Tasks() == [t]
            && r.0.pending == s.pending + 1 && r.0.accepted == s.accepted + multiset{t}
            && forall d :: r.0.view[fd].events.Has(d) == (Before(s, fd).events.Has(d) || d == e)
                           && (d != e ==> r.0.view[fd].Slot(d) == Before(s, fd).Slot(d)))
      && (!r.1.Done? ==> r.0 == s.(view := r.0.view) && (0 <= fd < |r.0.view| ==> r.0.view[fd] == Before(s, fd)))
  {
    if fd >= 1 {
      ExtendedIs(s.view, fd);
    }
  }

  // The event asked for goes, bit and slot, and the fd's other event stays.
  ghost predicate Removed(v: FdView, w: FdView, e: Event) {
    && w.Slot(e) == EMPTY
    && forall d :: w.events.Has(d) == (v.events.Has(d) && d != e) && (d != e ==> w.Slot(d) == v.Slot(d))
  }

  lemma DelAnswers(s: State, fd: nat, e: Event, ok: bool)
    ensures var r := Del(s, fd, e, ok);
      && (r.1.Done? <==> Before(s, fd).events.Has(e) && ok) && (r.1.Refused? <==> !r.1.Done?)
      && (!r.1.Done? ==> r.0 == s)
      && (r.1.Done? ==>
            && |r.0.view| == |s.view| && OnlyAt(s, r.0, fd) && Removed(s.view[fd], r.0.view[fd], e)
            && r.0.pending == s.pending - 1 && r.0.queue == s.queue && r.0.accepted == s.accepted
            && r.0.dropped == s.dropped + multiset(s.view[fd].Slot(e).Tasks()))
  {
  }

  lemma CancelAnswers(s: State, fd: nat, e: Event, ok: bool)
    ensures var r := Cancel(s, fd, e, ok);
      && (r.1.Done? <==> Before(s, fd).events.Has(e) && ok) && (r.1.Refused? <==> !r.1.Done?)
      && (!r.1.Done? ==> r.0 == s)
      && (r.1.Done? ==>
            && |r.0.view| == |s.view| && OnlyAt(s, r.0, fd) && Removed(s.view[fd], r.0.view[fd], e)
            && r.0.pending == s.pending - 1 && r.0.queue == s.queue + s.view[fd].Slot(e).Tasks()
            && r.0.accepted == s.accepted && r.0.dropped == s.dropped)
  {
  }

  lemma CancelAllAnswers(s: State, fd: nat, ok: bool)
    requires Agreeing(s.view)
    ensures var r := CancelAll(s, fd, ok);
      && (r.1.Done? <==> (exists e :: Before(s, fd).events.Has(e)) && ok) && (r.1.Refused? <==> !r.1.Done?)
      && (!r.1.Done? ==> r.0 == s)
      && (r.1.Done? ==>
            && |r.0.view| == |s.view| && OnlyAt(s, r.0, fd) && r.0.view[fd] == UNUSED
            && r.0.pending == s.pending - |s.view[fd].read.Tasks()| - |s.view[fd].write.Tasks()|
            && r.0.queue == s.queue + s.view[fd].read.Tasks() + s.view[fd].write.Tasks()
            && r.0.accepted == s.accepted && r.0.dropped == s.dropped)
  {
    var v := Before(s, fd);
    assert v.Agrees();
    SomeBit(v.events);
    if v.events != NONE && ok {
      var t := s.(kernel := EpollCtl(s.kernel, DEL, fd, NONE, ok));
      TriggerAllAnswers(t, fd, v.events);
      Emptied(v, TriggerAll(t, fd, v.events).view[fd]);
    }
  }

  lemma Emptied(v: FdView, w: FdView)
    requires v.Agrees()
    requires forall e :: w.events.Has(e) == (v.events.Has(e) && !v.events.Has(e))
                         && w.Slot(e) == if v.events.Has(e) then EMPTY else v.Slot(e)
    ensures w == UNUSED
    ensures v.events.read || v.read.Tasks() == []
    ensures v.events.write || v.write.Tasks() == []
  {
    assert !w.events.Has(READ) && !w.events.Has(WRITE) && w.Slot(READ) == EMPTY && w.Slot(WRITE) == EMPTY;
  }

  lemma SomeBit(m: Mask)
    ensures (exists e :: m.Has(e)) <==> m != NONE
  {
    assert m.Has(READ) == m.read && m.Has(WRITE) == m.write;
  }

  // The events a report speaks of: those it names and, on an error or hang-up, those registered.
  ghost predicate Finds(s: State, h: Harvest, e: Event) {
    h.events.Has(e) || (h.broken && Before(s, h.fd).events.Has(e))
  }

  function FoundTasks(s: State, h: Harvest, e: Event): seq<Task> {
    if h.events.Has(e) || (h.broken && Before(s, h.fd).events.Has(e)) then Before(s, h.fd).Slot(e).Tasks() else []
  }

  // A report is acted on exactly when epoll_ctl agrees, some found event is registered and all of
  // them are: then they are gone, bits and slots, and their tasks are scheduled, read before write.
  lemma DispatchAnswers(s: State, h: Harvest, ok: bool)
    requires Agreeing(s.view)
    ensures var r := Dispatch(s, h, ok);
      var v := Before(s, h.fd);
      var some := exists e :: Finds(s, h, e) && v.events.Has(e);
      var all := forall e :: Finds(s, h, e) ==> v.events.Has(e);
      && (r.1.Done? <==> ok && some && all) && (r.1.AssertFailed? <==> ok && some && !all)
      && (r.1.Refused? ==> r.0 == s)
      && (!r.1.Done? ==> r.0 == s.(kernel := r.0.kernel))
      && (r.1.Done? ==>
            && |r.0.view| == |s.view| && OnlyAt(s, r.0, h.fd) && h.fd < |s.view|
            && (forall e :: r.0.view[h.fd].events.Has(e) == (v.events.Has(e) && !Finds(s, h, e))
                            && r.0.view[h.fd].Slot(e) == if Finds(s, h, e) then EMPTY else v.Slot(e))
            && r.0.queue == s.queue + FoundTasks(s, h, READ) + FoundTasks(s, h, WRITE)
            && r.0.pending == s.pending - |FoundTasks(s, h, READ)| - |FoundTasks(s, h, WRITE)|
            && r.0.accepted == s.accepted && r.0.dropped == s.dropped)
  {
    var v := Before(s, h.fd);
    var found := h.Real(v.events);
    assert v.Agrees();
    FindsIs(s, h);
    if found.And(v.events) != NONE && ok && found.Within(v.events) {
      TriggerAllAnswers(s.(kernel := Narrow(s.kernel, h.fd, v.events.Less(found), ok)), h.fd, found);
    }
  }

  // The report's bits, and what some and all mean for them.
  lemma FindsIs(s: State, h: Harvest)
    ensures var v := Before(s, h.fd);
      var found := h.Real(v.events);
      && (forall e :: Finds(s, h, e) == found.Has(e))
      && ((exists e :: Finds(s, h, e) && v.events.Has(e)) <==> found.And(v.events) != NONE)
      && ((forall e :: Finds(s, h, e) ==> v.events.Has(e)) <==> found.Within(v.events))
  {
    var v := Before(s, h.fd);
    var found := h.Real(v.events);
    assert Finds(s, h, READ) == found.read && Finds(s, h, WRITE) == found.write;
    assert v.events.Has(READ) == v.events.read && v.events.Has(WRITE) == v.events.write;
  }

  lemma TriggerAllAnswers(s: State, fd: nat, m: Mask)
    requires fd < |s.view| && s.view[fd].Agrees() && m.Within(s.view[fd].events)
    ensures var u, v := TriggerAll(s, fd, m), s.view[fd];
      var read := if m.read then v.read.Tasks() else [];
      var write := if m.write then v.write.Tasks() else [];
      && |u.view| == |s.view| && OnlyAt(s, u, fd)
      && (forall e :: u.view[fd].events.Has(e) == (v.events.Has(e) && !m.Has(e))
                      && u.view[fd].Slot(e) == if m.Has(e) then EMPTY else v.Slot(e))
      && u.queue == s.queue + read + write && u.pending == s.pending - |read| - |write|
      && u.kernel == s.kernel && u.accepted == s.accepted && u.dropped == s.dropped
  {
  }

  lemma StepKeeps(s: State, op: Op)
    requires Inv(s) && !Step(s, op).1.AssertFailed?
    ensures Inv(Step(s, op).0)
  {
    match op
    case AddEvent(fd, e, t, ok) => AddKeeps(s, fd, e, t, ok);
    case DelEvent(fd, e, ok) => DelKeeps(s, fd, e, ok);
    case CancelEvent(fd, e, ok) => CancelKeeps(s, fd, e, ok);
    case CancelAllEvents(fd, ok) => CancelAllKeeps(s, fd, ok);
    case DispatchEvent(h, ok) =>
      if h.fd < |s.view| {
        DispatchKeeps(s, h, ok);
      }
  }

  // Every run, whatever the kernel answers.
  lemma {:induction false} RunKeeps(s: State, ops: seq<Op>)
    requires Initial(s) && Run(s, ops).Some?
    ensures Inv(Run(s, ops).value)
  {
    if ops == [] {
      GrowKeeps([], s.view);
    } else {
      var n := |ops| - 1;
      RunKeeps(s, ops[..n]);
      StepKeeps(Run(s, ops[..n]).value, ops[n]);
    }
  }

  // Such a run: both bits are reported, another thread cancels one of them, and the dispatch
  // of the report then meets the assertion.
  lemma StaleReportFails(s: State, reader: Task, writer: Task)
    requires Initial(s)
    ensures var ops := [AddEvent(5, READ, reader, true), AddEvent(5, WRITE, writer, true)];
      var both := Mask(true, true);
      && Run(s, ops).Some? && Run(s, ops).value.kernel == map[5 := both]
      && Run(s, ops + [CancelEvent(5, READ, true)]).Some?
      && Run(s, ops + [CancelEvent(5, READ, true), DispatchEvent(Harvest(5, both, false), true)]).None?
  {
    var ops := [AddEvent(5, READ, reader, true), AddEvent(5, WRITE, writer, true)];
    var op2, op3 := CancelEvent(5, READ, true), DispatchEvent(Harvest(5, Mask(true, true), false), true);
    assert ops[..1] == [ops[0]] && ops[..1][..0] == [];
    assert (ops + [op2])[..2] == ops;
    assert (ops + [op2, op3])[..3] == ops + [op2];
    assert Run(s, ops[..1]) == Then(Some(s), ops[0]);
  }
}
