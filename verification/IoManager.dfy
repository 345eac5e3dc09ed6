/** sherry/iomanager.h and sherry/iomanager.cc: the IOManager object with its table of
    FdContexts. Every method takes the state of IoEvents to the one its function gives. */
module IoManager {
  import opened IoEvents
  import opened Wrappers

  class FdContext {
    const fd: nat
    var events: Mask
    var read: EventContext
    var write: EventContext

    constructor (fd: nat)
      ensures this.fd == fd && View() == UNUSED
    {
      this.fd := fd;
      events, read, write := NONE, EMPTY, EMPTY;
    }

    function View(): FdView
      reads this
    {
      FdView(events, read, write)
    }

    method SetContext(e: Event, c: EventContext)
      modifies this`read, this`write
      ensures if e.READ? then read == c && write == old(write) else write == c && read == old(read)
    {
      if e.READ? {
        read := c;
      } else {
        write := c;
      }
    }

    // Clears the bit and moves the slot's task out, for the scheduler's queue.
    method TriggerEvent(e: Event) returns (tasks: seq<Task>)
      requires events.Has(e) && View().Slot(e).Filled()
      modifies this`events, this`read, this`write
      ensures View() == old(View()).Minus(e) && tasks == old(View()).Slot(e).Tasks()
    {
      events := events.Less(Bit(e));
      var ctx := if e.READ? then read else write;
      if ctx.cb.Some? {
        tasks := [CallbackTask(ctx.cb.value)];
        ctx := ctx.(cb := None);
      } else {
        tasks := [FiberTask(ctx.fiber.value)];
        ctx := ctx.(fiber := None);
      }
      SetContext(e, ctx.(scheduler := false));
    }
  }

  class IOManager {
    var contexts: seq<FdContext>
    var pending: int                    // m_pendingEventCount
    var queue: seq<Task>                // what was scheduled, in order
    var kernel: map<nat, Mask>          // the epoll interest list

    ghost var view: seq<FdView>
    ghost var accepted: multiset<Task>
    ghost var dropped: multiset<Task>

    ghost predicate Mirrors()
      reads this`contexts, this`view, contexts
    {
      && |contexts| == |view|
      && forall i :: 0 <= i < |view| ==> contexts[i].fd == i && contexts[i].View() == view[i]
    }

    ghost function Now(): State
      reads this
    {
      State(view, pending, queue, kernel, accepted, dropped)
    }

    // What the methods lean on: filled slots under set bits, and the kernel's list.
    ghost predicate Ready()
      reads this, contexts
    {
      && Mirrors() && |view| >= 32 && Agreeing(view)
      && (forall i :: 0 <= i < |view| ==> (i in kernel <==> view[i].events != NONE))
      && (forall i :: i in kernel ==> i < |view|)
    }

    ghost predicate Valid()
      reads this, contexts
    {
      Mirrors() && Inv(Now())
    }

    constructor ()
      ensures Valid() && Initial(Now()) && fresh(contexts)
    {
      contexts, view, kernel := [], [], map[];
      pending, queue, accepted, dropped := 0, [], multiset{}, multiset{};
      new;
      ContextResize(32);
      assert view == Unused(32);
      assert Run(Now(), []) == Some(Now());
      RunKeeps(Now(), []);
    }

    method ContextResize(size: nat)
      requires Mirrors() && |contexts| <= size
      modifies this`contexts, this`view
      ensures Mirrors() && |contexts| == size && old(contexts) <= contexts && old(view) <= view
      ensures forall i :: |old(view)| <= i < size ==> view[i] == UNUSED && fresh(contexts[i])
    {
      while |contexts| < size
        invariant Mirrors() && |contexts| <= size && old(contexts) <= contexts && old(view) <= view
        invariant forall i :: |old(view)| <= i < |view| ==> view[i] == UNUSED && fresh(contexts[i])
      {
        var ctx := new FdContext(|contexts|);
        contexts := contexts + [ctx];
        view := view + [UNUSED];
      }
    }

    // The operation asked for always fits the kernel's list.
    method AskKernel(op: EpollOp, fd: nat, events: Mask, ok: bool)
      requires op.ADD? <==> fd !in kernel
      modifies this`kernel
      ensures kernel == EpollCtl(old(kernel), op, fd, events, ok)
    {
      if ok {
        kernel := if op.DEL? then kernel - {fd} else kernel[fd := events];
      }
    }

    method FillSlot(fd: nat, e: Event, task: Task)
      requires Mirrors() && fd < |view|
      modifies this`view, contexts
      ensures Mirrors() && view == old(view)[fd := old(view)[fd].With(e, SlotFor(task))]
    {
      var ctx := contexts[fd];
      ctx.events := ctx.events.Or(Bit(e));
      ctx.SetContext(e, SlotFor(task));
      view := view[fd := view[fd].With(e, SlotFor(task))];
    }

    method ResetSlot(fd: nat, e: Event)
      requires Mirrors() && fd < |view|
      modifies this`view, contexts
      ensures Mirrors() && view == old(view)[fd := old(view)[fd].Minus(e)]
    {
      var ctx := contexts[fd];
      ctx.events := ctx.events.Less(Bit(e));
      ctx.SetContext(e, EMPTY);
      view := view[fd := view[fd].Minus(e)];
    }

    // triggerEvent and the count that follows it.
    method TriggerOne(fd: nat, e: Event)
      requires Mirrors() && fd < |view| && view[fd].events.Has(e) && view[fd].Slot(e).Filled()
      modifies this`view, this`pending, this`queue, contexts
      ensures Mirrors() && Now() == Trigger(old(Now()), fd, e)
    {
      var tasks := contexts[fd].TriggerEvent(e);
      view := view[fd := view[fd].Minus(e)];
      queue := queue + tasks;
      pending := pending - 1;
    }

    method GetContext(fd: nat)
      requires Ready()
      modifies this`view, this`contexts
      ensures Mirrors() && Now() == Grow(old(Now()), fd)
      ensures fresh(set c | c in contexts && c !in old(contexts))
    {
      if |contexts| <= fd {
        ContextResize(fd + fd / 2);
        assert view == Extended(old(view), fd);
      }
    }

    method RegisterAt(fd: nat, e: Event, task: Task, ok: bool) returns (r: Outcome)
      requires Mirrors() && fd < |view| && (fd in kernel <==> view[fd].events != NONE)
      modifies this`view, this`pending, this`kernel, this`accepted, contexts
      ensures Mirrors() && (Now(), r) == AddAt(old(Now()), fd, e, task, ok)
    {
      var events := contexts[fd].events;
      if events.Has(e) {
        return AssertFailed;
      }
      AskKernel(if events != NONE then MOD else ADD, fd, events.Or(Bit(e)), ok);
      if !ok {
        return Refused;
      }
      pending := pending + 1;
      FillSlot(fd, e, task);
      accepted := accepted + multiset{task};
      r := Done;
    }

    // addEvent. Growing the table is part of the step.
    method Register(fd: int, e: Event, task: Task, ok: bool) returns (r: Outcome)
      requires Ready()
      modifies this, contexts
      ensures Mirrors() && fresh(set c | c in contexts && c !in old(contexts))
      ensures (Now(), r) == Add(old(Now()), fd, e, task, ok)
    {
      if fd < 1 {
        return Refused;
      }
      ExtendedIs(view, fd);
      GetContext(fd);
      r := RegisterAt(fd, e, task, ok);
    }

    // delEvent: the registration goes and its task with it.
    method Unregister(fd: nat, e: Event, ok: bool) returns (r: Outcome)
      requires Ready()
      modifies this`view, this`pending, this`kernel, this`dropped, contexts
      ensures Mirrors() && (Now(), r) == Del(old(Now()), fd, e, ok)
    {
      if |contexts| <= fd || !contexts[fd].events.Has(e) {
        return Refused;
      }
      r := UnregisterAt(fd, e, ok);
    }

    method UnregisterAt(fd: nat, e: Event, ok: bool) returns (r: Outcome)
      requires Mirrors() && fd < |view| && view[fd].events.Has(e) && fd in kernel
      modifies this`view, this`pending, this`kernel, this`dropped, contexts
      ensures Mirrors() && (Now(), r) == Del(old(Now()), fd, e, ok)
    {
      var left := contexts[fd].events.Less(Bit(e));
      AskKernel(if left != NONE then MOD else DEL, fd, left, ok);
      if !ok {
        return Refused;
      }
      pending := pending - 1;
      dropped := dropped + multiset(view[fd].Slot(e).Tasks());
      ResetSlot(fd, e);
      r := Done;
    }

    // cancelEvent: the registration goes and its task is scheduled at once.
    method CancelOne(fd: nat, e: Event, ok: bool) returns (r: Outcome)
      requires Ready()
      modifies this`view, this`pending, this`kernel, this`queue, contexts
      ensures Mirrors() && (Now(), r) == Cancel(old(Now()), fd, e, ok)
    {
      if |contexts| <= fd || !contexts[fd].events.Has(e) {
        return Refused;
      }
      var left := contexts[fd].events.Less(Bit(e));
      AskKernel(if left != NONE then MOD else DEL, fd, left, ok);
      if !ok {
        return Refused;
      }
      TriggerOne(fd, e);
      r := Done;
    }

    method TriggerBoth(fd: nat, m: Mask)
      requires Mirrors() && fd < |view| && m.Within(view[fd].events) && view[fd].Agrees()
      modifies this`view, this`pending, this`queue, contexts
      ensures Mirrors() && Now() == TriggerAll(old(Now()), fd, m)
    {
      if m.read {
        TriggerOne(fd, READ);
      }
      if m.write {
        TriggerOne(fd, WRITE);
      }
    }

    method CancelEvery(fd: nat, ok: bool) returns (r: Outcome)
      requires Ready()
      modifies this`view, this`pending, this`kernel, this`queue, contexts
      ensures Mirrors() && (Now(), r) == CancelAll(old(Now()), fd, ok)
    {
      if |contexts| <= fd || contexts[fd].events == NONE {
        return Refused;
      }
      AskKernel(DEL, fd, NONE, ok);
      if !ok {
        return Refused;
      }
      TriggerBoth(fd, contexts[fd].events);
      assert contexts[fd].events == NONE;
      r := Done;
    }

    // One harvested entry in idle. After a failed assertion the process is gone.
    method DispatchOne(h: Harvest, ok: bool) returns (r: Outcome)
      requires Ready() && h.fd < |view|
      modifies this`view, this`pending, this`kernel, this`queue, contexts
      ensures Mirrors() && (Now(), r) == Dispatch(old(Now()), h, ok)
    {
      var registered := contexts[h.fd].events;
      var found := h.Real(registered);
      if registered.And(found) == NONE {
        return Refused;
      }
      var left := registered.Less(found);
      AskKernel(if left != NONE then MOD else DEL, h.fd, left, ok);
      if !ok {
        return Refused;
      }
      if !found.Within(registered) {
        return AssertFailed;
      }
      TriggerBoth(h.fd, found);
      r := Done;
    }

    method Execute(op: Op) returns (r: Outcome)
      requires Ready() && (op.DispatchEvent? ==> op.h.fd < |view|)
      modifies this, contexts
      ensures Mirrors() && (Now(), r) == Step(old(Now()), op)
      ensures fresh(set c | c in contexts && c !in old(contexts))
    {
      match op
      case AddEvent(fd, e, t, ok) => r := Register(fd, e, t, ok);
      case DelEvent(fd, e, ok) => r := Unregister(fd, e, ok);
      case CancelEvent(fd, e, ok) => r := CancelOne(fd, e, ok);
      case CancelAllEvents(fd, ok) => r := CancelEvery(fd, ok);
      case DispatchEvent(h, ok) => r := DispatchOne(h, ok);
    }

    // Any operation: the state moves as in IoEvents, and unless an assertion ended the process
    // everything still agrees.
    method Perform(op: Op) returns (r: Outcome)
      requires Valid() && (op.DispatchEvent? ==> op.h.fd < |view|)
      modifies this, contexts
      ensures (Now(), r) == Step(old(Now()), op)
      ensures !r.AssertFailed? ==> Valid()
      ensures fresh(set c | c in contexts && c !in old(contexts))
    {
      if !Step(Now(), op).1.AssertFailed? {
        StepKeeps(Now(), op);
      }
      r := Execute(op);
    }
  }
}
