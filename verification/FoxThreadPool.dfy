/** sherry/db/fox_thread.cc: the thread pool in advance mode. A free thread is leased to one
    callback at a time; a finished one comes back and check hands out the next. */
module FoxThreadPools {

  type Callback = nat

  // A pool thread: free, holding a wrapped callback (the n-th submitted, as history), or holding
  // one that has run and is not yet released.
  datatype Lease = Free | Busy(cb: Callback, n: nat) | Done

  // checking counts the threads inside check. As history: all that was submitted, how many have
  // left the queue, the thread that holds the n-th, and which have finished.
  datatype State = State(threads: seq<Lease>, free: seq<nat>, queue: seq<Callback>, started: bool, checking: nat,
                         submitted: seq<Callback>, left: nat, holder: map<nat, nat>, finished: set<nat>)

  datatype Action =
    | Submit(cbs: seq<Callback>)   // dispatch and batchDispatch, up to check
    | Start                        // start, up to check
    | Assign                       // one round of check
    | Leave                        // check returns
    | Finish(t: nat)               // wrapcb
    | Release(t: nat)              // releaseFoxThread, up to check

  predicate Enabled(s: State, a: Action) {
    match a
    case Submit(_) => true
    case Start => !s.started
    case Assign => s.checking > 0 && s.started && s.free != [] && s.queue != [] && s.free[0] < |s.threads|
    case Leave => s.checking > 0 && (!s.started || s.free == [] || s.queue == [])
    case Finish(t) => t < |s.threads| && s.threads[t].Busy?
    case Release(t) => t < |s.threads| && s.threads[t].Done?
  }

  function Numbers(n: nat): (s: seq<nat>)
    ensures |s| == n && forall i :: 0 <= i < n ==> s[i] == i
  {
    seq(n, i => i)
  }

  function Do(s: State, a: Action): State
    requires Enabled(s, a)
  {
    match a
    case Submit(cbs) =>
      s.(queue := s.queue + cbs, submitted := s.submitted + cbs, checking := s.checking + 1)
    case Start => s.(free := Numbers(|s.threads|), started := true, checking := s.checking + 1)
    case Assign =>
      s.(threads := s.threads[s.free[0] := Busy(s.queue[0], s.left)], free := s.free[1..],
         queue := s.queue[1..], left := s.left + 1, holder := s.holder[s.left := s.free[0]])
    case Leave => s.(checking := s.checking - 1)
    case Finish(t) =>
      s.(threads := s.threads[t := Done], holder := s.holder - {s.threads[t].n}, finished := s.finished + {s.threads[t].n})
    case Release(t) => s.(threads := s.threads[t := Free], free := s.free + [t], checking := s.checking + 1)
  }

  ghost predicate Initial(s: State) {
    && (forall t :: 0 <= t < |s.threads| ==> s.threads[t].Free?)
    && s == State(s.threads, [], [], false, 0, [], 0, map[], {})
  }

  // Each thread is once in the free list or holds one callback.
  ghost predicate Threads(s: State) {
    && (forall i, j :: 0 <= i < j < |s.free| ==> s.free[i] != s.free[j])
    && (forall i :: 0 <= i < |s.free| ==> s.free[i] < |s.threads| && s.threads[s.free[i]].Free?)
    && (s.started ==> forall t :: 0 <= t < |s.threads| && s.threads[t].Free? ==> t in s.free)
    && (!s.started ==> s.free == [] && forall t :: 0 <= t < |s.threads| ==> s.threads[t].Free?)
  }

  // Callbacks leave the queue in submission order; one that left is held by one thread or has
  // finished, never both.
  ghost predicate Callbacks(s: State) {
    && s.left <= |s.submitted| && s.queue == s.submitted[s.left..]
    && (forall n :: n in s.holder || n in s.finished <==> 0 <= n < s.left)
    && (forall n :: n in s.holder ==> n !in s.finished)
    && (forall n :: n in s.holder ==> s.holder[n] < |s.threads| && s.threads[s.holder[n]] == Busy(s.submitted[n], n))
    && (forall t :: 0 <= t < |s.threads| && s.threads[t].Busy? ==> s.threads[t].n in s.holder && s.holder[s.threads[t].n] == t)
  }

  // A free thread and a queued callback do not stay together unless a check is under way.
  ghost predicate Working(s: State) {
    s.started && s.free != [] && s.queue != [] ==> s.checking > 0
  }

  ghost predicate Inv(s: State) {
    Threads(s) && Callbacks(s) && Working(s)
  }

  lemma StartThreads(s: State)
    requires Threads(s) && Enabled(s, Start)
    ensures Threads(Do(s, Start))
  {
    forall t | 0 <= t < |s.threads|
      ensures t in Do(s, Start).free
    {
      assert Do(s, Start).free[t] == t;
    }
  }

  lemma AssignThreads(s: State)
    requires Threads(s) && Enabled(s, Assign)
    ensures Threads(Do(s, Assign))
  {
    forall t | 0 <= t < |s.threads| && t != s.free[0] && s.threads[t].Free?
      ensures t in s.free[1..]
    {
      assert s.free == [s.free[0]] + s.free[1..];
    }
  }

  lemma ThreadsKept(s: State, a: Action)
    requires Threads(s) && Enabled(s, a)
    ensures Threads(Do(s, a))
  {
    match a
    case Start => StartThreads(s);
    case Assign => AssignThreads(s);
    case _ =>
  }

  lemma CallbacksKept(s: State, a: Action)
    requires Threads(s) && Callbacks(s) && Enabled(s, a)
    ensures Callbacks(Do(s, a))
  {
  }

  lemma InvKept(s: State, a: Action)
    requires Inv(s) && Enabled(s, a)
    ensures Inv(Do(s, a))
  {
    ThreadsKept(s, a);
    CallbacksKept(s, a);
  }

  ghost predicate Possible(s: State, acts: seq<Action>)
    decreases |acts|, 0
  {
    acts == [] || (Possible(s, acts[..|acts| - 1]) && Enabled(After(s, acts[..|acts| - 1]), acts[|acts| - 1]))
  }

  ghost function After(s: State, acts: seq<Action>): State
    requires Possible(s, acts)
    decreases |acts|, 1
  {
    if acts == [] then s else Do(After(s, acts[..|acts| - 1]), acts[|acts| - 1])
  }

  // Every interleaving of submitters, releases and checks.
  lemma {:induction false} EveryRun(s: State, acts: seq<Action>)
    requires Initial(s) && Possible(s, acts)
    ensures Inv(After(s, acts))
  {
    if acts != [] {
      EveryRun(s, acts[..|acts| - 1]);
      InvKept(After(s, acts[..|acts| - 1]), acts[|acts| - 1]);
    }
  }

  // What the submitters handed in, in order.
  function Submissions(acts: seq<Action>): seq<Callback> {
    if acts == [] then []
    else Submissions(acts[..|acts| - 1]) + if acts[|acts| - 1].Submit? then acts[|acts| - 1].cbs else []
  }

  lemma {:induction false} SubmittedIs(s: State, acts: seq<Action>)
    requires Initial(s) && Possible(s, acts)
    ensures After(s, acts).submitted == Submissions(acts)
  {
    if acts != [] {
      SubmittedIs(s, acts[..|acts| - 1]);
    }
  }

  // A callback that has run leaves its thread to be released, and a released thread is free.
  lemma FinishesAndReturns(s: State, t: nat)
    requires Inv(s)
    ensures Enabled(s, Finish(t)) ==>
      var u, n := Do(s, Finish(t)), s.threads[t].n;
      n in u.finished && n !in s.finished && u.threads == s.threads[t := Done] && u.free == s.free && u.queue == s.queue
    ensures Enabled(s, Release(t)) ==>
      var u := Do(s, Release(t));
      u.free == s.free + [t] && t !in s.free && u.threads == s.threads[t := Free] && u.queue == s.queue && u.checking > 0
  {
  }

  // Of a started pool's threads each is free, once, or leased; of the callbacks submitted each
  // is queued, held by one thread or finished; and when no check is under way no free thread
  // leaves a callback waiting.
  lemma NothingLost(s: State, acts: seq<Action>, t: nat, n: nat)
    requires Initial(s) && Possible(s, acts) && After(s, acts).started
    requires t < |After(s, acts).threads| && n < |Submissions(acts)|
    ensures var u, all := After(s, acts), Submissions(acts);
      && (t in u.free <==> u.threads[t].Free?)
      && (forall i, j :: 0 <= i < j < |u.free| ==> u.free[i] != u.free[j])
      && (n >= u.left <==> !(exists v :: 0 <= v < |u.threads| && u.threads[v] == Busy(all[n], n)) && n !in u.finished)
      && u.left <= |all| && u.queue == all[u.left..]
      && (forall v :: 0 <= v < |u.threads| && u.threads[v].Busy? && u.threads[v].n == n ==> n !in u.finished)
      && (forall v, w :: 0 <= v < w < |u.threads| && u.threads[v].Busy? && u.threads[w].Busy? ==> u.threads[v].n != u.threads[w].n)
      && (u.checking == 0 ==> u.free == [] || u.queue == [])
  {
    EveryRun(s, acts);
    SubmittedIs(s, acts);
    var u := After(s, acts);
    if n in u.holder {
      assert u.threads[u.holder[n]] == Busy(u.submitted[n], n);
    }
  }

  // check run to its end by one thread.
  function Checked(s: State): State
    requires s.checking > 0 && InPool(s)
    decreases |s.queue|
  {
    if s.started && s.free != [] && s.queue != [] then Checked(Do(s, Assign)) else Do(s, Leave)
  }

  // The free list names threads of the pool.
  predicate InPool(s: State) {
    forall i :: 0 <= i < |s.free| ==> s.free[i] < |s.threads|
  }

  lemma {:induction false} CheckedKeeps(s: State)
    requires Inv(s) && s.checking > 0
    ensures Inv(Checked(s))
    ensures s.started ==> Checked(s).free == [] || Checked(s).queue == []
    decreases |s.queue|
  {
    if s.started && s.free != [] && s.queue != [] {
      InvKept(s, Assign);
      CheckedKeeps(Do(s, Assign));
    } else {
      InvKept(s, Leave);
    }
  }

  // How many callbacks a check hands out.
  function Handed(s: State): (m: nat)
    ensures m <= |s.free| && m <= |s.queue|
  {
    if !s.started then 0 else if |s.free| < |s.queue| then |s.free| else |s.queue|
  }

  // The front callbacks go to the front threads, one to one, as many as there are of both.
  ghost predicate HandsOut(s: State, t: State) {
    var m := Handed(s);
    && t.free == s.free[m..] && t.queue == s.queue[m..] && t.left == s.left + m && |t.threads| == |s.threads|
    && (forall i :: 0 <= i < m ==> s.free[i] < |t.threads| && t.threads[s.free[i]] == Busy(s.queue[i], s.left + i))
    && (forall v :: 0 <= v < |s.threads| && v !in s.free[..m] ==> t.threads[v] == s.threads[v])
  }

  lemma {:induction false} CheckedHandsOut(s: State)
    requires Threads(s) && s.checking > 0
    ensures HandsOut(s, Checked(s))
    decreases |s.queue|
  {
    var m := Handed(s);
    if m == 0 {
      assert s.free[..0] == [];
    } else {
      var u := Do(s, Assign);
      AssignThreads(s);
      CheckedHandsOut(u);
      HandsOutMore(s, u, Checked(u));
    }
  }

  lemma HandsOutMore(s: State, u: State, t: State)
    requires Threads(s) && s.checking > 0 && Handed(s) > 0 && u == Do(s, Assign) && HandsOut(u, t)
    ensures HandsOut(s, t)
  {
    var m := Handed(s);
    assert s.free[..m] == [s.free[0]] + u.free[..m - 1];
    forall i | 0 <= i < m
      ensures s.free[i] < |t.threads| && t.threads[s.free[i]] == Busy(s.queue[i], s.left + i)
    {
      if i > 0 {
        assert s.free[i] == u.free[i - 1] && s.queue[i] == u.queue[i - 1];
      } else {
        assert s.free[0] !in u.free[..m - 1];
      }
    }
  }

  lemma StartHandsOut(s: State)
    requires Inv(s) && !s.started
    ensures HandsOut(s.(free := Numbers(|s.threads|), started := true, checking := 1), Checked(Do(s, Start)))
  {
    var u := Do(s, Start);
    ThreadsKept(s, Start);
    CheckedHandsOut(u);
    SameHands(u, s.(free := Numbers(|s.threads|), started := true, checking := 1), Checked(u));
  }

  lemma SubmitHandsOut(s: State, cbs: seq<Callback>)
    requires Inv(s)
    ensures HandsOut(s.(queue := s.queue + cbs, checking := 1), Checked(Do(s, Submit(cbs))))
  {
    var u := Do(s, Submit(cbs));
    ThreadsKept(s, Submit(cbs));
    CheckedHandsOut(u);
    SameHands(u, s.(queue := s.queue + cbs, checking := 1), Checked(u));
  }

  lemma SameHands(s: State, s': State, t: State)
    requires HandsOut(s, t)
    requires s'.free == s.free && s'.queue == s.queue && s'.left == s.left && s'.threads == s.threads && s'.started == s.started
    ensures HandsOut(s', t)
  {
  }

  class FoxThreadPool {
    var free: seq<nat>
    var callbacks: seq<Callback>
    var start: bool

    ghost var threads: seq<Lease>
    ghost var submitted: seq<Callback>
    ghost var left: nat
    ghost var holder: map<nat, nat>
    ghost var finished: set<nat>

    ghost function Now(checking: nat): State
      reads this
    {
      State(threads, free, callbacks, start, checking, submitted, left, holder, finished)
    }

    // Between calls no check is under way.
    ghost predicate Valid()
      reads this
    {
      Inv(Now(0))
    }

    constructor (size: nat)
      ensures Valid() && Initial(Now(0)) && |threads| == size
    {
      free, callbacks, start := [], [], false;
      threads := seq(size, _ => Free);
      submitted, left, holder, finished := [], 0, map[], {};
    }

    method Check()
      requires InPool(Now(1))
      modifies this`free, this`callbacks, this`threads, this`left, this`holder
      ensures Now(0) == Checked(old(Now(1)))
    {
      while start && free != [] && callbacks != []
        invariant InPool(Now(1)) && Checked(Now(1)) == Checked(old(Now(1)))
        decreases |callbacks|
      {
        var t, cb := free[0], callbacks[0];
        threads := threads[t := Busy(cb, left)];
        holder := holder[left := t];
        left := left + 1;
        free, callbacks := free[1..], callbacks[1..];
      }
    }

    method Begin(size: nat)
      requires Valid() && !start && size == |threads|
      modifies this`free, this`callbacks, this`start, this`threads, this`left, this`holder
      ensures Valid() && start && Now(0) == Checked(Do(old(Now(0)), Start))
      ensures HandsOut(old(Now(1)).(free := Numbers(size), started := true), Now(0))
    {
      StartHandsOut(Now(0));
      InvKept(Now(0), Start);
      CheckedKeeps(Do(Now(0), Start));
      FreeAll(size);
      start := true;
      Check();
    }

    method FreeAll(size: nat)
      requires free == []
      modifies this`free
      ensures free == Numbers(size)
    {
      for i := 0 to size
        invariant free == Numbers(i)
      {
        free := free + [i];
      }
    }

    method Append(cbs: seq<Callback>)
      modifies this`callbacks
      ensures callbacks == old(callbacks) + cbs
    {
      for i := 0 to |cbs|
        invariant callbacks == old(callbacks) + cbs[..i]
      {
        callbacks := callbacks + [cbs[i]];
      }
      assert cbs[..|cbs|] == cbs;
    }

    // dispatch is the batch of one.
    method BatchDispatch(cbs: seq<Callback>)
      requires Valid()
      modifies this`free, this`callbacks, this`threads, this`left, this`holder, this`submitted
      ensures Valid() && Now(0) == Checked(Do(old(Now(0)), Submit(cbs)))
      ensures HandsOut(old(Now(1)).(queue := old(callbacks) + cbs), Now(0))
      ensures start ==> free == [] || callbacks == []
    {
      SubmitHandsOut(Now(0), cbs);
      InvKept(Now(0), Submit(cbs));
      CheckedKeeps(Do(Now(0), Submit(cbs)));
      Append(cbs);
      submitted := submitted + cbs;
      Check();
    }

    // The released thread goes straight to the first callback waiting, if there is one.
    method ReleaseFoxThread(t: nat)
      requires Valid() && t < |threads| && threads[t].Done?
      modifies this`free, this`callbacks, this`threads, this`left, this`holder
      ensures Valid() && Now(0) == Checked(Do(old(Now(0)), Release(t)))
      ensures start && old(callbacks) != [] ==>
        free == [] && t < |threads| && threads[t] == Busy(old(callbacks)[0], old(left)) && callbacks == old(callbacks)[1..]
      ensures old(callbacks) == [] ==> free == old(free) + [t] && threads == old(threads)[t := Free] && callbacks == []
    {
      InvKept(Now(0), Release(t));
      CheckedKeeps(Do(Now(0), Release(t)));
      threads := threads[t := Free];
      free := free + [t];
      Check();
    }
  }
}
