/** sherry/db/fox_thread.cc: a thread with a callback list, woken through a socket pair. Any
    number of dispatchers push and then send a byte; the event loop receives, swaps the list
    out and runs it until the stop marker. */
module FoxThreads {
  import opened Wrappers

  type Callback = nat

  // An empty std::function in the list is the stop marker.
  type Entry = Option<Callback>

  datatype Reader =
    | NotStarted
    | Waiting
    | Received                     // between recv and swap
    | Running(batch: seq<Entry>)   // the rest of the swapped list
    | Ended                        // past the stop marker, loop broken

  // sending counts the dispatchers between push and send. unsent says that a stop before start
  // pushed its marker without a byte. submitted and ran are history.
  datatype State = State(queue: seq<Entry>, pipe: nat, sending: nat, reader: Reader, unsent: bool,
                         submitted: seq<Entry>, ran: seq<Callback>)

  const INITIAL := State([], 0, 0, NotStarted, false, [], [])

  // A send fails only when the socket's buffer, of some positive capacity, is full.
  function Sent(pipe: nat, capacity: nat): nat {
    if pipe < capacity then pipe + 1 else pipe
  }

  datatype Action =
    | Push(cbs: seq<Entry>)        // dispatch and batchDispatch under the lock
    | Send                         // their send after it
    | Stop                         // under the lock, with its send
    | Start
    | Receive
    | Swap
    | RunOne

  predicate Enabled(s: State, a: Action) {
    match a
    case Push(_) => true
    case Send => s.sending > 0
    case Stop => true
    case Start => s.reader.NotStarted?
    case Receive => s.reader.Waiting? && s.pipe > 0
    case Swap => s.reader.Received?
    case RunOne => s.reader.Running?
  }

  function Do(s: State, a: Action, capacity: nat): State
    requires Enabled(s, a)
  {
    match a
    case Push(cbs) => s.(queue := s.queue + cbs, submitted := s.submitted + cbs, sending := s.sending + 1)
    case Send => s.(sending := s.sending - 1, pipe := Sent(s.pipe, capacity))
    case Stop =>
      s.(queue := s.queue + [None], submitted := s.submitted + [None],
         pipe := if s.reader.NotStarted? then s.pipe else Sent(s.pipe, capacity),
         unsent := s.unsent || s.reader.NotStarted?)
    case Start => s.(reader := Waiting)
    case Receive => s.(reader := Received, pipe := if s.pipe <= 4096 then 0 else s.pipe - 4096)
    case Swap => s.(reader := Running(s.queue), queue := [], unsent := false)
    case RunOne =>
      if s.reader.batch == [] then s.(reader := Waiting)
      else if s.reader.batch[0].None? then s.(reader := Ended)
      else s.(reader := Running(s.reader.batch[1..]), ran := s.ran + [s.reader.batch[0].value])
  }

  function Batch(s: State): seq<Entry> {
    if s.reader.Running? then s.reader.batch else []
  }

  function Entries(cbs: seq<Callback>): seq<Entry> {
    seq(|cbs|, i requires 0 <= i < |cbs| => Some(cbs[i]))
  }

  // A queued callback has its wake-up on the way: a byte in the pipe, a dispatcher about to
  // send one, or a reader about to swap; or the loop has ended, or a stop came before start.
  ghost predicate WakeUp(s: State) {
    s.queue != [] ==> s.pipe > 0 || s.sending > 0 || s.reader.Received? || s.reader.Ended? || s.unsent
  }

  // What was submitted is what ran, the batch in hand and the queue, in that order; after the
  // end, what ran is what came before the first marker.
  ghost predicate InOrder(s: State) {
    if s.reader.Ended? then Entries(s.ran) + [None] <= s.submitted
    else s.submitted == Entries(s.ran) + Batch(s) + s.queue
  }

  ghost predicate Inv(s: State) {
    WakeUp(s) && InOrder(s)
  }

  ghost predicate Possible(acts: seq<Action>, capacity: nat)
    decreases |acts|, 0
  {
    acts == [] || (Possible(acts[..|acts| - 1], capacity) && Enabled(After(acts[..|acts| - 1], capacity), acts[|acts| - 1]))
  }

  ghost function After(acts: seq<Action>, capacity: nat): State
    requires Possible(acts, capacity)
    decreases |acts|, 1
  {
    if acts == [] then INITIAL else Do(After(acts[..|acts| - 1], capacity), acts[|acts| - 1], capacity)
  }

  lemma RanOneMore(ran: seq<Callback>, batch: seq<Entry>, queue: seq<Entry>)
    requires batch != [] && batch[0].Some?
    ensures Entries(ran + [batch[0].value]) + batch[1..] + queue == Entries(ran) + batch + queue
  {
    assert Entries(ran + [batch[0].value]) == Entries(ran) + [batch[0]];
    assert batch == [batch[0]] + batch[1..];
  }

  lemma EndsAtMarker(ran: seq<Callback>, batch: seq<Entry>, queue: seq<Entry>)
    requires batch != [] && batch[0].None?
    ensures Entries(ran) + [None] <= Entries(ran) + batch + queue
  {
  }

  lemma RunOneKeeps(s: State, capacity: nat)
    requires Inv(s) && s.reader.Running?
    ensures Inv(Do(s, RunOne, capacity))
  {
    var batch := s.reader.batch;
    if batch == [] {
      assert Entries(s.ran) + [] + s.queue == Entries(s.ran) + batch + s.queue;
    } else if batch[0].Some? {
      RanOneMore(s.ran, batch, s.queue);
    } else {
      EndsAtMarker(s.ran, batch, s.queue);
    }
  }

  lemma InvKept(s: State, a: Action, capacity: nat)
    requires Inv(s) && Enabled(s, a) && capacity > 0
    ensures Inv(Do(s, a, capacity))
  {
    if a.RunOne? {
      RunOneKeeps(s, capacity);
    }
  }

  // Every interleaving of dispatchers, stop and the event loop.
  lemma {:induction false} EveryRun(acts: seq<Action>, capacity: nat)
    requires capacity > 0 && Possible(acts, capacity)
    ensures Inv(After(acts, capacity))
  {
    if acts != [] {
      EveryRun(acts[..|acts| - 1], capacity);
      InvKept(After(acts[..|acts| - 1], capacity), acts[|acts| - 1], capacity);
    }
  }

  // What the dispatchers handed in, in order: their callbacks, and a marker for each stop.
  function Submissions(acts: seq<Action>): seq<Entry> {
    if acts == [] then []
    else
      Submissions(acts[..|acts| - 1]) +
      match acts[|acts| - 1]
      case Push(cbs) => cbs
      case Stop => [None]
      case _ => []
  }

  lemma {:induction false} SubmittedIs(acts: seq<Action>, capacity: nat)
    requires Possible(acts, capacity)
    ensures After(acts, capacity).submitted == Submissions(acts)
  {
    if acts != [] {
      SubmittedIs(acts[..|acts| - 1], capacity);
    }
  }

  // Callbacks run in submission order, each at most once, and none after a stop marker; the
  // marker the loop ended at is the next entry; until then what has not run is in hand or queued.
  lemma RunsInOrder(acts: seq<Action>, capacity: nat)
    requires capacity > 0 && Possible(acts, capacity)
    ensures var t, all := After(acts, capacity), Submissions(acts);
      && |t.ran| <= |all|
      && (forall i :: 0 <= i < |t.ran| ==> all[i] == Some(t.ran[i]))
      && (t.reader.Ended? ==> |t.ran| < |all| && all[|t.ran|].None?)
      && (!t.reader.Ended? ==> all[|t.ran|..] == Batch(t) + t.queue)
  {
    EveryRun(acts, capacity);
    SubmittedIs(acts, capacity);
    var t := After(acts, capacity);
    assert Entries(t.ran) <= t.submitted;
    assert t.reader.Ended? ==> t.submitted[|t.ran|] == (Entries(t.ran) + [None])[|t.ran|];
  }

  ghost predicate StopsEarly(acts: seq<Action>) {
    exists i :: 0 <= i < |acts| && acts[i].Stop? && Start !in acts[..i]
  }

  // The marker of an early stop waits without a byte of its own until the first swap.
  ghost predicate Overlooks(acts: seq<Action>) {
    StopsEarly(acts) && Swap !in acts
  }

  lemma StopsEarlyStep(acts: seq<Action>, a: Action)
    ensures StopsEarly(acts + [a]) <==> StopsEarly(acts) || (a.Stop? && Start !in acts)
  {
    var more := acts + [a];
    assert forall i :: 0 <= i <= |acts| ==> more[..i] == acts[..i];
    assert more[..|acts|] == acts;
    if StopsEarly(acts) {
      var i :| 0 <= i < |acts| && acts[i].Stop? && Start !in acts[..i];
      assert more[i].Stop? && Start !in more[..i];
    }
    if a.Stop? && Start !in acts {
      assert more[|acts|].Stop? && Start !in more[..|acts|];
    }
  }

  lemma {:induction false} UnsentIsEarlyStop(acts: seq<Action>, capacity: nat)
    requires Possible(acts, capacity)
    ensures After(acts, capacity).reader.NotStarted? <==> Start !in acts
    ensures After(acts, capacity).unsent <==> Overlooks(acts)
    ensures After(acts, capacity).unsent ==> After(acts, capacity).queue != []
    ensures After(acts, capacity).reader.NotStarted? ==> Swap !in acts
  {
    if acts != [] {
      var n := |acts| - 1;
      UnsentIsEarlyStop(acts[..n], capacity);
      StopsEarlyStep(acts[..n], acts[n]);
      assert acts == acts[..n] + [acts[n]];
    }
  }

  // When the loop waits on an empty pipe and no dispatcher is about to send, everything
  // submitted has run, unless a stop came before the start and nothing was swapped since.
  lemma QuietIsDone(acts: seq<Action>, capacity: nat)
    requires capacity > 0 && Possible(acts, capacity)
    ensures var t := After(acts, capacity);
      t.reader.Waiting? && t.pipe == 0 && t.sending == 0 ==> (Submissions(acts) == Entries(t.ran) <==> !Overlooks(acts))
  {
    EveryRun(acts, capacity);
    SubmittedIs(acts, capacity);
    UnsentIsEarlyStop(acts, capacity);
  }

  // A queued callback has its wake-up on the way in every run that did not overlook a stop and
  // has not ended.
  lemma WakeUpComes(acts: seq<Action>, capacity: nat)
    requires capacity > 0 && Possible(acts, capacity) && !Overlooks(acts)
    ensures var t := After(acts, capacity);
      t.queue != [] && !t.reader.Ended? ==> t.pipe > 0 || t.sending > 0 || t.reader.Received?
  {
    EveryRun(acts, capacity);
    UnsentIsEarlyStop(acts, capacity);
  }

  // Such a run: the started loop waits with the marker in its queue and no byte to wake it.
  lemma EarlyStopIsOverlooked(capacity: nat)
    ensures Possible([Stop, Start], capacity)
    ensures var t := After([Stop, Start], capacity);
      t.queue == [None] && t.reader.Waiting? && t.pipe == 0 && t.sending == 0
  {
    assert [Stop, Start][..1] == [Stop] && [Stop][..0] == [];
    assert After([], capacity) == INITIAL;
    assert After([Stop], capacity) == Do(INITIAL, Stop, capacity);
  }

  // What a callback asks of its own thread, from inside.
  datatype Request = Dispatches(cbs: seq<Entry>) | Stops

  function Answered(s: State, r: Request, capacity: nat): State {
    match r
    case Dispatches(cbs) => Do(Do(s, Push(cbs), capacity), Send, capacity)
    case Stops => Do(s, Stop, capacity)
  }

  // One request after the other.
  function Dispatching(s: State, requests: seq<Request>, capacity: nat): (t: State)
    ensures t.reader == s.reader && t.sending == s.sending && t.ran == s.ran
    decreases |requests|
  {
    if requests == [] then s else Dispatching(Answered(s, requests[0], capacity), requests[1..], capacity)
  }

  // The rest of a batch, up to its marker; inner says what each callback asks for.
  function Drained(s: State, inner: Callback -> seq<Request>, capacity: nat): State
    requires s.reader.Running?
    decreases |s.reader.batch|
  {
    var t := Do(s, RunOne, capacity);
    if t.reader.Running? then Drained(Dispatching(t, inner(s.reader.batch[0].value), capacity), inner, capacity) else t
  }

  lemma AnsweredKeeps(s: State, r: Request, capacity: nat)
    requires Inv(s) && capacity > 0
    ensures Inv(Answered(s, r, capacity))
  {
    match r
    case Dispatches(cbs) =>
      InvKept(s, Push(cbs), capacity);
      InvKept(Do(s, Push(cbs), capacity), Send, capacity);
    case Stops => InvKept(s, Stop, capacity);
  }

  lemma {:induction false} DispatchingKeeps(s: State, requests: seq<Request>, capacity: nat)
    requires Inv(s) && capacity > 0
    ensures Inv(Dispatching(s, requests, capacity))
    decreases |requests|
  {
    if requests != [] {
      AnsweredKeeps(s, requests[0], capacity);
      DispatchingKeeps(Answered(s, requests[0], capacity), requests[1..], capacity);
    }
  }

  lemma {:induction false} DrainedKeeps(s: State, inner: Callback -> seq<Request>, capacity: nat)
    requires Inv(s) && s.reader.Running? && capacity > 0
    ensures Inv(Drained(s, inner, capacity))
    ensures Drained(s, inner, capacity).reader.Waiting? || Drained(s, inner, capacity).reader.Ended?
    decreases |s.reader.batch|
  {
    RunOneKeeps(s, capacity);
    var t := Do(s, RunOne, capacity);
    if t.reader.Running? {
      DispatchingKeeps(t, inner(s.reader.batch[0].value), capacity);
      DrainedKeeps(Dispatching(t, inner(s.reader.batch[0].value), capacity), inner, capacity);
    }
  }

  // A whole read_cb.
  function ReadAll(s: State, inner: Callback -> seq<Request>, capacity: nat): State
    requires Enabled(s, Receive)
  {
    Drained(Do(Do(s, Receive, capacity), Swap, capacity), inner, capacity)
  }

  lemma ReadKeeps(s: State, inner: Callback -> seq<Request>, capacity: nat)
    requires Inv(s) && Enabled(s, Receive) && capacity > 0
    ensures Inv(ReadAll(s, inner, capacity))
    ensures ReadAll(s, inner, capacity).reader.Waiting? || ReadAll(s, inner, capacity).reader.Ended?
  {
    InvKept(s, Receive, capacity);
    InvKept(Do(s, Receive, capacity), Swap, capacity);
    DrainedKeeps(Do(Do(s, Receive, capacity), Swap, capacity), inner, capacity);
  }

  // The callbacks of a list before its first marker.
  function UpToMarker(batch: seq<Entry>): seq<Entry> {
    if batch == [] || batch[0].None? then [] else [batch[0]] + UpToMarker(batch[1..])
  }

  lemma RanOne(ran: seq<Callback>, batch: seq<Entry>)
    requires batch != [] && batch[0].Some?
    ensures Entries(ran + [batch[0].value]) + UpToMarker(batch[1..]) == Entries(ran) + UpToMarker(batch)
  {
    Associates(Entries(ran), [batch[0]], UpToMarker(batch[1..]));
    assert Entries(ran + [batch[0].value]) == Entries(ran) + [batch[0]];
  }

  lemma Associates<T>(a: seq<T>, b: seq<T>, c: seq<T>)
    ensures a + b + c == a + (b + c)
  {
  }

  // Draining runs the callbacks before the marker, whatever they ask for, and ends the loop
  // exactly when there is one.
  lemma {:induction false} DrainedRuns(s: State, inner: Callback -> seq<Request>, capacity: nat)
    requires s.reader.Running?
    ensures var t, batch := Drained(s, inner, capacity), s.reader.batch;
      && Entries(t.ran) == Entries(s.ran) + UpToMarker(batch)
      && (t.reader.Ended? <==> None in batch) && (t.reader.Waiting? <==> None !in batch)
    decreases |s.reader.batch|
  {
    var batch := s.reader.batch;
    var t := Do(s, RunOne, capacity);
    if t.reader.Running? {
      assert batch == [batch[0]] + batch[1..];
      RanOne(s.ran, batch);
      DrainedRuns(Dispatching(t, inner(batch[0].value), capacity), inner, capacity);
    }
  }

  lemma ReadRuns(s: State, inner: Callback -> seq<Request>, capacity: nat)
    requires Enabled(s, Receive)
    ensures var t := ReadAll(s, inner, capacity);
      && Entries(t.ran) == Entries(s.ran) + UpToMarker(s.queue)
      && (t.reader.Ended? <==> None in s.queue) && (t.reader.Waiting? <==> None !in s.queue)
  {
    DrainedRuns(Do(Do(s, Receive, capacity), Swap, capacity), inner, capacity);
  }

  class FoxThread {
    const capacity: nat
    var callbacks: seq<Entry>
    var pipe: nat
    var thread: bool               // m_thread is there
    var start: bool
    var working: bool
    var total: nat

    ghost var reader: Reader
    ghost var unsent: bool
    ghost var submitted: seq<Entry>
    ghost var ran: seq<Callback>

    // The state between the calls of one dispatcher at a time.
    ghost function Now(): State
      reads this
    {
      State(callbacks, pipe, 0, reader, unsent, submitted, ran)
    }

    ghost predicate Valid()
      reads this
    {
      && capacity > 0 && Inv(Now())
      && (reader.NotStarted? || reader.Waiting? || reader.Ended?)
      && (thread <==> !reader.NotStarted?) && (start <==> reader.Waiting?)
    }

    constructor (capacity: nat)
      requires capacity > 0
      ensures Valid() && Now() == INITIAL && total == 0
    {
      this.capacity := capacity;
      callbacks, pipe, thread, start, working, total := [], 0, false, false, false, 0;
      reader, unsent, submitted, ran := NotStarted, false, [], [];
    }

    method Begin()
      requires Valid() && !thread
      modifies this`thread, this`start, this`reader
      ensures Valid() && start && Now() == Do(old(Now()), Start, capacity)
    {
      thread, start := true, true;
      reader := Waiting;
    }

    method SendByte() returns (ok: bool)
      modifies this`pipe
      ensures pipe == Sent(old(pipe), capacity) && (ok <==> old(pipe) < capacity)
    {
      ok := pipe < capacity;
      if ok {
        pipe := pipe + 1;
      }
    }

    // dispatch is the batch of one. The caller may be a callback that runs on this thread.
    method BatchDispatch(cbs: seq<Entry>) returns (ok: bool)
      modifies this`callbacks, this`pipe, this`submitted
      ensures Now() == Answered(old(Now()), Dispatches(cbs), capacity)
      ensures callbacks == old(callbacks) + cbs && pipe == if ok then old(pipe) + 1 else old(pipe)
      ensures old(Valid()) ==> Valid()
      ensures ok <==> old(pipe) < capacity
    {
      for i := 0 to |cbs|
        modifies this`callbacks
        invariant callbacks == old(callbacks) + cbs[..i]
      {
        callbacks := callbacks + [cbs[i]];
      }
      assert cbs[..|cbs|] == cbs;
      submitted := submitted + cbs;
      if old(Valid()) {
        AnsweredKeeps(old(Now()), Dispatches(cbs), capacity);
      }
      ok := SendByte();
    }

    // The caller may be a callback that runs on this thread.
    method StopThread()
      requires thread <==> !reader.NotStarted?
      modifies this`callbacks, this`pipe, this`submitted, this`unsent
      ensures Now() == Answered(old(Now()), Stops, capacity)
      ensures callbacks == old(callbacks) + [None]
      ensures pipe == if thread && old(pipe) < capacity then old(pipe) + 1 else old(pipe)
      ensures old(Valid()) ==> Valid()
    {
      if Valid() {
        AnsweredKeeps(Now(), Stops, capacity);
      }
      callbacks := callbacks + [None];
      submitted := submitted + [None];
      unsent := unsent || !thread;
      if thread {
        var ok := SendByte();
      }
    }

    // A callback's body, as far as this thread sees it.
    method Invoke(cb: Callback, inner: Callback -> seq<Request>)
      requires thread && !reader.NotStarted?
      modifies this`callbacks, this`pipe, this`submitted, this`unsent, this`ran
      ensures ran == old(ran) + [cb]
      ensures Now() == Dispatching(old(Now()).(ran := ran), inner(cb), capacity)
    {
      ran := ran + [cb];
      var requests := inner(cb);
      var i := 0;
      while i < |requests|
        modifies this`callbacks, this`pipe, this`submitted, this`unsent
        invariant i <= |requests|
        invariant Dispatching(Now(), requests[i..], capacity) == Dispatching(old(Now()).(ran := ran), requests, capacity)
      {
        assert requests[i..][1..] == requests[i + 1..];
        match requests[i] {
          case Dispatches(cbs) => var ok := BatchDispatch(cbs);
          case Stops => StopThread();
        }
        i := i + 1;
      }
    }

    // The loop of read_cb over the swapped list.
    method RunBatch(batch: seq<Entry>, inner: Callback -> seq<Request>)
      requires thread && reader == Running(batch)
      modifies this`callbacks, this`pipe, this`submitted, this`unsent, this`start, this`reader, this`ran
      ensures Now() == Drained(old(Now()), inner, capacity) && start == (old(start) && !reader.Ended?)
    {
      var i := 0;
      while i < |batch|
        invariant i <= |batch| && reader == Running(batch[i..])
        invariant Drained(old(Now()), inner, capacity) == Drained(Now(), inner, capacity) && start == old(start)
      {
        if batch[i].None? {
          reader := Ended;
          start := false;
          return;
        }
        assert batch[i..][1..] == batch[i + 1..];
        reader := Running(batch[i + 1..]);
        Invoke(batch[i].value, inner);
        i := i + 1;
      }
      reader := Waiting;
    }

    // recv of at most 4096 bytes, and the swap.
    method TakeAll() returns (batch: seq<Entry>)
      requires reader.Waiting? && pipe > 0
      modifies this`callbacks, this`pipe, this`reader, this`unsent
      ensures batch == old(callbacks) && callbacks == [] && reader == Running(batch)
      ensures old(pipe) - pipe == if old(pipe) < 4096 then old(pipe) else 4096
      ensures Now() == Do(Do(old(Now()), Receive, capacity), Swap, capacity)
    {
      pipe := if pipe <= 4096 then 0 else pipe - 4096;
      batch := callbacks;
      callbacks := [];
      unsent := false;
      reader := Running(batch);
    }

    // read_cb, when a byte is there: the whole list is taken, and run up to the marker.
    method ReadCb(inner: Callback -> seq<Request>)
      requires Valid() && reader.Waiting? && pipe > 0
      modifies this
      ensures Valid() && !working && Now() == ReadAll(old(Now()), inner, capacity)
      ensures total == old(total) + |old(callbacks)|
      ensures Entries(ran) == Entries(old(ran)) + UpToMarker(old(callbacks))
      ensures start <==> None !in old(callbacks)
    {
      ReadKeeps(Now(), inner, capacity);
      ReadRuns(Now(), inner, capacity);
      var batch := TakeAll();
      working := true;
      RunBatch(batch, inner);
      total := total + |batch|;
      working := false;
    }
  }
}
