/** sherry/db/redis.cc: the commands of FoxRedis. A fiber leaves a request record (FCtx) on its
    own stack, hands its address to the redis thread and suspends; a reply, an error, a timeout
    or the unconnected path resumes it. Each callback of the redis thread is one action. */
module FoxRedis {
  import opened Sums
  import opened Wrappers

  type Value = nat

  // The record on the fiber's stack: fiber says whether it still holds the fiber's handle, alive
  // whether the stack frame is still there.
  datatype FCtx = FCtx(fiber: bool, reply: Option<Value>, alive: bool)

  // The context of an issued command: its one-shot timer and whether hiredis will call back.
  datatype Ctx = Ctx(timeout: bool, timer: bool, inFlight: bool)

  // As history: how often the fiber was scheduled, whether pcmd could issue the command, whether
  // the timer fired, and whether some callback used the record after its frame was gone.
  datatype Command = Command(fctx: FCtx, queued: bool, ctx: Option<Ctx>,
                             resumed: nat, issued: bool, timedOut: bool, misused: bool)

  datatype State = State(commands: seq<Command>, ctxCount: int)

  datatype Answer = Error | NoReply | ErrorReply | Reply(value: Value)

  datatype Action =
    | Call                                                   // cmd, up to its yield
    | Run(c: nat, connected: bool, issues: bool)             // pcmd on the redis thread
    | Answered(c: nat, answer: Answer)                       // CmdCb
    | Expired(c: nat)                                        // Ctx::EventCb
    | Return(c: nat)                                         // cmd after its yield

  predicate Enabled(s: State, a: Action) {
    match a
    case Call => true
    case Run(c, _, _) => c < |s.commands| && s.commands[c].queued
    case Answered(c, _) => c < |s.commands| && s.commands[c].ctx.Some? && s.commands[c].ctx.value.inFlight
    case Expired(c) => c < |s.commands| && s.commands[c].ctx.Some? && s.commands[c].ctx.value.timer
    case Return(c) => c < |s.commands| && s.commands[c].resumed > 0 && s.commands[c].fctx.alive
  }

  // if(fctx->fiber) schedule(&fctx->fiber): the handle moves out of the record.
  function Scheduled(cmd: Command, reply: Option<Value>): Command {
    var used := cmd.(misused := cmd.misused || !cmd.fctx.alive);
    if cmd.fctx.fiber then
      used.(fctx := used.fctx.(fiber := false, reply := if reply.Some? then reply else used.fctx.reply),
            resumed := used.resumed + 1)
    else used
  }

  function OnRun(cmd: Command, connected: bool, issues: bool): Command {
    if !connected then Scheduled(cmd, None).(queued := false)
    else cmd.(queued := false, ctx := Some(Ctx(false, true, issues)), issued := issues)
  }

  function OnAnswer(cmd: Command, answer: Answer): Command
    requires cmd.ctx.Some?
  {
    if cmd.ctx.value.timeout then cmd.(ctx := None)
    else Scheduled(cmd, if answer.Reply? then Some(answer.value) else None).(ctx := None)
  }

  function OnExpiry(cmd: Command): Command
    requires cmd.ctx.Some?
  {
    Scheduled(cmd, None).(ctx := Some(cmd.ctx.value.(timeout := true, timer := false)), timedOut := true)
  }

  function Changed(s: State, a: Action): Command
    requires Enabled(s, a) && !a.Call?
  {
    match a
    case Run(c, connected, issues) => OnRun(s.commands[c], connected, issues)
    case Answered(c, answer) => OnAnswer(s.commands[c], answer)
    case Expired(c) => OnExpiry(s.commands[c])
    case Return(c) => s.commands[c].(fctx := s.commands[c].fctx.(alive := false))
  }

  // m_ctxCount goes up in Ctx's constructor and down in its destructor.
  function Do(s: State, a: Action): State
    requires Enabled(s, a)
  {
    if a.Call? then
      s.(commands := s.commands + [Command(FCtx(true, None, true), true, None, 0, false, false, false)])
    else
      State(s.commands[a.c := Changed(s, a)],
            match a
            case Run(_, connected, _) => if connected then s.ctxCount + 1 else s.ctxCount
            case Answered(_, _) => s.ctxCount - 1
            case _ => s.ctxCount)
  }

  function LiveOne(cmd: Command): nat {
    if cmd.ctx.Some? then 1 else 0
  }

  // A command waits in the redis thread's queue, or has a context with its timer armed, or has
  // been resumed, once; a reply is there only if it came before the timeout.
  ghost predicate CommandOk(cmd: Command) {
    && !cmd.misused
    && (cmd.fctx.fiber <==> cmd.resumed == 0) && cmd.resumed <= 1
    && (!cmd.fctx.alive ==> cmd.resumed == 1)
    && (cmd.queued ==> cmd.ctx.None? && cmd.resumed == 0 && !cmd.issued)
    && (cmd.ctx.Some? ==> (cmd.ctx.value.timer <==> !cmd.ctx.value.timeout))
    && (cmd.ctx.Some? ==> (cmd.ctx.value.timeout <==> cmd.resumed == 1))
    && (cmd.ctx.Some? ==> cmd.ctx.value.inFlight == cmd.issued)
    && (cmd.resumed == 0 ==> cmd.queued || cmd.ctx.Some?)
    && (cmd.fctx.reply.Some? ==> cmd.resumed == 1 && cmd.ctx.None? && !cmd.timedOut)
    && (cmd.timedOut ==> cmd.resumed == 1 && (cmd.ctx.None? ==> cmd.issued))
    && (cmd.ctx.Some? ==> cmd.timedOut == cmd.ctx.value.timeout)
  }

  ghost predicate Inv(s: State) {
    && (forall c :: 0 <= c < |s.commands| ==> CommandOk(s.commands[c]))
    && s.ctxCount == Total(LiveOne, s.commands)
  }

  lemma CommandKept(s: State, a: Action)
    requires Enabled(s, a) && !a.Call? && CommandOk(s.commands[a.c])
    ensures CommandOk(Changed(s, a))
  {
  }

  lemma InvKept(s: State, a: Action)
    requires Inv(s) && Enabled(s, a)
    ensures Inv(Do(s, a))
  {
    if a.Call? {
      TotalAppend(LiveOne, s.commands, Do(s, a).commands[|s.commands|]);
    } else {
      CommandKept(s, a);
      TotalUpdate(LiveOne, s.commands, a.c, Changed(s, a));
    }
  }

  ghost predicate Possible(acts: seq<Action>)
    decreases |acts|, 0
  {
    acts == [] || (Possible(acts[..|acts| - 1]) && Enabled(After(acts[..|acts| - 1]), acts[|acts| - 1]))
  }

  ghost function After(acts: seq<Action>): State
    requires Possible(acts)
    decreases |acts|, 1
  {
    if acts == [] then State([], 0) else Do(After(acts[..|acts| - 1]), acts[|acts| - 1])
  }

  // Every interleaving of callers and callbacks, whatever the server does.
  lemma {:induction false} EveryRun(acts: seq<Action>)
    requires Possible(acts)
    ensures Inv(After(acts))
  {
    if acts != [] {
      EveryRun(acts[..|acts| - 1]);
      InvKept(After(acts[..|acts| - 1]), acts[|acts| - 1]);
    }
  }

  // A command's fiber is resumed at most once and its record is not used afterwards; a reply is
  // stored only if the timeout did not come first; the counter counts the live contexts.
  lemma CommandIsSafe(acts: seq<Action>, c: nat)
    requires Possible(acts) && c < |After(acts).commands|
    ensures var cmd := After(acts).commands[c];
      && cmd.resumed <= 1 && !cmd.misused
      && (!cmd.fctx.alive ==> cmd.resumed == 1)
      && (cmd.fctx.reply.Some? ==> cmd.resumed == 1 && !cmd.timedOut)
    ensures After(acts).ctxCount == Total(LiveOne, After(acts).commands)
  {
    EveryRun(acts);
    assert CommandOk(After(acts).commands[c]);
  }

  // A command not yet resumed has its resume on the way: its pcmd is queued, or its timer is
  // armed; running pcmd resumes it or arms the timer, and the timer resumes it.
  lemma ResumeComes(t: State, c: nat, issues: bool)
    requires Inv(t) && c < |t.commands| && t.commands[c].resumed == 0
    ensures t.commands[c].queued || Enabled(t, Expired(c))
    ensures Enabled(t, Expired(c)) ==> Do(t, Expired(c)).commands[c].resumed == 1
    ensures t.commands[c].queued ==>
      && Do(t, Run(c, false, issues)).commands[c].resumed == 1
      && Enabled(Do(t, Run(c, true, issues)), Expired(c))
  {
    assert CommandOk(t.commands[c]);
  }

  // A call leaves a new record on its stack, with the fiber's handle and no reply, and its pcmd in
  // the redis thread's queue.
  lemma CallWaits(t: State)
    ensures var u, c := Do(t, Call), |t.commands|;
      && |u.commands| == c + 1 && u.commands[..c] == t.commands && u.ctxCount == t.ctxCount
      && u.commands[c].fctx == FCtx(true, None, true) && u.commands[c].queued && u.commands[c].ctx.None?
      && Enabled(u, Run(c, true, true)) && !Enabled(u, Return(c))
  {
  }

  // An answer before the timeout resumes the fiber and leaves exactly a proper reply in the record;
  // after it the record is as it was. Either way the context is gone.
  lemma AnswerArrives(t: State, c: nat, answer: Answer)
    requires Inv(t) && Enabled(t, Answered(c, answer))
    ensures var was, new' := t.commands[c], Do(t, Answered(c, answer)).commands[c];
      && new'.ctx.None? && new'.resumed == 1
      && (!was.ctx.value.timeout ==> was.resumed == 0 && !new'.fctx.fiber)
      && (!was.ctx.value.timeout ==> forall v: Value :: new'.fctx.reply == Some(v) <==> answer == Reply(v))
      && (was.ctx.value.timeout ==> new'.fctx == was.fctx)
  {
    assert CommandOk(t.commands[c]);
  }

  // Nothing else touches a reply, and no action touches another command.
  lemma ReplyStays(t: State, a: Action, c: nat)
    requires Enabled(t, a) && c < |t.commands| && !(a.Answered? && a.c == c)
    ensures c < |Do(t, a).commands| && Do(t, a).commands[c].fctx.reply == t.commands[c].fctx.reply
    ensures !a.Call? && a.c != c ==> Do(t, a).commands[c] == t.commands[c]
  {
  }

  // The callbacks that look into the record: pcmd that finds no connection, an answer before the
  // timeout, and the timeout. The frame is there whenever one of them runs.
  predicate UsesRecord(t: State, a: Action)
    requires Enabled(t, a)
  {
    match a
    case Run(_, connected, _) => !connected
    case Answered(c, _) => !t.commands[c].ctx.value.timeout
    case Expired(_) => true
    case _ => false
  }

  lemma RecordIsThere(acts: seq<Action>, a: Action)
    requires Possible(acts) && Enabled(After(acts), a) && UsesRecord(After(acts), a)
    ensures Return(a.c) !in acts && After(acts).commands[a.c].fctx.fiber
  {
    EveryRun(acts);
    assert CommandOk(After(acts).commands[a.c]);
    HistoryIs(acts, a.c);
  }

  predicate OfCommand(a: Action, c: nat) {
    !a.Call? && a.c == c
  }

  // The ways a command ends: unconnected, answered or timed out.
  predicate Finishes(a: Action, c: nat) {
    OfCommand(a, c) && ((a.Run? && !a.connected) || a.Answered? || a.Expired?)
  }

  ghost predicate Resumes(acts: seq<Action>, c: nat) {
    exists i :: 0 <= i < |acts| && Finishes(acts[i], c)
  }

  lemma ResumesMore(acts: seq<Action>, a: Action, c: nat)
    ensures Resumes(acts + [a], c) <==> Resumes(acts, c) || Finishes(a, c)
  {
    var more := acts + [a];
    if Resumes(acts, c) {
      var i :| 0 <= i < |acts| && Finishes(acts[i], c);
      assert more[i] == acts[i];
    }
    assert more[|acts|] == a;
  }

  // What the fields of a command say about the run.
  lemma {:induction false} HistoryIs(acts: seq<Action>, c: nat)
    requires Possible(acts) && c < |After(acts).commands|
    ensures History(After(acts).commands[c], acts, c)
  {
    var before, a := acts[..|acts| - 1], acts[|acts| - 1];
    assert acts == before + [a];
    EveryRun(before);
    if c < |After(before).commands| {
      HistoryIs(before, c);
      HistoryStep(After(before), a, c);
      HistoryMore(After(before).commands[c], After(acts).commands[c], before, a, c);
    } else {
      NotYet(before, c);
      ResumesMore(before, a, c);
    }
  }

  ghost predicate History(cmd: Command, acts: seq<Action>, c: nat) {
    && (cmd.resumed == 1 <==> Resumes(acts, c)) && (cmd.timedOut <==> Expired(c) in acts)
    && (cmd.issued <==> Run(c, true, true) in acts) && (cmd.fctx.alive <==> Return(c) !in acts)
  }

  // One action more.
  ghost predicate Ages(was: Command, new': Command, a: Action, c: nat) {
    && (new'.timedOut <==> was.timedOut || a == Expired(c)) && (new'.issued <==> was.issued || a == Run(c, true, true))
    && (new'.fctx.alive <==> was.fctx.alive && a != Return(c))
    && (new'.resumed == 1 <==> was.resumed == 1 || Finishes(a, c))
  }

  lemma HistoryMore(was: Command, new': Command, acts: seq<Action>, a: Action, c: nat)
    requires History(was, acts, c) && Ages(was, new', a, c)
    ensures History(new', acts + [a], c)
  {
    ResumesMore(acts, a, c);
    assert forall b :: b in acts + [a] <==> b in acts || b == a;
  }

  lemma HistoryStep(t: State, a: Action, c: nat)
    requires Inv(t) && Enabled(t, a) && c < |t.commands|
    ensures Ages(t.commands[c], Do(t, a).commands[c], a, c)
  {
    assert CommandOk(t.commands[c]);
  }

  lemma {:induction false} NotYet(acts: seq<Action>, c: nat)
    requires Possible(acts) && c >= |After(acts).commands|
    ensures forall i :: 0 <= i < |acts| ==> !OfCommand(acts[i], c)
  {
    if acts != [] {
      NotYet(acts[..|acts| - 1], c);
    }
  }

  function LeakedOne(cmd: Command): nat {
    if cmd.timedOut && !cmd.issued then 1 else 0
  }

  // When no callback is left to come every fiber was resumed, once, and the contexts that remain are those of the commands that
  // could not be issued: their timer resumed the fiber and nobody deletes them.
  lemma LeftContexts(acts: seq<Action>)
    requires Possible(acts)
    requires forall c :: 0 <= c < |After(acts).commands| ==>
      !Enabled(After(acts), Expired(c)) && !Enabled(After(acts), Answered(c, NoReply)) && !After(acts).commands[c].queued
    ensures forall c :: 0 <= c < |After(acts).commands| ==>
      && After(acts).commands[c].resumed == 1
      && (After(acts).commands[c].ctx.Some? <==> After(acts).commands[c].timedOut && !After(acts).commands[c].issued)
    ensures After(acts).ctxCount == Total(LeakedOne, After(acts).commands)
  {
    EveryRun(acts);
    var t := After(acts);
    forall c | 0 <= c < |t.commands|
      ensures t.commands[c].resumed == 1
      ensures t.commands[c].ctx.Some? <==> t.commands[c].timedOut && !t.commands[c].issued
    {
      assert CommandOk(t.commands[c]);
      assert !Enabled(t, Expired(c)) && !Enabled(t, Answered(c, NoReply));
    }
    TotalSame(LiveOne, LeakedOne, t.commands);
  }

  lemma LeakExample()
    ensures var acts := [Call, Run(0, true, false), Expired(0), Return(0)];
      && Possible(acts) && After(acts).ctxCount == 1
      && !Enabled(After(acts), Expired(0)) && forall answer :: !Enabled(After(acts), Answered(0, answer))
  {
    var acts := [Call, Run(0, true, false), Expired(0), Return(0)];
    assert acts[..3][..2] == acts[..2] && acts[..2][..1] == acts[..1] && acts[..1][..0] == [];
    assert Possible([]) && After([]) == State([], 0);
    assert Possible(acts[..1]) && After(acts[..1]) == Do(After([]), Call);
    assert Possible(acts[..2]) && After(acts[..2]) == Do(After(acts[..1]), acts[1]);
    assert Possible(acts[..3]) && After(acts[..3]) == Do(After(acts[..2]), acts[2]);
  }

  // FCtx, with the history of its command.
  class Request {
    var fiber: bool
    var reply: Option<Value>

    ghost var alive: bool
    ghost var queued: bool
    ghost var resumed: nat
    ghost var issued: bool
    ghost var timedOut: bool
    ghost var misused: bool

    constructor ()
      ensures View(this, null) == Command(FCtx(true, None, true), true, None, 0, false, false, false)
    {
      fiber, reply := true, None;
      alive, queued, resumed, issued, timedOut, misused := true, true, 0, false, false, false;
    }
  }

  class Context {
    const fctx: Request
    var timeout: bool
    var timer: bool
    var inFlight: bool

    constructor (fctx: Request, issues: bool)
      ensures this.fctx == fctx && !timeout && timer && inFlight == issues
    {
      this.fctx := fctx;
      timeout, timer, inFlight := false, true, issues;
    }
  }

  ghost function View(r: Request, c: Context?): Command
    reads r, c
  {
    Command(FCtx(r.fiber, r.reply, r.alive), r.queued,
            if c == null then None else Some(Ctx(c.timeout, c.timer, c.inFlight)),
            r.resumed, r.issued, r.timedOut, r.misused)
  }

  class Client {
    var ctxCount: int

    // if(fctx->fiber) schedule(&fctx->fiber), with the reply stored before it.
    method Resume(r: Request, reply: Option<Value>)
      modifies r`fiber, r`reply, r`resumed, r`misused
      ensures View(r, null) == Scheduled(old(View(r, null)), reply)
    {
      r.misused := r.misused || !r.alive;
      if r.fiber {
        if reply.Some? {
          r.reply := reply;
        }
        r.fiber := false;
        r.resumed := r.resumed + 1;
      }
    }

    method Pcmd(r: Request, connected: bool, issues: bool) returns (c: Context?)
      requires r.queued && CommandOk(View(r, null))
      modifies this`ctxCount, r
      ensures View(r, c) == OnRun(old(View(r, null)), connected, issues) && CommandOk(View(r, c))
      ensures (c != null ==> fresh(c) && c.fctx == r) && ctxCount == old(ctxCount) + if c != null then 1 else 0
    {
      r.queued := false;
      if !connected {
        Resume(r, None);
        return null;
      }
      ctxCount := ctxCount + 1;
      c := new Context(r, issues);
      r.issued := issues;
    }

    // The context is deleted at the end on every path.
    method CmdCb(c: Context, answer: Answer)
      requires c.inFlight && CommandOk(View(c.fctx, c))
      modifies this`ctxCount, c.fctx
      ensures View(c.fctx, null) == OnAnswer(old(View(c.fctx, c)), answer) && CommandOk(View(c.fctx, null))
      ensures ctxCount == old(ctxCount) - 1
      ensures old(c.timeout) ==> unchanged(c.fctx)
      ensures !old(c.timeout) ==> !c.fctx.fiber && c.fctx.resumed == 1
      ensures c.fctx.reply == if !old(c.timeout) && answer.Reply? then Some(answer.value) else old(c.fctx.reply)
    {
      ctxCount := ctxCount - 1;
      if c.timeout {
        return;
      }
      match answer
      case Reply(v) => Resume(c.fctx, Some(v));
      case _ => Resume(c.fctx, None);
    }

    method EventCb(c: Context)
      requires c.timer && CommandOk(View(c.fctx, c))
      modifies c`timeout, c`timer, c.fctx
      ensures View(c.fctx, c) == OnExpiry(old(View(c.fctx, c))) && CommandOk(View(c.fctx, c))
    {
      c.timer := false;
      c.timeout := true;
      c.fctx.timedOut := true;
      Resume(c.fctx, None);
    }
  }
}
