/** sherry/timer.cc: timers in an ordered set keyed by deadline and address, with cancel,
    refresh, reset, recurring timers, clock rollover and the wake-up flag. */
module Timers {
  import opened Wrappers

  type Callback = nat

  class Timer {
    const addr: nat       // the object's address, the tie-breaker of the ordering
    const recurring: bool
    var ms: nat
    var next: nat
    var cb: Option<Callback>

    constructor (addr: nat, ms: nat, cb: Callback, recurring: bool, now: nat)
      ensures this.addr == addr && this.ms == ms && this.recurring == recurring
      ensures this.cb == Some(cb) && next == now + ms
    {
      this.addr, this.ms, this.recurring := addr, ms, recurring;
      this.cb := Some(cb);
      next := now + ms;
    }
  }

  // Comparator on (next, address) pairs.
  predicate KeyLess(n: nat, a: nat, n': nat, a': nat) {
    n < n' || (n == n' && a < a')
  }

  ghost predicate Less(s: Timer, t: Timer)
    reads s, t
  {
    KeyLess(s.next, s.addr, t.next, t.addr)
  }

  // The content of the std::set, in iteration order.
  ghost predicate Sorted(ts: seq<Timer>)
    reads ts
  {
    forall i, j :: 0 <= i < j < |ts| ==> Less(ts[i], ts[j])
  }

  // lower_bound: the first element not below the key. The comparator's order makes the
  // elements before it exactly the smaller ones.
  method LowerBound(ts: seq<Timer>, next: nat, addr: nat) returns (k: nat)
    requires Sorted(ts)
    ensures k <= |ts|
    ensures forall i :: 0 <= i < k ==> KeyLess(ts[i].next, ts[i].addr, next, addr)
    ensures forall i :: k <= i < |ts| ==> !KeyLess(ts[i].next, ts[i].addr, next, addr)
  {
    k := 0;
    while k < |ts| && KeyLess(ts[k].next, ts[k].addr, next, addr)
      invariant k <= |ts|
      invariant forall i :: 0 <= i < k ==> KeyLess(ts[i].next, ts[i].addr, next, addr)
    {
      k := k + 1;
    }
    if k < |ts| {
      forall i | k < i < |ts|
        ensures !KeyLess(ts[i].next, ts[i].addr, next, addr)
      {
        assert Less(ts[k], ts[i]);
      }
    }
  }

  // r holds the timers of ts and t; r holds them without t; r holds the same ones.
  ghost predicate With(r: seq<Timer>, ts: seq<Timer>, t: Timer) {
    t in r && (forall s :: s in ts ==> s in r) && (forall s :: s in r ==> s in ts || s == t)
  }

  ghost predicate Without(r: seq<Timer>, ts: seq<Timer>, t: Timer) {
    (forall s :: s in r ==> s in ts && s != t) && (forall s :: s in ts && s != t ==> s in r)
  }

  ghost predicate Same(r: seq<Timer>, ts: seq<Timer>) {
    (forall s :: s in r ==> s in ts) && (forall s :: s in ts ==> s in r)
  }

  lemma InsertedHas(ts: seq<Timer>, t: Timer, k: nat)
    requires k <= |ts|
    ensures With(ts[..k] + [t] + ts[k..], ts, t)
  {
    var r := ts[..k] + [t] + ts[k..];
    forall s | s in ts
      ensures s in r
    {
      var i :| 0 <= i < |ts| && ts[i] == s;
      assert r[if i < k then i else i + 1] == s;
    }
    assert r[k] == t;
  }

  // insert: keeps the order; `front` says whether the new element comes first.
  method Inserted(ts: seq<Timer>, t: Timer) returns (r: seq<Timer>, front: bool)
    requires Sorted(ts) && t !in ts && forall s :: s in ts ==> s.addr != t.addr
    ensures Sorted(r) && With(r, ts, t) && |r| == |ts| + 1
    ensures front <==> r[0] == t
    ensures !front ==> ts != [] && ts[0].next <= t.next
  {
    var k := LowerBound(ts, t.next, t.addr);
    r := ts[..k] + [t] + ts[k..];
    front := k == 0;
    assert forall i :: 0 <= i < |ts| ==> ts[i] in ts;
    forall i, j | 0 <= i < j < |r|
      ensures Less(r[i], r[j])
    {
      var a, b := if i <= k then i else i - 1, if j <= k then j else j - 1;
      if i != k && j != k {
        assert Less(ts[a], ts[b]);
      }
    }
    InsertedHas(ts, t, k);
    assert r[0] == if front then t else ts[0];
  }

  // find, then erase: the element with an equivalent key, if there is one.
  method Erased(ts: seq<Timer>, t: Timer) returns (found: bool, r: seq<Timer>)
    requires Sorted(ts) && forall s :: s in ts && s.addr == t.addr ==> s == t
    ensures found <==> t in ts
    ensures found ==> Sorted(r) && Without(r, ts, t)
    ensures !found ==> r == ts
  {
    var k := LowerBound(ts, t.next, t.addr);
    if k == |ts| || KeyLess(t.next, t.addr, ts[k].next, ts[k].addr) {
      forall i | 0 <= i < |ts|
        ensures ts[i] != t
      {
        if i > k { assert Less(ts[k], ts[i]); }
      }
      return false, ts;
    }
    assert ts[k] in ts && ts[k] == t;
    r := ts[..k] + ts[k + 1..];
    forall i, j | 0 <= i < j < |r|
      ensures Less(r[i], r[j])
    {
      assert Less(ts[if i < k then i else i + 1], ts[if j < k then j else j + 1]);
    }
    forall s
      ensures s in r <==> s in ts && s != t
    {
      if s in ts && s != t {
        var i :| 0 <= i < |ts| && ts[i] == s;
        assert r[if i < k then i else i - 1] == s;
      }
      if s in r {
        var i :| 0 <= i < |r| && r[i] == s;
        if i < k { assert Less(ts[i], ts[k]); } else { assert Less(ts[k], ts[i + 1]); }
      }
    }
    found := true;
  }

  const HOUR: nat := 60 * 60 * 1000
  const WORD: nat := 0x1_0000_0000_0000_0000

  // The clock went back by more than an hour; within its first hour any step back counts.
  predicate RolledOver(previous: nat, now: nat) {
    if previous >= HOUR then now + HOUR < previous else now < previous
  }

  class TimerManager {
    var timers: seq<Timer>
    var tickled: bool
    var previous: nat

    ghost var all: set<Timer>        // every timer added so far
    ghost var fired: set<Timer>      // the one-shots handed out
    ghost var cancelled: set<Timer>
    ghost var clock: nat             // real time at the latest locked section
    ghost var monotone: bool         // real time never went back, no reading was ahead of it, and
                                     // those of the waiter came in order
    ghost var seen: Option<nat>      // the deadline the last getNextTimer saw; None when there was none

    // A timer is in the set exactly when its callback is there, and every added timer is
    // pending, fired or cancelled, one of the three.
    ghost predicate Indexed()
      reads this, all
    {
      && (forall t :: t in timers ==> t in all) && fired <= all && cancelled <= all && fired !! cancelled
      && (forall s, t :: s in timers && t in timers && s.addr == t.addr ==> s == t)
      && (forall t :: t in all ==> (t in timers <==> t.cb.Some?))
      && (forall t :: t in all ==> (t in timers <==> t !in fired && t !in cancelled))
      && (forall t :: t in fired ==> !t.recurring)
    }

    // A timer's period starts in the past; while the flag is down every pending deadline is
    // at or after the one the waiter knows of.
    ghost predicate NoneMissed()
      reads this, all, timers
    {
      && (forall t :: t in all ==> t.ms <= t.next)
      && (monotone ==> forall t :: t in all ==> t.next <= clock + t.ms)
      && (monotone && !tickled ==> forall t :: t in timers ==> seen.Some? && seen.value <= t.next)
    }

    ghost predicate Valid()
      reads this, all, timers
    {
      Sorted(timers) && Indexed() && NoneMissed()
    }

    constructor (now: nat)
      ensures Valid() && all == {} && timers == [] && !tickled && previous == now && monotone && clock == now
    {
      timers, tickled, previous := [], false, now;
      all, fired, cancelled := {}, {}, {};
      clock, monotone, seen := now, true, None;
    }

    // A reading used in a locked section at real time `time`, which may have passed since.
    ghost method ReadClock(now: nat, time: nat)
      requires Valid()
      modifies this`clock, this`monotone
      ensures Valid()
      ensures clock == time && (monotone <==> old(monotone) && old(clock) <= time && now <= time)
    {
      monotone := monotone && clock <= time && now <= time;
      clock := time;
    }

    // The private addTimer: insert, and raise the flag when the timer comes first. True asks
    // the caller to wake the waiter.
    method AddToFront(t: Timer) returns (wake: bool)
      requires Sorted(timers) && t !in timers && forall s :: s in timers ==> s.addr != t.addr
      modifies this`timers, this`tickled
      ensures Sorted(timers) && With(timers, old(timers), t)
      ensures wake <==> !old(tickled) && tickled
      ensures tickled <==> old(tickled) || timers[0] == t
      ensures !tickled ==> old(timers) != [] && old(timers)[0].next <= t.next
    {
      var front;
      timers, front := Inserted(timers, t);
      wake := front && !tickled;
      if wake {
        tickled := true;
      }
    }

    method Enrol(t: Timer) returns (wake: bool)
      requires Valid() && t !in all && forall s :: s in timers ==> s.addr != t.addr
      requires t.cb.Some? && t.ms <= t.next && (monotone ==> t.next <= clock + t.ms)
      modifies this`timers, this`tickled, this`all
      ensures Valid() && all == old(all) + {t} && With(timers, old(timers), t)
      ensures tickled <==> old(tickled) || timers[0] == t
      ensures wake <==> !old(tickled) && tickled
    {
      assert timers != [] ==> timers[0] in timers;
      wake := AddToFront(t);
      all := all + {t};
    }

    // The clock is read before the lock is taken; the address is that of no pending timer, but a
    // freed one's may come again.
    method AddTimer(ms: nat, cb: Callback, recurring: bool, now: nat, addr: nat, ghost time: nat) returns (t: Timer, wake: bool)
      requires Valid() && forall s :: s in timers ==> s.addr != addr
      modifies this
      ensures Valid() && fresh(t) && all == old(all) + {t} && t in timers
      ensures With(timers, old(timers), t) && fired == old(fired) && cancelled == old(cancelled)
      ensures t.cb == Some(cb) && t.next == now + ms && t.ms == ms && t.recurring == recurring
      ensures clock == time && (monotone <==> old(monotone) && old(clock) <= time && now <= time)
      ensures tickled <==> old(tickled) || timers[0] == t
      ensures seen == old(seen) && previous == old(previous) && (wake <==> !old(tickled) && tickled)
    {
      ReadClock(now, time);
      t := new Timer(addr, ms, cb, recurring, now);
      wake := Enrol(t);
    }

    // Cancelling finds the timer whenever its callback is there: the erased iterator is
    // never the end of the set.
    method Cancel(t: Timer) returns (done: bool)
      requires Valid() && t in all
      modifies this`timers, this`cancelled, t`cb
      ensures Valid()
      ensures done <==> t in old(timers)
      ensures done ==> t.cb == None && Without(timers, old(timers), t) && cancelled == old(cancelled) + {t}
      ensures !done ==> timers == old(timers) && t.cb == old(t.cb) && cancelled == old(cancelled)
    {
      if t.cb.None? {
        return false;
      }
      var found;
      found, timers := Erased(timers, t);
      assert found;
      t.cb := None;
      cancelled := cancelled + {t};
      done := true;
    }

    // The key changes only between erase and insert. The front check is skipped.
    method Refresh(t: Timer, now: nat) returns (done: bool)
      requires Valid() && t in all
      modifies this`timers, this`clock, this`monotone, t`next
      ensures Valid()
      ensures done <==> t in old(timers)
      ensures Same(timers, old(timers))
      ensures t.next == if done then now + t.ms else old(t.next)
      ensures done ==> clock == now && (monotone <==> old(monotone) && old(clock) <= now)
    {
      if t.cb.None? {
        return false;
      }
      ReadClock(now, now);
      var found;
      found, timers := Erased(timers, t);
      assert found;
      t.next := now + t.ms;
      var front;
      timers, front := Inserted(timers, t);
      done := true;
    }

    // The part of reset under the lock: out of the set, new key, back in with the front check.
    method Rekey(t: Timer, ms: nat, start: nat) returns (wake: bool)
      requires Valid() && t in timers && (monotone ==> start <= clock)
      modifies this`timers, this`tickled, t`next, t`ms
      ensures Valid()
      ensures Same(timers, old(timers)) && t.ms == ms && t.next == start + ms
      ensures timers != [] && (tickled <==> old(tickled) || timers[0] == t)
      ensures wake <==> !old(tickled) && tickled
    {
      var found;
      found, timers := Erased(timers, t);
      assert timers != [] ==> timers[0] in timers;
      t.ms := ms;
      t.next := start + ms;
      wake := AddToFront(t);
    }

    method Reset(t: Timer, ms: nat, fromNow: bool, now: nat) returns (done: bool, wake: bool)
      requires Valid() && t in all
      modifies this`timers, this`tickled, this`clock, this`monotone, t`next, t`ms
      ensures Valid()
      ensures Same(timers, old(timers))
      ensures done <==> (ms == old(t.ms) && !fromNow) || t in old(timers)
      ensures t.ms == (if done then ms else old(t.ms))
      ensures t.next == if !done || (ms == old(t.ms) && !fromNow) then old(t.next)
                        else (if fromNow then now else old(t.next - t.ms)) + ms
      ensures !done || (ms == old(t.ms) && !fromNow) ==> tickled == old(tickled)
      ensures done && !(ms == old(t.ms) && !fromNow) ==>
        timers != [] && (tickled <==> old(tickled) || timers[0] == t)
      ensures wake <==> !old(tickled) && tickled
    {
      if ms == t.ms && !fromNow {
        return true, false;
      }
      if t.cb.None? {
        return false, false;
      }
      if fromNow {
        ReadClock(now, now);
      }
      wake := Rekey(t, ms, if fromNow then now else t.next - t.ms);
      done := true;
    }

    // How long the waiter may sleep; None is the ~0 of an empty set. Lowers the flag.
    method GetNextTimer(now: nat) returns (wait: Option<nat>)
      requires Valid()
      modifies this`tickled, this`clock, this`monotone, this`seen
      ensures Valid() && !tickled
      ensures wait.None? <==> timers == []
      ensures seen == if timers == [] then None else Some(timers[0].next)
      ensures timers != [] ==> wait == Some(if now >= timers[0].next then 0 else timers[0].next - now)
      ensures timers != [] ==> clock == now && (monotone <==> old(monotone) && old(clock) <= now)
    {
      tickled := false;
      if timers == [] {
        seen := None;
        return None;
      }
      seen := Some(timers[0].next);
      forall t | t in timers
        ensures timers[0].next <= t.next
      {
        var i :| 0 <= i < |timers| && timers[i] == t;
        if i > 0 {
          assert Less(timers[0], timers[i]);
        }
      }
      ReadClock(now, now);
      return Some(if now >= timers[0].next then 0 else timers[0].next - now);
    }

    // The comparison is with a difference of 64-bit words, which wraps in the clock's first hour.
    method DetectClockRollover(now: nat) returns (rollover: bool)
      modifies this`previous
      ensures previous == now && (rollover <==> RolledOver(old(previous), now))
    {
      rollover := false;
      var limit := if previous >= HOUR then previous - HOUR else previous + WORD - HOUR;
      if now < previous && now < limit {
        rollover := true;
      }
      previous := now;
    }

    // How many timers are due, found with a probe timer at (now, probe): the same count for
    // every address the probe may get.
    method CountDue(now: nat, probe: nat, rollover: bool) returns (k: nat)
      requires Sorted(timers) && timers != []
      ensures k <= |timers|
      ensures rollover ==> k == |timers|
      ensures !rollover ==> forall i :: 0 <= i < |timers| ==> (i < k <==> timers[i].next <= now)
    {
      if !rollover && timers[0].next > now {
        forall i | 0 < i < |timers|
          ensures timers[i].next > now
        {
          assert Less(timers[0], timers[i]);
        }
        return 0;
      }
      if rollover {
        k := |timers|;
      } else {
        k := LowerBound(timers, now, probe);
      }
      while k < |timers| && timers[k].next == now
        invariant k <= |timers|
        invariant rollover ==> k == |timers|
        invariant !rollover ==> forall i :: 0 <= i < k ==> timers[i].next <= now
        invariant !rollover ==> forall i :: k <= i < |timers| ==> timers[i].next >= now
      {
        k := k + 1;
      }
      if !rollover && k < |timers| {
        forall i | k < i < |timers|
          ensures timers[i].next > now
        {
          assert Less(timers[k], timers[i]);
        }
      }
    }

    method HandOne(t: Timer, now: nat) returns (cb: Callback)
      requires Sorted(timers) && t !in timers && t.cb.Some?
      requires forall s :: s in timers ==> s.addr != t.addr
      modifies this`timers, this`fired, t`next, t`cb
      ensures Sorted(timers) && Some(cb) == old(t.cb)
      ensures if t.recurring then With(timers, old(timers), t) else timers == old(timers)
      ensures fired == if t.recurring then old(fired) else old(fired) + {t}
      ensures t.cb == if t.recurring then old(t.cb) else None
      ensures t.next == if t.recurring then now + t.ms else old(t.next)
    {
      cb := t.cb.value;
      if t.recurring {
        t.next := now + t.ms;
        var front;
        timers, front := Inserted(timers, t);
      } else {
        t.cb := None;
        fired := fired + {t};
      }
    }

    // The loop over the timers taken out: recurring ones go back in at now + period, without
    // the front check; the others lose their callback.
    method HandOut(due: seq<Timer>, now: nat) returns (cbs: seq<Callback>)
      requires Sorted(timers)
      requires forall t :: t in timers ==> t in all
      requires forall t :: t in due ==> t in all && t !in timers && t.cb.Some?
      requires forall i, j :: 0 <= i < j < |due| ==> due[i] != due[j]
      requires forall s, t :: s in due && t in due && s.addr == t.addr ==> s == t
      requires forall s, t :: s in due && t in timers ==> s.addr != t.addr
      modifies this`timers, this`fired, due`next, due`cb
      ensures Sorted(timers)
      ensures forall t :: t in timers ==> t in old(timers) || (t in due && t.recurring)
      ensures forall t :: t in old(timers) || (t in due && t.recurring) ==> t in timers
      ensures |cbs| == |due| && forall i :: 0 <= i < |cbs| ==> old(due[i].cb) == Some(cbs[i])
      ensures forall t :: t in fired <==> t in old(fired) || (t in due && !t.recurring)
      ensures forall t :: t in due ==> t.cb == if t.recurring then old(t.cb) else None
      ensures forall t :: t in due ==> t.next == if t.recurring then now + t.ms else old(t.next)
    {
      cbs := [];
      ghost var done: seq<Timer> := [];
      for k := 0 to |due|
        invariant Sorted(timers) && done == due[..k]
        invariant forall t :: t in timers ==> t in old(timers) || (t in done && t.recurring)
        invariant forall t :: t in old(timers) || (t in done && t.recurring) ==> t in timers
        invariant |cbs| == k && forall i :: 0 <= i < k ==> old(due[i].cb) == Some(cbs[i])
        invariant forall t :: t in fired <==> t in old(fired) || (t in done && !t.recurring)
        invariant forall t :: t in done ==> t.cb == if t.recurring then old(t.cb) else None
        invariant forall t :: t in done ==> t.next == if t.recurring then now + t.ms else old(t.next)
        invariant forall i :: k <= i < |due| ==> due[i].cb == old(due[i].cb) && due[i].next == old(due[i].next)
      {
        assert due[k] !in done && due[k] in due;
        var cb := HandOne(due[k], now);
        cbs := cbs + [cb];
        done := done + [due[k]];
      }
      assert done == due;
    }

    // Takes the first k timers out and hands out their callbacks.
    method FindDue(now: nat, probe: nat) returns (k: nat)
      requires Valid() && timers != [] && (monotone ==> previous <= now)
      modifies this`previous
      ensures Valid() && previous == now && k <= |timers|
      ensures forall i :: 0 <= i < |timers| ==> (i < k <==> RolledOver(old(previous), now) || timers[i].next <= now)
      ensures monotone ==> forall i :: 0 <= i < k ==> timers[i].next <= now
    {
      var rollover := DetectClockRollover(now);
      k := CountDue(now, probe, rollover);
    }

    method Expire(k: nat, now: nat) returns (cbs: seq<Callback>)
      requires Valid() && k <= |timers|
      requires monotone ==> now <= clock && forall i :: 0 <= i < k ==> timers[i].next <= now
      modifies this`timers, this`fired, all`next, all`cb
      ensures Valid()
      ensures |cbs| == k && forall i :: 0 <= i < k ==> old(timers[i].cb) == Some(cbs[i])
      ensures forall t :: t in old(timers[..k]) ==> (t in timers <==> t.recurring)
      ensures forall t :: t in old(timers[..k]) ==> (t in fired <==> !t.recurring)
      ensures forall t :: t in old(timers[..k]) ==> t.cb == if t.recurring then old(t.cb) else None
      ensures forall t :: t in old(timers[..k]) ==> t.next == if t.recurring then now + t.ms else old(t.next)
      ensures forall t :: t in all && t !in old(timers[..k]) ==>
        (t in timers <==> t in old(timers)) && t.cb == old(t.cb) && t.next == old(t.next)
    {
      var due, rest := timers[..k], timers[k..];
      Split(timers, k);
      timers := rest;
      cbs := HandOut(due, now);
    }

    // Hands out the callbacks of the timers that are due, in deadline order: without rollover
    // those at or before now, with it all of them. `due` is how many. The clock is read before
    // the lock is taken.
    method ListExpiredCb(now: nat, probe: nat, ghost time: nat) returns (cbs: seq<Callback>, ghost due: nat)
      requires Valid()
      modifies this`timers, this`previous, this`fired, this`clock, this`monotone, all`next, all`cb
      ensures Valid()
      ensures due <= |old(timers)| && forall i :: 0 <= i < |old(timers)| ==>
        (i < due <==> RolledOver(old(previous), now) || old(timers[i].next) <= now)
      ensures |cbs| == due && forall i :: 0 <= i < due ==> old(timers[i].cb) == Some(cbs[i])
      ensures forall t :: t in old(timers[..due]) ==> (t in timers <==> t.recurring)
      ensures forall t :: t in old(timers[..due]) ==> (t in fired <==> !t.recurring)
      ensures forall t :: t in old(timers[..due]) ==> t.cb == if t.recurring then old(t.cb) else None
      ensures forall t :: t in old(timers[..due]) ==> t.next == if t.recurring then now + t.ms else old(t.next)
      ensures forall t :: t in all && t !in old(timers[..due]) ==>
        (t in timers <==> t in old(timers)) && t.cb == old(t.cb) && t.next == old(t.next)
      ensures previous == if old(timers) == [] then old(previous) else now
      ensures clock == time
      ensures monotone <==> old(monotone) && old(clock) <= time && old(previous) <= now <= time
    {
      ReadClock(now, time);
      monotone := monotone && previous <= now;
      if timers == [] {
        return [], 0;
      }
      var k := FindDue(now, probe);
      due := k;
      cbs := Expire(k, now);
    }
  }

  // The waiter's guarantee in every state the operations reach: with a real time that never went
  // back, however late a reading is used, a front timer earlier than the deadline the waiter saw has raised the flag.
  lemma FrontIsAnnounced(m: TimerManager)
    requires m.Valid() && m.monotone && m.timers != []
    ensures m.tickled || (m.seen.Some? && m.seen.value <= m.timers[0].next)
    ensures forall t :: t in m.timers ==> m.timers[0].next <= t.next
  {
    assert m.timers[0] in m.timers;
    forall t | t in m.timers
      ensures m.timers[0].next <= t.next
    {
      var i :| 0 <= i < |m.timers| && m.timers[i] == t;
      if i > 0 {
        assert Less(m.timers[0], m.timers[i]);
      }
    }
  }

  // Cutting the ordered set loses and repeats nothing.
  lemma Split(ts: seq<Timer>, k: nat)
    requires Sorted(ts) && k <= |ts|
    ensures Sorted(ts[k..])
    ensures forall t :: t in ts ==> t in ts[..k] || t in ts[k..]
    ensures forall t :: t in ts[..k] ==> t in ts && t !in ts[k..]
    ensures forall t :: t in ts[k..] ==> t in ts
    ensures forall i, j :: 0 <= i < j < k ==> ts[..k][i] != ts[..k][j]
  {
    forall i, j | 0 <= i < j < |ts|
      ensures ts[i] != ts[j]
    {
      assert Less(ts[i], ts[j]);
    }
    forall t | t in ts
      ensures t in ts[..k] || t in ts[k..]
    {
      var i :| 0 <= i < |ts| && ts[i] == t;
      if i < k { assert ts[..k][i] == t; } else { assert ts[k..][i - k] == t; }
    }
  }
}
