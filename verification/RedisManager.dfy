/** sherry/db/redis.cc: the pools of named Redis connections. A synchronous connection is leased
    and comes back; an asynchronous one is shared and goes to the end of its list at once. */
module RedisManagers {
  import Bits
  import opened Wrappers

  datatype Kind = REDIS | REDIS_CLUSTER | FOX_REDIS | FOX_REDIS_CLUSTER

  class Redis {
    const name: string
    const kind: Kind
    var lastActive: int

    constructor (name: string, kind: Kind, now: int)
      ensures this.name == name && this.kind == kind && lastActive == now
    {
      this.name, this.kind := name, kind;
      lastActive := now;
    }
  }

  // A pool of the configuration; a type that init does not know has no kind.
  datatype Pool = Pool(name: string, kind: Option<Kind>, size: nat)

  // The names the configuration gives connections to.
  ghost predicate Configured(config: seq<Pool>, name: string) {
    exists i :: 0 <= i < |config| && config[i].name == name && config[i].kind.Some? && config[i].size > 0
  }

  function ListOf(datas: map<string, seq<Redis>>, name: string): seq<Redis> {
    if name in datas then datas[name] else []
  }

  predicate Async(r: Redis) {
    r.kind.FOX_REDIS? || r.kind.FOX_REDIS_CLUSTER?
  }

  ghost predicate Distinct(s: seq<Redis>) {
    forall i, j :: 0 <= i < j < |s| ==> s[i] != s[j]
  }

  class RedisManager {
    var datas: map<string, seq<Redis>>

    ghost var all: set<Redis>       // the initial pools
    ghost var leased: set<Redis>    // handed out and not yet freed
    ghost var inHand: set<Redis>    // taken by a get that is still checking the connection

    // Each connection is once in the list of its own name, or leased, or in a get's hand.
    ghost predicate Valid()
      reads this
    {
      && (forall n, r :: n in datas && r in datas[n] ==> r in all && r.name == n && r !in leased && r !in inHand)
      && (forall n :: n in datas ==> Distinct(datas[n]))
      && leased <= all && inHand <= all && leased !! inHand
      && (forall r :: r in all ==> r in leased || r in inHand || (r.name in datas && r in datas[r.name]))
      && (forall r :: r in leased ==> !Async(r) && r.name in datas)
      && (forall r :: r in inHand ==> !Async(r) && r.name in datas)
    }

    // init, up to the point where every connection has been counted.
    constructor (config: seq<Pool>, now: int)
      requires forall i, j :: 0 <= i < j < |config| ==> config[i].name != config[j].name
      ensures Valid() && fresh(all) && leased == {} && inHand == {}
      ensures forall n :: n in datas <==> Configured(config, n)
      ensures forall i :: 0 <= i < |config| && config[i].kind.Some? ==>
        && |ListOf(datas, config[i].name)| == config[i].size
        && forall r :: r in ListOf(datas, config[i].name) ==> r.kind == config[i].kind.value
    {
      datas, all, leased, inHand := map[], {}, {}, {};
      new;
      for i := 0 to |config|
        invariant Valid() && fresh(all) && leased == {} && inHand == {}
        invariant forall n :: n in datas <==> Configured(config[..i], n)
        invariant forall j :: 0 <= j < i && config[j].kind.Some? ==> Filled(config[j])
      {
        Extends(config, i);
        if config[i].kind.Some? {
          Fill(config[i], now);
        }
      }
      assert config[..|config|] == config;
    }

    ghost predicate Filled(pool: Pool)
      requires pool.kind.Some?
      reads this
    {
      |ListOf(datas, pool.name)| == pool.size && forall r :: r in ListOf(datas, pool.name) ==> r.kind == pool.kind.value
    }

    // One connection joins the list of its name.
    method Connect(name: string, kind: Kind, now: int)
      requires Valid()
      modifies this`datas, this`all
      ensures Valid() && fresh(all - old(all)) && old(all) <= all
      ensures exists r: Redis :: r.kind == kind && datas == old(datas)[name := ListOf(old(datas), name) + [r]]
    {
      var r := new Redis(name, kind, now);
      datas := datas[name := ListOf(datas, name) + [r]];
      all := all + {r};
    }

    method Fill(pool: Pool, now: int)
      requires Valid() && pool.kind.Some? && pool.name !in datas
      modifies this`datas, this`all
      ensures Valid() && fresh(all - old(all)) && Filled(pool)
      ensures forall n :: n in datas <==> n in old(datas) || (n == pool.name && pool.size > 0)
      ensures forall n :: n in old(datas) ==> n in datas && datas[n] == old(datas[n])
    {
      for i := 0 to pool.size
        invariant Valid() && fresh(all - old(all)) && Filled(pool.(size := i))
        invariant forall n :: n in datas <==> n in old(datas) || (n == pool.name && i > 0)
        invariant forall n :: n in old(datas) ==> n in datas && datas[n] == old(datas[n])
      {
        Connect(pool.name, pool.kind.value, now);
      }
    }

    // The first locked section of get.
    method Take(name: string) returns (r: Option<Redis>)
      requires Valid()
      modifies this`datas, this`inHand
      ensures Valid()
      ensures r.None? <==> name !in old(datas) || old(datas[name]) == []
      ensures r.None? ==> datas == old(datas) && inHand == old(inHand)
      ensures r.Some? ==> r.value == old(datas[name])[0]
      ensures r.Some? && Async(r.value) ==>
        datas == old(datas)[name := old(datas[name])[1..] + [r.value]] && inHand == old(inHand)
      ensures r.Some? && !Async(r.value) ==>
        datas == old(datas)[name := old(datas[name])[1..]] && inHand == old(inHand) + {r.value}
    {
      if name !in datas || datas[name] == [] {
        return None;
      }
      var list := datas[name];
      var front := list[0];
      assert list == [front] + list[1..];
      if Async(front) {
        datas := datas[name := list[1..] + [front]];
      } else {
        datas := datas[name := list[1..]];
        inHand := inHand + {front};
      }
      r := Some(front);
    }

    method PushBack(r: Redis)
      requires r.name in datas && r !in datas[r.name] && Distinct(datas[r.name])
      modifies this`datas
      ensures datas == old(datas)[r.name := old(datas[r.name]) + [r]]
      ensures Distinct(datas[r.name])
    {
      datas := datas[r.name := datas[r.name] + [r]];
    }

    // The rest of get for a synchronous connection: one that was quiet for over 30 seconds is
    // pinged and, failing that, reconnected; if that fails too it goes back to its list.
    method Settle(r: Redis, now: int, pingOk: bool, reconnectOk: bool) returns (ok: bool)
      requires Valid() && r in inHand
      modifies this`datas, this`leased, this`inHand, r`lastActive
      ensures Valid() && inHand == old(inHand) - {r}
      ensures ok <==> now - old(r.lastActive) <= 30 || pingOk || reconnectOk
      ensures ok ==> leased == old(leased) + {r} && datas == old(datas) && r.lastActive == now
      ensures !ok ==> leased == old(leased) && r.lastActive == old(r.lastActive) && datas == old(datas)[r.name := old(datas[r.name]) + [r]]
    {
      inHand := inHand - {r};
      if now - r.lastActive > 30 && !pingOk && !reconnectOk {
        PushBack(r);
        return false;
      }
      r.lastActive := now;
      leased := leased + {r};
      ok := true;
    }

    method Get(name: string, now: int, pingOk: bool, reconnectOk: bool) returns (r: Option<Redis>)
      requires Valid()
      modifies this`datas, this`leased, this`inHand, all`lastActive
      ensures Valid() && inHand == old(inHand)
      ensures var list := ListOf(old(datas), name);
        if list == [] then r == None && datas == old(datas)
        else
          var front, rest := list[0], list[1..];
          if Async(front) then r == Some(front) && datas == old(datas)[name := rest + [front]]
          else if now - old(front.lastActive) <= 30 || pingOk || reconnectOk then
            r == Some(front) && datas == old(datas)[name := rest] && front.lastActive == now
          else r == None && datas == old(datas)[name := rest + [front]]
      ensures leased == if r.Some? && !Async(r.value) then old(leased) + {r.value} else old(leased)
      ensures forall x :: x in all && (r != Some(x) || Async(x)) ==> x.lastActive == old(x.lastActive)
    {
      r := Take(name);
      if r.Some? && !Async(r.value) {
        var ok := Settle(r.value, now, pingOk, reconnectOk);
        if !ok {
          r := None;
        }
      }
    }

    method FreeRedis(r: Redis)
      requires Valid() && r in leased
      modifies this`datas, this`leased
      ensures Valid() && leased == old(leased) - {r}
      ensures datas == old(datas)[r.name := old(datas[r.name]) + [r]]
    {
      leased := leased - {r};
      PushBack(r);
    }

    method GetShared(name: string, now: int, pingOk: bool, reconnectOk: bool, ghost pool: seq<Redis>, ghost i: nat)
      returns (r: Redis)
      requires Valid() && name in datas && pool != [] && datas[name] == Rotated(pool, i)
      requires forall r :: r in pool ==> Async(r)
      modifies this`datas, this`leased, this`inHand, all`lastActive
      ensures Valid() && name in datas && datas[name] == Rotated(pool, i + 1)
      ensures inHand == old(inHand) && leased == old(leased) && r == pool[Turn(i, |pool|)]
    {
      RotatedFront(pool, i);
      assert datas[name][0] in datas[name];
      var got := Get(name, now, pingOk, reconnectOk);
      r := got.value;
    }

    // k gets from a pool of asynchronous connections go round it in turn.
    method GetInTurn(name: string, k: nat, now: int, pingOk: bool, reconnectOk: bool) returns (served: seq<Redis>)
      requires Valid() && name in datas && datas[name] != [] && forall r :: r in datas[name] ==> Async(r)
      modifies this`datas, this`leased, this`inHand, all`lastActive
      ensures Valid() && |served| == k && inHand == old(inHand) && leased == old(leased)
      ensures InTurn(old(datas[name]), served)
    {
      served := [];
      ghost var pool := datas[name];
      for i := 0 to k
        invariant Valid() && name in datas && inHand == old(inHand) && leased == old(leased) && |served| == i
        invariant datas[name] == Rotated(pool, i)
        invariant InTurn(pool, served)
      {
        var r := GetShared(name, now, pingOk, reconnectOk, pool, i);
        served := served + [r];
      }
    }

    // They serve each connection the floor or the ceiling of k / n times.
    method GetMany(name: string, k: nat, now: int, pingOk: bool, reconnectOk: bool) returns (served: seq<Redis>)
      requires Valid() && name in datas && datas[name] != [] && forall r :: r in datas[name] ==> Async(r)
      modifies this`datas, this`leased, this`inHand, all`lastActive
      ensures Valid() && |served| == k && leased == old(leased)
      ensures forall r :: r in old(datas[name]) ==> FairShare(Times(served, r), k, |old(datas[name])|)
    {
      ghost var pool := datas[name];
      served := GetInTurn(name, k, now, pingOk, reconnectOk);
      AllFair(pool, served);
    }
  }

  lemma Extends(config: seq<Pool>, i: nat)
    requires i < |config|
    ensures forall n :: Configured(config[..i + 1], n) <==>
      Configured(config[..i], n) || (config[i].name == n && config[i].kind.Some? && config[i].size > 0)
  {
    var more := config[..i + 1];
    assert more == config[..i] + [config[i]];
    forall n | Configured(config[..i], n)
      ensures Configured(more, n)
    {
      var j :| 0 <= j < i && config[..i][j].name == n && config[..i][j].kind.Some? && config[..i][j].size > 0;
      assert more[j] == config[..i][j];
    }
    forall n | config[i].name == n && config[i].kind.Some? && config[i].size > 0
      ensures Configured(more, n)
    {
      assert more[i] == config[i];
    }
  }

  ghost predicate InTurn(pool: seq<Redis>, served: seq<Redis>)
    requires pool != []
  {
    forall j :: 0 <= j < |served| ==> served[j] == pool[Turn(j, |pool|)]
  }

  // j % n, stepwise.
  function Turn(j: nat, n: nat): (t: nat)
    requires n > 0
    ensures t < n
  {
    if j == 0 then 0 else if Turn(j - 1, n) == n - 1 then 0 else Turn(j - 1, n) + 1
  }

  function Rotated(s: seq<Redis>, k: nat): (r: seq<Redis>)
    ensures |r| == |s|
  {
    if k == 0 || s == [] then s
    else
      var r := Rotated(s, k - 1);
      r[1..] + [r[0]]
  }

  lemma {:induction false} TurnSmall(j: nat, n: nat)
    requires j < n
    ensures Turn(j, n) == j
  {
    if j > 0 {
      TurnSmall(j - 1, n);
    }
  }

  lemma {:induction false} TurnPeriod(j: nat, n: nat)
    requires n > 0
    ensures Turn(j + n, n) == Turn(j, n)
  {
    if j == 0 {
      TurnSmall(n - 1, n);
    } else {
      TurnPeriod(j - 1, n);
    }
  }

  lemma {:induction false} RotatedIs(s: seq<Redis>, k: nat)
    requires s != []
    ensures forall i :: 0 <= i < |s| ==> Rotated(s, k)[i] == s[Turn(k + i, |s|)]
  {
    forall i | 0 <= i < |s|
      ensures Rotated(s, k)[i] == s[Turn(k + i, |s|)]
    {
      if k == 0 {
        TurnSmall(i, |s|);
      } else {
        RotatedIs(s, k - 1);
        var before := Rotated(s, k - 1);
        if i < |s| - 1 {
          assert before[i + 1] == s[Turn(k - 1 + (i + 1), |s|)];
        } else {
          assert before[0] == s[Turn(k - 1 + 0, |s|)];
          TurnPeriod(k - 1, |s|);
        }
      }
    }
  }

  lemma RotatedFront(s: seq<Redis>, k: nat)
    requires s != []
    ensures forall r :: r in Rotated(s, k) ==> r in s
    ensures Rotated(s, k)[0] == s[Turn(k, |s|)]
  {
    RotatedIs(s, k);
    assert Rotated(s, k)[0] == s[Turn(k + 0, |s|)];
  }

  ghost function Times(s: seq<Redis>, r: Redis): nat {
    if s == [] then 0 else Times(s[..|s| - 1], r) + if s[|s| - 1] == r then 1 else 0
  }

  // How many of the turns 0..k fall on i.
  ghost function Share(i: nat, k: nat, n: nat): nat
    requires n > 0
  {
    if k == 0 then 0 else Share(i, k - 1, n) + if Turn(k - 1, n) == i then 1 else 0
  }

  // The floor or the ceiling of k / n.
  ghost predicate FairShare(times: nat, k: nat, n: nat)
    requires n > 0
  {
    times == k / n || (k % n != 0 && times == k / n + 1)
  }

  lemma {:induction false} TimesIsShare(pool: seq<Redis>, served: seq<Redis>, i: nat)
    requires Distinct(pool) && i < |pool| && InTurn(pool, served)
    ensures Times(served, pool[i]) == Share(i, |served|, |pool|)
  {
    if served != [] {
      var k := |served| - 1;
      TimesIsShare(pool, served[..k], i);
      var t := Turn(k, |pool|);
      assert served[k] == pool[t];
      assert t != i ==> pool[t] != pool[i];
    }
  }

  // After q full rounds and t more turns a place has had q turns, and one more if it is below t.
  lemma {:induction false} ShareIs(i: nat, k: nat, n: nat) returns (q: nat)
    requires i < n
    ensures k == q * n + Turn(k, n)
    ensures Share(i, k, n) == q + if i < Turn(k, n) then 1 else 0
  {
    if k == 0 {
      q := 0;
    } else {
      q := ShareIs(i, k - 1, n);
      if Turn(k - 1, n) == n - 1 {
        q := q + 1;
      }
    }
  }

  lemma ShareIsFair(i: nat, k: nat, n: nat)
    requires i < n
    ensures FairShare(Share(i, k, n), k, n)
  {
    var q := ShareIs(i, k, n);
    Bits.DivModUnique(k, q, Turn(k, n), n);
  }

  lemma AllFair(pool: seq<Redis>, served: seq<Redis>)
    requires Distinct(pool) && pool != [] && InTurn(pool, served)
    ensures forall r :: r in pool ==> FairShare(Times(served, r), |served|, |pool|)
  {
    forall r | r in pool
      ensures FairShare(Times(served, r), |served|, |pool|)
    {
      var i :| 0 <= i < |pool| && pool[i] == r;
      TimesIsShare(pool, served, i);
      ShareIsFair(i, |served|, |pool|);
    }
  }
}
