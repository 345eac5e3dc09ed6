/** IPv6Address::insert of sherry/address.cc: the flag-driven loop that prints an address and
    port, and a reader for the text form of section 2.2 of RFC 4291 that undoes it. */
module Ipv6 {
  import opened Bits
  import opened Codec
  import opened Wrappers

  // ---- digits ------------------------------------------------------------------------

  function DigitChar(d: nat): (c: char)
    requires d < 16
  {
    if d < 10 then (d + '0' as int) as char else (d - 10 + 'a' as int) as char
  }

  function DigitValue(c: char): Option<nat> {
    if '0' <= c <= '9' then Some(c as int - '0' as int)
    else if 'a' <= c <= 'f' then Some(c as int - 'a' as int + 10)
    else None
  }

  predicate AllDigits(s: string) { forall i :: 0 <= i < |s| ==> DigitValue(s[i]).Some? }

  // std::hex and std::dec output: most significant digit first, no leading zeros.
  function Hex(n: nat): (s: string)
    ensures |s| >= 1 && AllDigits(s)
  {
    if n < 16 then [DigitChar(n)] else Hex(n / 16) + [DigitChar(n % 16)]
  }

  function Dec(n: nat): (s: string)
    ensures |s| >= 1 && AllDigits(s)
  {
    if n < 10 then [DigitChar(n)] else Dec(n / 10) + [DigitChar(n % 10)]
  }

  // The number that a string of digits below b writes.
  function Number(s: string, b: nat): Option<nat> {
    if s == [] then None
    else
      match DigitValue(s[|s| - 1])
      case None => None
      case Some(d) =>
        if d >= b then None
        else if |s| == 1 then Some(d)
        else match Number(s[..|s| - 1], b)
             case None => None
             case Some(n) => Some(n * b + d)
  }

  lemma {:induction false} HexRoundTrip(n: nat)
    ensures Number(Hex(n), 16) == Some(n)
  {
    if n >= 16 {
      HexRoundTrip(n / 16);
      assert Hex(n)[..|Hex(n)| - 1] == Hex(n / 16);
    }
  }

  lemma {:induction false} DecRoundTrip(n: nat)
    ensures Number(Dec(n), 10) == Some(n)
  {
    if n >= 10 {
      DecRoundTrip(n / 10);
      assert Dec(n)[..|Dec(n)| - 1] == Dec(n / 10);
    }
  }

  // No leading zeros.
  lemma {:induction false} HexShape(n: nat)
    ensures |Hex(n)| > 1 ==> Hex(n)[0] != '0'
  {
    if n >= 16 {
      HexShape(n / 16);
    }
  }

  lemma GroupHasFourDigits(n: nat)
    requires n < 0x10000
    ensures |Hex(n)| <= 4
  {
    if n >= 16 {
      assert |Hex(n)| == |Hex(n / 16)| + 1;
      if n / 16 >= 16 {
        assert |Hex(n / 16)| == |Hex(n / 16 / 16)| + 1;
        assert |Hex(n / 16 / 16)| <= 2;
      }
    }
  }

  // ---- the printed form --------------------------------------------------------------

  predicate Groups(gs: seq<nat>) { forall i :: 0 <= i < |gs| ==> gs[i] < 0x10000 }

  // x:x:...:x
  function Join(gs: seq<nat>): string {
    if gs == [] then ""
    else if |gs| == 1 then Hex(gs[0])
    else Join(gs[..|gs| - 1]) + ":" + Hex(gs[|gs| - 1])
  }

  // z is where the first run of zero groups starts and e where it ends.
  ghost predicate FirstRun(gs: seq<nat>, z: nat, e: nat) {
    && z <= e <= |gs|
    && (forall i :: 0 <= i < z ==> gs[i] != 0)
    && (forall i :: z <= i < e ==> gs[i] == 0)
    && (e < |gs| ==> gs[e] != 0)
    && (z == e ==> z == |gs|)
  }

  // The first run of zero groups, and only it, is written "::".
  ghost function Compressed(gs: seq<nat>, z: nat, e: nat): string
    requires z <= e <= |gs|
  {
    if z == e then Join(gs) else Join(gs[..z]) + "::" + Join(gs[e..])
  }

  // byteswap of a 16-bit word: the words of the socket address are in network order and
  // the host is little endian.
  function Swap16(w: nat): nat { (w % 256) * 256 + w / 256 }

  function GroupsOf(words: seq<nat>): (gs: seq<nat>)
    ensures |gs| == |words|
    ensures forall i :: 0 <= i < |words| ==> gs[i] == Swap16(words[i])
  {
    seq(|words|, i requires 0 <= i < |words| => Swap16(words[i]))
  }

  lemma Swap16Is(w: nat)
    requires w < 0x10000
    ensures Swap16(w) == Byteswap(w, 2) < 0x10000
    ensures Swap16(w) == 0 <==> w == 0
    ensures Swap16(Swap16(w)) == w
  {
    assert ToBytes(w, 2) == [w % 256] + ToBytes(w / 256, 1);
    assert ToBytes(w / 256, 1) == [(w / 256) % 256] + ToBytes(w / 256 / 256, 0);
    assert (w / 256) % 256 == w / 256;
    var r := Reverse(ToBytes(w, 2));
    assert r == [w / 256, w % 256];
    assert r[1..] == [w % 256] && [w % 256][1..] == [];
    assert FromBytes([w % 256]) == w % 256 + 256 * FromBytes([]);
    var v := (w % 256) * 256 + w / 256;
    assert v % 256 == w / 256 && v / 256 == w % 256;
  }

  // What the loop has printed before group i: z and e delimit the first zero run so far.
  ghost function Printed(gs: seq<nat>, z: nat, e: nat, i: nat): string
    requires z <= e <= i <= |gs|
  {
    if z < e < i then Join(gs[..z]) + "::" + Join(gs[e..i]) else Join(gs[..z])
  }

  method Insert(words: seq<nat>, portWord: nat) returns (os: string, ghost z: nat, ghost e: nat)
    requires |words| == 8 && Groups(words) && portWord < 0x10000
    ensures FirstRun(GroupsOf(words), z, e)
    ensures os == "[" + Compressed(GroupsOf(words), z, e) + "]:" + Dec(Swap16(portWord))
  {
    os := "[";
    var body;
    body, z, e := PrintGroups(words);
    os := os + body + "]:" + Dec(Swap16(portWord));
  }

  method PrintGroups(words: seq<nat>) returns (os: string, ghost z: nat, ghost e: nat)
    requires |words| == 8 && Groups(words)
    ensures FirstRun(GroupsOf(words), z, e) && os == Compressed(GroupsOf(words), z, e)
  {
    ghost var gs := GroupsOf(words);
    os := "";
    var usedZeros := false;
    z, e := 0, 0;
    for i := 0 to 8
      invariant z <= e <= i
      invariant forall k :: 0 <= k < z ==> words[k] != 0
      invariant forall k :: z <= k < e ==> words[k] == 0
      invariant usedZeros <==> z < e < i
      invariant if usedZeros then words[e] != 0 else e == i
      invariant os == Printed(gs, z, e, i)
    {
      if words[i] == 0 && !usedZeros {
        e := i + 1;
        continue;
      }
      PrintStep(gs, z, e, i);
      if i != 0 && words[i - 1] == 0 && !usedZeros {
        os := os + ":";
        usedZeros := true;
      }
      if i != 0 {
        os := os + ":";
      }
      os := os + Hex(Swap16(words[i]));
      if !usedZeros {
        z, e := i + 1, i + 1;
      }
    }
    if !usedZeros && words[7] == 0 {
      os := os + "::";
    }
    FinishPrint(words, gs, z, e);
  }

  // Printing group i behind what is there: after a run, after a group, or first of all.
  lemma PrintStep(gs: seq<nat>, z: nat, e: nat, i: nat)
    requires z <= e <= i < |gs|
    ensures z < e == i ==> Printed(gs, z, e, i) + ":" + ":" + Hex(gs[i]) == Printed(gs, z, e, i + 1)
    ensures z < e < i ==> Printed(gs, z, e, i) + ":" + Hex(gs[i]) == Printed(gs, z, e, i + 1)
    ensures z == e == i > 0 ==> Printed(gs, z, e, i) + ":" + Hex(gs[i]) == Printed(gs, i + 1, i + 1, i + 1)
    ensures z == e == i == 0 ==> Printed(gs, z, e, i) + Hex(gs[i]) == Printed(gs, 1, 1, 1)
  {
    if z < e {
      JoinSnoc(gs, e, i);
      var left := Join(gs[..z]);
      if e == i {
        assert left + ":" + ":" + Hex(gs[i]) == left + "::" + Hex(gs[i]);
      } else {
        var run := Join(gs[e..i]);
        assert left + "::" + run + ":" + Hex(gs[i]) == left + "::" + (run + ":" + Hex(gs[i]));
      }
    } else {
      JoinSnoc(gs, 0, i);
      assert gs[0..i] == gs[..i] && gs[0..i + 1] == gs[..i + 1];
    }
  }

  lemma FinishPrint(words: seq<nat>, gs: seq<nat>, z: nat, e: nat)
    requires |words| == 8 && Groups(words) && gs == GroupsOf(words) && z <= e <= 8
    requires (forall k :: 0 <= k < z ==> words[k] != 0) && (forall k :: z <= k < e ==> words[k] == 0)
    requires if z < e < 8 then words[e] != 0 else e == 8
    ensures FirstRun(gs, z, e)
    ensures Compressed(gs, z, e) == Printed(gs, z, e, 8) + (if z < e == 8 then "::" else "")
  {
    forall k | 0 <= k < 8
      ensures gs[k] == 0 <==> words[k] == 0
    {
      Swap16Is(words[k]);
    }
    assert gs[..8] == gs && gs[e..8] == gs[e..];
    assert Join(gs[8..]) == "";
  }

  lemma JoinSnoc(gs: seq<nat>, a: nat, i: nat)
    requires a <= i < |gs|
    ensures Join(gs[a..i + 1]) == (if a == i then "" else Join(gs[a..i]) + ":") + Hex(gs[i])
  {
    var s := gs[a..i + 1];
    assert s[..|s| - 1] == gs[a..i] && s[|s| - 1] == gs[i];
  }

  // ---- reading it back: section 2.2 of RFC 4291 ------------------------------------------

  function LastColon(s: string): (k: int)
    ensures -1 <= k < |s|
  {
    if s == "" then -1 else if s[|s| - 1] == ':' then |s| - 1 else LastColon(s[..|s| - 1])
  }

  // x:x:...:x with one to four hexadecimal digits in each x.
  function Fields(s: string): Option<seq<nat>>
    decreases |s|
  {
    var k := LastColon(s);
    var field := s[k + 1..];
    match Number(field, 16)
    case None => None
    case Some(v) =>
      if |field| > 4 then None
      else if k == -1 then Some([v])
      else match Fields(s[..k])
           case None => None
           case Some(gs) => Some(gs + [v])
  }

  // Where "::" first occurs; the length of s when it does not.
  function FindDouble(s: string): (k: nat)
    ensures k <= |s| && (k < |s| ==> k + 2 <= |s|)
  {
    if |s| < 2 then |s| else if s[0] == ':' && s[1] == ':' then 0 else 1 + FindDouble(s[1..])
  }

  function FieldsOrNone(s: string): Option<seq<nat>> {
    if s == "" then Some([]) else Fields(s)
  }

  function Zeros(n: nat): (s: seq<nat>)
    ensures |s| == n && forall i :: 0 <= i < n ==> s[i] == 0
  {
    seq(n, _ => 0)
  }

  // Eight groups, or a "::" that stands for the missing ones, at least one.
  function Parse(s: string): Option<seq<nat>> {
    var k := FindDouble(s);
    if k == |s| then
      match Fields(s)
      case None => None
      case Some(gs) => if |gs| == 8 then Some(gs) else None
    else
      match (FieldsOrNone(s[..k]), FieldsOrNone(s[k + 2..]))
      case (Some(l), Some(r)) =>
        if |l| + |r| <= 7 then Some(l + Zeros(8 - |l| - |r|) + r) else None
      case _ => None
  }

  function FindChar(s: string, c: char): (k: nat)
    ensures k <= |s|
  {
    if s == "" then 0 else if s[0] == c then 0 else 1 + FindChar(s[1..], c)
  }

  // [address]:port
  function ParseEndpoint(s: string): Option<(seq<nat>, nat)> {
    var k := FindChar(s, ']');
    if |s| == 0 || s[0] != '[' || k < 1 || k + 2 > |s| || s[k + 1] != ':' then None
    else
      match (Parse(s[1..k]), Number(s[k + 2..], 10))
      case (Some(gs), Some(port)) => if port < 0x10000 then Some((gs, port)) else None
      case _ => None
  }

  lemma {:induction false} LastColonBefore(a: string, d: string)
    requires AllDigits(d)
    ensures LastColon(a + ":" + d) == |a| && LastColon(d) == -1
    decreases |d|
  {
    if d != "" {
      var d' := d[..|d| - 1];
      LastColonBefore(a, d');
      assert (a + ":" + d)[..|a + ":" + d| - 1] == a + ":" + d';
    } else {
      assert a + ":" + d == a + ":";
    }
  }

  lemma FieldsSnoc(a: string, d: string, gs: seq<nat>, v: nat)
    requires AllDigits(d) && |d| <= 4 && Number(d, 16) == Some(v) && Fields(a) == Some(gs)
    ensures Fields(a + ":" + d) == Some(gs + [v])
  {
    var s := a + ":" + d;
    LastColonBefore(a, d);
    assert s[..|a|] == a && s[|a| + 1..] == d;
  }

  lemma FieldsOne(d: string, v: nat)
    requires AllDigits(d) && |d| <= 4 && Number(d, 16) == Some(v)
    ensures Fields(d) == Some([v])
  {
    LastColonBefore("", d);
    assert d[0..] == d;
  }

  lemma HexField(v: nat)
    requires v < 0x10000
    ensures AllDigits(Hex(v)) && |Hex(v)| <= 4 && Number(Hex(v), 16) == Some(v)
  {
    HexRoundTrip(v);
    GroupHasFourDigits(v);
  }

  lemma FieldsSnocOf(s: string, a: string, d: string, front: seq<nat>, v: nat, gs: seq<nat>)
    requires s == a + ":" + d && gs == front + [v]
    requires AllDigits(d) && |d| <= 4 && Number(d, 16) == Some(v) && Fields(a) == Some(front)
    ensures Fields(s) == Some(gs)
  {
    FieldsSnoc(a, d, front, v);
  }

  lemma JoinMore(gs: seq<nat>)
    requires |gs| > 1
    ensures Join(gs) == Join(gs[..|gs| - 1]) + ":" + Hex(gs[|gs| - 1])
  {
  }

  lemma {:induction false} FieldsOfJoin(gs: seq<nat>)
    requires gs != [] && Groups(gs)
    ensures Fields(Join(gs)) == Some(gs)
  {
    var front, last := gs[..|gs| - 1], gs[|gs| - 1];
    HexField(last);
    assert gs == front + [last];
    if |gs| == 1 {
      FieldsOne(Hex(last), last);
    } else {
      FieldsOfJoin(front);
      JoinMore(gs);
      FieldsSnocOf(Join(gs), Join(front), Hex(last), front, last, gs);
    }
  }

  ghost predicate DoubleAt(s: string, i: nat) { i + 1 < |s| && s[i] == ':' && s[i + 1] == ':' }

  // Digits and single colons, none of the colons at an end.
  ghost predicate Tidy(s: string) {
    && (forall i :: 0 <= i < |s| ==> s[i] == ':' || DigitValue(s[i]).Some?)
    && (forall i :: 0 <= i < |s| ==> !DoubleAt(s, i))
    && (s != "" ==> s[0] != ':' && s[|s| - 1] != ':')
  }

  lemma TidySnoc(a: string, d: string)
    requires Tidy(a) && a != "" && AllDigits(d) && d != ""
    ensures Tidy(a + ":" + d)
  {
    var s := a + ":" + d;
    forall i | 0 <= i < |s|
      ensures !DoubleAt(s, i)
    {
      if i + 1 < |a| {
        assert !DoubleAt(a, i);
      }
    }
  }

  lemma {:induction false} JoinShape(gs: seq<nat>)
    ensures Tidy(Join(gs)) && (gs != [] ==> Join(gs) != "")
  {
    if |gs| > 1 {
      JoinShape(gs[..|gs| - 1]);
      TidySnoc(Join(gs[..|gs| - 1]), Hex(gs[|gs| - 1]));
    }
  }

  lemma {:induction false} NoDoubleFound(s: string)
    requires forall i :: 0 <= i < |s| ==> !DoubleAt(s, i)
    ensures FindDouble(s) == |s|
  {
    if |s| >= 2 {
      assert !DoubleAt(s, 0);
      forall i | 0 <= i < |s[1..]|
        ensures !DoubleAt(s[1..], i)
      {
        assert !DoubleAt(s, i + 1);
      }
      NoDoubleFound(s[1..]);
    }
  }

  lemma {:induction false} DoubleFound(l: string, r: string)
    requires forall i :: 0 <= i < |l| ==> !DoubleAt(l, i)
    requires l != "" ==> l[|l| - 1] != ':'
    ensures FindDouble(l + "::" + r) == |l|
  {
    var s := l + "::" + r;
    if l != "" {
      assert !DoubleAt(l, 0);
      forall i | 0 <= i < |l[1..]|
        ensures !DoubleAt(l[1..], i)
      {
        assert !DoubleAt(l, i + 1);
      }
      DoubleFound(l[1..], r);
      assert s[1..] == l[1..] + "::" + r;
    }
  }

  lemma FieldsOrNoneOfJoin(gs: seq<nat>)
    requires Groups(gs)
    ensures FieldsOrNone(Join(gs)) == Some(gs)
  {
    if gs != [] {
      FieldsOfJoin(gs);
      JoinShape(gs);
    }
  }

  lemma ParseParts(l: string, r: string, ls: seq<nat>, rs: seq<nat>)
    requires Tidy(l) && FieldsOrNone(l) == Some(ls) && FieldsOrNone(r) == Some(rs) && |ls| + |rs| <= 7
    ensures Parse(l + "::" + r) == Some(ls + Zeros(8 - |ls| - |rs|) + rs)
  {
    var s := l + "::" + r;
    DoubleFound(l, r);
    assert s[..|l|] == l && s[|l| + 2..] == r;
  }

  lemma ZerosBetween(gs: seq<nat>, z: nat, e: nat)
    requires FirstRun(gs, z, e)
    ensures gs == gs[..z] + Zeros(e - z) + gs[e..]
  {
  }

  // The compressed text denotes the groups it was made from.
  lemma ParseCompressed(gs: seq<nat>, z: nat, e: nat)
    requires |gs| == 8 && Groups(gs) && FirstRun(gs, z, e)
    ensures Parse(Compressed(gs, z, e)) == Some(gs)
  {
    if z == e {
      JoinShape(gs);
      NoDoubleFound(Join(gs));
      FieldsOfJoin(gs);
    } else {
      JoinShape(gs[..z]);
      FieldsOrNoneOfJoin(gs[..z]);
      FieldsOrNoneOfJoin(gs[e..]);
      ParseParts(Join(gs[..z]), Join(gs[e..]), gs[..z], gs[e..]);
      ZerosBetween(gs, z, e);
    }
  }

  lemma DoubleUnique(l: string, r: string, i: nat)
    requires Tidy(l) && Tidy(r) && DoubleAt(l + "::" + r, i)
    ensures i == |l|
  {
    if i + 1 < |l| {
      assert DoubleAt(l, i);
    } else if i >= |l| + 2 {
      assert DoubleAt(r, i - |l| - 2);
    }
  }

  // "::" occurs exactly when some group is zero, once, where the first zero run stands.
  lemma OneDouble(gs: seq<nat>, z: nat, e: nat, i: nat)
    requires FirstRun(gs, z, e)
    ensures DoubleAt(Compressed(gs, z, e), i) <==> 0 in gs && i == |Join(gs[..z])|
  {
    JoinShape(gs);
    if z < e {
      assert gs[z] == 0;
      JoinShape(gs[..z]);
      JoinShape(gs[e..]);
      if DoubleAt(Compressed(gs, z, e), i) {
        DoubleUnique(Join(gs[..z]), Join(gs[e..]), i);
      }
    }
  }

  // ---- the whole endpoint --------------------------------------------------------------

  ghost function EndpointText(gs: seq<nat>, z: nat, e: nat, port: nat): string
    requires z <= e <= |gs|
  {
    "[" + Compressed(gs, z, e) + "]:" + Dec(port)
  }

  lemma {:induction false} CharFound(a: string, c: char, b: string)
    requires forall i :: 0 <= i < |a| ==> a[i] != c
    ensures FindChar(a + [c] + b, c) == |a|
  {
    if a != "" {
      CharFound(a[1..], c, b);
      assert (a + [c] + b)[1..] == a[1..] + [c] + b;
    }
  }

  // Reading the printed text recovers the groups and the port.
  lemma EndpointReadsBack(gs: seq<nat>, z: nat, e: nat, port: nat)
    requires |gs| == 8 && Groups(gs) && FirstRun(gs, z, e) && port < 0x10000
    ensures ParseEndpoint(EndpointText(gs, z, e, port)) == Some((gs, port))
  {
    var body := Compressed(gs, z, e);
    NoBracket(gs, z, e);
    var s := EndpointText(gs, z, e, port);
    CharFound("[" + body, ']', ":" + Dec(port));
    assert s == ("[" + body) + "]" + (":" + Dec(port));
    assert s[1..|body| + 1] == body;
    assert s[|body| + 3..] == Dec(port);
    ParseCompressed(gs, z, e);
    DecRoundTrip(port);
  }

  lemma NoBracket(gs: seq<nat>, z: nat, e: nat)
    requires z <= e <= |gs|
    ensures forall i :: 0 <= i < |Compressed(gs, z, e)| ==> Compressed(gs, z, e)[i] != ']'
  {
    JoinShape(gs);
    JoinShape(gs[..z]);
    JoinShape(gs[e..]);
  }

  // Two endpoints that print alike are the same endpoint.
  lemma InsertInjective(ws: seq<nat>, p: nat, z: nat, e: nat, ws': seq<nat>, p': nat, z': nat, e': nat)
    requires |ws| == |ws'| == 8 && Groups(ws) && Groups(ws') && p < 0x10000 && p' < 0x10000
    requires FirstRun(GroupsOf(ws), z, e) && FirstRun(GroupsOf(ws'), z', e')
    requires EndpointText(GroupsOf(ws), z, e, Swap16(p)) == EndpointText(GroupsOf(ws'), z', e', Swap16(p'))
    ensures ws == ws' && p == p'
  {
    GroupsAreGroups(ws);
    GroupsAreGroups(ws');
    Swap16Is(p);
    Swap16Is(p');
    EndpointReadsBack(GroupsOf(ws), z, e, Swap16(p));
    EndpointReadsBack(GroupsOf(ws'), z', e', Swap16(p'));
    forall i | 0 <= i < 8
      ensures ws[i] == ws'[i]
    {
      Swap16Is(ws[i]);
      Swap16Is(ws'[i]);
      assert GroupsOf(ws)[i] == GroupsOf(ws')[i];
    }
  }

  lemma GroupsAreGroups(ws: seq<nat>)
    requires Groups(ws)
    ensures Groups(GroupsOf(ws))
  {
    forall i | 0 <= i < |ws|
      ensures GroupsOf(ws)[i] < 0x10000
    {
      Swap16Is(ws[i]);
    }
  }
}
