/** Totals over the elements of a sequence, and how updates change them. */
module Sums {

  ghost function Total<T>(f: T -> nat, s: seq<T>): nat {
    if s == [] then 0 else Total(f, s[..|s| - 1]) + f(s[|s| - 1])
  }

  ghost function Gather<T, U>(f: T -> multiset<U>, s: seq<T>): multiset<U> {
    if s == [] then multiset{} else Gather(f, s[..|s| - 1]) + f(s[|s| - 1])
  }

  lemma {:induction false} TotalConcat<T>(f: T -> nat, s: seq<T>, t: seq<T>)
    ensures Total(f, s + t) == Total(f, s) + Total(f, t)
  {
    if t == [] {
      assert s + t == s;
    } else {
      var n := |t| - 1;
      assert (s + t)[..|s| + n] == s + t[..n];
      TotalConcat(f, s, t[..n]);
    }
  }

  lemma {:induction false} GatherConcat<T, U>(f: T -> multiset<U>, s: seq<T>, t: seq<T>)
    ensures Gather(f, s + t) == Gather(f, s) + Gather(f, t)
  {
    if t == [] {
      assert s + t == s;
    } else {
      var n := |t| - 1;
      assert (s + t)[..|s| + n] == s + t[..n];
      GatherConcat(f, s, t[..n]);
    }
  }

  lemma TotalAppend<T>(f: T -> nat, s: seq<T>, x: T)
    ensures Total(f, s + [x]) == Total(f, s) + f(x)
  {
    assert (s + [x])[..|s|] == s;
  }

  lemma GatherAppend<T, U>(f: T -> multiset<U>, s: seq<T>, x: T)
    ensures Gather(f, s + [x]) == Gather(f, s) + f(x)
  {
    assert (s + [x])[..|s|] == s;
  }

  lemma TotalMiddle<T>(f: T -> nat, a: seq<T>, x: T, b: seq<T>)
    ensures Total(f, (a + [x]) + b) == Total(f, a + b) + f(x)
  {
    TotalConcat(f, a, b);
    TotalConcat(f, a + [x], b);
    TotalAppend(f, a, x);
  }

  lemma Cut<T>(s: seq<T>, i: nat)
    requires i < |s|
    ensures s == (s[..i] + [s[i]]) + s[i + 1..]
  {
  }

  // Taking one element out takes its share out.
  lemma TotalRemove<T>(f: T -> nat, s: seq<T>, i: nat)
    requires i < |s|
    ensures Total(f, s[..i] + s[i + 1..]) + f(s[i]) == Total(f, s)
  {
    Cut(s, i);
    TotalMiddle(f, s[..i], s[i], s[i + 1..]);
  }

  lemma GatherMiddle<T, U>(f: T -> multiset<U>, a: seq<T>, x: T, b: seq<T>)
    ensures Gather(f, (a + [x]) + b) == Gather(f, a + b) + f(x)
  {
    GatherConcat(f, a, b);
    GatherConcat(f, a + [x], b);
    GatherAppend(f, a, x);
  }

  lemma GatherRemove<T, U>(f: T -> multiset<U>, s: seq<T>, i: nat)
    requires i < |s|
    ensures Gather(f, s[..i] + s[i + 1..]) + f(s[i]) == Gather(f, s)
  {
    Cut(s, i);
    GatherMiddle(f, s[..i], s[i], s[i + 1..]);
  }

  // Replacing one element exchanges its share.
  lemma TotalUpdate<T>(f: T -> nat, s: seq<T>, i: nat, x: T)
    requires i < |s|
    ensures Total(f, s[i := x]) + f(s[i]) == Total(f, s) + f(x)
  {
    TotalRemove(f, s, i);
    TotalRemove(f, s[i := x], i);
    assert s[i := x][..i] == s[..i] && s[i := x][i + 1..] == s[i + 1..];
  }

  lemma GatherUpdate<T, U>(f: T -> multiset<U>, s: seq<T>, i: nat, x: T)
    requires i < |s|
    ensures Gather(f, s[i := x]) + f(s[i]) == Gather(f, s) + f(x)
  {
    GatherRemove(f, s, i);
    GatherRemove(f, s[i := x], i);
    assert s[i := x][..i] == s[..i] && s[i := x][i + 1..] == s[i + 1..];
  }

  // Every element's share is inside the total.
  lemma TotalAtLeast<T>(f: T -> nat, s: seq<T>, i: nat)
    requires i < |s|
    ensures f(s[i]) <= Total(f, s)
  {
    TotalRemove(f, s, i);
  }

  lemma {:induction false} TotalSame<T>(f: T -> nat, g: T -> nat, s: seq<T>)
    requires forall i :: 0 <= i < |s| ==> f(s[i]) == g(s[i])
    ensures Total(f, s) == Total(g, s)
  {
    if s != [] {
      TotalSame(f, g, s[..|s| - 1]);
    }
  }
}
