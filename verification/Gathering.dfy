/** Appending what each element of a list contributes, and what survives reordering the list. */
module Gathering {

  function Gather<S, T>(f: S -> seq<T>, s: seq<S>): seq<T> {
    if s == [] then [] else Gather(f, s[..|s| - 1]) + f(s[|s| - 1])
  }

  lemma GatherMore<S, T>(f: S -> seq<T>, s: seq<S>, x: S)
    ensures Gather(f, s + [x]) == Gather(f, s) + f(x)
  {
  }

  lemma {:induction false} GatherConcat<S, T>(f: S -> seq<T>, s: seq<S>, t: seq<S>)
    ensures Gather(f, s + t) == Gather(f, s) + Gather(f, t)
  {
    if t == [] {
      assert s + t == s;
    } else {
      var front, last := t[..|t| - 1], t[|t| - 1];
      assert s + t == (s + front) + [last];
      GatherMore(f, s + front, last);
      GatherConcat(f, s, front);
    }
  }

  lemma SplitAt<S>(s: seq<S>, k: nat)
    requires k < |s|
    ensures s == s[..k] + [s[k]] + s[k + 1..]
    ensures multiset(s[..k] + s[k + 1..]) == multiset(s) - multiset{s[k]}
  {
  }

  /** Reordering the list reorders what is gathered. */
  lemma {:induction false} GatherPermutes<S, T>(f: S -> seq<T>, s: seq<S>, t: seq<S>)
    requires multiset(s) == multiset(t)
    ensures multiset(Gather(f, s)) == multiset(Gather(f, t))
    decreases |s|
  {
    assert |multiset(s)| == |s| && |multiset(t)| == |t|;
    if s != [] {
      var front, x := s[..|s| - 1], s[|s| - 1];
      assert s == front + [x];
      assert x in multiset(t);
      var k :| 0 <= k < |t| && t[k] == x;
      SplitAt(t, k);
      GatherPermutes(f, front, t[..k] + t[k + 1..]);
      GatherConcat(f, t[..k], t[k + 1..]);
      GatherMore(f, t[..k], x);
      GatherConcat(f, t[..k] + [x], t[k + 1..]);
    }
  }

  /** What is gathered comes from some element. */
  lemma {:induction false} GatherMember<S, T>(f: S -> seq<T>, s: seq<S>, y: T)
    ensures y in Gather(f, s) <==> exists x :: x in s && y in f(x)
  {
    if s != [] {
      var front, last := s[..|s| - 1], s[|s| - 1];
      GatherMember(f, front, y);
      assert s == front + [last];
    }
  }

  lemma SameElements<T>(s: seq<T>, t: seq<T>)
    requires multiset(s) == multiset(t)
    ensures |s| == |t| && forall x :: x in s <==> x in t
  {
    assert |multiset(s)| == |s| && |multiset(t)| == |t|;
    forall x ensures x in s <==> x in t {
      assert x in s <==> x in multiset(s);
      assert x in t <==> x in multiset(t);
    }
  }

  /** An element brought to the front. */
  lemma Front<S>(s: seq<S>, x: S) returns (rest: seq<S>)
    requires x in s
    ensures multiset([x] + rest) == multiset(s)
  {
    var i :| 0 <= i < |s| && s[i] == x;
    SplitAt(s, i);
    rest := s[..i] + s[i + 1..];
  }
}
