/** Sorting strings: the result depends only on which strings there are and how often. */
module Sorting {

  /** Lexicographic order. */
  predicate Leq(a: string, b: string) {
    a == [] || (b != [] && (a[0] < b[0] || (a[0] == b[0] && Leq(a[1..], b[1..]))))
  }

  lemma {:induction false} LeqTotal(a: string, b: string)
    ensures Leq(a, b) || Leq(b, a)
    ensures Leq(a, b) && Leq(b, a) ==> a == b
  {
    if a != [] && b != [] && a[0] == b[0] {
      LeqTotal(a[1..], b[1..]);
      assert a == [a[0]] + a[1..] && b == [b[0]] + b[1..];
    }
  }

  lemma {:induction false} LeqTransitive(a: string, b: string, c: string)
    requires Leq(a, b) && Leq(b, c)
    ensures Leq(a, c)
  {
    if a != [] && a[0] == b[0] && b[0] == c[0] { LeqTransitive(a[1..], b[1..], c[1..]); }
  }

  predicate Sorted(s: seq<string>) {
    forall i :: 0 <= i < |s| - 1 ==> Leq(s[i], s[i + 1])
  }

  function Insert(x: string, s: seq<string>): seq<string> {
    if s == [] || Leq(x, s[0]) then [x] + s else [s[0]] + Insert(x, s[1..])
  }

  function Sort(s: seq<string>): seq<string> {
    if s == [] then [] else Insert(s[0], Sort(s[1..]))
  }

  lemma {:induction false} InsertContents(x: string, s: seq<string>)
    ensures multiset(Insert(x, s)) == multiset(s) + multiset{x}
  {
    if s == [] || Leq(x, s[0]) {
    } else {
      assert s == [s[0]] + s[1..];
      InsertContents(x, s[1..]);
    }
  }

  lemma {:induction false} InsertSorted(x: string, s: seq<string>)
    requires Sorted(s)
    ensures Sorted(Insert(x, s))
    ensures |Insert(x, s)| == |s| + 1 && (Insert(x, s)[0] == x || (s != [] && Insert(x, s)[0] == s[0]))
  {
    if s == [] || Leq(x, s[0]) {
    } else {
      LeqTotal(x, s[0]);
      InsertSorted(x, s[1..]);
    }
  }

  lemma {:induction false} SortSorts(s: seq<string>)
    ensures Sorted(Sort(s)) && multiset(Sort(s)) == multiset(s)
  {
    if s != [] {
      SortSorts(s[1..]);
      InsertSorted(s[0], Sort(s[1..]));
      InsertContents(s[0], Sort(s[1..]));
      assert s == [s[0]] + s[1..];
    }
  }

  lemma {:induction false} HeadLeast(s: seq<string>, x: string)
    requires Sorted(s) && x in s
    ensures Leq(s[0], x)
  {
    LeqTotal(x, x);
    if x != s[0] {
      assert x in s[1..];
      HeadLeast(s[1..], x);
      LeqTransitive(s[0], s[1], x);
    }
  }

  lemma SameHead(s: seq<string>, t: seq<string>)
    requires Sorted(s) && Sorted(t) && multiset(s) == multiset(t) && s != [] && t != []
    ensures s[0] == t[0]
  {
    assert s[0] in multiset(s) && t[0] in multiset(t);
    HeadLeast(s, t[0]);
    HeadLeast(t, s[0]);
    LeqTotal(s[0], t[0]);
  }

  lemma TailMultiset(s: seq<string>)
    requires s != []
    ensures multiset(s[1..]) == multiset(s) - multiset{s[0]}
  {
    assert s == [s[0]] + s[1..];
  }

  lemma {:induction false} SortedUnique(s: seq<string>, t: seq<string>)
    requires Sorted(s) && Sorted(t) && multiset(s) == multiset(t)
    ensures s == t
  {
    assert |multiset(s)| == |s| && |multiset(t)| == |t|;
    if s != [] {
      SameHead(s, t);
      TailMultiset(s);
      TailMultiset(t);
      SortedUnique(s[1..], t[1..]);
    }
  }

  /** Sorting forgets the order of its input. */
  lemma SortPermutes(s: seq<string>, t: seq<string>)
    requires multiset(s) == multiset(t)
    ensures Sort(s) == Sort(t)
  {
    SortSorts(s);
    SortSorts(t);
    SortedUnique(Sort(s), Sort(t));
  }

  lemma SortMembers(s: seq<string>, x: string)
    ensures x in Sort(s) <==> x in s
  {
    SortSorts(s);
    assert x in Sort(s) <==> x in multiset(Sort(s));
  }

  /** No element occurs twice. */
  ghost predicate Unique<T(!new)>(s: seq<T>) {
    forall x :: multiset(s)[x] <= 1
  }

  lemma {:induction false} UniqueIndices<T(!new)>(s: seq<T>)
    ensures Unique(s) <==> forall i, j :: 0 <= i < j < |s| ==> s[i] != s[j]
  {
    if Unique(s) {
      forall i, j | 0 <= i < j < |s| ensures s[i] != s[j] {
        assert s == s[..j] + s[j..];
        assert multiset(s)[s[i]] == multiset(s[..j])[s[i]] + multiset(s[j..])[s[i]];
        assert s[i] in s[..j] && s[j] in s[j..];
      }
    } else {
      var t := s[..|s| - 1];
      assert s == t + [s[|s| - 1]];
      UniqueIndices(t);
      if Unique(t) {
        var x :| multiset(s)[x] > 1;
        assert multiset(s) == multiset(t) + multiset{s[|s| - 1]};
        assert x in t && x == s[|s| - 1];
      }
    }
  }

  lemma UniqueMore<T(!new)>(s: seq<T>, x: T)
    ensures Unique(s + [x]) <==> Unique(s) && x !in s
  {
    assert forall y :: multiset(s + [x])[y] == multiset(s)[y] + (if y == x then 1 else 0);
    assert x in s <==> x in multiset(s);
    if Unique(s + [x]) {
      forall y ensures multiset(s)[y] <= 1 { assert multiset(s + [x])[y] <= 1; }
      assert multiset(s + [x])[x] <= 1;
    }
  }

  lemma {:induction false} UniquePrefix<T(!new)>(s: seq<T>, t: seq<T>)
    requires Unique(s + t)
    ensures Unique(s)
  {
    forall y ensures multiset(s)[y] <= 1 {
      assert multiset(s + t)[y] == multiset(s)[y] + multiset(t)[y];
    }
  }

  lemma UniqueSame<T(!new)>(s: seq<T>, t: seq<T>)
    requires Unique(s) && Unique(t) && forall x :: x in s <==> x in t
    ensures multiset(s) == multiset(t)
  {
    forall x ensures multiset(s)[x] == multiset(t)[x] {
      assert x in s <==> x in multiset(s);
      assert x in t <==> x in multiset(t);
    }
  }

}
