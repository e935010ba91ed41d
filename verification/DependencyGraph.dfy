/** Dependency graphs: paths, cycles, the least closed set of what is reachable, and the two depth-first
    searches and the breadth-first search that admission runs on them. */
module DependencyGraph {

  type Edges = map<string, seq<string>>

  function Next(g: Edges, n: string): seq<string> {
    if n in g then g[n] else []
  }

  ghost predicate IsPath(g: Edges, p: seq<string>) {
    p != [] && forall i :: 0 <= i < |p| - 1 ==> p[i + 1] in Next(g, p[i])
  }

  ghost predicate IsCycle(g: Edges, p: seq<string>) {
    IsPath(g, p) && 2 <= |p| && p[0] == p[|p| - 1]
  }

  ghost predicate HasCycle(g: Edges) {
    exists p :: IsCycle(g, p)
  }

  /** Every node of the graph. */
  function Nodes(g: Edges): set<string> {
    g.Keys + set n, m | n in g && m in g[n] :: m
  }

  /** Later nodes depend only on earlier ones. */
  ghost predicate Layered(g: Edges, order: seq<string>) {
    forall i, m :: 0 <= i < |order| && m in Next(g, order[i]) ==> m in order[..i]
  }

  lemma {:induction false} PathGoesDown(g: Edges, order: seq<string>, p: seq<string>, i: nat, k: nat)
    requires Layered(g, order) && IsPath(g, p) && k < |p| && i < |order| && p[0] == order[i]
    ensures exists j :: 0 <= j <= i && order[j] == p[k] && (0 < k ==> j < i)
    decreases k
  {
    if k > 0 {
      assert p[1] in Next(g, p[0]);
      var j :| 0 <= j < i && order[j] == p[1];
      assert IsPath(g, p[1..]);
      PathGoesDown(g, order, p[1..], j, k - 1);
    }
  }

  /** A graph whose sources can be layered without repetition has no cycle. */
  lemma LayeredIsAcyclic(g: Edges, order: seq<string>)
    requires Layered(g, order) && forall i, j :: 0 <= i < j < |order| ==> order[i] != order[j]
    requires forall n :: n in g ==> n in order
    ensures !HasCycle(g)
  {
    forall p ensures !IsCycle(g, p) {
      if IsCycle(g, p) {
        assert p[1] in Next(g, p[0]);
        var i :| 0 <= i < |order| && order[i] == p[0];
        PathGoesDown(g, order, p, i, |p| - 1);
      }
    }
  }

  // ----- Depth-first search -----

  datatype Colour = Open | Closed

  /** A repeated node and the stack on which it already lies. */
  datatype Verdict = Acyclic | Cycle(stack: seq<string>, again: string)

  predicate Distinct(s: seq<string>) {
    forall i, j :: 0 <= i < j < |s| ==> s[i] != s[j]
  }

  /** The stack is a path and its last node leads back onto it. */
  ghost predicate ShowsCycle(g: Edges, v: Verdict) {
    v.Cycle? && IsPath(g, v.stack) && v.again in Next(g, v.stack[|v.stack| - 1]) && v.again in v.stack
  }

  lemma ShownCycleExists(g: Edges, v: Verdict)
    requires ShowsCycle(g, v)
    ensures HasCycle(g)
  {
    var i :| 0 <= i < |v.stack| && v.stack[i] == v.again;
    assert IsCycle(g, v.stack[i..] + [v.again]);
  }

  /** Open nodes are exactly those on the stack, which is a path; closed ones are layered. */
  ghost predicate Searching(g: Edges, state: map<string, Colour>, stack: seq<string>, finished: seq<string>) {
    && state.Keys <= Nodes(g)
    && (forall n :: n in stack <==> n in state && state[n] == Open)
    && (forall n :: n in finished <==> n in state && state[n] == Closed)
    && Distinct(stack) && Distinct(finished)
    && (stack != [] ==> IsPath(g, stack))
    && Layered(g, finished)
  }

  lemma OpenKeeps(g: Edges, state: map<string, Colour>, stack: seq<string>, finished: seq<string>, node: string)
    requires Searching(g, state, stack, finished) && node in Nodes(g) && node !in state
    requires stack != [] ==> node in Next(g, stack[|stack| - 1])
    ensures Searching(g, state[node := Open], stack + [node], finished)
  {
  }

  lemma CloseKeeps(g: Edges, state: map<string, Colour>, stack: seq<string>, finished: seq<string>, node: string)
    requires Searching(g, state, stack + [node], finished)
    requires forall m :: m in Next(g, node) ==> m in finished
    ensures Searching(g, state[node := Closed], stack, finished + [node])
  {
    var s := stack + [node];
    assert node in s && s[|stack|] == node;
    assert forall n :: n in s <==> n in stack || n == node;
    assert forall i :: 0 <= i < |stack| ==> stack[i] == s[i];
    assert node !in stack && node !in finished;
    if stack != [] { PathPrefix(g, stack, node); }
    LayeredAppend(g, finished, node);
  }

  lemma PathPrefix(g: Edges, p: seq<string>, last: string)
    requires p != [] && IsPath(g, p + [last])
    ensures IsPath(g, p)
  {
    var q := p + [last];
    forall i | 0 <= i < |p| - 1 ensures p[i + 1] in Next(g, p[i]) {
      assert q[i + 1] in Next(g, q[i]);
    }
  }

  lemma NextAreNodes(g: Edges, n: string, m: string)
    requires m in Next(g, n)
    ensures m in Nodes(g)
  {
  }

  lemma LayeredAppend(g: Edges, finished: seq<string>, node: string)
    requires Layered(g, finished) && forall m :: m in Next(g, node) ==> m in finished
    ensures Layered(g, finished + [node])
  {
    var f := finished + [node];
    forall i, m | 0 <= i < |f| && m in Next(g, f[i]) ensures m in f[..i] {
      if i < |finished| { assert f[..i] == finished[..i]; } else { assert f[..i] == finished; }
    }
  }

  class Search {
    const g: Edges
    var state: map<string, Colour>
    var stack: seq<string>
    ghost var finished: seq<string>

    constructor (g: Edges)
      ensures Valid() && this.g == g && state == map[] && stack == [] && finished == []
    {
      this.g := g;
      state, stack, finished := map[], [], [];
    }

    ghost predicate Valid()
      reads this
    {
      Searching(g, state, stack, finished)
    }

    /** Searches below a new node. A cycle is reported with the stack that shows it; otherwise the node
        and all below it are closed and the stack is as before. */
    method Visit(node: string) returns (v: Verdict)
      requires Valid() && node in Nodes(g) && node !in state
      requires stack != [] ==> node in Next(g, stack[|stack| - 1])
      modifies this
      ensures v.Cycle? ==> ShowsCycle(g, v)
      ensures v.Acyclic? ==> Valid() && stack == old(stack) && node in finished && old(finished) <= finished
      ensures v.Acyclic? ==> old(state.Keys) <= state.Keys
      decreases Nodes(g) - state.Keys
    {
      OpenKeeps(g, state, stack, finished, node);
      state := state[node := Open];
      stack := stack + [node];
      var next := Next(g, node);
      var i := 0;
      while i < |next|
        invariant i <= |next| && Valid() && stack == old(stack) + [node]
        invariant old(state.Keys) + {node} <= state.Keys && old(finished) <= finished
        invariant forall j :: 0 <= j < i ==> next[j] in finished
      {
        var m := next[i];
        NextAreNodes(g, node, m);
        assert stack[|stack| - 1] == node;
        if m in state && state[m] == Open {
          return Cycle(stack, m);
        }
        if m !in state {
          v := Visit(m);
          if v.Cycle? { return; }
        }
        i := i + 1;
      }
      CloseKeeps(g, state, old(stack), finished, node);
      stack := stack[..|stack| - 1];
      state := state[node := Closed];
      finished := finished + [node];
      v := Acyclic;
    }

    /** The second form of the search, over a lock: it enters a node before looking at its colour. */
    method VisitLocked(node: string) returns (v: Verdict)
      requires Valid() && node in Nodes(g)
      requires stack != [] ==> node in Next(g, stack[|stack| - 1])
      modifies this
      ensures v.Cycle? ==> ShowsCycle(g, v)
      ensures v.Acyclic? ==> Valid() && stack == old(stack) && node in finished && old(finished) <= finished
      ensures v.Acyclic? ==> old(state.Keys) <= state.Keys
      decreases Nodes(g) - state.Keys, 1
    {
      if node in state && state[node] == Open { return Cycle(stack, node); }
      if node in state && state[node] == Closed { return Acyclic; }
      v := Enter(node);
    }

    /** Opens a node, visits what it depends on, and closes it. */
    method Enter(node: string) returns (v: Verdict)
      requires Valid() && node in Nodes(g) && node !in state
      requires stack != [] ==> node in Next(g, stack[|stack| - 1])
      modifies this
      ensures v.Cycle? ==> ShowsCycle(g, v)
      ensures v.Acyclic? ==> Valid() && stack == old(stack) && node in finished && old(finished) <= finished
      ensures v.Acyclic? ==> old(state.Keys) <= state.Keys
      decreases Nodes(g) - state.Keys, 0
    {
      OpenKeeps(g, state, stack, finished, node);
      state := state[node := Open];
      stack := stack + [node];
      var next := Next(g, node);
      var i := 0;
      while i < |next|
        invariant i <= |next| && Valid() && stack == old(stack) + [node]
        invariant old(state.Keys) + {node} <= state.Keys && old(finished) <= finished
        invariant forall j :: 0 <= j < i ==> next[j] in finished
      {
        NextAreNodes(g, node, next[i]);
        assert stack[|stack| - 1] == node;
        assert node in Nodes(g) - old(state.Keys) && node !in Nodes(g) - state.Keys;
        v := VisitLocked(next[i]);
        if v.Cycle? { return; }
        i := i + 1;
      }
      CloseKeeps(g, state, old(stack), finished, node);
      stack := stack[..|stack| - 1];
      state := state[node := Closed];
      finished := finished + [node];
      v := Acyclic;
    }
  }

  /** The repository's graph check, over its nodes in any order: it reports an error exactly when some
      dependency path returns to its start, and then shows one. */
  method ValidateGraph(g: Edges, keys: seq<string>) returns (v: Verdict)
    requires forall n :: n in keys <==> n in Nodes(g)
    ensures v.Cycle? <==> HasCycle(g)
    ensures v.Cycle? ==> ShowsCycle(g, v)
  {
    var search := new Search(g);
    var i := 0;
    while i < |keys|
      invariant i <= |keys| && search.Valid() && search.g == g && search.stack == [] && fresh(search)
      invariant forall j :: 0 <= j < i ==> keys[j] in search.finished
    {
      assert keys[i] in keys;
      if keys[i] !in search.state {
        v := search.Visit(keys[i]);
        if v.Cycle? {
          ShownCycleExists(g, v);
          return;
        }
      }
      i := i + 1;
    }
    LayeredIsAcyclic(g, search.finished);
    v := Acyclic;
  }

  // ----- The locked closure of a package -----

  ghost predicate Reaches(g: Edges, from: seq<string>, p: seq<string>, n: string) {
    IsPath(g, p) && p[0] in from && p[|p| - 1] == n
  }

  ghost predicate Reachable(g: Edges, from: seq<string>, n: string) {
    exists p :: Reaches(g, from, p, n)
  }

  ghost predicate ClosedUnder(g: Edges, s: set<string>) {
    forall n, m :: n in s && m in Next(g, n) ==> m in s
  }

  /** What is reachable is closed, contains the starting points, and is the least such set. */
  lemma ReachableIsLeast(g: Edges, from: seq<string>, s: set<string>)
    ensures forall n :: n in from ==> Reachable(g, from, n)
    ensures forall n, m :: Reachable(g, from, n) && m in Next(g, n) ==> Reachable(g, from, m)
    ensures ClosedUnder(g, s) && (forall n :: n in from ==> n in s) ==> forall n :: Reachable(g, from, n) ==> n in s
  {
    forall n | n in from ensures Reachable(g, from, n) { assert Reaches(g, from, [n], n); }
    forall n, m | Reachable(g, from, n) && m in Next(g, n) ensures Reachable(g, from, m) {
      var p :| Reaches(g, from, p, n);
      assert Reaches(g, from, p + [m], m);
    }
    if ClosedUnder(g, s) && forall n :: n in from ==> n in s {
      forall n | Reachable(g, from, n) ensures n in s {
        var p :| Reaches(g, from, p, n);
        PathStaysInside(g, s, p, |p| - 1);
      }
    }
  }

  lemma {:induction false} PathStaysInside(g: Edges, s: set<string>, p: seq<string>, k: nat)
    requires ClosedUnder(g, s) && IsPath(g, p) && p[0] in s && k < |p|
    ensures p[k] in s
  {
    if k > 0 {
      PathStaysInside(g, s, p, k - 1);
      assert p[k - 1 + 1] in Next(g, p[k - 1]);
    }
  }

  /** Everything found is reachable, and whatever is reachable is found or lies beyond the queue. */
  ghost predicate Frontier(g: Edges, from: seq<string>, found: set<string>, queue: seq<string>) {
    && found <= g.Keys
    && (forall n :: n in from ==> n in found || n in queue)
    && (forall n, m :: n in found && m in Next(g, n) ==> m in found || m in queue)
    && (forall n :: n in found || n in queue ==> Reachable(g, from, n))
  }

  lemma Skip(g: Edges, from: seq<string>, found: set<string>, queue: seq<string>)
    requires Frontier(g, from, found, queue) && queue != [] && queue[0] in found
    ensures Frontier(g, from, found, queue[1..])
  {
  }

  lemma Expand(g: Edges, from: seq<string>, found: set<string>, queue: seq<string>)
    requires Frontier(g, from, found, queue) && queue != [] && queue[0] in g
    ensures Frontier(g, from, found + {queue[0]}, queue[1..] + g[queue[0]])
  {
    assert forall n :: n in queue <==> n == queue[0] || n in queue[1..];
    ReachableIsLeast(g, from, {});
    assert forall m :: m in g[queue[0]] ==> m in Next(g, queue[0]);
  }

  /** Breadth-first search through the locked components; it stops at the first missing one. */
  method Explore(locked: Edges, references: seq<string>) returns (ok: bool, reachable: set<string>)
    ensures ok <==> forall n :: Reachable(locked, references, n) ==> n in locked
    ensures ok ==> forall n :: n in reachable <==> Reachable(locked, references, n)
  {
    var queue := references;
    reachable := {};
    ReachableIsLeast(locked, references, {});
    while queue != []
      invariant Frontier(locked, references, reachable, queue)
      decreases locked.Keys - reachable, |queue|
    {
      var key := queue[0];
      if key in reachable {
        Skip(locked, references, reachable, queue);
        queue := queue[1..];
      } else if key !in locked {
        assert key in queue;
        return false, reachable;
      } else {
        Expand(locked, references, reachable, queue);
        reachable := reachable + {key};
        queue := queue[1..] + locked[key];
      }
    }
    ReachableIsLeast(locked, references, reachable);
    ok := true;
  }

  /** Visits every component of the lock, in any order. */
  method FindLockCycle(locked: Edges, order: seq<string>) returns (v: Verdict)
    requires forall n :: n in locked ==> n in order
    requires forall n :: n in order ==> n in Nodes(locked)
    ensures v.Cycle? <==> HasCycle(locked)
    ensures v.Cycle? ==> ShowsCycle(locked, v)
  {
    var search := new Search(locked);
    var i := 0;
    while i < |order|
      invariant i <= |order| && search.Valid() && search.g == locked && search.stack == [] && fresh(search)
      invariant forall j :: 0 <= j < i ==> order[j] in search.finished
    {
      assert order[i] in order;
      v := search.VisitLocked(order[i]);
      if v.Cycle? {
        ShownCycleExists(locked, v);
        return;
      }
      i := i + 1;
    }
    LayeredIsAcyclic(locked, search.finished);
    v := Acyclic;
  }

  /** The lock's graph checks: every component must be reachable from the references, nothing reachable
      may be missing, and there is no cycle. The verdict depends on nothing else, in particular not on
      the order in which components are visited. */
  method ValidateLock(locked: Edges, references: seq<string>, order: seq<string>) returns (accepted: bool)
    requires forall n :: n in order <==> n in locked
    ensures accepted <==>
              (forall n :: n in locked <==> Reachable(locked, references, n)) && !HasCycle(locked)
  {
    var ok, reachable := Explore(locked, references);
    if !ok { return false; }
    EqualSize(reachable, locked.Keys);
    if |reachable| != |locked| { return false; }
    var v := FindLockCycle(locked, order);
    accepted := v.Acyclic?;
  }

  lemma EqualSize(a: set<string>, b: set<string>)
    requires a <= b
    ensures |a| == |b| <==> a == b
  {
    assert |b - a| == |b| - |a|;
  }
}
