/** Installers running side by side. Each takes the lock of every destination of its closure, without
    ever waiting, before it reads or renames anything; no process crashes. The result is that of the
    successful installers run one after the other. That an installer by itself commits only with its packages
    in place and gives up only with what it found restored is a guard here; `ClosureInstaller.Runtime.Transact`
    is the proof of it. */
module ClosureLocks {

  type Runtime = map<string, int>

  /** `order` lists the destinations in the order in which they are locked. */
  datatype Job = Job(order: seq<string>, root: string, packages: Runtime, force: bool)

  datatype Phase =
    | Locking(held: nat)
    | Working(found: Runtime)
    | Undoing(found: Runtime)
    | Committed
    | Succeeded
    | Refused

  datatype World = World(runtime: Runtime, phases: seq<Phase>, log: seq<nat>)

  /** TryLock, Check, Rename, Commit, Undo, Restore, Abort and Release of installer i. */
  datatype Step =
    | TryLock(i: nat) | Check(i: nat)
    | Remove(i: nat, d: string) | Place(i: nat, d: string) | Commit(i: nat)
    | Undo(i: nat) | Restore(i: nat, d: string) | Abort(i: nat)
    | Release(i: nat)

  predicate WellFormedJob(j: Job) {
    && j.root in j.order
    && j.packages.Keys == (set d | d in j.order)
    && (forall a, b :: 0 <= a < b < |j.order| ==> j.order[a] != j.order[b])
  }

  predicate Holds(j: Job, p: Phase, d: string) {
    match p
    case Locking(n) => n <= |j.order| && d in j.order[..n]
    case Working(_) => d in j.order
    case Undoing(_) => d in j.order
    case Committed => d in j.order
    case _ => false
  }

  predicate Free(jobs: seq<Job>, w: World, i: nat, d: string)
    requires |jobs| == |w.phases|
  {
    forall k :: 0 <= k < |jobs| && k != i ==> !Holds(jobs[k], w.phases[k], d)
  }

  /** The checks made on the runtime once all locks are held. */
  predicate Admits(j: Job, r: Runtime) {
    && (j.force || forall d :: d in j.order ==> d !in r)
    && (|j.order| > 1 ==> j.root !in r)
  }

  function Restrict(r: Runtime, j: Job): Runtime {
    map d | d in r && d in j.order :: r[d]
  }

  function WithPhase(w: World, i: nat, p: Phase): World
    requires i < |w.phases|
  {
    w.(phases := w.phases[i := p])
  }

  predicate Enabled(jobs: seq<Job>, w: World, s: Step) {
    && |jobs| == |w.phases| && s.i < |jobs|
    && var j, p := jobs[s.i], w.phases[s.i];
       match s
       case TryLock(_) => p.Locking? && p.held < |j.order|
       case Check(_) => p.Locking? && p.held == |j.order|
       case Remove(_, d) => p.Working? && d in j.order
       case Place(_, d) => p.Working? && d in j.packages && d in j.order
       case Commit(_) => p.Working? && Restrict(w.runtime, j) == j.packages
       case Undo(_) => p.Working?
       case Restore(_, d) => p.Undoing? && d in j.order
       case Abort(_) => p.Undoing? && Restrict(w.runtime, j) == p.found
       case Release(_) => p.Committed?
  }

  function Apply(jobs: seq<Job>, w: World, s: Step): (v: World)
    requires Enabled(jobs, w, s)
    ensures |v.phases| == |w.phases|
  {
    var i, j, p := s.i, jobs[s.i], w.phases[s.i];
    match s
    case TryLock(_) =>
      WithPhase(w, i, if Free(jobs, w, i, j.order[p.held]) then Locking(p.held + 1) else Refused)
    case Check(_) =>
      WithPhase(w, i, if Admits(j, w.runtime) then Working(Restrict(w.runtime, j)) else Refused)
    case Remove(_, d) => w.(runtime := w.runtime - {d})
    case Place(_, d) => w.(runtime := w.runtime[d := j.packages[d]])
    case Commit(_) => WithPhase(w, i, Committed).(log := w.log + [i])
    case Undo(_) => WithPhase(w, i, Undoing(p.found))
    case Restore(_, d) =>
      w.(runtime := if d in p.found then w.runtime[d := p.found[d]] else w.runtime - {d})
    case Abort(_) => WithPhase(w, i, Refused)
    case Release(_) => WithPhase(w, i, Succeeded)
  }

  ghost predicate Legal(jobs: seq<Job>, w: World, steps: seq<Step>)
    decreases |steps|
  {
    steps == [] || (Enabled(jobs, w, steps[0]) && Legal(jobs, Apply(jobs, w, steps[0]), steps[1..]))
  }

  ghost function Run(jobs: seq<Job>, w: World, steps: seq<Step>): World
    requires Legal(jobs, w, steps)
    decreases |steps|
  {
    if steps == [] then w else Run(jobs, Apply(jobs, w, steps[0]), steps[1..])
  }

  function Start(jobs: seq<Job>, r: Runtime): World {
    World(r, seq(|jobs|, i => Locking(0)), [])
  }

  // ----- One at a time -----

  function Serial(jobs: seq<Job>, r: Runtime, log: seq<nat>): Runtime
    requires forall k :: 0 <= k < |log| ==> log[k] < |jobs|
  {
    if log == [] then r
    else Serial(jobs, r, log[..|log| - 1]) + jobs[log[|log| - 1]].packages
  }

  /** Each installer of the log, run alone after those before it, is admitted. */
  ghost predicate SerialAdmits(jobs: seq<Job>, r: Runtime, log: seq<nat>)
    requires forall k :: 0 <= k < |log| ==> log[k] < |jobs|
  {
    log == [] ||
    (SerialAdmits(jobs, r, log[..|log| - 1])
     && Admits(jobs[log[|log| - 1]], Serial(jobs, r, log[..|log| - 1])))
  }

  // ----- The invariant -----

  ghost predicate Agree(r: Runtime, q: Runtime, d: string) {
    (d in r <==> d in q) && (d in r ==> r[d] == q[d])
  }

  predicate Busy(p: Phase) {
    p.Working? || p.Undoing?
  }

  ghost predicate Dirty(jobs: seq<Job>, w: World, d: string)
    requires |jobs| == |w.phases|
  {
    exists k :: 0 <= k < |jobs| && Busy(w.phases[k]) && d in jobs[k].order
  }

  ghost predicate Shaped(jobs: seq<Job>, w: World) {
    && |jobs| == |w.phases|
    && (forall k :: 0 <= k < |jobs| ==>
          WellFormedJob(jobs[k]) && (w.phases[k].Locking? ==> w.phases[k].held <= |jobs[k].order|))
  }

  /** No two installers hold the same lock. */
  ghost predicate Exclusive(jobs: seq<Job>, w: World)
    requires Shaped(jobs, w)
  {
    forall a, b, d :: 0 <= a < |jobs| && 0 <= b < |jobs| && a != b && Holds(jobs[a], w.phases[a], d)
      ==> !Holds(jobs[b], w.phases[b], d)
  }

  /** The log names each installer that committed, once. */
  ghost predicate Logged(jobs: seq<Job>, w: World)
    requires Shaped(jobs, w)
  {
    && (forall k :: 0 <= k < |w.log| ==> w.log[k] < |jobs|)
    && (forall k :: 0 <= k < |jobs| ==> (k in w.log <==> w.phases[k] in {Committed, Succeeded}))
    && (forall a, b :: 0 <= a < b < |w.log| ==> w.log[a] != w.log[b])
  }

  /** Destinations nobody is renaming are as the log alone would have left them. */
  ghost predicate Clean(jobs: seq<Job>, r: Runtime, w: World)
    requires Shaped(jobs, w) && Logged(jobs, w)
  {
    forall d :: !Dirty(jobs, w, d) ==> Agree(w.runtime, Serial(jobs, r, w.log), d)
  }

  /** What an installer saw when it was admitted is what the log says of its destinations still. */
  ghost predicate Frozen(jobs: seq<Job>, r: Runtime, w: World)
    requires Shaped(jobs, w) && Logged(jobs, w)
  {
    forall k :: 0 <= k < |jobs| && Busy(w.phases[k]) ==>
      && Admits(jobs[k], Found(w.phases[k]))
      && Found(w.phases[k]) == Restrict(Serial(jobs, r, w.log), jobs[k])
  }

  function Found(p: Phase): Runtime
    requires Busy(p)
  {
    match p case Working(f) => f case Undoing(f) => f
  }

  ghost predicate Inv(jobs: seq<Job>, r: Runtime, w: World) {
    && Shaped(jobs, w) && Exclusive(jobs, w) && Logged(jobs, w)
    && SerialAdmits(jobs, r, w.log)
    && Clean(jobs, r, w) && Frozen(jobs, r, w)
  }

  lemma StartInv(jobs: seq<Job>, r: Runtime)
    requires forall k :: 0 <= k < |jobs| ==> WellFormedJob(jobs[k])
    ensures Inv(jobs, r, Start(jobs, r))
  {
  }

  lemma StepExclusive(jobs: seq<Job>, w: World, s: Step)
    requires Shaped(jobs, w) && Exclusive(jobs, w) && Enabled(jobs, w, s)
    ensures Shaped(jobs, Apply(jobs, w, s)) && Exclusive(jobs, Apply(jobs, w, s))
  {
    var v := Apply(jobs, w, s);
    var j, p := jobs[s.i], w.phases[s.i];
    if p.Locking? && p.held < |j.order| {
      assert j.order[..p.held + 1] == j.order[..p.held] + [j.order[p.held]];
    }
    forall d | Holds(j, v.phases[s.i], d)
      ensures Holds(j, p, d) || (s.TryLock? && d == j.order[p.held] && Free(jobs, w, s.i, d))
    {
    }
  }

  lemma StepLogged(jobs: seq<Job>, w: World, s: Step)
    requires Shaped(jobs, w) && Logged(jobs, w) && Enabled(jobs, w, s) && Shaped(jobs, Apply(jobs, w, s))
    ensures Logged(jobs, Apply(jobs, w, s))
  {
  }

  lemma SameDirt(jobs: seq<Job>, w: World, v: World)
    requires |w.phases| == |jobs| == |v.phases|
    requires forall k :: 0 <= k < |jobs| ==> (Busy(w.phases[k]) <==> Busy(v.phases[k]))
    ensures forall d :: Dirty(jobs, v, d) <==> Dirty(jobs, w, d)
  {
  }

  lemma SameInv(jobs: seq<Job>, r: Runtime, w: World, v: World)
    requires Inv(jobs, r, w) && v.runtime == w.runtime && v.log == w.log
    requires Shaped(jobs, v) && Exclusive(jobs, v) && Logged(jobs, v)
    requires forall k :: 0 <= k < |jobs| ==>
               && (Busy(w.phases[k]) <==> Busy(v.phases[k]))
               && (Busy(w.phases[k]) ==> Found(w.phases[k]) == Found(v.phases[k]))
    ensures Inv(jobs, r, v)
  {
    SameDirt(jobs, w, v);
  }

  /** Steps that change neither the runtime nor who is renaming. */
  lemma QuietStep(jobs: seq<Job>, r: Runtime, w: World, s: Step)
    requires Inv(jobs, r, w) && Enabled(jobs, w, s) && (s.TryLock? || s.Undo? || s.Release?)
    ensures Inv(jobs, r, Apply(jobs, w, s))
  {
    StepExclusive(jobs, w, s);
    StepLogged(jobs, w, s);
    hide Serial, SerialAdmits, Admits, Restrict, Clean, Frozen, Exclusive, Logged;
    SameInv(jobs, r, w, Apply(jobs, w, s));
  }

  lemma AdmitsLocally(j: Job, r: Runtime)
    requires WellFormedJob(j)
    ensures Admits(j, r) <==> Admits(j, Restrict(r, j))
  {
  }

  lemma CleanDestinations(jobs: seq<Job>, r: Runtime, w: World, i: nat)
    requires Inv(jobs, r, w) && i < |jobs| && !Busy(w.phases[i])
    requires forall d :: d in jobs[i].order ==> Holds(jobs[i], w.phases[i], d)
    ensures Restrict(w.runtime, jobs[i]) == Restrict(Serial(jobs, r, w.log), jobs[i])
  {
    forall d | d in jobs[i].order ensures Agree(w.runtime, Serial(jobs, r, w.log), d) {
      assert !Dirty(jobs, w, d);
    }
  }

  lemma CheckStep(jobs: seq<Job>, r: Runtime, w: World, s: Step)
    requires Inv(jobs, r, w) && Enabled(jobs, w, s) && s.Check?
    ensures Inv(jobs, r, Apply(jobs, w, s))
  {
    StepExclusive(jobs, w, s);
    StepLogged(jobs, w, s);
    var v := Apply(jobs, w, s);
    var j := jobs[s.i];
    assert j.order[..|j.order|] == j.order;
    CleanDestinations(jobs, r, w, s.i);
    AdmitsLocally(j, w.runtime);
    forall d | Dirty(jobs, w, d) ensures Dirty(jobs, v, d) {
      var k :| 0 <= k < |jobs| && Busy(w.phases[k]) && d in jobs[k].order;
      assert Busy(v.phases[k]);
    }
  }

  /** A destination under its installer's hands may change freely. */
  lemma RuntimeChange(jobs: seq<Job>, r: Runtime, w: World, v: World, d: string)
    requires Inv(jobs, r, w) && Dirty(jobs, w, d) && v == w.(runtime := v.runtime)
    requires forall q :: q != d ==> Agree(w.runtime, v.runtime, q)
    ensures Inv(jobs, r, v)
  {
    hide Serial, SerialAdmits, Admits, Restrict;
    SameDirt(jobs, w, v);
    forall q | !Dirty(jobs, v, q) ensures Agree(v.runtime, Serial(jobs, r, v.log), q) {
      assert Agree(w.runtime, v.runtime, q) && Agree(w.runtime, Serial(jobs, r, w.log), q);
    }
  }

  lemma RenameStep(jobs: seq<Job>, r: Runtime, w: World, s: Step)
    requires Inv(jobs, r, w) && Enabled(jobs, w, s) && (s.Remove? || s.Place? || s.Restore?)
    ensures Inv(jobs, r, Apply(jobs, w, s))
  {
    hide Inv, Serial, SerialAdmits, Admits, Restrict;
    var v := Apply(jobs, w, s);
    assert Dirty(jobs, w, s.d) && v == w.(runtime := v.runtime);
    RuntimeChange(jobs, r, w, v, s.d);
  }

  /** Dropping out of renaming leaves clean whatever the installer has made agree with the log. */
  lemma LeaveClean(jobs: seq<Job>, w: World, v: World, i: nat, d: string)
    requires Shaped(jobs, w) && Exclusive(jobs, w) && |v.phases| == |jobs| && i < |jobs| && Busy(w.phases[i])
    requires v.phases == w.phases[i := v.phases[i]] && !Busy(v.phases[i])
    ensures Dirty(jobs, w, d) && !Dirty(jobs, v, d) ==> d in jobs[i].order
    ensures d in jobs[i].order ==> !Dirty(jobs, v, d)
  {
    if Dirty(jobs, w, d) && d !in jobs[i].order {
      var k :| 0 <= k < |jobs| && Busy(w.phases[k]) && d in jobs[k].order;
      assert Busy(v.phases[k]);
    }
    if d in jobs[i].order && Dirty(jobs, v, d) {
      var k :| 0 <= k < |jobs| && Busy(v.phases[k]) && d in jobs[k].order;
      assert Holds(jobs[k], w.phases[k], d) && Holds(jobs[i], w.phases[i], d);
    }
  }

  /** The runtime and the log move together when installer i commits. */
  lemma CommitClean(jobs: seq<Job>, r: Runtime, w: World, v: World, i: nat)
    requires Inv(jobs, r, w) && i < |jobs| && w.phases[i].Working?
    requires Restrict(w.runtime, jobs[i]) == jobs[i].packages
    requires v == WithPhase(w, i, Committed).(log := w.log + [i]) && Shaped(jobs, v) && Logged(jobs, v)
    ensures Serial(jobs, r, v.log) == Serial(jobs, r, w.log) + jobs[i].packages
    ensures Clean(jobs, r, v)
  {
    assert v.log[..|v.log| - 1] == w.log;
    forall d | !Dirty(jobs, v, d) ensures Agree(v.runtime, Serial(jobs, r, v.log), d) {
      LeaveClean(jobs, w, v, i, d);
      if d in jobs[i].order { assert d in Restrict(w.runtime, jobs[i]) <==> d in w.runtime; }
    }
  }

  /** Closures locked at the same time have no destination in common. */
  lemma Apart(jobs: seq<Job>, w: World, i: nat, k: nat, q: Runtime)
    requires Shaped(jobs, w) && Exclusive(jobs, w) && i < |jobs| && k < |jobs| && i != k
    requires Busy(w.phases[i]) && Busy(w.phases[k])
    ensures Restrict(q + jobs[i].packages, jobs[k]) == Restrict(q, jobs[k])
  {
    forall d | d in jobs[k].order ensures d !in jobs[i].packages {
      assert Holds(jobs[k], w.phases[k], d);
      assert !Holds(jobs[i], w.phases[i], d);
    }
  }

  lemma CommitFrozen(jobs: seq<Job>, r: Runtime, w: World, v: World, i: nat)
    requires Inv(jobs, r, w) && i < |jobs| && w.phases[i].Working?
    requires v == WithPhase(w, i, Committed).(log := w.log + [i]) && Shaped(jobs, v) && Logged(jobs, v)
    requires Serial(jobs, r, v.log) == Serial(jobs, r, w.log) + jobs[i].packages
    ensures Frozen(jobs, r, v)
  {
    hide Serial, SerialAdmits, Admits, Clean;
    forall k | 0 <= k < |jobs| && Busy(v.phases[k])
      ensures Restrict(Serial(jobs, r, v.log), jobs[k]) == Restrict(Serial(jobs, r, w.log), jobs[k])
    {
      assert v.phases[k] == w.phases[k] && k != i;
      Apart(jobs, w, i, k, Serial(jobs, r, w.log));
    }
  }

  lemma CommitStep(jobs: seq<Job>, r: Runtime, w: World, s: Step)
    requires Inv(jobs, r, w) && Enabled(jobs, w, s) && s.Commit?
    ensures Inv(jobs, r, Apply(jobs, w, s))
  {
    StepExclusive(jobs, w, s);
    StepLogged(jobs, w, s);
    var v := Apply(jobs, w, s);
    CommitClean(jobs, r, w, v, s.i);
    CommitFrozen(jobs, r, w, v, s.i);
    AdmitsLocally(jobs[s.i], Serial(jobs, r, w.log));
    assert v.log[..|v.log| - 1] == w.log;
  }

  lemma AbortStep(jobs: seq<Job>, r: Runtime, w: World, s: Step)
    requires Inv(jobs, r, w) && Enabled(jobs, w, s) && s.Abort?
    ensures Inv(jobs, r, Apply(jobs, w, s))
  {
    StepExclusive(jobs, w, s);
    StepLogged(jobs, w, s);
    var v := Apply(jobs, w, s);
    var j := jobs[s.i];
    forall d | !Dirty(jobs, v, d) ensures Agree(v.runtime, Serial(jobs, r, v.log), d) {
      LeaveClean(jobs, w, v, s.i, d);
      if d in j.order {
        assert d in Restrict(w.runtime, j) <==> d in w.runtime;
        assert d in Restrict(Serial(jobs, r, w.log), j) <==> d in Serial(jobs, r, w.log);
      }
    }
  }

  lemma {:induction false} RunInv(jobs: seq<Job>, r: Runtime, w: World, steps: seq<Step>)
    requires Inv(jobs, r, w) && Legal(jobs, w, steps)
    ensures Inv(jobs, r, Run(jobs, w, steps))
    decreases |steps|
  {
    if steps != [] {
      var s := steps[0];
      if s.TryLock? || s.Undo? || s.Release? { QuietStep(jobs, r, w, s); }
      else if s.Check? { CheckStep(jobs, r, w, s); }
      else if s.Commit? { CommitStep(jobs, r, w, s); }
      else if s.Abort? { AbortStep(jobs, r, w, s); }
      else { RenameStep(jobs, r, w, s); }
      RunInv(jobs, r, Apply(jobs, w, s), steps[1..]);
    }
  }

  ghost predicate Quiet(w: World) {
    forall k :: 0 <= k < |w.phases| ==> w.phases[k] in {Succeeded, Refused}
  }

  /** Any interleaving of any number of installers ends in the runtime that the successful ones give
      when run one at a time in the order of their commits, each of them being admitted there too. */
  lemma Serialisable(jobs: seq<Job>, r: Runtime, steps: seq<Step>)
    requires forall k :: 0 <= k < |jobs| ==> WellFormedJob(jobs[k])
    requires Legal(jobs, Start(jobs, r), steps) && Quiet(Run(jobs, Start(jobs, r), steps))
    ensures var w := Run(jobs, Start(jobs, r), steps);
            && |w.phases| == |jobs|
            && (forall k :: 0 <= k < |w.log| ==> w.log[k] < |jobs|)
            && (forall k :: 0 <= k < |jobs| ==> (k in w.log <==> w.phases[k] == Succeeded))
            && (forall a, b :: 0 <= a < b < |w.log| ==> w.log[a] != w.log[b])
            && SerialAdmits(jobs, r, w.log)
            && w.runtime == Serial(jobs, r, w.log)
  {
    StartInv(jobs, r);
    RunInv(jobs, r, Start(jobs, r), steps);
    var w := Run(jobs, Start(jobs, r), steps);
    forall d ensures Agree(w.runtime, Serial(jobs, r, w.log), d) {
      assert !Dirty(jobs, w, d);
    }
    assert w.runtime == Serial(jobs, r, w.log) by {
      forall d ensures d in w.runtime <==> d in Serial(jobs, r, w.log) {
        assert Agree(w.runtime, Serial(jobs, r, w.log), d);
      }
      forall d | d in w.runtime ensures w.runtime[d] == Serial(jobs, r, w.log)[d] {
        assert Agree(w.runtime, Serial(jobs, r, w.log), d);
      }
    }
  }

  /** A destination changes only by a step of the one installer that holds its lock. */
  lemma OnlyHolderWrites(jobs: seq<Job>, r: Runtime, steps: seq<Step>, s: Step, d: string)
    requires forall k :: 0 <= k < |jobs| ==> WellFormedJob(jobs[k])
    requires Legal(jobs, Start(jobs, r), steps) && Enabled(jobs, Run(jobs, Start(jobs, r), steps), s)
    requires var w := Run(jobs, Start(jobs, r), steps); !Agree(w.runtime, Apply(jobs, w, s).runtime, d)
    ensures var w := Run(jobs, Start(jobs, r), steps);
            && |jobs| == |w.phases| && s.i < |jobs|
            && Holds(jobs[s.i], w.phases[s.i], d)
            && forall k :: 0 <= k < |jobs| && k != s.i ==> !Holds(jobs[k], w.phases[k], d)
  {
    StartInv(jobs, r);
    RunInv(jobs, r, Start(jobs, r), steps);
  }

  // ----- Progress -----

  /** No other installer has a destination of installer i locked. */
  ghost predicate Alone(jobs: seq<Job>, w: World, i: nat)
    requires |jobs| == |w.phases| && i < |jobs|
  {
    forall k, d :: 0 <= k < |jobs| && k != i && d in jobs[i].order ==>
      || w.phases[k] in {Succeeded, Refused}
      || d !in jobs[k].order
      || (w.phases[k].Locking? && forall n :: 0 <= n < w.phases[k].held <= |jobs[k].order| ==> jobs[k].order[n] != d)
  }

  /** What must stop an installer that has all its locks. */
  ghost predicate Obstructed(j: Job, r: Runtime) {
    (!j.force && exists d :: d in j.order && d in r) || (|j.order| > 1 && j.root in r)
  }

  lemma AfterStep(jobs: seq<Job>, w: World, s: Step, more: seq<Step>)
    requires Enabled(jobs, w, s) && Legal(jobs, Apply(jobs, w, s), more)
    ensures Legal(jobs, w, [s] + more) && Run(jobs, w, [s] + more) == Run(jobs, Apply(jobs, w, s), more)
  {
    assert ([s] + more)[0] == s && ([s] + more)[1..] == more;
  }

  /** A lock that nobody else has is taken. */
  lemma TakesFree(jobs: seq<Job>, w: World, i: nat)
    requires Shaped(jobs, w) && i < |jobs| && Alone(jobs, w, i)
    requires w.phases[i].Locking? && w.phases[i].held < |jobs[i].order|
    ensures Apply(jobs, w, TryLock(i)) == WithPhase(w, i, Locking(w.phases[i].held + 1))
    ensures Shaped(jobs, Apply(jobs, w, TryLock(i))) && Alone(jobs, Apply(jobs, w, TryLock(i)), i)
  {
    var d := jobs[i].order[w.phases[i].held];
    forall k | 0 <= k < |jobs| && k != i ensures !Holds(jobs[k], w.phases[k], d) { assert d in jobs[i].order; }
  }

  /** One that somebody has refuses the installer, which then keeps none. */
  lemma RefusedIfHeld(jobs: seq<Job>, w: World, i: nat, k: nat, n: nat)
    requires Shaped(jobs, w) && i < |jobs| && k < |jobs| && k != i && n < |jobs[k].order|
    requires w.phases[i].Locking? && w.phases[i].held < |jobs[i].order|
    requires jobs[k].order[n] == jobs[i].order[w.phases[i].held]
    requires w.phases[k].Working? || w.phases[k].Undoing? || w.phases[k].Committed?
             || (w.phases[k].Locking? && n < w.phases[k].held)
    ensures Apply(jobs, w, TryLock(i)) == WithPhase(w, i, Refused)
    ensures forall d :: !Holds(jobs[i], Refused, d)
  {
    assert Holds(jobs[k], w.phases[k], jobs[k].order[n]);
  }

  lemma {:induction false} ReachesLocks(jobs: seq<Job>, w: World, i: nat) returns (steps: seq<Step>)
    requires Shaped(jobs, w) && i < |jobs| && w.phases[i].Locking? && Alone(jobs, w, i)
    ensures Legal(jobs, w, steps) && Run(jobs, w, steps) == WithPhase(w, i, Locking(|jobs[i].order|))
    decreases |jobs[i].order| - w.phases[i].held
  {
    if w.phases[i].held == |jobs[i].order| {
      steps := [];
    } else {
      TakesFree(jobs, w, i);
      var v := Apply(jobs, w, TryLock(i));
      var more := ReachesLocks(jobs, v, i);
      AfterStep(jobs, w, TryLock(i), more);
      steps := [TryLock(i)] + more;
    }
  }

  /** With all its locks, an installer is refused exactly if something obstructs it. */
  lemma CheckedExactly(jobs: seq<Job>, w: World, i: nat)
    requires Shaped(jobs, w) && i < |jobs| && w.phases[i] == Locking(|jobs[i].order|)
    ensures Enabled(jobs, w, Check(i))
    ensures var v := Apply(jobs, w, Check(i));
            if Obstructed(jobs[i], w.runtime) then v == WithPhase(w, i, Refused)
            else v.phases[i].Working? && v == WithPhase(w, i, v.phases[i])
  {
  }

  /** The packages of the first n destinations, put in place. */
  function Placed(j: Job, r: Runtime, n: nat): Runtime
    requires WellFormedJob(j) && n <= |j.order|
  {
    if n == 0 then r else Placed(j, r, n - 1)[j.order[n - 1] := j.packages[j.order[n - 1]]]
  }

  lemma {:induction false} PlacedAt(j: Job, r: Runtime, n: nat)
    requires WellFormedJob(j) && n <= |j.order|
    ensures forall d :: d in Placed(j, r, n) <==> d in r || d in j.order[..n]
    ensures forall d :: d in j.order[..n] ==> Placed(j, r, n)[d] == j.packages[d]
    ensures forall d :: d in r && d !in j.order[..n] ==> Placed(j, r, n)[d] == r[d]
  {
    if n > 0 {
      PlacedAt(j, r, n - 1);
      assert j.order[..n] == j.order[..n - 1] + [j.order[n - 1]];
    }
  }

  lemma PlacedAll(j: Job, r: Runtime)
    requires WellFormedJob(j)
    ensures Placed(j, r, |j.order|) == r + j.packages
    ensures Restrict(r + j.packages, j) == j.packages
  {
    PlacedAt(j, r, |j.order|);
    assert j.order[..|j.order|] == j.order;
  }

  lemma {:induction false} PlacesAll(jobs: seq<Job>, w: World, i: nat, r: Runtime, n: nat) returns (steps: seq<Step>)
    requires Shaped(jobs, w) && i < |jobs| && w.phases[i].Working? && n <= |jobs[i].order|
    requires w.runtime == Placed(jobs[i], r, n)
    ensures Legal(jobs, w, steps) && Run(jobs, w, steps) == w.(runtime := r + jobs[i].packages)
    decreases |jobs[i].order| - n
  {
    if n == |jobs[i].order| {
      PlacedAll(jobs[i], r);
      steps := [];
    } else {
      var s := Place(i, jobs[i].order[n]);
      var more := PlacesAll(jobs, Apply(jobs, w, s), i, r, n + 1);
      AfterStep(jobs, w, s, more);
      steps := [s] + more;
    }
  }

  lemma Finishes(jobs: seq<Job>, w: World, i: nat) returns (steps: seq<Step>)
    requires Shaped(jobs, w) && i < |jobs| && w.phases[i].Working?
    ensures Legal(jobs, w, steps)
    ensures Run(jobs, w, steps)
            == World(w.runtime + jobs[i].packages, w.phases[i := Succeeded], w.log + [i])
  {
    PlacedAll(jobs[i], w.runtime);
    var placing := PlacesAll(jobs, w, i, w.runtime, 0);
    var a := w.(runtime := w.runtime + jobs[i].packages);
    var b := Apply(jobs, a, Commit(i));
    assert Legal(jobs, Apply(jobs, b, Release(i)), []);
    AfterStep(jobs, b, Release(i), []);
    assert [Release(i)] + [] == [Release(i)];
    AfterStep(jobs, a, Commit(i), [Release(i)]);
    RunsOn(jobs, w, placing, [Commit(i)] + [Release(i)]);
    steps := placing + ([Commit(i)] + [Release(i)]);
  }

  lemma {:induction false} RunsOn(jobs: seq<Job>, w: World, a: seq<Step>, b: seq<Step>)
    requires Legal(jobs, w, a) && Legal(jobs, Run(jobs, w, a), b)
    ensures Legal(jobs, w, a + b) && Run(jobs, w, a + b) == Run(jobs, Run(jobs, w, a), b)
    decreases |a|
  {
    if a == [] {
      assert a + b == b;
    } else {
      assert (a + b)[0] == a[0] && (a + b)[1..] == a[1..] + b;
      RunsOn(jobs, Apply(jobs, w, a[0]), a[1..], b);
    }
  }

  lemma ChecksAndFinishes(jobs: seq<Job>, w: World, i: nat) returns (steps: seq<Step>)
    requires Shaped(jobs, w) && i < |jobs| && w.phases[i] == Locking(|jobs[i].order|)
    ensures Legal(jobs, w, steps)
    ensures Run(jobs, w, steps)
            == if Obstructed(jobs[i], w.runtime) then WithPhase(w, i, Refused)
               else World(w.runtime + jobs[i].packages, w.phases[i := Succeeded], w.log + [i])
  {
    hide Obstructed, Admits;
    CheckedExactly(jobs, w, i);
    var v := Apply(jobs, w, Check(i));
    steps := [];
    if !Obstructed(jobs[i], w.runtime) {
      steps := Finishes(jobs, v, i);
      assert v.phases[i := Succeeded] == w.phases[i := Succeeded];
    }
    AfterStep(jobs, w, Check(i), steps);
    steps := [Check(i)] + steps;
  }

  /** From every reachable world an installer that has not been checked yet and whose destinations nobody else has
      locked gets all its locks. It is then refused exactly if it is unforced and one of them is installed, or
      there are several and the root is; otherwise it can end in success with its packages in place. */
  lemma {:induction false} Progresses(jobs: seq<Job>, r: Runtime, before: seq<Step>, i: nat) returns (more: seq<Step>)
    requires forall k :: 0 <= k < |jobs| ==> WellFormedJob(jobs[k])
    requires Legal(jobs, Start(jobs, r), before) && i < |jobs|
    requires var w := Run(jobs, Start(jobs, r), before);
             |w.phases| == |jobs| && w.phases[i].Locking? && Alone(jobs, w, i)
    ensures var w := Run(jobs, Start(jobs, r), before);
            && Legal(jobs, w, more)
            && Run(jobs, w, more)
               == if (!jobs[i].force && exists d :: d in jobs[i].order && d in w.runtime)
                     || (|jobs[i].order| > 1 && jobs[i].root in w.runtime)
                  then World(w.runtime, w.phases[i := Refused], w.log)
                  else World(w.runtime + jobs[i].packages, w.phases[i := Succeeded], w.log + [i])
  {
    hide Alone, Exclusive, Clean, Frozen, SerialAdmits, Serial, Admits, Logged;
    StartInv(jobs, r);
    RunInv(jobs, r, Start(jobs, r), before);
    var w := Run(jobs, Start(jobs, r), before);
    var locking := ReachesLocks(jobs, w, i);
    var v := WithPhase(w, i, Locking(|jobs[i].order|));
    var rest := ChecksAndFinishes(jobs, v, i);
    assert v.phases[i := Refused] == w.phases[i := Refused] && v.phases[i := Succeeded] == w.phases[i := Succeeded];
    RunsOn(jobs, w, locking, rest);
    more := locking + rest;
  }
}
