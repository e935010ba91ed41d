/** The closure transaction as a whole: atomic at rest, decided by the marker, complete when nothing
    interrupts it. */
module ClosureAtomicity {
  import opened ClosureMachine
  import opened ClosureSafety
  import opened ClosureRecovery

  /** Every destination as found before the transaction. */
  ghost predicate AllOld(had: seq<bool>, d: Disk) {
    |d.entries| == |had|
    && forall k :: 0 <= k < |had| ==> d.entries[k].dest == (if had[k] then Old else Absent)
  }

  ghost predicate AllNew(had: seq<bool>, d: Disk) {
    |d.entries| == |had| && forall k :: 0 <= k < |had| ==> d.entries[k].dest == New
  }

  /** Nothing of a transaction is left beside the destinations. */
  ghost predicate Clean(d: Disk) {
    d.marker == NoMarker
    && forall k :: 0 <= k < |d.entries| ==> d.entries[k].stage == Absent && d.entries[k].backup == Absent
  }

  /** The disks a new process may find after a run: the visible one after a kill and, where power
      cuts happen, the durable one. */
  ghost predicate LeftBehind(mode: Mode, s: State, d: Disk) {
    d == s.cur || (mode.powerCuts && d == s.dur)
  }

  /** One uninterrupted recovery. */
  function Recovered(had: seq<bool>, d: Disk): State
    requires 0 < |had| == |d.entries|
  {
    Drive(had, State(d, d, RecoverStart))
  }

  lemma RecoverableMends(had: seq<bool>, d: Disk)
    requires 0 < |had| && |d.entries| == |had| && Recoverable(had, d)
    ensures Mendable(had, d)
    ensures d.marker == Prepared ==> AllOld(had, Target(had, d)) && Clean(Target(had, d))
    ensures d.marker == Committed ==> AllNew(had, Target(had, d)) && Clean(Target(had, d))
    ensures d.marker == NoMarker ==> Target(had, d) == d && (AllOld(had, d) || AllNew(had, d))
  {
  }

  lemma LeftBehindRecoverable(mode: Mode, had: seq<bool>, s: State, d: Disk)
    requires Inv(mode, had, s) && LeftBehind(mode, s, d)
    ensures |d.entries| == |had| && Recoverable(had, d)
  {
    if Installing(s.pc) { InstallRecoverable(had, s); }
    if d != s.cur && Installing(s.pc) { DurableInstallRecoverable(had, s); }
  }

  lemma DurableInstallRecoverable(had: seq<bool>, s: State)
    requires WellFormed(had, s) && Installing(s.pc) && InstallView(had, s) && InstallDurable(had, s)
    ensures Recoverable(had, s.dur)
  {
  }

  /** Atomicity. After any run from a runtime at rest, however often and wherever it was cut short
      (also inside recovery), one uninterrupted recovery succeeds and leaves every destination old
      when it finds no commit and every destination new when it finds one. */
  lemma ClosureIsAtomic(mode: Mode, had: seq<bool>, steps: seq<Step>, d: Disk)
    requires 0 < |had| && Safe(mode, had) && Legal(mode, had, Initial(had), steps)
    requires LeftBehind(mode, Run(mode, had, Initial(had), steps), d)
    ensures |d.entries| == |had|
    ensures Recovered(had, d).pc == Finished
    ensures var after := Recovered(had, d).cur;
            match d.marker
            case Prepared => AllOld(had, after) && Clean(after)
            case Committed => AllNew(had, after) && Clean(after)
            case NoMarker => after == d && (AllOld(had, d) || AllNew(had, d))
  {
    InitialInv(mode, had);
    RunInv(mode, had, Initial(had), steps);
    LeftBehindRecoverable(mode, had, Run(mode, had, Initial(had), steps), d);
    RecoverableMends(had, d);
    RecoveryComputes(had, d, d);
  }

  /** A process that dies while it stages leaves a stage that no recovery removes. */
  lemma CrashLeavesStage(mode: Mode, had: seq<bool>)
    requires 0 < |had|
    ensures Legal(mode, had, Initial(had), [Advance, Kill])
    ensures var d := Run(mode, had, Initial(had), [Advance, Kill]).cur;
            |d.entries| == |had| && d.entries[0].stage == Partial && Recovered(had, d).cur == d && !Clean(d)
  {
    var s, steps := Initial(had), [Advance, Kill];
    var t := Progress(had, s);
    var u := t.(pc := Down);
    assert steps[1..] == [Kill] && steps[1..][1..] == [];
    assert Legal(mode, had, u, []) && Legal(mode, had, t, [Kill]);
    assert Run(mode, had, t, [Kill]) == u;
    RecoveryComputes(had, u.cur, u.cur);
    assert Drive(had, State(u.cur, u.cur, RecoverStart)) == Drive(had, State(u.cur, u.cur, Finished));
  }

  // ----- The marker decides -----

  /** No commit has been seen and none can reappear. */
  ghost predicate OldSide(mode: Mode, had: seq<bool>, s: State) {
    && WellFormed(had, s)
    && s.cur.marker != Committed
    && (s.cur.marker == NoMarker ==> AllOld(had, s.cur))
    && (mode.powerCuts ==>
          && s.dur.marker != Committed
          && (s.dur.marker == NoMarker ==> AllOld(had, s.dur)))
  }

  ghost predicate CommitSeen(mode: Mode, had: seq<bool>, s: State, steps: seq<Step>)
    requires Legal(mode, had, s, steps)
    decreases |steps|
  {
    s.cur.marker == Committed
    || (steps != [] && CommitSeen(mode, had, Apply(had, s, steps[0]), steps[1..]))
  }

  lemma AdvanceOldSide(mode: Mode, had: seq<bool>, s: State)
    requires Inv(mode, had, s) && OldSide(mode, had, s)
    requires Progress(had, s).cur.marker != Committed
    ensures OldSide(mode, had, Progress(had, s))
  {
  }

  lemma StepOldSide(mode: Mode, had: seq<bool>, s: State, step: Step)
    requires Inv(mode, had, s) && OldSide(mode, had, s) && Allowed(mode, had, s, step)
    requires Apply(had, s, step).cur.marker != Committed
    ensures OldSide(mode, had, Apply(had, s, step))
  {
    if step == Advance { AdvanceOldSide(mode, had, s); }
  }

  lemma {:induction false} RunOldSide(mode: Mode, had: seq<bool>, s: State, steps: seq<Step>)
    requires Safe(mode, had) && Inv(mode, had, s) && OldSide(mode, had, s)
    requires Legal(mode, had, s, steps) && !CommitSeen(mode, had, s, steps)
    ensures OldSide(mode, had, Run(mode, had, s, steps)) && Inv(mode, had, Run(mode, had, s, steps))
    decreases |steps|
  {
    if steps != [] {
      var t := Apply(had, s, steps[0]);
      assert !CommitSeen(mode, had, t, steps[1..]);
      StepInv(mode, had, s, steps[0]);
      StepOldSide(mode, had, s, steps[0]);
      RunOldSide(mode, had, t, steps[1..]);
    }
  }

  /** A run in which no commit is seen cannot be killed in the commit gap. */
  lemma {:induction false} UncommittedRun(mode: Mode, had: seq<bool>, s: State, steps: seq<Step>)
    requires Legal(mode, had, s, steps) && !CommitSeen(mode, had, s, steps)
    ensures var quiet := mode.(commitKills := false);
            && Legal(quiet, had, s, steps) && Run(quiet, had, s, steps) == Run(mode, had, s, steps)
            && !CommitSeen(quiet, had, s, steps)
    decreases |steps|
  {
    if steps != [] { UncommittedRun(mode, had, Apply(had, s, steps[0]), steps[1..]); }
  }

  lemma OldWhileSafe(mode: Mode, had: seq<bool>, steps: seq<Step>, d: Disk)
    requires 0 < |had| && Safe(mode, had) && Legal(mode, had, Initial(had), steps)
    requires !CommitSeen(mode, had, Initial(had), steps)
    requires LeftBehind(mode, Run(mode, had, Initial(had), steps), d)
    ensures |d.entries| == |had| && AllOld(had, Recovered(had, d).cur)
  {
    InitialInv(mode, had);
    RunOldSide(mode, had, Initial(had), steps);
    ClosureIsAtomic(mode, had, steps, d);
  }

  /** Until the committed marker has been written, every recovery restores the old closure, unless the directory
      that reserves a backup name may become durable. */
  lemma OldUntilCommit(mode: Mode, had: seq<bool>, steps: seq<Step>, d: Disk)
    requires 0 < |had| && (NoPrevious(had) || !mode.powerCuts || !mode.probeFlushes)
    requires Legal(mode, had, Initial(had), steps) && !CommitSeen(mode, had, Initial(had), steps)
    requires LeftBehind(mode, Run(mode, had, Initial(had), steps), d)
    ensures |d.entries| == |had| && AllOld(had, Recovered(had, d).cur)
  {
    UncommittedRun(mode, had, Initial(had), steps);
    OldWhileSafe(mode.(commitKills := false), had, steps, d);
  }

  // ----- Without faults -----

  function NewDisk(had: seq<bool>): Disk {
    Disk(seq(|had|, k => Entry(New, Absent, Absent)), NoMarker)
  }

  lemma {:induction false} DriveInstalls(had: seq<bool>, s: State)
    requires WellFormed(had, s) && Installing(s.pc) && InstallView(had, s)
    ensures Drive(had, s).pc == Finished && Drive(had, s).cur == Drive(had, s).dur == NewDisk(had)
    decreases Rank(|had|, s)
  {
    ProgressRanks(had, s);
    var t := Progress(had, s);
    if s.pc == CommitSync {
      RecoveryComputes(had, t.cur, t.dur);
      RecoveryIsDurable(had, t.cur, t.dur);
      assert Target(had, t.cur) == NewDisk(had);
    } else {
      InstallProgressView(had, s);
      StillInstalling(had, s);
      DriveInstalls(had, t);
    }
  }

  lemma StillInstalling(had: seq<bool>, s: State)
    requires WellFormed(had, s) && Installing(s.pc) && s.pc != CommitSync
    ensures Installing(Progress(had, s).pc)
  {
  }

  /** Uninterrupted, the installer ends with the whole new closure, durable and without residue. */
  lemma {:induction false} InstallCompletes(had: seq<bool>)
    requires 0 < |had|
    ensures Drive(had, Initial(had)).pc == Finished
    ensures Drive(had, Initial(had)).cur == Drive(had, Initial(had)).dur == NewDisk(had)
  {
    DriveInstalls(had, Initial(had));
  }
}
