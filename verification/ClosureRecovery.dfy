/** What recovery computes, for every disk: the closed form, when it exists, and that stopping and
    repeating it changes nothing. */
module ClosureRecovery {
  import opened ClosureMachine

  /** The entry that undoing (prepared) or sealing (committed) leaves of one operation. */
  function Settle(m: Marker, h: bool, e: Entry): Entry {
    match m
    case NoMarker => e
    case Prepared =>
      if !h then Entry(Absent, Absent, e.backup)
      else Entry(if e.backup != Absent then e.backup else e.dest, Absent, Absent)
    case Committed => Entry(e.dest, Absent, if h then Absent else e.backup)
  }

  function Target(had: seq<bool>, d: Disk): Disk
    requires |had| == |d.entries|
  {
    Disk(seq(|had|, k requires 0 <= k < |had| => Settle(d.marker, had[k], d.entries[k])), NoMarker)
  }

  /** A prepared member needs active content or a rollback copy, a committed one its content. */
  predicate Whole(m: Marker, h: bool, e: Entry) {
    match m
    case NoMarker => true
    case Prepared => h ==> e.dest != Absent || e.backup != Absent
    case Committed => e.dest != Absent
  }

  ghost predicate Mendable(had: seq<bool>, d: Disk)
    requires |had| == |d.entries|
  {
    forall k :: 0 <= k < |had| ==> Whole(d.marker, had[k], d.entries[k])
  }

  predicate Recovering(pc: Pc) {
    pc.RecoverStart? || pc.CheckRoot? || pc.CheckRootSync? || pc.Undo? || pc.Seal? || pc.DropStage?
    || pc.SyncEntry? || pc.Unmark? || pc.UnmarkSync? || pc.Finished? || pc.Broken?
  }

  /** A bound on the actions left before the program ends. */
  function Rank(n: nat, s: State): (r: nat)
    requires n == |s.cur.entries| && PcInRange(n, s.pc)
  {
    var base := 5 * n + 20;
    match s.pc
    case MakeStage(k) => base + 5 * n + 30 + 5 * (n - k) + 4
    case CopyStage(k) => base + 5 * n + 30 + 5 * (n - k) + 3
    case MakeProbe(k) => base + 5 * n + 30 + 5 * (n - k) + 2
    case DropProbe(k) => base + 5 * n + 30 + 5 * (n - k) + 1
    case Prepare => base + 5 * n + 22
    case PrepareSync => base + 5 * n + 21
    case Deactivate => base + 5 * n + 20
    case DeactivateSync => base + 5 * n + 19
    case Preserve(k) => base + 5 * Turns(n, k) + 5
    case PreserveSync(k) => base + 5 * Turns(n, k) + 4
    case Activate(k) => base + 5 * Turns(n, k) + 3
    case ActivateSync(k) => base + 5 * Turns(n, k) + 2
    case Commit => base + 1
    case CommitSync => base
    case RecoverStart => 5 * n + 10
    case CheckRoot => 5 * n + 9
    case CheckRootSync => 5 * n + 8
    case Undo(k) => 5 * k + 6 + (if s.cur.entries[k].dest != Absent then 1 else 0)
    case Seal(k) => 5 * k + 6
    case DropStage(k) => 5 * k + 5
    case SyncEntry(k) => 5 * k + 4
    case Unmark => 3
    case UnmarkSync => 2
    case _ => 0
  }

  /** How many operations are activated from operation k's turn on. */
  function Turns(n: nat, k: nat): (t: nat)
    requires k < n
  {
    if k == 0 then 1 else n - k + 1
  }

  lemma StagingRanks(had: seq<bool>, s: State)
    requires WellFormed(had, s)
    requires s.pc.MakeStage? || s.pc.CopyStage? || s.pc.MakeProbe? || s.pc.DropProbe?
    ensures Rank(|had|, Progress(had, s)) < Rank(|had|, s)
  {
  }

  lemma PreparingRanks(had: seq<bool>, s: State)
    requires WellFormed(had, s)
    requires s.pc.Prepare? || s.pc.PrepareSync? || s.pc.Deactivate? || s.pc.DeactivateSync?
    ensures Rank(|had|, Progress(had, s)) < Rank(|had|, s)
  {
  }

  lemma ActivationRanks(had: seq<bool>, s: State)
    requires WellFormed(had, s)
    requires s.pc.Preserve? || s.pc.PreserveSync? || s.pc.Activate? || s.pc.ActivateSync? || s.pc.Commit?
             || s.pc.CommitSync?
    ensures Rank(|had|, Progress(had, s)) < Rank(|had|, s)
  {
  }

  lemma EndRanks(had: seq<bool>, s: State)
    requires WellFormed(had, s)
    requires s.pc.RecoverStart? || s.pc.CheckRoot? || s.pc.CheckRootSync? || s.pc.Unmark? || s.pc.UnmarkSync?
    ensures Rank(|had|, Progress(had, s)) < Rank(|had|, s)
  {
  }

  lemma MemberRanks(had: seq<bool>, s: State)
    requires WellFormed(had, s)
    requires s.pc.Undo? || s.pc.Seal? || s.pc.DropStage? || s.pc.SyncEntry?
    ensures Rank(|had|, Progress(had, s)) < Rank(|had|, s)
  {
  }

  lemma {:induction false} ProgressRanks(had: seq<bool>, s: State)
    requires WellFormed(had, s) && s.pc !in {Finished, Broken, Down}
    ensures Rank(|had|, Progress(had, s)) < Rank(|had|, s)
  {
    hide Rank, Progress;
    if s.pc.Undo? || s.pc.Seal? || s.pc.DropStage? || s.pc.SyncEntry? { MemberRanks(had, s); }
    else if Recovering(s.pc) { EndRanks(had, s); }
    else if s.pc.MakeStage? || s.pc.CopyStage? || s.pc.MakeProbe? || s.pc.DropProbe? { StagingRanks(had, s); }
    else if s.pc.Prepare? || s.pc.PrepareSync? || s.pc.Deactivate? || s.pc.DeactivateSync? { PreparingRanks(had, s); }
    else { ActivationRanks(had, s); }
  }

  /** The program run to its end with nothing in its way. */
  function Drive(had: seq<bool>, s: State): (t: State)
    requires WellFormed(had, s)
    ensures WellFormed(had, t) && (s.pc != Down ==> t.pc in {Finished, Broken, Down})
    decreases Rank(|had|, s)
  {
    if s.pc in {Finished, Broken, Down} then s
    else
      ProgressRanks(had, s);
      Drive(had, Progress(had, s))
  }

  /** Operations recovery is done with, their stage included once it has been dropped. */
  predicate Behind(pc: Pc, j: nat) {
    match pc
    case Undo(k) => j > k
    case Seal(k) => j > k
    case DropStage(k) => j >= k
    case SyncEntry(k) => j >= k
    case Unmark => true
    case _ => false
  }

  predicate Cleared(pc: Pc, j: nat) {
    Behind(pc, j) && !(pc.DropStage? && j == pc.k)
  }

  predicate PhaseFits(pc: Pc, m: Marker) {
    match pc
    case CheckRoot => m == Prepared
    case CheckRootSync => m == Prepared
    case Undo(_) => m == Prepared
    case Seal(_) => m == Committed
    case DropStage(_) => m != NoMarker
    case SyncEntry(_) => m != NoMarker
    case Unmark => m != NoMarker
    case Broken => m != NoMarker
    case UnmarkSync => m == NoMarker
    case Finished => m == NoMarker
    case _ => true
  }

  /** State s lies on some recovery, interrupted or not, of disk d. */
  ghost predicate OnCourse(had: seq<bool>, d: Disk, s: State)
    requires |had| == |d.entries|
  {
    && WellFormed(had, s)
    && (Recovering(s.pc) || s.pc == Down)
    && PhaseFits(s.pc, s.cur.marker)
    && (if s.cur.marker == NoMarker then s.cur == Target(had, d) && Mendable(had, d)
        else
          && s.cur.marker == d.marker
          && (forall j :: 0 <= j < |had| ==>
                && Settle(d.marker, had[j], s.cur.entries[j]) == Settle(d.marker, had[j], d.entries[j])
                && (Whole(d.marker, had[j], s.cur.entries[j]) <==> Whole(d.marker, had[j], d.entries[j])))
          && (forall j :: 0 <= j < |had| && Behind(s.pc, j) ==>
                && Whole(d.marker, had[j], s.cur.entries[j])
                && s.cur.entries[j].(stage := Absent) == Settle(d.marker, had[j], s.cur.entries[j]))
          && (forall j :: 0 <= j < |had| && Cleared(s.pc, j) ==> s.cur.entries[j].stage == Absent))
    && (s.pc == Broken ==> !Mendable(had, d))
  }

  lemma EntryOnCourse(had: seq<bool>, d: Disk, s: State)
    requires |had| == |d.entries| && OnCourse(had, d, s)
    requires s.pc.RecoverStart? || s.pc.CheckRoot? || s.pc.CheckRootSync?
    ensures OnCourse(had, d, Progress(had, s))
  {
  }

  lemma UndoOnCourse(had: seq<bool>, d: Disk, s: State)
    requires |had| == |d.entries| && OnCourse(had, d, s)
    requires s.pc.Undo?
    ensures OnCourse(had, d, Progress(had, s))
  {
  }

  lemma SealOnCourse(had: seq<bool>, d: Disk, s: State)
    requires |had| == |d.entries| && OnCourse(had, d, s)
    requires s.pc.Seal?
    ensures OnCourse(had, d, Progress(had, s))
  {
  }

  lemma CloseOnCourse(had: seq<bool>, d: Disk, s: State)
    requires |had| == |d.entries| && OnCourse(had, d, s)
    requires s.pc.DropStage? || s.pc.SyncEntry?
    ensures OnCourse(had, d, Progress(had, s))
  {
  }

  lemma EndOnCourse(had: seq<bool>, d: Disk, s: State)
    requires |had| == |d.entries| && OnCourse(had, d, s)
    requires s.pc.Unmark? || s.pc.UnmarkSync? || s.pc.Finished? || s.pc.Down? || s.pc.Broken?
    ensures OnCourse(had, d, Progress(had, s))
  {
  }

  lemma {:induction false} AdvanceOnCourse(had: seq<bool>, d: Disk, s: State)
    requires |had| == |d.entries| && OnCourse(had, d, s)
    ensures OnCourse(had, d, Progress(had, s))
  {
    if s.pc.RecoverStart? || s.pc.CheckRoot? || s.pc.CheckRootSync? { EntryOnCourse(had, d, s); }
    else if s.pc.Undo? { UndoOnCourse(had, d, s); }
    else if s.pc.Seal? { SealOnCourse(had, d, s); }
    else if s.pc.DropStage? || s.pc.SyncEntry? { CloseOnCourse(had, d, s); }
    else { EndOnCourse(had, d, s); }
  }

  lemma RemoveHalfOnCourse(had: seq<bool>, d: Disk, s: State)
    requires |had| == |d.entries| && OnCourse(had, d, s) && Removing(had, s)
    ensures OnCourse(had, d, RemovedHalf(had, s))
  {
  }

  lemma {:induction false} DriveOnCourse(had: seq<bool>, d: Disk, s: State)
    requires |had| == |d.entries| && OnCourse(had, d, s) && Recovering(s.pc)
    ensures OnCourse(had, d, Drive(had, s)) && Drive(had, s).pc in {Finished, Broken}
    decreases Rank(|had|, s)
  {
    if s.pc !in {Finished, Broken} {
      ProgressRanks(had, s);
      AdvanceOnCourse(had, d, s);
      StaysRecovering(had, s);
      DriveOnCourse(had, d, Progress(had, s));
    }
  }

  lemma StaysRecovering(had: seq<bool>, s: State)
    requires WellFormed(had, s) && Recovering(s.pc)
    ensures Recovering(Progress(had, s).pc)
  {
  }

  /** Recovery of any disk whatever: it succeeds exactly when every member has something to keep,
      and then leaves the closed form of that disk, without marker. */
  lemma {:induction false} RecoveryComputes(had: seq<bool>, d: Disk, dur: Disk)
    requires 0 < |had| == |d.entries| == |dur.entries|
    ensures var t := Drive(had, State(d, dur, RecoverStart));
            && t.pc == (if Mendable(had, d) then Finished else Broken)
            && (Mendable(had, d) ==> t.cur == Target(had, d))
  {
    StartOnCourse(had, d, dur, RecoverStart);
    DriveOnCourse(had, d, State(d, dur, RecoverStart));
  }

  /** The steps of recoveries that are killed and started again, in any order. */
  predicate RecoveryStep(step: Step) {
    step in {Advance, RemoveHalf, Kill, Restart}
  }

  lemma {:induction false} InterruptedOnCourse(had: seq<bool>, d: Disk, s: State, steps: seq<Step>)
    requires |had| == |d.entries| && OnCourse(had, d, s)
    requires Legal(ANY_FAULT, had, s, steps) && forall i :: 0 <= i < |steps| ==> RecoveryStep(steps[i])
    ensures OnCourse(had, d, Run(ANY_FAULT, had, s, steps))
    decreases |steps|
  {
    if steps != [] {
      assert RecoveryStep(steps[0]);
      if steps[0] == Advance { AdvanceOnCourse(had, d, s); }
      else if steps[0] == RemoveHalf { RemoveHalfOnCourse(had, d, s); }
      InterruptedOnCourse(had, d, Apply(had, s, steps[0]), steps[1..]);
    }
  }

  lemma StartOnCourse(had: seq<bool>, d: Disk, dur: Disk, pc: Pc)
    requires 0 < |had| == |d.entries| == |dur.entries| && pc in {RecoverStart, Down}
    ensures OnCourse(had, d, State(d, dur, pc))
  {
  }

  lemma RestartOnCourse(had: seq<bool>, d: Disk, s: State)
    requires |had| == |d.entries| && OnCourse(had, d, s)
    ensures OnCourse(had, d, s.(pc := RecoverStart))
  {
  }

  lemma CourseEnds(had: seq<bool>, d: Disk, s: State)
    requires |had| == |d.entries| && OnCourse(had, d, s)
    ensures s.pc == Finished ==> Mendable(had, d) && s.cur == Target(had, d)
    ensures s.pc == Broken ==> !Mendable(had, d)
  {
  }

  /** Stopping recovery anywhere, any number of times, does not change what it arrives at. */
  lemma {:induction false} RecoveryRepeats(had: seq<bool>, d: Disk, dur: Disk, steps: seq<Step>)
    requires 0 < |had| == |d.entries| == |dur.entries|
    requires Legal(ANY_FAULT, had, State(d, dur, Down), steps)
    requires forall i :: 0 <= i < |steps| ==> RecoveryStep(steps[i])
    ensures var s := Run(ANY_FAULT, had, State(d, dur, Down), steps);
            var again := Drive(had, State(s.cur, s.dur, RecoverStart));
            && (again.pc == Finished <==> Mendable(had, d))
            && (Mendable(had, d) ==> again.cur == Target(had, d))
            && (s.pc == Finished ==> s.cur == Target(had, d))
  {
    hide Settle, Whole, Progress, Enabled, OnCourse, Mendable, Target, Drive;
    StartOnCourse(had, d, dur, Down);
    InterruptedOnCourse(had, d, State(d, dur, Down), steps);
    var s := Run(ANY_FAULT, had, State(d, dur, Down), steps);
    CourseEnds(had, d, s);
    RestartOnCourse(had, d, s);
    DriveOnCourse(had, d, s.(pc := RecoverStart));
    CourseEnds(had, d, Drive(had, s.(pc := RecoverStart)));
  }

  predicate Flushed(pc: Pc, j: nat) {
    match pc
    case Undo(k) => j > k
    case Seal(k) => j > k
    case DropStage(k) => j > k
    case SyncEntry(k) => j > k
    case Unmark => true
    case UnmarkSync => true
    case Finished => true
    case _ => false
  }

  /** Everything recovery is done with is durable. */
  ghost predicate Saved(had: seq<bool>, s: State)
    requires WellFormed(had, s)
  {
    && s.pc != Down
    && (forall j :: 0 <= j < |had| && Flushed(s.pc, j) ==> s.dur.entries[j] == s.cur.entries[j])
    && (s.pc == Finished ==> s.dur.marker == s.cur.marker)
    && (s.pc == RecoverStart ==> s.cur.marker != NoMarker)
  }

  lemma {:induction false} DriveSaves(had: seq<bool>, s: State)
    requires WellFormed(had, s) && Recovering(s.pc) && Saved(had, s)
    ensures Drive(had, s).pc == Finished ==> Drive(had, s).dur == Drive(had, s).cur
    decreases Rank(|had|, s)
  {
    if s.pc !in {Finished, Broken} {
      ProgressRanks(had, s);
      StaysRecovering(had, s);
      ProgressSaves(had, s);
      DriveSaves(had, Progress(had, s));
    }
  }

  lemma ProgressSaves(had: seq<bool>, s: State)
    requires WellFormed(had, s) && Recovering(s.pc) && Saved(had, s)
    ensures Saved(had, Progress(had, s))
  {
  }

  /** A recovery that finds a marker and finishes has made its result durable. */
  lemma {:induction false} RecoveryIsDurable(had: seq<bool>, d: Disk, dur: Disk)
    requires 0 < |had| == |d.entries| == |dur.entries|
    requires d.marker != NoMarker && Mendable(had, d)
    ensures Drive(had, State(d, dur, RecoverStart)).dur == Target(had, d)
  {
    RecoveryComputes(had, d, dur);
    DriveSaves(had, State(d, dur, RecoverStart));
  }
}
