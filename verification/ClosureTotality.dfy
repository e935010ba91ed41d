/** What holds of the closure transaction under every fault: recovery never gets stuck, what it leaves behind
    depends on the marker alone, and a durable commit is final. */
module ClosureTotality {
  import opened ClosureMachine
  import opened ClosureSafety
  import opened ClosureRecovery
  import opened ClosureAtomicity

  /** A replaced member has a tree at its destination or its backup; a new one has no backup. */
  predicate Kept(h: bool, e: Entry) {
    if h then e.dest != Absent || e.backup != Absent else e.backup == Absent
  }

  ghost predicate AllKept(had: seq<bool>, d: Disk) {
    |d.entries| == |had| && forall j :: 0 <= j < |had| ==> Kept(had[j], d.entries[j])
  }

  /** What the installer has activated and synced is durably new, and no commit is durable before it is made. */
  ghost predicate InstallKeeps(had: seq<bool>, s: State)
    requires WellFormed(had, s)
  {
    && InstallView(had, s)
    && (s.cur.marker == NoMarker ==> s.dur.marker == NoMarker)
    && (s.dur.marker == Committed ==> s.pc == CommitSync)
    && forall j :: 0 <= j < |had| && s.cur.entries[j].dest == New && !InFlux(s.pc, j) ==> s.dur.entries[j].dest == New
  }

  ghost predicate KeepsAll(had: seq<bool>, s: State) {
    && WellFormed(had, s) && s.pc != Broken
    && AllKept(had, s.cur) && AllKept(had, s.dur)
    && (s.cur.marker == Committed || s.dur.marker == Committed ==> AllNew(had, s.cur) && AllNew(had, s.dur))
    && !(s.cur.marker == Prepared && s.dur.marker == Committed)
    && (if Installing(s.pc) then InstallKeeps(had, s) else MarkerFits(s.pc, s.cur.marker))
  }

  // ----- Every step keeps it -----

  lemma StagingKeeps(had: seq<bool>, s: State)
    requires KeepsAll(had, s)
    requires s.pc.MakeStage? || s.pc.CopyStage? || s.pc.MakeProbe? || s.pc.DropProbe? || s.pc.Prepare?
             || s.pc.PrepareSync?
    ensures KeepsAll(had, Progress(had, s))
  {
    InstallProgressView(had, s);
  }

  lemma SettingAsideKeeps(had: seq<bool>, s: State)
    requires KeepsAll(had, s)
    requires s.pc.Deactivate? || s.pc.DeactivateSync? || s.pc.Preserve? || s.pc.PreserveSync?
    ensures KeepsAll(had, Progress(had, s))
  {
    InstallProgressView(had, s);
  }

  lemma ActivationKeeps(had: seq<bool>, s: State)
    requires KeepsAll(had, s)
    requires s.pc.Activate? || s.pc.ActivateSync? || s.pc.Commit? || s.pc.CommitSync?
    ensures KeepsAll(had, Progress(had, s))
  {
    InstallProgressView(had, s);
  }

  lemma EntryKeeps(had: seq<bool>, s: State)
    requires KeepsAll(had, s)
    requires s.pc.RecoverStart? || s.pc.CheckRoot? || s.pc.CheckRootSync?
    ensures KeepsAll(had, Progress(had, s))
  {
  }

  lemma UndoKeeps(had: seq<bool>, s: State)
    requires KeepsAll(had, s) && s.pc.Undo?
    ensures KeepsAll(had, Progress(had, s))
  {
  }

  lemma SealKeeps(had: seq<bool>, s: State)
    requires KeepsAll(had, s) && s.pc.Seal?
    ensures KeepsAll(had, Progress(had, s))
  {
  }

  lemma CloseKeeps(had: seq<bool>, s: State)
    requires KeepsAll(had, s)
    requires s.pc.DropStage? || s.pc.SyncEntry?
    ensures KeepsAll(had, Progress(had, s))
  {
  }

  lemma EndKeeps(had: seq<bool>, s: State)
    requires KeepsAll(had, s)
    requires s.pc.Unmark? || s.pc.UnmarkSync? || s.pc.Finished? || s.pc.Down? || s.pc.Broken?
    ensures KeepsAll(had, Progress(had, s))
  {
  }

  lemma {:induction false} AdvanceKeeps(had: seq<bool>, s: State)
    requires KeepsAll(had, s)
    ensures KeepsAll(had, Progress(had, s))
  {
    hide Progress, KeepsAll;
    match s.pc
    case MakeStage(_) => StagingKeeps(had, s);
    case CopyStage(_) => StagingKeeps(had, s);
    case MakeProbe(_) => StagingKeeps(had, s);
    case DropProbe(_) => StagingKeeps(had, s);
    case Prepare => StagingKeeps(had, s);
    case PrepareSync => StagingKeeps(had, s);
    case Deactivate => SettingAsideKeeps(had, s);
    case DeactivateSync => SettingAsideKeeps(had, s);
    case Preserve(_) => SettingAsideKeeps(had, s);
    case PreserveSync(_) => SettingAsideKeeps(had, s);
    case Activate(_) => ActivationKeeps(had, s);
    case ActivateSync(_) => ActivationKeeps(had, s);
    case Commit => ActivationKeeps(had, s);
    case CommitSync => ActivationKeeps(had, s);
    case RecoverStart => EntryKeeps(had, s);
    case CheckRoot => EntryKeeps(had, s);
    case CheckRootSync => EntryKeeps(had, s);
    case Undo(_) => UndoKeeps(had, s);
    case Seal(_) => SealKeeps(had, s);
    case DropStage(_) => CloseKeeps(had, s);
    case SyncEntry(_) => CloseKeeps(had, s);
    case Unmark => EndKeeps(had, s);
    case UnmarkSync => EndKeeps(had, s);
    case Finished => EndKeeps(had, s);
    case Down => EndKeeps(had, s);
    case Broken => EndKeeps(had, s);
  }

  lemma RemoveHalfKeeps(had: seq<bool>, s: State)
    requires KeepsAll(had, s) && Removing(had, s)
    ensures KeepsAll(had, RemovedHalf(had, s))
  {
  }

  lemma FlushKeeps(had: seq<bool>, s: State, k: nat)
    requires KeepsAll(had, s) && k < |had|
    ensures KeepsAll(had, SyncTo(s, k, s.pc))
  {
  }

  lemma TidyKeeps(had: seq<bool>, s: State, step: Step)
    requires KeepsAll(had, s) && Enabled(had, s, step) && step.Tidy?
    ensures KeepsAll(had, Apply(had, s, step))
  {
  }

  lemma CrashKeeps(had: seq<bool>, s: State, step: Step)
    requires KeepsAll(had, s) && Enabled(had, s, step) && step in {Kill, PowerCut, Restart, FlushMarker}
    ensures KeepsAll(had, Apply(had, s, step))
  {
  }

  lemma {:induction false} StepKeeps(had: seq<bool>, s: State, step: Step)
    requires KeepsAll(had, s) && Enabled(had, s, step)
    ensures KeepsAll(had, Apply(had, s, step))
  {
    match step
    case Advance => AdvanceKeeps(had, s);
    case RemoveHalf => RemoveHalfKeeps(had, s);
    case Flush(k) => FlushKeeps(had, s, k);
    case Tidy(_, _) => TidyKeeps(had, s, step);
    case Kill => CrashKeeps(had, s, step);
    case PowerCut => CrashKeeps(had, s, step);
    case Restart => CrashKeeps(had, s, step);
    case FlushMarker => CrashKeeps(had, s, step);
  }

  lemma {:induction false} RunKeeps(mode: Mode, had: seq<bool>, s: State, steps: seq<Step>)
    requires KeepsAll(had, s) && Legal(mode, had, s, steps)
    ensures KeepsAll(had, Run(mode, had, s, steps))
    decreases |steps|
  {
    hide KeepsAll, Apply;
    if steps != [] {
      StepKeeps(had, s, steps[0]);
      RunKeeps(mode, had, Apply(had, s, steps[0]), steps[1..]);
    }
  }

  lemma InitialKeeps(had: seq<bool>)
    requires 0 < |had|
    ensures KeepsAll(had, Initial(had))
  {
  }

  // ----- Recovery is total -----

  lemma KeptMends(had: seq<bool>, s: State, d: Disk)
    requires KeepsAll(had, s) && (d == s.cur || d == s.dur)
    ensures |d.entries| == |had| && Mendable(had, d)
    ensures d.marker != NoMarker ==> Clean(Target(had, d))
    ensures d.marker == NoMarker ==> Target(had, d) == d
    ensures d.marker == Committed ==> AllNew(had, Target(had, d))
  {
  }

  /** After any run whatever, one uninterrupted recovery of any disk it may leave succeeds: no member is ever
      without both content and a rollback copy, and no committed member is missing; a commit it finds is
      carried out. */
  lemma {:induction false} RecoveryIsTotal(mode: Mode, had: seq<bool>, steps: seq<Step>, d: Disk)
    requires 0 < |had| && Legal(mode, had, Initial(had), steps)
    requires LeftBehind(mode, Run(mode, had, Initial(had), steps), d)
    ensures |d.entries| == |had| && Mendable(had, d) && Recovered(had, d).pc == Finished
    ensures Recovered(had, d).cur == Target(had, d)
    ensures d.marker == Committed ==> AllNew(had, Recovered(had, d).cur)
  {
    hide Target, Mendable, KeepsAll, Drive, AllNew, Clean;
    InitialKeeps(had);
    RunKeeps(mode, had, Initial(had), steps);
    KeptMends(had, Run(mode, had, Initial(had), steps), d);
    RecoveryComputes(had, d, d);
  }

  /** After any run whatever, recovery leaves nothing of the transaction beside the destinations exactly when it
      found a marker, or there was nothing to leave. */
  lemma {:induction false} LeftoversExactly(mode: Mode, had: seq<bool>, steps: seq<Step>, d: Disk)
    requires 0 < |had| && Legal(mode, had, Initial(had), steps)
    requires LeftBehind(mode, Run(mode, had, Initial(had), steps), d)
    ensures |d.entries| == |had|
    ensures Clean(Recovered(had, d).cur) <==> d.marker != NoMarker || Clean(d)
  {
    hide Target, Mendable, KeepsAll, Drive, AllNew, Clean;
    InitialKeeps(had);
    RunKeeps(mode, had, Initial(had), steps);
    KeptMends(had, Run(mode, had, Initial(had), steps), d);
    RecoveryComputes(had, d, d);
  }

  // ----- A durable commit is final -----

  /** What a process finds is committed or finished. */
  ghost predicate NewDiskSide(had: seq<bool>, d: Disk) {
    d.marker != Prepared && AllNew(had, d)
  }

  ghost predicate NewSide(mode: Mode, had: seq<bool>, s: State) {
    && WellFormed(had, s)
    && (Installing(s.pc) ==> s.pc == CommitSync && s.cur.marker == Committed)
    && (!Installing(s.pc) ==> s.pc != Broken && MarkerFits(s.pc, s.cur.marker))
    && NewDiskSide(had, s.cur) && (mode.powerCuts ==> NewDiskSide(had, s.dur))
  }

  lemma AdvanceNewSide(mode: Mode, had: seq<bool>, s: State)
    requires NewSide(mode, had, s)
    ensures NewSide(mode, had, Progress(had, s))
  {
  }

  lemma StepNewSide(mode: Mode, had: seq<bool>, s: State, step: Step)
    requires NewSide(mode, had, s) && Allowed(mode, had, s, step)
    ensures NewSide(mode, had, Apply(had, s, step))
  {
    if step == Advance { AdvanceNewSide(mode, had, s); }
  }

  lemma {:induction false} RunNewSide(mode: Mode, had: seq<bool>, s: State, steps: seq<Step>)
    requires NewSide(mode, had, s) && Legal(mode, had, s, steps)
    ensures NewSide(mode, had, Run(mode, had, s, steps))
    decreases |steps|
  {
    hide NewSide, Apply;
    if steps != [] {
      StepNewSide(mode, had, s, steps[0]);
      RunNewSide(mode, had, Apply(had, s, steps[0]), steps[1..]);
    }
  }

  /** The committed marker can no longer be lost. */
  predicate CommitHeld(mode: Mode, s: State) {
    if mode.powerCuts then s.dur.marker == Committed else s.cur.marker == Committed
  }

  lemma HeldIsNewSide(mode: Mode, had: seq<bool>, s: State)
    requires KeepsAll(had, s) && CommitHeld(mode, s)
    ensures NewSide(mode, had, s)
  {
  }

  /** Whatever the faults, once the committed marker is durable every recovery from then on leaves the new
      closure. */
  lemma {:induction false} NewFromCommit(mode: Mode, had: seq<bool>, before: seq<Step>, after: seq<Step>, d: Disk)
    requires 0 < |had| && Legal(mode, had, Initial(had), before)
    requires CommitHeld(mode, Run(mode, had, Initial(had), before))
    requires Legal(mode, had, Run(mode, had, Initial(had), before), after)
    requires LeftBehind(mode, Run(mode, had, Run(mode, had, Initial(had), before), after), d)
    ensures |d.entries| == |had| && Recovered(had, d).pc == Finished && AllNew(had, Recovered(had, d).cur)
  {
    hide Drive, KeepsAll;
    InitialKeeps(had);
    RunKeeps(mode, had, Initial(had), before);
    var s := Run(mode, had, Initial(had), before);
    HeldIsNewSide(mode, had, s);
    RunNewSide(mode, had, s, after);
    RecoveryComputes(had, d, d);
  }

  // ----- A durable marker that is visible no more -----

  /** What recovery has synced has no backup on either disk, and so a marker that is gone from sight but not
      durably stands above none. */
  ghost predicate MarkerFades(had: seq<bool>, s: State) {
    && WellFormed(had, s)
    && (forall j :: 0 <= j < |had| && Passed(s.pc, j) ==> s.cur.entries[j].backup == Absent)
    && (forall j :: 0 <= j < |had| && Synced(s.pc, j) ==> s.dur.entries[j].backup == Absent)
    && (s.cur.marker == NoMarker && s.dur.marker == Prepared ==>
          !Installing(s.pc) && forall j :: 0 <= j < |had| ==>
            s.cur.entries[j].backup == s.dur.entries[j].backup == Absent)
  }

  lemma InstallFades(had: seq<bool>, s: State)
    requires KeepsAll(had, s) && MarkerFades(had, s) && Installing(s.pc)
    ensures MarkerFades(had, Progress(had, s))
  {
  }

  lemma MemberFades(had: seq<bool>, s: State)
    requires KeepsAll(had, s) && MarkerFades(had, s) && (s.pc.Undo? || s.pc.Seal?)
    ensures MarkerFades(had, Progress(had, s))
  {
  }

  lemma CloseFades(had: seq<bool>, s: State)
    requires KeepsAll(had, s) && MarkerFades(had, s) && (s.pc.DropStage? || s.pc.SyncEntry?)
    ensures MarkerFades(had, Progress(had, s))
  {
  }

  lemma RestFades(had: seq<bool>, s: State)
    requires KeepsAll(had, s) && MarkerFades(had, s) && !Installing(s.pc)
    requires !s.pc.Undo? && !s.pc.Seal? && !s.pc.DropStage? && !s.pc.SyncEntry?
    ensures MarkerFades(had, Progress(had, s))
  {
  }

  lemma FaultFades(had: seq<bool>, s: State, step: Step)
    requires KeepsAll(had, s) && MarkerFades(had, s) && Enabled(had, s, step) && step != Advance
    ensures MarkerFades(had, Apply(had, s, step))
  {
  }

  lemma {:induction false} RunFades(mode: Mode, had: seq<bool>, s: State, steps: seq<Step>)
    requires KeepsAll(had, s) && MarkerFades(had, s) && Legal(mode, had, s, steps)
    ensures KeepsAll(had, Run(mode, had, s, steps)) && MarkerFades(had, Run(mode, had, s, steps))
    decreases |steps|
  {
    hide KeepsAll, MarkerFades;
    if steps != [] {
      StepKeeps(had, s, steps[0]);
      if steps[0] != Advance { FaultFades(had, s, steps[0]); }
      else if Installing(s.pc) { InstallFades(had, s); }
      else if s.pc.Undo? || s.pc.Seal? { MemberFades(had, s); }
      else if s.pc.DropStage? || s.pc.SyncEntry? { CloseFades(had, s); }
      else { RestFades(had, s); }
      RunFades(mode, had, Apply(had, s, steps[0]), steps[1..]);
    }
  }

  /** Destination k durably changed by a later installation, which knows nothing of this transaction. */
  function Later(d: Disk, k: nat, c: Content): Disk
    requires k < |d.entries|
  {
    Put(d, k, d.entries[k].(dest := c))
  }

  lemma LaterMends(had: seq<bool>, s: State, k: nat, c: Content)
    requires KeepsAll(had, s) && MarkerFades(had, s) && s.cur.marker == NoMarker && k < |had| && c != Absent
    ensures var d := Later(s.dur, k, c);
            && Mendable(had, d)
            && (Target(had, d).entries[k].dest == c <==> s.dur.marker != Prepared || had[k])
  {
  }

  /** When the marker is gone from sight, a later installation at one of its destinations, made durable, survives
      a power cut and the recovery after it exactly when the marker is gone durably or was committed, or the
      transaction had replaced a tree there. */
  lemma {:induction false} LaterInstallSurvives(mode: Mode, had: seq<bool>, steps: seq<Step>, k: nat, c: Content)
    requires k < |had| && c != Absent && Legal(mode, had, Initial(had), steps)
    requires Run(mode, had, Initial(had), steps).cur.marker == NoMarker
    ensures var dur := Run(mode, had, Initial(had), steps).dur;
            && |dur.entries| == |had|
            && Recovered(had, Later(dur, k, c)).pc == Finished
            && (Recovered(had, Later(dur, k, c)).cur.entries[k].dest == c <==> dur.marker != Prepared || had[k])
  {
    hide Mendable, MarkerFades, Drive;
    InitialKeeps(had);
    InitialFades(had);
    RunFades(mode, had, Initial(had), steps);
    var s := Run(mode, had, Initial(had), steps);
    LaterMends(had, s, k, c);
    RecoveryComputes(had, Later(s.dur, k, c), Later(s.dur, k, c));
  }

  lemma InitialFades(had: seq<bool>)
    requires 0 < |had|
    ensures MarkerFades(had, Initial(had))
  {
  }
}
