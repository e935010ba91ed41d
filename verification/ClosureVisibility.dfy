/** The root package is the only way into the closure: whenever it can be seen, so can the matching
    versions of all its dependencies. */
module ClosureVisibility {
  import opened ClosureMachine
  import opened ClosureSafety

  /** A visible new root (even one being removed) has only new dependencies, a visible old root only
      dependencies in their state before the transaction. */
  ghost predicate Consistent(had: seq<bool>, d: Disk)
    requires 0 < |had| == |d.entries|
  {
    && (d.entries[0].dest in {New, Partial} ==> forall j :: 1 <= j < |had| ==> d.entries[j].dest == New)
    && (d.entries[0].dest == Old ==>
          forall j :: 1 <= j < |had| ==> d.entries[j].dest == (if had[j] then Old else Absent))
  }

  /** Recovery has taken the new root out of service. */
  predicate RootRetired(pc: Pc, m: Marker) {
    m == Prepared &&
    (pc.CheckRootSync? || pc.Undo? || pc.DropStage? || pc.SyncEntry? || pc.Unmark?)
  }

  ghost predicate VisibleOrder(had: seq<bool>, s: State)
    requires WellFormed(had, s)
  {
    && Consistent(had, s.cur)
    && (RootRetired(s.pc, s.cur.marker) ==> s.cur.entries[0].dest !in {New, Partial})
  }

  predicate Shown(d: Disk)
    requires 0 < |d.entries|
  {
    d.entries[0].dest in {New, Partial}
  }

  ghost predicate DependenciesNew(had: seq<bool>, d: Disk) {
    |d.entries| == |had| && forall j :: 1 <= j < |had| ==> d.entries[j].dest == New
  }

  ghost predicate DependenciesOld(had: seq<bool>, d: Disk) {
    |d.entries| == |had| && forall j :: 1 <= j < |had| ==> d.entries[j].dest == (if had[j] then Old else Absent)
  }

  /** A root on either disk has its dependencies on both, and a root that a power cut would bring back is
      still visible unless its removal is just being synced. */
  ghost predicate BothOrder(had: seq<bool>, s: State)
    requires WellFormed(had, s)
  {
    && (Shown(s.cur) || Shown(s.dur) ==> DependenciesNew(had, s.cur) && DependenciesNew(had, s.dur))
    && (s.cur.entries[0].dest == Old || s.dur.entries[0].dest == Old ==>
          DependenciesOld(had, s.cur) && DependenciesOld(had, s.dur))
    && (Shown(s.dur) ==> Shown(s.cur) || s.pc == CheckRootSync)
  }

  lemma InstallOrder(had: seq<bool>, s: State)
    requires WellFormed(had, s) && Installing(s.pc) && InstallView(had, s)
    ensures VisibleOrder(had, s)
  {
  }

  lemma InstallBothOrder(had: seq<bool>, s: State)
    requires WellFormed(had, s) && Installing(s.pc) && InstallView(had, s) && InstallDurable(had, s)
    requires BothOrder(had, s)
    ensures BothOrder(had, Progress(had, s))
  {
  }

  lemma RecoveryOrder(had: seq<bool>, s: State)
    requires WellFormed(had, s) && !Installing(s.pc) && RecoveryView(had, s) && VisibleOrder(had, s)
    ensures VisibleOrder(had, Progress(had, s))
  {
  }

  lemma UndoBothOrder(had: seq<bool>, s: State)
    requires WellFormed(had, s) && RecoveryView(had, s) && RecoveryDurable(had, s)
    requires VisibleOrder(had, s) && BothOrder(had, s) && s.pc.Undo?
    ensures BothOrder(had, Progress(had, s))
  {
  }

  lemma SealBothOrder(had: seq<bool>, s: State)
    requires WellFormed(had, s) && RecoveryView(had, s) && RecoveryDurable(had, s)
    requires VisibleOrder(had, s) && BothOrder(had, s) && s.pc.Seal?
    ensures BothOrder(had, Progress(had, s))
  {
  }

  lemma CloseBothOrder(had: seq<bool>, s: State)
    requires WellFormed(had, s) && RecoveryView(had, s) && RecoveryDurable(had, s)
    requires VisibleOrder(had, s) && BothOrder(had, s) && (s.pc.DropStage? || s.pc.SyncEntry?)
    ensures BothOrder(had, Progress(had, s))
  {
  }

  lemma RestBothOrder(had: seq<bool>, s: State)
    requires WellFormed(had, s) && !Installing(s.pc) && RecoveryView(had, s) && RecoveryDurable(had, s)
    requires VisibleOrder(had, s) && BothOrder(had, s)
    requires !s.pc.Undo? && !s.pc.Seal? && !s.pc.DropStage? && !s.pc.SyncEntry?
    ensures BothOrder(had, Progress(had, s))
  {
  }

  lemma {:induction false} RecoveryBothOrder(had: seq<bool>, s: State)
    requires WellFormed(had, s) && !Installing(s.pc) && RecoveryView(had, s) && RecoveryDurable(had, s)
    requires VisibleOrder(had, s) && BothOrder(had, s)
    ensures BothOrder(had, Progress(had, s))
  {
    hide Progress, BothOrder, VisibleOrder, RecoveryView, RecoveryDurable;
    if s.pc.Undo? { UndoBothOrder(had, s); }
    else if s.pc.Seal? { SealBothOrder(had, s); }
    else if s.pc.DropStage? || s.pc.SyncEntry? { CloseBothOrder(had, s); }
    else { RestBothOrder(had, s); }
  }

  ghost predicate OrderInv(mode: Mode, had: seq<bool>, s: State) {
    && Inv(mode, had, s)
    && VisibleOrder(had, s)
    && (mode.powerCuts ==> BothOrder(had, s))
  }

  /** No kill hits the root's removal before it is synced, or there is no power cut. */
  predicate Orderly(mode: Mode) {
    mode.powerCuts ==> !mode.retireKills
  }

  lemma {:induction false} AdvanceOrder(mode: Mode, had: seq<bool>, s: State)
    requires OrderInv(mode, had, s)
    ensures VisibleOrder(had, Progress(had, s))
    ensures mode.powerCuts ==> BothOrder(had, Progress(had, s))
  {
    if Installing(s.pc) {
      InstallProgressView(had, s);
      if s.pc != CommitSync { InstallOrder(had, Progress(had, s)); }
      if mode.powerCuts { InstallBothOrder(had, s); }
    } else {
      RecoveryOrder(had, s);
      if mode.powerCuts { RecoveryBothOrder(had, s); }
    }
  }

  lemma RemovalOrder(mode: Mode, had: seq<bool>, s: State)
    requires OrderInv(mode, had, s) && Removing(had, s)
    ensures VisibleOrder(had, RemovedHalf(had, s))
    ensures mode.powerCuts ==> BothOrder(had, RemovedHalf(had, s))
  {
  }

  lemma CrashOrder(mode: Mode, had: seq<bool>, s: State, step: Step)
    requires OrderInv(mode, had, s) && Orderly(mode) && Allowed(mode, had, s, step)
    requires step in {Kill, PowerCut, Restart}
    ensures VisibleOrder(had, Apply(had, s, step))
    ensures mode.powerCuts ==> BothOrder(had, Apply(had, s, step))
  {
  }

  lemma QuietOrder(mode: Mode, had: seq<bool>, s: State, step: Step)
    requires OrderInv(mode, had, s) && Allowed(mode, had, s, step)
    requires step.Flush? || step == FlushMarker || step.Tidy?
    ensures VisibleOrder(had, Apply(had, s, step))
    ensures mode.powerCuts ==> BothOrder(had, Apply(had, s, step))
  {
  }

  lemma {:induction false} FaultOrder(mode: Mode, had: seq<bool>, s: State, step: Step)
    requires OrderInv(mode, had, s) && Orderly(mode) && Allowed(mode, had, s, step) && step != Advance
    ensures VisibleOrder(had, Apply(had, s, step))
    ensures mode.powerCuts ==> BothOrder(had, Apply(had, s, step))
  {
    hide OrderInv, VisibleOrder, BothOrder, RemovedHalf;
    if step == RemoveHalf { RemovalOrder(mode, had, s); }
    else if step in {Kill, PowerCut, Restart} { CrashOrder(mode, had, s, step); }
    else { QuietOrder(mode, had, s, step); }
  }

  lemma {:induction false} StepOrder(mode: Mode, had: seq<bool>, s: State, step: Step)
    requires Safe(mode, had) && OrderInv(mode, had, s) && Orderly(mode) && Allowed(mode, had, s, step)
    ensures OrderInv(mode, had, Apply(had, s, step))
  {
    StepInv(mode, had, s, step);
    if step == Advance { AdvanceOrder(mode, had, s); } else { FaultOrder(mode, had, s, step); }
  }

  lemma {:induction false} RunOrder(mode: Mode, had: seq<bool>, s: State, steps: seq<Step>)
    requires Safe(mode, had) && OrderInv(mode, had, s) && Orderly(mode) && Legal(mode, had, s, steps)
    ensures OrderInv(mode, had, Run(mode, had, s, steps))
    decreases |steps|
  {
    if steps != [] {
      StepOrder(mode, had, s, steps[0]);
      RunOrder(mode, had, Apply(had, s, steps[0]), steps[1..]);
    }
  }

  // ----- A new root -----

  /** A root that replaces nothing, on either disk, has new dependencies on both, whatever has become of
      backups; no atomicity is needed. */
  ghost predicate NewRootInv(had: seq<bool>, s: State) {
    && WellFormed(had, s) && !had[0]
    && s.cur.entries[0].dest != Old && s.dur.entries[0].dest != Old
    && (Shown(s.cur) || Shown(s.dur) ==> DependenciesNew(had, s.cur) && DependenciesNew(had, s.dur))
    && (Shown(s.dur) ==> Shown(s.cur) || s.pc == CheckRootSync)
    && (RootRetired(s.pc, s.cur.marker) ==> !Shown(s.cur))
    && (if Installing(s.pc) then InstallView(had, s) && InstallSaved(had, s) else MarkerFits(s.pc, s.cur.marker))
  }

  /** Dependencies whose activation has been synced are durably new. */
  ghost predicate InstallSaved(had: seq<bool>, s: State)
    requires WellFormed(had, s)
  {
    && forall j :: 1 <= j < |had| && s.cur.entries[j].dest == New && !InFlux(s.pc, j) ==> s.dur.entries[j].dest == New
  }

  lemma NewRootInstalls(had: seq<bool>, s: State)
    requires NewRootInv(had, s) && Installing(s.pc)
    ensures NewRootInv(had, Progress(had, s))
  {
    InstallProgressView(had, s);
  }

  lemma NewRootRecovers(had: seq<bool>, s: State)
    requires NewRootInv(had, s) && !Installing(s.pc)
    ensures NewRootInv(had, Progress(had, s))
  {
  }

  lemma NewRootFaults(mode: Mode, had: seq<bool>, s: State, step: Step)
    requires NewRootInv(had, s) && !mode.retireKills && Allowed(mode, had, s, step) && step != Advance
    ensures NewRootInv(had, Apply(had, s, step))
  {
  }

  lemma {:induction false} NewRootRun(mode: Mode, had: seq<bool>, s: State, steps: seq<Step>)
    requires NewRootInv(had, s) && !mode.retireKills && Legal(mode, had, s, steps)
    ensures NewRootInv(had, Run(mode, had, s, steps))
    decreases |steps|
  {
    if steps != [] {
      if steps[0] != Advance { NewRootFaults(mode, had, s, steps[0]); }
      else if Installing(s.pc) { NewRootInstalls(had, s); }
      else { NewRootRecovers(had, s); }
      NewRootRun(mode, had, Apply(had, s, steps[0]), steps[1..]);
    }
  }

  /** The faults under which the root never shows mismatched dependencies. */
  predicate Guarded(mode: Mode, had: seq<bool>)
    requires 0 < |had|
  {
    || |had| == 1 || !mode.powerCuts
    || (!mode.retireKills && (!had[0] || (!mode.commitKills && !mode.probeFlushes)))
  }

  /** In every state of every such run, also between the steps of a recovery, what the root package lets a
      user reach is one consistent closure; and so it is on the disk a power cut would leave. */
  lemma {:induction false} ClosureIsConsistent(mode: Mode, had: seq<bool>, steps: seq<Step>)
    requires 0 < |had| && Guarded(mode, had) && Legal(mode, had, Initial(had), steps)
    ensures Consistent(had, Run(mode, had, Initial(had), steps).cur)
    ensures mode.powerCuts ==> Consistent(had, Run(mode, had, Initial(had), steps).dur)
  {
    if |had| == 1 {
    } else if mode.powerCuts && !had[0] {
      NewRootRun(mode, had, Initial(had), steps);
    } else {
      InitialInv(mode, had);
      RunOrder(mode, had, Initial(had), steps);
    }
  }
}
