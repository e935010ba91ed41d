/** What every step of the installer keeps, and the atomicity it gives: whatever was interrupted,
    and however often, the closure at rest is entirely the old one or entirely the new one. */
module ClosureSafety {
  import opened ClosureMachine

  // ----- One operation -----

  /** Destination and backup exactly as before the transaction. */
  predicate Untouched(h: bool, e: Entry) {
    e.dest == (if h then Old else Absent) && e.backup == Absent
  }

  /** As `Untouched`, except that an empty reserved backup name may have been left behind. */
  predicate Littered(h: bool, e: Entry) {
    e.dest == (if h then Old else Absent) && (e.backup == Absent || (h && e.backup == Partial))
  }

  predicate Activated(h: bool, e: Entry) {
    e.dest == New && e.backup == (if h then Old else Absent)
  }

  /** Everything a prepared transaction may leave behind. */
  predicate Undoable(h: bool, e: Entry) {
    if h then Untouched(h, e) || (e.backup == Old && e.dest != Old)
    else e.backup == Absent && e.dest != Old
  }

  /** Everything a committed transaction may leave behind. */
  predicate Sealable(h: bool, e: Entry) {
    e.dest == New && (h || e.backup == Absent) && e.backup != New
  }

  predicate Fresh(h: bool, e: Entry) {
    e.dest == New && e.backup == Absent
  }

  datatype Shape = ULitter | UPre | UUndo | ULive | USeal | UFresh

  predicate Fits(shape: Shape, h: bool, e: Entry) {
    match shape
    case ULitter => Littered(h, e)
    case UPre => Untouched(h, e)
    case UUndo => Undoable(h, e)
    case ULive => Activated(h, e)
    case USeal => Sealable(h, e)
    case UFresh => Fresh(h, e)
  }

  ghost predicate All(shape: Shape, had: seq<bool>, d: Disk) {
    |d.entries| == |had| && forall j :: 0 <= j < |had| ==> Fits(shape, had[j], d.entries[j])
  }

  ghost predicate NoPrevious(had: seq<bool>) {
    forall j :: 0 <= j < |had| ==> !had[j]
  }

  // ----- The installer's own states -----

  predicate Installing(pc: Pc) {
    pc.MakeStage? || pc.CopyStage? || pc.MakeProbe? || pc.DropProbe? || pc.Prepare? || pc.PrepareSync?
    || pc.Deactivate? || pc.DeactivateSync? || pc.Preserve? || pc.PreserveSync? || pc.Activate?
    || pc.ActivateSync? || pc.Commit? || pc.CommitSync?
  }

  /** While the installer runs, operation j's entry is a function of where the installer is. */
  function Staged(h: bool, pc: Pc, j: nat): Entry {
    var dest := if h then Old else Absent;
    match pc
    case MakeStage(k) => Entry(dest, if j < k then New else Absent, Absent)
    case CopyStage(k) => Entry(dest, if j < k then New else if j == k then Partial else Absent, Absent)
    case MakeProbe(k) => Entry(dest, if j <= k then New else Absent, Absent)
    case DropProbe(k) =>
      Entry(dest, if j <= k then New else Absent, if j == k then Partial else Absent)
    case _ => Entry(dest, New, Absent)
  }

  /** Whether operation j has been activated before operation k's turn (the root comes last). */
  predicate Before(j: nat, k: nat) {
    j != 0 && (k == 0 || j < k)
  }

  function InPlace(h: bool): Entry { Entry(if h then Old else Absent, New, Absent) }
  function SetAside(h: bool): Entry { Entry(Absent, New, if h then Old else Absent) }
  function Live(h: bool): Entry { Entry(New, Absent, if h then Old else Absent) }

  function Expected(h: bool, pc: Pc, j: nat): Entry {
    match pc
    case DeactivateSync => if j == 0 then SetAside(h) else InPlace(h)
    case Preserve(k) =>
      if Before(j, k) then Live(h) else if j == 0 then SetAside(h) else InPlace(h)
    case PreserveSync(k) =>
      if Before(j, k) then Live(h) else if j == 0 || j == k then SetAside(h) else InPlace(h)
    case Activate(k) =>
      if Before(j, k) then Live(h) else if j == 0 || j == k then SetAside(h) else InPlace(h)
    case ActivateSync(k) =>
      if Before(j, k) || j == k then Live(h) else if j == 0 then SetAside(h) else InPlace(h)
    case Commit => Live(h)
    case CommitSync => Live(h)
    case _ => Staged(h, pc, j)
  }

  function InstallMarker(pc: Pc): Marker {
    match pc
    case MakeStage(_) => NoMarker
    case CopyStage(_) => NoMarker
    case MakeProbe(_) => NoMarker
    case DropProbe(_) => NoMarker
    case Prepare => NoMarker
    case CommitSync => Committed
    case _ => Prepared
  }

  /** The one operation whose last rename is not yet synced. */
  predicate InFlux(pc: Pc, j: nat) {
    match pc
    case DeactivateSync => j == 0
    case PreserveSync(k) => j == k
    case ActivateSync(k) => j == k
    case _ => false
  }

  // ----- Recovery's states -----

  /** Operations j at which recovery has already finished its renames, by pc. */
  predicate Passed(pc: Pc, j: nat) {
    match pc
    case Undo(k) => j > k
    case Seal(k) => j > k
    case DropStage(k) => j >= k
    case SyncEntry(k) => j >= k
    case Unmark => true
    case _ => false
  }

  predicate Synced(pc: Pc, j: nat) {
    match pc
    case Undo(k) => j > k
    case Seal(k) => j > k
    case DropStage(k) => j > k
    case SyncEntry(k) => j > k
    case Unmark => true
    case _ => false
  }

  predicate StageDropped(pc: Pc, j: nat) {
    Synced(pc, j) || (pc.SyncEntry? && j == pc.k)
  }

  /** A closure at rest: no destination changed, or every destination new. */
  ghost predicate AtRest(had: seq<bool>, d: Disk) {
    All(ULitter, had, d) || All(UFresh, had, d)
  }

  /** What a disk may look like when no process runs. */
  ghost predicate Recoverable(had: seq<bool>, d: Disk) {
    match d.marker
    case NoMarker => AtRest(had, d)
    case Prepared => All(UUndo, had, d)
    case Committed => All(USeal, had, d)
  }

  /** The visible disk while the installer runs. */
  ghost predicate InstallView(had: seq<bool>, s: State)
    requires WellFormed(had, s)
  {
    && s.cur.marker == InstallMarker(s.pc)
    && (forall j :: 0 <= j < |had| ==> s.cur.entries[j] == Expected(had[j], s.pc, j))
    && (s.pc.DropProbe? || s.pc.MakeProbe? ==> had[s.pc.k])
  }

  predicate MarkerFits(pc: Pc, m: Marker) {
    match pc
    case CheckRoot => m == Prepared
    case CheckRootSync => m == Prepared
    case Undo(_) => m == Prepared
    case Seal(_) => m == Committed
    case DropStage(_) => m != NoMarker
    case SyncEntry(_) => m != NoMarker
    case Unmark => m != NoMarker
    case UnmarkSync => m == NoMarker
    case Finished => m == NoMarker
    case _ => true
  }

  /** What recovery leaves of an operation it is done with. */
  predicate Done(m: Marker, h: bool, e: Entry) {
    if m == Committed then Fresh(h, e) else Untouched(h, e)
  }

  /** The visible disk while no process runs or a recovery does. */
  ghost predicate RecoveryView(had: seq<bool>, s: State)
    requires WellFormed(had, s)
  {
    && s.pc != Broken
    && Recoverable(had, s.cur)
    && MarkerFits(s.pc, s.cur.marker)
    && (forall j :: 0 <= j < |had| && Passed(s.pc, j) ==> Done(s.cur.marker, had[j], s.cur.entries[j]))
    && (forall j :: 0 <= j < |had| && StageDropped(s.pc, j) ==> s.cur.entries[j].stage == Absent)
  }

  ghost predicate Visible(had: seq<bool>, s: State)
    requires WellFormed(had, s)
  {
    if Installing(s.pc) then InstallView(had, s) else RecoveryView(had, s)
  }

  /** The durable disk while the installer runs: only the operation in flux may lag behind. */
  ghost predicate InstallDurable(had: seq<bool>, s: State)
    requires WellFormed(had, s)
  {
    && (s.dur.marker == s.cur.marker
        || (s.pc == PrepareSync && s.dur.marker == NoMarker)
        || (s.pc == CommitSync && s.dur.marker == Prepared))
    && (s.cur.marker == NoMarker ==> All(UPre, had, s.dur))
    && (s.cur.marker != NoMarker ==>
          forall j :: 0 <= j < |had| ==>
            if InFlux(s.pc, j) then Fits(UUndo, had[j], s.dur.entries[j])
            else Same(s.cur.entries[j], s.dur.entries[j]))
  }

  /** The durable disk while no process runs or a recovery does. */
  ghost predicate RecoveryDurable(had: seq<bool>, s: State)
    requires WellFormed(had, s)
  {
    && (match (s.cur.marker, s.dur.marker)
        case (NoMarker, NoMarker) =>
          || (All(ULitter, had, s.cur) && All(ULitter, had, s.dur))
          || (All(UFresh, had, s.cur) && All(UFresh, had, s.dur))
        case (NoMarker, Prepared) =>
          || (All(UPre, had, s.cur) && All(UPre, had, s.dur))
          || (NoPrevious(had) && All(UFresh, had, s.cur) && All(UFresh, had, s.dur))
        case (NoMarker, Committed) => All(UFresh, had, s.cur) && All(UFresh, had, s.dur)
        case (Prepared, NoMarker) => All(UPre, had, s.cur) && All(UPre, had, s.dur)
        case (Prepared, Prepared) => All(UUndo, had, s.dur)
        case (Committed, Prepared) => NoPrevious(had) && All(UFresh, had, s.dur)
        case (Committed, Committed) => All(USeal, had, s.dur)
        case (Prepared, Committed) => false
        case (Committed, NoMarker) => false)
    && (forall j :: 0 <= j < |had| && Synced(s.pc, j) ==> Done(s.cur.marker, had[j], s.dur.entries[j]))
  }

  ghost predicate Durable(had: seq<bool>, s: State)
    requires WellFormed(had, s)
  {
    if Installing(s.pc) then InstallDurable(had, s) else RecoveryDurable(had, s)
  }

  /** The modes in which the protocol is claimed to be atomic for this transaction. */
  ghost predicate Safe(mode: Mode, had: seq<bool>) {
    !mode.powerCuts || (!mode.commitKills && !mode.probeFlushes) || NoPrevious(had)
  }

  ghost predicate Inv(mode: Mode, had: seq<bool>, s: State) {
    && WellFormed(had, s)
    && Visible(had, s)
    && (mode.powerCuts ==> Durable(had, s))
  }

  lemma InitialInv(mode: Mode, had: seq<bool>)
    requires 0 < |had|
    ensures Inv(mode, had, Initial(had))
  {
  }

  lemma StagingView(had: seq<bool>, s: State)
    requires WellFormed(had, s) && InstallView(had, s)
    requires s.pc.MakeStage? || s.pc.CopyStage? || s.pc.MakeProbe? || s.pc.DropProbe? || s.pc.Prepare?
    ensures Visible(had, Progress(had, s))
  {
  }

  lemma ActivationView(had: seq<bool>, s: State)
    requires WellFormed(had, s) && InstallView(had, s)
    requires s.pc.PrepareSync? || s.pc.Deactivate? || s.pc.DeactivateSync? || s.pc.Preserve? || s.pc.PreserveSync?
    ensures Visible(had, Progress(had, s))
  {
  }

  lemma CommitView(had: seq<bool>, s: State)
    requires WellFormed(had, s) && InstallView(had, s)
    requires s.pc.Activate? || s.pc.ActivateSync? || s.pc.Commit? || s.pc.CommitSync?
    ensures Visible(had, Progress(had, s))
  {
  }

  lemma ViewEntry(had: seq<bool>, s: State)
    requires WellFormed(had, s) && RecoveryView(had, s)
    requires s.pc.RecoverStart? || s.pc.CheckRoot? || s.pc.CheckRootSync?
    ensures RecoveryView(had, Progress(had, s))
  {
  }

  lemma ViewUndo(had: seq<bool>, s: State)
    requires WellFormed(had, s) && RecoveryView(had, s)
    requires s.pc.Undo?
    ensures RecoveryView(had, Progress(had, s))
  {
  }

  lemma ViewSeal(had: seq<bool>, s: State)
    requires WellFormed(had, s) && RecoveryView(had, s)
    requires s.pc.Seal?
    ensures RecoveryView(had, Progress(had, s))
  {
  }

  lemma ViewClose(had: seq<bool>, s: State)
    requires WellFormed(had, s) && RecoveryView(had, s)
    requires s.pc.DropStage? || s.pc.SyncEntry?
    ensures RecoveryView(had, Progress(had, s))
  {
  }

  lemma ViewEnd(had: seq<bool>, s: State)
    requires WellFormed(had, s) && RecoveryView(had, s)
    requires s.pc.Unmark? || s.pc.UnmarkSync? || s.pc.Finished? || s.pc.Down?
    ensures RecoveryView(had, Progress(had, s))
  {
  }

  lemma InstallRecoverable(had: seq<bool>, s: State)
    requires WellFormed(had, s) && Installing(s.pc) && InstallView(had, s)
    ensures Recoverable(had, s.cur)
  {
  }

  lemma StagingDurable(had: seq<bool>, s: State)
    requires WellFormed(had, s) && InstallView(had, s) && InstallDurable(had, s)
    requires s.pc.MakeStage? || s.pc.CopyStage? || s.pc.MakeProbe? || s.pc.DropProbe? || s.pc.Prepare?
    ensures Durable(had, Progress(had, s))
  {
  }

  lemma ActivationDurable(had: seq<bool>, s: State)
    requires WellFormed(had, s) && InstallView(had, s) && InstallDurable(had, s)
    requires s.pc.PrepareSync? || s.pc.Deactivate? || s.pc.DeactivateSync? || s.pc.Preserve? || s.pc.PreserveSync?
    ensures Durable(had, Progress(had, s))
  {
  }

  lemma CommitDurable(had: seq<bool>, s: State)
    requires WellFormed(had, s) && InstallView(had, s) && InstallDurable(had, s)
    requires s.pc.Activate? || s.pc.ActivateSync? || s.pc.Commit? || s.pc.CommitSync?
    ensures Durable(had, Progress(had, s))
  {
  }

  lemma InstallProgressDurable(had: seq<bool>, s: State)
    requires WellFormed(had, s) && Installing(s.pc) && InstallView(had, s) && InstallDurable(had, s)
    ensures Durable(had, Progress(had, s))
  {
    hide Progress, InstallView, InstallDurable, Durable;
    if s.pc.Activate? || s.pc.ActivateSync? || s.pc.Commit? || s.pc.CommitSync? {
      CommitDurable(had, s);
    } else if s.pc.MakeStage? || s.pc.CopyStage? || s.pc.MakeProbe? || s.pc.DropProbe? || s.pc.Prepare? {
      StagingDurable(had, s);
    } else {
      ActivationDurable(had, s);
    }
  }

  lemma DurableEntry(had: seq<bool>, s: State)
    requires WellFormed(had, s) && RecoveryView(had, s) && RecoveryDurable(had, s)
    requires s.pc.RecoverStart? || s.pc.CheckRoot? || s.pc.CheckRootSync?
    ensures RecoveryDurable(had, Progress(had, s))
  {
  }

  lemma DurableUndo(had: seq<bool>, s: State)
    requires WellFormed(had, s) && RecoveryView(had, s) && RecoveryDurable(had, s)
    requires s.pc.Undo?
    ensures RecoveryDurable(had, Progress(had, s))
  {
  }

  lemma DurableSeal(had: seq<bool>, s: State)
    requires WellFormed(had, s) && RecoveryView(had, s) && RecoveryDurable(had, s)
    requires s.pc.Seal?
    ensures RecoveryDurable(had, Progress(had, s))
  {
  }

  lemma DurableClose(had: seq<bool>, s: State)
    requires WellFormed(had, s) && RecoveryView(had, s) && RecoveryDurable(had, s)
    requires s.pc.DropStage? || s.pc.SyncEntry?
    ensures RecoveryDurable(had, Progress(had, s))
  {
  }

  lemma DurableEnd(had: seq<bool>, s: State)
    requires WellFormed(had, s) && RecoveryView(had, s) && RecoveryDurable(had, s)
    requires s.pc.Unmark? || s.pc.UnmarkSync? || s.pc.Finished? || s.pc.Down?
    ensures RecoveryDurable(had, Progress(had, s))
  {
  }

  lemma RemoveHalfInv(mode: Mode, had: seq<bool>, s: State, step: Step)
    requires Safe(mode, had) && Inv(mode, had, s) && Allowed(mode, had, s, step) && step == RemoveHalf
    ensures Inv(mode, had, Apply(had, s, step))
  {
    if Installing(s.pc) { InstallRecoverable(had, s); }
  }

  lemma KillInv(mode: Mode, had: seq<bool>, s: State, step: Step)
    requires Safe(mode, had) && Inv(mode, had, s) && Allowed(mode, had, s, step) && step == Kill
    ensures Inv(mode, had, Apply(had, s, step))
  {
    if Installing(s.pc) { InstallRecoverable(had, s); }
  }

  lemma PowerCutInv(mode: Mode, had: seq<bool>, s: State, step: Step)
    requires Safe(mode, had) && Inv(mode, had, s) && Allowed(mode, had, s, step) && step == PowerCut
    ensures Inv(mode, had, Apply(had, s, step))
  {
    if Installing(s.pc) { InstallRecoverable(had, s); }
  }

  lemma RestartInv(mode: Mode, had: seq<bool>, s: State, step: Step)
    requires Safe(mode, had) && Inv(mode, had, s) && Allowed(mode, had, s, step) && step == Restart
    ensures Inv(mode, had, Apply(had, s, step))
  {
  }

  lemma FlushInv(mode: Mode, had: seq<bool>, s: State, step: Step)
    requires Safe(mode, had) && Inv(mode, had, s) && Allowed(mode, had, s, step) && step.Flush?
    ensures Inv(mode, had, Apply(had, s, step))
  {
  }

  lemma FlushMarkerInv(mode: Mode, had: seq<bool>, s: State, step: Step)
    requires Safe(mode, had) && Inv(mode, had, s) && Allowed(mode, had, s, step) && step == FlushMarker
    ensures Inv(mode, had, Apply(had, s, step))
  {
  }

  lemma TidyInv(mode: Mode, had: seq<bool>, s: State, step: Step)
    requires Safe(mode, had) && Inv(mode, had, s) && Allowed(mode, had, s, step) && step.Tidy?
    ensures Inv(mode, had, Apply(had, s, step))
  {
    if Installing(s.pc) { InstallRecoverable(had, s); }
  }

  lemma InstallProgressView(had: seq<bool>, s: State)
    requires WellFormed(had, s) && Installing(s.pc) && InstallView(had, s)
    ensures Visible(had, Progress(had, s))
  {
    if s.pc.Activate? || s.pc.ActivateSync? || s.pc.Commit? || s.pc.CommitSync? {
      CommitView(had, s);
    } else if s.pc.MakeStage? || s.pc.CopyStage? || s.pc.MakeProbe? || s.pc.DropProbe? || s.pc.Prepare? {
      StagingView(had, s);
    } else {
      ActivationView(had, s);
    }
  }

  lemma RecoveryProgressView(had: seq<bool>, s: State)
    requires WellFormed(had, s) && !Installing(s.pc) && RecoveryView(had, s)
    ensures RecoveryView(had, Progress(had, s))
  {
    if s.pc.RecoverStart? || s.pc.CheckRoot? || s.pc.CheckRootSync? { ViewEntry(had, s); }
    else if s.pc.Undo? { ViewUndo(had, s); }
    else if s.pc.Seal? { ViewSeal(had, s); }
    else if s.pc.DropStage? || s.pc.SyncEntry? { ViewClose(had, s); }
    else { ViewEnd(had, s); }
  }

  lemma RecoveryProgressDurable(had: seq<bool>, s: State)
    requires WellFormed(had, s) && !Installing(s.pc) && RecoveryView(had, s) && RecoveryDurable(had, s)
    ensures RecoveryDurable(had, Progress(had, s))
  {
    if s.pc.RecoverStart? || s.pc.CheckRoot? || s.pc.CheckRootSync? { DurableEntry(had, s); }
    else if s.pc.Undo? { DurableUndo(had, s); }
    else if s.pc.Seal? { DurableSeal(had, s); }
    else if s.pc.DropStage? || s.pc.SyncEntry? { DurableClose(had, s); }
    else { DurableEnd(had, s); }
  }

  lemma RecoveryStays(had: seq<bool>, s: State)
    requires WellFormed(had, s) && !Installing(s.pc)
    ensures !Installing(Progress(had, s).pc)
  {
  }

  lemma {:induction false} AdvanceInv(mode: Mode, had: seq<bool>, s: State)
    requires Inv(mode, had, s)
    ensures Inv(mode, had, Progress(had, s))
  {
    if Installing(s.pc) {
      InstallProgressView(had, s);
      if mode.powerCuts { InstallProgressDurable(had, s); }
    } else {
      RecoveryStays(had, s);
      RecoveryProgressView(had, s);
      if mode.powerCuts { RecoveryProgressDurable(had, s); }
    }
  }

  /** Every step of every permitted run keeps the invariant. */
  lemma {:induction false} StepInv(mode: Mode, had: seq<bool>, s: State, step: Step)
    requires Safe(mode, had) && Inv(mode, had, s) && Allowed(mode, had, s, step)
    ensures Inv(mode, had, Apply(had, s, step))
  {
    match step
    case Advance => AdvanceInv(mode, had, s);
    case RemoveHalf => RemoveHalfInv(mode, had, s, step);
    case Kill => KillInv(mode, had, s, step);
    case PowerCut => PowerCutInv(mode, had, s, step);
    case Restart => RestartInv(mode, had, s, step);
    case Flush(_) => FlushInv(mode, had, s, step);
    case FlushMarker => FlushMarkerInv(mode, had, s, step);
    case Tidy(_, _) => TidyInv(mode, had, s, step);
  }

  lemma {:induction false} RunInv(mode: Mode, had: seq<bool>, s: State, steps: seq<Step>)
    requires Safe(mode, had) && Inv(mode, had, s) && Legal(mode, had, s, steps)
    ensures Inv(mode, had, Run(mode, had, s, steps))
    decreases |steps|
  {
    if steps != [] {
      StepInv(mode, had, s, steps[0]);
      RunInv(mode, had, Apply(had, s, steps[0]), steps[1..]);
    }
  }
}
