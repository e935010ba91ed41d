/** The closure installer and its recovery procedure as one step machine.

    A transaction is `had: seq<bool>`: operation 0 is the root package, the others are its
    dependencies, and `had[k]` says whether operation k replaces an installed tree. Each operation
    owns three sibling paths: its destination, its stage and its backup.

    The disk exists twice: `cur` is what running processes see, `dur` is what survives a power
    cut. A directory entry reaches `dur` by an explicit sync or by a spontaneous flush; a kill
    keeps `cur`, a power cut replaces it by `dur`. */
module ClosureMachine {

  /** What lies at a path: nothing, the tree found there before the transaction, the staged tree,
      or an incomplete tree (a copy under way, a removal that stopped half way, an empty probe). */
  datatype Content = Absent | Old | New | Partial

  datatype Entry = Entry(dest: Content, stage: Content, backup: Content)

  datatype Marker = NoMarker | Prepared | Committed

  datatype Disk = Disk(entries: seq<Entry>, marker: Marker)

  /** Where the running process is; `Down` when none runs, `Broken` when recovery gave up. */
  datatype Pc =
    | MakeStage(k: nat) | CopyStage(k: nat) | MakeProbe(k: nat) | DropProbe(k: nat)
    | Prepare | PrepareSync
    | Deactivate | DeactivateSync
    | Preserve(k: nat) | PreserveSync(k: nat)
    | Activate(k: nat) | ActivateSync(k: nat)
    | Commit | CommitSync
    | RecoverStart
    | CheckRoot | CheckRootSync
    | Undo(k: nat) | Seal(k: nat)
    | DropStage(k: nat) | SyncEntry(k: nat)
    | Unmark | UnmarkSync
    | Finished | Down | Broken

  datatype State = State(cur: Disk, dur: Disk, pc: Pc)

  /** `Advance` is the program's next action and `RemoveHalf` a recursive removal interrupted
      part-way; the other steps are the environment's, except `Restart`, which begins a recovery,
      and `Tidy`, the deferred stage cleanup of a process that returned an error. */
  datatype Step =
    | Advance | RemoveHalf
    | Kill | PowerCut | Restart
    | Flush(k: nat) | FlushMarker
    | Tidy(k: nat, left: Content)

  predicate PcInRange(n: nat, pc: Pc) {
    match pc
    case MakeStage(k) => k < n
    case CopyStage(k) => k < n
    case MakeProbe(k) => k < n
    case DropProbe(k) => k < n
    case Preserve(k) => k < n
    case PreserveSync(k) => k < n
    case Activate(k) => k < n
    case ActivateSync(k) => k < n
    case Undo(k) => k < n
    case Seal(k) => k < n
    case DropStage(k) => k < n
    case SyncEntry(k) => k < n
    case _ => true
  }

  predicate WellFormed(had: seq<bool>, s: State) {
    && 0 < |had| == |s.cur.entries| == |s.dur.entries|
    && PcInRange(|had|, s.pc)
  }

  function Put(d: Disk, k: nat, e: Entry): Disk
    requires k < |d.entries|
  {
    d.(entries := d.entries[k := e])
  }

  /** Saves entry k of the visible disk. */
  function SyncTo(s: State, k: nat, pc: Pc): State
    requires k < |s.cur.entries| == |s.dur.entries|
  {
    State(s.cur, Put(s.dur, k, s.cur.entries[k]), pc)
  }

  /** Dependencies are activated in order and the root last. */
  function FirstActivation(n: nat): (k: nat)
    requires 0 < n
    ensures k < n
  {
    if 1 < n then 1 else 0
  }

  function AfterActivation(n: nat, k: nat): (pc: Pc)
    requires k < n
    ensures PcInRange(n, pc)
  {
    if k == 0 then Commit else if k + 1 < n then Preserve(k + 1) else Preserve(0)
  }

  function AfterStaging(n: nat, k: nat): (pc: Pc)
    requires k < n
    ensures PcInRange(n, pc)
  {
    if k + 1 < n then MakeStage(k + 1) else Prepare
  }

  /** Recovery's test for a root that must be taken out of service before anything is restored. */
  predicate RootActive(had: seq<bool>, d: Disk)
    requires 0 < |had| == |d.entries|
  {
    d.entries[0].dest != Absent && (!had[0] || d.entries[0].backup != Absent)
  }

  /** The program's next action. */
  function Progress(had: seq<bool>, s: State): (t: State)
    requires WellFormed(had, s)
    ensures WellFormed(had, t)
  {
    var n := |had|;
    match s.pc
    case MakeStage(k) =>
      State(Put(s.cur, k, s.cur.entries[k].(stage := Partial)), s.dur, CopyStage(k))
    case CopyStage(k) =>
      State(Put(s.cur, k, s.cur.entries[k].(stage := New)), s.dur,
            if had[k] then MakeProbe(k) else AfterStaging(n, k))
    case MakeProbe(k) =>
      State(Put(s.cur, k, s.cur.entries[k].(backup := Partial)), s.dur, DropProbe(k))
    case DropProbe(k) =>
      State(Put(s.cur, k, s.cur.entries[k].(backup := Absent)), s.dur, AfterStaging(n, k))
    case Prepare => State(s.cur.(marker := Prepared), s.dur, PrepareSync)
    case PrepareSync => State(s.cur, s.dur.(marker := s.cur.marker), Deactivate)
    case Deactivate =>
      if had[0] then
        var e := s.cur.entries[0];
        State(Put(s.cur, 0, e.(dest := Absent, backup := e.dest)), s.dur, DeactivateSync)
      else s.(pc := Preserve(FirstActivation(n)))
    case DeactivateSync => SyncTo(s, 0, Preserve(FirstActivation(n)))
    case Preserve(k) =>
      if had[k] && k != 0 then
        var e := s.cur.entries[k];
        State(Put(s.cur, k, e.(dest := Absent, backup := e.dest)), s.dur, PreserveSync(k))
      else s.(pc := Activate(k))
    case PreserveSync(k) => SyncTo(s, k, Activate(k))
    case Activate(k) =>
      var e := s.cur.entries[k];
      State(Put(s.cur, k, e.(dest := e.stage, stage := Absent)), s.dur, ActivateSync(k))
    case ActivateSync(k) => SyncTo(s, k, AfterActivation(n, k))
    case Commit => State(s.cur.(marker := Committed), s.dur, CommitSync)
    case CommitSync => State(s.cur, s.dur.(marker := s.cur.marker), RecoverStart)
    case RecoverStart =>
      s.(pc := match s.cur.marker
               case NoMarker => Finished
               case Prepared => CheckRoot
               case Committed => Seal(n - 1))
    case CheckRoot =>
      if RootActive(had, s.cur) then
        State(Put(s.cur, 0, s.cur.entries[0].(dest := Absent)), s.dur, CheckRootSync)
      else s.(pc := Undo(n - 1))
    case CheckRootSync => SyncTo(s, 0, Undo(n - 1))
    case Undo(k) =>
      var e := s.cur.entries[k];
      if had[k] && e.backup != Absent then
        if e.dest != Absent then State(Put(s.cur, k, e.(dest := Absent)), s.dur, Undo(k))
        else State(Put(s.cur, k, e.(dest := e.backup, backup := Absent)), s.dur, DropStage(k))
      else if !had[k] && e.dest != Absent then
        State(Put(s.cur, k, e.(dest := Absent)), s.dur, DropStage(k))
      else if had[k] && e.dest == Absent then s.(pc := Broken)
      else s.(pc := DropStage(k))
    case Seal(k) =>
      var e := s.cur.entries[k];
      if e.dest == Absent then s.(pc := Broken)
      else if had[k] && e.backup != Absent then
        State(Put(s.cur, k, e.(backup := Absent)), s.dur, DropStage(k))
      else s.(pc := DropStage(k))
    case DropStage(k) =>
      State(Put(s.cur, k, s.cur.entries[k].(stage := Absent)), s.dur, SyncEntry(k))
    case SyncEntry(k) =>
      SyncTo(s, k, if k == 0 then Unmark
                   else if s.cur.marker == Committed then Seal(k - 1) else Undo(k - 1))
    case Unmark => State(s.cur.(marker := NoMarker), s.dur, UnmarkSync)
    case UnmarkSync => State(s.cur, s.dur.(marker := s.cur.marker), Finished)
    case Finished => s
    case Down => s
    case Broken => s
  }

  /** A recursive removal that stops half way leaves an incomplete tree and the same pc. */
  predicate Removing(had: seq<bool>, s: State)
    requires WellFormed(had, s)
  {
    match s.pc
    case CheckRoot => RootActive(had, s.cur)
    case Undo(k) =>
      s.cur.entries[k].dest != Absent && (!had[k] || s.cur.entries[k].backup != Absent)
    case Seal(k) =>
      s.cur.entries[k].dest != Absent && had[k] && s.cur.entries[k].backup != Absent
    case DropStage(k) => s.cur.entries[k].stage != Absent
    case _ => false
  }

  function RemovedHalf(had: seq<bool>, s: State): (t: State)
    requires WellFormed(had, s) && Removing(had, s)
    ensures WellFormed(had, t)
  {
    match s.pc
    case CheckRoot => s.(cur := Put(s.cur, 0, s.cur.entries[0].(dest := Partial)))
    case Undo(k) => s.(cur := Put(s.cur, k, s.cur.entries[k].(dest := Partial)))
    case Seal(k) => s.(cur := Put(s.cur, k, s.cur.entries[k].(backup := Partial)))
    case DropStage(k) => s.(cur := Put(s.cur, k, s.cur.entries[k].(stage := Partial)))
  }

  predicate Enabled(had: seq<bool>, s: State, step: Step) {
    && WellFormed(had, s)
    && match step
       case RemoveHalf => Removing(had, s)
       case Restart => s.pc == Down
       case Flush(k) => k < |had|
       case Tidy(k, left) =>
         s.pc == Down && k < |had| && s.cur.entries[k].stage != Absent && left in {Absent, Partial}
       case _ => true
  }

  function Apply(had: seq<bool>, s: State, step: Step): (t: State)
    requires Enabled(had, s, step)
    ensures WellFormed(had, t)
  {
    match step
    case Advance => Progress(had, s)
    case RemoveHalf => RemovedHalf(had, s)
    case Kill => s.(pc := Down)
    case PowerCut => State(s.dur, s.dur, Down)
    case Restart => s.(pc := RecoverStart)
    case Flush(k) => SyncTo(s, k, s.pc)
    case FlushMarker => s.(dur := s.dur.(marker := s.cur.marker))
    case Tidy(k, left) => s.(cur := Put(s.cur, k, s.cur.entries[k].(stage := left)))
  }

  /** Which faults a run may contain, besides kills, flushes and half removals at any other moment:
      power cuts; a kill while the committed marker is visible but not synced; a flush of the empty
      directory that only reserves a backup name; a kill while the root's removal by recovery is not synced. */
  datatype Mode = Faults(powerCuts: bool, commitKills: bool, probeFlushes: bool, retireKills: bool)

  const ANY_FAULT := Faults(true, true, true, true)

  const KILLS_ONLY := Faults(false, true, true, true)

  predicate CommitGap(s: State) {
    s.cur.marker == Committed && s.dur.marker == Prepared
  }

  predicate ProbeVisible(s: State, k: nat) {
    s.pc == DropProbe(k)
  }

  predicate RetireGap(had: seq<bool>, s: State)
    requires WellFormed(had, s)
  {
    s.pc == CheckRootSync && s.dur.entries[0].dest != Absent
  }

  predicate Same(e: Entry, f: Entry) {
    e.dest == f.dest && e.backup == f.backup
  }

  ghost predicate Allowed(mode: Mode, had: seq<bool>, s: State, step: Step) {
    && Enabled(had, s, step)
    && (step == PowerCut ==> mode.powerCuts)
    && (step == Kill && CommitGap(s) ==> mode.commitKills)
    && (step.Flush? && ProbeVisible(s, step.k) ==> mode.probeFlushes)
    && (step == Kill && RetireGap(had, s) ==> mode.retireKills)
  }

  /** Whatever the one mode permits, the other does. */
  predicate Within(mode: Mode, mode': Mode) {
    && (mode.powerCuts ==> mode'.powerCuts)
    && (mode.commitKills ==> mode'.commitKills)
    && (mode.probeFlushes ==> mode'.probeFlushes)
    && (mode.retireKills ==> mode'.retireKills)
  }

  ghost predicate Legal(mode: Mode, had: seq<bool>, s: State, steps: seq<Step>)
    decreases |steps|
  {
    steps == [] ||
    (Allowed(mode, had, s, steps[0]) && Legal(mode, had, Apply(had, s, steps[0]), steps[1..]))
  }

  ghost function Run(mode: Mode, had: seq<bool>, s: State, steps: seq<Step>): (t: State)
    requires Legal(mode, had, s, steps)
    ensures WellFormed(had, s) ==> WellFormed(had, t)
    decreases |steps|
  {
    if steps == [] then s else Run(mode, had, Apply(had, s, steps[0]), steps[1..])
  }

  /** The runtime before the transaction: every destination as found, nothing staged. */
  function InitialEntry(h: bool): Entry {
    Entry(if h then Old else Absent, Absent, Absent)
  }

  function InitialDisk(had: seq<bool>): Disk {
    Disk(seq(|had|, k requires 0 <= k < |had| => InitialEntry(had[k])), NoMarker)
  }

  function Initial(had: seq<bool>): State {
    State(InitialDisk(had), InitialDisk(had), MakeStage(0))
  }

  lemma {:induction false} RunConcat(mode: Mode, had: seq<bool>, s: State, a: seq<Step>, b: seq<Step>)
    requires Legal(mode, had, s, a) && Legal(mode, had, Run(mode, had, s, a), b)
    ensures Legal(mode, had, s, a + b)
    ensures Run(mode, had, s, a + b) == Run(mode, had, Run(mode, had, s, a), b)
    decreases |a|
  {
    if a == [] {
      assert a + b == b;
    } else {
      assert (a + b)[0] == a[0] && (a + b)[1..] == a[1..] + b;
      RunConcat(mode, had, Apply(had, s, a[0]), a[1..], b);
    }
  }

  lemma {:induction false} Relax(mode: Mode, mode': Mode, had: seq<bool>, s: State, steps: seq<Step>)
    requires Within(mode, mode') && Legal(mode, had, s, steps)
    ensures Legal(mode', had, s, steps) && Run(mode', had, s, steps) == Run(mode, had, s, steps)
    decreases |steps|
  {
    if steps != [] { Relax(mode, mode', had, Apply(had, s, steps[0]), steps[1..]); }
  }
}
