/** The installer and its recovery as they run: loops over recorded operations, renaming and removing
    trees in a map of paths, any call of which may fail. Every action is shown to be a step of the
    machine, so what holds of all its runs holds of these methods, wherever they stop. */
module ClosureInstaller {
  import opened ClosureMachine
  import opened ClosureRecovery
  import opened ClosureAtomicity
  import opened ClosureFaults
  import opened ClosureSafety

  type Path = seq<string>

  datatype Tree<T> = Package(content: T) | Torn

  datatype Operation = Operation(dest: Path, stage: Path, backup: Path, hadPrevious: bool)

  datatype MarkerFile = NoFile | File(phase: Marker, operations: seq<Operation>)

  /** How a system call ends. */
  datatype Outcome = Works | Fails | StopsHalfWay

  /** At most one call does not work, and that is the last one told; later calls work. */
  predicate Lone(outcomes: seq<Outcome>) {
    forall i :: 0 <= i < |outcomes| - 1 ==> outcomes[i] == Works
  }

  /** What has become of the calls to come: with none told to fail nothing fails, and a single failure is spent
      by whatever reports it. */
  predicate Fared(before: seq<Outcome>, after: seq<Outcome>, ok: bool) {
    && (before == [] ==> ok && after == [])
    && (Lone(before) ==> Lone(after) && (!ok ==> after == []))
  }

  const STAGE_PREFIX := ".skills-hub-stage-"
  const BACKUP_PREFIX := ".skills-hub-backup-"

  predicate Sibling(dest: Path, p: Path, prefix: string) {
    && |p| == |dest| > 0 && p[..|p| - 1] == dest[..|dest| - 1]
    && prefix <= p[|p| - 1]
  }

  /** The check every recorded operation must pass before recovery touches anything. */
  predicate ValidOperation(root: Path, op: Operation) {
    && root < op.dest
    && Sibling(op.dest, op.stage, STAGE_PREFIX)
    && (if op.hadPrevious then Sibling(op.dest, op.backup, BACKUP_PREFIX) else op.backup == [])
  }

  predicate Owns(op: Operation, p: Path) {
    p == op.dest || p == op.stage || (op.hadPrevious && p == op.backup)
  }

  function Paths(op: Operation): set<Path> {
    {op.dest, op.stage} + (if op.hadPrevious then {op.backup} else {})
  }

  /** All paths a transaction may touch. */
  function Owned(ops: seq<Operation>): set<Path> {
    set k, p | 0 <= k < |ops| && p in Paths(ops[k]) :: p
  }

  lemma OwnsInside(ops: seq<Operation>, k: nat, p: Path)
    requires k < |ops| && Owns(ops[k], p)
    ensures p in Owned(ops)
  {
    assert p in Paths(ops[k]);
  }

  /** No path serves twice. */
  ghost predicate Distinct(ops: seq<Operation>) {
    && (forall k :: 0 <= k < |ops| ==>
          && ops[k].dest != ops[k].stage
          && (ops[k].hadPrevious ==> ops[k].backup != ops[k].dest && ops[k].backup != ops[k].stage))
    && (forall i, j, p :: 0 <= i < |ops| && 0 <= j < |ops| && i != j && Owns(ops[i], p) ==> !Owns(ops[j], p))
  }

  /** A marker as installations write them, with a phase and no path named twice. Installation and recovery
      both leave such a marker where they found one. */
  ghost predicate Written(m: MarkerFile) {
    m.File? ==> m.phase != NoMarker && Distinct(m.operations)
  }

  function Had(ops: seq<Operation>): seq<bool> {
    seq(|ops|, k requires 0 <= k < |ops| => ops[k].hadPrevious)
  }

  /** Path p holds what the machine says it holds. */
  ghost predicate Holds<T>(files: map<Path, Tree<T>>, p: Path, c: Content, was: Tree<T>, will: Tree<T>) {
    && (p in files <==> c != Absent)
    && (c == Old ==> files[p] == was)
    && (c == New ==> files[p] == will)
  }

  ghost predicate EntryHolds<T>(files: map<Path, Tree<T>>, op: Operation, e: Entry, was: Tree<T>, will: Tree<T>) {
    && Holds(files, op.dest, e.dest, was, will)
    && Holds(files, op.stage, e.stage, was, will)
    && (if op.hadPrevious then Holds(files, op.backup, e.backup, was, will) else e.backup == Absent)
  }

  ghost predicate Matches<T>(files: map<Path, Tree<T>>, ops: seq<Operation>, d: Disk,
                             was: seq<Tree<T>>, will: seq<Tree<T>>) {
    && |ops| == |d.entries| == |was| == |will|
    && forall k :: 0 <= k < |ops| ==> EntryHolds(files, ops[k], d.entries[k], was[k], will[k])
  }

  ghost predicate AgreeOff<T>(files: map<Path, Tree<T>>, files': map<Path, Tree<T>>, op: Operation) {
    forall p :: !Owns(op, p) ==> (p in files <==> p in files') && (p in files ==> files[p] == files'[p])
  }

  lemma MatchUpdate<T>(files: map<Path, Tree<T>>, files': map<Path, Tree<T>>, ops: seq<Operation>, d: Disk,
                       k: nat, e: Entry, was: seq<Tree<T>>, will: seq<Tree<T>>)
    requires Matches(files, ops, d, was, will) && Distinct(ops) && k < |ops|
    requires AgreeOff(files, files', ops[k]) && EntryHolds(files', ops[k], e, was[k], will[k])
    ensures Matches(files', ops, Put(d, k, e), was, will)
  {
  }

  lemma WriteMatches<T>(files: map<Path, Tree<T>>, ops: seq<Operation>, d: Disk, k: nat, p: Path, tree: Tree<T>,
                        e: Entry, was: seq<Tree<T>>, will: seq<Tree<T>>)
    requires Matches(files, ops, d, was, will) && Distinct(ops) && k < |ops| && Owns(ops[k], p)
    requires EntryHolds(files[p := tree], ops[k], e, was[k], will[k])
    ensures Matches(files[p := tree], ops, Put(d, k, e), was, will)
  {
  }

  lemma RemoveMatches<T>(files: map<Path, Tree<T>>, ops: seq<Operation>, d: Disk, k: nat, p: Path,
                         e: Entry, was: seq<Tree<T>>, will: seq<Tree<T>>)
    requires Matches(files, ops, d, was, will) && Distinct(ops) && k < |ops| && Owns(ops[k], p)
    requires EntryHolds(files - {p}, ops[k], e, was[k], will[k])
    ensures Matches(files - {p}, ops, Put(d, k, e), was, will)
  {
  }

  lemma MoveMatches<T>(files: map<Path, Tree<T>>, ops: seq<Operation>, d: Disk, k: nat, from: Path, to: Path,
                       e: Entry, was: seq<Tree<T>>, will: seq<Tree<T>>)
    requires Matches(files, ops, d, was, will) && Distinct(ops) && k < |ops| && from in files
    requires Owns(ops[k], from) && Owns(ops[k], to)
    requires EntryHolds((files - {from})[to := files[from]], ops[k], e, was[k], will[k])
    ensures Matches((files - {from})[to := files[from]], ops, Put(d, k, e), was, will)
  {
    MatchUpdate(files, (files - {from})[to := files[from]], ops, d, k, e, was, will);
  }

  /** An operation's stage may be removed, or half removed, without disturbing anything else. */
  lemma StageMatches<T>(files: map<Path, Tree<T>>, ops: seq<Operation>, d: Disk, k: nat,
                        was: seq<Tree<T>>, will: seq<Tree<T>>)
    requires Matches(files, ops, d, was, will) && Distinct(ops) && k < |ops|
    ensures ops[k].stage in files <==> d.entries[k].stage != Absent
    ensures Matches(files - {ops[k].stage}, ops, Put(d, k, d.entries[k].(stage := Absent)), was, will)
    ensures ops[k].stage in files ==>
              Matches(files[ops[k].stage := Torn], ops, Put(d, k, d.entries[k].(stage := Partial)), was, will)
  {
    var e, stage := d.entries[k], ops[k].stage;
    assert EntryHolds(files, ops[k], e, was[k], will[k]);
    RemoveMatches(files, ops, d, k, stage, e.(stage := Absent), was, will);
    WriteMatches(files, ops, d, k, stage, Torn, e.(stage := Partial), was, will);
  }

  ghost predicate SameDests<T>(before: map<Path, Tree<T>>, after: map<Path, Tree<T>>, ops: seq<Operation>) {
    forall k :: 0 <= k < |ops| ==>
      && (ops[k].dest in after <==> ops[k].dest in before)
      && (ops[k].dest in before ==> after[ops[k].dest] == before[ops[k].dest])
  }

  /** Stages and backups are no operation's destination. */
  lemma BesideDests(ops: seq<Operation>, k: nat, p: Path)
    requires Distinct(ops) && k < |ops| && (p == ops[k].stage || (ops[k].hadPrevious && p == ops[k].backup))
    ensures forall j :: 0 <= j < |ops| ==> p != ops[j].dest
  {
    forall j | 0 <= j < |ops| ensures p != ops[j].dest {
      assert Owns(ops[k], p) && Owns(ops[j], ops[j].dest);
    }
  }

  // ----- Recovery in terms of files -----

  datatype Fate<T> = Removed | Kept(tree: Tree<T>) | Lost

  /** What recovery must make of an operation's destination, read off the files. */
  function FateOf<T>(files: map<Path, Tree<T>>, phase: Marker, op: Operation): Fate<T> {
    if phase == Prepared && !op.hadPrevious then Removed
    else if phase == Prepared && op.backup in files then Kept(files[op.backup])
    else if op.dest in files then Kept(files[op.dest])
    else Lost
  }

  /** Operation op after recovery: its destination is as due, its other paths are gone. */
  ghost predicate Restored<T>(files: map<Path, Tree<T>>, op: Operation, due: Fate<T>) {
    && op.stage !in files
    && (op.hadPrevious ==> op.backup !in files)
    && match due
       case Removed => op.dest !in files
       case Kept(t) => op.dest in files && files[op.dest] == t
       case Lost => false
  }

  /** The machine's view of files found after a crash. */
  function Found<T>(files: map<Path, Tree<T>>, op: Operation): Entry {
    Entry(if op.dest in files then New else Absent,
          if op.stage in files then Partial else Absent,
          if op.hadPrevious && op.backup in files then Old else Absent)
  }

  function Lookup<T>(files: map<Path, Tree<T>>, p: Path): Tree<T> {
    if p in files then files[p] else Torn
  }

  ghost function FoundDisk<T>(files: map<Path, Tree<T>>, phase: Marker, ops: seq<Operation>): Disk {
    Disk(seq(|ops|, k requires 0 <= k < |ops| => Found(files, ops[k])), phase)
  }

  function Backups(ops: seq<Operation>): seq<Path> {
    seq(|ops|, k requires 0 <= k < |ops| => ops[k].backup)
  }

  function Destinations(ops: seq<Operation>): seq<Path> {
    seq(|ops|, k requires 0 <= k < |ops| => ops[k].dest)
  }

  function TreesAt<T>(files: map<Path, Tree<T>>, paths: seq<Path>): seq<Tree<T>> {
    seq(|paths|, k requires 0 <= k < |paths| => Lookup(files, paths[k]))
  }

  lemma FoundMatches<T>(files: map<Path, Tree<T>>, phase: Marker, ops: seq<Operation>)
    ensures Matches(files, ops, FoundDisk(files, phase, ops),
                    TreesAt(files, Backups(ops)), TreesAt(files, Destinations(ops)))
  {
  }

  lemma Mended<T>(before: map<Path, Tree<T>>, after: map<Path, Tree<T>>, ops: seq<Operation>,
                  was: seq<Tree<T>>, will: seq<Tree<T>>, d: Disk, s: State)
    requires d.marker != NoMarker && d == FoundDisk(before, d.marker, ops)
    requires Matches(before, ops, d, was, will) && Matches(after, ops, s.cur, was, will)
    requires OnCourse(Had(ops), d, s)
    ensures s.cur.marker == NoMarker ==>
              forall k :: 0 <= k < |ops| ==> Restored(after, ops[k], FateOf(before, d.marker, ops[k]))
    ensures s.cur.marker != NoMarker ==>
              forall k :: 0 <= k < |ops| ==> FateOf(after, d.marker, ops[k]) == FateOf(before, d.marker, ops[k])
    ensures Mendable(Had(ops), d) <==> forall k :: 0 <= k < |ops| ==> FateOf(before, d.marker, ops[k]) != Lost
  {
  }

  /** Everywhere what the marker calls for has been done. */
  ghost predicate Mends<T>(before: map<Path, Tree<T>>, m: MarkerFile, after: map<Path, Tree<T>>) {
    match m
    case NoFile => after == before
    case File(phase, operations) =>
      && after - Owned(operations) == before - Owned(operations)
      && forall k :: 0 <= k < |operations| ==> Restored(after, operations[k], FateOf(before, phase, operations[k]))
  }

  /** The files still call for the same. */
  ghost predicate SameFates<T>(before: map<Path, Tree<T>>, m: MarkerFile, after: map<Path, Tree<T>>)
    requires m.File?
  {
    && after - Owned(m.operations) == before - Owned(m.operations)
    && forall k :: 0 <= k < |m.operations| ==>
         FateOf(after, m.phase, m.operations[k]) == FateOf(before, m.phase, m.operations[k])
  }

  // ----- Plans and names -----

  datatype Plan<T> = Plan(dest: Path, source: T)

  predicate WellPlaced<T>(root: Path, plans: seq<Plan<T>>) {
    && (forall k :: 0 <= k < |plans| ==> root < plans[k].dest)
    && (forall i, j :: 0 <= i < j < |plans| ==> plans[i].dest != plans[j].dest)
  }

  ghost function LongNames(used: set<Path>, n: nat, length: nat): set<Path> {
    set q | q in used && |q| == n + 1 && length <= |q[n]|
  }

  /** A new name beside dest, as a temporary directory gets one. */
  method FreshSibling(dest: Path, prefix: string, used: set<Path>) returns (p: Path)
    requires dest != []
    ensures Sibling(dest, p, prefix) && p !in used
  {
    var parent := dest[..|dest| - 1];
    var base := prefix;
    while parent + [base] in used
      invariant prefix <= base
      decreases LongNames(used, |parent|, |base|)
    {
      assert parent + [base] in LongNames(used, |parent|, |base|) - LongNames(used, |parent|, |base| + 1);
      base := base + "0";
    }
    p := parent + [base];
    assert p[..|p| - 1] == parent;
  }

  /** Operations for the plans, staging and backing up under names that nothing uses. */
  ghost predicate Named<T>(root: Path, ops: seq<Operation>, plans: seq<Plan<T>>, had: seq<bool>, used: set<Path>)
    requires |ops| <= |plans| == |had|
  {
    forall k :: 0 <= k < |ops| ==>
      && ops[k].dest == plans[k].dest && ops[k].hadPrevious == had[k] && ValidOperation(root, ops[k])
      && ops[k].stage !in used && (had[k] ==> ops[k].backup !in used)
  }

  lemma DistinctAppend(ops: seq<Operation>, op: Operation)
    requires Distinct(ops) && op.dest != op.stage
    requires op.hadPrevious ==> op.backup != op.dest && op.backup != op.stage
    requires forall i, p :: 0 <= i < |ops| && Owns(ops[i], p) ==> !Owns(op, p)
    ensures Distinct(ops + [op])
  {
  }

  method NameOperation<T>(root: Path, plan: Plan<T>, had: bool, taken: set<Path>) returns (op: Operation)
    requires root < plan.dest && plan.dest in taken
    ensures op.dest == plan.dest && op.hadPrevious == had && ValidOperation(root, op)
    ensures op.stage !in taken && (had ==> op.backup !in taken && op.backup != op.stage)
  {
    var stage := FreshSibling(plan.dest, STAGE_PREFIX, taken);
    var backup := [];
    if had { backup := FreshSibling(plan.dest, BACKUP_PREFIX, taken + {stage}); }
    op := Operation(plan.dest, stage, backup, had);
  }

  /** Names every operation's stage and backup: valid, distinct, and all of them unused. */
  method NameOperations<T>(root: Path, plans: seq<Plan<T>>, had: seq<bool>, used: set<Path>)
    returns (ops: seq<Operation>)
    requires |plans| == |had| && WellPlaced(root, plans)
    requires forall k :: 0 <= k < |plans| ==> plans[k].dest in used
    ensures |ops| == |plans| && Named(root, ops, plans, had, used) && Distinct(ops)
  {
    ops := [];
    var taken := used;
    while |ops| < |plans|
      invariant |ops| <= |plans| && Named(root, ops, plans, had, used) && Distinct(ops) && used <= taken
      invariant forall k :: 0 <= k < |ops| ==> Paths(ops[k]) <= taken
    {
      ghost var k := |ops|;
      var op := NameOperation(root, plans[|ops|], had[|ops|], taken);
      forall i, p | 0 <= i < k && Owns(ops[i], p) ensures !Owns(op, p) {
        assert p in Paths(ops[i]) && ops[i].dest == plans[i].dest;
      }
      DistinctAppend(ops, op);
      ops := ops + [op];
      taken := taken + Paths(op);
    }
  }

  // ----- What an installation leaves, in terms of files -----

  function Sources<T>(plans: seq<Plan<T>>): seq<T> {
    seq(|plans|, k requires 0 <= k < |plans| => plans[k].source)
  }

  function Packages<T>(plans: seq<Plan<T>>): seq<Tree<T>> {
    seq(|plans|, k requires 0 <= k < |plans| => Package(plans[k].source))
  }

  /** The tree that was at a plan's destination, if any, is what recovery will leave there. */
  function OldFate<T>(before: map<Path, Tree<T>>, dest: Path): Fate<T> {
    if dest in before then Kept(before[dest]) else Removed
  }

  ghost predicate AllBefore<T>(before: map<Path, Tree<T>>, after: map<Path, Tree<T>>, plans: seq<Plan<T>>) {
    forall k :: 0 <= k < |plans| ==>
      && (plans[k].dest in before <==> plans[k].dest in after)
      && (plans[k].dest in before ==> before[plans[k].dest] == after[plans[k].dest])
  }

  /** Exactly the plans' packages have been put in place. */
  ghost predicate Replaced<T>(before: map<Path, Tree<T>>, after: map<Path, Tree<T>>, plans: seq<Plan<T>>) {
    && AllInstalled(after, plans)
    && forall p :: (forall k :: 0 <= k < |plans| ==> p != plans[k].dest) ==>
         (p in after <==> p in before) && (p in after ==> after[p] == before[p])
  }

  ghost predicate AllInstalled<T>(after: map<Path, Tree<T>>, plans: seq<Plan<T>>) {
    forall k :: 0 <= k < |plans| ==>
      plans[k].dest in after && after[plans[k].dest] == Package(plans[k].source)
  }

  ghost predicate WhollyOldOrNew<T>(before: map<Path, Tree<T>>, after: map<Path, Tree<T>>, plans: seq<Plan<T>>) {
    AllBefore(before, after, plans) || AllInstalled(after, plans)
  }

  /** An installation is refused over installed packages unless forced, and a closure of several packages is never
      replaced in place. */
  ghost predicate Obstructed<T>(files: map<Path, Tree<T>>, plans: seq<Plan<T>>, force: bool) {
    || (!force && exists k :: 0 <= k < |plans| && plans[k].dest in files)
    || (1 < |plans| && plans[0].dest in files)
  }

  /** Whatever happened, the marker on disk says which closure stands, or will stand after recovery. */
  ghost predicate Decided<T>(before: map<Path, Tree<T>>, after: map<Path, Tree<T>>, m: MarkerFile,
                             ops: seq<Operation>, plans: seq<Plan<T>>)
    requires |ops| == |plans|
  {
    match m
    case NoFile => AllBefore(before, after, plans) || AllInstalled(after, plans)
    case File(phase, recorded) =>
      && recorded == ops
      && forall k :: 0 <= k < |ops| ==>
           FateOf(after, phase, ops[k])
           == (if phase == Committed then Kept(Package(plans[k].source)) else OldFate(before, plans[k].dest))
  }

  lemma OldEntries(had: seq<bool>, d: Disk, e: Disk)
    requires AllOld(had, d) && e.entries == d.entries
    ensures AllOld(had, e)
  {
  }

  lemma ReplacedWholly<T>(before: map<Path, Tree<T>>, after: map<Path, Tree<T>>, plans: seq<Plan<T>>)
    requires Replaced(before, after, plans)
    ensures WhollyOldOrNew(before, after, plans)
  {
  }

  /** The operations at the start of a transaction for the plans. */
  ghost predicate Prepares<T>(ops: seq<Operation>, plans: seq<Plan<T>>, before: map<Path, Tree<T>>) {
    && |ops| == |plans|
    && forall k :: 0 <= k < |ops| ==>
         && ops[k].dest == plans[k].dest && (ops[k].hadPrevious <==> plans[k].dest in before)
         && ops[k].stage !in before && (ops[k].hadPrevious ==> ops[k].backup !in before)
  }

  /** Where an installation may end: with the earlier transaction pending as it was, or with its outcome in
      place and then nothing else done, or, where nothing obstructs it, the new closure decided on top. */
  /** No stage of the transaction is left. */
  ghost predicate Unstaged<T>(files: map<Path, Tree<T>>, ops: seq<Operation>) {
    forall k :: 0 <= k < |ops| ==> ops[k].stage !in files
  }

  ghost predicate Stands<T(!new)>(before: map<Path, Tree<T>>, m: MarkerFile, after: map<Path, Tree<T>>, m': MarkerFile,
                                  ops: seq<Operation>, plans: seq<Plan<T>>, force: bool, lone: bool, ok: bool) {
    || (!ok && m.File? && m' == m && SameFates(before, m, after))
    || exists mid :: Mends(before, m, mid) && Onto(mid, after, m', ops, plans, force, lone, ok)
  }

  ghost predicate Onto<T>(mid: map<Path, Tree<T>>, after: map<Path, Tree<T>>, m': MarkerFile,
                          ops: seq<Operation>, plans: seq<Plan<T>>, force: bool, lone: bool, ok: bool) {
    || (!ok && after == mid && m' == NoFile)
    || (&& |ops| == |plans| && !Obstructed(mid, plans, force) && Decided(mid, after, m', ops, plans)
        && after - Owned(ops) == mid - Owned(ops)
        && (lone ==> WhollyOldOrNew(mid, after, plans) && Unstaged(after, ops)))
  }

  lemma InitialMatches<T>(ops: seq<Operation>, plans: seq<Plan<T>>, before: map<Path, Tree<T>>)
    requires Prepares(ops, plans, before)
    ensures Matches(before, ops, InitialDisk(Had(ops)), TreesAt(before, Destinations(ops)), Packages(plans))
  {
  }

  lemma Verdict<T>(before: map<Path, Tree<T>>, after: map<Path, Tree<T>>, ops: seq<Operation>,
                   plans: seq<Plan<T>>, d: Disk)
    requires Prepares(ops, plans, before) && 0 < |ops|
    requires Matches(after, ops, d, TreesAt(before, Destinations(ops)), Packages(plans))
    requires Recoverable(Had(ops), d)
    ensures Decided(before, after, if d.marker == NoMarker then NoFile else File(d.marker, ops), ops, plans)
  {
    forall k | 0 <= k < |ops|
      ensures EntryHolds(after, ops[k], d.entries[k], Lookup(before, ops[k].dest), Package(plans[k].source))
    {
      assert EntryHolds(after, ops[k], d.entries[k], TreesAt(before, Destinations(ops))[k], Packages(plans)[k]);
    }
  }

  lemma Installed<T>(before: map<Path, Tree<T>>, after: map<Path, Tree<T>>, ops: seq<Operation>,
                     plans: seq<Plan<T>>)
    requires Prepares(ops, plans, before) && after - Owned(ops) == before - Owned(ops)
    requires Matches(after, ops, NewDisk(Had(ops)), TreesAt(before, Destinations(ops)), Packages(plans))
    ensures Replaced(before, after, plans)
  {
    forall k | 0 <= k < |ops|
      ensures ops[k].dest in after && after[ops[k].dest] == Package(plans[k].source)
      ensures ops[k].stage !in after && (ops[k].hadPrevious ==> ops[k].backup !in after)
    {
      assert EntryHolds(after, ops[k], NewDisk(Had(ops)).entries[k],
                        TreesAt(before, Destinations(ops))[k], Packages(plans)[k]);
    }
    forall p | forall k :: 0 <= k < |plans| ==> p != plans[k].dest
      ensures (p in after <==> p in before) && (p in after ==> after[p] == before[p])
    {
      if p in Owned(ops) {
        var k :| 0 <= k < |ops| && p in Paths(ops[k]);
        assert p != plans[k].dest;
      } else {
        assert p in after <==> p in after - Owned(ops);
        assert p in before <==> p in before - Owned(ops);
        assert p in after ==> (after - Owned(ops))[p] == (before - Owned(ops))[p];
      }
    }
  }

  ghost predicate OnlyRecovery(steps: seq<Step>) {
    forall i :: 0 <= i < |steps| ==> RecoveryStep(steps[i])
  }

  class Runtime<T(!new)> {
    const root: Path
    var files: map<Path, Tree<T>>
    var marker: MarkerFile
    var outcomes: seq<Outcome>

    // The machine state the runtime is in, and how it got there.
    ghost var ops: seq<Operation>
    ghost var was: seq<Tree<T>>
    ghost var will: seq<Tree<T>>
    ghost var start: State
    ghost var trail: seq<Step>
    ghost var state: State

    // The admission check has just passed; no rename has used that yet.
    ghost var admitted: bool

    /** The machine has come from `start` to `state`; a run begun by a recovery is only recovery. */
    ghost predicate Led()
      reads this`ops, this`start, this`trail, this`state
    {
      && WellFormed(Had(ops), state) && WellFormed(Had(ops), start)
      && Leads(KILLS_ONLY, Had(ops), start, trail, state)
      && (start.pc == Down ==> OnlyRecovery(trail))
    }

    /** The files and the marker are those of machine state s. */
    ghost predicate Shows(s: State)
      reads this
    {
      && Matches(files, ops, s.cur, was, will)
      && marker == (if s.cur.marker == NoMarker then NoFile else File(s.cur.marker, ops))
    }

    ghost predicate Tracks()
      reads this
    {
      Distinct(ops) && Led() && Shows(state)
    }

    /** Paths the operations do not own are as before. */
    twostate predicate Framed()
      reads this
    {
      files - Owned(ops) == old(files) - Owned(ops)
    }

    ghost predicate OpsValid()
      reads this`ops
    {
      forall k :: 0 <= k < |ops| ==> ValidOperation(root, ops[k])
    }

    /** The next system call's end; calls work once the given outcomes are used up. */
    method NextOutcome() returns (o: Outcome)
      modifies this`outcomes
      ensures old(outcomes) == [] ==> o == Works && outcomes == []
      ensures old(outcomes) != [] ==> o == old(outcomes)[0] && outcomes == old(outcomes)[1..]
    {
      if outcomes == [] { return Works; }
      o := outcomes[0];
      outcomes := outcomes[1..];
    }

    method SyncDirectory() returns (ok: bool)
      modifies this`outcomes
      ensures Fared(old(outcomes), outcomes, ok)
    {
      var o := NextOutcome();
      ok := o == Works;
    }

    method Rename(from: Path, to: Path) returns (ok: bool)
      modifies this`outcomes, this`files
      ensures ok ==> from in old(files) && to !in old(files) && files == (old(files) - {from})[to := old(files)[from]]
      ensures !ok ==> files == old(files)
      ensures from in old(files) && to !in old(files) ==> Fared(old(outcomes), outcomes, ok)
      ensures old(outcomes) == [] ==> (ok <==> from in old(files) && to !in old(files))
    {
      var o := NextOutcome();
      ok := o == Works && from in files && to !in files;
      if ok { files := (files - {from})[to := files[from]]; }
    }

    /** Removing a path that is not there works; a removal that fails may have begun. */
    method RemoveAll(p: Path) returns (ok: bool)
      modifies this`outcomes, this`files
      ensures ok ==> files == old(files) - {p}
      ensures !ok ==> files == old(files) || (p in old(files) && files == old(files)[p := Torn])
      ensures Fared(old(outcomes), outcomes, ok)
    {
      var o := NextOutcome();
      ok := o == Works;
      if ok { files := files - {p}; }
      else if o == StopsHalfWay && p in files { files := files[p := Torn]; }
    }

    /** Records one machine step whose effect the files already show. */
    ghost method Took(step: Step)
      requires Distinct(ops) && Led() && Allowed(KILLS_ONLY, Had(ops), state, step)
      requires start.pc == Down ==> RecoveryStep(step)
      requires Shows(Apply(Had(ops), state, step))
      modifies this`trail, this`state
      ensures Tracks() && state == Apply(Had(ops), old(state), step)
    {
      Then(KILLS_ONLY, Had(ops), start, trail, state, step);
      trail := trail + [step];
      state := Apply(Had(ops), state, step);
    }

    /** The process returns an error; files and marker stay as they are. */
    ghost method GiveUp()
      requires Tracks()
      modifies this`trail, this`state
      ensures Tracks() && state == old(state).(pc := Down)
    {
      Took(Kill);
    }

    /** The program's next action, carried out. */
    ghost method Advanced()
      requires Distinct(ops) && Led() && Shows(Progress(Had(ops), state))
      modifies this`trail, this`state
      ensures Tracks() && state == Progress(Had(ops), old(state))
    {
      Took(Advance);
    }

    // ----- Recovery, one action at a time -----

    /** Removes the tree at p, one of operation k's paths, as the machine is about to. */
    method Discard(ghost k: nat, p: Path, ghost gone: Entry, ghost half: Entry) returns (ok: bool)
      requires Tracks() && k < |ops| && Owns(ops[k], p)
      requires Progress(Had(ops), state).cur == Put(state.cur, k, gone)
      requires EntryHolds(files - {p}, ops[k], gone, was[k], will[k])
      requires p in files ==>
        && Removing(Had(ops), state)
        && RemovedHalf(Had(ops), state) == state.(cur := Put(state.cur, k, half))
        && EntryHolds(files[p := Torn], ops[k], half, was[k], will[k])
      modifies this`files, this`outcomes, this`trail, this`state
      ensures Tracks() && Framed()
      ensures if ok then state == Progress(Had(ops), old(state)) else state.pc == Down
      ensures Fared(old(outcomes), outcomes, ok)
    {
      hide Leads, Distinct, Matches;
      OwnsInside(ops, k, p);
      RemoveMatches(files, ops, state.cur, k, p, gone, was, will);
      if p in files { WriteMatches(files, ops, state.cur, k, p, Torn, half, was, will); }
      ok := RemoveAll(p);
      if ok { Advanced(); }
      else {
        if files != old(files) { Took(RemoveHalf); }
        GiveUp();
      }
    }

    method SyncStep() returns (ok: bool)
      requires Tracks() && Progress(Had(ops), state).cur == state.cur
      modifies this`outcomes, this`trail, this`state
      ensures Tracks()
      ensures if ok then state == Progress(Had(ops), old(state)) else state.pc == Down
      ensures Fared(old(outcomes), outcomes, ok)
    {
      ok := SyncDirectory();
      if ok { Advanced(); } else { GiveUp(); }
    }

    /** What the machine would come to from here by itself is what it would have come to before. */
    twostate predicate Onward()
      reads this
    {
      && WellFormed(Had(ops), state) && WellFormed(Had(ops), old(state))
      && Drive(Had(ops), state) == Drive(Had(ops), old(state))
    }

    method RemoveRoot() returns (ok: bool)
      requires Tracks() && marker.File? && state.pc == CheckRoot && RootActive(Had(ops), state.cur)
      modifies this`files, this`outcomes, this`trail, this`state
      ensures Tracks() && Framed()
      ensures if ok then state.pc == CheckRootSync && Onward() else state.pc == Down
      ensures Fared(old(outcomes), outcomes, ok)
    {
      ghost var e := state.cur.entries[0];
      ok := Discard(0, marker.operations[0].dest, e.(dest := Absent), e.(dest := Partial));
    }

    method SyncRetired() returns (ok: bool)
      requires Tracks() && state.pc == CheckRootSync
      modifies this`outcomes, this`trail, this`state
      ensures Tracks()
      ensures if ok then state.pc == Undo(|ops| - 1) && Onward() else state.pc == Down
      ensures Fared(old(outcomes), outcomes, ok)
    {
      ok := SyncStep();
    }

    ghost method SkipRoot()
      requires Tracks() && state.pc == CheckRoot && !RootActive(Had(ops), state.cur)
      modifies this`trail, this`state
      ensures Tracks() && state.pc == Undo(|ops| - 1) && Onward()
    {
      Advanced();
    }

    /** Takes a new root out of service before any dependency is restored. */
    method RetireRoot() returns (ok: bool)
      requires Tracks() && marker.File? && state.pc == CheckRoot
      modifies this`files, this`outcomes, this`trail, this`state
      ensures Tracks() && Framed()
      ensures if ok then state.pc == Undo(|ops| - 1) && Onward() else state.pc == Down
      ensures Fared(old(outcomes), outcomes, ok)
    {
      hide Leads, Distinct, Drive, Progress;
      var op := marker.operations[0];
      ok := true;
      if op.dest in files && (!op.hadPrevious || op.backup in files) {
        ok := RemoveRoot();
        if ok { ok := SyncRetired(); }
      } else {
        SkipRoot();
      }
    }

    /** Removes a member's new content; the machine stays where it is or goes on to the stage. */
    method RemoveDest(k: nat) returns (ok: bool)
      requires k < |ops| && Tracks() && marker.File? && state.pc == Undo(k) && ops[k].dest in files
      requires ops[k].hadPrevious ==> ops[k].backup in files
      modifies this`files, this`outcomes, this`trail, this`state
      ensures Tracks() && Framed()
      ensures ok ==> Onward() && state.pc == (if ops[k].hadPrevious then Undo(k) else DropStage(k))
      ensures ok && ops[k].hadPrevious ==> ops[k].backup in files && ops[k].dest !in files
      ensures !ok ==> state.pc == Down
      ensures Fared(old(outcomes), outcomes, ok)
    {
      ghost var e := state.cur.entries[k];
      ok := Discard(k, marker.operations[k].dest, e.(dest := Absent), e.(dest := Partial));
    }

    method RestoreBackup(k: nat) returns (ok: bool)
      requires k < |ops| && Tracks() && marker.File? && state.pc == Undo(k)
      requires ops[k].hadPrevious && ops[k].backup in files && ops[k].dest !in files
      modifies this`files, this`outcomes, this`trail, this`state
      ensures Tracks() && Framed()
      ensures if ok then state.pc == DropStage(k) && Onward() else state.pc == Down
      ensures Fared(old(outcomes), outcomes, ok)
    {
      var op := marker.operations[k];
      ghost var e := state.cur.entries[k];
      ok := Move(k, op.backup, op.dest, e.(dest := e.backup, backup := Absent));
    }

    ghost method Skip(k: nat)
      requires k < |ops| && Tracks() && (state.pc == Undo(k) || state.pc == Seal(k))
      requires state.pc == Undo(k) ==> (if ops[k].hadPrevious then ops[k].backup !in files && ops[k].dest in files
                                        else ops[k].dest !in files)
      requires state.pc == Seal(k) ==> ops[k].dest in files && (ops[k].hadPrevious ==> ops[k].backup !in files)
      modifies this`trail, this`state
      ensures Tracks() && state.pc == DropStage(k) && Onward()
    {
      hide Distinct, Leads;
      Advanced();
    }

    /** A member has nothing left to restore or to keep. */
    ghost method Missing(k: nat)
      requires k < |ops| && Tracks() && ops[k].dest !in files
      requires state.pc == Seal(k) || (state.pc == Undo(k) && ops[k].hadPrevious && ops[k].backup !in files)
      modifies this`trail, this`state
      ensures Tracks() && state.pc == Down && Drive(Had(ops), old(state)).pc == Broken
    {
      hide Distinct, Leads;
      Advanced();
      GiveUp();
    }

    /** Restores operation k of a prepared transaction. */
    method UndoMember(k: nat) returns (ok: bool)
      requires k < |ops| && Tracks() && marker.File? && state.pc == Undo(k)
      modifies this`files, this`outcomes, this`trail, this`state
      ensures Tracks() && Framed()
      ensures if ok then state.pc == DropStage(k) && Onward() else state.pc == Down
      ensures Fared(old(outcomes), outcomes, ok || Drive(Had(ops), old(state)).pc == Broken)
    {
      hide Leads, Distinct, Drive, Progress;
      var op := marker.operations[k];
      ok := true;
      if op.hadPrevious && op.backup in files {
        if op.dest in files { ok := RemoveDest(k); }
        if ok { ok := RestoreBackup(k); }
      } else if !op.hadPrevious && op.dest in files {
        ok := RemoveDest(k);
      } else if op.hadPrevious && op.dest !in files {
        Missing(k);
        ok := false;
      } else {
        Skip(k);
      }
    }

    method RemoveBackup(k: nat) returns (ok: bool)
      requires k < |ops| && Tracks() && marker.File? && state.pc == Seal(k)
      requires ops[k].hadPrevious && ops[k].backup in files && ops[k].dest in files
      modifies this`files, this`outcomes, this`trail, this`state
      ensures Tracks() && Framed()
      ensures if ok then state.pc == DropStage(k) && Onward() else state.pc == Down
      ensures Fared(old(outcomes), outcomes, ok)
    {
      ghost var e := state.cur.entries[k];
      ok := Discard(k, marker.operations[k].backup, e.(backup := Absent), e.(backup := Partial));
    }

    /** Deletes what operation k of a committed transaction no longer needs. */
    method SealMember(k: nat) returns (ok: bool)
      requires k < |ops| && Tracks() && marker.File? && state.pc == Seal(k)
      modifies this`files, this`outcomes, this`trail, this`state
      ensures Tracks() && Framed()
      ensures if ok then state.pc == DropStage(k) && Onward() else state.pc == Down
      ensures Fared(old(outcomes), outcomes, ok || Drive(Had(ops), old(state)).pc == Broken)
    {
      hide Leads, Distinct, Drive, Progress;
      var op := marker.operations[k];
      ok := true;
      if op.dest !in files {
        Missing(k);
        ok := false;
      } else if op.hadPrevious && op.backup in files {
        ok := RemoveBackup(k);
      } else {
        Skip(k);
      }
    }

    method RemoveStage(k: nat) returns (ok: bool)
      requires k < |ops| && Tracks() && marker.File? && state.pc == DropStage(k)
      modifies this`files, this`outcomes, this`trail, this`state
      ensures Tracks() && Framed()
      ensures if ok then state.pc == SyncEntry(k) && Onward() else state.pc == Down
      ensures Fared(old(outcomes), outcomes, ok)
    {
      ghost var e := state.cur.entries[k];
      ok := Discard(k, marker.operations[k].stage, e.(stage := Absent), e.(stage := Partial));
    }

    /** Between two operations: those from k on have been dealt with. */
    ghost predicate AtMember(k: nat)
      reads this`state
    {
      if k == 0 then state.pc == Unmark
      else state.pc == (if state.cur.marker == Committed then Seal(k - 1) else Undo(k - 1))
    }

    method SyncMember(k: nat) returns (ok: bool)
      requires k < |ops| && Tracks() && state.pc == SyncEntry(k)
      modifies this`outcomes, this`trail, this`state
      ensures Tracks()
      ensures if ok then AtMember(k) && Onward() else state.pc == Down
      ensures Fared(old(outcomes), outcomes, ok)
    {
      ok := SyncStep();
    }

    method MendMember(k: nat) returns (ok: bool)
      requires k < |ops| && Tracks() && marker.File? && AtMember(k + 1)
      modifies this`files, this`outcomes, this`trail, this`state
      ensures Tracks() && Framed()
      ensures if ok then AtMember(k) && Onward() else state.pc == Down
      ensures Fared(old(outcomes), outcomes, ok || Drive(Had(ops), old(state)).pc == Broken)
    {
      hide Led, Distinct, Matches, Drive, Progress, WellFormed;
      if marker.phase == Committed { ok := SealMember(k); } else { ok := UndoMember(k); }
      if ok { ok := RemoveStage(k); }
      if ok { ok := SyncMember(k); }
    }

    /** The loop over the recorded operations, from the last to the first. */
    method MendMembers() returns (ok: bool)
      requires Tracks() && marker.File? && AtMember(|ops|)
      modifies this`files, this`outcomes, this`trail, this`state
      ensures Tracks() && Framed()
      ensures if ok then state.pc == Unmark && Onward() else state.pc == Down
      ensures Fared(old(outcomes), outcomes, ok || Drive(Had(ops), old(state)).pc == Broken)
    {
      hide Distinct, Matches, Drive, Progress;
      var k: nat := |marker.operations|;
      ok := true;
      while ok && 0 < k
        invariant k <= |ops| && Tracks() && Framed()
        invariant if ok then AtMember(k) && Onward() else state.pc == Down
        invariant Fared(old(outcomes), outcomes, ok || Drive(Had(ops), old(state)).pc == Broken)
        decreases ok, k
      {
        k := k - 1;
        ok := MendMember(k);
      }
    }

    method FinishSync() returns (ok: bool)
      requires Tracks() && state.pc == UnmarkSync
      modifies this`outcomes, this`trail, this`state
      ensures Tracks()
      ensures if ok then state.pc == Finished && Onward() else state.pc == Down
      ensures Fared(old(outcomes), outcomes, ok)
    {
      ok := SyncStep();
    }

    /** The marker's removal has taken effect. */
    ghost method Unmarked()
      requires Distinct(ops) && Led() && state.pc == Unmark
      requires Matches(files, ops, state.cur, was, will) && marker == NoFile
      modifies this`trail, this`state
      ensures Tracks() && state.pc == UnmarkSync && Onward()
    {
      Advanced();
    }

    /** Removes the marker and makes that durable. */
    method DropMarker() returns (ok: bool)
      requires Tracks() && state.pc == Unmark
      modifies this`marker, this`outcomes, this`trail, this`state
      ensures Tracks() && marker in {NoFile, old(marker)}
      ensures if ok then state.pc == Finished && Onward() else state.pc == Down
      ensures Fared(old(outcomes), outcomes, ok)
    {
      hide Led, Distinct, Matches, Drive, Progress, WellFormed;
      var o := NextOutcome();
      if o != Works {
        GiveUp();
        return false;
      }
      marker := NoFile;
      Unmarked();
      ok := FinishSync();
    }

    method OperationsValid() returns (valid: bool)
      requires marker.File?
      ensures valid <==> forall k :: 0 <= k < |marker.operations| ==> ValidOperation(root, marker.operations[k])
    {
      var i := 0;
      while i < |marker.operations|
        invariant i <= |marker.operations|
        invariant forall k :: 0 <= k < i ==> ValidOperation(root, marker.operations[k])
      {
        if !ValidOperation(root, marker.operations[i]) { return false; }
        i := i + 1;
      }
      return true;
    }

    ghost method Begin()
      requires Tracks() && state.pc == RecoverStart && marker.File?
      modifies this`trail, this`state
      ensures Tracks() && state.pc == (if marker.phase == Committed then Seal(|ops| - 1) else CheckRoot) && Onward()
    {
      Advanced();
    }

    /** Recovery once the marker has been accepted. */
    method MendAll() returns (ok: bool)
      requires Tracks() && marker.File?
               && state.pc == (if marker.phase == Committed then Seal(|ops| - 1) else CheckRoot)
      modifies this`files, this`marker, this`outcomes, this`trail, this`state
      ensures Tracks() && Framed() && marker in {NoFile, old(marker)}
      ensures if ok then state.pc == Finished && Onward() else state.pc == Down
      ensures Fared(old(outcomes), outcomes, ok || Drive(Had(ops), old(state)).pc == Broken)
    {
      hide Led, Distinct, Matches, Drive, Progress, WellFormed;
      ok := true;
      if marker.phase == Prepared { ok := RetireRoot(); }
      if ok { ok := MendMembers(); }
      if ok { ok := DropMarker(); }
    }

    method RunRecovery() returns (ok: bool)
      requires Tracks() && marker.File? && state.pc == RecoverStart
      modifies this`files, this`marker, this`outcomes, this`trail, this`state
      ensures Tracks() && Framed() && marker in {NoFile, old(marker)}
      ensures if ok then state.pc == Finished && Onward() else state.pc == Down
      ensures !OpsValid() ==>
                !ok && files == old(files) && marker == old(marker)
      ensures OpsValid() ==> Fared(old(outcomes), outcomes, ok || Drive(Had(ops), old(state)).pc == Broken)
      ensures !OpsValid() ==> outcomes == old(outcomes)
    {
      hide Led, Distinct, Matches, Drive, Progress, WellFormed;
      ok := OperationsValid();
      if !ok {
        GiveUp();
        return;
      }
      Begin();
      ok := MendAll();
    }

    /** Nothing but recovery has happened, so recovery is where it should be. */
    lemma Conducted()
      requires Tracks() && 0 < |ops| && start.pc == Down
      ensures OnCourse(Had(ops), start.cur, state)
      ensures state.cur.marker == start.cur.marker || (state.cur.marker == NoMarker && Mendable(Had(ops), start.cur))
      ensures state.pc == Finished ==> state.cur.marker == NoMarker
    {
      hide Shows, Distinct, Drive, Progress;
      Relax(KILLS_ONLY, ANY_FAULT, Had(ops), start, trail);
      StartOnCourse(Had(ops), start.cur, start.dur, Down);
      InterruptedOnCourse(Had(ops), start.cur, start, trail);
    }

    /** Recovery of whatever an earlier process left, at any time and however often. It refuses a
        marker naming foreign paths without touching anything. Otherwise no path but the recorded ones
        changes; success leaves exactly what the files called for; failure leaves files that still call
        for the same; and if no system call fails it succeeds unless a member is lost. */
    method Recover() returns (ok: bool)
      requires Written(marker)
      modifies this
      ensures Written(marker)
      ensures old(marker).NoFile? ==> ok && files == old(files) && marker == NoFile
      ensures old(marker).File? ==> files - Owned(old(marker).operations) == old(files) - Owned(old(marker).operations)
      ensures old(marker).File? && !Acceptable(old(marker).operations) ==>
                !ok && files == old(files) && marker == old(marker)
      ensures (ok ==> marker == NoFile) && marker in {NoFile, old(marker)}
      ensures old(marker).File? ==>
                if marker == NoFile then Mends(old(files), old(marker), files)
                else SameFates(old(files), marker, files)
      ensures Lone(old(outcomes)) ==> Lone(outcomes)
      ensures old(outcomes) == [] ==> outcomes == []
      ensures old(outcomes) == [] && old(marker).File? && Acceptable(old(marker).operations) ==>
                (ok <==> forall k :: 0 <= k < |old(marker).operations| ==>
                           FateOf(old(files), old(marker).phase, old(marker).operations[k]) != Lost)
    {
      hide Distinct, Matches, Drive, Progress, WellFormed, Leads, Restored, FateOf, OnCourse;
      if marker.NoFile? { return true; }
      if marker.operations == [] { return false; }
      Adopt();
      ok := RunRecovery();
      Conducted();
      RecoveryComputes(Had(ops), start.cur, start.dur);
      Mended(old(files), files, ops, was, will, start.cur, state);
    }

    ghost predicate Acceptable(operations: seq<Operation>) {
      operations != [] && forall k :: 0 <= k < |operations| ==> ValidOperation(root, operations[k])
    }

    /** A new process takes the files as it finds them. */
    ghost method Adopt()
      requires marker.File? && marker.phase != NoMarker && marker.operations != [] && Distinct(marker.operations)
      modifies this`ops, this`was, this`will, this`start, this`trail, this`state
      ensures Tracks() && state.pc == RecoverStart && ops == marker.operations
      ensures start == State(FoundDisk(files, marker.phase, ops), FoundDisk(files, marker.phase, ops), Down)
      ensures state == start.(pc := RecoverStart)
    {
      hide Distinct, Drive;
      ops := marker.operations;
      was, will := TreesAt(files, Backups(ops)), TreesAt(files, Destinations(ops));
      start := State(FoundDisk(files, marker.phase, ops), FoundDisk(files, marker.phase, ops), Down);
      trail := [];
      state := start;
      FoundMatches(files, marker.phase, ops);
      Took(Restart);
    }

    // ----- Installation, one action at a time -----

    /** A transaction of this process, from its beginning. */
    ghost predicate Mine()
      reads this
    {
      Tracks() && 0 < |ops| && start == Initial(Had(ops))
    }

    /** Creates (or overwrites) the tree at p, one of operation k's paths. */
    method Write(ghost k: nat, p: Path, tree: Tree<T>, ghost e: Entry) returns (ok: bool)
      requires Tracks() && k < |ops| && Owns(ops[k], p)
      requires Progress(Had(ops), state).cur == Put(state.cur, k, e)
      requires EntryHolds(files[p := tree], ops[k], e, was[k], will[k])
      modifies this`files, this`outcomes, this`trail, this`state
      ensures Tracks() && Framed() && (files == old(files) || files == old(files)[p := tree])
      ensures if ok then state == Progress(Had(ops), old(state)) else state.pc == Down
      ensures Fared(old(outcomes), outcomes, ok)
    {
      hide Leads, Distinct, Matches;
      var o := NextOutcome();
      ok := o == Works;
      if ok {
        OwnsInside(ops, k, p);
        WriteMatches(files, ops, state.cur, k, p, tree, e, was, will);
        files := files[p := tree];
        Advanced();
      } else {
        GiveUp();
      }
    }

    /** Removes the empty directory at p, one of operation k's paths, or leaves it. */
    method Erase(ghost k: nat, p: Path, ghost e: Entry) returns (ok: bool)
      requires Tracks() && k < |ops| && Owns(ops[k], p)
      requires Progress(Had(ops), state).cur == Put(state.cur, k, e)
      requires EntryHolds(files - {p}, ops[k], e, was[k], will[k])
      modifies this`files, this`outcomes, this`trail, this`state
      ensures Tracks() && Framed() && (files == old(files) || files == old(files) - {p})
      ensures if ok then state == Progress(Had(ops), old(state)) else state.pc == Down
      ensures Fared(old(outcomes), outcomes, ok)
    {
      hide Leads, Distinct, Matches;
      var o := NextOutcome();
      ok := o == Works;
      if ok {
        OwnsInside(ops, k, p);
        RemoveMatches(files, ops, state.cur, k, p, e, was, will);
        files := files - {p};
        Advanced();
      } else {
        GiveUp();
      }
    }

    /** Moves one of operation k's trees to another of its paths. */
    method Move(ghost k: nat, from: Path, to: Path, ghost e: Entry) returns (ok: bool)
      requires Tracks() && k < |ops| && Owns(ops[k], from) && Owns(ops[k], to)
      requires from in files && to !in files
      requires Progress(Had(ops), state).cur == Put(state.cur, k, e)
      requires EntryHolds((files - {from})[to := files[from]], ops[k], e, was[k], will[k])
      modifies this`files, this`outcomes, this`trail, this`state
      ensures Tracks() && Framed()
      ensures if ok then state == Progress(Had(ops), old(state)) else state.pc == Down
      ensures Fared(old(outcomes), outcomes, ok)
    {
      hide Leads, Distinct, Matches;
      OwnsInside(ops, k, from);
      OwnsInside(ops, k, to);
      MoveMatches(files, ops, state.cur, k, from, to, e, was, will);
      ok := Rename(from, to);
      if ok { Advanced(); } else { GiveUp(); }
    }

    /** Where the machine is, by the invariant of all its runs. */
    lemma Here()
      requires Mine()
      ensures Inv(KILLS_ONLY, Had(ops), state)
    {
      InitialInv(KILLS_ONLY, Had(ops));
      RunInv(KILLS_ONLY, Had(ops), start, trail);
    }

    method CreateStage(k: nat, op: Operation) returns (ok: bool)
      requires Mine() && k < |ops| && op == ops[k] && state.pc == MakeStage(k)
      modifies this`files, this`outcomes, this`trail, this`state
      ensures Mine() && Framed() && SameDests(old(files), files, ops)
      ensures if ok then state.pc == CopyStage(k) && Onward() else state.pc == Down
      ensures Fared(old(outcomes), outcomes, ok)
    {
      BesideDests(ops, k, op.stage);
      ok := Write(k, op.stage, Torn, state.cur.entries[k].(stage := Partial));
    }

    method CopyTree(k: nat, op: Operation, source: T) returns (ok: bool)
      requires Mine() && k < |ops| && op == ops[k] && will[k] == Package(source) && state.pc == CopyStage(k)
      modifies this`files, this`outcomes, this`trail, this`state
      ensures Mine() && Framed() && SameDests(old(files), files, ops)
      ensures if ok then state.pc == (if op.hadPrevious then MakeProbe(k) else AfterStaging(|ops|, k)) && Onward()
              else state.pc == Down
      ensures Fared(old(outcomes), outcomes, ok)
    {
      BesideDests(ops, k, op.stage);
      ok := Write(k, op.stage, Package(source), state.cur.entries[k].(stage := New));
    }

    method CreateProbe(k: nat, op: Operation) returns (ok: bool)
      requires Mine() && k < |ops| && op == ops[k] && op.hadPrevious && state.pc == MakeProbe(k)
      modifies this`files, this`outcomes, this`trail, this`state
      ensures Mine() && Framed() && SameDests(old(files), files, ops)
      ensures if ok then state.pc == DropProbe(k) && Onward() else state.pc == Down
      ensures Fared(old(outcomes), outcomes, ok)
    {
      BesideDests(ops, k, op.backup);
      ok := Write(k, op.backup, Torn, state.cur.entries[k].(backup := Partial));
    }

    method RemoveProbe(k: nat, op: Operation) returns (ok: bool)
      requires Mine() && k < |ops| && op == ops[k] && op.hadPrevious && state.pc == DropProbe(k)
      modifies this`files, this`outcomes, this`trail, this`state
      ensures Mine() && Framed() && SameDests(old(files), files, ops)
      ensures if ok then state.pc == AfterStaging(|ops|, k) && Onward() else state.pc == Down
      ensures Fared(old(outcomes), outcomes, ok)
    {
      BesideDests(ops, k, op.backup);
      ok := Erase(k, op.backup, state.cur.entries[k].(backup := Absent));
    }

    method ReserveBackup(k: nat, op: Operation) returns (ok: bool)
      requires Mine() && k < |ops| && op == ops[k] && op.hadPrevious && state.pc == MakeProbe(k)
      modifies this`files, this`outcomes, this`trail, this`state
      ensures Mine() && Framed() && SameDests(old(files), files, ops)
      ensures if ok then state.pc == AfterStaging(|ops|, k) && Onward() else state.pc == Down
      ensures Fared(old(outcomes), outcomes, ok)
    {
      hide Led, Distinct, Matches, Drive, Progress, WellFormed;
      ok := CreateProbe(k, op);
      if ok { ok := RemoveProbe(k, op); }
    }

    /** Stages one member and, for an upgrade, reserves its backup name. */
    method StageMember(k: nat, op: Operation, source: T) returns (ok: bool)
      requires Mine() && k < |ops| && op == ops[k] && will[k] == Package(source) && state.pc == MakeStage(k)
      modifies this`files, this`outcomes, this`trail, this`state
      ensures Mine() && Framed() && SameDests(old(files), files, ops)
      ensures if ok then state.pc == AfterStaging(|ops|, k) && Onward() else state.pc == Down
      ensures Fared(old(outcomes), outcomes, ok)
    {
      hide Led, Distinct, Matches, Drive, Progress, WellFormed;
      ok := CreateStage(k, op);
      if ok { ok := CopyTree(k, op, source); }
      if ok && op.hadPrevious { ok := ReserveBackup(k, op); }
    }

    method StageMembers(operations: seq<Operation>, sources: seq<T>) returns (ok: bool)
      requires Mine() && operations == ops && |sources| == |ops| && state.pc == MakeStage(0)
      requires forall k :: 0 <= k < |ops| ==> will[k] == Package(sources[k])
      modifies this`files, this`outcomes, this`trail, this`state
      ensures Mine() && Framed() && SameDests(old(files), files, ops)
      ensures if ok then state.pc == Prepare && Onward() else state.pc == Down
      ensures Fared(old(outcomes), outcomes, ok)
    {
      hide Distinct, Matches, Drive, Progress;
      var k: nat := 0;
      ok := true;
      while ok && k < |operations|
        invariant k <= |ops| && Mine() && Framed() && SameDests(old(files), files, ops)
        invariant if !ok then state.pc == Down
                  else Onward() && state.pc == (if k == |ops| then Prepare else MakeStage(k))
        invariant Fared(old(outcomes), outcomes, ok)
      {
        ok := StageMember(k, operations[k], sources[k]);
        k := k + 1;
      }
    }

    /** The marker's rename has taken effect. */
    ghost method Marked(phase: Marker)
      requires Distinct(ops) && Led() && 0 < |ops| && start == Initial(Had(ops))
      requires phase != NoMarker && state.pc == (if phase == Prepared then Prepare else Commit)
      requires Matches(files, ops, state.cur, was, will) && marker == File(phase, ops)
      modifies this`trail, this`state
      ensures Mine() && state.pc == (if phase == Prepared then PrepareSync else CommitSync) && Onward()
      ensures state.cur.entries == old(state).cur.entries
    {
      Advanced();
    }

    /** Writes the marker: a rename, then a sync of its directory, either of which may fail. */
    method WriteMarker(phase: Marker, operations: seq<Operation>) returns (ok: bool)
      requires Mine() && operations == ops && phase != NoMarker && admitted
      requires state.pc == (if phase == Prepared then Prepare else Commit)
      modifies this`marker, this`outcomes, this`trail, this`state
      ensures Mine()
      ensures if ok then state.pc == (if phase == Prepared then Deactivate else RecoverStart) && Onward()
                         && marker == File(phase, operations)
              else state.pc == Down && marker in {old(marker), File(phase, operations)}
      ensures state.cur.entries == old(state).cur.entries
      ensures Fared(old(outcomes), outcomes, ok)
    {
      hide Led, Distinct, Matches, Drive, Progress, WellFormed;
      var o := NextOutcome();
      if o == Fails {
        GiveUp();
        return false;
      }
      marker := File(phase, operations);
      Marked(phase);
      if o == Works {
        SyncedMarker(phase);
        ok := true;
      } else {
        GiveUp();
        ok := false;
      }
    }

    ghost method SyncedMarker(phase: Marker)
      requires Mine() && phase != NoMarker && state.pc == (if phase == Prepared then PrepareSync else CommitSync)
      modifies this`trail, this`state
      ensures Mine() && state.pc == (if phase == Prepared then Deactivate else RecoverStart) && Onward()
      ensures state.cur.entries == old(state).cur.entries
    {
      Advanced();
    }

    method SyncInstalled(k: nat, ghost next: Pc) returns (ok: bool)
      requires Mine() && k < |ops|
      requires state.pc in {PreserveSync(k), ActivateSync(k)} || (k == 0 && state.pc == DeactivateSync)
      requires next == Progress(Had(ops), state).pc
      modifies this`outcomes, this`trail, this`state
      ensures Mine()
      ensures if ok then state.pc == next && Onward() else state.pc == Down
      ensures Fared(old(outcomes), outcomes, ok)
    {
      ok := SyncStep();
    }

    method StashRoot(op: Operation) returns (ok: bool)
      requires Mine() && op == ops[0] && op.hadPrevious && state.pc == Deactivate
      modifies this`files, this`outcomes, this`trail, this`state
      ensures Mine() && Framed()
      ensures if ok then state.pc == DeactivateSync && Onward() else state.pc == Down
      ensures Fared(old(outcomes), outcomes, ok)
    {
      Here();
      ghost var e := state.cur.entries[0];
      ok := Move(0, op.dest, op.backup, e.(dest := Absent, backup := e.dest));
    }

    ghost method NoRoot()
      requires Mine() && !ops[0].hadPrevious && state.pc == Deactivate
      modifies this`trail, this`state
      ensures Mine() && state.pc == Preserve(FirstActivation(|ops|)) && Onward()
    {
      Advanced();
    }

    /** Deactivates an installed root before any dependency changes. */
    method DeactivateRoot(op: Operation) returns (ok: bool)
      requires Mine() && op == ops[0] && state.pc == Deactivate
      modifies this`files, this`outcomes, this`trail, this`state
      ensures Mine() && Framed()
      ensures if ok then state.pc == Preserve(FirstActivation(|ops|)) && Onward() else state.pc == Down
      ensures Fared(old(outcomes), outcomes, ok)
    {
      hide Led, Distinct, Matches, Drive, WellFormed;
      ok := true;
      if op.hadPrevious {
        ok := StashRoot(op);
        if ok { ok := SyncInstalled(0, Preserve(FirstActivation(|ops|))); }
      } else {
        NoRoot();
      }
    }

    method StashMember(k: nat, op: Operation) returns (ok: bool)
      requires Mine() && k < |ops| && op == ops[k] && op.hadPrevious && k != 0 && state.pc == Preserve(k)
      modifies this`files, this`outcomes, this`trail, this`state
      ensures Mine() && Framed()
      ensures if ok then state.pc == PreserveSync(k) && Onward() else state.pc == Down
      ensures Fared(old(outcomes), outcomes, ok)
    {
      Here();
      ghost var e := state.cur.entries[k];
      ok := Move(k, op.dest, op.backup, e.(dest := Absent, backup := e.dest));
    }

    ghost method NothingToStash(k: nat)
      requires Mine() && k < |ops| && (!ops[k].hadPrevious || k == 0) && state.pc == Preserve(k)
      modifies this`trail, this`state
      ensures Mine() && state.pc == Activate(k) && Onward()
    {
      Advanced();
    }

    method PlaceMember(k: nat, op: Operation) returns (ok: bool)
      requires Mine() && k < |ops| && op == ops[k] && state.pc == Activate(k) && admitted
      modifies this`files, this`outcomes, this`trail, this`state, this`admitted
      ensures Mine() && Framed() && !admitted
      ensures if ok then state.pc == ActivateSync(k) && Onward() else state.pc == Down
      ensures Fared(old(outcomes), outcomes, ok)
    {
      Here();
      admitted := false;
      ghost var e := state.cur.entries[k];
      ok := Move(k, op.stage, op.dest, e.(dest := e.stage, stage := Absent));
    }

    method PreserveMember(k: nat, op: Operation) returns (ok: bool)
      requires Mine() && k < |ops| && op == ops[k] && state.pc == Preserve(k)
      modifies this`files, this`outcomes, this`trail, this`state
      ensures Mine() && Framed()
      ensures if ok then state.pc == Activate(k) && Onward() else state.pc == Down
      ensures Fared(old(outcomes), outcomes, ok)
    {
      hide Distinct, Matches, Drive;
      ok := true;
      if op.hadPrevious && k != 0 {
        ok := StashMember(k, op);
        if ok { ok := SyncInstalled(k, Activate(k)); }
      } else {
        NothingToStash(k);
      }
    }

    /** One round of the activation loop. */
    method ActivateMember(k: nat, op: Operation) returns (ok: bool)
      requires Mine() && k < |ops| && op == ops[k] && state.pc == Preserve(k)
      modifies this`files, this`outcomes, this`trail, this`state, this`admitted
      ensures Mine() && Framed()
      ensures if ok then state.pc == AfterActivation(|ops|, k) && Onward() else state.pc == Down
      ensures Fared(old(outcomes), outcomes, ok)
    {
      hide Led, Distinct, Matches, Drive, WellFormed, Lone, Apply;
      ok := PreserveMember(k, op);
      if ok { ok := Admitted(); }
      if ok { ok := PlaceMember(k, op); }
      if ok { ok := SyncInstalled(k, AfterActivation(|ops|, k)); }
    }

    /** The admission check, repeated while the closure is being activated. */
    method Admitted() returns (ok: bool)
      requires Mine()
      modifies this`outcomes, this`trail, this`state, this`admitted
      ensures Mine() && admitted == ok
      ensures if ok then state == old(state) else state.pc == Down
      ensures Fared(old(outcomes), outcomes, ok)
    {
      var o := NextOutcome();
      ok := o == Works;
      admitted := ok;
      if !ok { GiveUp(); }
    }

    /** Activates the dependencies in order, then the root. */
    method ActivateMembers(operations: seq<Operation>) returns (ok: bool)
      requires Mine() && operations == ops && state.pc == Preserve(FirstActivation(|ops|))
      modifies this`files, this`outcomes, this`trail, this`state, this`admitted
      ensures Mine() && Framed()
      ensures if ok then state.pc == Commit && Onward() else state.pc == Down
      ensures Fared(old(outcomes), outcomes, ok)
    {
      hide Distinct, Matches, Drive, Progress;
      var k: nat := 1;
      ok := true;
      while ok && k < |operations|
        invariant 1 <= k && Mine() && Framed()
        invariant if !ok then state.pc == Down
                  else Onward() && state.pc == (if k < |ops| then Preserve(k) else Preserve(0))
        invariant Fared(old(outcomes), outcomes, ok)
      {
        ok := ActivateMember(k, operations[k]);
        k := k + 1;
      }
      if ok { ok := ActivateMember(0, operations[0]); }
    }

    /** Rolls back, or forward, by the same procedure that runs after a crash. */
    method Rollback() returns (ok: bool)
      requires Mine() && state.pc == Down
      modifies this`files, this`marker, this`outcomes, this`trail, this`state
      ensures Mine() && Framed()
      ensures state.pc == if ok then Finished else Down
      ensures old(outcomes) == [] && OpsValid() ==>
                && ok && outcomes == [] && state.pc == Finished && marker == NoFile
                && (old(state).cur.marker == Prepared ==> AllOld(Had(ops), state.cur))
                && (old(state).cur.marker == Committed ==> AllNew(Had(ops), state.cur))
    {
      hide Led, Distinct, Matches, Progress, WellFormed, Drive, AllOld, AllNew;
      WillRecover();
      Reopen();
      if marker.File? {
        ok := RunRecovery();
        if ok { AtEnd(); }
      } else {
        NothingLeft();
        ok := true;
      }
    }

    ghost method Reopen()
      requires Mine() && state.pc == Down
      modifies this`trail, this`state
      ensures Mine() && state == old(state).(pc := RecoverStart)
    {
      Took(Restart);
    }

    ghost method NothingLeft()
      requires Mine() && state.pc == RecoverStart && marker.NoFile?
      modifies this`trail, this`state
      ensures Mine() && state.pc == Finished
    {
      Advanced();
    }

    lemma AtEnd()
      requires Mine() && state.pc == Finished
      ensures Drive(Had(ops), state) == state && (state.cur.marker == NoMarker ==> marker == NoFile)
    {
    }

    /** From where an error has left the transaction, recovery restores what its marker calls for. */
    lemma WillRecover()
      requires Mine() && state.pc == Down
      ensures var t := Drive(Had(ops), state.(pc := RecoverStart));
              && t.pc == Finished && t.cur.marker == NoMarker
              && (state.cur.marker == Prepared ==> AllOld(Had(ops), t.cur))
              && (state.cur.marker == Committed ==> AllNew(Had(ops), t.cur))
    {
      Here();
      RecoverableMends(Had(ops), state.cur);
      RecoveryComputes(Had(ops), state.cur, state.dur);
    }

    method TidyStage(ghost k: nat, stage: Path)
      requires Mine() && k < |ops| && stage == ops[k].stage && state.pc == Down
      modifies this`files, this`outcomes, this`trail, this`state
      ensures Mine() && Framed() && state.pc == Down && SameDests(old(files), files, ops)
      ensures stage !in old(files) ==> files == old(files)
      ensures files.Keys <= old(files).Keys && Fared(old(outcomes), outcomes, stage !in files)
    {
      hide Leads, Distinct, Matches, Drive;
      OwnsInside(ops, k, stage);
      BesideDests(ops, k, stage);
      StageMatches(files, ops, state.cur, k, was, will);
      var removed := RemoveAll(stage);
      if stage in old(files) {
        if removed { Took(Tidy(k, Absent)); }
        else if files != old(files) { Took(Tidy(k, Partial)); }
      } else {
        assert files == old(files);
      }
    }

    /** Whatever the outcome, the process removes its stages before it returns, as far as removal works. */
    method TidyStages(operations: seq<Operation>)
      requires Mine() && operations == ops && state.pc in {Down, Finished}
      modifies this`files, this`outcomes, this`trail, this`state
      ensures Mine() && Framed() && state.pc == Down && SameDests(old(files), files, ops)
      ensures Unstaged(old(files), ops) ==> files == old(files)
      ensures old(outcomes) == [] ==> outcomes == [] && Unstaged(files, ops)
    {
      hide Led, Distinct, Matches, Drive, Progress, WellFormed;
      GiveUp();
      var k: nat := 0;
      while k < |operations|
        invariant Mine() && Framed() && state.pc == Down && SameDests(old(files), files, ops)
        invariant k <= |ops| && (Unstaged(old(files), ops) ==> files == old(files))
        invariant old(outcomes) == [] ==> outcomes == [] && forall j :: 0 <= j < k ==> ops[j].stage !in files
      {
        TidyStage(k, operations[k].stage);
        k := k + 1;
      }
    }

    /** From the prepared marker to the eve of the commit. */
    method MakeLive(operations: seq<Operation>) returns (ok: bool)
      requires Mine() && operations == ops && state.pc == Deactivate
      modifies this`files, this`outcomes, this`trail, this`state, this`admitted
      ensures Mine() && Framed() && (ok ==> admitted)
      ensures if ok then state.pc == Commit && Onward() else state.pc == Down
      ensures Fared(old(outcomes), outcomes, ok)
    {
      hide Led, Distinct, Matches, Drive, Progress, WellFormed;
      ok := DeactivateRoot(operations[0]);
      if ok { ok := ActivateMembers(operations); }
      if ok { ok := Admitted(); }
    }

    lemma MarkedPrepared()
      requires Mine() && state.pc in {Deactivate, Commit}
      ensures state.cur.marker == Prepared && marker == File(Prepared, ops)
    {
      Here();
    }

    lemma Unbegun()
      requires Mine() && state == start
      ensures marker == NoFile && state.pc == MakeStage(0)
    {
    }

    /** Wherever an error leaves a committed or unmarked transaction, its destinations are wholly old or new. */
    lemma OldOrNew()
      requires Mine() && state.pc == Down
      ensures state.cur.marker == Committed ==> AllNew(Had(ops), state.cur)
      ensures state.cur.marker == NoMarker ==> AllOld(Had(ops), state.cur) || AllNew(Had(ops), state.cur)
    {
      Here();
    }

    /** Activation; if anything fails, the rollback. A single failing call leaves every destination as it was
        before the transaction, and no marker. */
    method ActivateOrRollBack(operations: seq<Operation>) returns (ok: bool)
      requires Mine() && operations == ops && state.pc == Deactivate
      modifies this`files, this`marker, this`outcomes, this`trail, this`state, this`admitted
      ensures Mine() && Framed() && (ok ==> admitted)
      ensures if ok then state.pc == Commit && Onward() else state.pc in {Down, Finished}
      ensures Lone(old(outcomes)) && OpsValid() && !ok ==>
                state.pc == Finished && marker == NoFile && AllOld(Had(ops), state.cur) && outcomes == []
      ensures ok ==> Fared(old(outcomes), outcomes, ok)
      ensures old(outcomes) == [] ==> ok
    {
      hide Led, Distinct, Matches, Drive, Progress, WellFormed;
      MarkedPrepared();
      ok := MakeLive(operations);
      if !ok { var rolledBack := Rollback(); }
    }

    /** The commit and the clean-up after it; if the commit cannot be written, recovery by the marker on disk. */
    method CommitAndSeal(operations: seq<Operation>) returns (ok: bool)
      requires Mine() && operations == ops && state.pc == Commit && admitted
      modifies this`files, this`marker, this`outcomes, this`trail, this`state
      ensures Mine() && Framed()
      ensures ok ==> state.pc == Finished && Onward()
      ensures state.pc in {Down, Finished}
      ensures old(outcomes) == [] && OpsValid() ==> ok || Drive(Had(ops), old(state)).pc == Broken
      ensures Lone(old(outcomes)) && OpsValid() && !ok ==>
                (marker == NoFile && AllOld(Had(ops), state.cur)) || AllNew(Had(ops), state.cur)
      ensures Lone(old(outcomes)) && OpsValid() && !ok ==>
                outcomes == [] || Drive(Had(ops), old(state)).pc == Broken
    {
      hide Led, Distinct, Matches, Drive, Progress, WellFormed, AllOld, AllNew, Lone;
      MarkedPrepared();
      ok := WriteMarker(Committed, operations);
      if ok {
        ok := RunRecovery();
        if !ok { OldOrNew(); }
      } else {
        var rolledBack := Rollback();
      }
    }

    /** From the prepared marker to the end: activation, commit and clean-up, or rollback. A single failing call
        leaves the destinations wholly old or wholly new. */
    method Commence(operations: seq<Operation>) returns (ok: bool)
      requires Mine() && operations == ops && state.pc == Deactivate
      modifies this`files, this`marker, this`outcomes, this`trail, this`state, this`admitted
      ensures Mine() && Framed()
      ensures ok ==> state.pc == Finished && Onward()
      ensures state.pc in {Down, Finished}
      ensures old(outcomes) == [] && OpsValid() ==> ok || Drive(Had(ops), old(state)).pc == Broken
      ensures Lone(old(outcomes)) && OpsValid() && !ok ==>
                (marker == NoFile && AllOld(Had(ops), state.cur)) || AllNew(Had(ops), state.cur)
      ensures Lone(old(outcomes)) && OpsValid() && !ok ==>
                outcomes == [] || Drive(Had(ops), old(state)).pc == Broken
    {
      hide Led, Distinct, Matches, Drive, Progress, WellFormed, AllOld, AllNew, Lone;
      ok := ActivateOrRollBack(operations);
      if ok { ok := CommitAndSeal(operations); }
    }

    lemma NothingMoved()
      requires Mine() && state.pc == Prepare
      ensures AllOld(Had(ops), state.cur)
    {
      Here();
    }

    /** Staging, the admission check and the prepared marker. */
    method Stage(operations: seq<Operation>, sources: seq<T>) returns (ok: bool)
      requires Mine() && operations == ops && |sources| == |ops| && state == start
      requires forall k :: 0 <= k < |ops| ==> will[k] == Package(sources[k])
      modifies this`files, this`marker, this`outcomes, this`trail, this`state, this`admitted
      ensures Mine() && Framed()
      ensures if ok then state.pc == Deactivate && Onward() else state.pc == Down
      ensures !ok ==> AllOld(Had(ops), state.cur) || AllNew(Had(ops), state.cur)
      ensures Fared(old(outcomes), outcomes, ok)
    {
      hide Led, Distinct, Matches, Drive, Progress, WellFormed, AllOld, AllNew, Lone;
      Unbegun();
      ok := StageMembers(operations, sources);
      if ok { ok := Admitted(); }
      if !ok {
        OldOrNew();
        return;
      }
      NothingMoved();
      label Staged:
      ok := WriteMarker(Prepared, operations);
      OldEntries(Had(ops), old@Staged(state.cur), state.cur);
    }

    method Attempt(operations: seq<Operation>, sources: seq<T>) returns (ok: bool)
      requires Mine() && operations == ops && |sources| == |ops| && state == start
      requires forall k :: 0 <= k < |ops| ==> will[k] == Package(sources[k])
      modifies this`files, this`marker, this`outcomes, this`trail, this`state, this`admitted
      ensures Mine() && Framed()
      ensures ok ==> state.pc == Finished && state == Drive(Had(ops), start)
      ensures state.pc in {Down, Finished}
      ensures old(outcomes) == [] && OpsValid() ==> ok
      ensures Lone(old(outcomes)) && OpsValid() && !ok ==>
                outcomes == [] && (AllOld(Had(ops), state.cur) || AllNew(Had(ops), state.cur))
    {
      hide Led, Distinct, Matches, Progress, WellFormed, AllOld, AllNew, Lone;
      InstallCompletes(Had(ops));
      ok := Stage(operations, sources);
      if ok { ok := Commence(operations); }
    }

    ghost method Open(operations: seq<Operation>, plans: seq<Plan<T>>)
      requires Prepares(operations, plans, files) && Distinct(operations) && 0 < |operations| && marker.NoFile?
      modifies this`ops, this`was, this`will, this`start, this`trail, this`state
      ensures Mine() && state == start && ops == operations
      ensures was == TreesAt(files, Destinations(ops)) && will == Packages(plans)
    {
      ops := operations;
      was, will := TreesAt(files, Destinations(ops)), Packages(plans);
      InitialMatches(ops, plans, files);
      start := Initial(Had(ops));
      trail := [];
      state := start;
    }

    method Inspect(plans: seq<Plan<T>>) returns (had: seq<bool>)
      ensures |had| == |plans| && forall k :: 0 <= k < |plans| ==> had[k] == (plans[k].dest in files)
    {
      had := [];
      while |had| < |plans|
        invariant |had| <= |plans| && forall k :: 0 <= k < |had| ==> had[k] == (plans[k].dest in files)
      {
        had := had + [plans[|had|].dest in files];
      }
    }

    /** This process's transaction is the installation of the plans over the files `before`. */
    ghost predicate Installs(plans: seq<Plan<T>>, before: map<Path, Tree<T>>)
      reads this
    {
      && Mine() && Prepares(ops, plans, before)
      && was == TreesAt(before, Destinations(ops)) && will == Packages(plans)
      && files - Owned(ops) == before - Owned(ops)
    }

    lemma Succeeded(plans: seq<Plan<T>>, before: map<Path, Tree<T>>)
      requires Installs(plans, before) && state == Drive(Had(ops), start)
      ensures marker == NoFile && Replaced(before, files, plans) && Unstaged(files, ops)
    {
      InstallCompletes(Had(ops));
      Installed(before, files, ops, plans);
      forall k | 0 <= k < |ops| ensures ops[k].stage !in files {
        assert EntryHolds(files, ops[k], NewDisk(Had(ops)).entries[k], was[k], will[k]);
      }
    }

    lemma Concluded(plans: seq<Plan<T>>, before: map<Path, Tree<T>>)
      requires Installs(plans, before) && state.pc == Down
      ensures Decided(before, files, marker, ops, plans) && (marker.File? ==> marker.phase != NoMarker)
    {
      Here();
      Verdict(before, files, ops, plans, state.cur);
    }

    method AttemptAndTidy(operations: seq<Operation>, plans: seq<Plan<T>>) returns (ok: bool)
      requires Installs(plans, files) && operations == ops && state == start
      modifies this`files, this`marker, this`outcomes, this`trail, this`state, this`admitted
      ensures Installs(plans, old(files)) && state.pc == Down
      ensures ok ==> marker == NoFile && Replaced(old(files), files, plans)
      ensures old(outcomes) == [] && OpsValid() ==> ok
      ensures Lone(old(outcomes)) && OpsValid() ==>
                WhollyOldOrNew(old(files), files, plans) && Unstaged(files, ops)
    {
      hide Led, Distinct, Matches, Drive, Progress, WellFormed, AllOld, AllNew, Lone, WhollyOldOrNew, Replaced,
          Unstaged;
      ok := Attempt(operations, Sources(plans));
      if ok {
        Succeeded(plans, old(files));
        ReplacedWholly(old(files), files, plans);
      } else if AllOld(Had(ops), state.cur) || AllNew(Had(ops), state.cur) { Standing(plans, old(files)); }
      ghost var mid := files;
      TidyStages(operations);
      StillStanding(plans, old(files), mid);
    }

    /** Destinations wholly old or new on the machine are so on files. */
    lemma Standing(plans: seq<Plan<T>>, before: map<Path, Tree<T>>)
      requires Installs(plans, before) && (AllOld(Had(ops), state.cur) || AllNew(Had(ops), state.cur))
      ensures WhollyOldOrNew(before, files, plans)
    {
      forall k | 0 <= k < |ops| ensures EntryHolds(files, ops[k], state.cur.entries[k], was[k], will[k]) { }
    }

    lemma StillStanding(plans: seq<Plan<T>>, before: map<Path, Tree<T>>, mid: map<Path, Tree<T>>)
      requires Installs(plans, before) && SameDests(mid, files, ops)
      ensures WhollyOldOrNew(before, mid, plans) ==> WhollyOldOrNew(before, files, plans)
    {
      forall k | 0 <= k < |plans|
        ensures plans[k].dest in files <==> plans[k].dest in mid
        ensures plans[k].dest in files ==> files[plans[k].dest] == mid[plans[k].dest]
      {
        assert plans[k].dest == ops[k].dest;
      }
    }

    method Refuses(plans: seq<Plan<T>>, force: bool) returns (refused: bool, had: seq<bool>)
      requires 0 < |plans|
      ensures refused <==> Obstructed(files, plans, force)
      ensures |had| == |plans| && forall k :: 0 <= k < |plans| ==> had[k] == (plans[k].dest in files)
    {
      had := Inspect(plans);
      refused := (!force && true in had) || (1 < |plans| && had[0]);
    }

    /** Installs the plans into a runtime without marker. Unless refused up front, whatever system
        call fails and wherever: only the transaction's own paths change; the marker decides between the
        old closure and the new; success is exactly the new packages and no residue; a single failing call
        leaves every destination old or every destination new, and no stage; and it succeeds when nothing fails. */
    method Transact(plans: seq<Plan<T>>, force: bool) returns (ok: bool)
      requires marker.NoFile? && 0 < |plans| && WellPlaced(root, plans)
      modifies this
      ensures Written(marker)
      ensures Obstructed(old(files), plans, force) ==> !ok && files == old(files) && marker == NoFile
      ensures !Obstructed(old(files), plans, force) ==>
                && Prepares(ops, plans, old(files)) && Distinct(ops)
                && files - Owned(ops) == old(files) - Owned(ops)
                && Decided(old(files), files, marker, ops, plans)
                && (old(outcomes) == [] ==> ok)
                && (Lone(old(outcomes)) ==> WhollyOldOrNew(old(files), files, plans) && Unstaged(files, ops))
      ensures ok ==> marker == NoFile && Replaced(old(files), files, plans)
    {
      hide Led, Distinct, Matches, Drive, Progress, WellFormed, Lone, WhollyOldOrNew, Unstaged;
      var refused, had := Refuses(plans, force);
      if refused { return false; }
      var operations := NameOperations(root, plans, had, files.Keys + set k | 0 <= k < |plans| :: plans[k].dest);
      Open(operations, plans);
      ok := AttemptAndTidy(operations, plans);
      Concluded(plans, old(files));
    }

    /** The whole installation: refuses misplaced or repeated destinations, finishes whatever an earlier
        process left under this root's marker, then installs. Whatever fails, either the earlier transaction
        is still pending with the same outcome, or that outcome is in place and, above it, nothing or the
        old or new closure as the marker says. */
    method Install(plans: seq<Plan<T>>, force: bool) returns (ok: bool)
      requires Written(marker)
      modifies this
      ensures Written(marker)
      ensures plans == [] || !WellPlaced(root, plans) ==> !ok && files == old(files) && marker == old(marker)
      ensures plans != [] && WellPlaced(root, plans) ==>
                Stands(old(files), old(marker), files, marker, ops, plans, force, Lone(old(outcomes)), ok)
      ensures ok ==> marker == NoFile && AllInstalled(files, plans)
      ensures old(marker).NoFile? && plans != [] && WellPlaced(root, plans) ==>
                if (!force && exists k :: 0 <= k < |plans| && plans[k].dest in old(files))
                   || (1 < |plans| && plans[0].dest in old(files))
                then !ok && files == old(files) && marker == NoFile
                else && |ops| == |plans| && Decided(old(files), files, marker, ops, plans)
                     && (old(outcomes) == [] ==> ok)
                     && (Lone(old(outcomes)) ==>
                           WhollyOldOrNew(old(files), files, plans) && Unstaged(files, ops))
      ensures old(outcomes) == [] && plans != [] && WellPlaced(root, plans) && Recoverable(old(files), old(marker)) ==>
                || ok
                || (marker == NoFile && Mends(old(files), old(marker), files) && Obstructed(files, plans, force))
    {
      hide Led, Distinct, Matches, Drive, Progress, WellFormed, Restored, FateOf, Decided, Lone, WhollyOldOrNew,
          Unstaged;
      if plans == [] || !WellPlaced(root, plans) { return false; }
      ok := true;
      if marker.File? { ok := Recover(); }
      if !ok {
        assert marker == NoFile ==> Onto(files, files, marker, ops, plans, force, Lone(old(outcomes)), ok);
        return;
      }
      ghost var mid := files;
      assert Mends(old(files), old(marker), mid);
      ok := Transact(plans, force);
      assert Onto(mid, files, marker, ops, plans, force, Lone(old(outcomes)), ok);
    }

    /** The marker's paths are in order and no member of its transaction is lost. */
    ghost predicate Recoverable(before: map<Path, Tree<T>>, m: MarkerFile) {
      m.File? ==>
        && Acceptable(m.operations)
        && forall k :: 0 <= k < |m.operations| ==> FateOf(before, m.phase, m.operations[k]) != Lost
    }
  }
}
