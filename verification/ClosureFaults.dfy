/** Where the protocol's promises end. Each fault that the safe modes exclude is shown to break the
    closure for every transaction it can touch, which makes the conditions exact. */
module ClosureFaults {
  import opened ClosureMachine
  import opened ClosureSafety
  import opened ClosureRecovery
  import opened ClosureAtomicity
  import opened ClosureTotality
  import opened ClosureVisibility

  function Advances(m: nat): seq<Step> {
    seq(m, i => Advance)
  }

  function Iterate(had: seq<bool>, s: State, m: nat): (t: State)
    requires WellFormed(had, s)
    ensures WellFormed(had, t)
    decreases m
  {
    if m == 0 then s else Iterate(had, Progress(had, s), m - 1)
  }

  ghost predicate NeverCommits(had: seq<bool>, s: State, m: nat)
    requires WellFormed(had, s)
  {
    forall i: nat :: i <= m ==> Iterate(had, s, i).cur.marker != Committed
  }

  lemma NeverCommitsMore(had: seq<bool>, s: State, m: nat)
    requires WellFormed(had, s) && s.cur.marker != Committed && NeverCommits(had, Progress(had, s), m)
    ensures NeverCommits(had, s, m + 1)
  {
    forall i: nat | i <= m + 1 ensures Iterate(had, s, i).cur.marker != Committed {
      if i > 0 { assert Iterate(had, s, i) == Iterate(had, Progress(had, s), i - 1); }
    }
  }

  lemma NeverCommitsLess(had: seq<bool>, s: State, m: nat)
    requires WellFormed(had, s) && NeverCommits(had, s, m) && m > 0
    ensures s.cur.marker != Committed && NeverCommits(had, Progress(had, s), m - 1)
  {
    assert Iterate(had, s, 0) == s;
    forall i: nat | i <= m - 1 ensures Iterate(had, Progress(had, s), i).cur.marker != Committed {
      assert Iterate(had, s, i + 1) == Iterate(had, Progress(had, s), i);
    }
  }

  lemma {:induction false} AdvancesRun(mode: Mode, had: seq<bool>, s: State, m: nat)
    requires WellFormed(had, s)
    ensures Legal(mode, had, s, Advances(m))
    ensures Run(mode, had, s, Advances(m)) == Iterate(had, s, m)
    decreases m
  {
    if m > 0 {
      assert Advances(m)[0] == Advance && Advances(m)[1..] == Advances(m - 1);
      AdvancesRun(mode, had, Progress(had, s), m - 1);
    }
  }

  lemma {:induction false} AdvancesUnseen(mode: Mode, had: seq<bool>, s: State, m: nat)
    requires WellFormed(had, s) && NeverCommits(had, s, m)
    ensures Legal(mode, had, s, Advances(m)) && !CommitSeen(mode, had, s, Advances(m))
    decreases m
  {
    AdvancesRun(mode, had, s, m);
    assert Iterate(had, s, 0) == s;
    if m > 0 {
      assert Advances(m)[0] == Advance && Advances(m)[1..] == Advances(m - 1);
      NeverCommitsLess(had, s, m);
      AdvancesUnseen(mode, had, Progress(had, s), m - 1);
    }
  }

  /** A run given by its steps and its last state. */
  ghost predicate Leads(mode: Mode, had: seq<bool>, s: State, steps: seq<Step>, t: State) {
    Legal(mode, had, s, steps) && Run(mode, had, s, steps) == t
  }

  lemma {:induction false} SeenConcat(mode: Mode, had: seq<bool>, s: State, a: seq<Step>, b: seq<Step>)
    requires Legal(mode, had, s, a) && Legal(mode, had, Run(mode, had, s, a), b) && Legal(mode, had, s, a + b)
    ensures CommitSeen(mode, had, s, a + b) <==>
              CommitSeen(mode, had, s, a) || CommitSeen(mode, had, Run(mode, had, s, a), b)
    decreases |a|
  {
    if a == [] {
      assert a + b == b;
    } else {
      assert (a + b)[0] == a[0] && (a + b)[1..] == a[1..] + b;
      SeenConcat(mode, had, Apply(had, s, a[0]), a[1..], b);
    }
  }

  lemma Then(mode: Mode, had: seq<bool>, s: State, steps: seq<Step>, t: State, step: Step)
    requires Leads(mode, had, s, steps, t) && Allowed(mode, had, t, step)
    ensures Leads(mode, had, s, steps + [step], Apply(had, t, step))
  {
    var next := [step];
    assert Legal(mode, had, Apply(had, t, step), next[1..]);
    RunConcat(mode, had, s, steps, next);
  }

  lemma {:induction false} UnseenLast(mode: Mode, had: seq<bool>, s: State, steps: seq<Step>)
    requires Legal(mode, had, s, steps) && !CommitSeen(mode, had, s, steps)
    ensures Run(mode, had, s, steps).cur.marker != Committed
    decreases |steps|
  {
    if steps != [] { UnseenLast(mode, had, Apply(had, s, steps[0]), steps[1..]); }
  }

  lemma ThenUnseen(mode: Mode, had: seq<bool>, s: State, steps: seq<Step>, t: State, step: Step)
    requires Leads(mode, had, s, steps, t) && Allowed(mode, had, t, step)
    requires !CommitSeen(mode, had, s, steps) && Apply(had, t, step).cur.marker != Committed
    ensures Leads(mode, had, s, steps + [step], Apply(had, t, step))
    ensures !CommitSeen(mode, had, s, steps + [step])
  {
    hide Apply;
    var next := [step];
    Then(mode, had, s, steps, t, step);
    UnseenLast(mode, had, s, steps);
    assert next[1..] == [] && Legal(mode, had, Apply(had, t, step), next[1..]);
    SeenConcat(mode, had, s, steps, next);
  }

  lemma ThenAdvance(mode: Mode, had: seq<bool>, s: State, steps: seq<Step>, t: State, m: nat)
    requires Leads(mode, had, s, steps, t) && WellFormed(had, t)
    ensures Leads(mode, had, s, steps + Advances(m), Iterate(had, t, m))
  {
    AdvancesRun(mode, had, t, m);
    RunConcat(mode, had, s, steps, Advances(m));
  }

  lemma ThenAdvanceUnseen(mode: Mode, had: seq<bool>, s: State, steps: seq<Step>, t: State, m: nat)
    requires Leads(mode, had, s, steps, t) && WellFormed(had, t)
    requires !CommitSeen(mode, had, s, steps) && NeverCommits(had, t, m)
    ensures Leads(mode, had, s, steps + Advances(m), Iterate(had, t, m))
    ensures !CommitSeen(mode, had, s, steps + Advances(m))
  {
    AdvancesUnseen(mode, had, t, m);
    ThenAdvance(mode, had, s, steps, t, m);
    AdvancesRun(mode, had, t, m);
    SeenConcat(mode, had, s, steps, Advances(m));
  }

  // ----- How far the installer gets by itself -----

  predicate BeforeCommit(pc: Pc) {
    Installing(pc) && pc != Commit && pc != CommitSync
  }

  lemma {:induction false} AdvanceToCommit(had: seq<bool>, s: State) returns (m: nat)
    requires WellFormed(had, s) && (BeforeCommit(s.pc) || s.pc == Commit)
    requires InstallView(had, s) && InstallDurable(had, s)
    ensures var t := Iterate(had, s, m);
            t.pc == Commit && InstallView(had, t) && InstallDurable(had, t)
    decreases Rank(|had|, s)
  {
    if s.pc == Commit { return 0; }
    ProgressRanks(had, s);
    InstallProgressView(had, s);
    InstallProgressDurable(had, s);
    StillBeforeCommit(had, s);
    m := AdvanceToCommit(had, Progress(had, s));
    m := m + 1;
  }

  lemma StillBeforeCommit(had: seq<bool>, s: State)
    requires WellFormed(had, s) && BeforeCommit(s.pc)
    ensures BeforeCommit(Progress(had, s).pc) || Progress(had, s).pc == Commit
    ensures Installing(Progress(had, s).pc)
  {
  }

  /** The installer is about to reserve, or has reserved, operation k's backup name. */
  predicate AheadOfProbe(pc: Pc, k: nat) {
    match pc
    case MakeStage(i) => i <= k
    case CopyStage(i) => i <= k
    case MakeProbe(i) => i <= k
    case DropProbe(i) => i <= k
    case _ => false
  }

  lemma {:induction false} AdvanceToProbe(had: seq<bool>, s: State, k: nat) returns (m: nat)
    requires WellFormed(had, s) && k < |had| && had[k] && AheadOfProbe(s.pc, k) && InstallView(had, s)
    ensures var t := Iterate(had, s, m); t.pc == DropProbe(k) && t.dur == s.dur && InstallView(had, t)
    ensures NeverCommits(had, s, m)
    decreases Rank(|had|, s)
  {
    if s.pc == DropProbe(k) { return 0; }
    ProgressRanks(had, s);
    InstallProgressView(had, s);
    m := AdvanceToProbe(had, Progress(had, s), k);
    NeverCommitsMore(had, s, m);
    m := m + 1;
  }

  predicate Staging(pc: Pc) {
    pc.MakeStage? || pc.CopyStage? || pc.MakeProbe? || pc.DropProbe? || pc.Prepare? || pc.PrepareSync?
  }

  lemma {:induction false} AdvanceToPrepared(had: seq<bool>, s: State) returns (m: nat)
    requires WellFormed(had, s) && (Staging(s.pc) || s.pc == Deactivate)
    requires InstallView(had, s) && (s.pc == Deactivate ==> s.dur.marker == Prepared)
    ensures var t := Iterate(had, s, m);
            t.pc == Deactivate && t.dur.marker == Prepared && t.dur.entries == s.dur.entries && InstallView(had, t)
    ensures NeverCommits(had, s, m)
    decreases Rank(|had|, s)
  {
    if s.pc == Deactivate { return 0; }
    ProgressRanks(had, s);
    InstallProgressView(had, s);
    m := AdvanceToPrepared(had, Progress(had, s));
    NeverCommitsMore(had, s, m);
    m := m + 1;
  }

  // ----- A flushed probe -----

  ghost predicate Sound(had: seq<bool>, d: Disk) {
    AllOld(had, d) || AllNew(had, d)
  }

  /** Durably, only operation k differs from the start, by its reserved backup name. */
  ghost predicate ProbeSaved(had: seq<bool>, d: Disk, k: nat) {
    && k < |had| == |d.entries|
    && (forall j :: 0 <= j < |had| && j != k ==> d.entries[j] == InitialEntry(had[j]))
    && d.entries[k].backup == Partial
  }

  /** One gap at a time. */
  const PROBE_FLUSHES := Faults(true, false, true, false)

  const COMMIT_KILLS := Faults(true, true, false, false)

  const RETIRE_KILLS := Faults(true, false, false, true)

  lemma FlushProbe(had: seq<bool>, k: nat) returns (steps: seq<Step>, t: State)
    requires k < |had| && had[k]
    ensures Leads(PROBE_FLUSHES, had, Initial(had), steps, t)
    ensures t.pc == Down && t.cur == t.dur && ProbeSaved(had, t.cur, k) && t.cur.marker == Prepared
    ensures !CommitSeen(PROBE_FLUSHES, had, Initial(had), steps)
  {
    var mode, o := PROBE_FLUSHES, Initial(had);
    var m := AdvanceToProbe(had, o, k);
    AdvancesRun(mode, had, o, m);
    AdvancesUnseen(mode, had, o, m);
    var s := Iterate(had, o, m);
    ThenUnseen(mode, had, o, Advances(m), s, Flush(k));
    var u := SyncTo(s, k, s.pc);
    var p := AdvanceToPrepared(had, u);
    ThenAdvanceUnseen(mode, had, o, Advances(m) + [Flush(k)], u, p);
    t := Iterate(had, u, p);
    ThenUnseen(mode, had, o, Advances(m) + [Flush(k)] + Advances(p), t, PowerCut);
    ProbeIsSaved(had, s, k);
    steps, t := Advances(m) + [Flush(k)] + Advances(p) + [PowerCut], State(t.dur, t.dur, Down);
  }

  /** If the directory that merely reserves operation k's backup name becomes durable and its removal
      does not, a power cut after the prepared marker lets recovery replace the installed tree by
      that empty directory. No process needs to die before. */
  lemma {:induction false} ProbeFlushBreaks(had: seq<bool>, k: nat) returns (steps: seq<Step>)
    requires k < |had| && had[k]
    ensures Legal(PROBE_FLUSHES, had, Initial(had), steps)
    ensures !Sound(had, Recovered(had, Run(PROBE_FLUSHES, had, Initial(had), steps).cur).cur)
    ensures !CommitSeen(PROBE_FLUSHES, had, Initial(had), steps)
  {
    var t: State;
    steps, t := FlushProbe(had, k);
    FlushedProbeRecovers(had, k, t.cur);
  }

  lemma ProbeIsSaved(had: seq<bool>, s: State, k: nat)
    requires k < |had| && had[k] && WellFormed(had, s) && s.pc == DropProbe(k) && InstallView(had, s)
    requires s.dur == InitialDisk(had)
    ensures ProbeSaved(had, SyncTo(s, k, s.pc).dur, k)
  {
  }

  lemma FlushedProbeRecovers(had: seq<bool>, k: nat, d: Disk)
    requires ProbeSaved(had, d, k) && had[k] && d.marker == Prepared
    ensures !Sound(had, Recovered(had, d).cur)
  {
    RecoveryComputes(had, d, d);
    assert Recovered(had, d).cur.entries[k].dest == Partial;
  }

  // ----- A kill between the commit and its sync -----

  ghost predicate SealingUnsynced(had: seq<bool>, s: State, k: nat) {
    && WellFormed(had, s) && k < |had| && had[k]
    && s.cur.marker == Committed && s.dur.marker == Prepared
    && (forall j :: 0 <= j < |had| ==> s.cur.entries[j].dest == New && s.dur.entries[j].dest == New)
    && (forall j :: 0 <= j <= k && had[j] ==> s.cur.entries[j].backup == s.dur.entries[j].backup == Old)
  }

  lemma {:induction false} SealDownTo(had: seq<bool>, s: State, j: nat, k: nat) returns (m: nat)
    requires SealingUnsynced(had, s, k) && s.pc == Seal(j) && k <= j
    requires forall i :: k < i < |had| ==> !had[i]
    ensures var t := Iterate(had, s, m); SealingUnsynced(had, t, k) && t.pc == Seal(k)
    decreases j
  {
    if j == k { return 0; }
    var a := Progress(had, s);
    var b := Progress(had, a);
    var c := Progress(had, b);
    assert SealingUnsynced(had, c, k);
    m := SealDownTo(had, c, j - 1, k);
    assert Iterate(had, b, m + 1) == Iterate(had, c, m);
    assert Iterate(had, a, m + 2) == Iterate(had, b, m + 1);
    m := m + 3;
  }

  lemma LastPrevious(had: seq<bool>, k: nat) returns (last: nat)
    requires k < |had| && had[k]
    ensures last < |had| && had[last] && forall i :: last < i < |had| ==> !had[i]
    decreases |had| - k
  {
    if i :| k < i < |had| && had[i] { last := LastPrevious(had, i); } else { last := k; }
  }

  lemma KillAtCommit(had: seq<bool>, k: nat) returns (steps: seq<Step>, t: State)
    requires k < |had| && had[k]
    ensures Leads(COMMIT_KILLS, had, Initial(had), steps, t)
    ensures SealingUnsynced(had, t, k) && t.pc == Down
  {
    var m := AdvanceToCommit(had, Initial(had));
    AdvancesRun(COMMIT_KILLS, had, Initial(had), m);
    var s := Iterate(had, Initial(had), m);
    Then(COMMIT_KILLS, had, Initial(had), Advances(m), s, Advance);
    var a := Progress(had, s);
    CommittedUnsynced(had, s, k);
    Then(COMMIT_KILLS, had, Initial(had), Advances(m) + [Advance], a, Kill);
    steps, t := Advances(m) + [Advance] + [Kill], a.(pc := Down);
  }

  lemma CommittedUnsynced(had: seq<bool>, s: State, k: nat)
    requires WellFormed(had, s) && s.pc == Commit && InstallView(had, s) && InstallDurable(had, s)
    requires k < |had| && had[k]
    ensures SealingUnsynced(had, Progress(had, s), k)
  {
  }

  lemma RestartSealing(had: seq<bool>, o: State, steps: seq<Step>, s: State, k: nat)
    returns (more: seq<Step>, t: State)
    requires SealingUnsynced(had, s, k) && s.pc == Down && Leads(COMMIT_KILLS, had, o, steps, s)
    requires forall i :: k < i < |had| ==> !had[i]
    ensures Leads(COMMIT_KILLS, had, o, more, t) && SealingUnsynced(had, t, k) && t.pc == Seal(k)
  {
    Then(COMMIT_KILLS, had, o, steps, s, Restart);
    var a := s.(pc := RecoverStart);
    Then(COMMIT_KILLS, had, o, steps + [Restart], a, Advance);
    var b := a.(pc := Seal(|had| - 1));
    var p := SealDownTo(had, b, |had| - 1, k);
    more, t := steps + [Restart] + [Advance] + Advances(p), Iterate(had, b, p);
    ThenAdvance(COMMIT_KILLS, had, o, steps + [Restart] + [Advance], b, p);
  }

  lemma TornBackup(had: seq<bool>, o: State, steps: seq<Step>, s: State, k: nat)
    returns (more: seq<Step>, t: State)
    requires SealingUnsynced(had, s, k) && s.pc == Seal(k) && Leads(COMMIT_KILLS, had, o, steps, s)
    ensures Leads(COMMIT_KILLS, had, o, more, t) && t.pc == Down && t.cur == t.dur && TornDisk(had, t.cur, k)
  {
    Then(COMMIT_KILLS, had, o, steps, s, RemoveHalf);
    var torn := s.cur.entries[k].(backup := Partial);
    var a := State(Put(s.cur, k, torn), s.dur, s.pc);
    Then(COMMIT_KILLS, had, o, steps + [RemoveHalf], a, Flush(k));
    var b := State(a.cur, Put(s.dur, k, torn), s.pc);
    Then(COMMIT_KILLS, had, o, steps + [RemoveHalf] + [Flush(k)], b, PowerCut);
    more, t := steps + [RemoveHalf] + [Flush(k)] + [PowerCut], State(b.dur, b.dur, Down);
  }

  ghost predicate TornDisk(had: seq<bool>, d: Disk, k: nat) {
    && k < |had| == |d.entries| && had[k] && d.marker == Prepared
    && (forall j :: 0 <= j < |had| ==> d.entries[j].dest == New)
    && (forall j :: 0 <= j < k && had[j] ==> d.entries[j].backup == Old)
    && d.entries[k].backup == Partial
  }

  lemma TornDiskRecovers(had: seq<bool>, k: nat, d: Disk)
    requires TornDisk(had, d, k)
    ensures !Sound(had, Recovered(had, d).cur)
  {
    RecoveryComputes(had, d, d);
    assert Recovered(had, d).cur.entries[k].dest == Partial;
  }

  lemma TearBackup(had: seq<bool>, k: nat) returns (steps: seq<Step>, t: State, last: nat)
    requires k < |had| && had[k]
    ensures Leads(COMMIT_KILLS, had, Initial(had), steps, t)
    ensures t.pc == Down && t.cur == t.dur && TornDisk(had, t.cur, last)
    ensures forall i :: last < i < |had| ==> !had[i]
  {
    last := LastPrevious(had, k);
    steps, t := KillAtCommit(had, last);
    steps, t := RestartSealing(had, Initial(had), steps, t, last);
    steps, t := TornBackup(had, Initial(had), steps, t, last);
  }

  /** If the process stops after renaming the committed marker into place but before syncing it, the
      next recovery deletes a backup on the strength of that marker; a power cut then brings back the
      prepared marker and recovery restores what is left of the backup. */
  lemma CommitGapBreaks(had: seq<bool>, k: nat) returns (steps: seq<Step>)
    requires k < |had| && had[k]
    ensures Legal(COMMIT_KILLS, had, Initial(had), steps)
    ensures !Sound(had, Recovered(had, Run(COMMIT_KILLS, had, Initial(had), steps).cur).cur)
  {
    var t: State;
    var last: nat;
    steps, t, last := TearBackup(had, k);
    TornDiskRecovers(had, last, t.cur);
  }

  /** Every run and every disk it may leave behind recovers to a sound closure. */
  ghost predicate AlwaysAtomic(mode: Mode, had: seq<bool>)
    requires 0 < |had|
  {
    forall steps, d ::
      Legal(mode, had, Initial(had), steps) && LeftBehind(mode, Run(mode, had, Initial(had), steps), d)
      ==> |d.entries| == |had| && Recovered(had, d).pc == Finished && Sound(had, Recovered(had, d).cur)
  }

  /** The protocol is atomic exactly when the transaction replaces nothing, or there are no power cuts, or
      neither gap is hit: each gap breaks it alone. */
  lemma AtomicExactly(mode: Mode, had: seq<bool>)
    requires 0 < |had|
    ensures AlwaysAtomic(mode, had) <==>
              (NoPrevious(had) || !mode.powerCuts || (!mode.commitKills && !mode.probeFlushes))
  {
    if Safe(mode, had) {
      forall steps, d | Legal(mode, had, Initial(had), steps)
                        && LeftBehind(mode, Run(mode, had, Initial(had), steps), d)
        ensures |d.entries| == |had| && Recovered(had, d).pc == Finished && Sound(had, Recovered(had, d).cur)
      {
        ClosureIsAtomic(mode, had, steps, d);
      }
    } else {
      var k :| 0 <= k < |had| && had[k];
      var steps;
      if mode.commitKills {
        steps := CommitGapBreaks(had, k);
        Relax(COMMIT_KILLS, mode, had, Initial(had), steps);
      } else {
        steps := ProbeFlushBreaks(had, k);
        Relax(PROBE_FLUSHES, mode, had, Initial(had), steps);
      }
      assert LeftBehind(mode, Run(mode, had, Initial(had), steps), Run(mode, had, Initial(had), steps).cur);
    }
  }

  /** Every run in which no commit has been seen recovers to the old closure. */
  ghost predicate AlwaysOld(mode: Mode, had: seq<bool>)
    requires 0 < |had|
  {
    forall steps, d ::
      Legal(mode, had, Initial(had), steps) && !CommitSeen(mode, had, Initial(had), steps)
      && LeftBehind(mode, Run(mode, had, Initial(had), steps), d)
      ==> |d.entries| == |had| && AllOld(had, Recovered(had, d).cur)
  }

  lemma {:induction false} RelaxUnseen(mode: Mode, mode': Mode, had: seq<bool>, s: State, steps: seq<Step>)
    requires Within(mode, mode') && Legal(mode, had, s, steps) && Legal(mode', had, s, steps)
    ensures CommitSeen(mode', had, s, steps) <==> CommitSeen(mode, had, s, steps)
    decreases |steps|
  {
    if steps != [] { RelaxUnseen(mode, mode', had, Apply(had, s, steps[0]), steps[1..]); }
  }

  /** Until a commit is seen only one gap matters: recovery restores the old closure exactly when the
      transaction replaces nothing, or there are no power cuts, or no reserved directory becomes durable. */
  lemma OldExactly(mode: Mode, had: seq<bool>)
    requires 0 < |had|
    ensures AlwaysOld(mode, had) <==> (NoPrevious(had) || !mode.powerCuts || !mode.probeFlushes)
  {
    hide AllOld;
    if NoPrevious(had) || !mode.powerCuts || !mode.probeFlushes {
      forall steps, d | Legal(mode, had, Initial(had), steps) && !CommitSeen(mode, had, Initial(had), steps)
                        && LeftBehind(mode, Run(mode, had, Initial(had), steps), d)
        ensures |d.entries| == |had| && AllOld(had, Recovered(had, d).cur)
      {
        OldUntilCommit(mode, had, steps, d);
      }
    } else {
      var k :| 0 <= k < |had| && had[k];
      var steps := ProbeFlushBreaks(had, k);
      Relax(PROBE_FLUSHES, mode, had, Initial(had), steps);
      RelaxUnseen(PROBE_FLUSHES, mode, had, Initial(had), steps);
      assert LeftBehind(mode, Run(mode, had, Initial(had), steps), Run(mode, had, Initial(had), steps).cur);
    }
  }

  // ----- A kill between removing the marker and syncing that -----

  /** No power cut, and kills outside the gaps only. */
  const PLAIN_KILLS := Faults(false, false, false, false)

  lemma {:induction false} AdvanceToUnmarked(had: seq<bool>, s: State) returns (m: nat)
    requires KeepsAll(had, s) && Recovering(s.pc) && s.dur.marker == Prepared
    requires if s.pc == UnmarkSync then s.cur.marker == NoMarker else s.cur.marker == Prepared && s.pc != Finished
    ensures var t := Iterate(had, s, m); t.pc == UnmarkSync && t.cur.marker == NoMarker && t.dur.marker == Prepared
    decreases Rank(|had|, s)
  {
    if s.pc == UnmarkSync { return 0; }
    ProgressRanks(had, s);
    AdvanceKeeps(had, s);
    m := AdvanceToUnmarked(had, Progress(had, s));
    m := m + 1;
  }

  lemma KillUnmarked(had: seq<bool>) returns (steps: seq<Step>, t: State)
    requires 0 < |had|
    ensures Leads(PLAIN_KILLS, had, Initial(had), steps, t)
    ensures t.pc == Down && t.cur.marker == NoMarker && t.dur.marker == Prepared
  {
    hide InstallView, InstallDurable, NeverCommits;
    var o := Initial(had);
    steps, t := KillPrepared(had);
    Then(PLAIN_KILLS, had, o, steps, t, Restart);
    steps, t := steps + [Restart], t.(pc := RecoverStart);
    InitialKeeps(had);
    RunKeeps(PLAIN_KILLS, had, o, steps);
    var p := AdvanceToUnmarked(had, t);
    ThenAdvance(PLAIN_KILLS, had, o, steps, t, p);
    steps, t := steps + Advances(p), Iterate(had, t, p);
    Then(PLAIN_KILLS, had, o, steps, t, Kill);
    steps, t := steps + [Kill], t.(pc := Down);
  }

  lemma KillPrepared(had: seq<bool>) returns (steps: seq<Step>, t: State)
    requires 0 < |had|
    ensures Leads(PLAIN_KILLS, had, Initial(had), steps, t)
    ensures t.pc == Down && t.cur.marker == t.dur.marker == Prepared
  {
    var o := Initial(had);
    var m := AdvanceToPrepared(had, o);
    AdvancesRun(PLAIN_KILLS, had, o, m);
    var s := Iterate(had, o, m);
    Then(PLAIN_KILLS, had, o, Advances(m), s, Kill);
    steps, t := Advances(m) + [Kill], s.(pc := Down);
  }

  /** A rollback that dies between removing the marker and syncing that leaves a marker no process sees. A tree
      installed later, and durably, where the transaction had found nothing is deleted if power then fails. */
  lemma {:induction false} StaleMarkerDeletes(had: seq<bool>, k: nat, c: Content) returns (steps: seq<Step>)
    requires k < |had| && !had[k] && c != Absent
    ensures Legal(PLAIN_KILLS, had, Initial(had), steps)
    ensures var s := Run(PLAIN_KILLS, had, Initial(had), steps);
            && s.pc == Down && s.cur.marker == NoMarker && |s.dur.entries| == |had|
            && Recovered(had, Later(s.dur, k, c)).cur.entries[k].dest != c
  {
    var t: State;
    steps, t := KillUnmarked(had);
    LaterInstallSurvives(PLAIN_KILLS, had, steps, k, c);
  }

  // ----- A kill between retiring the root and syncing that -----

  /** All members live; only the root's removal, if begun, is not yet durable. */
  ghost predicate RootUnsynced(had: seq<bool>, s: State, removed: bool) {
    && WellFormed(had, s) && 2 <= |had|
    && s.cur.marker == s.dur.marker == Prepared
    && (forall j :: 0 <= j < |had| ==>
          Activated(had[j], s.dur.entries[j]) && s.cur.entries[j].backup == (if had[j] then Old else Absent))
    && (forall j :: 1 <= j < |had| ==> s.cur.entries[j].dest == New)
    && s.cur.entries[0].dest == (if removed then Absent else New)
  }

  lemma KillBeforeCommit(had: seq<bool>) returns (steps: seq<Step>, t: State)
    requires 2 <= |had|
    ensures Leads(RETIRE_KILLS, had, Initial(had), steps, t)
    ensures RootUnsynced(had, t, false) && t.pc == Down
  {
    var m := AdvanceToCommit(had, Initial(had));
    AdvancesRun(RETIRE_KILLS, had, Initial(had), m);
    var s := Iterate(had, Initial(had), m);
    Then(RETIRE_KILLS, had, Initial(had), Advances(m), s, Kill);
    steps, t := Advances(m) + [Kill], s.(pc := Down);
  }

  lemma KillWhileRetiring(had: seq<bool>, o: State, steps: seq<Step>, s: State) returns (more: seq<Step>, t: State)
    requires RootUnsynced(had, s, false) && s.pc == Down && Leads(RETIRE_KILLS, had, o, steps, s)
    ensures Leads(RETIRE_KILLS, had, o, more, t) && RootUnsynced(had, t, true) && t.pc == Down
  {
    Then(RETIRE_KILLS, had, o, steps, s, Restart);
    var a := s.(pc := RecoverStart);
    Then(RETIRE_KILLS, had, o, steps + [Restart], a, Advance);
    var b := s.(pc := CheckRoot);
    Then(RETIRE_KILLS, had, o, steps + [Restart] + [Advance], b, Advance);
    var c := State(Put(s.cur, 0, s.cur.entries[0].(dest := Absent)), s.dur, CheckRootSync);
    Then(RETIRE_KILLS, had, o, steps + [Restart] + [Advance] + [Advance], c, Kill);
    more, t := steps + [Restart] + [Advance] + [Advance] + [Kill], c.(pc := Down);
  }

  /** Undoing the last member, by one action or two, makes it durably old or absent and leaves the root durable. */
  lemma UndoneLast(had: seq<bool>, s: State) returns (m: nat)
    requires RootUnsynced(had, s, true) && s.pc == Undo(|had| - 1)
    ensures var t := Iterate(had, s, m); var k := |had| - 1;
            t.pc == DropStage(k) && t.dur == s.dur && t.cur.entries[k].dest != New
  {
    var a := Progress(had, s);
    var b := Progress(had, a);
    assert Iterate(had, a, 1) == Iterate(had, b, 0) == b;
    assert Iterate(had, s, 1) == Iterate(had, a, 0) == a;
    m := if had[|had| - 1] then 2 else 1;
  }

  lemma {:induction false} IterateAdds(had: seq<bool>, s: State, m: nat, n: nat)
    requires WellFormed(had, s)
    ensures Iterate(had, s, m + n) == Iterate(had, Iterate(had, s, m), n)
    decreases m
  {
    if m > 0 { IterateAdds(had, Progress(had, s), m - 1, n); }
  }

  lemma UndoLast(had: seq<bool>, s: State) returns (m: nat)
    requires RootUnsynced(had, s, true) && s.pc == Undo(|had| - 1)
    ensures var t := Iterate(had, s, m);
            t.dur.entries[0].dest == New && t.dur.entries[|had| - 1].dest != New
  {
    m := UndoneLast(had, s);
    var b := Iterate(had, s, m);
    var c := Progress(had, b);
    var d := Progress(had, c);
    assert Iterate(had, c, 1) == Iterate(had, d, 0) == d;
    assert Iterate(had, b, 2) == Iterate(had, c, 1);
    IterateAdds(had, s, m, 2);
    m := m + 2;
  }

  /** If recovery dies between removing the new root and syncing that, the next recovery finds no
      root, rolls dependencies back durably, and a power cut shows the new root above old ones. */
  lemma RetiringBreaks(had: seq<bool>) returns (steps: seq<Step>)
    requires 2 <= |had|
    ensures Legal(RETIRE_KILLS, had, Initial(had), steps)
    ensures !Consistent(had, Run(RETIRE_KILLS, had, Initial(had), steps).cur)
  {
    var s: State;
    var o := Initial(had);
    steps, s := KillBeforeCommit(had);
    steps, s := KillWhileRetiring(had, o, steps, s);
    Then(RETIRE_KILLS, had, o, steps, s, Restart);
    var a := s.(pc := RecoverStart);
    Then(RETIRE_KILLS, had, o, steps + [Restart], a, Advance);
    var b := s.(pc := CheckRoot);
    Then(RETIRE_KILLS, had, o, steps + [Restart] + [Advance], b, Advance);
    var c := s.(pc := Undo(|had| - 1));
    var m := UndoLast(had, c);
    ThenAdvance(RETIRE_KILLS, had, o, steps + [Restart] + [Advance] + [Advance], c, m);
    steps := steps + [Restart] + [Advance] + [Advance] + Advances(m);
    Then(RETIRE_KILLS, had, o, steps, Iterate(had, c, m), PowerCut);
    steps := steps + [PowerCut];
  }

  ghost predicate AlwaysConsistent(mode: Mode, had: seq<bool>)
    requires 0 < |had|
  {
    forall steps :: Legal(mode, had, Initial(had), steps) ==>
      Consistent(had, Run(mode, had, Initial(had), steps).cur)
  }

  // ----- The gaps, seen from the root -----

  lemma {:induction false} DriveIterates(had: seq<bool>, s: State) returns (m: nat)
    requires WellFormed(had, s)
    ensures Iterate(had, s, m) == Drive(had, s)
    decreases Rank(|had|, s)
  {
    if s.pc in {Finished, Broken, Down} { return 0; }
    ProgressRanks(had, s);
    m := DriveIterates(had, Progress(had, s));
    m := m + 1;
  }

  /** After a power cut, recovery itself is part of the run. */
  lemma ThenRecover(mode: Mode, had: seq<bool>, o: State, steps: seq<Step>, s: State)
    returns (more: seq<Step>, t: State)
    requires Leads(mode, had, o, steps, s) && WellFormed(had, s) && s.pc == Down && s.cur == s.dur
    ensures Leads(mode, had, o, more, t) && t.cur == Recovered(had, s.cur).cur
  {
    Then(mode, had, o, steps, s, Restart);
    var a := s.(pc := RecoverStart);
    var m := DriveIterates(had, a);
    ThenAdvance(mode, had, o, steps + [Restart], a, m);
    more, t := steps + [Restart] + Advances(m), Iterate(had, a, m);
  }

  /** Each gap also breaks visibility if the transaction replaces the root and has dependencies. */
  lemma FlushedRootShows(had: seq<bool>) returns (steps: seq<Step>)
    requires 2 <= |had| && had[0]
    ensures Legal(PROBE_FLUSHES, had, Initial(had), steps)
    ensures !Consistent(had, Run(PROBE_FLUSHES, had, Initial(had), steps).cur)
  {
    var s, t: State;
    steps, s := FlushProbe(had, 0);
    FlushedRootTarget(had, s.cur);
    RecoveryComputes(had, s.cur, s.cur);
    steps, t := ThenRecover(PROBE_FLUSHES, had, Initial(had), steps, s);
  }

  lemma FlushedRootTarget(had: seq<bool>, d: Disk)
    requires 2 <= |had| && had[0] && ProbeSaved(had, d, 0) && d.marker == Prepared
    ensures Mendable(had, d) && !Consistent(had, Target(had, d))
  {
    assert Target(had, d).entries[0].dest == Partial && Target(had, d).entries[1].dest != New;
  }

  lemma TornRootShows(had: seq<bool>) returns (steps: seq<Step>)
    requires 2 <= |had| && had[0]
    ensures Legal(COMMIT_KILLS, had, Initial(had), steps)
    ensures !Consistent(had, Run(COMMIT_KILLS, had, Initial(had), steps).cur)
  {
    var s, t: State;
    var last: nat;
    steps, s, last := TearBackup(had, 0);
    TornRootTarget(had, last, s.cur);
    RecoveryComputes(had, s.cur, s.cur);
    steps, t := ThenRecover(COMMIT_KILLS, had, Initial(had), steps, s);
  }

  lemma TornRootTarget(had: seq<bool>, last: nat, d: Disk)
    requires 2 <= |had| && had[0] && TornDisk(had, d, last)
    requires forall i :: last < i < |had| ==> !had[i]
    ensures Mendable(had, d) && !Consistent(had, Target(had, d))
  {
    assert Target(had, d).entries[last].dest == Partial && (last > 0 ==> Target(had, d).entries[0].dest == Old);
    assert last == 0 ==> Target(had, d).entries[1].dest == Absent;
  }

  /** No run shows a root above mismatched dependencies exactly when there are none, or no power cuts, or
      no kill hits the root's removal before it is synced and, where the root replaces another, neither gap
      is hit either. */
  lemma ConsistentExactly(mode: Mode, had: seq<bool>)
    requires 0 < |had|
    ensures AlwaysConsistent(mode, had) <==>
              (|had| == 1 || !mode.powerCuts
               || (!mode.retireKills && (!had[0] || (!mode.commitKills && !mode.probeFlushes))))
  {
    if Guarded(mode, had) {
      forall steps | Legal(mode, had, Initial(had), steps)
        ensures Consistent(had, Run(mode, had, Initial(had), steps).cur)
      {
        ClosureIsConsistent(mode, had, steps);
      }
    } else if mode.retireKills {
      var steps := RetiringBreaks(had);
      Relax(RETIRE_KILLS, mode, had, Initial(had), steps);
    } else if mode.commitKills {
      var steps := TornRootShows(had);
      Relax(COMMIT_KILLS, mode, had, Initial(had), steps);
    } else {
      var steps := FlushedRootShows(had);
      Relax(PROBE_FLUSHES, mode, had, Initial(had), steps);
    }
  }

  /** The installer refuses to replace the root of a closure with dependencies. For what it accepts, the root
      shows mismatched dependencies only through a kill at its own removal. */
  lemma AdmittedConsistentExactly(mode: Mode, had: seq<bool>)
    requires 0 < |had| && !(1 < |had| && had[0])
    ensures AlwaysConsistent(mode, had) <==> (|had| == 1 || !mode.powerCuts || !mode.retireKills)
  {
    ConsistentExactly(mode, had);
  }
}
