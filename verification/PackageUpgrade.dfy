/** The installer of a single package. Its marker has no phase: recovery infers which way to go from
    which of the destination and the backup exist. Destination, stage, backup and marker are entries of
    one directory, so what a crash leaves is a state the directory has been in: the last one when the
    process dies, any one since the last sync when power fails. */
module PackageUpgrade {

  datatype Content<T> = Absent | Torn | Whole(tree: T)

  datatype Slots<T> = Slots(dest: Content<T>, stage: Content<T>, backup: Content<T>, marked: bool)

  /** What one installation finds at its destination and puts there. */
  datatype Plan<T> = Plan(was: Content<T>, will: T)

  datatype Moment<T> = Moment(plan: Plan<T>, slots: Slots<T>)

  /** How a system call ends; after `Dies` the process does nothing any more. */
  datatype Outcome = Works | Fails | StopsHalfWay | Dies

  /** Exactly the last of these calls fails, without ending the process; calls after it work. */
  predicate Single(outcomes: seq<Outcome>) {
    && outcomes != [] && outcomes[|outcomes| - 1] in {Fails, StopsHalfWay}
    && forall i :: 0 <= i < |outcomes| - 1 ==> outcomes[i] == Works
  }

  /** One call of a living process: without failures told it works; a single one told is the last of them. */
  predicate Called(wasAlive: bool, before: seq<Outcome>, isAlive: bool, after: seq<Outcome>, ok: bool) {
    wasAlive ==>
      && (before == [] ==> isAlive && ok && after == [])
      && (Single(before) ==> isAlive && |after| == |before| - 1 && (ok <==> |before| > 1) && (ok ==> Single(after)))
  }

  /** The destination is as found; at most an empty directory reserves the backup name. */
  predicate Waiting<T(==)>(plan: Plan<T>, s: Slots<T>) {
    && s.dest == plan.was
    && (s.backup == Absent || (s.backup == Torn && !s.marked && plan.was != Absent))
    && (s.marked ==> plan.was != Absent)
  }

  predicate Moved<T(==)>(plan: Plan<T>, s: Slots<T>) {
    plan.was != Absent && s.dest == Absent && s.backup == plan.was && s.marked
  }

  predicate Activated<T(==)>(plan: Plan<T>, s: Slots<T>) {
    && s.dest == Whole(plan.will)
    && (s.backup != Absent ==> s.marked && s.backup in {Torn, plan.was})
    && (s.marked ==> plan.was != Absent)
  }

  /** Every state an installation or a recovery may be interrupted in. */
  predicate Intact<T(==)>(plan: Plan<T>, s: Slots<T>) {
    && plan.was != Torn && s.stage in {Absent, Torn, Whole(plan.will)}
    && (Waiting(plan, s) || Moved(plan, s) || Activated(plan, s))
  }

  /** Where recovery takes a directory with a marker; without one it does nothing. */
  function Resolved<T>(s: Slots<T>): Slots<T> {
    if !s.marked then s
    else Slots(if s.dest.Absent? then s.backup else s.dest, Absent, Absent, false)
  }

  /** Recovery needs an active tree or a backup. */
  predicate Resolvable<T>(s: Slots<T>) {
    s.marked ==> !s.dest.Absent? || !s.backup.Absent?
  }

  /** From every state that can be left behind, recovery leaves one complete tree: the new one if and
      only if it had been renamed into place, else what was there before; and no marker. */
  lemma UpgradeResolves<T>(plan: Plan<T>, s: Slots<T>)
    requires Intact(plan, s)
    ensures Resolvable(s) && Intact(plan, Resolved(s)) && !Resolved(s).marked
    ensures Resolved(s).dest == if s.dest == Whole(plan.will) then Whole(plan.will) else plan.was
    ensures Resolved(Resolved(s)) == Resolved(s)
  {
  }

  /** A stage or a backup outlives recovery exactly when there was no marker to name it, and such a backup is
      the empty directory of an installation that has not touched the destination. */
  lemma LeftoversExactly<T>(plan: Plan<T>, s: Slots<T>)
    requires Intact(plan, s)
    ensures Resolved(s).stage != Absent <==> !s.marked && s.stage != Absent
    ensures Resolved(s).backup != Absent <==> !s.marked && s.backup != Absent
    ensures Resolved(s).backup != Absent ==> Resolved(s).backup == Torn && s.dest == plan.was
  {
  }

  /** Such a state: a process that dies between creating the reserved directory and removing it. */
  lemma ProbeRemains<T>(found: T, will: T)
    ensures var s := Slots(Whole(found), Whole(will), Torn, false);
            Intact(Plan(Whole(found), will), s) && Resolved(s).backup == Torn && Resolved(s).stage == Whole(will)
  {
  }

  /** What an upgrade leaves in place when exactly its n-th call fails. */
  predicate UpgradeLeft<T(==)>(plan: Plan<T>, n: nat, s: Slots<T>, ok: bool) {
    if n <= 9 then
      && !ok
      && s == (if n == 2 then Slots(plan.was, Whole(plan.will), Torn, false)
               else if n == 4 then Slots(plan.was, Whole(plan.will), Absent, true)
               else if n == 6 then Slots(Absent, Whole(plan.will), plan.was, true)
               else if n == 9 then Slots(Whole(plan.will), Absent, plan.was, true)
               else Slots(plan.was, Whole(plan.will), Absent, false))
    else
      && ok && s.dest == Whole(plan.will) && s.stage == Absent
      && (s.marked <==> n in {10, 11})
      && (if n == 10 then s.backup in {plan.was, Torn} else s.backup == Absent)
  }

  /** What an installation, from staging on, leaves when exactly its n-th call fails; the stage is yet to go. */
  predicate ActivationLeft<T(==)>(plan: Plan<T>, n: nat, s: Slots<T>, ok: bool) {
    if n <= 2 || (plan.was == Absent && n <= 4) then
      !ok && s.(stage := Absent) == Slots(plan.was, Absent, Absent, false)
    else if plan.was == Absent then
      ok && s == Slots(Whole(plan.will), Absent, Absent, false)
    else
      UpgradeLeft(plan, n - 2, s, ok)
  }

  predicate Tidied<T(==)>(before: Slots<T>, after: Slots<T>) {
    before.(stage := Absent) == after.(stage := Absent)
  }

  /** How many calls a recovery makes that has nothing in its way. */
  function RecoveryCalls<T(==)>(s: Slots<T>): nat {
    if !s.marked then 0 else if s.dest == Absent || s.backup != Absent then 4 else 3
  }

  class Package<T(==,!new)> {
    var slots: Slots<T>
    var outcomes: seq<Outcome>
    var alive: bool

    // Trees left under names that no later run records.
    var litter: nat

    ghost var plan: Plan<T>

    // What a power cut may bring back: every state since the last sync.
    ghost var seen: set<Moment<T>>

    /** Nothing but intact states can be on disk. */
    ghost predicate Valid()
      reads this
    {
      Moment(plan, slots) in seen && forall m :: m in seen ==> Intact(m.plan, m.slots)
    }

    ghost predicate NoFault()
      reads this
    {
      alive && outcomes == []
    }

    /** A directory at rest, with or without an installed package. */
    constructor (found: Content<T>, source: T)
      requires found != Torn
      ensures Valid() && NoFault() && slots == Slots(found, Absent, Absent, false)
    {
      slots := Slots(found, Absent, Absent, false);
      outcomes, alive, litter := [], true, 0;
      plan := Plan(found, source);
      new;
      seen := {Moment(plan, slots)};
    }

    method Next() returns (o: Outcome)
      modifies this`outcomes, this`alive
      ensures Called(old(alive), old(outcomes), alive, outcomes, o == Works)
      ensures o == Dies <==> !alive
      ensures old(alive) && old(outcomes) != [] ==> o == old(outcomes)[0] && outcomes == old(outcomes)[1..]
    {
      if !alive { return Dies; }
      if outcomes == [] { return Works; }
      o := outcomes[0];
      outcomes := outcomes[1..];
      alive := o != Dies;
    }

    /** An action that takes effect whole or not at all. */
    method Do(next: Slots<T>) returns (ok: bool)
      requires Valid() && Intact(plan, next)
      modifies this`slots, this`outcomes, this`alive, this`seen
      ensures Valid() && seen == old(seen) + {Moment(plan, slots)}
      ensures slots == if ok then next else old(slots)
      ensures Called(old(alive), old(outcomes), alive, outcomes, ok)
      ensures old(alive) && old(outcomes) != [] ==>
                (ok <==> old(outcomes)[0] == Works) && outcomes == old(outcomes)[1..]
      ensures ok ==> alive
    {
      var o := Next();
      ok := o == Works;
      if ok { slots := next; }
      seen := seen + {Moment(plan, slots)};
    }

    /** A removal or copy: it may stop half way, and passes through that state in any case. */
    method DoSlowly(half: Slots<T>, next: Slots<T>) returns (ok: bool)
      requires Valid() && Intact(plan, half) && Intact(plan, next)
      modifies this`slots, this`outcomes, this`alive, this`seen
      ensures Valid() && old(seen) <= seen <= old(seen) + {Moment(plan, half), Moment(plan, next)}
      ensures if ok then slots == next else slots in {old(slots), half}
      ensures Called(old(alive), old(outcomes), alive, outcomes, ok)
    {
      var o := Next();
      ok := o == Works;
      if ok {
        slots := next;
        seen := seen + {Moment(plan, half), Moment(plan, next)};
      } else if o == StopsHalfWay {
        slots := half;
        seen := seen + {Moment(plan, half)};
      }
    }

    /** Syncs the directory: nothing earlier can come back. */
    method Sync() returns (ok: bool)
      requires Valid()
      modifies this`outcomes, this`alive, this`seen
      ensures Valid() && seen == if ok then {Moment(plan, slots)} else old(seen)
      ensures Called(old(alive), old(outcomes), alive, outcomes, ok)
    {
      var o := Next();
      ok := o == Works;
      if ok { seen := {Moment(plan, slots)}; }
    }

    method Admitted() returns (ok: bool)
      modifies this`outcomes, this`alive
      ensures Called(old(alive), old(outcomes), alive, outcomes, ok)
    {
      var o := Next();
      ok := o == Works;
    }

    /** Puts the old tree back after a refused or failed activation. */
    method RollBack()
      requires Valid() && Moved(plan, slots)
      modifies this`slots, this`outcomes, this`alive, this`seen
      ensures Valid() && (slots.dest == plan.was || slots == old(slots))
      ensures old(NoFault()) ==> NoFault() && slots == Slots(plan.was, old(slots).stage, Absent, false)
    {
      var ok := Do(slots.(dest := slots.backup, backup := Absent));
      if ok {
        var unmarked := Do(slots.(marked := false));
        var synced := Sync();
      }
    }

    /** Draws a backup name by creating an empty directory and removing it; a process that dies in between
        leaves the directory. */
    method ReserveBackup() returns (ok: bool)
      requires Valid() && Waiting(plan, slots) && plan.was != Absent && slots.backup == Absent && !slots.marked
      modifies this`slots, this`outcomes, this`alive, this`seen
      ensures Valid() && slots.(backup := Absent) == old(slots) && slots.backup in {Absent, Torn}
      ensures ok ==> slots == old(slots)
      ensures old(NoFault()) ==> ok && NoFault()
      ensures old(alive) && Single(old(outcomes)) ==>
                && alive && (ok <==> 2 < |old(outcomes)|)
                && (ok ==> Single(outcomes) && |outcomes| == |old(outcomes)| - 2)
                && (!ok ==> outcomes == [] && (slots == old(slots) <==> |old(outcomes)| == 1))
      ensures old(alive) && old(outcomes) == [Works, Dies] ==> slots == old(slots).(backup := Torn)
    {
      ok := Do(slots.(backup := Torn));
      if ok { ok := Do(slots.(backup := Absent)); }
    }

    /** Replaces an installed package by its staged successor through a marked backup. A reported success
        cannot be lost any more. */
    method Upgrade() returns (ok: bool)
      requires Valid() && plan.was != Absent && slots == Slots(plan.was, Whole(plan.will), Absent, false)
      modifies this`slots, this`outcomes, this`alive, this`seen
      ensures Valid()
      ensures ok ==> slots.dest == Whole(plan.will) && forall m :: m in seen ==> m.slots.dest == Whole(plan.will)
      ensures old(NoFault()) ==> ok && NoFault() && slots == Slots(Whole(plan.will), Absent, Absent, false)
      ensures old(alive) && Single(old(outcomes)) ==>
                && alive && UpgradeLeft(plan, |old(outcomes)|, slots, ok)
                && (if |old(outcomes)| <= 12 then outcomes == [] else Single(outcomes))
    {
      hide Single;
      ok := ReserveBackup();
      if ok { ok := Do(slots.(marked := true)); }
      if ok { ok := Sync(); }
      if !ok { return; }
      ok := Do(slots.(dest := Absent, backup := slots.dest));
      if !ok {
        var unmarked := Do(slots.(marked := false));
        return;
      }
      ok := Sync();
      if !ok { return; }
      ok := Admitted();
      if ok { ok := Do(slots.(dest := slots.stage, stage := Absent)); }
      if !ok {
        RollBack();
        return;
      }
      ok := Conclude();
    }

    /** Makes the activation durable, then drops the backup and the marker as far as that works. */
    method Conclude() returns (ok: bool)
      requires Valid() && Activated(plan, slots) && slots.marked
      modifies this`slots, this`outcomes, this`alive, this`seen
      ensures Valid() && slots.dest == old(slots).dest
      ensures ok ==> forall m :: m in seen ==> m.slots.dest == old(slots).dest
      ensures old(NoFault()) ==> ok && NoFault() && slots == old(slots).(backup := Absent, marked := false)
      ensures old(alive) && Single(old(outcomes)) ==>
                && alive && (ok <==> 1 < |old(outcomes)|)
                && slots.stage == old(slots).stage
                && (slots.marked <==> |old(outcomes)| <= 3)
                && (match |old(outcomes)|
                    case 1 => slots.backup == old(slots).backup
                    case 2 => slots.backup in {old(slots).backup, Torn}
                    case _ => slots.backup == Absent)
                && (if |old(outcomes)| <= 4 then outcomes == [] else Single(outcomes))
    {
      hide Single;
      ok := Sync();
      if !ok { return; }
      var removed := DoSlowly(slots.(backup := Torn), slots.(backup := Absent));
      if removed {
        var unmarked := Do(slots.(marked := false));
        var synced := Sync();
      }
    }

    method TidyStage() returns (tidied: bool)
      requires Valid()
      modifies this`slots, this`outcomes, this`alive, this`seen
      ensures Valid() && old(seen) <= seen
      ensures slots.(stage := Absent) == old(slots).(stage := Absent)
      ensures forall m :: m in seen && m !in old(seen) ==> m.plan == plan && m.slots.dest == slots.dest
      ensures Called(old(alive), old(outcomes), alive, outcomes, tidied) && (tidied ==> slots.stage == Absent)
    {
      tidied := DoSlowly(if slots.stage == Absent then slots else slots.(stage := Torn), slots.(stage := Absent));
    }

    /** A new installation, with new names for its stage and backup. */
    method Begin(source: T)
      requires Valid() && !slots.marked
      modifies this`slots, this`litter, this`plan, this`seen
      ensures Valid() && slots == Slots(old(slots).dest, Absent, Absent, false)
      ensures plan == Plan(old(slots).dest, source)
      ensures litter == old(litter) + (if old(slots).stage == Absent then 0 else 1)
                                    + (if old(slots).backup == Absent then 0 else 1)
    {
      UpgradeResolves(plan, slots);
      if slots.stage != Absent { litter := litter + 1; }
      if slots.backup != Absent { litter := litter + 1; }
      plan := Plan(slots.dest, source);
      slots := Slots(slots.dest, Absent, Absent, false);
      seen := seen + {Moment(plan, slots)};
    }

    /** Stages, then activates directly or by an upgrade. */
    method Activate(source: T) returns (ok: bool)
      requires Valid() && source == plan.will && slots == Slots(plan.was, Absent, Absent, false)
      modifies this`slots, this`outcomes, this`alive, this`seen
      ensures Valid()
      ensures ok ==> slots.dest == Whole(plan.will)
      ensures ok && plan.was != Absent ==> forall m :: m in seen ==> m.slots.dest == Whole(plan.will)
      ensures plan.was == Absent ==> old(seen) <= seen
      ensures old(NoFault()) ==> ok && NoFault() && slots == Slots(Whole(plan.will), Absent, Absent, false)
      ensures old(alive) && Single(old(outcomes)) ==>
                alive && ActivationLeft(plan, |old(outcomes)|, slots, ok) && (!ok ==> outcomes == [])
    {
      hide Single;
      ok := DoSlowly(slots.(stage := Torn), slots.(stage := Whole(source)));
      if ok { ok := Admitted(); }
      if !ok { return; }
      if slots.dest == Absent {
        ok := Admitted();
        if ok { ok := Do(slots.(dest := slots.stage, stage := Absent)); }
      } else {
        ok := Upgrade();
      }
    }

    /** Installs, over whatever an earlier run left: recovers it first, then starts with new names. Whatever
        fails and wherever the process dies, the directory resolves to the recovered tree or the new one; a
        reported success survives a power cut exactly when it replaced something. A single failing call leaves what
        `ActivationLeft` says; in particular a refused or failed activation, calls 9 and 10, leaves the directory
        as it was recovered. */
    method Install(source: T, force: bool) returns (ok: bool)
      requires Valid()
      modifies this
      ensures Valid()
      ensures Resolved(slots).dest in {Resolved(old(slots)).dest, Whole(source)}
      ensures ok ==> slots.dest == Whole(source)
      ensures ok ==> ((forall m :: m in seen ==> m.slots.dest == Whole(source))
                      <==> Resolved(old(slots)).dest != Absent)
      ensures !force && Resolved(old(slots)).dest != Absent ==>
                !ok && Resolved(slots).dest == Resolved(old(slots)).dest
      ensures old(NoFault()) && (force || Resolved(old(slots)).dest == Absent) ==>
                ok && slots == Slots(Whole(source), Absent, Absent, false)
      ensures old(alive) && Single(old(outcomes)) && RecoveryCalls(old(slots)) < |old(outcomes)|
              && (force || Resolved(old(slots)).dest == Absent) ==>
                exists left :: Tidied(left, slots)
                  && ActivationLeft(Plan(Resolved(old(slots)).dest, source),
                                    |old(outcomes)| - RecoveryCalls(old(slots)), left, ok)
                  && (!ok ==> slots.stage == Absent)
      ensures old(alive) && Single(old(outcomes)) && force && Resolved(old(slots)).dest != Absent
              && |old(outcomes)| - RecoveryCalls(old(slots)) in {1, 2, 3, 5, 7, 9, 10} ==>
                !ok && slots == Slots(Resolved(old(slots)).dest, Absent, Absent, false)
    {
      hide Single;
      UpgradeResolves(plan, slots);
      ok := Recover();
      if !ok { return; }
      if slots.dest != Absent && !force { return false; }
      Begin(source);
      ok := Activate(source);
      UpgradeResolves(plan, slots);
      ghost var left := slots;
      var tidied := TidyStage();
      assert Tidied(left, slots);
      UpgradeResolves(plan, slots);
    }

    /** Finishes an interrupted installation, from any state that can be on disk; interrupted itself, it
        leaves a state that resolves to the same tree. */
    method Recover() returns (ok: bool)
      requires Valid()
      modifies this`slots, this`outcomes, this`alive, this`seen
      ensures Valid()
      ensures Resolved(slots).dest == Resolved(old(slots)).dest
      ensures ok ==> slots.(stage := Absent) == Resolved(old(slots)).(stage := Absent)
      ensures old(NoFault()) ==> ok && NoFault() && slots == Resolved(old(slots))
      ensures old(alive) && Single(old(outcomes)) && RecoveryCalls(old(slots)) < |old(outcomes)| ==>
                && ok && alive && slots == Resolved(old(slots))
                && Single(outcomes) && |outcomes| == |old(outcomes)| - RecoveryCalls(old(slots))
    {
      if !slots.marked { return true; }
      ok := true;
      if slots.dest == Absent {
        ok := Do(slots.(dest := slots.backup, backup := Absent));
      } else if slots.backup != Absent {
        ok := DoSlowly(slots.(backup := Torn), slots.(backup := Absent));
      }
      if !ok { return; }
      var tidied := TidyStage();
      ok := Do(slots.(marked := false));
      if ok { ok := Sync(); }
    }
  }

  /** Whatever a crash at any moment of any number of installations and recoveries leaves behind, the next
      recovery completes it. */
  lemma SeenResolves<T(!new)>(p: Package<T>, m: Moment<T>)
    requires p.Valid() && m in p.seen
    ensures Resolvable(m.slots)
    ensures Resolved(m.slots).dest == if m.slots.dest == Whole(m.plan.will) then Whole(m.plan.will) else m.plan.was
  {
    UpgradeResolves(m.plan, m.slots);
  }
}
