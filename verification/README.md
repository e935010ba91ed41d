# Verified model of the Skills Hub installer and its evidence checks

This project models the parts of the Skills Hub command line and its tools whose correctness depends on
ordering, crashes, growing worklists or order independence, and proves what they are for. Check it with
`dafny verify dfyconfig.toml`.

## What is modelled

**The crash-safe closure installer** (`internal/installer/remote.go`). A plugin and its dependencies are
installed as one transaction.

- `ClosureMachine.dfy` is the protocol as a step machine for any number of operations, any subset of which
  replaces an installed tree. The disk exists twice: what processes see and what survives a power cut. Steps are
  the program's own actions, removals that stop half way, kills, power cuts, spontaneous flushes of single
  directory entries or of the marker, restarts of recovery, and the late stage clean-up of a process that failed.
  Every one of them is possible at every moment, also inside recovery, any number of times.
- `ClosureSafety.dfy` proves the invariant of all runs, `ClosureRecovery.dfy` that recovery computes one closed
  form and may be repeated, `ClosureTotality.dfy` that under every fault it succeeds and a durable commit is final,
  `ClosureAtomicity.dfy` the old-or-new theorems, `ClosureVisibility.dfy` that the root never stands above mismatched
  dependencies, and `ClosureFaults.dfy` exactly under which faults these hold.
- `ClosureInstaller.dfy` is the code in its own form: a class over a map of paths whose methods are the loops of
  installation and recovery, every system call of which may fail. Each action is shown to be a step of the
  machine, so its theorems hold of the methods.
- `PackageUpgrade.dfy` is the single-package installer, whose marker has no phase. `ClosureLocks.dfy` lets any
  number of installers interleave.

**Dependency graphs and closures.** `DependencyGraph.dfy` has the repository's cycle check and the lock's
reachability and cycle checks; `AgentClosure.dfy` the installer's and the verifier's worklists, which must agree.

**Transformations, folds and printers.** `McpRebase.dfy` moves MCP servers from a component's root to the
plugin's, `McpMerge.dfy` screens them before and after and merges them, and `McpPaths.dfy` says what a clean path is
and that merged servers stay inside; `ShellQuote.dfy` prints a command
whose words a POSIX shell reads back; `CapabilityComposer.dfy`, `CompositeEvidence.dfy` and
`EvidenceSelection.dfy` are the order-independent evidence folds, the last with the gates before it;
`SnapshotCache.dfy` is the pruned snapshot store and `Reconciler.dfy` the event reconciliation. `Sorting.dfy`
and `Gathering.dfy` hold what several of them share.

## What turned out

Where the code falls short of what its comments or tests suggest, the model follows the code and states exactly
when the property holds, with a failing input.

- *Closure atomicity* has two gaps, and each breaks it alone. The commit gap: the process dies after renaming the
  committed marker into place and before that is synced, and a power cut hits the next recovery; a failing sync at
  line 1152 leads into it without any process dying, since the installer then recovers at once. The other: the
  empty directory that only reserves a backup name becomes durable while its removal does not. The protocol is
  atomic if and only if the transaction replaces nothing, or there is no power cut, or neither gap is hit
  (`AtomicExactly`, with `CommitGapBreaks` and `ProbeFlushBreaks`). Until a commit is seen only the second gap matters
  (`OldExactly`); a durable commit is final and recovery never gets stuck, whatever the faults (`NewFromCommit`,
  `RecoveryIsTotal`).
- *Root visibility*, in every intermediate state, holds if and only if there is a single package, or no power cut, or
  recovery is not killed between removing the new root and syncing that (nor does that sync fail), and, where the root
  replaces another, neither gap of atomicity is hit (`ConsistentExactly`, with `RetiringBreaks`, `TornRootShows`,
  `FlushedRootShows`). The installer today refuses to replace the root of a closure with dependencies (line 1011), so
  for what it accepts the last condition is empty (`AdmittedConsistentExactly`); the protocol itself records and
  undoes such a replacement.
- *A stale marker.* A rollback that is killed between removing its marker and syncing that (lines 1250-1253) leaves a
  marker that is durable but that no later process sees or syncs away. A tree installed later at one of its
  destinations survives a power cut if and only if no prepared marker is durable any more, or the transaction had
  replaced a tree there (`LaterInstallSurvives`); otherwise the next recovery deletes it (`StaleMarkerDeletes`). So a
  later installation at a new destination is safe exactly once the marker's removal has been synced.
- *Leftovers.* Without a marker recovery does nothing, so a closure's stages and backups outlive it exactly when
  there was no marker and something to leave, under every fault (`ClosureTotality.LeftoversExactly`); a process that
  dies while staging gives such a state (`CrashLeavesStage`). The single-package installer has the same boundary, for
  its stage and for the directory that reserves the backup (`PackageUpgrade.LeftoversExactly`, `ProbeRemains`).
- *One failing call.* In a closure it leaves every destination old or every destination new, and after a failed
  activation the old ones without a marker (`Transact`, `ActivateOrRollBack`). In a single-package upgrade what is left
  depends on the call (`UpgradeLeft`): a refused or failed activation is rolled back, but the sync after the marker is
  reported with the marker in place (line 1388), and the one after the backup rename with the destination absent until
  somebody recovers (lines 1395-1397).
- A fresh single-package activation returns without syncing the parent directory (lines 1375-1378): a reported
  success survives a power cut if and only if it replaced something (`Package.Install`).
- *MCP rebasing* keeps every launch if and only if no placeholder begins in the component's path (`RebaseExactly`);
  the paths that admission lets through are free of them, so accepted plugins always keep theirs (`AdmittedLaunch`).
  A command or directory with a slash right after the prefix that makes it relative, such as `.//run`, is accepted
  where it stands and refused once moved, so merging succeeds if and only if no name is declared twice, every
  declaration is acceptable, and none has that slash (`MergeServers`, `RebasedPortable`, `DoubledSlashRefused`).
- *Directories with placeholders.* A server's program always lies below its component, and its working directory below
  the component or the plugin's data for all roots if and only if the first segment behind its prefix is not two dots
  directly before a placeholder (`MergedInside`, `StraightExactly`): validation sees a plain name, expansion makes the
  two dots a segment of their own.
- *Installer and verifier.* The installer checks an agent's dependencies against the registry but copies the local
  trees, whose versions it does not compare. The verifier accepts what it recorded if and only if every member that
  is not an agent was installed from a tree of the recorded version (`ProducerConsumerAgree`); a skill registered and
  pinned at one version whose tree is at another is installed, recorded and then refused (`StaleTreeRefused`).
- The composer's blocking reasons are the same in every order of the results exactly when results that repeat a
  declared capability all match the contract or all fail to (`ReasonsOrderFreeExactly`).
- The composite fingerprint commits to which ready tools were observed if no version has a line break. The schema
  allows any version text; then it commits to the empty list and to single observations whose version does not
  spell out a second one, and to nothing else (`FingerprintExactly`).
- The derived catalogue status depends on the order of the evidence directory only among passed records that tie
  in both times, and exactly when these are judged differently (`OrderFreeExactly`).
- *Event keys.* If no name has a colon, two events with identifiers are taken for one exactly when name and identifier
  agree, where a missing name reads `unknown` and a null one `None`; with a colon, different names and identifiers can
  give one key (`SameKeyExactly`, `KeysCollide`).
- Comparing credential keys takes a blank one for a missing one (`BlankKeysPass`); where none is blank, as keys are
  made, it compares the maps (`KeysExactly`).

Two things that are no failures are easily taken for granted. An error from the installer does not mean that the old
closure stands: writing the committed marker can fail after its rename took effect, and the marker on disk decides
(`Transact`). And a printed command reads back as words, that is by token recognition and quote removal: a first word
that the shell would take for a keyword or an assignment, such as `if` or `A=b`, is printed without quotes.

## Hypotheses

- The destinations of a closure are pairwise distinct and none lies inside another. `validatePackageID` checks
  less: it accepts `../x`.
- The closure marker's name depends on the root's identifier alone, so two roots of the same identifier under one
  runtime root are the same destination. The marker at the start is one an installer wrote, so it names no path
  twice; every installation and recovery keeps that.
- The scan for interrupted closures runs before the locks are taken; isolation from another closure that crashes
  in that window is not claimed, and `ClosureLocks.dfy` is about runs without crashes.
- A file's content is durable with the directory entry that shows it, each directory's entries become durable
  independently of other directories, and an entry never reverts to a state older than its last sync. In
  `PackageUpgrade.dfy`, where everything lies in one directory, a power cut brings back one of the states that
  directory has been in since its last sync.
- Durability is that of the Unix build; on Windows directories are not synced at all.
- An installed agent that the installer finds already in place, verifies and reuses has the manifest of the local one.
- In `ClosureInstaller.dfy` a transaction's stage and backup names are drawn before its staging loop instead of
  inside it; they are unused names either way.
- The runtime that launches MCP servers expands both placeholders in one pass over arguments, environment and
  working directory, and a relative command is taken from the root.
- Once an agent has been followed, the installer's worklist skips later bindings of that agent before comparing
  versions, as the code does.

## Model

| member | source | states |
|---|---|---|
| ClosureMachine.Progress | internal/installer/remote.go:1021-1124 | Every action of installation and recovery, as one state to the next, keeps the program counter and the disk in range for any number of operations. |
| ClosureSafety.StepInv | internal/installer/remote.go:939-1254 | Each step that the chosen faults allow, of the program or of its environment, keeps the protocol invariant on the visible and on the durable disk. |
| ClosureSafety.RunInv | internal/installer/remote.go:939-1254 | The invariant holds after every run that the chosen faults allow, with recoveries restarted any number of times. |
| ClosureSafety.InstallRecoverable | internal/installer/remote.go:1021-1119 | Wherever installation stands, what is visible can be recovered to the old or to the new closure as its marker says. |
| ClosureSafety.RecoveryProgressView | internal/installer/remote.go:1178-1254 | Recovery's next action keeps the recovery invariant on the visible disk. |
| ClosureSafety.RecoveryProgressDurable | internal/installer/remote.go:1178-1254 | It keeps the recovery invariant on the durable disk too. |
| ClosureRecovery.RecoveryComputes | internal/installer/remote.go:1155-1254 | Recovery of any disk whatever succeeds exactly when every member has something to keep, and then leaves the closed form of that disk without marker, stage or backup. |
| ClosureRecovery.RecoveryRepeats | internal/installer/remote.go:1155-1254 | Killing recovery anywhere, any number of times, changes neither whether a later one succeeds nor what it leaves. |
| ClosureRecovery.InterruptedOnCourse | internal/installer/remote.go:1178-1254 | Every state on an interrupted recovery still calls for the same final disk, and what recovery is done with is already final. |
| ClosureRecovery.RecoveryIsDurable | internal/installer/remote.go:1243-1254 | A recovery that finds a marker and finishes has made its whole result durable. |
| ClosureRecovery.Drive | internal/installer/remote.go:939-1254 | The program, left alone from any well-formed state, ends. |
| ClosureTotality.RecoveryIsTotal | internal/installer/remote.go:1155-1254 | After every run under every choice of faults, one uninterrupted recovery of any disk it may leave succeeds: no member is ever without content and rollback copy, no committed member is missing, and a commit it finds is carried out. |
| ClosureTotality.LeftoversExactly | internal/installer/remote.go:1155-1160 | After every run, recovery leaves no stage, backup or marker exactly when it found a marker or there was none of them. |
| ClosureTotality.NewFromCommit | internal/installer/remote.go:1116-1122 | Once the committed marker can no longer be lost, every recovery from then on succeeds and leaves the new closure, whatever faults happen before and after. |
| ClosureTotality.LaterInstallSurvives | internal/installer/remote.go:1250-1253 | After any run that leaves no visible marker, a tree later and durably installed at one of its destinations is kept by the recovery after a power cut exactly when no prepared marker is still durable, or the transaction had replaced a tree there. |
| ClosureAtomicity.ClosureIsAtomic | internal/installer/remote.go:1050-1122 | After any run that has no power cut, or hits neither gap, or replaces nothing, one uninterrupted recovery of whatever disk it may leave succeeds and makes every destination old if that disk's marker is prepared, every destination new if committed; without marker the disk is wholly old or wholly new already. |
| ClosureAtomicity.CrashLeavesStage | internal/installer/remote.go:1021-1030 | A process that dies while it stages its first member leaves a stage that recovery does not remove, under every choice of faults. |
| ClosureAtomicity.OldUntilCommit | internal/installer/remote.go:1050-1115 | As long as the committed marker has not been written, every recovery restores the old closure, in every run without power cuts, or without a flush of the reserved directory, or that replaces nothing; kills may hit anywhere. |
| ClosureAtomicity.InstallCompletes | internal/installer/remote.go:1021-1124 | Uninterrupted, the installer ends with the whole new closure, visible and durable, without residue. |
| ClosureVisibility.ClosureIsConsistent | internal/installer/remote.go:1059-1110 | In every state of every run in which no kill hits the new root's removal before its sync, and neither gap if the root replaces another, or which has no power cut, also between recovery's steps: a new root stands only above new dependencies and an old root only above old ones; with power cuts, likewise on the disk one would leave. |
| ClosureFaults.ProbeFlushBreaks | internal/installer/remote.go:1031-1042 | If the directory that reserves a backup name becomes durable and its removal does not, a power cut lets recovery replace an installed tree by it, with no other gap hit. |
| ClosureFaults.CommitGapBreaks | internal/installer/remote.go:1149-1152 | A kill between the committed marker's rename and its sync, then a power cut during the next recovery, ends in a closure that is neither old nor new, with no other gap hit. |
| ClosureFaults.AtomicExactly | internal/installer/remote.go:939-1254 | All runs recover to a sound closure if and only if the faults have no power cut, or leave out both gaps, or the transaction replaces nothing. |
| ClosureFaults.OldExactly | internal/installer/remote.go:1050-1115 | All runs in which no commit is seen recover to the old closure if and only if the transaction replaces nothing, or there are no power cuts, or no reserved directory becomes durable: over all sixteen choices of faults. |
| ClosureFaults.StaleMarkerDeletes | internal/installer/remote.go:1226-1229 | A run with kills outside the gaps only, after which a tree installed later where nothing had been found is deleted by the recovery that follows a power cut. |
| ClosureFaults.RetiringBreaks | internal/installer/remote.go:1194-1201 | A kill between removing the new root and syncing that, then a power cut, shows a new root above old dependencies; no other fault than that one kill is needed. |
| ClosureFaults.TornRootShows | internal/installer/remote.go:1149-1152 | In a transaction that replaces a root with dependencies, which the protocol provides for and line 1011 refuses, the commit gap alone shows a root above mismatched dependencies. |
| ClosureFaults.FlushedRootShows | internal/installer/remote.go:1031-1042 | In such a transaction the reserved directory's gap alone does so too. |
| ClosureFaults.ConsistentExactly | internal/installer/remote.go:1059-1110 | No run shows a root above mismatched dependencies if and only if there are none, or no power cuts, or no kill hits the root's unsynced removal and, where the root replaces another, neither gap of atomicity is hit: over all sixteen choices of faults. |
| ClosureFaults.AdmittedConsistentExactly | internal/installer/remote.go:1011-1013 | For the transactions the installer accepts: if and only if there are no dependencies, or no power cuts, or no kill hits the root's unsynced removal. |
| ClosureInstaller.NameOperations | internal/installer/remote.go:1021-1044 | Every operation gets a stage, and a backup when it replaces something, beside its destination, valid for recovery, unused, and no path twice. |
| ClosureInstaller.Runtime.Rename | internal/installer/remote.go:1061-1066 | A rename moves a whole tree to a free path or changes nothing. |
| ClosureInstaller.Runtime.RemoveAll | internal/installer/remote.go:1195-1200 | A removal empties its path; one that fails leaves the tree or an incomplete one. |
| ClosureInstaller.Runtime.OperationsValid | internal/installer/remote.go:1173-1177 | Recovery accepts a marker exactly when each recorded operation stays inside the runtime root with stage and backup beside its destination. |
| ClosureInstaller.Runtime.RetireRoot | internal/installer/remote.go:1178-1202 | A new root is taken out of service before any dependency is restored; the outcome recovery works towards is unchanged. |
| ClosureInstaller.Runtime.UndoMember | internal/installer/remote.go:1216-1232 | Restores one member of a prepared transaction; it fails without a fault only if neither the member nor its backup exists. |
| ClosureInstaller.Runtime.SealMember | internal/installer/remote.go:1233-1242 | Drops one member's backup in a committed transaction; it fails without a fault only if the member is missing. |
| ClosureInstaller.Runtime.MendMembers | internal/installer/remote.go:1203-1249 | The loop from the last operation to the first carries recovery to the removal of the marker, or stops with files that still call for the same result. |
| ClosureInstaller.Runtime.RunRecovery | internal/installer/remote.go:1155-1254 | Refuses foreign paths without touching anything, and otherwise follows the machine's recovery to its end unless a call fails. |
| ClosureInstaller.Runtime.Recover | internal/installer/remote.go:1155-1254 | On any files: only recorded paths change; success leaves at each destination exactly the tree the files called for and no stage, backup or marker; a failure leaves the marker and files that call for the same, or comes when all that is done; without failing calls it succeeds exactly when no member is lost. |
| ClosureInstaller.Runtime.StageMembers | internal/installer/remote.go:1021-1044 | Stages every member in order and reserves the backups; whether it succeeds or not, every destination is as it was. |
| ClosureInstaller.Runtime.WriteMarker | internal/installer/remote.go:1130-1153 | The marker changes by one rename which may have taken effect although the call reports an error. |
| ClosureInstaller.Runtime.DeactivateRoot | internal/installer/remote.go:1059-1072 | An installed root is moved to its backup, and that is synced, before any dependency changes. |
| ClosureInstaller.Runtime.ActivateMembers | internal/installer/remote.go:1073-1110 | Dependencies are activated in order and the root last, each rename synced before the next, with admission rechecked each time. |
| ClosureInstaller.Runtime.Rollback | internal/installer/remote.go:1053-1058 | Rolling back is recovery from the marker on disk. If no further call fails it ends with every destination old if that marker is prepared, every destination new if committed, and no marker. |
| ClosureInstaller.Runtime.ActivateOrRollBack | internal/installer/remote.go:1053-1115 | After a failed activation with no further failing call, every destination is as before and there is no marker; each activation and the commit follow a passed admission check. |
| ClosureInstaller.Runtime.TidyStages | internal/installer/remote.go:1016-1020 | On return every stage is removed, one after the other; destinations stay as they are, and if no removal fails no stage is left. |
| ClosureInstaller.Runtime.Transact | internal/installer/remote.go:1001-1124 | Whatever call fails: only the transaction's paths change and the marker decides between the old closure and the new; a single failing call leaves every destination old or every destination new, and no stage; success is exactly the new packages without residue; it is refused over installed packages unless forced, and over an installed root of a larger closure always. |
| ClosureInstaller.Runtime.Install | internal/installer/remote.go:939-1124 | Refuses repeated or misplaced destinations, finishes what an earlier process left, and then, if what stands after that is in the way (unforced, or the root of a larger closure), does nothing more and fails; otherwise installs. Success means every package is in place and no marker remains; after a failure the files still call for what the earlier marker called for, or that is done and the marker of this transaction decides; a single failing call leaves its destinations wholly old or new and no stage of it; only the paths of these two transactions change; if no call fails and the earlier marker can be recovered, only an obstruction makes it fail. |
| ClosureInstaller.Mended | internal/installer/remote.go:1178-1254 | What the machine's recovery leaves is, on files, what each operation's destination was due, and members are lost exactly when the machine finds the disk beyond mending. |
| ClosureInstaller.Verdict | internal/installer/remote.go:1050-1122 | A disk the machine can recover is, on files, one whose marker decides the fate of every destination. |
| ClosureInstaller.Installed | internal/installer/remote.go:1073-1124 | The machine's final disk is, on files, the packages at their destinations and everything else as before. |
| PackageUpgrade.UpgradeResolves | internal/installer/remote.go:1463-1506 | From every state an installation or recovery may be interrupted in, recovery by existence alone leaves one complete tree, the new one if and only if it had been renamed into place, without marker, and repeating it changes nothing. |
| PackageUpgrade.LeftoversExactly | internal/installer/remote.go:1463-1467 | A stage or backup outlives recovery exactly when no marker named it; such a backup is the empty directory that reserved its name, and the destination is as found. |
| PackageUpgrade.ProbeRemains | internal/installer/remote.go:1380-1386 | A state in which a stage and such a directory remain: between creating it and removing it. |
| PackageUpgrade.Package.ReserveBackup | internal/installer/remote.go:1380-1386 | Changes nothing but the backup name, and reaches exactly that state when the process dies after creating the directory. |
| PackageUpgrade.Package.Upgrade | internal/installer/remote.go:1380-1434 | Every directory state an upgrade passes through can be resolved, whichever call fails and wherever the process dies; a reported success has the new tree in place, also after a power cut; for a single failing call, the exact state left. |
| PackageUpgrade.Package.RollBack | internal/installer/remote.go:1403-1421 | A refused or failed activation puts the old tree back, without backup and marker, if no further call fails; else it leaves a marker from which recovery does. |
| PackageUpgrade.Package.Conclude | internal/installer/remote.go:1427-1434 | Success means that no power cut can lose the activation; the destination stays, and a backup or marker that cannot be removed is left to recovery. |
| PackageUpgrade.Package.Install | internal/installer/remote.go:1331-1435 | Over whatever an earlier run left, recovered first: the directory resolves to the recovered tree or the new one, whatever fails and wherever the process dies; without force a recovered package is left alone; uninterrupted, the new tree is in place without residue; a reported success survives a power cut exactly when it replaced something; for a single failing call, the exact state left, which after a refused or failed activation is the recovered tree alone. |
| PackageUpgrade.Package.Recover | internal/installer/remote.go:1463-1506 | Recovery finishes with the tree the directory called for; interrupted, it leaves a state that calls for the same tree. |
| PackageUpgrade.SeenResolves | internal/installer/remote.go:1369-1434 | Whatever state a crash at any moment leaves, the next recovery finds an active tree or a backup and ends with a complete tree, new exactly if activated. |
| ClosureLocks.RunInv | internal/installer/remote.go:975-1000 | In every interleaving no two installers hold one lock, and destinations nobody is renaming are as the committed installers alone would have left them. |
| ClosureLocks.OnlyHolderWrites | internal/installer/remote.go:984-997 | A destination changes only by a step of the installer that holds its lock. |
| ClosureLocks.Serialisable | internal/installer/remote.go:975-1124 | When all have ended, the runtime is what the successful installers give one at a time in the order of their commits, each admitted there too; refused ones have left nothing. |
| ClosureLocks.Progresses | internal/installer/remote.go:984-1013 | From every reachable world an installer whose destinations nobody else has locked gets all its locks; it is then refused exactly if it is unforced and one of them is installed, or there are several and the root is; otherwise it can end in success with its packages in place. |
| ClosureLocks.RefusedIfHeld | internal/installer/remote.go:988-996 | A lock that another installer has refuses the one that tries it, which then keeps none. |
| DependencyGraph.LayeredIsAcyclic | internal/registry/admission.go:1193-1212 | Nodes finished in order, each after what it depends on, leave no cycle. |
| DependencyGraph.ShownCycleExists | internal/registry/admission.go:1200-1202 | The stack reported with a repeated node is a path and contains a real cycle through that node. |
| DependencyGraph.Search.Visit | internal/registry/admission.go:1196-1212 | Below a new node, the search reports a shown cycle or finishes the node with its stack as before; open nodes are exactly those on the stack. |
| DependencyGraph.Search.VisitLocked | internal/registry/admission.go:625-640 | The lock's form of the search, which looks at a node's state on entering it, keeps the same. |
| DependencyGraph.ValidateGraph | internal/registry/admission.go:1193-1226 | Reports an error exactly when the dependency relation has a cycle, for every graph and order of nodes, with a stack that shows it. |
| DependencyGraph.ReachableIsLeast | internal/registry/admission.go:606-619 | What is reachable contains the references, is closed under dependencies, and lies in every such set. |
| DependencyGraph.Explore | internal/registry/admission.go:598-619 | The queue finds exactly what is reachable, and fails exactly when something reachable is not locked. |
| DependencyGraph.FindLockCycle | internal/registry/admission.go:623-645 | In whatever order components are visited, an error means exactly that the locked graph has a cycle. |
| DependencyGraph.ValidateLock | internal/registry/admission.go:598-645 | Accepts exactly the locks whose components are the least set reachable from the references, all present, without cycle; the verdict does not depend on visiting order. |
| AgentClosure.CollectBindings | internal/installer/agent.go:120-142 | The growing worklist ends with exactly the transitive bindings, or names an agent in the closure that cannot be followed. |
| AgentClosure.DependencyIDs | internal/installer/agent.go:144-155 | The packages of a kind with a resolved binding, each once, in order. |
| AgentClosure.VerifyPinned | internal/installer/agent.go:157-178 | Holds exactly when every resolved binding of the kind is pinned to a registered version that is the latest. |
| AgentClosure.InstallSet | internal/installer/plugin.go:256-325 | Succeeds exactly when every package is registered, has a version (the registry's latest, else its manifest's, else the one for unversioned packages) and can be placed; records one member for each, at that version. |
| AgentClosure.Preflight | internal/installer/agent.go:89-118 | Passes exactly when every resolved binding of every kind is admitted and pinned to the latest release. |
| AgentClosure.InstallSets | internal/installer/agent.go:56-81 | The records of the three kinds, joined, name each resolved package once, at its selected version. |
| AgentClosure.InstallDependencies | internal/installer/agent.go:50-83 | Succeeds exactly when every transitive agent can be followed, every pin is the latest release, and every package is admitted and can be placed; the record then lists each transitive resolved package once at its selected version, which is the pinned one unless a pin is blank. |
| AgentClosure.SelectedArePinned | internal/installer/agent.go:157-178 | Where no pin is blank, recording selected versions is recording pinned ones. |
| AgentClosure.DeriveExpected | internal/installer/receipt.go:218-262 | The verifier's worklist derives exactly the transitive resolved bindings with their versions, or fails exactly when one of them cannot be derived from what is installed. |
| AgentClosure.CheckReceipt | internal/installer/receipt.go:264-293 | Equal size, expected members and no duplicate mean that nothing is missing. |
| AgentClosure.VerifyClosure | internal/installer/receipt.go:208-295 | Accepts exactly the receipts that list each transitive resolved dependency once at its pinned version, all bound to their releases. |
| AgentClosure.ProducerConsumerAgree | internal/installer/receipt.go:218-293 | For an installable closure whose recorded agents keep their manifests, the verifier accepts exactly the installer's record, from installed manifests alone, and accepts it exactly when every member that is not an agent was installed from a tree of the recorded version and all receipts are bound. |
| AgentClosure.StaleTreeRefused | internal/installer/receipt.go:242-249 | A skill pinned to the latest release whose local tree has another version meets every condition of the installer and is refused by the verifier. |
| McpRebase.ExpandRebased | internal/installer/compiler.go:978-981 | For a path in which no placeholder begins, expanding a rebased string at the plugin's root gives what expanding the original at the component's root gives. |
| McpRebase.RebasePreservesLaunch | internal/installer/compiler.go:928-981 | The rebased server launched at the plugin's root has the same command, arguments, environment and directory as the original launched at its component's root. |
| McpRebase.RebaseExactly | internal/installer/compiler.go:978-981 | All strings, under all roots, expand alike after rebasing if and only if no suffix of the component's path is comparable by prefix with a placeholder. |
| McpRebase.RebasedPathValid | internal/installer/compiler.go:947-953 | A valid path stays valid under a valid component path exactly when no slash follows its leading dot and slash. |
| McpRebase.RebaseServer | internal/installer/compiler.go:946-960 | Updating the fields in turn gives the rebased server. |
| McpMerge.AdmittedPath | internal/registry/admission.go:566-568 | Every component path the lock admits is canonical, and no placeholder begins in it. |
| McpMerge.AdmittedLaunch | internal/installer/compiler.go:928-981 | So for every accepted plugin, whatever its servers declare, the rebased server launched at the plugin's root is the original launched at its component's. |
| McpMerge.RebaseKeepsPlain | internal/installer/compiler.go:971-981 | Putting an admitted path behind placeholders anywhere inside a canonical path keeps it canonical. |
| McpMerge.RebasedPortable | internal/installer/compiler.go:865-882 | A portable server is still portable after rebasing exactly when it has no such slash. |
| McpMerge.DoubledSlashRefused | internal/installer/compiler.go:961-967 | A command `.//x` is refused once moved, wherever it was accepted. |
| McpMerge.DoubledSlashPasses | internal/installer/compiler.go:1799-1809 | The command `.//run` is accepted where it stands. |
| McpMerge.MoveComponent | internal/installer/compiler.go:911-922 | Screening, moving and screening again succeeds exactly for components whose every declaration is movable. |
| McpMerge.MergeServers | internal/installer/compiler.go:894-924 | Merging succeeds exactly when no name is declared by two components, every declaration is acceptable, and none has a slash right after the prefix that makes its command or directory relative; it then holds every server, moved, and nothing else. |
| McpMerge.MergePermutes | internal/installer/compiler.go:894-924 | The merged configuration does not depend on the order of the components. |
| McpPaths.ValidExactly | internal/installer/compiler.go:1799-1809 | A path is accepted exactly if it begins with a dot and a slash, has no backslash, and its rest is not empty, is its own cleaning by a stack of names, and is neither a dot nor leads upwards. |
| McpPaths.UpwardRefused | internal/installer/compiler.go:1799-1809 | A path that begins by leading upwards is refused, as a path and as a command. |
| McpPaths.AcceptedExactly | internal/installer/compiler.go:865-882 | Which servers may be declared, spelt out for command, working directory and environment. |
| McpPaths.MergedInside | internal/installer/compiler.go:894-981 | Every merged server's program is a bare name or lies below the component that declares it, and its working directory lies below that or below the plugin's data unless it begins by two dots before a placeholder. |
| McpPaths.StraightExactly | internal/installer/compiler.go:865-875 | An accepted working directory lies inside for all clean roots and data directories if and only if its first segment is not two dots directly before a placeholder. |
| ShellQuote.ShellQuoteCommand | cmd/skills-hub/readiness.go:243-258 | The printed line is read back by the shell as exactly the given arguments. |
| ShellQuote.ReadQuoted | cmd/skills-hub/readiness.go:245-256 | One printed argument is read as that argument whatever follows. |
| ShellQuote.QuoteRoundTrip | cmd/skills-hub/readiness.go:243-258 | Token recognition and quote removal by sections 2.2 and 2.6.7 of POSIX.1-2017 XCU chapter 2 give back every argument list, with empty arguments and quotes. |
| CapabilityComposer.BuildContract | internal/agents/composition.go:42-56 | The loop over expectations gives the specified contract, soundness and reasons. |
| CapabilityComposer.ContractKeys | internal/agents/composition.go:44-56 | The contract holds one complete expectation for exactly the capabilities that have any. |
| CapabilityComposer.ContractSound | internal/agents/composition.go:44-56 | It counts as sound exactly when every expectation is complete and no capability is expected twice. |
| CapabilityComposer.TallyResults | internal/agents/composition.go:58-107 | One pass over the results in any order gives flags, coverage, time window and reasons with their order-free meaning. |
| CapabilityComposer.CollectMissing | internal/agents/composition.go:108-113 | Visiting the contract in any order, one reason for each required capability without a result. |
| CapabilityComposer.Compose | internal/agents/composition.go:40-130 | The outcome has the specified status precedence, sorted coverage, earliest times, sorted reasons and the results themselves. |
| CapabilityComposer.SuccessExactly | internal/agents/composition.go:115-126 | Success exactly when the contract is complete and free of repetition, every result is declared, valid and successful, none repeats, and no required capability is silent. |
| CapabilityComposer.VerdictsExactly | internal/agents/composition.go:115-126 | Each of the five verdicts on expectations and results alone, in their precedence: some valid result cancelled; contract or results confused; a required capability silent or not delivering; some result not delivering; none of these. |
| CapabilityComposer.KeptExactly | internal/agents/composition.go:44-56 | The contract holds an expectation exactly if it is the first complete one of its capability. |
| CapabilityComposer.ReasonsExactly | internal/agents/composition.go:44-114 | The reasons are sorted, and one reads a given text exactly if the expectations, a result by its place, a result by its content, or a silent required capability gives that text; the texts are spelled out. |
| CapabilityComposer.OrderFree | internal/agents/composition.go:36-130 | Status, coverage and time window are unchanged by permuting results and expectations. |
| CapabilityComposer.PlacingsCounted | internal/agents/composition.go:62-72 | How often each contract reason is given, as a number that depends on no order, for results that agree. |
| CapabilityComposer.ReasonsOrderFreeExactly | internal/agents/composition.go:61-128 | The reasons are the same in every order exactly when results repeating a declared capability all match or all fail to; in particular when none repeats. |
| CapabilityComposer.Deterministic | internal/agents/composition.go:108-128 | The outcome does not depend on the order in which the contract is visited. |
| CompositeEvidence.ReadDependencies | internal/readiness/composite.go:112-118 | Fails exactly when a tool is declared twice; otherwise indexes the declarations by tool. |
| CompositeEvidence.Observe | internal/readiness/composite.go:123-156 | Passes exactly the lists that repeat no tool and observe only declared ones with their authority and, when ready, their current evidence. |
| CompositeEvidence.WindowOf | internal/readiness/composite.go:185-194 | The running maximum and minimum are the latest observation and the earliest expiry. |
| CompositeEvidence.Validate | internal/readiness/composite.go:96-203 | Accepts exactly the records that meet the order-free meaning of acceptance. |
| CompositeEvidence.AcceptedExactly | internal/readiness/composite.go:106-202 | Acceptance field by field: installation, tools and authority, what is expected of the ready, result, coverage, times and fingerprint. |
| CompositeEvidence.FingerprintOf | internal/readiness/composite.go:207-225 | Of one observation the fingerprint covers its six fields with zero bytes between, if it is ready, and nothing otherwise. |
| CompositeEvidence.ObservedExactly | internal/readiness/composite.go:112-138 | Acceptance makes observations a bijection with the declared dependencies, with equal authority. |
| CompositeEvidence.ValidNow | internal/readiness/composite.go:180-198 | With a ready provider the record's window is exactly from latest observation to earliest expiry and contains the present; without one it is empty. |
| CompositeEvidence.AcceptedPermuted | internal/readiness/composite.go:127-202 | Acceptance is unchanged by permuting observations and declarations. |
| CompositeEvidence.FingerprintCommits | internal/readiness/composite.go:205-225 | For versions without line breaks, equal preimages mean exactly equal multisets of tools, versions, authority, targets and evidence. |
| CompositeEvidence.VersionLineBreaks | internal/readiness/composite.go:213-223 | A version with a line break makes one observation's preimage equal to that of any given two. |
| CompositeEvidence.FingerprintExactly | internal/readiness/composite.go:205-225 | With versions of any text, a preimage belongs to one multiset only exactly for the empty list and for a single observation whose version does not spell out a second. |
| EvidenceSelection.Select | internal/readiness/readiness.go:590-625 | The loop keeps the first of the applicable records that no applicable record displaces by observation time, start time, or failing where it passed. |
| EvidenceSelection.AppliesExactly | internal/readiness/readiness.go:638-689 | Which records apply to what is found, field by field: same target and environment, times in order and not from the future, and if passed the same installation, lock, runtime, credentials, provider, account, scopes and configuration. |
| EvidenceSelection.DeriveStatus | internal/readiness/readiness.go:538-635 | Usable, setup-required and deprecated are shown exactly when they should; evidence counts only after a passed inspection of a published installation whose identity is found; refusals name a cause that is there; with every gate passed the status is the judgement of the chosen record. |
| EvidenceSelection.DigestExactly | internal/readiness/readiness.go:1210-1216 | A digest is accepted exactly if it is 64 hexadecimal digits in either case. |
| EvidenceSelection.Doctor | internal/readiness/readiness.go:438-533 | The accumulated report is ready exactly when every check is met, and asks for setup exactly when authentication is required or chosen, missing, and in a state that setup repairs. |
| EvidenceSelection.DerivesUnique | internal/readiness/readiness.go:596-635 | The order in which the directory lists the records determines the status. |
| EvidenceSelection.UsableMeans | internal/readiness/readiness.go:626-635 | Usable now means a passed, current, eligible, unexpired record than which every applicable failed record is strictly earlier. |
| EvidenceSelection.OrderFreeExactly | internal/readiness/readiness.go:596-635 | The status is the same for every directory order exactly when the records nothing displaces are judged alike. |
| EvidenceSelection.TiesOnly | internal/readiness/readiness.go:620-624 | So order can matter only among passed records with the same two times. |
| EvidenceSelection.Persist | internal/readiness/readiness.go:707-718 | A record is observed no earlier than it started, a failed one expires no earlier than it was observed, and it is kept exactly if it can be stored. |
| EvidenceSelection.Smoke | internal/readiness/readiness.go:691-838 | The record, stored if its schema and the disk allow, passes exactly when every check before and after the test holds; its times are ordered, its expiry is at most ninety days and the authentication's, and it is promotable exactly if passed from a remote installation; a run leaves none only if its environment, contract or authentication cannot be read. |
| EvidenceSelection.PassedRunIsUsable | internal/readiness/readiness.go:538-635 | A passed run of a remote installation makes the status usable until the record expires, while the inspection passes, the same identity is found and authentication lasts as long, if nothing else that applies is as late. |
| EvidenceSelection.SteadyRunIsUsable | internal/readiness/readiness.go:538-838 | In particular while everything is as the run found it; the authentication's end then needs no condition. |
| EvidenceSelection.RunApplies | internal/readiness/readiness.go:683-689 | A passed run's record applies later exactly if all of these are as the run found them, artifact and executable up to case, scopes as sets, keys as maps. |
| EvidenceSelection.RestsOnAnother | internal/readiness/readiness.go:596-635 | If a record does not apply, a usable status rests on another that passed and does, and expires with it, at most ninety days after its start. |
| EvidenceSelection.KeysExactly | internal/readiness/readiness.go:1721-1731 | Where no key is blank, comparing credential keys is comparing maps. |
| EvidenceSelection.BlankKeysPass | internal/readiness/readiness.go:1721-1731 | With a blank key, unequal maps of one size count as the same. |
| EvidenceSelection.FailedRunBlocks | internal/readiness/readiness.go:538-635 | A failed run's record blocks that until a strictly later passed one, whatever credentials or files have changed. |
| SnapshotCache.NameOrder | internal/installer/remote.go:455-455 | Names padded to twenty digits are ordered as their times are. |
| SnapshotCache.NewestAgree | internal/installer/remote.go:463-480 | A store that lacks none of the log's newest five has the same newest five. |
| SnapshotCache.PruningExactly | internal/installer/remote.go:463-480 | Dropping all but the newest five changes what is loaded exactly when none of the five is valid but an older one is. |
| SnapshotCache.SnapshotStore.Prune | internal/installer/remote.go:463-480 | Exactly the snapshots beyond the newest five go, as far as removing works; other files stay. |
| SnapshotCache.SnapshotStore.Write | internal/installer/remote.go:433-461 | After any sequence of writes in any order of time, and whatever removals fail, the newest five of all ever written are there; and they are all that is there if no removal fails. |
| SnapshotCache.SnapshotStore.Load | internal/installer/remote.go:396-416 | Returns what an unpruned store would if one of its newest five is valid, and the last valid data written if the clock has always advanced. |
| SnapshotCache.NewestValidMeans | internal/installer/remote.go:402-415 | The loaded snapshot is valid and no later one is; nothing is loaded only if none is valid. |
| Reconciler.ReflectsMore | tools-mcp/adtech/conversion-event-reconciler/scripts/reconcile_events.py:40-53 | What absorbing one more event gives stands for the group with that event: first values kept, its source added, its contradictions of what is kept listed in order. |
| Reconciler.Collect | tools-mcp/adtech/conversion-event-reconciler/scripts/reconcile_events.py:16-53 | One canonical event for each key, in order of first occurrence, each standing for all events of its key; one warning for each event without identifier. |
| Reconciler.FirstMeans | tools-mcp/adtech/conversion-event-reconciler/scripts/reconcile_events.py:42-46 | The kept value of a field is the first that is not null, and is missing only if there is none. |
| Reconciler.ConflictsMean | tools-mcp/adtech/conversion-event-reconciler/scripts/reconcile_events.py:47-53 | A conflict is exactly a value received after the kept first one and different from it, with its source. |
| Reconciler.Conservation | tools-mcp/adtech/conversion-event-reconciler/scripts/reconcile_events.py:68-73 | Raw events are canonical events plus duplicates, for every input. |
| Reconciler.Tally | tools-mcp/adtech/conversion-event-reconciler/scripts/reconcile_events.py:55-68 | Each canonical event gets the last outcome known for its kept order, and the counts are of those outcomes. |
| Reconciler.Reconcile | tools-mcp/adtech/conversion-event-reconciler/scripts/reconcile_events.py:16-79 | The report's events, counts, outcomes and warnings, over the browser events and then the server events; which statuses count as verified or reversed; no outcome is counted twice. |
| Reconciler.CanonicalCountPermuted | tools-mcp/adtech/conversion-event-reconciler/scripts/reconcile_events.py:20-39 | Which canonical events there are does not depend on the order of the stream. |
| Reconciler.SameKeyExactly | tools-mcp/adtech/conversion-event-reconciler/scripts/reconcile_events.py:8-13 | Which two events are taken for the same when no name has a colon, in all four cases of having an identifier. |
| Reconciler.KeysCollide | tools-mcp/adtech/conversion-event-reconciler/scripts/reconcile_events.py:8-13 | Events of different names and identifiers that are taken for the same. |

## Left out

- HTTP, redirects, archives, real file contents, flag parsing and printing. The file system is slots and trees.
- SHA-256, signatures, JSON, YAML and JSON Schema: hashes are function parameters, and documents are taken as decoded and accepted by their schema.
- ClosureInstaller.Runtime.Install: locks are not taken in the class, since it is one process; several processes are `ClosureLocks.dfy`, without crashes.
- ClosureInstaller.Runtime.Recover: a marker that names a path twice would pass validation, but none is ever written (`Install`, `Transact` and `Recover` leave only markers without), and it is excluded. Directory syncs may fail but durability is not represented in the class; power cuts and flushes are in the step machine, of which every action of the class is a step.
- The scan that finishes interrupted closures under other roots (`recoverInterruptedClosureInstalls`), which calls the modelled recovery under the recorded locks.
- A member's stage that an error in copying it removes at once, before it is recorded: the model removes it with the others.
- PackageUpgrade.Package.Install: destination, stage, backup and marker share one directory, so what a crash leaves is taken to be a state that directory has been in since its last sync; the second admission check before a fresh activation counts as that activation failing; a marker whose paths lie elsewhere, which recovery refuses, is not modelled.
- AgentClosure.InstallSet: admission and copying are given for each package; the reuse of an already installed package counts as placing it, and digests of members are one set of bound members given to the verifier.
- DependencyGraph.ValidateLock: the checks of single components that precede the graph checks, and the bill of materials, are not modelled.
- McpMerge.MergeServers: documents are taken as decoded, and whether a network endpoint may be declared is given; all components are moved before the first is merged, so which of several errors is reported is not modelled.
- The plugin's own closure receipt (`VerifyInstallClosure`): its producer records every bundled member while the verifier expects only the included ones.
- CapabilityComposer.Compose: reasons are kept as values and rendered when they are sorted.
- CompositeEvidence.Validate: of the schema only the two states of an observation and the enumerations of requirement and access are kept.
- EvidenceSelection.DeriveStatus: how receipts, locks, executables and credentials are looked up is given as what is found at the inspection and after it; unreadable or invalid evidence files are taken as not listed.
- EvidenceSelection.Smoke: the identity written into a failed record is not modelled, since nothing reads it; which records the schema lets pass is given.
- SnapshotCache.SnapshotStore.Write: a write that fails before its rename, and snapshots that cannot be read, are not modelled.
- Reconciler.Collect: an identifier is text; field values are of one type with an equality.
- Credential patterns, header and URL screening, hook documents, lifecycle projections, search and listing, the web application and the release scripts: independent branches or field copies.
