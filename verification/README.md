# pgelastic, modelled and proved

pgelastic is a Kubernetes operator that packs PostgreSQL tenants onto shared instances. It grows and
shrinks pools of instances, moves tenants between them, takes backups, restores single tenants and
renders the configuration of a proxy fleet. What it promises lies in whole runs of its reconcile
passes: passes that die half way, writes that are applied and reported as failed, lists that lag, and
other controllers acting in between. This project models those components in Dafny and proves what
every run keeps.

Time is an integer clock. Kubernetes objects are maps by name. What the operator reads from the
outside (metrics, the packer's answer, what an agent replies, what a Secret holds, which call fails) is
an input, and the laws hold for every value of it. Code that changes things step by step is written as
classes and methods with loops, each proved against a specification; code that only computes is
written as functions; protocols with crashes and concurrent writers are step systems.

## The modules

- `Common`, `Sorting`: optional values, the creation-time-then-name order the operator breaks ties
  with, and sorting by a caller's order.
- `Migration`: the tenant migration's phase machine and what a record keeps over a run.
- `LiveData`, `LiveDataLaws`, `LiveDataLimits`: one tenant's copies, its routing and its committed
  writes, with a gate or without, under migrations that can die anywhere and whose effects can each
  fail while the rest go on and are published.
- `Fleet`, `FleetLaws`, `FleetLimits`, `Members`: the pool's members. Provisioning, cordoning,
  migration, reclaim and pool deletion as one step system, its laws, runs that show where they end, and
  the controller's own loops as steps of it.
- `Restore`, `RestoreController`: the destructive tenant restore against an API server with optimistic
  concurrency, and the pass as it is written, cleanups included.
- `Cron`, `Autoscale`, `Planner`, `PlanMeaning`, `PlanLaws`, `PlanLimits`: recurring windows, the
  guardrails, the planner, what a plan says, its arithmetic, and a plan that shrinks an overloaded pool.
- `History`, `PoolRun`, `PoolActs`, `PoolMoves`, `PoolLaws`, `PoolLimits`, `PoolVictims`,
  `PoolMachines`, `PoolController`: the published plan status, runs of autoscaling passes, what each step
  does, which migrations they start, their laws, the runs that show where the laws end, the machines
  behind the names, and the pass as it is written.
- `Backup`, `BackupRun`: the due slot, minting, the election, and the protocol between the instance
  controller, the agents and the backup controller.
- `Proxy`: the routing table and the login table.
- `Observation`: the member-observation cache.
- `Ledger`: the capacity ledger. `Probe`: the resource probe's segment.

## Main results

1. In every run of the fleet no step removes a machine a tenant's clients are sent to, and no step but
   the release of a deleted pool removes a machine a migration may still send its tenant back to
   (`FleetLaws.NoTenantIsStranded`, `FleetLaws.EverySourceIsKept`). A reclaim decided on stale lists is
   still safe unless a migration cut over onto the member meanwhile, and that proviso is exact
   (`FleetLaws.StaleReclaimIsSafe`, `FleetLaws.OnlyACutoverFillsIt`); and only what is marked, owned and
   cordoned is ever reclaimed (`FleetLaws.OnlyDrainedIsReclaimed`).
2. The destructive copy of a restore starts at most once over all interleavings of concurrent passes,
   stale reads, ambiguous writes and deaths; Completed is stored if and only if everything was done and
   undone in order; and a pass that nothing has failed can still store it
   (`Restore.CopyRunsAtMostOnce`, `Restore.CompletedMeansDone`, `Restore.EndingSaysWhatWasDone`,
   `Restore.CourseCompletes`).
3. Over every run of migrations of a tenant, gate or no gate, whatever dies or fails, the tenant is
   served with every committed write throughout if and only if no step is one of an exact list
   (`LiveData.RunKeepsWritesExactly`); and a stated discipline, which includes a gate, rules them all
   out (`LiveDataLaws.NoCommittedWriteIsLost`). A migration reaches its target only having seen, and
   published, the evidence of every phase in order (`Migration.CompletedSawEveryPhase`).
4. The published plan status is a fold of the published passes; scale-in acts only after an unbroken
   stretch of plans at least the dwell time long; scale-outs are spaced; the declared count stays in
   bounds through any crash; migrations in flight stay within the cap (`PoolLaws`). Passes start only
   planned migrations there is a permission for, the best first, and start one whenever there is one
   (`PoolMoves`).
5. A class of action is permitted if and only if an explicit list of conditions on the signals and the
   policy holds, and every refusal is for a reason that does (`Autoscale.PermissionMeans`,
   `Autoscale.RefusalIsTrue`). Scale-out under constant load converges, and a volume grows once and by
   enough (`PlanLaws`).
6. At most one backup runs per instance, elections do not depend on list order, and over any sequence
   of passes each slot is minted once and slots strictly increase (`BackupRun.AtMostOneRunning`,
   `Backup.ElectionIsOrderFree`, `Backup.EachSlotOnce`).
7. Every rendered login leads to exactly one route, rendered from the same tenant and to the instance
   that tenant is bound to, and the routed tenant is the provisioned one (`Proxy.TablesAgree`,
   `Proxy.ProvisionedIsRouted`).
8. Every round the observation cache returns is a poll made for the same instance and the same Pods,
   fresh enough (`Observation.Cache.ObserveMembers`).

## Where the code does less than it says

Each of these is a proved run, and beside it the exact condition, or the nearest one proved.

- A window whose schedule never fires counts as open (`Cron.NeverFiringIsOpen`). The documented answer
  is given if and only if the walk finds an activation, or one lies beyond its reach
  (`Cron.OpenExactly`). The next window reported forgets those listed before such a one (`Cron.NextWindowForgets`), and is
  the earliest if and only if none of them opens sooner (`Cron.NextIsEarliestExactly`).
- Releasing a deleted pool ignores retained rollback sources (`FleetLimits.ReleaseCanEndARollback`);
  sources survive the release if and only if none is a member the pool made
  (`FleetLaws.ReleaseKeepsSourcesExactly`).
- A migration admitted before a member was cordoned can cut over onto it behind the reclaim's back
  (`FleetLimits.CutoverDefeatsStaleReclaim`); on an empty cordoned member nothing else can
  (`FleetLaws.OnlyACutoverFillsIt`).
- A rollback whose routing write fails is recorded as rolled back with the tenant still on the target;
  it returns home if and only if that write goes through (`FleetLaws.RollbackReturnsHome`).
- A Completed record counts as settled inside its rollback window, so the same move asked for again
  clears it and its source can be reclaimed (`FleetLimits.ClearedRecordLosesItsSource`). Clearing ends a
  possible rollback if and only if the record is Completed with its window open, and leaves the source
  retained if and only if another record retains it (`FleetLaws.ClearEndsRollbackExactly`).
- A failed, aborted or rolled-back record pins its source member against reclaim while it exists
  (`FleetLaws.EndedRecordPinsItsSource`).
- Committed data is taken away by a flip that is applied and not published, by an abort after a death
  in a pool with no gate or once the gate's hold has run out, by a rollback whose restore fails before
  its discard, by a rollback that is applied and not published, and by overlapping moves
  (`LiveDataLimits`); over all states and effects, by exactly the reconciles of
  `LiveData.ReconcileServesExactly`.
- A restore pass that dies between hold-out and readmission leaves roles locked out
  (`Restore.DeadPassStrandsRoles`). Roles that are out can come back if and only if a cleared pass is
  still alive in that stretch (`Restore.StrandedExactly`).
- Provisioning counts from one list and names from another, and can make a member too many
  (`Members.SplitReadsPassWanted`), as it can when somebody else's instance comes and goes under a name
  the pool would give (`Members.SquattedNamePassesWanted`). With no such instance, and however old both
  lists are, it cannot as long as each pass finds room on the list it takes its names from
  (`Members.NeverPastWanted`); and where that list is current the pool goes past what the pass was told
  to make if and only if the list shows as many already (`Members.PassGoesPastExactly`).
- A scale-out whose pass dies before publishing leaves no time behind
  (`PoolLimits.LostPublishLosesSpacing`); the window holds a scale-out back if and only if a published
  one is inside it (`PoolLaws.SpacingRefusesExactly`).
- A refused migration that comes back can put the pool past its cap (`PoolLimits.ReopeningPassesTheCap`);
  coming back does so if and only if the pool is at its cap, and any other step that does is the
  emission of a pass during which one came back (`PoolLaws.PastTheCapExactly`).
- Scale-in can be proposed, permitted and selected in a pool whose measured members are over their
  target, while others are not up and publish nothing of a change in flight: a refused spec, or
  credentials that have not come (`PlanLimits.ShrinksWhileOverloaded`). Within its bounds it takes such a
  member (`PlanLaws.OverloadedShrinkNeedsASilentMember`); it is proposed exactly as
  `PlanLaws.ShrinksOverloadedExactly` says, and permitted, the other gates being open, if and only if no
  member says it is progressing and every tenant has the evidence (`PlanLaws.ShrinkPermittedExactly`).
- The dwell clock belongs to a name (`PoolMachines.RemadeKeepsTheClock`). It measures more than the
  machine that has the name now if and only if the one before was found empty and replaced with no plan
  published in between, and every plan since found this one empty
  (`PoolMachines.ClockSpansMachinesExactly`).
- A restarted agent that claims a backup before its new session is published has that live backup
  failed, and its own report then overwrites the failure (`BackupRun.LaggingReportFailsALiveBackup`); a
  live backup is failed exactly then (`BackupRun.LiveBackupFailedExactly`).
- Scale-in picks an empty member that somebody cordoned by hand, passes it over and lowers the count all
  the same, down to the recommendation, with nobody marked for reclaim
  (`PoolVictims.CordonedVictimSparesEverybody`). Over every run, a scale-in that lowers the count leaves
  its victim marked if and only if it was not cordoned and unmarked when the pass looked
  (`PoolLaws.RetiresMarkedExactly`).
- A login can answer for its owner, and one name and tenant for two passwords
  (`Proxy.TableWithSharedNames`). A login takes its owner's name if and only if the owner has no password
  (`Proxy.LoginTakesOwnerNameExactly`), and a name and tenant stand for one entry if and only if no two
  logins collide (`Proxy.IdentitiesUniqueExactly`). Contained logins are rendered for resolved tenants
  only (`Proxy.ContainedUsers`).
- The probe's segment is documented as half open and includes its end (`Probe.EndIncluded`); the two are
  the same if and only if no sample stands there (`Probe.EndIncludedExactly`).

## Model

| member | source | states |
|---|---|---|
| `Common.EarlierIsStrictTotalOrder` | internal/controller/pgtenant_controller.go:530-539 | creation time, then name, is a strict total order on distinct names |
| `Migration.Index` | internal/migration/phase.go:95-130 | a phase's place in its strategy's order, and -1 exactly when it has none |
| `Migration.OrderDecides` | internal/migration/phase.go:143-151 | clients are queued exactly from Quiescing to before the end of the order, and the next phase is the next in order |
| `Migration.ServingLaw` | internal/migration/phase.go:238-299 | clients are sent to the target if and only if the published phase is Completed |
| `Migration.AdvanceLaw` | internal/migration/phase.go:238-299 | a phase is left forwards exactly when its own evidence was seen, nobody asked to stop, nothing is wrong and no deadline that counts there has passed; and then one place at a time |
| `Migration.DepartureLaw` | internal/migration/phase.go:250-296 | an abort exactly when asked for; a failure exactly when the fault budget is spent or, with no fault, a deadline passed; a fault within budget holds the phase; and which reason is given |
| `Migration.EndingLaw` | internal/migration/phase.go:301-347 | the target copy is discarded exactly on endings that serve the source, the source is dropped exactly behind a closed window, a rollback is taken exactly on request before it, and what is settled |
| `Migration.ReleaseLaw` | internal/migration/phase.go:238-347 | no ending keeps clients queued; exactly when they are let go and when the migration is cleaned up after |
| `Migration.RecordKeeps` | internal/controller/pgtenantmigration_controller.go:299-393 | every recorded reconcile keeps the status sound; a dropped source stays dropped; an ending is left only by a rollback inside its window |
| `Migration.DroppedIsFinal` | internal/controller/pgtenantmigration_controller.go:299-393 | over any run, once the source is dropped the record never changes |
| `Migration.CompletedTookEveryPhase` | internal/migration/phase.go:95-130 | a run reaches Completed only through every phase of its strategy in order |
| `Migration.CompletedSawEveryPhase` | internal/migration/phase.go:238-367 | a run reaches Completed only with, for each phase of its strategy in order, a published reconcile that saw that phase's own evidence |
| `Migration.UnfinishedCanComplete` | internal/migration/phase.go:238-297 | from every unfinished status a run can come to, some run completes |
| `LiveData.EffectStands` | internal/migration/engine.go:202-367 | a phase's own effect moves the tenant exactly when the cutover's routing write went through, and takes no row from any copy |
| `LiveData.CutoverCompletes` | internal/migration/engine.go:314-367 | a verified cutover is decided Completed and served from the target |
| `LiveData.PerformExactly` | internal/migration/engine.go:383-461 | with each effect failing or not on its own, when applying a decision leaves the tenant served, and when with every committed write |
| `LiveData.ReconcileServesExactly` | internal/migration/engine.go:383-479 | from every served state, a reconcile leaves the tenant served, and served with every committed write, if and only if it discards, drops or misroutes nothing it stands on and ends on no copy that is behind |
| `LiveData.ForgetsTwoWays` | internal/migration/engine.go:446-461 | a tenant that has lost nothing falls behind exactly by a cutover to a target that is behind, or a restore, not a rollback, to a source that is |
| `LiveData.RunKeepsWritesExactly` | internal/migration/engine.go:120-160 | over every run the tenant keeps every committed write throughout if and only if no step is one of those |
| `LiveDataLaws.EffectKeeps` | internal/migration/engine.go:289-367 | behind a closed gate a phase's effect, complete or half done, keeps every committed write |
| `LiveDataLaws.PerformKeepsData` | internal/migration/engine.go:383-428 | applying a decision about an unfinished move keeps every committed write unless it discards the copy the tenant is on |
| `LiveDataLaws.StepKeeps` | internal/controller/pgtenantmigration_controller.go:155-170 | every disciplined step keeps the invariant, whichever of its effects fail |
| `LiveDataLaws.NoCommittedWriteIsLost` | internal/controller/pgtenantmigration_controller.go:155-170 | over every disciplined run, whatever dies or fails, no committed write is lost at any point |
| `LiveDataLaws.ReconcileChanges` | internal/migration/engine.go:202-479 | what a reconcile does to the gate and to each copy: exactly when clients are queued, a copy is there, and it is fenced afterwards |
| `LiveDataLaws.ShutOutWritesNothing` | internal/migration/engine.go:289-367 | over any run, nobody writes past a fence or past a gate that holds |
| `LiveDataLimits.UnpublishedFlipLosesWrites` | internal/migration/engine.go:446-461 | a run in which an applied, unpublished flip is undone and loses a committed write |
| `LiveDataLimits.GatelessAbortLosesWrites` | internal/migration/router.go:133-159 | a run in a pool with no gate in which a pass dies after the flip and an abort loses a committed write |
| `LiveDataLimits.ExpiredHoldLosesWrites` | internal/proxy/router.go:262-275 | a run in a pool with a gate in which a pass dies after the flip, the hold runs out, and an abort loses a committed write |
| `LiveDataLimits.FailedRestoreDropsLiveCopy` | internal/migration/engine.go:417-449 | a run in which a rollback's restore fails, its discard goes through, and RolledBack is published with no database where the tenant is |
| `LiveDataLimits.UnpublishedRollbackDropsLiveCopy` | internal/migration/engine.go:417-427 | a run in which an applied, unpublished rollback ends with the live copy dropped |
| `LiveDataLimits.OverlappingMovesDropLiveCopy` | internal/migration/online.go:422-424 | a run in which an earlier move's window closes by dropping the database the tenant came back to |
| `Fleet.ReconcileShape` | internal/controller/pgtenantmigration_controller.go:174-282 | all a migration reconcile can change: its record, with the source read off the binding once, and its tenant's binding |
| `Fleet.ReconcileKeeps` | internal/controller/pgtenantmigration_controller.go:174-393 | a migration reconcile keeps every tenant's and every source's machine |
| `FleetLaws.StepKeeps` | internal/controller/pgelasticpool_reclaim.go:100-165 | every step keeps tenants' machines and covers pool-made members by the finalizer; every step but a release keeps sources |
| `FleetLaws.NoTenantIsStranded` | internal/controller/pgelasticpool_reclaim.go:46-165 | in every run, every binding names a machine that is still that machine |
| `FleetLaws.EverySourceIsKept` | internal/controller/pgelasticpool_reclaim.go:69-98 | in every run without a release, every undropped source is still the machine it was |
| `FleetLaws.RollbackReturnsHome` | internal/migration/engine.go:446-461 | a rollback still possible puts the tenant back on the very machine it came from exactly when its routing write goes through, and is recorded either way |
| `FleetLaws.RecordsExactly` | internal/controller/pgtenantmigration_controller.go:299-393 | a reconcile changes its own record and no other, exactly when it publishes, to what it decided with the source it resolved |
| `FleetLaws.RoutesExactly` | internal/migration/engine.go:446-461 | a reconcile routes its own tenant and no other: nowhere new if somebody else placed it, else home, the target, or where it was, and exactly when which |
| `FleetLaws.ReleaseKeepsSourcesExactly` | internal/controller/pgelasticpool_deletion.go:75-105 | a release keeps every source if and only if none is a member the pool made |
| `FleetLaws.ReleaseTakesExactly` | internal/controller/pgelasticpool_deletion.go:75-105 | letting a deleted pool go ends it and takes exactly the machines it owns |
| `FleetLaws.DeletingMakesNothing` | internal/controller/pgelasticpool_deletion.go:75-105 | in every run from a pool being deleted no member is made for it and its hold does not come back |
| `FleetLimits.ReleaseCanEndARollback` | internal/controller/pgelasticpool_deletion.go:75-105 | a run from an empty namespace after which the release is allowed and ends a rollback that was possible |
| `FleetLaws.StaleReclaimIsSafe` | internal/controller/pgelasticpool_reclaim.go:100-165 | a delete accepted on the version that was read finds the member empty, whatever ran in between, unless a migration cut over onto it |
| `FleetLaws.OnlyACutoverFillsIt` | internal/controller/pgelasticpool_reclaim.go:100-165 | on an empty cordoned member a step places a tenant if and only if it is such a cutover |
| `FleetLaws.OnlyDrainedIsReclaimed` | internal/controller/pgelasticpool_reclaim.go:100-165 | in every run, a step other than the pool's deletion that takes a machine away takes one marked, owned and cordoned at that moment, with nobody bound to it and no migration keeping it |
| `FleetLimits.CutoverDefeatsStaleReclaim` | internal/controller/pgelasticpool_reclaim.go:100-165 | a run from an empty namespace to a member that is reclaimable when read, and a cutover onto it after which it is at the same version and holds a tenant |
| `FleetLaws.ClearEndsRollbackExactly` | internal/controller/pgelasticpool_controller.go:1167-1218 | clearing a settled record ends a possible rollback iff it is Completed with its window open, and leaves its source retained iff another record retains it |
| `FleetLimits.ClearedRecordLosesItsSource` | internal/controller/pgelasticpool_controller.go:1167-1218 | a run from an empty namespace to a clear after which the source of an open rollback is reclaimed |
| `FleetLaws.EndedRecordPinsItsSource` | internal/controller/pgelasticpool_reclaim.go:69-98 | while a record that ended on its source exists, that member is never reclaimable |
| `Members.FreeMemberName` | internal/controller/pgelasticpool_members.go:120-127 | terminates with the lowest unused ordinal for any finite taken set |
| `Members.SameViewSameName` | internal/controller/pgelasticpool_members.go:120-127 | two passes that read the same names choose the same name |
| `Members.Controller.TenantsBoundTo` | internal/controller/pgelasticpool_reclaim.go:46-60 | counts exactly the tenants bound to the instance; zero exactly when none is |
| `Members.Controller.RetainedSourceOn` | internal/controller/pgelasticpool_reclaim.go:69-98 | true exactly when some record names it as a source not yet dropped |
| `Members.Controller.ReclaimDrainedMembers` | internal/controller/pgelasticpool_reclaim.go:100-165 | reclaims exactly when something in view was seen marked, owned and cordoned, is bound and kept by nobody and is unchanged since; the first such, as one reclaim step; whatever is gone was such a one |
| `Members.ReclaimableExactly` | internal/controller/pgelasticpool_reclaim.go:100-165 | the delete's guard, on the fields of what was seen and of what the lists say |
| `Members.Controller.ProvisionMembers` | internal/controller/pgelasticpool_members.go:50-106 | makes one member, of the lowest free name, exactly when the spec is settled and fewer than wanted are seen; a taken name is refused |
| `Members.Controller.Converge` | internal/controller/pgelasticpool_controller.go:147-186 | holds the finalizer first, then is one provision or one reclaim step or nothing |
| `Members.Controller.OccupiedMembersOf` | internal/controller/pgelasticpool_deletion.go:120-145 | exactly the pool-made members holding tenants, with their counts, in name order |
| `Members.Controller.FinalizePool` | internal/controller/pgelasticpool_deletion.go:75-105 | releases exactly when the finalizer is there and no pool-made member holds a tenant |
| `Members.NeverPastWanted` | internal/controller/pgelasticpool_members.go:50-106 | over every run, passes that count in one earlier state and name from another, however old, never provision past what they declare bounded by the class, as long as each finds room on the list of names |
| `Members.PassGoesPastExactly` | internal/controller/pgelasticpool_members.go:50-106 | with a current list of names, and whatever the count said, a pass goes past what it was told to make if and only if that list shows as many already |
| `Members.SplitReadsPassWanted` | internal/controller/pgelasticpool_members.go:65-95 | a run with three members of two wanted, from a count that lags behind the names |
| `Members.SquattedNamePassesWanted` | internal/controller/pgelasticpool_members.go:82-95 | a run with three members of two wanted, after somebody else's instance came and went under a name the pool would give |
| `Restore.WorkKeepsPass` | internal/controller/pgrestore_tenant.go:191-341 | every statement of a pass keeps what the pass may believe about the live tenant |
| `Restore.WriteKeepsHistory` | internal/controller/pgrestore_controller.go:135-145 | a status write is accepted only on the newest version and keeps markers and endings |
| `Restore.StoresExactly` | internal/controller/pgrestore_controller.go:135-145 | a version is stored exactly on a touch or an applied write on the newest version, and a pass is cleared exactly when it hears its marker was stored |
| `Restore.StepKeeps` | internal/controller/pgrestore_controller.go:151-184 | every step of every interleaving keeps the invariant |
| `Restore.CopyRunsAtMostOnce` | internal/controller/pgrestore_tenant.go:258-341 | over all runs the copy starts at most once and never before the marker is durable |
| `Restore.CompletedMeansDone` | internal/controller/pgrestore_tenant.go:112-146 | Completed means the copy loaded, every role was readmitted and then the reads were revoked, and none of it is undone |
| `Restore.EndingSaysWhatWasDone` | internal/controller/pgrestore_tenant.go:112-146 | in every reachable world a version whose pass did all five effects in order says Completed, and one whose cleared pass did anything else says Failed, and a failure before the clearance is no ending |
| `Restore.CourseCompletes` | internal/controller/pgrestore_tenant.go:258-341 | from any reachable world, a cleared pass that nothing has failed and nobody has overtaken can still store Completed |
| `Restore.RestoreCanComplete` | internal/controller/pgrestore_controller.go:83-184 | for any roles, a run from the object as created to a stored Completed version |
| `Restore.EndingsAndMarkersStay` | internal/controller/pgrestore_controller.go:151-184 | a marker is never cleared and an ending never left |
| `Restore.ReadmissionExact` | internal/migration/roles.go:362-388 | a readmission leaves nobody out if and only if it went through or got through everybody |
| `Restore.ReadsStandExactly` | internal/controller/pgrestore_tenant.go:238-275 | the replication reads are on the tenant exactly from a copy, finished or not, to the next revocation that goes through |
| `Restore.DeadPassStrandsRoles` | internal/controller/pgrestore_tenant.go:300-330 | a run that ends Failed with a role still locked out and no copy made |
| `Restore.StrandedForGood` | internal/controller/pgrestore_controller.go:151-184 | with the clearance on record and no pass left to readmit, the same roles stay out in every continuation |
| `Restore.OwingCanReadmit` | internal/controller/pgrestore_tenant.go:303-330 | while a cleared pass is between hold-out and readmission, some continuation lets everybody back in |
| `Restore.StrandedExactly` | internal/controller/pgrestore_tenant.go:303-330 | in every reachable world, roles that are out can come back if and only if such a pass is alive |
| `RestoreController.Reconciler.HoldAndCopy` | internal/controller/pgrestore_tenant.go:324-341 | hold, copy and discard are a run of steps; it fails exactly when the hold or the copy did, and keeps the roles it read |
| `RestoreController.Reconciler.ClearAndCopy` | internal/controller/pgrestore_tenant.go:275-341 | enumerate, mark, copy, readmit; cleared exactly when the enumeration and the write went through on the newest version, and no failure exactly when it was cleared and hold, copy and readmission went through |
| `RestoreController.Reconciler.ReplaceTenant` | internal/controller/pgrestore_tenant.go:191-341 | the whole replacement with its deferred cleanups is a run of steps; no failure exactly when it was cleared and every call after that went through |
| `RestoreController.Reconciler.TenantRestore` | internal/controller/pgrestore_tenant.go:64-147 | Completed exactly when it was cleared and everything succeeded; past the marker it always ends; what an instance not ready, a refusal and an error each leave |
| `RestoreController.Reconciler.Reconcile` | internal/controller/pgrestore_controller.go:83-184 | a pass is a run of steps; it comes to Completed exactly when it read no marker and no ending on the newest version and every call went through, to Failed exactly when it read a marker or was cleared and a later call failed; an ending is left alone |
| `Cron.OpenExactly` | internal/autoscale/schedule.go:56-75 | for every duration, open means activated in (now-duration, now] if and only if the walk finds an activation or one lies beyond its reach |
| `Cron.NeverFiringIsOpen` | internal/autoscale/schedule.go:56-75 | a schedule that never fires holds its window open |
| `Cron.WindowOpen` | internal/autoscale/schedule.go:43-54 | the first window that is open or invalid decides; closed exactly when all are closed |
| `Cron.AnyOpenExactly` | internal/autoscale/schedule.go:43-75 | a list is closed exactly when every window is shut, invalid exactly when one is malformed and those before it shut, open exactly otherwise, on the windows' own fields |
| `Cron.NextWindow` | internal/autoscale/schedule.go:79-98 | the earliest activation among the windows after the last never-firing one, and of all when every window fires |
| `Cron.NextIsEarliestExactly` | internal/autoscale/schedule.go:79-98 | what is reported is the earliest of all iff no window before the last never-firing one opens sooner |
| `Cron.NextWindowForgets` | internal/autoscale/schedule.go:79-98 | a window that opens in a minute, and nothing is reported |
| `Autoscale.ServingInstances` | internal/autoscale/plan.go:145-154 | counts everything but what is up and out of service |
| `Autoscale.ReadyInstances` | internal/autoscale/plan.go:159-167 | counts the members that are up; all exactly when each is |
| `Autoscale.EvacuationDropsOnlyHeat` | internal/autoscale/guardrails.go:313-343 | the evacuation rule is the move rule without heat and with every other refusal |
| `Autoscale.MoveEligibleExactly` | internal/autoscale/guardrails.go:323-343 | a tenant may be moved if and only if its class allows it, it is cold or heat does not matter, its source is not above the limit and nothing is leaving it; and a refusal is for one of those |
| `Autoscale.PermissionMeans` | internal/autoscale/guardrails.go:90-296 | a class is permitted if and only if a list of conditions on the signals and the policy holds: pause, rollout, metrics and their age, blackouts, mode, and what the class itself asks |
| `Autoscale.EvacuationMeans` | internal/autoscale/guardrails.go:229-272 | an evacuation is permitted if and only if the pool runs, every blackout is shut and the migration budget has room |
| `Autoscale.MalformedBlackoutStopsAll` | internal/autoscale/guardrails.go:124-136 | a blackout that cannot be read permits no class and no evacuation |
| `Autoscale.RefusalIsTrue` | internal/autoscale/guardrails.go:90-296 | no refusal is reported for a reason that does not hold |
| `Autoscale.ScaleOutMeans` | internal/autoscale/guardrails.go:176-207 | a permitted scale-out has every declared member present, all Ready, room for one, and a window since the last |
| `Autoscale.ScaleInMeans` | internal/autoscale/guardrails.go:273-296 | a permitted scale-in has its own target's dwell elapsed, the evidence, and members above the minimum |
| `Planner.InstanceTargets` | internal/autoscale/plan.go:443-465 | one row per member, in name order, consolidatable exactly when the repack left it empty |
| `Planner.ConsolidationTarget` | internal/autoscale/plan.go:501-511 | the first empty row in name order, none at or below the minimum |
| `Planner.Moves` | internal/autoscale/plan.go:513-539 | one move per packed assignment, judged with its tenant's and source's own signals |
| `Planner.EligibleMoves` | internal/autoscale/plan.go:298-316 | exactly the unblocked moves, best improvement first, then by tenant, ties in planned order |
| `Planner.EvacuationMoves` | internal/autoscale/plan.go:682-717 | the planned moves the evacuation rule admits, exactly those, in planned order |
| `Planner.SignalsFor` | internal/autoscale/plan.go:699-717 | the first tenant and instance of the names the move gives |
| `Planner.ImbalancePercent` | internal/autoscale/plan.go:622-642 | the greatest difference between two rows' packed percentages |
| `Planner.Actions` | internal/autoscale/plan.go:554-618 | one entry for exactly the classes with work, in order, each with the guardrails' verdict |
| `Planner.RecommendPlan` | internal/autoscale/plan.go:320-372 | the plan relation: sums, recommendation, targets, victim, moves and actions belong together |
| `PlanMeaning.PlanMeans` | internal/autoscale/plan.go:320-372 | the plan's counts are numbers of members up and in service, utilization the whole percentage in use, stale and evacuation on the signals and the policy |
| `PlanMeaning.OneMemberMore` | internal/autoscale/plan.go:329-340 | one member more adds its own connections to the sums if it is up and schedulable, and nothing otherwise |
| `PlanMeaning.RowsMean` | internal/autoscale/plan.go:443-465 | each row says what the packing put on its instance, and is consolidatable exactly when that is no tenant |
| `PlanMeaning.StorageExactly` | internal/autoscale/plan.go:470-496 | a volume is grown to a size if and only if that is the size asked for, more than it has, and its usage is known and calls for it |
| `PlanMeaning.MovesMean` | internal/autoscale/plan.go:513-549 | each move is the packing's, worth its tenant's share of the source, and unblocked if and only if its tenant may be moved |
| `Planner.Selected` | internal/autoscale/plan.go:276-294 | the earliest permitted proposal in order, none exactly when nothing is permitted |
| `Planner.CeilDiv` | internal/autoscale/plan.go:404-406 | the least multiple count that covers the dividend |
| `Planner.Clamp` | internal/autoscale/plan.go:669-674 | within bounds, the value itself when it is already |
| `PlanLaws.GrowsOnce` | internal/autoscale/plan.go:470-490 | a storage recommendation is above the allocation, within the cap, and not repeated at the new size |
| `PlanLaws.GrowsEnough` | internal/autoscale/plan.go:470-496 | unless capped it brings the used percentage to at most the target, through both roundings |
| `PlanLaws.GrowsWhenFull` | internal/autoscale/plan.go:470-496 | a volume past both thresholds grows whenever the cap lets it |
| `PlanLaws.RecommendsFewest` | internal/autoscale/plan.go:380-407 | outside the dead band the fewest members in bounds that carry the measured load at the target; inside it the serving count clamped; unmeasured, never fewer |
| `PlanLaws.ShrinksOnlyWhenIdle` | internal/autoscale/plan.go:596-606 | scale-in is proposed only of an emptied instance in a measured pool; with every serving member measured, only past the maximum or below the band with a load the rest carry |
| `PlanLaws.ShrinksOverloadedExactly` | internal/autoscale/plan.go:596-606 | above the band scale-in is proposed if and only if some instance is empty and the load needs fewer than serve; with all measured, if and only if the bounds are passed |
| `PlanLimits.ShrinksWhileOverloaded` | internal/autoscale/plan.go:596-606 | assembled signals with a metered tenant, and a whole plan of an overloaded pool that proposes a scale-in, permits it through every guardrail and selects it |
| `PlanLaws.ShrinkPermittedExactly` | internal/autoscale/guardrails.go:90-111 | the other gates open, scale-in is permitted iff no member is progressing and every tenant has the whole evidence window |
| `PlanLaws.OverloadedShrinkNeedsASilentMember` | internal/controller/pgelasticpool_controller.go:1245-1252 | above the band and within bounds, a permitted scale-in has a member that is neither up nor progressing |
| `Autoscale.SignalsOf` | internal/controller/pgelasticpool_controller.go:513-560 | a rollout is in progress iff some member is progressing, and the evidence is the tenants' own |
| `PlanLaws.PlanGrowsExactly` | internal/autoscale/plan.go:574-585 | the plan of a pool of equal members proposes scale-out exactly when the walk goes on |
| `PlanLaws.GrowsOnlyTowardsNeed` | internal/autoscale/plan.go:380-407 | the pool asks for a member only below the minimum or below what the load needs |
| `PlanLaws.WalkConverges` | internal/autoscale/plan.go:380-407 | the walk ends, never passes the largest of the start, the minimum and the need, and stops only at the maximum or with utilization at most target plus tolerance |
| `History.ConsolidatableSince` | internal/controller/pgelasticpool_status.go:331-344 | the previous plan's clock for the name, else now |
| `History.ExecutedAt` | internal/controller/pgelasticpool_status.go:346-359 | the time the previous plan has for the class |
| `History.HistorySignals` | internal/controller/pgelasticpool_controller.go:626-654 | recovers exactly the two times and the clocks of the last plan |
| `History.PlanStatusOf` | internal/controller/pgelasticpool_status.go:229-324 | a row per target; one entry, in order, for every class proposed or ever run |
| `History.EntryMeans` | internal/controller/pgelasticpool_status.go:279-324 | the one entry of a proposed class: permitted exactly when allowed and not tried and failed, with the time it ran now or the one it had |
| `History.StampCarried` | internal/controller/pgelasticpool_status.go:279-324 | a class's time is this pass's when it ran and the one before otherwise, proposed or not |
| `History.ClockCarried` | internal/controller/pgelasticpool_status.go:248-265 | a clock runs on, starts, or is gone, as this plan and the last one found the instance |
| `PoolRun.EmitAddsAtMostOne` | internal/controller/pgelasticpool_controller.go:959-1006 | an emission adds at most one migration, the first asked for whose name is free; keeps all in flight or refused; clears only settled ones it was asked for; reports emitted exactly when it made or cleared one |
| `PoolRun.EmitExactly` | internal/controller/pgelasticpool_controller.go:959-1006 | all an emission does: the settled records before the first free name are cleared, that one is created in flight, and every other record is as it was |
| `PoolMoves.DrainStartsOnlyDrained` | internal/controller/pgelasticpool_controller.go:871-934 | what a drain starts is a planned move off a draining instance, permitted, of a tenant that may be moved |
| `PoolMoves.DrainStarts` | internal/controller/pgelasticpool_controller.go:871-934 | and it starts one whenever there is such a move whose name is free |
| `PoolMoves.ActionStartsTheBest` | internal/controller/pgelasticpool_controller.go:666-1006 | what an action starts is an unblocked planned move, off the victim in a scale-in, and every better one has a record already |
| `PoolMoves.ActionStarts` | internal/controller/pgelasticpool_controller.go:666-1006 | and it starts one whenever there is such a move whose name is free and no drain started one before |
| `PoolMoves.OnlyPassesStart` | internal/controller/pgelasticpool_controller.go:959-1006 | nothing else puts a migration in flight but a refused one that comes back |
| `PoolActs.MovingMeans` | internal/controller/pgelasticpool_controller.go:666-1006 | an action that moves tenants ends the pass exactly when a call failed before a migration was made; otherwise it applied exactly when the records changed |
| `PoolActs.RetiringMeans` | internal/controller/pgelasticpool_controller.go:819-854 | exactly when the victim is cordoned and marked, the count lowered by one, and the pass ended by a patch that fails |
| `PoolActs.GrowingMeans` | internal/controller/pgelasticpool_controller.go:718-790 | one more member is declared exactly when more are recommended than serve; a volume grows without one |
| `PoolActs.PutOffMeans` | internal/controller/pgelasticpool_controller.go:666-716 | behind a drain that emitted, an action that would move tenants is put off and reported failed |
| `PoolActs.DrainingMeans` | internal/controller/pgelasticpool_controller.go:871-934 | a drain ends the pass exactly when a call failed before a migration was made, and changes nothing but the records |
| `PoolActs.PublishingMeans` | internal/controller/pgelasticpool_controller.go:1012-1062 | what a publish leaves: status, log, clock, and the pass's own run marked published |
| `PoolRun.PlanKeepsPromises` | internal/autoscale/guardrails.go:176-296 | what any plan in hand promises about growing, shrinking and the migration cap |
| `PoolLaws.PublishReflects` | internal/controller/pgelasticpool_status.go:229-324 | publishing keeps the status equal to the fold of the log |
| `PoolLaws.StepKeepsHistory` | internal/controller/pgelasticpool_controller.go:139-217 | every step of a pass, and every death, keeps the history invariant |
| `PoolLaws.HistoryIsAFold` | internal/controller/pgelasticpool_status.go:279-324 | in every reachable state each class's time is when it last ran in a published pass, one entry per class in order |
| `PoolLaws.ScaleOutsAreSpaced` | internal/autoscale/guardrails.go:202-205 | two scale-outs are a window apart when the first one's pass published |
| `PoolLaws.OnsetMeans` | internal/controller/pgelasticpool_status.go:331-344 | a clock's time is the start of the unbroken stretch of plans that found the instance empty |
| `PoolLaws.DwellIsUnbroken` | internal/autoscale/guardrails.go:273-296 | scale-in acts only after plans over at least the dwell time all found that instance empty |
| `PoolLaws.CountStaysInBounds` | internal/controller/pgelasticpool_controller.go:766-854 | the declared count stays within bounds and each scale-out found every declared member present and Ready, through any crash |
| `PoolLaws.ConcurrencyIsCapped` | internal/controller/pgelasticpool_controller.go:593-620 | a pass makes at most one migration; in flight exceeds the cap by at most the refused ones that came back |
| `PoolLaws.RetiresMarkedExactly` | internal/controller/pgelasticpool_controller.go:819-854 | over every run, a scale-in that lowers the count leaves its victim marked iff it was not cordoned and unmarked when the pass looked |
| `PoolVictims.CordonedVictimSparesEverybody` | internal/controller/pgelasticpool_controller.go:819-854 | a run that lowers the count to the recommendation with nobody marked, its victim cordoned by hand |
| `PoolLaws.PastTheCapExactly` | internal/controller/pgelasticpool_controller.go:593-620 | coming back passes the cap exactly at it; any other step that does is the emission of a pass during which one came back |
| `PoolLaws.SpacingRefusesExactly` | internal/autoscale/guardrails.go:202-205 | a scale-out the other guardrails allow is held back if and only if a published one is less than a window old |
| `PoolMachines.RemadeKeepsTheClock` | internal/controller/pgelasticpool_status.go:331-344 | from any reachable state, a member lost and made again between passes has the clock of the one before |
| `PoolMachines.ClockSpansMachinesExactly` | internal/controller/pgelasticpool_status.go:331-344 | in every reachable state, when a clock measures more than the machine that has the name now |
| `PoolLimits.LostPublishLosesSpacing` | internal/controller/pgelasticpool_controller.go:139-217 | a run with two scale-outs a second apart after a lost publish |
| `PoolLimits.ReopeningPassesTheCap` | internal/controller/pgelasticpool_controller.go:1220-1235 | a run with two in flight against a cap of one after a refused migration came back |
| `PoolController.Controller.MigrationSignals` | internal/controller/pgelasticpool_controller.go:593-620 | counts exactly the migrations in flight |
| `PoolController.Controller.ClearSettledMigration` | internal/controller/pgelasticpool_controller.go:1167-1198 | clears the record exactly when it is there and settled |
| `PoolController.Controller.EmitMigrations` | internal/controller/pgelasticpool_controller.go:959-1006 | the emission of the specification, failing exactly when the failing call is reached first |
| `PoolController.Controller.EvacuateDraining` | internal/controller/pgelasticpool_controller.go:871-934 | one evacuation step over exactly the drain's moves |
| `PoolController.Controller.ScaleOutCount` | internal/controller/pgelasticpool_controller.go:766-790 | one more declared exactly when more serving members are recommended |
| `PoolController.Controller.RetireVictim` | internal/controller/pgelasticpool_controller.go:824-854 | the retirement of the specification: a victim seen cordoned is passed over, any other is cordoned and marked, the count follows unless low enough, and either patch may fail |
| `PoolController.Controller.ExecuteSelected` | internal/controller/pgelasticpool_controller.go:666-716 | one execution step of the selected action |
| `PoolController.Controller.PublishPlan` | internal/controller/pgelasticpool_controller.go:1012-1062 | one publish step, keeping the status well formed |
| `PoolController.Controller.Reconcile` | internal/controller/pgelasticpool_controller.go:139-217 | a whole pass, whichever call fails, is a run of steps that looked once |
| `Backup.DueSlot` | internal/controller/pginstance_backup.go:219-231 | terminates with exactly the greatest firing in (now-grace, now], none exactly when there is none |
| `Backup.MintScheduledBackup` | internal/controller/pginstance_backup.go:154-203 | mints the due slot or nothing; the due slot is there afterwards unless the create failed; says exactly how long until the next |
| `Backup.DueNeverGoesBack` | internal/controller/pginstance_backup.go:219-231 | a slot due later is no earlier |
| `Backup.EachSlotOnce` | internal/controller/pginstance_backup.go:154-203 | over any sequence of passes from nothing, each slot is minted once, when due, and slots strictly increase |
| `Backup.MintExtendsRun` | internal/controller/pginstance_backup.go:154-203 | one more pass at a later time extends such a run |
| `Backup.OldestPending` | internal/controller/pginstance_backup.go:253-274 | the first running backup, else the least waiting one by creation time and name, none exactly when there is neither |
| `Backup.ElectionIsOrderFree` | internal/controller/pginstance_backup.go:253-281 | with one running at most, every permutation elects the same backup |
| `Backup.TwoRunningSplitTheElection` | internal/controller/pginstance_backup.go:253-263 | with two running, some permutation elects a different one |
| `Backup.LastBackupSummary` | internal/controller/pginstance_backup.go:321-347 | the completed backup that stopped last, the first listed of equals |
| `BackupRun.OrphanIfNobodyIsTakingIt` | internal/controller/pgbackup_controller.go:119-142 | fails the backup exactly when its member reports another session |
| `BackupRun.ReconcileStatus` | internal/controller/pgbackup_controller.go:85-100 | carries the phase on, never leaves an ending, never starts a backup |
| `BackupRun.ReconcileBackups` | internal/controller/pginstance_backup.go:73-129 | one election step; somebody is elected exactly when archiving works, there is a primary and a backup is running or waiting |
| `BackupRun.ElectsExactly` | internal/controller/pginstance_backup.go:73-129 | an election is held if and only if archiving works, there is a primary and a backup is running or waiting; it names the primary, and a running backup or else the one first in line |
| `BackupRun.StartsExactly` | internal/instance/agent/backup.go:65-151 | a backup starts to run exactly when the member it was elected for claims it, waiting and by a live idle agent, whose session is left on it |
| `BackupRun.EndsExactly` | internal/controller/pgbackup_controller.go:85-142 | exactly which steps complete it and which fail it |
| `BackupRun.AtMostOneRunning` | internal/instance/agent/backup.go:65-151 | in any reachable state at most one backup is Running and it alone may hold the election |
| `BackupRun.ElectionsAgree` | internal/controller/pginstance_backup.go:253-274 | in a reachable state every order of the list elects the same backup |
| `BackupRun.ControllersKeepEndings` | internal/controller/pgbackup_controller.go:258-263 | neither controller leaves Completed or Failed |
| `BackupRun.OrphanIsReleased` | internal/controller/pgbackup_controller.go:119-142 | an orphan is failed at its next reconcile and the next election goes elsewhere |
| `BackupRun.LiveBackupFailedExactly` | internal/controller/pgbackup_controller.go:119-142 | a backup still being taken is failed if and only if its member's published session is neither silent nor current |
| `BackupRun.LaggingReportFailsALiveBackup` | internal/instance/agent/backup.go:225-244 | a run that fails a live backup and then completes it |
| `Proxy.DatabaseHolders` | internal/controller/pgelasticpool_proxy.go:505-517 | for each database asked for, the oldest tenant asking for it |
| `Proxy.HoldsExactly` | internal/controller/pgelasticpool_proxy.go:520-526 | holds answers exactly for the oldest tenant |
| `Proxy.ProxyTenants` | internal/controller/pgelasticpool_proxy.go:418-492 | a route for each holder and nobody else, no database twice: to the instance it is bound to if known and to none otherwise, with its own capacity if it resolved and none otherwise; fails exactly when a holder's credential cannot be looked up |
| `Proxy.OwnerUsers` | internal/controller/pgelasticpool_proxy.go:549-581 | an owner entry for exactly the holders with a password; fails exactly when a holder's Secret cannot be read |
| `Proxy.ContainedUsers` | internal/controller/pgelasticpool_proxy.go:621-693 | an entry for exactly the logins, of resolved holders, that may log in and have a password |
| `Proxy.ProxyUsers` | internal/controller/pgelasticpool_proxy.go:534-610 | every owner entry and exactly the contained ones that shadow none |
| `Proxy.TablesAgree` | internal/controller/pgelasticpool_proxy.go:418-693 | every rendered login has exactly one route, from the one tenant it belongs to, to the instance that tenant is bound to wherever that is known, with that tenant's capacity |
| `Proxy.OwnerIdentityIsUnique` | internal/controller/pgelasticpool_proxy.go:588-608 | an owner's entry is the only one of its name and tenant |
| `Proxy.LoginTakesOwnerNameExactly` | internal/controller/pgelasticpool_proxy.go:566-608 | a login by its owner's name is rendered if and only if the owner has no password |
| `Proxy.TableWithSharedNames` | internal/controller/pgelasticpool_proxy.go:588-693 | the table of a tenant whose owner has no Secret: a login under the owner's name, and one name with two passwords |
| `Proxy.IdentitiesUniqueExactly` | internal/controller/pgelasticpool_proxy.go:588-693 | a name and tenant stand for one entry if and only if no two logins collide |
| `Proxy.TenantsOf` | internal/controller/pgelasticpool_controller.go:347-387 | exactly the pool's tenants that are not being deleted, apart by whether they resolve, the resolved by name; none exactly when a class cannot be read |
| `Proxy.DatabaseClaimedElsewhere` | internal/controller/pgtenant_controller.go:507-528 | names a rival exactly when an older one exists |
| `Proxy.ProvisionedIsRouted` | internal/controller/pgtenant_controller.go:507-539 | the tenant the proxy routes is the tenant the provisioner serves, both ways |
| `Observation.PollMembers` | internal/controller/pginstance_failover.go:210-239 | one member per Pod in order, with its answer exactly when it is addressable and healthy |
| `Observation.SameMembers` | internal/controller/pginstance_failover.go:198-208 | true exactly for the same names in the same order |
| `Observation.Cache.Evict` | internal/controller/pginstance_failover.go:182-188 | keeps exactly the rounds still fresh |
| `Observation.EvictionIsInvisible` | internal/controller/pginstance_failover.go:182-188 | a cache evicted at any earlier times serves exactly what one that kept every round would |
| `Observation.Cache.ObserveMembers` | internal/controller/pginstance_failover.go:163-193 | returns a poll made for this instance and these Pod names, just now or within the lifetime; polls exactly when nothing may be served |
| `Ledger.LedgerOf` | internal/controller/pgelasticpool_controller.go:392-425 | the sums; bound plus pending and the three QoS counts are each all tenants |
| `Ledger.CountsAre` | internal/controller/pgelasticpool_controller.go:392-425 | each count is a number of places in the list: the bound, the bound here, and each class |
| `Ledger.PerInstanceStatus` | internal/controller/pgelasticpool_status.go:194-224 | each row holds its own tenants' guarantees and count |
| `Ledger.ReservationsAreConserved` | internal/controller/pgelasticpool_status.go:194-224 | the rows plus the guarantees bound to none of them are exactly what is reserved |
| `Ledger.OneTenantMore` | internal/controller/pgelasticpool_status.go:194-224 | one tenant more adds its own guarantee and burst to the sums, and its guarantee to its own instance's row and no other |
| `Autoscale.EvidenceSpanOf` | internal/controller/pgelasticpool_status.go:121-134 | the shortest history, zero when any tenant is unmetered or there is none |
| `Probe.Segment` | internal/bench/probe.go:263-333 | every figure of exactly the samples in [from, to], none when there are none |
| `Probe.EndIncludedExactly` | internal/bench/probe.go:260-279 | the documented half-open window is the one used if and only if no sample stands at its end |
| `Probe.EndIncluded` | internal/bench/probe.go:260-279 | two samples for which they differ by all the work done |
| `Probe.DeltasTelescope` | internal/bench/probe.go:283-306 | the interval deltas add up to the core-seconds |
| `Probe.MeansStayBelowPeaks` | internal/bench/probe.go:296-316 | for well-ordered samples neither mean exceeds its peak |
| `Probe.FiguresAre` | internal/bench/probe.go:296-333 | throttled is that the count rose; mean, cost per operation and bytes per connection multiply back to what they divide |
| `Probe.SaturatedExactly` | internal/bench/probe.go:316-320 | saturated is that the work done was at least nine tenths of what the cores could do over the window |
| `Probe.PeakIsReached` | internal/bench/probe.go:283-291 | the peak rate is some interval's own, or nothing was spent |
| `Probe.SetPeakIsLargest` | internal/bench/probe.go:292-294 | the peak working set is the largest seen |
| `Probe.DeltaIsModular` | internal/bench/probe.go:286-306 | a 64-bit counter's advance is read modulo its width |

## Left out

- Kubernetes client plumbing, server-side apply, watches, Events, metrics, tracing and the command mains: they decide nothing.
- `ha.Decide`, the packer, policy defaulting and the ownership resolver: the packer's answer is any answer, and policies are inputs.
- Lists read from the informer cache: the fleet's reclaim, the restore and the election's order take stale reads into account; the migration count, the members' cordons and marks and the backup list of one pass are taken as current. The pool's own object is current in the source too, which reads it past the cache.
- Two controllers of one pool at once: passes of one pool run one at a time; only the restore is modelled with concurrent passes.
- 32-bit truncation of percentages and counts and 64-bit overflow of byte products: counts are unbounded, except the probe's counters, which wrap.
- Sub-second truncation of published times, time zones and cron parsing: a schedule is its walk over integer time.
- Names cut at 253 characters, messages, summaries and conditions.
- Certificates, Secret contents and SCRAM credentials beyond the identity of each entry.
- The rolling 24-hour migration rate: clearing settled records removes them from the count, so no cap over a day follows.
- The tenant's own admission and the webhooks: the fleet admits a tenant that is placed nowhere to any member that is not cordoned.
- The engine's SQL (schema copy, replication, verification): their outcomes are observations.
- Instance-scope restores and the teardown of the recovery instance.
- Backup.MintScheduledBackup: a slot stands for the name made from it.
- PoolLaws.ConcurrencyIsCapped: only passes of this pool create migrations, and each pass counts the records as they stand.
- PoolLaws.RetiresMarkedExactly: nobody but a pass marks a member, and a member does not go while a pass is in hand.
- PoolMachines.ClockSpansMachinesExactly: members come and go between passes; one deleted by hand during a pass is not covered.
- BackupRun.AtMostOneRunning: an instance pass, a claim and a reconcile are each one step.
- FleetLaws.StaleReclaimIsSafe: instances, tenants and migrations come from one earlier state; the source reads three caches, and a tenant or migration list older than the instance list is not covered.
- Members.Controller.FinalizePool: decides on the namespace as it is, where the source lists from a cache.
- Members.NeverPastWanted: nobody else's instance goes by a name the pool would give; without that it is false. An instance deleted from outside is not a step of the fleet; `Members.SquattedNamePassesWanted` takes it as given.
- Fleet.ReconcileKeeps: a migration reconcile is one step from resolving its ends to writing the routing, so an instance deleted in between is not covered.
- Proxy.ProxyTenants: weight, priority and the backend credential's contents are not rendered.
- LiveData.EffectStands: provisioning, copying and catching up are reduced to an empty copy that replication fills.
