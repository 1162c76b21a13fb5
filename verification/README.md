# The backup and restore protocol of the PostgreSQL provider

The provider turns an Instance into a PerconaPGCluster and runs its backups through pgBackRest. Several
controller calls share one mutable world: `Sync` compiles the Instance's storage list into the cluster,
`SyncBackup` and `SyncRestore` create the operator's backups and restores, `Mirror` copies scheduled
operator backups back into Backup objects. Users and the Percona operator act on the same objects at any
time. This project models those calls branch by branch and proves what every interleaving of them keeps.

| File | Content |
|---|---|
| `Wrappers.dfy`, `Text.dfy` | optional values; decimal text, repo names, prefixes and separators |
| `Slots.dfy` | the slot allocator: which of repo1..repo4 each storage holds, and the two lookups over it |
| `Retention.dfy`, `Repos.dfy` | the configuration compiler: schedules, retention, and one flat option map for all repos |
| `ScheduleNames.dfy`, `Spread.dfy`, `Pitr.dfy` | schedule names, topology spread, point-in-time windows |
| `Model.dfy` | the shared objects, with the fields the provider reads or writes |
| `Controllers.dfy` | each controller call as a function of the shared state |
| `Provider.dfy` | the same calls in the provider's own steps, as methods of a namespace object, each proved to compute that function |
| `Runs.dfy` | steps of users, operator and provider; invariants of all runs |
| `Monitoring.dfy`, `Isolation.dfy` | the PMM token protocol; what controllers and restores keep apart |
| `Outcomes.dfy` | how each controller call ends and what it writes, in terms of the objects alone: when a Sync applies, what pruning removes, when a storage is registered, what restores and mirroring need |
| `Placement.dfy` | where the repos of live clusters are, in every run |
| `Seeding.dfy`, `Provenance.dfy` | clusters created from another Instance's repo; where backups are and what restores and clones of them read |
| `Progress.dfy` | progress of on-demand backups |
| `Failures.dfy` | runs from an empty namespace to each state in which the code does not do what its comments promise |

`dafny verify dfyconfig.toml` checks everything.

A run is any sequence of the steps in `Runs.dfy`. Each step has the guard a real cluster would impose and
does nothing when the guard fails. Runs start from a namespace that holds at most BackupStorage objects, or
from any state that satisfies the invariant at hand. Users list each storage once; list validation is not
part of the repository. Reads succeed or find nothing; a `Stop` value in a Sync's environment ends the call
before one of its steps, as an API error would. The answers of the provider runtime (backup class, image
catalogue, monitoring requirement, rendering of a binding) are parameters of the call. The runs are made of
the functions in `Controllers.dfy`; the methods of `Provider.dfy` are what ties these to the provider's own loops
and updates.

## Where the code does not do what its comments promise

Each item has a failing input, reached by a run from an empty namespace where it is about the shared state,
and the exact condition under which the code does what is promised.

* **A backup on a foreign repo.** `SyncBackup` resolves a storage against the current list and then only
  checks that a repo of that name is live. When one storage replaced another in the list and no Sync ran in
  between, the new storage's backup goes to the repo of the old one (`Failures.BackupOnForeignRepo`). The repo
  is the storage's own if and only if the storage is already in the persisted slot map
  (`Provenance.RepoIsOwnIff`). A point-in-time restore of the Instance's own stream has the same gap
  (`Failures.RestoreOfForeignStream`) and the same condition (`Provenance.StreamIsOwnIff`).
* **A restore from a repo that changed hands.** A restore names the repo of the operator backup and nobody asks
  who holds that repo by now. After its slot went to another storage the restore is created all the same, on a
  repo that is elsewhere (`Failures.RestoreFromReusedRepo`). It reads the place that was written if and only if
  the storage that holds the repo now prescribed that place at the last successful Sync of the cluster
  (`Provenance.ReachedRestoreReads`, for every run).
* **Edited storages.** Nothing ties a repo to the specification its backups were written under. When the
  BackupStorage is moved to another bucket and the cluster follows, a restore of an untouched Backup, whose own
  storage holds the repo all along, reads a place that was never written (`Failures.RestoreOfMovedStorage`);
  such a restore is right if and only if the storage prescribed the same place when the cluster was last
  configured before the backup and before the restore (`Provenance.OwnRepoReadsIff`). A clone reads the storage
  as it is now while the source cluster keeps the old place until its next Sync
  (`Failures.SeedOfMovedStorage`, `Failures.StreamSeedOfMovedStorage`); it reads what was written, or what is
  being written, if and only if the storage still prescribes that place (`Provenance.UneditedSeedReadsIff`,
  `Seeding.StreamSeedReadsWhatIsWritten`). Paths are the exception: they never depend on a storage
  (`Placement.RunPathsRight`).
* **A restore window that counts foreign backups.** After a slot was reused, the window of a storage counts the
  backups of the storage that had its repo before (`Failures.WindowOfReusedRepo`). A backup counts for exactly
  the storage that resolves to its repo now, which is its own as long as that is listed and holds the slot
  (`Pitr.CountsForHolder`).
* **Edited Backups.** `SyncBackup` only logs a change of the Backup's origin or storage, and the test behind the
  message for a changed storage compares a storage name with a repo name. After a change of origin a restore
  goes to another Instance's cluster (`Failures.RestoreOfEditedOrigin`); it reads what the operator backup's own
  cluster has under that repo if and only if the origin is that cluster (`Provenance.IsolatedIff`). After a
  change of storage a clone reads a place nothing was written to (`Failures.SeedOfEditedStorage`); it reads the
  right one if and only if storage and origin as they are now prescribe it
  (`Provenance.BackupSeedReadsWhatWasWritten`). After a mirrored Backup's schedule name was emptied, `SyncBackup`
  takes the operator's scheduled backup over (`Failures.TakenOver`); it leaves it alone if and only if there is
  a schedule name (`Isolation.LeftAloneIff`).
* **A Backup that waits for ever.** Registration switches backups on, so that a Backup is not "stuck in
  Pending forever" (`backup_mirror.go:797-801`), but only a storage that is not listed is ever registered. A
  Backup on a listed storage of an Instance with backups switched off is not started once the cluster has
  followed (`Failures.WaitsForEver`, `Progress.SwitchedOffNeverStarts`). Two rounds start a wanted backup if and
  only if backups were not switched off that way or the backup could be started at once
  (`Progress.ProgressIff`).
* **Retention overflow.** A duration is multiplied into days in 64 bits. The result is right if and only if it
  fits (`Retention.DurationInDays`); past that, a month count becomes negative (`Retention.MonthsOverflow`).
* **Repeated spread constraints.** Validation accepts a list that states an operator constraint twice
  (`Spread.RepeatedConstraint`). The round trip through the operator is exact if and only if each is stated
  once (`Spread.RoundTrip`).
* **Nil dereferences.** `SyncRestore` crashes if and only if the source is a finished, usable backup whose Backup
  names no Instance (`Failures.CrashIff`, `Failures.RestoreWithoutOrigin`). Pruning crashes if and only if an
  Instance with storages has a data source without its detail section (`Failures.PruningFailsIff`,
  `Failures.SourceWithoutDetail`), and then no Sync of it ever applies a cluster
  (`Failures.PruningFailureStopsSync`). The model has these calls end without a further effect.

## Model

| member | source | states |
|---|---|---|
| Slots.ReconcileRepoSlotMap | internal/provider/backup_mirror.go:452-488 | whatever order the persisted map is visited in, the two loops compute one result: survivors keep their slot, the j-th newcomer gets the j-th lowest free one |
| Slots.PreserveExisting | internal/provider/backup_mirror.go:461-470 | the first loop keeps exactly the assignments that are still listed and in range, and marks exactly their slots occupied, in any iteration order |
| Slots.AssignNewcomers | internal/provider/backup_mirror.go:472-485 | the second loop serves newcomers in list order from the ascending free slots and leaves the rest without a slot |
| Slots.LowestUnoccupied | internal/provider/backup_mirror.go:477-484 | the inner search finds the lowest free slot or shows that none is free |
| Slots.ReconcileIs | internal/provider/backup_mirror.go:447-488 | the allocation without loops: who is kept with which slot, who is new, which newcomers are served and with what; removed names are evicted |
| Slots.ReconcileKeeps | internal/provider/backup_mirror.go:447-451 | only listed names hold slots, slots are 0..3, and a still listed name keeps its slot whatever happens to the others |
| Slots.SoleNewcomer | internal/provider/backup_mirror.go:473-484 | a newcomer that comes alone gets the lowest slot nobody kept |
| Slots.EarlierIsLower | internal/provider/backup_mirror.go:472-485 | newcomers are served in list order: of two, the one listed first is not the one left out, and has the lower slot |
| Slots.ReconcileInjective | internal/provider/backup_mirror.go:461-485 | two storages never share a slot if the persisted map shares none |
| Slots.UnservedMeansFull | internal/provider/backup_mirror.go:477-484 | a listed name without a slot: each of the four slots is held by some listed name |
| Slots.UnservedMeansFive | internal/provider/backup_mirror.go:785-788 | so such a list has at least five distinct entries, which the limit check of auto-registration refuses |
| Slots.ReconcileIdempotent | internal/provider/backup_mirror.go:403-417 | recomputing the map from its own result changes nothing, so the recomputing lookup agrees with what was persisted |
| Slots.ReconcileSize | internal/provider/backup_mirror.go:452-488 | from an injective map exactly min(4, distinct names) slots are held |
| Slots.StorageNameToRepoName | internal/provider/backup_mirror.go:403-417 | the forward lookup returns the repo of the reconciled slot, or nothing |
| Slots.RepoNameToStorageName | internal/provider/backup_mirror.go:140-162 | the reverse lookup, in any order, finds a storage holding that repo if there is one; on an injective map the only one |
| Slots.ReverseLookup | internal/provider/backup_mirror.go:154-159 | on an injective map the reverse lookup inverts the forward one |
| Text.RepoNameInjective | internal/provider/backup_mirror.go:395-397 | different indexes, negative ones included, have different repo names |
| Text.RepoKeysApart | internal/provider/backup_mirror.go:620-653 | an option key determines its repo index and its option name |
| Text.RepoPrefixesApart | internal/provider/backup_mirror.go:309-312 | no key begins with two different repos' names and dash, so repo1 and repo10 never meet |
| Text.FourRepos | internal/provider/backup_mirror.go:395-397 | the four slots are called repo1 to repo4 |
| Text.Trimmed | internal/provider/backup_mirror.go:681-683 | trimming a bucket name takes the slashes off both ends, all of them, and nothing else |
| Retention.ApplyRetentionConfig | internal/provider/backup_mirror.go:620-653 | it stops at the first schedule whose rule is invalid or is a time limit on "diff", and otherwise at the end; the options written are those of the last full and last diff limit passed, over an unchanged rest |
| Retention.LastFullWins | internal/provider/backup_mirror.go:629-650 | full value and type come together from one schedule, after which no other sets them; absent only if none does |
| Retention.LastDiffWins | internal/provider/backup_mirror.go:633-637 | the same for the diff limit |
| Retention.DurationInDays | internal/provider/backup_mirror.go:655-679 | a duration of n units becomes n times 1, 7 or 31 days if and only if that fits 64 bits |
| Retention.MonthsOverflow | internal/provider/backup_mirror.go:671-675 | a month count just past 64 bits yields a negative number of days |
| Retention.MonthsNeverShort | internal/provider/backup_mirror.go:657-659 | 31 days a month is never shorter than any n consecutive calendar months |
| Retention.BuildPGBackRestSchedules | internal/provider/backup_mirror.go:586-608 | the loop computes the crons that `CronsAre` and `NoCrons` describe |
| Retention.EnabledHasCron | internal/provider/backup_mirror.go:588-606 | every enabled schedule leaves a cron for its type |
| Retention.EveryLimitHasACron | internal/provider/backup_mirror.go:586-653 | a full limit comes with a full or incremental cron, a diff limit with a differential one |
| Retention.KindOfIs | internal/provider/backup_mirror.go:593-605 | "diff" and "incr", in any case, select differential and incremental backups, and no other name does |
| Retention.CronsAre | internal/provider/backup_mirror.go:588-606 | each backup type has the cron of the last enabled schedule of that type, which overwrites earlier ones |
| Retention.NoCrons | internal/provider/backup_mirror.go:588-606 | and no cron without one |
| Retention.LimitIs | internal/provider/backup_mirror.go:655-679 | exactly the counts and the positive durations in days, weeks of 7 or months of 31 are accepted, with that number and type |
| Retention.RetentionSucceedsIff | internal/provider/backup_mirror.go:620-653 | the options of a storage can be written if and only if no enabled schedule has a rule that is not accepted or a time limit on "diff" |
| Retention.FullOption | internal/provider/backup_mirror.go:629-650 | the full limit written, value and type, is what the last enabled schedule with a rule that is not "diff" asks for |
| Retention.DiffOption | internal/provider/backup_mirror.go:633-637 | the diff limit written is what the last enabled "diff" with a rule asks for |
| Retention.NoOption | internal/provider/backup_mirror.go:621-624 | without such a schedule the option is not written |
| Repos.CompileStorages | internal/provider/backup_mirror.go:285-354 | the loop over storages fails with the first storage's first failed check, else yields one repo per storage and the options written one over the other |
| Repos.CompileStorage | internal/provider/backup_mirror.go:288-353 | one pass of that loop: the check it fails, or its repo and its options over the ones before |
| Repos.ApplyTransport | internal/provider/backup_mirror.go:344-352 | path style and disabled TLS verification are written, and nothing else |
| Repos.ProblemFree | internal/provider/backup_mirror.go:288-342 | compilation succeeds if and only if every storage passes all checks on its own |
| Repos.CompilesIff | internal/provider/backup_mirror.go:288-342 | compilation succeeds if and only if every storage has a name, a slot, an S3 BackupStorage with both keys, and only retention rules that can be had |
| Repos.CompileReports | internal/provider/backup_mirror.go:288-342 | otherwise it reports, of the first storage that does not fit in, the first of these that is missing |
| Repos.KeysBelong | internal/provider/backup_mirror.go:309-352 | every option a storage yields starts with its own repo's name and dash |
| Repos.StoragesApart | internal/provider/backup_mirror.go:309-352 | storages in different slots share no option |
| Repos.GlobalIsUnion | internal/provider/backup_mirror.go:285-362 | the global config is the disjoint union of what each storage yields alone: nothing overwritten, nothing added |
| Repos.GlobalIgnoresOrder | internal/provider/backup_mirror.go:288-354 | for a fixed slot map the order of the list decides neither success nor any option |
| Repos.ReposInOrder | internal/provider/backup_mirror.go:297-327 | one repo per storage, in list order: named after its slot, at its bucket, region and endpoint, with the crons of its schedules |
| Repos.ConnectionInGlobal | internal/provider/backup_mirror.go:304-352 | path, URI style and TLS options of a repo in the merged map are those its own storage prescribes, schedules and other storages notwithstanding |
| Repos.RetentionInGlobal | internal/provider/backup_mirror.go:317-325 | and its retention options are those of its own storage's schedules |
| Repos.PathsInjective | internal/provider/backup_mirror.go:579-584 | two repo paths are equal only for the same UID and the same repo |
| Repos.PathsNotNested | internal/provider/backup_mirror.go:567-571 | no repo of one Instance lies inside a repo of another, for UIDs without a slash |
| ScheduleNames.RecoversType | internal/provider/backup_mirror.go:195-217 | from "cluster-repo-type-suffix" the type is recovered, whatever dashes the other parts contain |
| ScheduleNames.DerivedName | internal/provider/backup_mirror.go:203-217 | never empty for a named backup; the whole name exactly when the name does not follow the convention, otherwise free of dashes |
| Spread.ValidateSpreadConstraints | internal/provider/scheduling.go:56-76 | accepts exactly the lists in which every operator constraint is as the operator has it and both are present; otherwise says the first that is wrong, or what is missing, hostname first |
| Spread.InstanceSpreadConstraints | internal/provider/scheduling.go:81-95 | hands over the user's own constraints in order with selectors filled in; no list stays no list |
| Spread.RoundTrip | internal/provider/scheduling.go:48-95 | for a valid list, stripping the two constraints and letting the operator add them back restores it as a multiset if and only if each is stated once |
| Spread.RepeatedConstraint | internal/provider/scheduling.go:56-76 | a valid list on which it is not |
| Spread.DistinctRoundTrip | internal/provider/scheduling.go:52-95 | with distinct key and reaction pairs the round trip is exact and the pods get no colliding pair |
| Spread.ValidIff | internal/provider/scheduling.go:40-76 | a list is valid if and only if it has the soft spread with skew one and nothing else over nodes and over zones, and no other soft constraint over either |
| Spread.OwnAppends | internal/provider/scheduling.go:81-95 | constraint by constraint: a soft spread over nodes or zones is left out, any other handed over with the labels for a missing selector |
| Pitr.CollectRepoBackups | internal/provider/backup_status.go:83-102 | exactly the succeeded, completed backups of this cluster and repo, each as often as the list has it, oldest first; an empty repo matches nothing |
| Pitr.SortByCompletion | internal/provider/backup_status.go:98-100 | a permutation in order of completion |
| Pitr.PitrWindow | internal/provider/backup_status.go:117-149 | earliest is the minimum completion, latest the maximum restorable time over the whole operator list; unavailable exactly without a backup or without a stamp |
| Pitr.StatusOfStorage | internal/provider/backup_status.go:53-58 | a storage reports a window exactly if it has recovery switched on, and it is the window of its own repo |
| Pitr.BackupStorageStatuses | internal/provider/backup_status.go:30-61 | one status per listed storage in order, none when backups are off |
| Pitr.WindowUnique | internal/provider/backup_status.go:104-149 | the window does not depend on the order of the operator's list |
| Pitr.WindowWidens | internal/provider/backup_status.go:111-116 | more backups only widen it |
| Pitr.WindowOrdered | internal/provider/backup_status.go:143-148 | earliest is no later than latest if no stamp precedes its own backup's completion |
| Pitr.OneStorageEach | internal/provider/backup_status.go:52-57 | a backup counts for at most one storage |
| Pitr.CountsForHolder | internal/provider/backup_status.go:83-102 | a backup counts for exactly the storage that resolves to its repo now; for the one it was taken on, and no other, while that is listed and holds the slot |
| Pitr.AvailableIs | internal/provider/backup_status.go:83-149 | every succeeded, completed backup of the cluster on the repo is completed no earlier and restorable no later than the window says |
| Pitr.AvailableFrom | internal/provider/backup_status.go:83-149 | and both ends of the window come from such backups |
| Provider.Namespace.ApplyPMM | internal/provider/monitoring.go:61-107 | the PMM setting handed on and the token Secret left behind, in every combination of requirement, bindings and live state |
| Provider.Namespace.ReferencedStorages | internal/provider/backup_mirror.go:717-725 | the storages of the Instance's Backups that are not being deleted |
| Provider.Namespace.PruneUnreferencedStorages | internal/provider/backup_mirror.go:695-764 | the loop, its early exits and the patch compute the pruned Instance that `PruneIs` and `PruneKeepsOrder` describe, or fail |
| Provider.Namespace.ApplyBackupSettings | internal/provider/backup_mirror.go:219-391 | the compiled settings and slot map, or the reason and what is already set by then |
| Provider.Namespace.IsRestoreRunning | internal/provider/provider.go:434-448 | true if and only if some Restore of the Instance is unset, pending or running |
| Provider.Namespace.ApplyDataSourceBootstrap | internal/provider/datasource.go:184-213 | an existing cluster keeps its source; a new one gets the one built for it, or is refused while that is pending or failed |
| Provider.Namespace.BuildDataSourceBootstrap | internal/provider/datasource.go:83-162 | the source resolved, looked up and built step by step, its options added to one object in place, comes out as the specified bootstrap; each way to wait, fail or need none is kept apart |
| Provider.SeedSource.AddTransport | internal/provider/datasource.go:150-155 | path style and disabled TLS verification are added to the source under construction, over what is there |
| Provider.Namespace.DataSourceSourceInstance | internal/provider/datasource.go:37-62 | the Instance whose repo holds the data, empty while it cannot be told |
| Provider.Namespace.DataSourceStorageName | internal/provider/datasource.go:65-74 | the storage the data lives in; a missing Backup and a missing detail section are told apart |
| Provider.Namespace.Sync | internal/provider/provider.go:83-302 | the whole call, from PMM to the write, step by step; `SyncOutcome`, `SyncError` and `SyncCompiles` say what it comes to |
| Provider.Namespace.SyncCluster | internal/provider/provider.go:247-301 | its part from the backup settings on |
| Provider.Namespace.AutoRegisterStorage | internal/provider/backup_mirror.go:771-811 | the checks in their order and the patch compute the registration that `SyncBackupInstances` describes |
| Provider.Namespace.SyncBackup | internal/provider/backup.go:40-242 | the gate in its order of checks, the operator backup it creates, and taking over the one that exists |
| Provider.FindRepo | internal/provider/backup.go:681-688 | the search finds a repo if and only if the cluster has one of that name |
| Provider.Namespace.SyncRestore | internal/provider/backup.go:247-317 | refusal, seeding status, or the operator restore it creates |
| Provider.Namespace.ResolveRestoreSource | internal/provider/backup.go:394-411 | a source is resolved by its type, and an unknown type refused |
| Provider.Namespace.ResolveRestoreRepoName | internal/provider/backup.go:349-387 | repo and set exactly of a succeeded operator backup; failed exactly for a failed one; otherwise pending |
| Provider.Namespace.ResolveBackupSource | internal/provider/backup.go:417-486 | the checks in their order, the options appended one by one, the crash without an origin after them |
| Provider.Namespace.ResolvePointInTimeSource | internal/provider/backup.go:494-577 | the stream is looked up on the foreign cluster's own annotation or resolved on the Instance, and must be live |
| Provider.Namespace.MirrorBackup | internal/provider/backup_mirror.go:51-135 | the checks in their order and the Backup they end in, which `MirrorIff` and `MirrorNamesType` describe |
| Runs.CompiledAreSlots | internal/provider/backup_mirror.go:283-365 | after a successful compilation the repos are exactly those of the slot map, each once, and every listed storage has one |
| Runs.SettingsOk | internal/provider/provider.go:247-269 | so are the settings Sync applies on every path, preserved ones included |
| Runs.PrunedOk | internal/provider/backup_mirror.go:727-761 | pruning keeps storage names distinct, the list no longer, and UID and data source as they were |
| Runs.RegisteredOk | internal/provider/backup.go:104-125 | a registration reached through the gate adds a name not yet listed and no fifth storage |
| Runs.SyncWrites | internal/provider/provider.go:219-301 | however it ends, a Sync writes only its own Instance by pruning, its own cluster and its own Secret |
| Runs.OthersKeepSettings | internal/provider/provider.go:293-295 | no other step changes provider-owned fields of any cluster or a token Secret |
| Runs.StepKeepsSlotsOk | internal/provider/provider.go:236-301 | every step keeps the annotation injective into slots 0..3 and the live repos exactly those of its slots |
| Runs.RunKeepsSlotsOk | internal/provider/provider.go:236-301 | hence every run does |
| Runs.ReachableSlots | internal/provider/backup_mirror.go:275-283 | in particular every run from an empty namespace |
| Runs.SlotsNeverMove | internal/provider/backup_mirror.go:275-283 | a persisted slot never changes while its storage stays listed and backups stay enabled, through other storages' changes, configuration errors and skipped Syncs |
| Runs.LookupsAfterSync | internal/provider/backup_mirror.go:399-417 | after a successful Sync the forward lookup resolves exactly the persisted storages, the reverse lookup inverts it, and every listed storage has a repo |
| Runs.OnlySuccessReconfigures | internal/provider/provider.go:247-287 | a Sync with a configuration error, a skipped or a stopped one leaves an existing cluster's backup settings and annotation as they are; success with backups off clears both |
| Runs.KeptDistinct | internal/provider/backup_mirror.go:727-737 | what is kept has no name twice and is what the test on each storage keeps |
| Runs.FourStoragesAtMost | internal/provider/backup_mirror.go:785-796 | if users list at most four storages, no Instance ever lists a fifth or one twice |
| Monitoring.PlanIsSafe | internal/provider/monitoring.go:71-106 | one call never gives up a Secret that live PMM reads, nor switches PMM on without one |
| Monitoring.SyncTokenSafe | internal/provider/monitoring.go:61-107 | whatever stops or skips a Sync, PMM is on only where the token Secret exists |
| Monitoring.RunTokenSafe | internal/provider/monitoring.go:56-107 | throughout every run |
| Monitoring.SyncPMM | internal/provider/provider.go:219-295 | an applied Sync puts the planned setting on the cluster, any other leaves the clusters alone; the Secret is as planned either way |
| Monitoring.AppliedPMM | internal/provider/monitoring.go:71-106 | after an applied Sync PMM is on exactly if it is not dispensed with and ran before or was rendered; undecided requirements and failed renderings hold what runs |
| Monitoring.FirstApplicableIs | internal/provider/monitoring.go:85-105 | the first binding that applies decides, whatever the others say |
| Monitoring.NoneApplicable | internal/provider/monitoring.go:85-107 | and without one nothing is rendered |
| Monitoring.SecretAfterSync | internal/provider/monitoring.go:71-106 | after any Sync that got that far, however it ended, the token Secret is there exactly if it was rendered now, or was there and PMM is wanted, undecided or still running |
| Monitoring.TwoSyncsSwitchOff | internal/provider/monitoring.go:72-78 | an applied Sync without the requirement and one more, applied or not, leave PMM off and the Secret gone |
| Outcomes.PruneIs | internal/provider/backup_mirror.go:695-764 | pruning leaves exactly the storages with schedules, with Backups of the Instance that are not being deleted, or read by the data source; it switches backups off exactly if it leaves none, changes nothing else, and nothing at all while the source Backup is missing |
| Outcomes.PruneKeepsOrder | internal/provider/backup_mirror.go:727-737 | and it leaves them in the order they were in |
| Outcomes.BootstrapIff | internal/provider/datasource.go:83-162 | a new cluster may be created if and only if there is no data source, it turns out to be none of another Instance, or its backup is finished or its stream archived and source Instance and storage are there |
| Outcomes.SyncOutcome | internal/provider/provider.go:219-295 | exactly when a Sync is skipped and when it applies its cluster: nothing stopped it, no Restore of the Instance has not ended, and the cluster exists or may be created; otherwise no cluster changes |
| Outcomes.NoWriteWhileRestoring | internal/provider/provider.go:271-287 | while a Restore of the Instance is unset, pending or running, no Sync writes to any cluster |
| Outcomes.SyncError | internal/provider/provider.go:247-269 | what a Sync reports: nothing if and only if backups are off on the pruned Instance or its section is in order, otherwise the class before the image before an empty list before its storages |
| Outcomes.SyncReportsFirst | internal/provider/backup_mirror.go:288-342 | and for the storages, why the first one that does not fit in does not |
| Outcomes.SyncCompiles | internal/provider/backup_mirror.go:281-365 | a successful Sync writes the compiled list of the pruned Instance for its reconciled slots, and nothing else, as the cluster's backup settings |
| Outcomes.SyncCreatesWithError | internal/provider/provider.go:247-269 | a cluster created in spite of a configuration error has neither repos nor slots, and backups enabled exactly if class and image were found |
| Outcomes.SyncBackupInstances | internal/provider/backup_mirror.go:771-811 | SyncBackup changes an Instance if and only if it registers the storage of an on-demand Backup that has no repo yet, is known and finds fewer than four listed; it is then listed last, without schedules, and backups are enabled |
| Outcomes.SyncBackupStarts | internal/provider/backup.go:164-187 | the operator backup it starts names the origin's cluster and the resolved repo, is owned, and has none of the marks of a scheduled one |
| Outcomes.SyncBackupFollows | internal/provider/backup.go:76-100 | what it answers for an existing operator backup, which it takes over only for an on-demand Backup, and for one left to the operator or without a cluster |
| Outcomes.SyncBackupUnresolved | internal/provider/backup.go:104-133 | what it answers without a repo: wait for an unknown storage, fail at the limit, else register |
| Outcomes.SyncBackupResolved | internal/provider/backup.go:127-162 | what it answers with one: the first of repos, this repo, cluster and stanza that is not there, else the backup it starts |
| Outcomes.RestoreFromBackup | internal/provider/backup.go:417-486 | exactly when a Restore from a Backup crashes, has failed, is pending, seeds, or goes through |
| Outcomes.RestoreFromStream | internal/provider/backup.go:494-577 | exactly when a Restore from a stream has failed, is pending, seeds, or goes through |
| Outcomes.RestoreFromNothing | internal/provider/backup.go:394-411 | a Restore without the section for its type, or of an unknown type, has failed and changes nothing |
| Outcomes.SeedingReports | internal/provider/datasource.go:215-245 | a seeding Restore is pending without a cluster, succeeded once that is ready, and running in between |
| Outcomes.RestoreCreatesIff | internal/provider/backup.go:291-317 | an operator restore is created if and only if the Restore goes through and there is none of its name; an existing one is left as it is |
| Outcomes.MirrorIff | internal/provider/backup_mirror.go:51-116 | exactly which operator backups become Backups |
| Outcomes.MirrorFinds | internal/provider/backup_mirror.go:103-162 | the storage found for it is the one whose slot in the live cluster's annotation is the operator backup's repo, and none only if there is none |
| Outcomes.MirrorNamesType | internal/provider/backup_mirror.go:77-134 | the Backup names that cluster, the storage found, and the type in the operator's name as its schedule |
| Outcomes.MirrorNamesOther | internal/provider/backup_mirror.go:203-217 | or the whole name, where that does not follow the operator's convention |
| Isolation.SyncBackupChanges | internal/provider/backup.go:164-211 | SyncBackup writes only Instances and the operator backup of its own name, creates one only for a Backup without schedule name, and never drops an owner |
| Isolation.RunMirrorsNamed | internal/provider/backup_mirror.go:73-134 | in every run in which nobody empties one, a mirrored Backup has a schedule name |
| Isolation.MirroredStartsNothing | internal/provider/backup.go:65-86 | in such runs syncing a mirrored Backup changes nothing at all |
| Isolation.LeftAloneIff | internal/provider/backup.go:65-86 | SyncBackup leaves an operator backup that nobody owns alone if and only if its Backup has a schedule name |
| Isolation.OwnerStays | internal/provider/backup.go:190-210 | an owned operator backup stays owned as long as it exists |
| Isolation.StartedIsNeverMirrored | internal/provider/backup_mirror.go:61-66 | an operator backup that SyncBackup started is never mirrored |
| Isolation.RestoreStaysHome | internal/provider/backup.go:273-316 | an operator restore targets the Instance its Backup or WAL stream belongs to; from a Backup it has the repo and, once known, the very set of the operator backup and stops there; from a stream a live repo of that cluster and the target asked for |
| Isolation.RunRestoresStayHome | internal/provider/backup.go:291-317 | in every run every operator restore is one, from its creation on, as things stood then |
| Isolation.SeedingCreatesNone | internal/provider/backup.go:281-289 | seeding from another Instance creates no operator restore |
| Isolation.RunOriginsMatch | internal/provider/backup.go:166-176 | runs without origin edits or reused names keep every operator backup on the cluster its Backup names |
| Isolation.RestoreIsolated | internal/provider/backup.go:471-483 | in such runs a restore from a Backup writes to the cluster the operator backup was taken on |
| Placement.CompiledArePlaced | internal/provider/backup_mirror.go:545-577 | each slot's repo has the bucket, region, endpoint, path and transport options of its own storage |
| Placement.SyncPlaces | internal/provider/provider.go:247-295 | a successful Sync puts every repo of its cluster where its storage prescribes now, wherever the repos were and however storages were edited |
| Placement.StepPlaced | internal/provider/backup_mirror.go:285-365 | no other step moves a repo, whatever is edited, and no failing, skipped or stopped Sync does |
| Placement.RunPlaced | internal/provider/backup_mirror.go:285-365 | so in every run, with no condition on edits, every live repo is where its storage prescribed at the last successful Sync of its cluster |
| Placement.UpToDateIff | internal/provider/backup_mirror.go:285-365 | a cluster is up to date with its storages if and only if those it uses prescribe the same place then and now; credentials and other storages do not matter |
| Placement.RunPathsRight | internal/provider/backup_mirror.go:567-571 | in every run every slot's repo has the path of its own Instance |
| Placement.PathsOfInstancesDiffer | internal/provider/backup_mirror.go:567-571 | so live repos of Instances with different UIDs have different paths, whatever storages were edited |
| Placement.LivePathsNotNested | internal/provider/backup_mirror.go:567-571 | nor does one lie inside another, for UIDs without a slash |
| Seeding.SourceIsFixed | internal/provider/datasource.go:181-190 | no step after creation changes a cluster's data source |
| Seeding.SyncCreates | internal/provider/datasource.go:195-212 | a cluster is created only by its own Sync and only from a usable source |
| Seeding.CreatedFromSource | internal/provider/datasource.go:83-213 | a cluster of an Instance seeded from another is created with the data source built for it, never while that is pending |
| Seeding.SeededForGood | internal/provider/datasource.go:181-213 | and carries it for ever after |
| Seeding.BootstrapSource | internal/provider/datasource.go:100-161 | what a data source reads is prescribed by the source's storage, UID and repo |
| Seeding.StreamSeedReadsWhatIsWritten | internal/provider/backup.go:529-562 | seeding from another Instance's stream names the repo the source cluster archives that storage to, and reads where it archives if and only if the storage still prescribes what it did at that cluster's last successful Sync |
| Provenance.LiveWhereHeld | internal/provider/backup_mirror.go:297-365 | a live repo is at exactly one place, where the storage that holds its slot prescribed when the cluster was configured |
| Provenance.RepoIsOwnIff | internal/provider/backup.go:104-141 | the repo a backup lands on belongs to some storage, and to its own if and only if that is in the persisted slot map |
| Provenance.StartsOnOwnRepo | internal/provider/backup.go:164-176 | a backup started while its storage is in the slot map is on its own repo |
| Provenance.StartsOnLiveRepo | internal/provider/backup.go:135-141 | every backup that SyncBackup starts is on a live repo, so there is a place it is written to |
| Provenance.OwnRepoWrittenTo | internal/provider/backup.go:164-176 | for one on its own repo that is where its storage prescribed at the cluster's last successful Sync |
| Provenance.MirroredOnOwnRepo | internal/provider/backup_mirror.go:103-134 | so is a Backup that Mirror makes, at that moment |
| Provenance.MirrorNamesHolder | internal/provider/backup_mirror.go:137-162 | the storage it names is the one the data was written to if and only if that still holds the repo |
| Provenance.RunKeepsBackup | internal/provider/backup.go:166-211 | in every run an operator backup keeps its repo and cluster, and a Backup that is not edited its storage and origin |
| Provenance.RestoreReadsWhatWasWritten | internal/provider/backup.go:451-485 | whatever happened since a backup, a restore names the repo that was written, and reads the place that was written if and only if the storage that holds the repo now prescribed it when the cluster was configured |
| Provenance.ReachedRestoreReads | internal/provider/backup.go:451-485 | in every run from an empty namespace, with the storages as of the last successful Sync of the cluster restored to |
| Provenance.OwnRepoReadsIff | internal/provider/backup.go:451-485 | with the Backup's own storage on the repo at both times, it does if and only if that storage prescribed the same place at the last configuration before the backup and before the restore |
| Provenance.InUseStaysOwn | internal/provider/backup_mirror.go:275-283 | an unedited Backup's own storage holds its repo as long as that stays listed and backups stay enabled |
| Provenance.IsolatedIff | internal/provider/backup.go:471-483 | a restore reads what the operator backup's own cluster has under that repo if and only if the Backup's origin is that cluster |
| Provenance.RunUniqueUIDs | internal/provider/backup_mirror.go:567-571 | distinct UIDs, which that rests on, hold throughout every run that creates Instances with new ones |
| Provenance.StreamIsOwnIff | internal/provider/backup.go:547-562 | a point-in-time restore of the own stream is on its storage's repo if and only if the storage is in the persisted slot map |
| Provenance.BackupSeedReadsWhatWasWritten | internal/provider/datasource.go:100-161 | whatever happened to slots, clusters, storages and the Backup, a clone reads the place that was written if and only if the Backup's present storage and origin prescribe it |
| Provenance.UneditedSeedReadsIff | internal/provider/datasource.go:123-135 | for a Backup on its own repo that says what it said, if and only if its storage still prescribes what it did when the cluster was last configured before the backup |
| Failures.BackupOnForeignRepo | internal/provider/backup.go:104-187 | a run whose last step puts a backup of one storage on the repo and at the place of another |
| Failures.RestoreFromReusedRepo | internal/provider/backup.go:451-485 | a run after which a restore is created on a repo that is not where its backup was written |
| Failures.RestoreOfForeignStream | internal/provider/backup.go:547-562 | a run after which a point-in-time restore is created on another storage's repo |
| Failures.WindowOfReusedRepo | internal/provider/backup_status.go:52-57 | a run after which a window counts a backup of another storage |
| Failures.RestoreOfEditedOrigin | internal/provider/backup.go:192-204 | a run with an edited origin after which a restore goes to another cluster than the backup was taken on |
| Failures.SeedOfEditedStorage | internal/provider/datasource.go:123-135 | a run with an edited storage after which a clone reads a place that was never written |
| Failures.RestoreOfMovedStorage | internal/provider/backup_mirror.go:299-312 | a run with an edited BackupStorage after which an untouched Backup on its own repo is restored from a place that was never written |
| Failures.SeedOfMovedStorage | internal/provider/datasource.go:123-135 | a run with an edited BackupStorage after which a clone of an untouched Backup reads such a place |
| Failures.StreamSeedOfMovedStorage | internal/provider/datasource.go:123-135 | a run after which a clone of a stream reads another place than the source cluster archives to |
| Failures.TakenOver | internal/provider/backup.go:190-210 | a run with an emptied schedule name after which SyncBackup takes a scheduled backup over |
| Failures.WaitsForEver | internal/provider/backup.go:100-133 | a run to a wanted backup that is switched off |
| Failures.CrashIff | internal/provider/backup.go:471-483 | exactly when SyncRestore dereferences a nil |
| Failures.RestoreWithoutOrigin | internal/provider/backup.go:474-474 | a run after which it does |
| Failures.PruningFailsIff | internal/provider/datasource.go:65-74 | exactly when pruning dereferences a nil |
| Failures.SourceWithoutDetail | internal/provider/backup_mirror.go:699-709 | a run after which it does |
| Failures.PruningFailureStopsSync | internal/provider/provider.go:236-238 | no Sync of such an Instance applies a cluster |
| Progress.GateIff | internal/provider/backup.go:76-187 | SyncBackup starts a backup if and only if it is on demand, the cluster exists with backups enabled and is initialised, and the resolved repo is live with its stanza created |
| Progress.SyncBackupProgress | internal/provider/backup.go:88-187 | SyncBackup starts a startable backup, registers an unlisted storage, and otherwise changes nothing |
| Progress.PruneKeepsReferenced | internal/provider/backup_mirror.go:717-761 | pruning keeps the storage of every Backup that is not being deleted, and the enabled flag, in any state |
| Progress.RegistrationStays | internal/provider/backup_mirror.go:717-761 | hence in every run in which users do not take it back, a registered storage stays listed |
| Progress.SyncConfigures | internal/provider/backup_mirror.go:267-365 | a smooth Sync gives the storage a slot and a live repo |
| Progress.SyncBackupLowers | internal/provider/backup.go:88-187 | SyncBackup lowers the rank of an unregistered or startable backup and changes nothing at the other stages |
| Progress.SyncLowers | internal/provider/backup_mirror.go:267-365 | a smooth Sync lowers the rank of a registered one |
| Progress.ReportLowers | internal/provider/backup.go:148-162 | one operator report with this repo's stanza, whatever else it says, lowers the rank of one on the cluster |
| Progress.ProviderKeepsRank | internal/provider/backup.go:104-187 | no provider call for whatever object, however it ends, raises the rank of a registered backup while backups are enabled and its storage, once on the cluster, holds its slot |
| Progress.RankDecreases | internal/provider/backup.go:104-187 | a round of SyncBackup, smooth Sync and an operator that catches up strictly lowers the rank |
| Progress.TwoRoundsStart | internal/provider/backup.go:104-187 | two rounds are enough |
| Progress.SwitchedOffNeverStarts | internal/provider/backup.go:100-133 | a Backup on a listed storage, backups switched off on Instance and cluster, is not started by any sequence of its syncs, Syncs of the Instance and operator reports |
| Progress.ProgressIff | internal/provider/backup_mirror.go:797-801 | two rounds start a wanted backup if and only if backups were not switched off on its listed storage or it was startable at once |

## Left out

- Kubernetes mechanics: patches, resource versions, server-side apply, watches, finalizers and label writes are atomic writes of the shared state; API errors other than "not found" appear only as the `Stop` of a Sync.
- Owner references: that setting a controller reference fails on an operator backup another object controls is not modelled; SyncBackup always takes over.
- Credential Secrets: only whether a storage's Secret yields both keys; the derived Secrets, their projections and the deletion of orphans (which happens before the skip during a restore) are not state.
- The annotation's JSON: absent, unreadable and empty are the same empty map, as every reader treats them.
- Listing by Instance: Backups of an Instance are those whose origin names it, Restores those whose target names it; how the runtime lists them is not part of this model.
- Library behaviour: URL parsing, time formatting and the regular expression engine; the duration grammar and lower-casing are written out.
- Repos.ApplyTransport: the option map is passed and returned instead of updated in place; so it is in Retention.ApplyRetentionConfig, where `done` tells how far the writes got.
- Pitr.SortByCompletion: some stable order is fixed for equal completion times, where the library promises none; no result depends on it.
- Provider.Namespace.DataSourceStorageName: a data source of an unknown type counts as one without its detail section, even if it had a Backup section.
- Provider.Namespace.ApplyBackupSettings: lookups of the backup class and the image catalogue are two yes-or-no answers; provider specification errors count as `Stop`.
- Provenance.RunKeepsBackup: a Backup or operator backup that is deleted and made again under its name counts as another one; nothing is claimed across that.
- Progress.RankDecreases: one round is SyncBackup, Sync and the operator in that order; steps in between are the subject of `ProviderKeepsRank` and of the lemmas per step.
- Deleting clusters and recreating an Instance under a used name, `CleanupBackup`, `CleanupRestore`, `Cleanup`: not among the steps, so nothing is claimed across them.
- `Status`, connection details, service exposure, resources, image selection, engine and proxy configuration: easy members that touch none of the state above.
- `ReconcileDataSource` and the runtime's own writes beyond creating Backups and Restores: outside the repository.
- Backup type options, messages, timestamps of statuses and log entries.
