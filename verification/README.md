# kcp-glbc: a Dafny model of the global load balancer controller

The controller places ingresses behind DNS records, moves workloads between clusters without
taking their addresses out of service too early, publishes the records through Route53, and keeps
unverified custom hosts out of the clusters. This project models the parts of it that carry an
obligation over more than one call, and proves those obligations for all inputs and all runs.

## How the model is laid out

| part | modules | what is modelled |
|---|---|---|
| migration | `Clock`, `Metadata`, `Migration`, `IngressController`, `MigrationRuns`, `MigrationGap`, `UpgradeRuns` | soft finalizers with their delete-at second, the reconcile that runs migration before DNS and stores nothing when a sub-reconciler fails, and whole runs of such reconciles among arbitrary other changes |
| DNS selection | `Endpoints`, `DnsTargets`, `DnsEndpoints`, `DnsRecordObjects`, `HostWatcher`, `LookupCache`, `DnsReconciler` | which addresses a record lists, how its endpoints are recomputed in place through pointers, and which hosts are watched |
| publication | `ZoneStatuses`, `Route53`, `Batches`, `DnsRecordController`, `Publication`, `ExactSync`, `DnsRecordDeletion`, `Leftovers` | zone statuses, one atomic change batch per zone, and runs with edits, a lagging cache, outages and lost status writes; which records stay behind |
| both together | `Published`, `JointRuns`, `JointExample` | the records one controller writes as the specs the other one publishes, and runs of both |
| custom hosts | `Domains`, `CustomHosts`, `HostRuns`, `Transform`, `RouteHosts`, `RouteRequeue` | rules moving between spec, pending annotation and generated copies, the patches shipped to the clusters, the single host of a route, and which routes a changed verification brings back |
| finalizers | `Finalizers` | removal by swapping with the last element while the same backing array is being ranged over |
| shared | `Wrappers`, `Decimal`, `Order`, `Bags` | options, decimal text, Go's string order and sorting, and the bag listed by a map of slices |

Code that changes things step by step is a class or a method with loops; what it leaves behind is
named by a function or a predicate over values, and the theorems are about those. Iterating a Go
map is a loop that picks any remaining key. Calls to the API server, look-ups, the DNS provider and
the clock appear as parameters that may fail, or as values that only move forward. A reconcile
works on a copy (`seen`, `cached`) that may be older than the stored object.

## Where the code departs from its documentation, or from what one would expect

- pkg/migration/workload/migrate.go:86 announces that a malformed delete-at value will be
  regenerated; the code falls through and removes the finalizer at once when the parsed value is in
  the past, as it is for every value that is not a number. `Migration.Migrate` says what happens;
  over runs such values do not arise.
- pkg/apis/kuadrant/v1/types.go:181 calls the endpoints in a zone status the last ones that were
  published successfully; pkg/dns/dns_record.go:119-123 stores them after a failure too.
  `ExactSync.RetryAfterOutage` has the consequence, `Leftovers.PublishedTooLate` a run with it.
- `SetProviderSpecific` (pkg/apis/kuadrant/v1/types.go:239-248) assigns to the loop's copy, so a
  name that is present is never overwritten: `Endpoints.SetThenGet`, `DnsEndpoints.WeightInstalled`.
- The host of a record from an older release is copied to the record before the comparison that
  decides about the update, and removed from the ingress either way
  (pkg/traffic/dns.go:88-94, 148): `DnsReconciler.HostSurvivesUpgrade`, `UpgradeRuns.HostLostForGood`.
- A cluster that returns and leaves again between two stored reconciles keeps its old timer
  (`MigrationGap.TimerOutlivesReturn`), and the last cluster's finalizer is dropped on time although
  the record goes on listing its address (pkg/traffic/dns.go:136-140): `MigrationRuns.DropWhileServed`,
  `MigrationGap.NothingElseToServe`. `MigrationRuns.DrainedExactly` has the exact condition for both.
- An ingress of its own with several addresses is taken for one under advanced scheduling
  (pkg/traffic/ingress.go:69-79); its status, and with it its targets, are then overwritten with the
  managed host: `DnsReconciler.StatusHidesTargets`, `DnsReconciler.TwoAddressesHidden`.
- A route that is being deleted has its shadow and finalizer removed and, if its host may be served,
  written back in the same pass (pkg/traffic/route.go:181-231): `RouteHosts.DeletionEnds`,
  `RouteHosts.DeletionStuck`.
- `StopWatching` reads the empty host as "all hosts" (pkg/dns/host_watcher.go:74), so a watcher of
  the empty host takes the others with it: `HostWatcher.CleanUpAgrees`, `HostWatcher.EmptyHostTakesAll`.
- Deleting a record sends the current spec, not what was published, and a record that "was not
  found" counts as deleted (pkg/dns/dns_record.go:41, 128-150): `DnsRecordDeletion.DeletesCleanly`,
  `DnsRecordDeletion.ReleasedWithLeftovers`, `Leftovers.DeletedTooEarly`, `Leftovers.EmptiedThenDeleted`.
- Pending rules are dropped when scheduling is found to be advanced (pkg/traffic/ingress.go:266-269):
  `HostRuns.RunConserves`, `HostRuns.WaitingLost`, `HostRuns.RuleLost`; for routes `RouteHosts.RunKeepsHost`, `RouteHosts.HostLost`.

- Generated rules are told from the user's by the managed host alone (pkg/traffic/ingress.go:235-240).
  When the DNSRecord is lost and created again, the host changes and the old copies become rules of
  the user: `HostRuns.HostChange`, `HostRuns.CopyKept`.
- `utilmath.Min` starts from zero (pkg/_internal/util/math/slice.go:19-29), so the watcher's back-off
  after a failed look-up (pkg/dns/host_watcher.go:112-119) is never any pause: `LookupCache.MinIsMinimum`,
  `LookupCache.BusyLoop`. Its interval, squared in nanoseconds each time, overflows to zero besides:
  `LookupCache.BackoffCollapses`.

## Model

| member | source | states |
|---|---|---|
| Migration.Migrate | pkg/migration/workload/migrate.go:30-35 | one call, between two clock readings, takes every cluster one step of the timer machine, touches no other annotation, and asks for a wake-up of each pending timer no earlier than its deadline and later by no more than the call took; no wake-up at all while no finalized cluster is being left |
| Migration.EnsureSoftFinalizers | pkg/migration/workload/migrate.go:38-55 | exactly the labelled clusters that are not deleting get the finalizer and lose their timer; all others keep both |
| Migration.EnsureOne | pkg/migration/workload/migrate.go:46-53 | one cluster's activation, and nothing of any other key |
| Migration.GracefulRemoveSoftFinalizers | pkg/migration/workload/migrate.go:58-104 | each finalized cluster gets a deadline, loses its finalizer or goes on waiting, whatever order the annotations come in, with a wake-up bounded on both sides |
| Migration.GracefulRemoveOne | pkg/migration/workload/migrate.go:68-101 | the step of one cluster: a missing deadline is set 120 seconds after the start of the loop, and its wake-up requested for that second, give or take the duration of the call |
| Migration.CheckDeadline | pkg/migration/workload/migrate.go:83-101 | finalizer and deadline go together once the second is reached, and a wake-up is requested for it otherwise, bounded on both sides; a malformed deadline is removed and its parsed value decides |
| Migration.PhasesCompose | pkg/migration/workload/migrate.go:30-35 | activation followed by graceful removal is one step of the machine for every cluster |
| Migration.WaitsOrGoes | pkg/migration/workload/migrate.go:83-101 | a proper delete-at second stays as it is until it is reached, and then goes with the finalizer |
| Migration.MalformedGoes | pkg/migration/workload/migrate.go:83-93 | a delete-at value that is no number, or too large, is gone after one step, and the finalizer with it exactly when the parser's stand-in value is past |
| Metadata.ObjectMeta.AddAnnotation | pkg/_internal/metadata/annotations.go:40-54 | sets the one key |
| Metadata.ObjectMeta.RemoveAnnotation | pkg/_internal/metadata/annotations.go:56-65 | removes the one key |
| Metadata.SyncTargets | pkg/traffic/traffic.go:76-87 | exactly the clusters named by sync-target labels |
| Decimal.FormatThenAtoi | pkg/migration/workload/migrate.go:76-84 | the second written to the annotation is the second read back |
| Decimal.AtoiAccepts | pkg/migration/workload/migrate.go:83-84 | only an optional sign and digits within 64 bits are accepted, and what is no such numeral reads as zero |
| Decimal.AtoiSigned | pkg/migration/workload/migrate.go:83-84 | signed numerals read as that number, and numbers that do not fit as the nearest bound |
| Clock.WorkQueue.AddAfter | pkg/migration/workload/migrate.go:95-100 | a delayed request is due the given seconds after some reading of the clock, in 64-bit arithmetic |
| MigrationRuns.TimerStep | pkg/migration/workload/migrate.go:38-92 | every step of the system either writes a cluster's timer, removes it, or carries it past a reconcile that did not find the cluster active |
| MigrationRuns.TimerOrigin | pkg/migration/workload/migrate.go:70-92 | a stored timer was written by an earlier stored reconcile that saw the cluster deleting, and no stored reconcile since saw it active |
| MigrationRuns.DroppedInTime | pkg/migration/workload/migrate.go:83-93 | a step of the system drops a stored finalizer only while the cluster is deleting and once its stored second has been reached |
| MigrationRuns.FinalizerDropped | pkg/migration/workload/migrate.go:58-93 | in any run with any failures, a stored finalizer is dropped only at a second at least 120 after such a reconcile, while the cluster is deleting |
| MigrationRuns.WakeUpSuffices | pkg/migration/workload/migrate.go:75-101 | each single wake-up asked for a pending timer is enough: a reconcile at or after it that finds timer and deletion mark unchanged drops the finalizer, with floored clocks, whatever else is queued for the object |
| MigrationRuns.RecordExplained | pkg/traffic/dns.go:101-157 | from a successful reconcile on, the stored record is that of the last serving reconcile, listing what it selected, for as long as nobody deletes it; no other endpoints ever take their place |
| MigrationRuns.DrainedWhileWaiting | docs/getting_started/tutorial.md:242 | no downtime: from the start of the timer to the drop, at least twice the TTL later, and as long as every serving reconcile found some live address and nobody deletes the record, the record has endpoints from the first serving reconcile on, and they are exactly the live addresses of the last one, whatever fails in between; the first one is the reconcile that started the timer, unless it had to create the record |
| MigrationRuns.LiveRecord | pkg/traffic/dns.go:101-157 | over every run in which nobody deletes the record and every serving reconcile found a live address, the record is never empty and lists the live addresses of the last serving reconcile |
| MigrationRuns.DrainedExactly | docs/getting_started/tutorial.md:242 | a losing cluster's own address stays out of the record for that time if every serving reconcile in between found the cluster still deleting and some live address to serve instead, and only if so while the cluster goes on listing the address |
| MigrationRuns.DropWhileServed | pkg/traffic/dns.go:136-140 | a drop that finds no live address leaves the losing cluster's address in the record |
| MigrationGap.NothingElseToServe | pkg/traffic/dns.go:136-140 | a concrete run of that kind: the only cluster leaves, and 120 seconds later its finalizer goes while its address stays |
| MigrationRuns.SelectedExclusive | pkg/traffic/dns.go:101-139 | an address only one cluster stands for is selected exactly unless that cluster is deleting and some live address exists |
| MigrationGap.TimerOutlivesReturn | pkg/migration/workload/migrate.go:38-55 | a concrete run in which the finalizer is dropped in the second its address leaves the record, because the cluster's return was seen by no stored reconcile |
| IngressController.ReconcileIngress | pkg/reconciler/ingress/ingress_reconciler.go:20-89 | migration first, then DNS on the migrated marks; succeeds exactly when no sub-reconciler fails; pending timers have their wake-up; the cascade finalizer is added while the ingress lives, and the syncer finalizers and its watchers go once it is deleted and all succeeded; the object comes back in five seconds when the DNS step asks for it and, while nothing else is waited for, only then |
| IngressController.GiveFree | pkg/reconciler/ingress/ingress_reconciler.go:73-84 | removes one cascade finalizer, every syncer finalizer and every watcher of the key, and keeps all other finalizers as a multiset |
| IngressController.GivenFreeMeans | pkg/reconciler/ingress/ingress_reconciler.go:73-84 | spelled out: whatever surrounds "workload.kcp.dev/syncer-", the finalizer goes, "kuadrant.dev/cascade-cleanup" goes once, and any other finalizer stays as often as it was there |
| IngressController.Process | pkg/reconciler/ingress/controller.go:288-332 | is a step of the system, and says exactly when the ingress is stored (every sub-reconciler succeeded, the copy was current, and nothing was to be written or the update did not fail), when the call succeeds, and what is stored: the copy with its migrated marks, without a managed host that was moved to the record, with the new status only if nothing else changed, and otherwise as it was seen; finalizers and watchers as in a reconcile; pending timers have their wake-up in any case |
| IngressController.StoresTarget | pkg/reconciler/ingress/controller.go:311-321 | what is stored has the migrated finalizers and timers |
| DnsTargets.GetDNSTargets | pkg/traffic/ingress.go:135-158 | in whatever order, each target is listed exactly as often as entries of its cluster ask for it: for their host name, or for their address if they have none |
| DnsTargets.EntryListed | pkg/traffic/ingress.go:142-155 | no entry of any cluster is forgotten, and no other target is listed |
| DnsTargets.SelectTargets | pkg/traffic/dns.go:101-126 | succeeds exactly when all live hosts resolve, groups live and dying addresses by target as the reference does, and watches the live hosts |
| DnsTargets.ServedWhateverOrder | pkg/traffic/dns.go:102-139 | the order of the targets does not change what is served |
| DnsTargets.ActiveMember | pkg/traffic/dns.go:102-126 | an address is live exactly when some target that is not deleting stands for it |
| DnsTargets.ChosenServes | pkg/traffic/dns.go:136-140 | the dying targets are used exactly when no live target has an address |
| DnsReconciler.Reconcile | pkg/traffic/dns.go:52-180 | every outcome of the step for the stored record; when it must fail, that otherwise only a needed update can fail, and when a failure stops the later reconcilers; the watchers afterwards, and the ingress status and result |
| DnsReconciler.ReconcileExisting | pkg/traffic/dns.go:82-180 | the same for a record that exists, with its host taken from an old ingress annotation if need be |
| DnsReconciler.StoreRecord | pkg/traffic/dns.go:148-157 | an update is issued exactly when the copied record differs, and stores the copy |
| DnsReconciler.StepCarriesHealth | pkg/traffic/dns.go:144-147 | the record that a step writes carries the health annotations of the traffic object, and keeps what other health data it had |
| DnsReconciler.StatusChanges | pkg/traffic/dns.go:165-177 | in terms of the status's own fields, exactly when the step sets it to the managed host, exactly when it comes back in five seconds, and that it is kept otherwise |
| DnsReconciler.OwnStatus | pkg/traffic/ingress.go:64-80 | scheduling is not advanced exactly for an object without per-cluster status whose one entry has an address and no host name, or a host name other than the managed host |
| DnsReconciler.OwnStatusStays | pkg/traffic/dns.go:165 | such a status is never changed by a step, whatever the calls do |
| DnsReconciler.StatusSetOnce | pkg/traffic/dns.go:165-177 | a status that has been set to the managed host is never changed by a later step, and does not change whether scheduling counts as advanced |
| DnsReconciler.StatusHidesTargets | pkg/traffic/ingress.go:199-224 | setting it leaves the targets as they were if and only if there are per-cluster statuses; otherwise the managed host becomes the only target |
| DnsReconciler.TwoAddressesHidden | pkg/traffic/ingress.go:64-80 | an ingress with two addresses and no per-cluster status is such a case |
| DnsReconciler.ComputedOnce | pkg/traffic/dns.go:101-142 | for distinct served addresses the computed endpoints do not depend on the order in which statuses and groups are ranged over |
| DnsReconciler.SecondStepQuiet | pkg/traffic/dns.go:148 | when nothing has changed, a second step leaves the record as it is and issues no update, whatever order the clusters come in |
| DnsReconciler.SelectAndWatch | pkg/traffic/dns.go:101-134 | after the clean-up the key's watched hosts are the live hosts |
| DnsReconciler.ComputeEndpoints | pkg/traffic/dns.go:141-142 | the recomputed copy lists the served addresses and keeps provider data |
| DnsReconciler.SameMarks | pkg/traffic/dns.go:94-105 | removing the generated-host annotation changes nothing the selection looks at |
| DnsReconciler.HostSurvivesUpgrade | pkg/traffic/dns.go:85-96 | an old record's host is lost by a step exactly when the record already had the endpoints and health annotations the step would give it |
| DnsReconciler.HostLostStep | pkg/traffic/dns.go:85-91 | a step that finds the host in neither place fails and leaves the record alone |
| UpgradeRuns.HostLostForGood | pkg/traffic/dns.go:85-91 | over every run in which nobody restores it, every reconcile then fails and stores nothing |
| DnsReconciler.HostLostExample | pkg/traffic/dns.go:85-96 | a record, an ingress and a step that lose the host |
| DnsEndpoints.WeightBounds | pkg/traffic/dns.go:301-307 | weights lie between 1 and 120 and never grow with the group |
| DnsEndpoints.GroupTotals | pkg/traffic/dns.go:292-307 | a group of n new endpoints weighs more than 120 - n and at most 120, so two groups differ by less than the larger size |
| DnsEndpoints.OrderIndependent | pkg/traffic/dns.go:267-289 | every order of ranging over the groups, and every order of targets within them, gives the same endpoint list |
| DnsEndpoints.Idempotent | pkg/traffic/dns.go:253-290 | for distinct targets a second computation on its own result is the identity |
| DnsEndpoints.WeightInstalled | pkg/traffic/dns.go:270-280 | an endpoint carries its group's weight exactly when it had none, or that one |
| DnsEndpoints.WeightGoesStale | pkg/traffic/dns.go:280 | an address that was alone keeps 120 when its group doubles and 60 is due |
| DnsEndpoints.TakesOver | pkg/traffic/dns.go:254-281 | a written endpoint keeps identifier, labels and provider data of the last endpoint that was identified and had its address, and gets the weight only if that had none |
| DnsEndpoints.StartsAnew | pkg/traffic/dns.go:270-281 | for any other address it is a new endpoint with that address as identifier and the weight alone |
| DnsRecordObjects.DnsRecordObject.BuildIndex | pkg/traffic/dns.go:254-261 | leads from each address to the last endpoint that has it |
| DnsRecordObjects.CollectEndpoints | pkg/traffic/dns.go:266-283 | one endpoint reference per target in any map order; endpoints of distinct targets do not interfere through shared pointers |
| DnsRecordObjects.DnsRecordObject.SetEndpointFromTargets | pkg/traffic/dns.go:253-290 | in place: one endpoint per target, in address order, refreshed from the endpoint that address had |
| Order.SortedUnique | pkg/traffic/dns.go:285-287 | a sorted listing is determined by the bag it lists |
| Endpoints.EndpointObject.SetProviderSpecific | pkg/apis/kuadrant/v1/types.go:232-254 | only an absent name is stored |
| Endpoints.EndpointObject.DeleteProviderSpecific | pkg/apis/kuadrant/v1/types.go:266-283 | removes every pair of the name and tells whether there was one |
| Endpoints.SetThenGet | pkg/apis/kuadrant/v1/types.go:232-264 | a written value is read back if and only if the name was absent or had that value already; other names are untouched |
| Endpoints.FindSays | pkg/apis/kuadrant/v1/types.go:256-264 | a property is read from the first pair of that name, and absent only if there is none |
| Endpoints.DeleteThenGet | pkg/apis/kuadrant/v1/types.go:256-283 | a deleted name is not found, all others read as before |
| Endpoints.DeleteThenSetThenGet | pkg/apis/kuadrant/v1/types.go:232-283 | deleting first makes every write effective |
| HostWatcher.HostsWatcher.ListHostRecordWatchers | pkg/dns/host_watcher.go:31-39 | the key's watchers in registry order |
| HostWatcher.HostsWatcher.StartWatching | pkg/dns/host_watcher.go:42-68 | adds exactly one watcher, unless the pair is watched; no pair ever occurs twice |
| HostWatcher.HostsWatcher.StopWatching | pkg/dns/host_watcher.go:71-81 | drops the matching watchers, keeps the rest in order, and cancels each dropped one exactly once |
| HostWatcher.CleanUp | pkg/traffic/dns.go:128-134 | the registry after stopping unwanted watchers one by one, each cancelled exactly once |
| HostWatcher.CleanUpAgrees | pkg/traffic/dns.go:128-134 | the key's watched hosts are then the wanted ones if and only if no unwanted watcher of the empty host stood next to wanted hosts |
| HostWatcher.EmptyHostTakesAll | pkg/dns/host_watcher.go:71-81 | a registry of that kind, in which the wanted watcher is dropped |
| HostWatcher.OthersStay | pkg/traffic/dns.go:128-134 | the watchers of other keys are untouched |
| LookupCache.RecordWatcher.UpdateRecords | pkg/dns/host_watcher.go:136-161 | the cached addresses are the latest ones, a change is reported exactly when they differ, and no cached TTL is below the latest |
| LookupCache.RecordWatcher.Watch | pkg/dns/host_watcher.go:102-134 | over any sequence of look-ups, failed ones included, the reports are exactly the changes of the address sequence, and the pauses after failures are the code's minimum of 5 minutes and an interval that is squared each time, in 64-bit arithmetic, and reset by a success |
| LookupCache.SilentRun | pkg/dns/host_watcher.go:123-161 | no report was made if and only if the addresses never changed |
| LookupCache.Min | pkg/_internal/util/math/slice.go:19-29 | the loop gives the least of the values and zero |
| LookupCache.MinIsMinimum | pkg/_internal/util/math/slice.go:19-29 | the result is zero or one of the values and below all of them, and it is one of them, their minimum, if and only if some value is not positive |
| LookupCache.BackoffCollapses | pkg/dns/host_watcher.go:113-115 | the interval stored after each number of failures in a row: 2 seconds, two huge values, and zero from the third failure on |
| LookupCache.BusyLoop | pkg/dns/host_watcher.go:111-119 | every failed look-up, the first included, is followed by the next one with no pause at all |
| ZoneStatuses.RecordIsAlreadyPublishedToZone | pkg/dns/dns_record.go:155-169 | the first Succeeded condition of the first status of the zone that has one decides |
| ZoneStatuses.EndpointsFromZoneStatus | pkg/dns/aws/dns.go:247-254 | the endpoints of the first status with the zone's ID |
| ZoneStatuses.MergeConditions | pkg/dns/dns_record.go:197-221 | for any list of updates: each overwrites the first condition of its type that differs, and those without one are appended |
| ZoneStatuses.MergeDecides | pkg/dns/dns_record.go:197-225 | whatever was stored, readers see the last update of a type that was there and the first of one that was not; types without an update look as before |
| ZoneStatuses.TransitionMoves | pkg/dns/dns_record.go:202-213 | the transition time of a condition moves exactly when its status or reason does, and the condition then is the update, message included |
| ZoneStatuses.MergeStatuses | pkg/dns/dns_record.go:173-189 | every status of an updated zone is renewed and unknown zones are appended |
| ZoneStatuses.MergedStatus | pkg/dns/dns_record.go:173-189 | the status found for a zone afterwards, in terms of the one before and the zone's update |
| ZoneStatuses.MergedFit | pkg/dns/dns_record.go:173-221 | one Succeeded condition per configured zone is an invariant of merging |
| ZoneStatuses.PublishedToStatus | pkg/dns/dns_record.go:155-169 | for such statuses the flag of a zone can be read off the status with its ID |
| ZoneStatuses.SlicesEqualMeans | pkg/dns/dns_record.go:232-240 | for such statuses "no update necessary" means equal |
| Route53.Provider.UpdateRecord | pkg/dns/aws/dns.go:147-190 | the loops build one batch from the spec and the stale endpoints, an unusable endpoint fails before anything is sent, and an empty batch is not sent |
| Route53.CollectChanges | pkg/dns/aws/dns.go:150-159 | one change per spec endpoint, and the identities to expect |
| Route53.CollectDeletes | pkg/dns/aws/dns.go:161-176 | one delete per previously published endpoint whose identity is gone |
| Route53.StaleMember | pkg/dns/aws/dns.go:167-168 | stale are exactly the previous endpoints whose identity is not in the spec |
| Route53.StaleByName | pkg/apis/kuadrant/v1/types.go:80-85 | where endpoints have no identifier, they are stale exactly when their name is gone from the spec |
| Route53.StaleByIdentifier | pkg/apis/kuadrant/v1/types.go:80-85 | where they have one, exactly when that is gone |
| Route53.NotMissing | pkg/dns/dns_record.go:41-42 | a batch that deletes what is there with other values does not count as "was not found", whatever it writes |
| Batches.PublishableChanges | pkg/dns/aws/dns.go:192-202 | a batch can be built if and only if every endpoint is an A record with a name and targets |
| Batches.RecordAsAsked | pkg/dns/aws/dns.go:204-242 | field by field, the record that is sent for an endpoint: time to live, addresses, the parsed weight or zero, and the first value given for each other property |
| Batches.UpsertsApply | pkg/dns/aws/dns.go:150-159 | upserts are always accepted and merge the desired records into the zone |
| Batches.DeletesApply | pkg/dns/aws/dns.go:167-176 | deletes are accepted if and only if every record is there as described and named once, and remove just those |
| Batches.NoConflict | pkg/dns/aws/dns.go:150-176 | a batch never both writes and deletes an identity or a record |
| Batches.Publication | pkg/dns/aws/dns.go:147-190 | when a whole call succeeds, that a failed one changes nothing, and the zone a successful one leaves |
| Batches.ExactStep | pkg/dns/aws/dns.go:161-176 | the previous endpoints are exactly replaced if and only if none of them shares its identity but not its record with the spec |
| Batches.ManagedCoherent | pkg/apis/kuadrant/v1/types.go:80-85 | endpoints as the ingress controller writes them never do |
| DnsRecordController.ConditionSays | pkg/dns/dns_record.go:82-118 | the condition of a zone tells the outcome, its reason, the time, and whether something was to be replaced |
| DnsRecordController.Controller.PublishRecordToZones | pkg/dns/dns_record.go:69-126 | zone by zone: skipped, or ensured with the outcome as its condition and the spec as its endpoints, then merged |
| DnsRecordController.Controller.Reconcile | pkg/dns/dns_record.go:51-59 | status and observed generation afterwards, and the hosted zones; the copy has its finalizer |
| DnsRecordController.Controller.Process | pkg/dns/controller.go:101-134 | a changed status is stored unless the write fails or the cached version was not the newest; then the object, which is one more version of the same spec and status exactly when its finalizer was missing and nothing has failed |
| DnsRecordController.PublishZone | pkg/dns/dns_record.go:69-126 | zones do not interfere: what a pass does to one zone and its update |
| DnsRecordController.ReconciledZone | pkg/dns/dns_record.go:55-59 | afterwards the newest generation is observed, the zone is published exactly when it was skipped or its batch accepted, and the spec is its stored endpoints |
| Publication.RunPass | pkg/dns/controller.go:101-134 | the code is the Pass step of the step system, followed by an edit that leaves the spec alone if the finalizer had to be stored |
| Publication.PassKeeps | pkg/dns/aws/dns.go:150-176 | no pass takes a record of the spec it reads out of a zone, failed or not |
| Publication.PublishedIsLive | pkg/dns/dns_record.go:55-126 | safety: in every reachable state whose newest generation is observed, a zone with a True condition has every endpoint of the spec live, after any edits, outages, lost writes and late reads; of two with one name and identifier the later; for distinct ones each has, under its name and identifier, a record with its time to live, its addresses, and the weight, region, failover and health check its provider data ask for |
| Publication.TwoPasses | pkg/dns/dns_record.go:77-125 | two undisturbed passes publish the spec to a zone if and only if every endpoint can be published |
| Publication.Converges | pkg/dns/dns_record.go:77-125 | from the end of any run the same holds for all zones, and every further pass makes no provider call and changes nothing |
| ExactSync.ProperStep | pkg/dns/aws/dns.go:161-176 | publishing one managed endpoint list over another is never rejected and leaves exactly the new one besides foreign records |
| ExactSync.CalmRunExact | pkg/dns/aws/dns.go:161-176 | over every run in which each reconcile that does not skip the zone reads the newest version, meets no outage and gets its status stored, the zone is always foreign records plus the status's endpoints, and no batch is rejected |
| Published.WrittenIsProper | pkg/traffic/dns.go:267-289 | for distinct addresses under one managed host, the endpoints the ingress controller writes can all be published, differ in their record key, and so meet what the exact zone needs; they stay identified by address |
| Published.WrittenEndpoint | pkg/traffic/dns.go:270-281 | each written endpoint has the managed host, type A, one address, that address as its identifier, and a time to live of 60 seconds, the one that the migration counts twice |
| Published.WeightArrives | pkg/dns/aws/dns.go:219-226 | the weight of a new endpoint reaches Route53 as computed, never as the fall-back zero |
| JointRuns.CoupledAtStart | pkg/dns/dns_record.go:69-126 | a freshly created record and its untouched zone belong together |
| JointRuns.AlwaysCoupled | pkg/traffic/dns.go:253-290 | over every joint run with distinct served addresses and a calm DNSRecord controller, the record is its newest version's spec, and the zone holds what the status says next to foreign records |
| JointRuns.StaysFree | pkg/dns/aws/dns.go:161-176 | from a reconcile of the newest version on, the zone's remembered endpoints stay free of an address the record is free of |
| JointRuns.RemembersRecord | pkg/dns/dns_record.go:119-123 | from such a reconcile on, the zone's remembered endpoints are always a list the record had at that point or later |
| JointRuns.ServesLiveAt | pkg/dns/aws/dns.go:161-176 | while every serving reconcile finds something live, the hosted zone then answers for the managed host, and serves exactly such a list: the live addresses of one serving reconcile |
| JointRuns.ZoneDrained | docs/getting_started/tutorial.md:242 | no downtime in the hosted zone: once the DNSRecord controller has got to work after the start of the timer, and up to the drop, nothing under the managed host resolves to the losing cluster's address, and the host is answered with exactly the live addresses of a serving reconcile; if it gets to work within one TTL, that is for at least one TTL |
| JointExample.PremisesMet | docs/getting_started/tutorial.md:242 | a concrete joint run that meets all the premises of this |
| ExactSync.RetryAfterOutage | pkg/dns/dns_record.go:119-123 | after one failed attempt the retry ends exact if and only if nothing had to be deleted |
| Leftovers.PublishedTooLate | pkg/dns/dns_record.go:119-123 | a run that ends published, with an address in the zone that the spec no longer has |
| DnsRecordDeletion.DeleteRecord | pkg/dns/dns_record.go:128-150 | the zones after the deletion, and when the finalizer goes |
| DnsRecordDeletion.DeleteBatch | pkg/dns/aws/dns.go:147-190 | when the deletion of a spec from a zone succeeds, what it removes, and, for distinct endpoints, that "was not found" is said exactly when one of them is not there |
| DnsRecordDeletion.DeletesCleanly | pkg/dns/dns_record.go:40-48 | in one zone, for every spec, the object is released with nothing of it left behind if and only if the zone was up to date with the spec or held nothing of it |
| DnsRecordDeletion.ReleasedWithLeftovers | pkg/dns/dns_record.go:41-46 | a spec endpoint that was never published makes the deletion a no-op that still releases the object |
| Leftovers.DeletedTooEarly | pkg/dns/dns_record.go:40-48 | a run after which deleting the record releases it and leaves its published address in the zone |
| Leftovers.EmptiedThenDeleted | pkg/dns/dns_record.go:40-48 | a run in which the record is emptied before it is deleted: nothing is sent, and the address stays |
| Domains.WalkIsSubdomain | pkg/reconciler/route/controller.go:486-496 | the walk up the labels accepts exactly the domain and names ending in a dot and the domain |
| Domains.VerifiedIsSubdomain | pkg/traffic/traffic.go:95-109 | a host is verified exactly when it lies under some verified domain in that sense |
| Domains.ServedIsCovered | pkg/traffic/ingress.go:242 | a host may be served exactly when it is empty or some verified domain covers it |
| CustomHosts.IngressObject.ProcessCustomHosts | pkg/traffic/ingress.go:226-320 | when it fails, and otherwise the spec, pending rules, label and annotation it leaves, with and without advanced scheduling |
| CustomHosts.SplitRules | pkg/traffic/ingress.go:235-253 | the loop over the spec: verified rules with their copies, and the rules that must wait |
| CustomHosts.SplitPending | pkg/traffic/ingress.go:289-302 | the loop over the pending rules: copies, freed rules, and the rules that go on waiting |
| HostRuns.Conserved | pkg/traffic/ingress.go:235-317 | the user's rules, in the spec and pending together, are the same multiset after the pass |
| HostRuns.OneCopyEach | pkg/traffic/ingress.go:249-252 | the generated rules are exactly one copy per rule of the user, and what they say apart from the host is, as a multiset, what the user's rules say |
| HostRuns.OnlySafeHosts | pkg/traffic/ingress.go:241-252 | every rule's host is the generated host, empty, or covered by a verified domain |
| HostRuns.ServedOrWaiting | pkg/traffic/ingress.go:235-317 | each rule of the user is in the spec exactly when its host is empty or covered by a verified domain, and waits exactly when it is not |
| HostRuns.LabelTells | pkg/traffic/ingress.go:255-315 | the label is set exactly while some rule has a host that no verified domain covers |
| HostRuns.Fixpoint | pkg/traffic/ingress.go:280-317 | a second pass keeps spec and pending rules as multisets, and from then on nothing changes |
| HostRuns.StepConserves | pkg/traffic/ingress.go:266-269 | while the managed host stays, a stored pass conserves the user's rules if and only if it does not find rules pending under advanced scheduling |
| HostRuns.HostChange | pkg/traffic/ingress.go:226-240 | whatever the managed host was before, a stored pass conserves the user's rules if and only if it drops no pending ones, and the host is the same or no rule of the spec was generated under either |
| HostRuns.CopyKept | pkg/traffic/ingress.go:235-240 | for any two managed hosts, a spec with one rule and its copy whose copy a pass under the other host takes for a rule of the user |
| HostRuns.RunConserves | pkg/traffic/ingress.go:226-320 | while the managed host stays, a run does so if and only if each of its passes does; lost rules never come back |
| HostRuns.RunKeeps | pkg/traffic/ingress.go:226-320 | across changes of the managed host, a run whose passes all conserve the rules does; the converse fails |
| HostRuns.AdvancedThroughout | pkg/traffic/ingress.go:186-194 | under advanced scheduling throughout, with nothing pending, a run conserves the rules if and only if its last host is the first one or no rule of the spec was generated under either, whatever the hosts in between |
| HostRuns.ThereAndBack | pkg/traffic/ingress.go:186-194 | a run of two passes that conserves the rules although its first pass does not |
| HostRuns.WaitingLost | pkg/traffic/ingress.go:266-269 | two passes lose a rule whenever one may not be served in the first and scheduling is advanced in the second |
| HostRuns.RuleLost | pkg/traffic/ingress.go:266-269 | a concrete case of that |
| HostRuns.AdvancedFirst | pkg/traffic/ingress.go:186-194 | scheduling that is advanced at first and then never again loses nothing |
| Transform.IngressObject.Transform | pkg/traffic/ingress.go:164-197 | diffs for exactly the current sync targets, none without patches, and the old spec put back under advanced scheduling |
| Transform.IngressObject.ApplyTransformPatches | pkg/traffic/traffic.go:111-129 | old diffs go, new ones come, other annotations stay |
| Transform.RoundTrip | pkg/traffic/ingress.go:164-182 | applying the patches (section 4.3 of RFC 6902) to the old spec gives the reconciled rules and TLS, if and only if these are not nil or the old ones were empty |
| Transform.SameOnTargets | pkg/traffic/ingress.go:164-197 | on a sync target the reconciled rules take effect if the spec is stored, and if it is only shipped exactly when they are not nil or there were none before; likewise for TLS |
| Transform.TargetsServeSafely | pkg/traffic/ingress.go:183-194 | with the user's spec stored untouched, every sync target still serves only safe hosts, whatever happens to the TLS entries |
| RouteHosts.RouteObject.ProcessCustomHosts | pkg/traffic/route.go:169-237 | when it fails and how, and otherwise host, pending annotation, label, finalizer and shadow route, for living and deleted routes |
| RouteHosts.PassSafe | pkg/traffic/route.go:192-235 | the processed host may be served, the user's host is kept, the route is pending exactly when it may not be served, and a second pass changes nothing |
| RouteHosts.DeletionEnds | pkg/traffic/route.go:181-231 | a deleted route is rid of shadow and finalizer exactly when its host may not be served; otherwise every pass writes them back |
| RouteHosts.DeletionStuck | pkg/traffic/route.go:181-231 | a deleted route of that kind, its managed host no longer set, which a pass leaves exactly as it was |
| RouteHosts.HostSurvives | pkg/traffic/route.go:192-235 | over any sequence of verification lists outside advanced scheduling the user's host is never lost and the last list alone decides |
| RouteHosts.ShadowStays | pkg/traffic/route.go:192-231 | a living route keeps its shadow and finalizer, and gets them as soon as its host may be served |
| RouteHosts.KeptUnderScheduling | pkg/traffic/route.go:94-118 | with the spec put back, the user's host is lost exactly when only the annotation knew it and it becomes verified; then only the generated host is left |
| RouteHosts.RunKeepsHost | pkg/traffic/route.go:94-118 | over any mixture of scheduling modes the host is kept if and only if no pass loses it |
| RouteHosts.HostLost | pkg/traffic/route.go:94-118 | a route and a pass that lose the host |
| RouteRequeue.RoutesFromDomainVerification | pkg/reconciler/route/controller.go:380-412 | exactly the labelled routes whose pending host matches after trimming and lower-casing, for any letter-by-letter lower-casing |
| RouteRequeue.SpaceExactly | pkg/reconciler/route/controller.go:382-404 | trimming removes exactly Unicode's white space |
| RouteRequeue.CoveredSelected | pkg/reconciler/route/controller.go:382-404 | a host under a domain is matched if and only if it is the domain, or the domain is blank or does not begin with white space |
| RouteRequeue.FlipSelects | pkg/reconciler/route/controller.go:404 | a host without white space that a changed verification frees is matched by it |
| RouteRequeue.FreedRoutesRequeued | pkg/reconciler/route/controller.go:393-411 | no pending route freed by the change is forgotten |
| Finalizers.FinalizedObject.AddFinalizer | pkg/_internal/metadata/finalizers.go:9-16 | appends an absent finalizer, in place or in a new array |
| Finalizers.FinalizedObject.RemoveFinalizer | pkg/_internal/metadata/finalizers.go:18-28 | swaps the first occurrence with the last element, and leaves the cells behind an occurrence alone |
| Finalizers.SwapRemovedBag | pkg/_internal/metadata/finalizers.go:18-28 | one occurrence goes and everything else stays, as a multiset |
| Finalizers.MentionsParts | pkg/reconciler/ingress/ingress_reconciler.go:80 | a finalizer mentions the marker exactly when it is something, the marker, and something |
| Finalizers.RemoveFinalizersWhere | pkg/reconciler/ingress/ingress_reconciler.go:79-83 | ranging over the slice while it is being shortened in place still removes every match, repeated ones included, and keeps the rest as a multiset |
| Finalizers.RemoveFinalizersMentioning | pkg/reconciler/ingress/ingress_reconciler.go:79-83 | the same for the finalizers that mention the syncer's name |

## Left out

- API clients, informers, event handlers, metrics, logging and configuration: plumbing around the modelled steps; their failures are parameters.
- The work queue and its rate limiting: only delayed requests are modelled; retries after an error are not, so no liveness is claimed after a provider failure, which `reconcile` does not return.
- Annotation keys and JSON values: keys are families of constructors, with cluster names free of `/`, and encoded statuses, rules and patches are values; a malformed one is a case of its own where the code has a branch for it.
- IngressController.ReconcileIngress: the certificate and host reconcilers after DNS are flags that say whether they fail or change the object; their changes touch none of the annotations the migration reads. The hosts are modelled on their own in `CustomHosts` and `HostRuns`.
- Migration.CheckDeadline: a delay of more than 292 years wraps around in `time.Duration`, and so would a call that takes that long; the promise about its wake-up stops there.
- Clock.Instant: readings are bounded so that their seconds, and 120 more, fit into 64 bits.
- IngressController.Next: between reconciles anything may change but the delete-at annotations, which only this code writes; the DNS record may be deleted but its endpoints' addresses are not edited by others. The spec of an ingress is not part of this world.
- IngressController.Process: the transform before the write is modelled on its own, in `Transform`; here a flag says whether anything else in the object has changed.
- CustomHosts.IngressObject.ProcessCustomHosts: the call of `RemoveTLS` in it is left out. `Ingress.RemoveTLS` slices the removal list in place of the entry's hosts (pkg/traffic/ingress.go:117-132), can panic and keeps no removed-host promise; TLS entries are therefore no part of `CustomHosts` and only shipped in `Transform`. `Route.RemoveTLS` is left out with it.
- AddTLS, certificates, secrets, host generation and name-server look-ups: single-branch facts or external behaviour.
- Routes other than in `RouteHosts` and `RouteRequeue`: their status targets and their part in migration.
- Host targets that are being deleted: the fall-back lists the host name itself as an address; the claims about one cluster's address speak of IP targets.
- DnsEndpoints.Idempotent: for distinct targets. Two targets that share an address get the same endpoint twice if the address has one, and two new endpoints otherwise, and a weight once set is kept; for such groups only the listed addresses are proved. The same holds for `DnsReconciler.SecondStepQuiet` and the joint runs.
- `ingressesFromDomainVerification`: stops at the first ingress under advanced scheduling (pkg/reconciler/ingress/controller.go:362-370), so completeness is proved for routes.
- ZoneStatuses.SlicesEqual: compares conditions as multisets; this is the comparison by sorted type for lists with at most one condition of a type, which is what gets stored.
- DnsRecordController.Publish: all conditions of one pass carry the same time, and the text of a provider's error is not kept.
- Health checks of a DNSRecord: publication, exactness and the joint runs are claimed for records without them. With them, the ID of a health check is written into the endpoints of the spec, and of the status, after these were sent (pkg/dns/aws/health.go:42-46); their failure keeps the status from being stored, like a failed write; their configuration and the Route53 side are not modelled.
- Publication.Converges: the configured zones are assumed to exist at the provider, which rejects a batch only for deleting a record that is absent or has other values, or during an outage; configured zones have distinct IDs.
- ExactSync.CalmRunExact: the spec's records belong to one managed host and to nobody else, and are all different; `Published.WrittenIsProper` shows that the ingress controller writes them so for distinct addresses.
- DnsRecordDeletion.OneZone: one zone, as pkg/dns/controller.go:40-51 configures; the method itself loops over all.
- LookupCache.RecordWatcher.Watch: the pause after a successful look-up, which an unknown function of the first cached record's TTL gives, its failure when there is no such record, and the goroutine's races on the registry.
- JointRuns.ZoneDrained: when the DNSRecord controller gets to work is a premise, as nothing bounds it; the record is not deleted during the run.
- IP addresses are compared as canonical text, where the code treats an IPv4 address and its IPv6 form as equal.
- HostRuns.HostChange: for managed hosts that no pending rule of the user names; a new managed host is generated at random.
- Deleting ingresses without a generated host: their pass takes rules with an empty host for generated ones; nothing more is claimed about them.
