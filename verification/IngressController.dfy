/** One ingress reconcile as a whole (`process` in pkg/reconciler/ingress/controller.go and
    `reconcile` in pkg/reconciler/ingress/ingress_reconciler.go), and the step system made of
    such reconciles and of everything else that happens to the stored objects. */
module IngressController {
  import opened Wrappers
  import opened Clock
  import opened Metadata
  import opened Finalizers
  import opened Migration
  import opened DnsTargets
  import opened HostWatcher
  import opened DnsReconciler

  /** A stored ingress, as far as migration and DNS look at it. */
  datatype Ingress = Ingress(
    deleted: bool, labels: Labels, annotations: Annotations, workspace: Cluster,
    syncStatus: map<Cluster, seq<LoadBalancer>>, status: seq<LoadBalancer>)

  /** The API server's copy of an ingress and of its DNS record. */
  datatype World = World(ingress: Ingress, record: Option<DnsRecord>, clock: Instant)

  /** A reconcile works on a copy `seen` that need not be the stored object any more. */
  datatype Event =
    | Environment
    | Reconciled(seen: Ingress, at: Instant, migrated: Annotations, targets: seq<Target>, calls: Calls,
                 verdict: Verdict, start: Instant, end: Instant, persisted: bool)

  /** What an update stores: the migrated marks; the later reconcilers touch other keys only. */
  ghost predicate Stores(seen: Ingress, migrated: Annotations, after: Ingress) {
    after.deleted == seen.deleted &&
    forall c: Cluster ::
      Lookup(after.annotations, SoftFinalizer(c)) == Lookup(migrated, SoftFinalizer(c)) &&
      Lookup(after.annotations, DeleteAt(c)) == Lookup(migrated, DeleteAt(c))
  }

  ghost predicate Next(w: World, e: Event, w': World) {
    match e
    case Environment =>
      // anything may change, but nobody else writes a delete-at second or a record's endpoints
      w.clock <= w'.clock && (w'.record == w.record || w'.record == None) &&
      forall c: Cluster ::
        DeleteAt(c) in w'.ingress.annotations ==>
          Lookup(w'.ingress.annotations, DeleteAt(c)) == Lookup(w.ingress.annotations, DeleteAt(c))
    case Reconciled(seen, at, migrated, targets, calls, verdict, start, end, persisted) =>
      w.clock <= start && end <= w'.clock &&
      Migrated(seen.labels, seen.annotations, migrated, at, start, end) &&
      Lists(targets, Statuses(seen.syncStatus, seen.status, seen.workspace)) &&
      DnsStep(seen.deleted, migrated, targets, calls, w.record, w'.record, verdict) &&
      if persisted then seen == w.ingress && verdict != Failed && Stores(seen, migrated, w'.ingress)
      else w'.ingress == w.ingress
  }

  class Store {
    var ingress: Ingress
    const dns: DnsApi

    constructor (ingress: Ingress, dns: DnsApi)
      ensures this.ingress == ingress && this.dns == dns
    {
      this.ingress, this.dns := ingress, dns;
    }

    function Snapshot(clock: WallClock): World
      reads this, dns, clock
    {
      World(ingress, dns.record, clock.now)
    }
  }

  const CASCADE_CLEANUP := "kuadrant.dev/cascade-cleanup"
  const SYNCER_FINALIZER := "workload.kcp.dev/syncer-"

  /** The finalizers that stay when the ingress is given free. */
  ghost predicate GivenFree(before: seq<string>, after: seq<string>) {
    (forall v :: v in after ==> !Mentions(v, SYNCER_FINALIZER)) &&
    forall v :: !Mentions(v, SYNCER_FINALIZER) ==>
      multiset(after)[v] == multiset(SwapRemoved(before, CASCADE_CLEANUP))[v]
  }

  /** The finalizers after a reconcile: held while the ingress lives, given up once a deleted one
      has been reconciled without failure. */
  ghost predicate HandedOn(deleted: bool, succeeded: bool, before: seq<string>, after: seq<string>) {
    if !deleted then after == before + (if CASCADE_CLEANUP in before then [] else [CASCADE_CLEANUP])
    else if succeeded then GivenFree(before, after)
    else after == before
  }

  /** Spelled out: whatever surrounds the syncer's marker, the finalizer goes; the cleanup finalizer
      goes once; any other stays as often as it was there. */
  lemma GivenFreeMeans(before: seq<string>, after: seq<string>)
    requires GivenFree(before, after)
    ensures forall a: string, b: string :: a + "workload.kcp.dev/syncer-" + b !in after
    ensures forall v :: (forall a: string, b: string :: v != a + "workload.kcp.dev/syncer-" + b) ==>
      multiset(after)[v] == multiset(before)[v] - if v == "kuadrant.dev/cascade-cleanup" && v in before then 1 else 0
  {
    forall a: string, b: string
      ensures a + "workload.kcp.dev/syncer-" + b !in after
    {
      assert Parts(a + SYNCER_FINALIZER + b, a, SYNCER_FINALIZER, b);
      MentionsParts(a + SYNCER_FINALIZER + b, SYNCER_FINALIZER);
    }
    SwapRemovedBag(before, CASCADE_CLEANUP);
    forall v | forall a: string, b: string :: v != a + "workload.kcp.dev/syncer-" + b
      ensures !Mentions(v, SYNCER_FINALIZER)
    {
      MentionsParts(v, SYNCER_FINALIZER);
      assert forall a, b :: Parts(v, a, SYNCER_FINALIZER, b) ==> v == a + "workload.kcp.dev/syncer-" + b;
    }
  }

  /** After a successful reconcile of a deleted ingress. */
  method GiveFree(finalizers: FinalizedObject, watcher: HostsWatcher, key: string)
    requires finalizers.Valid() && watcher.Valid()
    modifies finalizers`len, finalizers.backing, watcher
    ensures finalizers.Valid() && GivenFree(old(finalizers.GetFinalizers()), finalizers.GetFinalizers())
    ensures watcher.Valid() && watcher.records == Unstopped(old(watcher.records), key, "")
  {
    finalizers.RemoveFinalizer(CASCADE_CLEANUP);
    watcher.StopWatching(key, "");
    RemoveFinalizersMentioning(finalizers, SYNCER_FINALIZER);
  }

  /** The object's status after the DNS step. */
  function StatusOf(obj: IngressObject, status: seq<LoadBalancer>, annotations: Annotations, calls: Calls,
                    before: Option<DnsRecord>, after: Option<DnsRecord>, verdict: Verdict): seq<LoadBalancer> {
    if verdict != Serving then status
    else
      StatusAfter(obj.syncStatus, status, HostAfter(annotations, calls, before, verdict), Settled(before, after), calls)
  }

  /** The DNS step asks to be run again, until a name server answers for the managed host. */
  predicate ComesBack(syncStatus: map<Cluster, seq<LoadBalancer>>, status: seq<LoadBalancer>, annotations: Annotations,
                      calls: Calls, before: Option<DnsRecord>, after: Option<DnsRecord>, verdict: Verdict) {
    var host := HostAfter(annotations, calls, before, verdict);
    verdict == Serving && ResultAfter(syncStatus, status, host, Settled(before, after), calls) == RequeueIn5Seconds
  }

  predicate SoonAfter(q: Delayed, key: string, t0: Instant, t1: Instant) {
    q.key == key && t0 + 5 * SECOND <= q.due <= t1 + 5 * SECOND
  }

  /** If it does, the last request is for five seconds after some reading of the clock in `t0..t1`;
      and while nothing is waited for, there is no other. */
  predicate Requeued(back: bool, idle: bool, requests: seq<Delayed>, earlier: seq<Delayed>, key: string,
                     t0: Instant, t1: Instant) {
    (back ==> requests != [] && SoonAfter(requests[|requests| - 1], key, t0, t1)) &&
    (idle && back ==> requests == earlier + [requests[|requests| - 1]]) &&
    (idle && !back ==> requests == earlier)
  }

  method ComeBack(clock: WallClock, queue: WorkQueue, key: string)
    modifies clock, queue
    ensures old(clock.now) <= clock.now && |queue.delayed| == |old(queue.delayed)| + 1
    ensures old(queue.delayed) <= queue.delayed && queue.delayed != []
    ensures var q := queue.delayed[|queue.delayed| - 1];
      queue.delayed == old(queue.delayed) + [q] && SoonAfter(q, key, old(clock.now), clock.now)
  {
    queue.AddAfter(clock, key, 5);
  }

  /** `Migrate`, then the DNS reconciler, then the ones that look at neither; the finalizers of the
      ingress come first while it lives and last once it is deleted. */
  method ReconcileIngress(obj: IngressObject, finalizers: FinalizedObject, dns: DnsApi, clock: WallClock,
                          queue: WorkQueue, watcher: HostsWatcher, calls: Calls, laterFails: bool)
    returns (ok: bool, verdict: Verdict, ghost at: Instant, ghost migrated: Annotations, ghost targets: seq<Target>,
             ghost end: Instant)
    requires watcher.Valid() && finalizers.Valid()
    modifies obj, obj.meta`annotations, finalizers, finalizers.backing, dns, clock, queue, watcher
    ensures watcher.Valid() && Others(watcher.records, obj.meta.key) == Others(old(watcher.records), obj.meta.key)
    ensures Migrated(obj.meta.labels, old(obj.meta.annotations), migrated, at, old(clock.now), end) && end <= clock.now
    ensures Lists(targets, Statuses(obj.syncStatus, old(obj.status), obj.workspace))
    ensures DnsStep(obj.deleted, migrated, targets, calls, old(dns.record), dns.record, verdict)
    ensures obj.meta.annotations == KeptAnnotations(obj.deleted, migrated, calls, old(dns.record))
    ensures obj.status == StatusOf(obj, old(obj.status), migrated, calls, old(dns.record), dns.record, verdict)
    ensures old(obj.generatedHost) == "" && verdict != Failed ==>
      obj.generatedHost == HostAfter(migrated, calls, old(dns.record), verdict)
    ensures
      Requeued(ComesBack(obj.syncStatus, old(obj.status), migrated, calls, old(dns.record), dns.record, verdict),
               NoneLeaving(old(obj.meta.annotations)), queue.delayed, old(queue.delayed), obj.meta.key, end, clock.now)
    ensures ok <==> verdict != Failed && !laterFails
    ensures ok && obj.deleted ==> Watched(watcher.records, obj.meta.key) == {}
    ensures old(queue.delayed) <= queue.delayed
    ensures Awaited(migrated, obj.meta.key, queue.delayed[|old(queue.delayed)|..], old(clock.now), end)
    ensures finalizers.Valid()
    ensures HandedOn(obj.deleted, ok, old(finalizers.GetFinalizers()), finalizers.GetFinalizers())
  {
    if !obj.deleted {
      finalizers.AddFinalizer(CASCADE_CLEANUP);
    }
    ok, verdict, at, migrated, targets, end := ReconcileParts(obj, dns, clock, queue, watcher, calls, laterFails);
    if ok && obj.deleted {
      StopAllStaysOut(watcher.records, obj.meta.key);
      GiveFree(finalizers, watcher, obj.meta.key);
    }
  }

  /** The DNS reconciler, and its wish to be run again. */
  method DnsPart(obj: IngressObject, dns: DnsApi, clock: WallClock, queue: WorkQueue, watcher: HostsWatcher,
                 calls: Calls)
    returns (verdict: Verdict, ghost targets: seq<Target>)
    requires watcher.Valid()
    modifies obj, obj.meta`annotations, dns, clock, queue, watcher
    ensures watcher.Valid() && Others(watcher.records, obj.meta.key) == Others(old(watcher.records), obj.meta.key)
    ensures Lists(targets, Statuses(obj.syncStatus, old(obj.status), obj.workspace))
    ensures DnsStep(obj.deleted, old(obj.meta.annotations), targets, calls, old(dns.record), dns.record, verdict)
    ensures obj.meta.annotations == KeptAnnotations(obj.deleted, old(obj.meta.annotations), calls, old(dns.record))
    ensures obj.status ==
      StatusOf(obj, old(obj.status), old(obj.meta.annotations), calls, old(dns.record), dns.record, verdict)
    ensures old(obj.generatedHost) == "" && verdict != Failed ==>
      obj.generatedHost == HostAfter(old(obj.meta.annotations), calls, old(dns.record), verdict)
    ensures
      Requeued(ComesBack(obj.syncStatus, old(obj.status), old(obj.meta.annotations), calls, old(dns.record), dns.record,
                         verdict),
               true, queue.delayed, old(queue.delayed), obj.meta.key, old(clock.now), clock.now)
    ensures old(clock.now) <= clock.now
  {
    var status;
    status, verdict, targets := Reconcile(obj, dns, watcher, calls);
    if status == RequeueIn5Seconds {
      ComeBack(clock, queue, obj.meta.key);
    }
  }

  /** The sub-reconcilers. */
  method ReconcileParts(obj: IngressObject, dns: DnsApi, clock: WallClock, queue: WorkQueue, watcher: HostsWatcher,
                        calls: Calls, laterFails: bool)
    returns (ok: bool, verdict: Verdict, ghost at: Instant, ghost migrated: Annotations, ghost targets: seq<Target>,
             ghost end: Instant)
    requires watcher.Valid()
    modifies obj, obj.meta`annotations, dns, clock, queue, watcher
    ensures watcher.Valid() && Others(watcher.records, obj.meta.key) == Others(old(watcher.records), obj.meta.key)
    ensures Migrated(obj.meta.labels, old(obj.meta.annotations), migrated, at, old(clock.now), end) && end <= clock.now
    ensures Lists(targets, Statuses(obj.syncStatus, old(obj.status), obj.workspace))
    ensures DnsStep(obj.deleted, migrated, targets, calls, old(dns.record), dns.record, verdict)
    ensures obj.meta.annotations == KeptAnnotations(obj.deleted, migrated, calls, old(dns.record))
    ensures obj.status == StatusOf(obj, old(obj.status), migrated, calls, old(dns.record), dns.record, verdict)
    ensures old(obj.generatedHost) == "" && verdict != Failed ==>
      obj.generatedHost == HostAfter(migrated, calls, old(dns.record), verdict)
    ensures
      Requeued(ComesBack(obj.syncStatus, old(obj.status), migrated, calls, old(dns.record), dns.record, verdict),
               NoneLeaving(old(obj.meta.annotations)), queue.delayed, old(queue.delayed), obj.meta.key, end, clock.now)
    ensures ok <==> verdict != Failed && !laterFails
    ensures old(queue.delayed) <= queue.delayed
    ensures Awaited(migrated, obj.meta.key, queue.delayed[|old(queue.delayed)|..], old(clock.now), end)
  {
    ghost var start, queued := clock.now, |queue.delayed|;
    at := Migrate(obj.meta, clock, queue);
    migrated, end := obj.meta.annotations, clock.now;
    ghost var asked := queue.delayed;
    verdict, targets := DnsPart(obj, dns, clock, queue, watcher, calls);
    AwaitedStill(migrated, obj.meta.key, asked[queued..], queue.delayed[queued..], start, end);
    ok := verdict != Failed && !laterFails;
  }

  /** Whether a later sub-reconciler fails or changes what is not modelled here, and how the two
      writes that end a reconcile turn out. */
  datatype Writes = Writes(laterFails: bool, otherChanges: bool, updateFails: bool, statusFails: bool)

  /** What a reconcile of a copy wants written. */
  datatype Wanted = Wanted(written: Ingress, newStatus: seq<LoadBalancer>, changed: bool, shows: bool)

  /** What a reconcile of `seen` that does not fail wants written: the marks it has migrated, without
      a managed host that has been moved, the status the DNS step leaves, and nothing else; with
      `otherwise` for a change of finalizers or of what is not modelled here. */
  ghost predicate Wants(e: Event, before: Option<DnsRecord>, after: Option<DnsRecord>, otherwise: bool, wanted: Wanted)
    requires e.Reconciled?
  {
    var seen, host := e.seen, HostAfter(e.migrated, e.calls, before, e.verdict);
    wanted.written == seen.(annotations := KeptAnnotations(seen.deleted, e.migrated, e.calls, before)) &&
    wanted.newStatus ==
      (if e.verdict == Serving then StatusAfter(seen.syncStatus, seen.status, host, Settled(before, after), e.calls)
       else seen.status) &&
    (wanted.changed <==> wanted.written != seen || otherwise) &&
    (wanted.shows <==> TMCEnabled(seen.syncStatus, wanted.newStatus, host))
  }

  /** Both forms of the written ingress carry the migrated marks, and differ from `seen` only if said so. */
  ghost predicate Writable(seen: Ingress, migrated: Annotations, wanted: Wanted) {
    Stores(seen, migrated, wanted.written) && Stores(seen, migrated, wanted.written.(status := wanted.newStatus)) &&
    wanted.written.status == seen.status && (!wanted.changed ==> wanted.written == seen)
  }

  /** The comparison of the copy with what was seen. */
  function Want(seen: Ingress, annotations: Annotations, status: seq<LoadBalancer>, host: string,
                otherwise: bool): Wanted {
    var written := seen.(annotations := annotations);
    Wanted(written, status, written != seen || otherwise, TMCEnabled(seen.syncStatus, status, host))
  }

  /** Reconciles a deep copy of `seen`, without writing it. */
  method ReconcileCopy(store: Store, key: string, seen: Ingress, finalizers: FinalizedObject, clock: WallClock,
                       queue: WorkQueue, watcher: HostsWatcher, calls: Calls, writes: Writes)
    returns (ok: bool, wanted: Wanted, ghost event: Event)
    requires watcher.Valid() && finalizers.Valid()
    modifies store.dns, finalizers, finalizers.backing, clock, queue, watcher
    ensures watcher.Valid() && finalizers.Valid()
    ensures event.Reconciled? && event.seen == seen && event.calls == calls && !event.persisted
    ensures Next(old(store.Snapshot(clock)), event, store.Snapshot(clock))
    ensures ok <==> event.verdict != Failed && !writes.laterFails
    ensures Writable(seen, event.migrated, wanted)
    ensures HandedOn(seen.deleted, ok, old(finalizers.GetFinalizers()), finalizers.GetFinalizers())
    ensures Others(watcher.records, key) == Others(old(watcher.records), key)
    ensures ok && seen.deleted ==> Watched(watcher.records, key) == {}
    ensures ok ==>
      Wants(event, old(store.dns.record), store.dns.record,
            writes.otherChanges || finalizers.GetFinalizers() != old(finalizers.GetFinalizers()), wanted)
    ensures
      Requeued(ComesBack(seen.syncStatus, seen.status, event.migrated, calls, old(store.dns.record), store.dns.record,
                         event.verdict),
               NoneLeaving(seen.annotations), queue.delayed, old(queue.delayed), key, event.end, clock.now)
    ensures old(queue.delayed) <= queue.delayed
    ensures Awaited(event.migrated, key, queue.delayed[|old(queue.delayed)|..], event.start, event.end)
  {
    var target := new ObjectMeta(key, seen.labels, seen.annotations);
    var obj := new IngressObject(target, seen.deleted, seen.workspace, seen.syncStatus, seen.status);
    ghost var start := clock.now;
    var earlier := finalizers.GetFinalizers();
    var verdict;
    ghost var at, migrated, targets, end;
    ok, verdict, at, migrated, targets, end :=
      ReconcileIngress(obj, finalizers, store.dns, clock, queue, watcher, calls, writes.laterFails);
    event := Reconciled(seen, at, migrated, targets, calls, verdict, start, end, false);
    var otherwise := writes.otherChanges || finalizers.GetFinalizers() != earlier;
    wanted := Want(seen, target.annotations, obj.status, obj.generatedHost, otherwise);
    StoresTarget(seen, migrated, wanted.written);
    StoresTarget(seen, migrated, wanted.written.(status := obj.status));
  }

  /** What is stored after the writes. */
  function Written(stored: Ingress, seen: Ingress, wanted: Wanted, writes: Writes): Ingress {
    var showsStatus := wanted.shows && wanted.newStatus != seen.status;
    if stored != seen || writes.updateFails || Idle(seen, wanted) then stored
    else if showsStatus && !writes.statusFails && !wanted.changed then wanted.written.(status := wanted.newStatus)
    else wanted.written
  }

  /** There is nothing to write. */
  predicate Idle(seen: Ingress, wanted: Wanted) {
    !wanted.changed && wanted.newStatus == seen.status
  }

  /** The update, and the second write for the status, which the first one turns into a conflict
      whenever it changes anything. */
  method WriteBack(store: Store, seen: Ingress, wanted: Wanted, writes: Writes) returns (ok: bool, persisted: bool)
    requires wanted.written.status == seen.status && (!wanted.changed ==> wanted.written == seen)
    modifies store`ingress
    ensures store.ingress == Written(old(store.ingress), seen, wanted, writes)
    ensures persisted <==> old(store.ingress) == seen && (!writes.updateFails || Idle(seen, wanted))
    ensures ok <==>
      Idle(seen, wanted) ||
      (persisted && (wanted.shows && wanted.newStatus != seen.status ==> !writes.statusFails && !wanted.changed))
  {
    var current := store.ingress == seen;
    if !wanted.changed && wanted.newStatus == seen.status {
      return true, current;
    }
    if writes.updateFails || !current {
      return false, false;
    }
    store.ingress := wanted.written;
    if wanted.shows && wanted.newStatus != seen.status {
      if writes.statusFails || wanted.changed {
        return false, true;
      }
      store.ingress := wanted.written.(status := wanted.newStatus);
    }
    return true, true;
  }

  /** Reconciles the copy `seen` and stores the result: the ingress is written exactly when every
      sub-reconciler succeeds, the stored object has not moved on in the meantime, and the update
      does not fail, unless there is nothing to write. */
  method Process(store: Store, key: string, seen: Ingress, finalizers: FinalizedObject, clock: WallClock,
                 queue: WorkQueue, watcher: HostsWatcher, calls: Calls, writes: Writes)
    returns (ok: bool, ghost event: Event, ghost wanted: Wanted)
    requires watcher.Valid() && finalizers.Valid()
    modifies store`ingress, store.dns, finalizers, finalizers.backing, clock, queue, watcher
    ensures watcher.Valid() && finalizers.Valid()
    ensures event.Reconciled? && event.seen == seen && event.calls == calls
    ensures Next(old(store.Snapshot(clock)), event, store.Snapshot(clock))
    ensures HandedOn(seen.deleted, event.verdict != Failed && !writes.laterFails,
                     old(finalizers.GetFinalizers()), finalizers.GetFinalizers())
    ensures Others(watcher.records, key) == Others(old(watcher.records), key)
    ensures event.verdict != Failed && !writes.laterFails && seen.deleted ==> Watched(watcher.records, key) == {}
    ensures event.verdict != Failed && !writes.laterFails ==>
      Wants(event, old(store.dns.record), store.dns.record,
            writes.otherChanges || finalizers.GetFinalizers() != old(finalizers.GetFinalizers()), wanted)
    ensures event.persisted <==>
      event.verdict != Failed && !writes.laterFails && seen == old(store.ingress) &&
      (!writes.updateFails || (!wanted.changed && wanted.newStatus == seen.status))
    ensures ok <==>
      event.verdict != Failed && !writes.laterFails &&
      ((!wanted.changed && wanted.newStatus == seen.status) ||
       (seen == old(store.ingress) && !writes.updateFails &&
        (wanted.shows && wanted.newStatus != seen.status ==> !writes.statusFails && !wanted.changed)))
    ensures store.ingress ==
      if event.persisted then wanted.written.(status := if ok && wanted.shows then wanted.newStatus else seen.status)
      else old(store.ingress)
    ensures store.ingress.status != old(store.ingress).status ==>
      ok && store.ingress == old(store.ingress).(status := store.ingress.status)
    ensures
      Requeued(ComesBack(seen.syncStatus, seen.status, event.migrated, calls, old(store.dns.record), store.dns.record,
                         event.verdict),
               NoneLeaving(seen.annotations), queue.delayed, old(queue.delayed), key, event.end, clock.now)
    ensures old(queue.delayed) <= queue.delayed
    ensures Awaited(event.migrated, key, queue.delayed[|old(queue.delayed)|..], event.start, event.end)
  {
    ghost var before := store.Snapshot(clock);
    var target;
    ok, target, event := ReconcileCopy(store, key, seen, finalizers, clock, queue, watcher, calls, writes);
    wanted := target;
    if !ok {
      return;
    }
    ghost var reconciled := store.Snapshot(clock);
    var persisted;
    ok, persisted := WriteBack(store, seen, target, writes);
    WrittenStep(before, event, reconciled, wanted, writes, persisted);
    event := event.(persisted := persisted);
  }

  /** The step with its writes, from the step without. */
  lemma WrittenStep(w: World, e: Event, w': World, wanted: Wanted, writes: Writes, persisted: bool)
    requires Next(w, e, w') && e.Reconciled? && !e.persisted && e.verdict != Failed &&
      Writable(e.seen, e.migrated, wanted)
    requires persisted <==> w.ingress == e.seen && (!writes.updateFails || Idle(e.seen, wanted))
    ensures var stored := Written(w.ingress, e.seen, wanted, writes);
      Next(w, e.(persisted := persisted), w'.(ingress := stored)) &&
      (stored.status != w.ingress.status ==> stored == w.ingress.(status := wanted.newStatus))
  {
  }

  lemma AwaitedStill(annotations: Annotations, key: string, asked: seq<Delayed>, requests: seq<Delayed>, t0: Instant,
                     t1: Instant)
    requires Awaited(annotations, key, asked, t0, t1) && asked <= requests
    ensures Awaited(annotations, key, requests, t0, t1)
  {
    forall c: Cluster | Pending(annotations, c) && Deadline(annotations, c) - Unix(t0) <= LONGEST_DELAY
      ensures WokenFor(annotations, c, key, requests, t0, t1)
    {
      WokenStill(annotations, annotations, c, key, asked, requests, t0, t1, t1);
    }
  }

  lemma StopAllStaysOut(records: seq<Watcher>, key: string)
    ensures Others(Unstopped(records, key, ""), key) == Others(records, key)
    ensures Watched(Unstopped(records, key, ""), key) == {}
  {
    FilterTwice(records, (w: Watcher) => !Stops(key, "", w), (w: Watcher) => w.key != key,
                (w: Watcher) => w.key != key);
  }

  lemma StoresTarget(seen: Ingress, migrated: Annotations, updated: Ingress)
    requires updated.deleted == seen.deleted
    requires updated.annotations == migrated || updated.annotations == migrated - {GeneratedHost}
    ensures Stores(seen, migrated, updated)
  {
    forall c: Cluster
      ensures Lookup(updated.annotations, SoftFinalizer(c)) == Lookup(migrated, SoftFinalizer(c))
      ensures Lookup(updated.annotations, DeleteAt(c)) == Lookup(migrated, DeleteAt(c))
    {
    }
  }
}
