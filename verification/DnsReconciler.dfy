/** The DNS step of a traffic reconcile (`DnsReconciler.Reconcile` in pkg/traffic/dns.go). */
module DnsReconciler {
  import opened Wrappers
  import opened Metadata
  import opened Bags
  import opened Endpoints
  import opened DnsEndpoints
  import opened DnsRecordObjects
  import opened DnsTargets
  import opened HostWatcher

  /** A stored DNSRecord: its managed-host annotation, endpoints and health annotations. */
  datatype DnsRecord = DnsRecord(host: string, endpoints: seq<Endpoint>, health: map<string, string>)

  /** How the calls made during one reconcile turn out. */
  datatype Calls = Calls(
    deleteFails: bool, getFails: bool, createFails: bool, updateFails: bool, statusesMalformed: bool,
    freshHost: string, lookups: Lookups, published: bool, nameserverAnswers: bool)

  datatype Status = Stop | Continue | RequeueIn5Seconds

  /** The error return, split by what was achieved: record deleted, created, or serving. */
  datatype Verdict = Gone | Created | Serving | Failed

  /** The DNSRecord of one traffic object, as the API server stores it. */
  class DnsApi {
    var record: Option<DnsRecord>
  }

  class IngressObject {
    const meta: ObjectMeta
    const deleted: bool
    const workspace: Cluster
    /** The decoded per-cluster status annotations of advanced scheduling. */
    const syncStatus: map<Cluster, seq<LoadBalancer>>
    var status: seq<LoadBalancer>
    var generatedHost: string

    constructor (meta: ObjectMeta, deleted: bool, workspace: Cluster,
                 syncStatus: map<Cluster, seq<LoadBalancer>>, status: seq<LoadBalancer>)
      ensures this.meta == meta && this.deleted == deleted && this.workspace == workspace
      ensures this.syncStatus == syncStatus && this.status == status && generatedHost == ""
    {
      this.meta, this.deleted, this.workspace := meta, deleted, workspace;
      this.syncStatus, this.status, generatedHost := syncStatus, status, "";
    }
  }

  /** Advanced scheduling is taken for granted until the status proves otherwise. */
  predicate TMCEnabled(syncStatus: map<Cluster, seq<LoadBalancer>>, status: seq<LoadBalancer>, generatedHost: string) {
    |syncStatus| > 0 ||
    (if |status| == 1 then
       if status[0].hostname != "" then status[0].hostname == generatedHost else status[0].ip == ""
     else true)
  }

  predicate HasDNSLBHost(status: seq<LoadBalancer>) {
    exists i :: 0 <= i < |status| && status[i].hostname != ""
  }

  /** The object's own status only counts outside advanced scheduling. */
  function Statuses(syncStatus: map<Cluster, seq<LoadBalancer>>, status: seq<LoadBalancer>,
                    workspace: Cluster): map<Cluster, seq<LoadBalancer>> {
    if |syncStatus| > 0 then syncStatus else map[workspace := status]
  }

  /** The record's own host annotation, or for old records the one on the traffic object. */
  function ManagedHost(record: DnsRecord, annotations: Annotations): string {
    if record.host != "" then record.host
    else if GeneratedHost in annotations then TextOf(annotations[GeneratedHost])
    else ""
  }

  /** The record as it should be. */
  function Candidate(before: DnsRecord, host: string, annotations: Annotations, endpoints: seq<Endpoint>): DnsRecord {
    DnsRecord(host, endpoints, before.health + HealthOf(annotations))
  }

  /** The comparison that decides about the update: the host annotation added to an old record
      is on both sides of it. */
  predicate Differs(before: DnsRecord, host: string, annotations: Annotations, endpoints: seq<Endpoint>) {
    Candidate(before, host, annotations, endpoints) != before.(host := host)
  }

  function Updated(before: DnsRecord, host: string, annotations: Annotations, endpoints: seq<Endpoint>): DnsRecord {
    if Differs(before, host, annotations, endpoints) then Candidate(before, host, annotations, endpoints) else before
  }

  /** `endpoints` is computed from the served groups. */
  ghost predicate Computed(host: string, targets: seq<Target>, annotations: Annotations, lookups: Lookups,
                           before: seq<Endpoint>, endpoints: seq<Endpoint>) {
    exists groups :: ServedGroups(groups, targets, annotations, lookups) && ListsTargets(groups, endpoints) &&
      (Distinct(groups) ==> EndpointsFor(host, groups, before, endpoints))
  }

  /** `after` serves exactly the selected addresses under `host`. */
  ghost predicate Serves(host: string, before: DnsRecord, annotations: Annotations, targets: seq<Target>,
                         lookups: Lookups, after: DnsRecord) {
    Computed(host, targets, annotations, lookups, before.endpoints, after.endpoints) &&
    after == Updated(before, host, annotations, after.endpoints)
  }

  /** The object is still to be given its managed host, and its record is settled and published. */
  predicate WantsHost(syncStatus: map<Cluster, seq<LoadBalancer>>, status: seq<LoadBalancer>, host: string,
                      settled: bool, calls: Calls) {
    TMCEnabled(syncStatus, status, host) && !HasDNSLBHost(status) && settled && calls.published
  }

  /** It gets the host once a name server answers for it; until then the step comes back. */
  function StatusAfter(syncStatus: map<Cluster, seq<LoadBalancer>>, status: seq<LoadBalancer>, host: string,
                       settled: bool, calls: Calls): seq<LoadBalancer> {
    if WantsHost(syncStatus, status, host, settled, calls) && calls.nameserverAnswers then [LoadBalancer("", host)]
    else status
  }

  function ResultAfter(syncStatus: map<Cluster, seq<LoadBalancer>>, status: seq<LoadBalancer>, host: string,
                       settled: bool, calls: Calls): Status {
    if WantsHost(syncStatus, status, host, settled, calls) && !calls.nameserverAnswers then RequeueIn5Seconds
    else Continue
  }

  /** The step found endpoints and left them as they were. */
  predicate Settled(before: Option<DnsRecord>, after: Option<DnsRecord>) {
    before.Some? && after == before && before.value.endpoints != []
  }

  /** The failures after which the remaining reconcilers are not run. */
  predicate Halts(deleted: bool, annotations: Annotations, targets: seq<Target>, calls: Calls,
                  before: Option<DnsRecord>) {
    deleted || calls.getFails ||
    (before.Some? &&
     (ManagedHost(before.value, annotations) == "" ||
      (!calls.statusesMalformed && forall t :: t in targets ==> Resolvable(annotations, calls.lookups, t))))
  }

  /** What one DNS step may do to the stored record. */
  ghost predicate DnsStep(deleted: bool, annotations: Annotations, targets: seq<Target>, calls: Calls,
                          before: Option<DnsRecord>, after: Option<DnsRecord>, verdict: Verdict) {
    match verdict
    case Failed => after == before
    case Gone => deleted && after == None
    case Created => !deleted && before == None && after == Some(DnsRecord(calls.freshHost, [], HealthOf(annotations)))
    case Serving =>
      !deleted && before.Some? && after.Some? && ManagedHost(before.value, annotations) != "" &&
      Serves(ManagedHost(before.value, annotations), before.value, annotations,
             targets, calls.lookups, after.value)
  }

  /** The host of a record from an older release is moved to it from the traffic object. */
  predicate MovesHost(deleted: bool, annotations: Annotations, calls: Calls, before: Option<DnsRecord>) {
    !deleted && !calls.getFails && before.Some? && before.value.host == "" &&
    GeneratedHost in annotations && TextOf(annotations[GeneratedHost]) != ""
  }

  /** The annotations afterwards. */
  function KeptAnnotations(deleted: bool, annotations: Annotations, calls: Calls,
                           before: Option<DnsRecord>): Annotations {
    if MovesHost(deleted, annotations, calls, before) then annotations - {GeneratedHost} else annotations
  }

  /** The managed host the object knows after a step that does not fail. */
  function HostAfter(annotations: Annotations, calls: Calls, before: Option<DnsRecord>, verdict: Verdict): string {
    match verdict
    case Created => calls.freshHost
    case Serving => if before.Some? then ManagedHost(before.value, annotations) else ""
    case _ => ""
  }

  /** Some call before the update goes wrong, or the managed host cannot be told any more. */
  predicate Trouble(deleted: bool, annotations: Annotations, targets: seq<Target>, calls: Calls,
                    before: Option<DnsRecord>) {
    if deleted then calls.deleteFails
    else
      calls.getFails ||
      (if before == None then calls.createFails
       else
         ManagedHost(before.value, annotations) == "" || calls.statusesMalformed ||
         exists t :: t in targets && !Resolvable(annotations, calls.lookups, t))
  }

  /** Some computation of the endpoints asks for an update of the record. */
  ghost predicate UpdateNeeded(host: string, before: DnsRecord, annotations: Annotations, targets: seq<Target>,
                               lookups: Lookups) {
    exists endpoints ::
      Computed(host, targets, annotations, lookups, before.endpoints, endpoints) &&
      Differs(before, host, annotations, endpoints)
  }

  /** Trouble makes the step fail; without it only an update that is needed can. */
  ghost predicate Verdicts(deleted: bool, annotations: Annotations, targets: seq<Target>, calls: Calls,
                           before: Option<DnsRecord>, after: Option<DnsRecord>, verdict: Verdict) {
    var trouble := Trouble(deleted, annotations, targets, calls, before);
    (trouble ==> verdict == Failed) &&
    (!trouble && verdict == Failed ==>
      calls.updateFails && before.Some? &&
      UpdateNeeded(ManagedHost(before.value, annotations), before.value, annotations, targets, calls.lookups)) &&
    (verdict == Serving && calls.updateFails ==> after == before)
  }

  /** The watchers of the key are the live hosts, unless the empty host was watched before. */
  ghost predicate WatchersAgree(before: seq<Watcher>, after: seq<Watcher>, key: string, targets: seq<Target>,
                                annotations: Annotations) {
    "" !in Watched(before, key) ==>
      forall h :: h in Watched(after, key) <==> exists t :: t in targets && IsLiveHost(annotations, t, h)
  }

  method Reconcile(obj: IngressObject, api: DnsApi, watcher: HostsWatcher, calls: Calls)
    returns (status: Status, verdict: Verdict, ghost targets: seq<Target>)
    requires watcher.Valid()
    modifies obj`generatedHost, obj`status, obj.meta`annotations, api, watcher
    ensures watcher.Valid() && Others(watcher.records, obj.meta.key) == Others(old(watcher.records), obj.meta.key)
    ensures Lists(targets, Statuses(obj.syncStatus, old(obj.status), obj.workspace))
    ensures DnsStep(obj.deleted, old(obj.meta.annotations), targets, calls, old(api.record), api.record, verdict)
    ensures Verdicts(obj.deleted, old(obj.meta.annotations), targets, calls, old(api.record), api.record, verdict)
    ensures verdict == Serving ==>
      WatchersAgree(old(watcher.records), watcher.records, obj.meta.key, targets, old(obj.meta.annotations))
    ensures obj.meta.annotations == KeptAnnotations(obj.deleted, old(obj.meta.annotations), calls, old(api.record))
    ensures verdict == Gone ==> obj.generatedHost == old(obj.generatedHost)
    ensures verdict == Created ==> obj.generatedHost == calls.freshHost
    ensures verdict == Serving ==> obj.generatedHost == ManagedHost(old(api.record).value, old(obj.meta.annotations))
    ensures verdict != Serving ==> obj.status == old(obj.status)
    ensures verdict == Serving ==>
      obj.status ==
        StatusAfter(obj.syncStatus, old(obj.status), obj.generatedHost, Settled(old(api.record), api.record), calls) &&
      status ==
        ResultAfter(obj.syncStatus, old(obj.status), obj.generatedHost, Settled(old(api.record), api.record), calls)
    ensures verdict == Gone || verdict == Created ==> status == Continue
    ensures verdict == Failed ==>
      status ==
        if Halts(obj.deleted, old(obj.meta.annotations), targets, calls, old(api.record)) then Stop else Continue
  {
    var listed := GetDNSTargets(Statuses(obj.syncStatus, obj.status, obj.workspace));
    targets := listed;
    if obj.deleted {
      if calls.deleteFails {
        return Stop, Failed, targets;
      }
      api.record := None;
      return Continue, Gone, targets;
    }
    if calls.getFails {
      return Stop, Failed, targets;
    }
    if api.record == None {
      obj.generatedHost := calls.freshHost;
      if calls.createFails {
        return Continue, Failed, targets;
      }
      api.record := Some(DnsRecord(calls.freshHost, [], HealthOf(obj.meta.annotations)));
      return Continue, Created, targets;
    }
    status, verdict := ReconcileExisting(obj, api, watcher, calls, listed, api.record.value);
  }

  /** The part of the step that has found the record. */
  method ReconcileExisting(obj: IngressObject, api: DnsApi, watcher: HostsWatcher, calls: Calls,
                           targets: seq<Target>, existing: DnsRecord)
    returns (status: Status, verdict: Verdict)
    requires watcher.Valid() && api.record == Some(existing) && !obj.deleted && !calls.getFails
    modifies obj`generatedHost, obj`status, obj.meta`annotations, api, watcher
    ensures watcher.Valid() && Others(watcher.records, obj.meta.key) == Others(old(watcher.records), obj.meta.key)
    ensures verdict == Failed || verdict == Serving
    ensures DnsStep(false, old(obj.meta.annotations), targets, calls, Some(existing), api.record, verdict)
    ensures Verdicts(false, old(obj.meta.annotations), targets, calls, Some(existing), api.record, verdict)
    ensures verdict == Serving ==>
      WatchersAgree(old(watcher.records), watcher.records, obj.meta.key, targets, old(obj.meta.annotations))
    ensures obj.meta.annotations == KeptAnnotations(false, old(obj.meta.annotations), calls, Some(existing))
    ensures verdict == Serving ==> obj.generatedHost == ManagedHost(existing, old(obj.meta.annotations))
    ensures verdict != Serving ==> obj.status == old(obj.status)
    ensures verdict == Serving ==>
      obj.status ==
        StatusAfter(obj.syncStatus, old(obj.status), obj.generatedHost, Settled(Some(existing), api.record), calls) &&
      status ==
        ResultAfter(obj.syncStatus, old(obj.status), obj.generatedHost, Settled(Some(existing), api.record), calls)
    ensures verdict == Failed ==>
      status == if Halts(false, old(obj.meta.annotations), targets, calls, Some(existing)) then Stop else Continue
  {
    ghost var annotations := obj.meta.annotations;
    var managedHost := existing.host;
    if managedHost == "" {
      managedHost := obj.meta.GetAnnotation(GeneratedHost);
      if managedHost == "" {
        return Stop, Failed;
      }
      obj.meta.RemoveAnnotation(GeneratedHost);
    }
    obj.generatedHost := managedHost;
    if calls.statusesMalformed {
      return Continue, Failed;
    }
    SameDeleting(annotations, obj.meta.annotations);
    status, verdict := UpdateRecord(obj, api, watcher, calls, obj.meta.annotations, obj.meta.key, targets, existing);
    if verdict == Serving {
      SameServes(managedHost, existing, annotations, obj.meta.annotations, targets, calls.lookups, api.record.value);
    } else {
      SameNeed(managedHost, existing, annotations, obj.meta.annotations, targets, calls.lookups);
    }
  }

  /** Dropping the generated-host annotation touches no mark the DNS step looks at. */
  lemma SameMarks(a: Annotations, b: Annotations, targets: seq<Target>, lookups: Lookups)
    requires b == a || b == a - {GeneratedHost}
    ensures HealthOf(a) == HealthOf(b)
    ensures forall t :: Deleting(a, t) <==> Deleting(b, t)
    ensures forall groups :: ServedGroups(groups, targets, a, lookups) <==> ServedGroups(groups, targets, b, lookups)
  {
    SameHealth(a, b);
    SameDeleting(a, b);
    SameBags(a, b, targets, lookups);
    forall groups
      ensures ServedGroups(groups, targets, a, lookups) <==> ServedGroups(groups, targets, b, lookups)
    {
      SameGrouped(a, b, groups, targets, lookups, ActiveBag(targets, a, lookups) == multiset{});
    }
  }

  lemma SameComputed(host: string, a: Annotations, b: Annotations, targets: seq<Target>, lookups: Lookups,
                     before: seq<Endpoint>, endpoints: seq<Endpoint>)
    requires (b == a || b == a - {GeneratedHost}) && Computed(host, targets, b, lookups, before, endpoints)
    ensures Computed(host, targets, a, lookups, before, endpoints)
  {
    SameMarks(a, b, targets, lookups);
  }

  lemma SameServes(host: string, before: DnsRecord, a: Annotations, b: Annotations, targets: seq<Target>,
                   lookups: Lookups, after: DnsRecord)
    requires (b == a || b == a - {GeneratedHost}) && Serves(host, before, b, targets, lookups, after)
    ensures Serves(host, before, a, targets, lookups, after)
  {
    SameHealth(a, b);
    SameComputed(host, a, b, targets, lookups, before.endpoints, after.endpoints);
  }

  lemma SameNeed(host: string, before: DnsRecord, a: Annotations, b: Annotations, targets: seq<Target>,
                 lookups: Lookups)
    requires b == a || b == a - {GeneratedHost}
    ensures UpdateNeeded(host, before, b, targets, lookups) ==> UpdateNeeded(host, before, a, targets, lookups)
  {
    SameHealth(a, b);
    if UpdateNeeded(host, before, b, targets, lookups) {
      var endpoints :| Computed(host, targets, b, lookups, before.endpoints, endpoints) &&
        Differs(before, host, b, endpoints);
      SameComputed(host, a, b, targets, lookups, before.endpoints, endpoints);
    }
  }

  lemma SameDeleting(a: Annotations, b: Annotations)
    requires b == a || b == a - {GeneratedHost}
    ensures forall t :: Deleting(a, t) <==> Deleting(b, t)
  {
    forall t
      ensures Deleting(a, t) <==> Deleting(b, t)
    {
      assert Deletion(t.cluster) != GeneratedHost;
    }
  }

  lemma SameBags(a: Annotations, b: Annotations, targets: seq<Target>, lookups: Lookups)
    requires forall t :: Deleting(a, t) <==> Deleting(b, t)
    ensures ActiveBag(targets, a, lookups) == ActiveBag(targets, b, lookups)
    ensures DyingBag(targets, a) == DyingBag(targets, b)
  {
    SumSame(targets, (t: Target) => Live(t, a, lookups), (t: Target) => Live(t, b, lookups));
    SumSame(targets, (t: Target) => Dying(t, a), (t: Target) => Dying(t, b));
  }

  lemma SameGrouped(a: Annotations, b: Annotations, m: map<string, seq<string>>, targets: seq<Target>,
                    lookups: Lookups, dying: bool)
    requires forall t :: Deleting(a, t) <==> Deleting(b, t)
    ensures Grouped(m, targets, a, lookups, dying) <==> Grouped(m, targets, b, lookups, dying)
  {
    forall k: string
      ensures Group(targets, a, lookups, k, dying) == Group(targets, b, lookups, k, dying)
    {
      SameGroup(a, b, targets, lookups, k, dying);
    }
  }

  lemma {:induction false} SameGroup(a: Annotations, b: Annotations, targets: seq<Target>, lookups: Lookups,
                                     k: string, dying: bool)
    requires forall t :: Deleting(a, t) <==> Deleting(b, t)
    ensures Group(targets, a, lookups, k, dying) == Group(targets, b, lookups, k, dying)
  {
    if targets != [] {
      SameGroup(a, b, targets[..|targets| - 1], lookups, k, dying);
    }
  }

  lemma SameHealth(a: Annotations, b: Annotations)
    requires b == a || b == a - {GeneratedHost}
    ensures HealthOf(a) == HealthOf(b)
  {
    forall k: AnnotationKey | k.Health?
      ensures k in a <==> k in b
    {
    }
  }

  /** The part of the step that has found the record and knows its managed host. */
  method UpdateRecord(obj: IngressObject, api: DnsApi, watcher: HostsWatcher, calls: Calls, annotations: Annotations,
                      key: string, targets: seq<Target>, existing: DnsRecord)
    returns (status: Status, verdict: Verdict)
    requires watcher.Valid() && api.record == Some(existing)
    modifies obj`status, api, watcher
    ensures watcher.Valid() && Others(watcher.records, key) == Others(old(watcher.records), key)
    ensures verdict == Failed || verdict == Serving
    ensures (exists t :: t in targets && !Resolvable(annotations, calls.lookups, t)) ==> verdict == Failed
    ensures verdict == Failed ==>
      api.record == Some(existing) &&
      ((exists t :: t in targets && !Resolvable(annotations, calls.lookups, t)) ||
       (calls.updateFails && UpdateNeeded(obj.generatedHost, existing, annotations, targets, calls.lookups)))
    ensures verdict == Serving && calls.updateFails ==> api.record == Some(existing)
    ensures verdict == Serving ==>
      api.record.Some? &&
      Serves(obj.generatedHost, existing, annotations, targets, calls.lookups, api.record.value) &&
      WatchersAgree(old(watcher.records), watcher.records, key, targets, annotations)
    ensures verdict == Failed ==>
      obj.status == old(obj.status) &&
      status == if forall t :: t in targets ==> Resolvable(annotations, calls.lookups, t) then Stop else Continue
    ensures verdict == Serving ==>
      obj.status ==
        StatusAfter(obj.syncStatus, old(obj.status), obj.generatedHost, Settled(Some(existing), api.record), calls) &&
      status ==
        ResultAfter(obj.syncStatus, old(obj.status), obj.generatedHost, Settled(Some(existing), api.record), calls)
  {
    var selected := SelectAndWatch(targets, annotations, calls.lookups, watcher, key);
    if selected == None {
      return Continue, Failed;
    }
    status, verdict := ServeSelection(obj, api, calls, annotations, selected.value, targets, existing);
  }

  /** Brings the stored record in line with the selected addresses. */
  method ServeSelection(obj: IngressObject, api: DnsApi, calls: Calls, annotations: Annotations,
                        sel: Selection, ghost targets: seq<Target>, existing: DnsRecord)
    returns (status: Status, verdict: Verdict)
    requires Selects(sel, targets, annotations, calls.lookups) && api.record == Some(existing)
    modifies obj`status, api
    ensures verdict == Failed || verdict == Serving
    ensures verdict == Failed ==>
      api.record == Some(existing) && calls.updateFails &&
      UpdateNeeded(obj.generatedHost, existing, annotations, targets, calls.lookups)
    ensures verdict == Serving && calls.updateFails ==> api.record == Some(existing)
    ensures verdict == Serving ==>
      api.record.Some? &&
      Serves(obj.generatedHost, existing, annotations, targets, calls.lookups, api.record.value)
    ensures verdict == Failed ==> obj.status == old(obj.status) && status == Stop
    ensures verdict == Serving ==>
      obj.status ==
        StatusAfter(obj.syncStatus, old(obj.status), obj.generatedHost, Settled(Some(existing), api.record), calls) &&
      status ==
        ResultAfter(obj.syncStatus, old(obj.status), obj.generatedHost, Settled(Some(existing), api.record), calls)
  {
    var endpoints := ComputeEndpoints(obj.generatedHost, sel, targets, annotations, calls.lookups, existing.endpoints);
    var stored, upToDate := StoreRecord(api, existing, obj.generatedHost, annotations, endpoints, calls.updateFails);
    if !stored {
      return Stop, Failed;
    }
    status := PublishHost(obj, calls, endpoints != [] && upToDate);
    return status, Serving;
  }

  /** Issues the update, unless the copied record equals the existing one. */
  method StoreRecord(api: DnsApi, existing: DnsRecord, managedHost: string, annotations: Annotations,
                     endpoints: seq<Endpoint>, updateFails: bool) returns (stored: bool, upToDate: bool)
    requires api.record == Some(existing)
    modifies api
    ensures upToDate <==> !Differs(existing, managedHost, annotations, endpoints)
    ensures stored <==> upToDate || !updateFails
    ensures api.record == Some(if stored then Updated(existing, managedHost, annotations, endpoints) else existing)
    ensures stored ==> api.record.value.endpoints == endpoints
    ensures stored ==> (upToDate <==> api.record == old(api.record))
  {
    upToDate := !Differs(existing, managedHost, annotations, endpoints);
    stored := upToDate || !updateFails;
    if !upToDate && stored {
      api.record := Some(Candidate(existing, managedHost, annotations, endpoints));
    }
  }

  /** Puts the managed host into the object's status, once the record is out and resolves. */
  method PublishHost(obj: IngressObject, calls: Calls, settled: bool) returns (status: Status)
    modifies obj`status
    ensures obj.status == StatusAfter(obj.syncStatus, old(obj.status), obj.generatedHost, settled, calls)
    ensures status == ResultAfter(obj.syncStatus, old(obj.status), obj.generatedHost, settled, calls)
  {
    if TMCEnabled(obj.syncStatus, obj.status, obj.generatedHost) && !HasDNSLBHost(obj.status) && settled &&
      calls.published {
      if !calls.nameserverAnswers {
        return RequeueIn5Seconds;
      }
      obj.status := [LoadBalancer("", obj.generatedHost)];
    }
    return Continue;
  }

  /** The target loop followed by the clean-up of watchers no longer needed. */
  method SelectAndWatch(targets: seq<Target>, annotations: Annotations, lookups: Lookups, watcher: HostsWatcher,
                        key: string)
    returns (selected: Option<Selection>)
    requires watcher.Valid()
    modifies watcher
    ensures watcher.Valid() && Others(watcher.records, key) == Others(old(watcher.records), key)
    ensures selected.Some? <==> forall t :: t in targets ==> Resolvable(annotations, lookups, t)
    ensures selected.Some? ==>
      Selects(selected.value, targets, annotations, lookups) &&
      WatchersAgree(old(watcher.records), watcher.records, key, targets, annotations)
  {
    ghost var before := watcher.records;
    selected := SelectTargets(targets, annotations, lookups, watcher, key);
    if selected.Some? {
      ghost var started := watcher.records;
      CleanUp(watcher, key, selected.value.hosts);
      OthersStay(started, key, selected.value.hosts);
      CleanedUpAgree(before, started, key, selected.value.hosts, targets, annotations);
    }
  }

  lemma CleanedUpAgree(before: seq<Watcher>, started: seq<Watcher>, key: string, hosts: seq<string>,
                       targets: seq<Target>, annotations: Annotations)
    requires LiveHosts(hosts, targets, annotations) && WatchedToo(before, started, key, hosts)
    ensures WatchersAgree(before, CleanedUp(started, key, hosts), key, targets, annotations)
  {
    if "" !in Watched(before, key) {
      CleanUpAgrees(started, key, hosts);
    }
  }

  /** The endpoints of the copied record, recomputed in place. */
  method ComputeEndpoints(host: string, sel: Selection, ghost targets: seq<Target>, ghost annotations: Annotations,
                          ghost lookups: Lookups, before: seq<Endpoint>) returns (endpoints: seq<Endpoint>)
    requires Selects(sel, targets, annotations, lookups)
    ensures Computed(host, targets, annotations, lookups, before, endpoints)
  {
    var copyDNS := new DnsRecordObject(before);
    var groups := Chosen(sel);
    ChosenServes(sel, targets, annotations, lookups);
    assert forall e :: e in copyDNS.endpoints ==> fresh(e);
    copyDNS.SetEndpointFromTargets(host, groups);
    endpoints := Values(copyDNS.endpoints);
  }

  // ---------- health data ----------

  /** The record carries the health annotations of the traffic object, and keeps what it had beside. */
  ghost predicate Carries(annotations: Annotations, before: map<string, string>, after: map<string, string>) {
    forall name: string ::
      Lookup(after, name) ==
        if Health(name) in annotations then Some(TextOf(annotations[Health(name)])) else Lookup(before, name)
  }

  lemma HealthCarried(annotations: Annotations, before: map<string, string>)
    ensures Carries(annotations, before, before + HealthOf(annotations))
  {
    forall name: string
      ensures name in HealthOf(annotations) <==> Health(name) in annotations
      ensures name in HealthOf(annotations) ==> HealthOf(annotations)[name] == TextOf(annotations[Health(name)])
    {
      assert Health(name) in annotations ==> name in HealthOf(annotations);
    }
  }

  /** Whatever the outcome, the record that a step leaves has that data, or is the one it found. */
  lemma StepCarriesHealth(deleted: bool, annotations: Annotations, targets: seq<Target>, calls: Calls,
                          before: Option<DnsRecord>, after: Option<DnsRecord>, verdict: Verdict)
    requires DnsStep(deleted, annotations, targets, calls, before, after, verdict)
    ensures verdict == Serving ==> Carries(annotations, before.value.health, after.value.health)
    ensures verdict == Created ==> Carries(annotations, map[], after.value.health)
  {
    if verdict == Serving {
      var host := ManagedHost(before.value, annotations);
      UpdatedHealth(before.value, host, annotations, after.value.endpoints);
      HealthCarried(annotations, before.value.health);
    } else if verdict == Created {
      HealthCarried(annotations, map[]);
      assert map[] + HealthOf(annotations) == HealthOf(annotations);
    }
  }

  lemma UpdatedHealth(before: DnsRecord, host: string, annotations: Annotations, endpoints: seq<Endpoint>)
    ensures Updated(before, host, annotations, endpoints).health == before.health + HealthOf(annotations)
  {
  }

  // ---------- the object's status ----------

  /** No entry names a host, and scheduling is advanced or looks so: there is not just one address. */
  predicate Unassigned(syncStatus: map<Cluster, seq<LoadBalancer>>, status: seq<LoadBalancer>) {
    (forall i :: 0 <= i < |status| ==> status[i].hostname == "") &&
    (|syncStatus| > 0 || |status| != 1 || status[0].ip == "")
  }

  /** When the status changes, and when the step comes back for it, in terms of its own fields. */
  lemma StatusChanges(syncStatus: map<Cluster, seq<LoadBalancer>>, status: seq<LoadBalancer>, host: string,
                      settled: bool, calls: Calls)
    ensures var due := Unassigned(syncStatus, status) && settled && calls.published;
      StatusAfter(syncStatus, status, host, settled, calls) ==
        (if due && calls.nameserverAnswers then [LoadBalancer("", host)] else status) &&
      ResultAfter(syncStatus, status, host, settled, calls) ==
        (if due && !calls.nameserverAnswers then RequeueIn5Seconds else Continue)
  {
  }

  /** Scheduling is not advanced exactly for an object of its own with a single entry, an address
      or a host name other than the managed host. */
  lemma OwnStatus(syncStatus: map<Cluster, seq<LoadBalancer>>, status: seq<LoadBalancer>, host: string)
    ensures !TMCEnabled(syncStatus, status, host) <==>
      |syncStatus| == 0 && |status| == 1 &&
      ((status[0].hostname == "" && status[0].ip != "") || (status[0].hostname != "" && status[0].hostname != host))
  {
  }

  /** Such a status stays, whatever the calls do. */
  lemma OwnStatusStays(syncStatus: map<Cluster, seq<LoadBalancer>>, status: seq<LoadBalancer>, host: string,
                       settled: bool, calls: Calls)
    requires !TMCEnabled(syncStatus, status, host)
    ensures StatusAfter(syncStatus, status, host, settled, calls) == status
    ensures ResultAfter(syncStatus, status, host, settled, calls) == Continue
  {
  }

  /** A status that has been set stays, whatever later calls do, and scheduling stays advanced. */
  lemma StatusSetOnce(syncStatus: map<Cluster, seq<LoadBalancer>>, status: seq<LoadBalancer>, host: string,
                      settled: bool, calls: Calls, settledLater: bool, callsLater: Calls)
    requires host != ""
    ensures var after := StatusAfter(syncStatus, status, host, settled, calls);
      (TMCEnabled(syncStatus, after, host) <==> TMCEnabled(syncStatus, status, host)) &&
      (after != status ==>
        StatusAfter(syncStatus, after, host, settledLater, callsLater) == after &&
        ResultAfter(syncStatus, after, host, settledLater, callsLater) == Continue)
  {
    var after := StatusAfter(syncStatus, status, host, settled, calls);
    if after != status {
      assert after[0].hostname == host;
    }
  }

  /** Setting it leaves the targets alone exactly when scheduling really is advanced: an object of
      its own with several addresses is taken for one, and then stands for its own managed host. */
  lemma StatusHidesTargets(syncStatus: map<Cluster, seq<LoadBalancer>>, status: seq<LoadBalancer>, host: string,
                           settled: bool, calls: Calls, workspace: Cluster)
    requires host != "" && StatusAfter(syncStatus, status, host, settled, calls) != status
    ensures var after := StatusAfter(syncStatus, status, host, settled, calls);
      (Statuses(syncStatus, after, workspace) == Statuses(syncStatus, status, workspace) <==> |syncStatus| > 0) &&
      (|syncStatus| == 0 ==>
       TargetMap(Statuses(syncStatus, after, workspace)) == map[workspace := [Target(workspace, Host, host)]])
  {
    var after := StatusAfter(syncStatus, status, host, settled, calls);
    if |syncStatus| == 0 {
      assert Statuses(syncStatus, after, workspace)[workspace] == after;
      assert Statuses(syncStatus, status, workspace)[workspace] == status;
      assert TargetsFor(workspace, after) == [Target(workspace, Host, host)];
    }
  }

  lemma TwoAddressesHidden(calls: Calls)
    requires calls.published && calls.nameserverAnswers
    ensures StatusAfter(map[], [LoadBalancer("1", ""), LoadBalancer("2", "")], "h", true, calls) ==
      [LoadBalancer("", "h")]
  {
  }

  // ---------- a second step ----------

  ghost predicate DistinctServed(targets: seq<Target>, annotations: Annotations, lookups: Lookups) {
    forall a :: ServedBag(targets, annotations, lookups)[a] <= 1
  }

  /** For distinct addresses the computed list does not depend on the order of the targets. */
  lemma ComputedOnce(host: string, one: seq<Target>, other: seq<Target>, annotations: Annotations, lookups: Lookups,
                     before: seq<Endpoint>, es: seq<Endpoint>, others: seq<Endpoint>)
    requires multiset(one) == multiset(other) && DistinctServed(one, annotations, lookups)
    requires Computed(host, one, annotations, lookups, before, es) &&
      Computed(host, other, annotations, lookups, before, others)
    ensures es == others
  {
    var groups := GroupsOf(host, one, annotations, lookups, before, es);
    ServedWhateverOrder(one, other, annotations, lookups);
    var regrouped := GroupsOf(host, other, annotations, lookups, before, others);
    SameServedGroups(groups, regrouped, one, other, annotations, lookups);
    OrderIndependent(host, groups, regrouped, before, es, others);
  }

  lemma GroupsOf(host: string, targets: seq<Target>, annotations: Annotations, lookups: Lookups,
                 before: seq<Endpoint>, es: seq<Endpoint>) returns (groups: map<string, seq<string>>)
    requires DistinctServed(targets, annotations, lookups) && Computed(host, targets, annotations, lookups, before, es)
    ensures ServedGroups(groups, targets, annotations, lookups) && Distinct(groups) &&
      EndpointsFor(host, groups, before, es)
  {
    groups :| ServedGroups(groups, targets, annotations, lookups) && ListsTargets(groups, es) &&
      (Distinct(groups) ==> EndpointsFor(host, groups, before, es));
    forall a
      ensures BagOf(groups)[a] <= 1
    {
      assert ServedBag(targets, annotations, lookups)[a] <= 1;
    }
  }

  /** Computing again, from the result, gives the result. */
  lemma ComputedAgain(host: string, targets: seq<Target>, annotations: Annotations, lookups: Lookups,
                      before: seq<Endpoint>, es: seq<Endpoint>)
    requires DistinctServed(targets, annotations, lookups) && Computed(host, targets, annotations, lookups, before, es)
    ensures Computed(host, targets, annotations, lookups, es, es)
  {
    var groups := GroupsOf(host, targets, annotations, lookups, before, es);
    Idempotent(host, groups, before, es);
  }

  /** An updated record differs from its candidate no more. */
  lemma UpToDate(before: DnsRecord, host: string, annotations: Annotations, endpoints: seq<Endpoint>)
    ensures !Differs(Updated(before, host, annotations, endpoints), host, annotations, endpoints)
  {
    var health := HealthOf(annotations);
    assert (before.health + health) + health == before.health + health;
  }

  /** When nothing has changed, a second step, seeing the clusters in any order, leaves the record as
      it is and issues no update, for distinct addresses. */
  lemma SecondStepQuiet(annotations: Annotations, one: seq<Target>, other: seq<Target>, calls: Calls, callsLater: Calls,
                        before: DnsRecord, after: DnsRecord, later: DnsRecord)
    requires multiset(one) == multiset(other) && calls.lookups == callsLater.lookups &&
      DistinctServed(one, annotations, calls.lookups)
    requires DnsStep(false, annotations, one, calls, Some(before), Some(after), Serving)
    requires DnsStep(false, annotations, other, callsLater, Some(after), Some(later), Serving)
    ensures later == after && !Differs(after, ManagedHost(after, annotations), annotations, later.endpoints)
  {
    var host := ManagedHost(before, annotations);
    assert ManagedHost(after, annotations) == host;
    ServedWhateverOrder(one, other, annotations, calls.lookups);
    ComputedAgain(host, one, annotations, calls.lookups, before.endpoints, after.endpoints);
    ComputedOnce(host, one, other, annotations, calls.lookups, after.endpoints, after.endpoints, later.endpoints);
    UpToDate(before, host, annotations, after.endpoints);
  }

  // ---------- old records ----------

  /** The record already is what a step makes of it: the right endpoints and all health marks. */
  ghost predicate AlreadyServes(before: DnsRecord, host: string, annotations: Annotations, targets: seq<Target>,
                                lookups: Lookups) {
    Computed(host, targets, annotations, lookups, before.endpoints, before.endpoints) &&
    before.health + HealthOf(annotations) == before.health
  }

  /** An old record's host moves from the traffic object to the record. It is lost by this step
      exactly when the record already was what it should be, for distinct addresses. */
  lemma HostSurvivesUpgrade(annotations: Annotations, targets: seq<Target>, calls: Calls, before: DnsRecord,
                            after: DnsRecord)
    requires before.host == "" && DistinctServed(targets, annotations, calls.lookups)
    requires DnsStep(false, annotations, targets, calls, Some(before), Some(after), Serving)
    ensures ManagedHost(after, annotations - {GeneratedHost}) ==
      if AlreadyServes(before, ManagedHost(before, annotations), annotations, targets, calls.lookups) then ""
      else ManagedHost(before, annotations)
  {
    var host := ManagedHost(before, annotations);
    if AlreadyServes(before, host, annotations, targets, calls.lookups) {
      ComputedOnce(host, targets, targets, annotations, calls.lookups, before.endpoints, after.endpoints,
                   before.endpoints);
    }
  }

  /** Afterwards every step fails and leaves the record alone. */
  lemma HostLostStep(annotations: Annotations, targets: seq<Target>, calls: Calls, before: DnsRecord,
                     after: Option<DnsRecord>, verdict: Verdict)
    requires before.host == "" && GeneratedHost !in annotations
    requires DnsStep(false, annotations, targets, calls, Some(before), after, verdict)
    ensures verdict == Failed && after == Some(before)
  {
  }

  /** For instance an old record of an object without targets, which rightly lists no endpoints. */
  lemma HostLostExample(calls: Calls)
    ensures var before, annotations := DnsRecord("", [], map[]), map[GeneratedHost := Text("h")];
      DnsStep(false, annotations, [], calls, Some(before), Some(before), Serving) &&
      ManagedHost(before, annotations) == "h" && ManagedHost(before, annotations - {GeneratedHost}) == ""
  {
    var before, annotations: Annotations := DnsRecord("", [], map[]), map[GeneratedHost := Text("h")];
    assert HealthOf(annotations) == map[];
    var none: map<string, seq<string>> := map[];
    assert ListsTargets(none, []) && EndpointsFor("h", none, [], []);
    assert ServedGroups(none, [], annotations, calls.lookups);
    assert Computed("h", [], annotations, calls.lookups, [], []);
  }
}
