/** Migration over whole runs: what a dropped soft finalizer proves about the past. */
module MigrationRuns {
  import opened Wrappers
  import opened Decimal
  import opened Clock
  import opened Metadata
  import opened Migration
  import opened Order
  import opened Endpoints
  import opened DnsEndpoints
  import opened DnsTargets
  import opened DnsReconciler
  import opened IngressController

  ghost predicate StepAt(ws: seq<World>, es: seq<Event>, i: nat)
    requires |ws| == |es| + 1 && i < |es|
  {
    Next(ws[i], es[i], ws[i + 1])
  }

  /** A run from an ingress that has no delete-at annotation yet. */
  ghost predicate Run(ws: seq<World>, es: seq<Event>) {
    |ws| == |es| + 1 &&
    (forall c: Cluster :: DeleteAt(c) !in ws[0].ingress.annotations) &&
    forall i :: 0 <= i < |es| ==> StepAt(ws, es, i)
  }

  lemma RunExtended(ws: seq<World>, es: seq<Event>, e: Event, w: World)
    requires Run(ws, es) && Next(ws[|es|], e, w)
    ensures Run(ws + [w], es + [e])
  {
    var more, events := ws + [w], es + [e];
    forall i | 0 <= i < |events|
      ensures StepAt(more, events, i)
    {
      assert i < |es| ==> StepAt(ws, es, i);
    }
  }

  function Timer(w: World, c: Cluster): Option<AnnotationValue> {
    Lookup(w.ingress.annotations, DeleteAt(c))
  }

  /** A stored reconcile that found `c` deleting and set its timer to `v`. */
  predicate Starts(e: Event, c: Cluster, v: AnnotationValue) {
    e.Reconciled? && e.persisted && e.verdict != Failed &&
    Deletion(c) in e.seen.annotations && SoftFinalizer(c) in e.seen.annotations &&
    DeleteAt(c) !in e.seen.annotations && v == WriteSecond(Unix(e.at) + 2 * TTL)
  }

  /** A stored reconcile that found `c` labelled and not deleting. */
  predicate Reactivates(e: Event, c: Cluster) {
    e.Reconciled? && e.persisted && Active(e.seen.labels, e.seen.annotations, c)
  }

  predicate Drops(e: Event, after: World, c: Cluster) {
    e.Reconciled? && e.persisted &&
    SoftFinalizer(c) in e.seen.annotations && SoftFinalizer(c) !in after.ingress.annotations
  }

  /** One step either writes the timer of `c` or carries it, unless it removes it. */
  predicate CarriesTimer(w: World, e: Event, w': World, c: Cluster) {
    Timer(w', c).Some? ==>
      Starts(e, c, Timer(w', c).value) || (Timer(w, c) == Timer(w', c) && !Reactivates(e, c))
  }

  lemma TimerStep(w: World, e: Event, w': World, c: Cluster)
    requires Next(w, e, w')
    ensures CarriesTimer(w, e, w', c)
  {
    if e.Reconciled? {
      assert ClusterStep(e.seen.labels, e.seen.annotations, e.migrated, c, e.at, e.start, e.end);
      if e.persisted {
        assert Lookup(w'.ingress.annotations, DeleteAt(c)) == Lookup(e.migrated, DeleteAt(c));
      }
    } else {
      assert DeleteAt(c) in w'.ingress.annotations ==> Timer(w', c) == Timer(w, c);
    }
  }

  /** Every stored timer was written by a stored reconcile that saw the cluster deleting, and it
      has been carried unchanged past reconciles none of which found the cluster active. */
  lemma {:induction false} TimerOrigin(ws: seq<World>, es: seq<Event>, i: nat, c: Cluster) returns (j: nat)
    requires |ws| == |es| + 1 && Timer(ws[0], c) == None
    requires forall n :: 0 <= n < |es| ==> CarriesTimer(ws[n], es[n], ws[n + 1], c)
    requires i <= |es| && Timer(ws[i], c).Some?
    ensures j < i && Starts(es[j], c, Timer(ws[i], c).value)
    ensures forall m :: j < m <= i ==> Timer(ws[m], c) == Timer(ws[i], c)
    ensures forall m :: j < m < i ==> !Reactivates(es[m], c)
  {
    assert CarriesTimer(ws[i - 1], es[i - 1], ws[i - 1 + 1], c);
    if Starts(es[i - 1], c, Timer(ws[i], c).value) {
      j := i - 1;
    } else {
      j := TimerOrigin(ws, es, i - 1, c);
    }
  }

  lemma DropStep(e: Event, c: Cluster)
    requires e.Reconciled? && ClusterStep(e.seen.labels, e.seen.annotations, e.migrated, c, e.at, e.start, e.end)
    requires SoftFinalizer(c) in e.seen.annotations && SoftFinalizer(c) !in e.migrated
    ensures Deletion(c) in e.seen.annotations && DeleteAt(c) in e.seen.annotations
    ensures Deadline(e.seen.annotations, c) <= Unix(e.end)
  {
  }

  lemma DroppedInTime(w: World, e: Event, w': World, c: Cluster)
    requires Next(w, e, w')
    ensures Drops(e, w', c) ==>
      Deletion(c) in e.seen.annotations && Timer(w, c).Some? && ReadSecond(Timer(w, c).value).value <= Unix(e.end)
  {
    if Drops(e, w', c) {
      assert Lookup(w'.ingress.annotations, SoftFinalizer(c)) == Lookup(e.migrated, SoftFinalizer(c));
      assert ClusterStep(e.seen.labels, e.seen.annotations, e.migrated, c, e.at, e.start, e.end);
      DropStep(e, c);
    }
  }

  /** A soft finalizer is only dropped at a second at least twice the record TTL after a stored
      reconcile that saw the cluster deleting; no stored reconcile in between saw it active. */
  lemma FinalizerDropped(ws: seq<World>, es: seq<Event>, k: nat, c: Cluster) returns (j: nat)
    requires Run(ws, es) && k < |es| && Drops(es[k], ws[k + 1], c)
    ensures j < k && Timer(ws[k], c).Some? && Starts(es[j], c, Timer(ws[k], c).value)
    ensures Unix(es[k].end) >= Unix(es[j].start) + 2 * TTL
    ensures Deletion(c) in es[k].seen.annotations
    ensures forall m :: j < m <= k ==> Timer(ws[m], c) == Timer(ws[k], c)
    ensures forall m :: j < m < k ==> !Reactivates(es[m], c)
  {
    assert StepAt(ws, es, k);
    DroppedInTime(ws[k], es[k], ws[k + 1], c);
    forall n | 0 <= n < |es|
      ensures CarriesTimer(ws[n], es[n], ws[n + 1], c)
    {
      assert StepAt(ws, es, n);
      TimerStep(ws[n], es[n], ws[n + 1], c);
    }
    j := TimerOrigin(ws, es, k, c);
    FormatThenAtoi(Unix(es[j].at) + 2 * TTL);
    assert StepAt(ws, es, j);
    UnixMonotone(es[j].start, es[j].at);
  }

  /** Each wake-up requested for a pending timer is enough by itself: a reconcile that starts no
      earlier and finds the timer unchanged and the cluster still deleting drops the finalizer. */
  lemma WakeUpSuffices(asked: Annotations, c: Cluster, key: string, q: Delayed, asked0: Instant, asked1: Instant,
                       labels: Labels, before: Annotations, after: Annotations, at: Instant, t0: Instant, t1: Instant)
    requires Pending(asked, c) && Wakes(q, key, Deadline(asked, c), asked0, asked1) && q.due <= t0
    requires Migrated(labels, before, after, at, t0, t1)
    requires Pending(before, c) && before[DeleteAt(c)] == asked[DeleteAt(c)]
    ensures NoTimer(after, c)
  {
    UnixMonotone(q.due, t0);
    assert ClusterStep(labels, before, after, c, at, t0, t1);
  }

  // ---------- what the record serves meanwhile ----------

  predicate ServedBy(e: Event) {
    e.Reconciled? && e.verdict == Serving
  }

  ghost predicate ListsBag(endpoints: seq<Endpoint>, bag: multiset<string>) {
    SingleTargets(endpoints) && Sorted(Addresses(endpoints)) && multiset(Addresses(endpoints)) == bag
  }

  /** The last reconcile in `j..i` that served an existing record, or -1. */
  function LastServing(es: seq<Event>, j: nat, i: nat): (m: int)
    requires j <= i <= |es|
    ensures m == -1 || (j <= m < i && ServedBy(es[m]))
    ensures forall n :: j <= n < i && m < n ==> !ServedBy(es[n])
  {
    if i == j then -1 else if ServedBy(es[i - 1]) then i - 1 else LastServing(es, j, i - 1)
  }

  /** Nobody deleted the record from `m` to `i`. */
  predicate Present(records: seq<Option<DnsRecord>>, m: nat, i: nat)
    requires i < |records|
  {
    forall n :: m <= n <= i ==> records[n].Some?
  }

  /** What is stored before step `i`, as the last serving reconcile from `j` on explains it: its
      very record, with endpoints that list `bag` of it, for as long as nobody deletes the record.
      If somebody does, no other endpoints take their place. */
  ghost predicate Explained(records: seq<Option<DnsRecord>>, es: seq<Event>, j: nat, i: nat,
                            bag: Event -> multiset<string>)
    requires j <= i <= |es| < |records|
  {
    var m := LastServing(es, j, i);
    (records[i].Some? && records[i].value.endpoints != [] ==>
     m >= 0 && ListsBag(records[i].value.endpoints, bag(es[m]))) &&
    (m >= 0 && Present(records, m + 1, i) ==>
     records[i] == records[m + 1] && ListsBag(records[i].value.endpoints, bag(es[m])))
  }

  ghost function SelectedBag(e: Event): multiset<string> {
    if e.Reconciled? then ServedBag(e.targets, e.migrated, e.calls.lookups) else multiset{}
  }

  ghost function LiveBag(e: Event): multiset<string> {
    if e.Reconciled? then ActiveBag(e.targets, e.migrated, e.calls.lookups) else multiset{}
  }

  /** What a step does to the stored record: a serving reconcile lists what it selected, another
      successful one deletes the record or creates an empty one, and whatever else happens leaves
      it alone or deletes it. */
  ghost predicate RecordStep(before: Option<DnsRecord>, e: Event, after: Option<DnsRecord>) {
    if ServedBy(e) then after.Some? && ListsBag(after.value.endpoints, SelectedBag(e))
    else if e.Reconciled? && e.verdict != Failed then after == None || (before == None && after.value.endpoints == [])
    else after == before || after == None
  }

  lemma NextRecord(w: World, e: Event, w': World)
    requires Next(w, e, w')
    ensures RecordStep(w.record, e, w'.record)
  {
  }

  lemma ExplainedFirst(records: seq<Option<DnsRecord>>, es: seq<Event>, j: nat, bag: Event -> multiset<string>)
    requires j < |es| < |records| && RecordStep(records[j], es[j], records[j + 1])
    requires es[j].Reconciled? && es[j].verdict != Failed && (ServedBy(es[j]) ==> bag(es[j]) == SelectedBag(es[j]))
    ensures Explained(records, es, j, j + 1, bag)
  {
    assert LastServing(es, j, j) == -1;
  }

  lemma ExplainedNext(records: seq<Option<DnsRecord>>, es: seq<Event>, j: nat, i: nat, bag: Event -> multiset<string>)
    requires j <= i < |es| < |records| && RecordStep(records[i], es[i], records[i + 1])
    requires Explained(records, es, j, i, bag) && (ServedBy(es[i]) ==> bag(es[i]) == SelectedBag(es[i]))
    ensures Explained(records, es, j, i + 1, bag)
  {
    var m := LastServing(es, j, i);
    if !ServedBy(es[i]) {
      assert LastServing(es, j, i + 1) == m;
      if m >= 0 && Present(records, m + 1, i + 1) {
        assert Present(records, m + 1, i) && records[i].Some? && records[i + 1].Some?;
      }
    }
  }

  ghost predicate RecordStepAt(records: seq<Option<DnsRecord>>, es: seq<Event>, n: nat)
    requires n < |es| < |records|
  {
    RecordStep(records[n], es[n], records[n + 1])
  }

  /** From a successful reconcile on, the record is explained by the last serving reconcile. */
  lemma {:induction false} RecordExplained(records: seq<Option<DnsRecord>>, es: seq<Event>, j: nat, i: nat)
    requires |records| == |es| + 1 && forall n :: 0 <= n < |es| ==> RecordStepAt(records, es, n)
    requires j < i <= |es| && es[j].Reconciled? && es[j].verdict != Failed
    ensures Explained(records, es, j, i, SelectedBag)
  {
    assert RecordStepAt(records, es, i - 1);
    if i == j + 1 {
      ExplainedFirst(records, es, j, SelectedBag);
    } else {
      RecordExplained(records, es, j, i - 1);
      ExplainedNext(records, es, j, i - 1, SelectedBag);
    }
  }

  lemma LiveWhenAny(records: seq<Option<DnsRecord>>, es: seq<Event>, j: nat, i: nat)
    requires j <= i <= |es| < |records| && Explained(records, es, j, i, SelectedBag)
    requires forall m :: j <= m < i && ServedBy(es[m]) ==> LiveBag(es[m]) != multiset{}
    ensures Explained(records, es, j, i, LiveBag) && Uninterrupted(records, es, j, i)
  {
    var m := LastServing(es, j, i);
    if m >= 0 && Present(records, m + 1, i) {
      NotEmpty(records[i].value.endpoints, LiveBag(es[m]));
    }
  }

  lemma NotEmpty(endpoints: seq<Endpoint>, bag: multiset<string>)
    requires ListsBag(endpoints, bag) && bag != multiset{}
    ensures endpoints != []
  {
    assert |multiset(Addresses(endpoints))| == |endpoints|;
  }

  /** From the first serving reconcile on there are endpoints, until somebody deletes the record. */
  ghost predicate Uninterrupted(records: seq<Option<DnsRecord>>, es: seq<Event>, j: nat, i: nat)
    requires j <= i <= |es| < |records|
  {
    LastServing(es, j, i) >= 0 && Present(records, LastServing(es, j, i) + 1, i) ==> records[i].value.endpoints != []
  }

  /** No downtime: between the reconcile that started the timer and the drop at least twice the
      TTL later, as long as every serving reconcile found some live address and nobody deletes the
      record, it is there, it has endpoints, and they list exactly the live addresses seen by the
      last serving reconcile, whatever fails in between. The first serving reconcile is the one that
      started the timer, unless that one had to create the record or delete it. */
  lemma DrainedWhileWaiting(ws: seq<World>, es: seq<Event>, k: nat, c: Cluster)
    returns (j: nat, records: seq<Option<DnsRecord>>)
    requires Run(ws, es) && k < |es| && Drops(es[k], ws[k + 1], c)
    ensures j < k && Timer(ws[k], c).Some? && Starts(es[j], c, Timer(ws[k], c).value)
    ensures Unix(es[k].end) >= Unix(es[j].start) + 2 * TTL
    ensures |records| == |ws| && forall n :: 0 <= n < |ws| ==> records[n] == ws[n].record
    ensures records[j].Some? && records[j + 1].Some? ==> ServedBy(es[j])
    ensures (forall m :: j <= m <= k && ServedBy(es[m]) ==> LiveBag(es[m]) != multiset{}) ==>
      forall i :: j < i <= k + 1 ==> Explained(records, es, j, i, LiveBag) && Uninterrupted(records, es, j, i)
  {
    j := FinalizerDropped(ws, es, k, c);
    records := RecordsOf(ws, es);
    assert RecordStepAt(records, es, j);
    if forall m :: j <= m <= k && ServedBy(es[m]) ==> LiveBag(es[m]) != multiset{} {
      forall i | j < i <= k + 1
        ensures Explained(records, es, j, i, LiveBag) && Uninterrupted(records, es, j, i)
      {
        RecordExplained(records, es, j, i);
        LiveWhenAny(records, es, j, i);
      }
    }
  }

  /** The same at one point of a run in which nobody deletes the record. */
  lemma LiveRecord(ws: seq<World>, es: seq<Event>, j: nat, i: nat)
    requires Run(ws, es) && j < i <= |es| && es[j].Reconciled? && es[j].verdict != Failed
    requires forall n :: 0 <= n < |ws| ==> ws[n].record.Some?
    requires forall m :: j <= m < i && ServedBy(es[m]) ==> LiveBag(es[m]) != multiset{}
    ensures var m, record := LastServing(es, j, i), ws[i].record.value;
      m >= 0 && record.endpoints != [] && ListsBag(record.endpoints, LiveBag(es[m]))
  {
    var records := RecordsOf(ws, es);
    assert RecordStepAt(records, es, j);
    RecordExplained(records, es, j, i);
    LiveWhenAny(records, es, j, i);
    assert Present(records, LastServing(es, j, i) + 1, i);
  }

  // ---------- when a cluster's address stays out ----------

  predicate ServesAddress(record: Option<DnsRecord>, x: string) {
    record.Some? && exists e :: e in record.value.endpoints && e.targets == [x]
  }

  /** No cluster but `c` stands for `x`. */
  predicate NobodyElse(e: Event, c: Cluster, x: string) {
    e.Reconciled? && forall t :: t in e.targets && (x in Resolve(t, e.calls.lookups) || x == t.value) ==> t.cluster == c
  }

  /** `x` is an IP of `c`, and no other cluster stands for it. */
  predicate Exclusive(e: Event, c: Cluster, x: string) {
    NobodyElse(e, c, x) && Target(c, IP, x) in e.targets
  }

  /** The cluster is deleting, and there is somebody else to serve. */
  ghost predicate Relieved(e: Event, c: Cluster) {
    e.Reconciled? && Deletion(c) in e.seen.annotations && LiveBag(e) != multiset{}
  }

  lemma SelectedExclusive(w: World, e: Event, w': World, c: Cluster, x: string)
    requires Next(w, e, w') && Exclusive(e, c, x)
    ensures x in SelectedBag(e) <==> !Relieved(e, c)
  {
    assert Lookup(e.migrated, Deletion(c)) == Lookup(e.seen.annotations, Deletion(c));
    SelectedIff(e.targets, e.migrated, e.calls.lookups, c, x);
  }

  /** Whether or not the cluster still has a status. */
  lemma NotSelected(w: World, e: Event, w': World, c: Cluster, x: string)
    requires Next(w, e, w') && NobodyElse(e, c, x) && Relieved(e, c)
    ensures x !in SelectedBag(e)
  {
    assert Lookup(e.migrated, Deletion(c)) == Lookup(e.seen.annotations, Deletion(c));
    ActiveMember(e.targets, e.migrated, e.calls.lookups, x);
  }

  lemma NotSelectedAt(ws: seq<World>, es: seq<Event>, m: nat, c: Cluster, x: string)
    requires Run(ws, es) && m < |es| && NobodyElse(es[m], c, x) && Relieved(es[m], c)
    ensures x !in SelectedBag(es[m])
  {
    assert StepAt(ws, es, m);
    NotSelected(ws[m], es[m], ws[m + 1], c, x);
  }

  lemma SelectedIff(targets: seq<Target>, annotations: Annotations, lookups: Lookups, c: Cluster, x: string)
    requires Target(c, IP, x) in targets
    requires forall t :: t in targets && (x in Resolve(t, lookups) || x == t.value) ==> t.cluster == c
    ensures x in ServedBag(targets, annotations, lookups) <==>
      Deletion(c) !in annotations || ActiveBag(targets, annotations, lookups) == multiset{}
  {
    var own := Target(c, IP, x);
    assert x in Resolve(own, lookups);
    ActiveMember(targets, annotations, lookups, x);
    DyingMember(targets, annotations, x);
    if Deletion(c) !in annotations {
      assert own in targets && !Deleting(annotations, own);
    } else {
      assert own in targets && Deleting(annotations, own);
    }
  }

  lemma ListedAddress(record: Option<DnsRecord>, bag: multiset<string>, x: string)
    requires record.Some? && ListsBag(record.value.endpoints, bag)
    ensures ServesAddress(record, x) <==> x in bag
  {
    var es := record.value.endpoints;
    if x in bag {
      assert x in multiset(Addresses(es));
      var i :| 0 <= i < |es| && Addresses(es)[i] == x;
      assert es[i].targets == [x];
    }
    if e :| e in es && e.targets == [x] {
      var i :| 0 <= i < |es| && es[i] == e;
      assert Addresses(es)[i] == x;
      assert x in multiset(Addresses(es));
    }
  }

  /** Every serving reconcile found the cluster deleting, something live to serve in its place, and
      nobody else with its address. */
  ghost predicate AlwaysRelieved(es: seq<Event>, j: nat, k: nat, c: Cluster, x: string)
    requires k < |es|
  {
    forall m :: j <= m <= k && ServedBy(es[m]) ==> NobodyElse(es[m], c, x) && Relieved(es[m], c)
  }

  /** The address of a losing cluster is out of the record from the start of the timer to the drop
      if every serving reconcile in between found the cluster still deleting and some live address
      to serve in its place, and, while the cluster goes on listing the address, only then. */
  lemma DrainedExactly(ws: seq<World>, es: seq<Event>, k: nat, c: Cluster, x: string) returns (j: nat)
    requires Run(ws, es) && k < |es| && Drops(es[k], ws[k + 1], c)
    ensures j < k && Timer(ws[k], c).Some? && Starts(es[j], c, Timer(ws[k], c).value)
    ensures Unix(es[k].end) >= Unix(es[j].start) + 2 * TTL
    ensures (forall m :: j <= m <= k && ServedBy(es[m]) ==> Exclusive(es[m], c, x)) ==>
      ((forall i :: j < i <= k + 1 ==> !ServesAddress(ws[i].record, x)) <==>
       (forall m :: j <= m <= k && ServedBy(es[m]) ==> Relieved(es[m], c)))
    ensures AlwaysRelieved(es, j, k, c, x) ==> forall i :: j < i <= k + 1 ==> !ServesAddress(ws[i].record, x)
  {
    j := FinalizerDropped(ws, es, k, c);
    if AlwaysRelieved(es, j, k, c, x) {
      RelievedStaysOut(ws, es, j, k, c, x);
    }
    if forall m :: j <= m <= k && ServedBy(es[m]) ==> Exclusive(es[m], c, x) {
      forall m | j <= m <= k && ServedBy(es[m])
        ensures ServesAddress(ws[m + 1].record, x) <==> !Relieved(es[m], c)
        ensures x in SelectedBag(es[m]) <==> !Relieved(es[m], c)
      {
        ServedAddress(ws, es, m, c, x);
      }
      forall i | j < i <= k + 1 && ServesAddress(ws[i].record, x)
        ensures exists m :: j <= m <= k && ServedBy(es[m]) && x in SelectedBag(es[m])
      {
        AddressSelected(ws, es, j, i, x);
      }
    }
  }

  lemma RelievedStaysOut(ws: seq<World>, es: seq<Event>, j: nat, k: nat, c: Cluster, x: string)
    requires Run(ws, es) && j <= k < |es| && es[j].Reconciled? && es[j].verdict != Failed &&
      AlwaysRelieved(es, j, k, c, x)
    ensures forall i :: j < i <= k + 1 ==> !ServesAddress(ws[i].record, x)
  {
    forall i | j < i <= k + 1
      ensures !ServesAddress(ws[i].record, x)
    {
      if ServesAddress(ws[i].record, x) {
        AddressSelected(ws, es, j, i, x);
        var m :| j <= m < i && ServedBy(es[m]) && x in SelectedBag(es[m]);
        NotSelectedAt(ws, es, m, c, x);
        assert false;
      }
    }
  }

  /** In particular a drop that finds nothing else to serve leaves the address in the record. */
  lemma DropWhileServed(ws: seq<World>, es: seq<Event>, k: nat, c: Cluster, x: string)
    requires Run(ws, es) && k < |es| && Drops(es[k], ws[k + 1], c) && ServedBy(es[k]) && Exclusive(es[k], c, x)
    requires LiveBag(es[k]) == multiset{}
    ensures ServesAddress(ws[k + 1].record, x)
  {
    ServedAddress(ws, es, k, c, x);
  }

  lemma ServedAddress(ws: seq<World>, es: seq<Event>, m: nat, c: Cluster, x: string)
    requires Run(ws, es) && m < |es| && ServedBy(es[m]) && Exclusive(es[m], c, x)
    ensures ServesAddress(ws[m + 1].record, x) <==> !Relieved(es[m], c)
    ensures x in SelectedBag(es[m]) <==> !Relieved(es[m], c)
  {
    assert StepAt(ws, es, m);
    NextRecord(ws[m], es[m], ws[m + 1]);
    SelectedExclusive(ws[m], es[m], ws[m + 1], c, x);
    ListedAddress(ws[m + 1].record, SelectedBag(es[m]), x);
  }

  lemma AddressSelected(ws: seq<World>, es: seq<Event>, j: nat, i: nat, x: string)
    requires Run(ws, es) && j < i <= |es| && es[j].Reconciled? && es[j].verdict != Failed
    requires ServesAddress(ws[i].record, x)
    ensures exists m :: j <= m < i && ServedBy(es[m]) && x in SelectedBag(es[m])
  {
    var records := RecordsOf(ws, es);
    RecordExplained(records, es, j, i);
    ListedAddress(ws[i].record, SelectedBag(es[LastServing(es, j, i)]), x);
  }

  lemma RecordOfStep(ws: seq<World>, es: seq<Event>, records: seq<Option<DnsRecord>>, n: nat)
    requires Run(ws, es) && |records| == |ws| && n < |es|
    requires records[n] == ws[n].record && records[n + 1] == ws[n + 1].record
    ensures RecordStepAt(records, es, n)
  {
    assert StepAt(ws, es, n);
    NextRecord(ws[n], es[n], ws[n + 1]);
  }

  lemma RecordsOf(ws: seq<World>, es: seq<Event>) returns (records: seq<Option<DnsRecord>>)
    requires Run(ws, es)
    ensures |records| == |es| + 1 && forall n :: 0 <= n <= |es| ==> records[n] == ws[n].record
    ensures forall n :: 0 <= n < |es| ==> RecordStepAt(records, es, n)
  {
    records := seq(|ws|, n requires 0 <= n < |ws| => ws[n].record);
    forall n | 0 <= n < |es|
      ensures RecordStepAt(records, es, n)
    {
      RecordOfStep(ws, es, records, n);
    }
  }
}
