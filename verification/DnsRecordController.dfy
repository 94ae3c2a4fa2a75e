/** The DNSRecord controller (pkg/dns/dns_record.go and `process` in pkg/dns/controller.go). */
module DnsRecordController {
  import opened Wrappers
  import opened Endpoints
  import opened ZoneStatuses
  import opened Route53
  import opened Batches

  /** A DNSRecord: its spec with the API server's generation counter, and its status. */
  datatype Record = Record(spec: seq<Endpoint>, generation: int, observed: int, zones: seq<ZoneStatus>)

  // ---------- the steps as values ----------

  /** The record is published there, and has not been modified since. */
  predicate Skips(r: Record, zone: Zone) {
    r.generation == r.observed && PublishedTo(r.zones, zone)
  }

  function ConditionFor(replacing: bool, failed: bool, now: int): Condition {
    Condition(Succeeded, if failed then False else True, if failed then ProviderError else ProviderSuccess,
              Message(replacing, failed), now)
  }

  /** The condition of a zone tells the outcome, the time, and whether something was to be replaced. */
  lemma ConditionSays(replacing: bool, failed: bool, now: int)
    ensures var c := ConditionFor(replacing, failed, now);
      c.kind == Succeeded && c.transition == now && (c.status == True <==> !failed) &&
      (c.status == False <==> failed) &&
      (c.reason == ProviderSuccess <==> !failed) && (c.reason == ProviderError <==> failed) &&
      c.message == Message(replacing, failed)
  {
  }

  datatype Progress = Progress(live: Zones, updates: seq<Update>)

  function Attempt(r: Record, p: Progress, zone: Zone, outages: set<string>, now: int): Progress {
    if Skips(r, zone) then p
    else
      var outcome := Changed(p.live, zone.id, r.spec, EndpointsOf(r.zones, zone.id), Upsert, zone.id in outages);
      Progress(outcome.zones,
               p.updates + [Update(zone, ConditionFor(PublishedTo(r.zones, zone), outcome.failure.Some?, now), r.spec)])
  }

  function Publish(configured: seq<Zone>, r: Record, live: Zones, outages: set<string>, now: int): Progress {
    if configured == [] then Progress(live, [])
    else
      var n := |configured| - 1;
      Attempt(r, Publish(configured[..n], r, live, outages, now), configured[n], outages, now)
  }

  function Observed(r: Record, statuses: seq<ZoneStatus>): Record {
    if !SlicesEqual(statuses, r.zones) || r.observed != r.generation then
      r.(zones := statuses, observed := r.generation)
    else r
  }

  /** The record as a reconcile that reads `r` wants to store it. */
  function Reconciled(configured: seq<Zone>, r: Record, live: Zones, outages: set<string>, now: int): Record {
    Observed(r, Merged(r.zones, Publish(configured, r, live, outages, now).updates, now))
  }

  // ---------- the code ----------

  /** The deep copy a reconcile works on. */
  class RecordObject {
    const spec: seq<Endpoint>
    const generation: int
    var observed: int
    var zones: seq<ZoneStatus>
    var finalized: bool

    constructor (r: Record, finalized: bool)
      ensures Value() == r && this.finalized == finalized
    {
      spec, generation, observed, zones := r.spec, r.generation, r.observed, r.zones;
      this.finalized := finalized;
    }

    function Value(): Record
      reads this
    {
      Record(spec, generation, observed, zones)
    }
  }

  /** The API server's history of one DNSRecord; the index is the resource version. */
  class RecordStore {
    var versions: seq<Record>

    /** `UpdateStatus`: refused when it is not based on the newest version. */
    method UpdateStatus(base: nat, r: Record, writeFails: bool) returns (stored: bool)
      modifies this
      ensures stored <==> !writeFails && base + 1 == |old(versions)|
      ensures versions == if stored then old(versions) + [r] else old(versions)
    {
      stored := !writeFails && base + 1 == |versions|;
      if stored {
        versions := versions + [r];
      }
    }

    /** `Update` of a copy with the spec of its base: a changed finalizer makes a new version of the
        same spec and status. */
    method Update(base: nat, changed: bool, updateFails: bool) returns (stored: bool)
      requires base < |versions|
      modifies this
      ensures stored <==> !updateFails && base + 1 == |old(versions)|
      ensures versions == if stored && changed then old(versions) + [old(versions)[base]] else old(versions)
    {
      stored := !updateFails && base + 1 == |versions|;
      if stored && changed {
        versions := versions + [versions[base]];
      }
    }
  }

  class Controller {
    const configured: seq<Zone>
    const provider: Provider

    constructor (configured: seq<Zone>, provider: Provider)
      ensures this.configured == configured && this.provider == provider
    {
      this.configured, this.provider := configured, provider;
    }

    method PublishRecordToZones(record: RecordObject, outages: set<string>, now: int)
      returns (statuses: seq<ZoneStatus>)
      modifies provider
      ensures var p := Publish(configured, record.Value(), old(provider.zones), outages, now);
        provider.zones == p.live && statuses == Merged(record.zones, p.updates, now)
    {
      var updates: seq<Update> := [];
      for i := 0 to |configured|
        invariant Progress(provider.zones, updates) ==
          Publish(configured[..i], record.Value(), old(provider.zones), outages, now)
      {
        assert configured[..i + 1][..i] == configured[..i];
        var zone := configured[i];
        var published := RecordIsAlreadyPublishedToZone(record.zones, zone);
        if record.generation == record.observed && published {
          continue;
        }
        var failure := provider.UpdateRecord(record.spec, record.zones, zone.id, Upsert, zone.id in outages);
        updates := updates + [Update(zone, ConditionFor(published, failure.Some?, now), record.spec)];
      }
      assert configured[..|configured|] == configured;
      statuses := MergeStatuses(record.zones, updates, now);
    }

    /** `reconcile` for a record that is not being deleted. */
    method Reconcile(record: RecordObject, outages: set<string>, now: int)
      modifies provider, record`zones, record`observed, record`finalized
      ensures record.Value() == Reconciled(configured, old(record.Value()), old(provider.zones), outages, now)
      ensures provider.zones == Publish(configured, old(record.Value()), old(provider.zones), outages, now).live
      ensures record.finalized
    {
      record.finalized := true;
      var statuses := PublishRecordToZones(record, outages, now);
      if !SlicesEqual(statuses, record.zones) || record.observed != record.generation {
        record.zones := statuses;
        record.observed := record.generation;
      }
    }

    /** `process`: reconciles a copy of the cached version, writes a changed status back, and after
        it the object itself, which is a new version only if the finalizer was missing. */
    method Process(store: RecordStore, cached: nat, finalized: bool, outages: set<string>, now: int,
                   writeFails: bool, updateFails: bool)
      returns (ok: bool, extended: bool)
      requires cached < |store.versions|
      modifies provider, store
      ensures var r := old(store.versions)[cached];
        var next := Reconciled(configured, r, old(provider.zones), outages, now);
        var newest := cached + 1 == |old(store.versions)|;
        provider.zones == Publish(configured, r, old(provider.zones), outages, now).live &&
        (ok <==> (next != r ==> newest && !writeFails) && (next != r || !finalized ==> newest && !updateFails)) &&
        (extended <==> ok && !finalized) &&
        store.versions ==
          old(store.versions) + (if next != r && newest && !writeFails then [next] else []) +
            (if extended then [next] else [])
    {
      var previous := store.versions[cached];
      var current := new RecordObject(previous, finalized);
      Reconcile(current, outages, now);
      ok, extended := true, false;
      var base := cached;
      if current.Value() != previous {
        ok := store.UpdateStatus(cached, current.Value(), writeFails);
        if !ok {
          return;
        }
        base := cached + 1;
      }
      if current.Value() != previous || current.finalized != finalized {
        ok := store.Update(base, current.finalized != finalized, updateFails);
        extended := ok && current.finalized != finalized;
      }
    }
  }

  // ---------- one zone at a time ----------

  /** What a reconcile reading `r` does to the hosted zone of `zone`. */
  function ZoneAfter(hosted: Option<HostedZone>, r: Record, zone: Zone, outage: bool): Option<HostedZone> {
    var last := EndpointsOf(r.zones, zone.id);
    if Skips(r, zone) || !Acceptable(hosted, r.spec, last, outage) || hosted == None then hosted
    else Some(Replaced(hosted.value, r.spec, last))
  }

  function UpdateAfter(hosted: Option<HostedZone>, r: Record, zone: Zone, outage: bool, now: int): Option<Update> {
    if Skips(r, zone) then None
    else
      var failed := !Acceptable(hosted, r.spec, EndpointsOf(r.zones, zone.id), outage);
      Some(Update(zone, ConditionFor(PublishedTo(r.zones, zone), failed, now), r.spec))
  }

  lemma AttemptZone(r: Record, p: Progress, zone: Zone, outages: set<string>, now: int, id: string)
    ensures var next := Attempt(r, p, zone, outages, now);
      (id != zone.id ==>
       Lookup(next.live, id) == Lookup(p.live, id) && UpdateOf(next.updates, id) == UpdateOf(p.updates, id)) &&
      (id == zone.id ==>
        Lookup(next.live, id) == ZoneAfter(Lookup(p.live, id), r, zone, id in outages) &&
        UpdateOf(next.updates, id) ==
          (if Skips(r, zone) then UpdateOf(p.updates, id)
           else UpdateAfter(Lookup(p.live, id), r, zone, id in outages, now)))
  {
    if !Skips(r, zone) {
      Publication(p.live, zone.id, r.spec, EndpointsOf(r.zones, zone.id), zone.id in outages);
      var next := Attempt(r, p, zone, outages, now);
      assert next.updates[..|next.updates| - 1] == p.updates;
    }
  }

  lemma {:induction false} OtherZone(configured: seq<Zone>, r: Record, live: Zones, outages: set<string>, now: int,
                                     id: string)
    requires forall i :: 0 <= i < |configured| ==> configured[i].id != id
    ensures var p := Publish(configured, r, live, outages, now);
      Lookup(p.live, id) == Lookup(live, id) && UpdateOf(p.updates, id) == None
  {
    if configured != [] {
      var n := |configured| - 1;
      OtherZone(configured[..n], r, live, outages, now, id);
      AttemptZone(r, Publish(configured[..n], r, live, outages, now), configured[n], outages, now, id);
    }
  }

  /** The zones do not interfere with each other. */
  lemma {:induction false} PublishZone(configured: seq<Zone>, r: Record, live: Zones, outages: set<string>, now: int,
                                       i: nat)
    requires DistinctIDs(configured) && i < |configured|
    ensures var p, zone := Publish(configured, r, live, outages, now), configured[i];
      Lookup(p.live, zone.id) == ZoneAfter(Lookup(live, zone.id), r, zone, zone.id in outages) &&
      UpdateOf(p.updates, zone.id) == UpdateAfter(Lookup(live, zone.id), r, zone, zone.id in outages, now)
  {
    var n, zone := |configured| - 1, configured[i];
    var front := configured[..n];
    FrontZones(configured);
    if i < n {
      assert front[i] == zone && zone.id != configured[n].id;
      PublishZone(front, r, live, outages, now, i);
    } else {
      OtherZone(front, r, live, outages, now, zone.id);
    }
    AttemptZone(r, Publish(front, r, live, outages, now), configured[n], outages, now, zone.id);
  }

  lemma UpdatesMore(updates: seq<Update>, front: seq<Zone>, u: Update)
    requires UpdatesFor(updates, front) && u.condition.kind == Succeeded
    requires forall z :: z in front ==> z.id != u.zone.id
    ensures UpdatesFor(updates + [u], front + [u.zone])
  {
    forall j | 0 <= j < |updates|
      ensures updates[j].zone.id != u.zone.id && updates[j].zone in front + [u.zone]
    {
      assert updates[j].zone in front;
    }
  }

  lemma UpdatesWeaken(updates: seq<Update>, front: seq<Zone>, zone: Zone)
    requires UpdatesFor(updates, front)
    ensures UpdatesFor(updates, front + [zone])
  {
    forall j | 0 <= j < |updates|
      ensures updates[j].zone in front + [zone]
    {
      assert updates[j].zone in front;
    }
  }

  lemma FrontZones(configured: seq<Zone>)
    requires DistinctIDs(configured) && configured != []
    ensures var n := |configured| - 1;
      DistinctIDs(configured[..n]) && configured == configured[..n] + [configured[n]] &&
      forall z :: z in configured[..n] ==> z.id != configured[n].id
  {
    assert forall j :: 0 <= j < |configured| - 1 ==> configured[..|configured| - 1][j] == configured[j];
  }

  lemma {:induction false} PublishUpdates(configured: seq<Zone>, r: Record, live: Zones, outages: set<string>, now: int)
    requires DistinctIDs(configured)
    ensures UpdatesFor(Publish(configured, r, live, outages, now).updates, configured)
  {
    if configured != [] {
      var n := |configured| - 1;
      var front := configured[..n];
      FrontZones(configured);
      PublishUpdates(front, r, live, outages, now);
      var before, after :=
        Publish(front, r, live, outages, now).updates, Publish(configured, r, live, outages, now).updates;
      UpdatesWeaken(before, front, configured[n]);
      if !Skips(r, configured[n]) {
        UpdatesMore(before, front, after[|before|]);
      }
    }
  }

  /** The status a reconcile wants stored for one zone. */
  lemma ReconciledZone(configured: seq<Zone>, r: Record, live: Zones, outages: set<string>, now: int, i: nat)
    requires DistinctIDs(configured) && WellFormed(r.zones, configured) && i < |configured|
    ensures var next, zone := Reconciled(configured, r, live, outages, now), configured[i];
      var published := Skips(r, zone) ||
        Acceptable(Lookup(live, zone.id), r.spec, EndpointsOf(r.zones, zone.id), zone.id in outages);
      next.spec == r.spec && next.generation == next.observed == r.generation && WellFormed(next.zones, configured) &&
      (PublishedTo(next.zones, zone) <==> published) &&
      EndpointsOf(next.zones, zone.id) == if Skips(r, zone) then EndpointsOf(r.zones, zone.id) else r.spec
  {
    var zone, updates := configured[i], Publish(configured, r, live, outages, now).updates;
    var next := Merged(r.zones, updates, now);
    PublishUpdates(configured, r, live, outages, now);
    PublishZone(configured, r, live, outages, now, i);
    MergedStatus(r.zones, updates, now, zone.id, configured);
    MergedFit(r.zones, updates, now, configured);
    SlicesEqualMeans(next, r.zones, configured);
    PublishedToStatus(r.zones, configured, zone);
    PublishedToStatus(next, configured, zone);
    EndpointsOfStatus(r.zones, zone.id);
    EndpointsOfStatus(next, zone.id);
    StatusOfFound(r.zones, configured, zone.id);
    RenewedZone(r, configured, zone, UpdateOf(updates, zone.id), now);
  }

  lemma RenewedZone(r: Record, configured: seq<Zone>, zone: Zone, update: Option<Update>, now: int)
    requires DistinctIDs(configured) && WellFormed(r.zones, configured) && zone in configured
    requires update.Some? ==> update.value.zone == zone && update.value.condition.kind == Succeeded
    ensures var before := StatusOf(r.zones, zone.id);
      update.Some? && before.Some? ==>
        var after := Renewed(before.value, update.value, now);
        |after.conditions| == 1 && after.conditions[0].status == update.value.condition.status &&
          after.endpoints == update.value.endpoints
  {
    StatusOfFound(r.zones, configured, zone.id);
    var before := StatusOf(r.zones, zone.id);
    if update.Some? && before.Some? {
      assert before.value.zone == zone;
      OneCondition(before.value.conditions, update.value.condition, now);
    }
  }
}
