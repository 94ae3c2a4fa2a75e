/** Deleting a DNSRecord (`deleteRecord` in pkg/dns/dns_record.go and the branch that calls it). */
module DnsRecordDeletion {
  import opened Wrappers
  import opened Endpoints
  import opened ZoneStatuses
  import opened Route53
  import opened Batches
  import opened DnsRecordController
  import opened ExactSync

  datatype Deletion = Deletion(live: Zones, errors: seq<Failure>)

  /** Zones with a True condition get the spec's endpoints deleted, whatever was published there. */
  function DeleteFrom(r: Record, d: Deletion, zone: Zone, outages: set<string>): Deletion {
    if !PublishedTo(r.zones, zone) then d
    else
      var outcome := Changed(d.live, zone.id, r.spec, EndpointsOf(r.zones, zone.id), Delete, zone.id in outages);
      Deletion(outcome.zones, if outcome.failure == None then d.errors else d.errors + [outcome.failure.value])
  }

  function DeleteAll(statuses: seq<ZoneStatus>, r: Record, live: Zones, outages: set<string>): Deletion {
    if statuses == [] then Deletion(live, [])
    else
      var n := |statuses| - 1;
      DeleteFrom(r, DeleteAll(statuses[..n], r, live, outages), statuses[n].zone, outages)
  }

  /** The finalizer goes, and with it the object, unless an error stands in the way that does not
      mention a record that was not found. */
  predicate Releases(errors: seq<Failure>) {
    errors == [] || WasNotFound in errors
  }

  method DeleteRecord(record: RecordObject, provider: Provider, outages: set<string>) returns (released: bool)
    modifies provider
    ensures var d := DeleteAll(record.zones, record.Value(), old(provider.zones), outages);
      provider.zones == d.live && (released <==> Releases(d.errors))
  {
    var errors: seq<Failure> := [];
    for i := 0 to |record.zones|
      invariant Deletion(provider.zones, errors) ==
        DeleteAll(record.zones[..i], record.Value(), old(provider.zones), outages)
    {
      assert record.zones[..i + 1][..i] == record.zones[..i];
      var zone := record.zones[i].zone;
      var published := RecordIsAlreadyPublishedToZone(record.zones, zone);
      if !published {
        continue;
      }
      var failure := provider.UpdateRecord(record.spec, record.zones, zone.id, Delete, zone.id in outages);
      if failure.Some? {
        errors := errors + [failure.value];
      }
    }
    assert record.zones[..|record.zones|] == record.zones;
    released := |errors| == 0 || WasNotFound in errors;
  }

  // ---------- one configured zone ----------

  lemma DeleteBatch(live: Zones, id: string, spec: seq<Endpoint>, last: seq<Endpoint>)
    requires id in live && AllPublishable(spec)
    ensures var outcome := Changed(live, id, spec, last, Delete, false);
      (outcome.failure == None <==> DistinctKeys(spec) && Holds(live[id], spec)) &&
      outcome.zones == (if outcome.failure == None then live[id := live[id] - Keys(spec)] else live) &&
      (outcome.failure == Some(WasNotFound) <== !(Keys(spec) <= live[id].Keys)) &&
      (DistinctKeys(spec) && outcome.failure == Some(WasNotFound) ==> !(Keys(spec) <= live[id].Keys))
  {
    DeletesApply(live[id], spec);
    PublishableChanges(spec, Delete);
    var cs := ChangesFor(spec, Delete).value;
    if DistinctKeys(spec) && Keys(spec) <= live[id].Keys {
      OnlyDiffers(live[id], spec);
      NoneMissing(live[id], spec);
    }
    if !(Keys(spec) <= live[id].Keys) {
      var k :| k in Keys(spec) && k !in live[id];
      var i :| 0 <= i < |spec| && KeyOf(spec[i]) == k;
      DeleteChange(spec, i);
      assert cs[i].key !in live[id];
    }
  }

  /** Deleting records that are all there, each once, can only fail for their values. */
  lemma {:induction false} OnlyDiffers(zone: HostedZone, spec: seq<Endpoint>)
    requires AllPublishable(spec) && DistinctKeys(spec) && Keys(spec) <= zone.Keys
    ensures ChangesFor(spec, Delete).Ok?
    ensures OnlyForValues(Apply(zone, ChangesFor(spec, Delete).value), zone.Keys - Keys(spec))
  {
    PublishableChanges(spec, Delete);
    if spec == [] {
      assert Keys(spec) == {};
    } else {
      var front, last := spec[..|spec| - 1], spec[|spec| - 1];
      assert spec == front + [last];
      LastOfSpec(zone.Keys, front, last);
      OnlyDiffers(zone, front);
      ChangesSnoc(front, last, Delete);
      OneMoreDeleted(zone, ChangesFor(front, Delete).value, zone.Keys - Keys(front), last);
    }
  }

  lemma LastOfSpec(keys: set<RecordKey>, front: seq<Endpoint>, last: Endpoint)
    requires DistinctKeys(front + [last]) && Keys(front + [last]) <= keys
    ensures DistinctKeys(front) && Keys(front) <= keys && KeyOf(last) in keys - Keys(front)
    ensures keys - Keys(front + [last]) == keys - Keys(front) - {KeyOf(last)}
  {
    var spec := front + [last];
    KeysMore(front, last);
    assert spec[|front|] == last && forall i :: 0 <= i < |front| ==> spec[i] == front[i];
  }

  /** The deletions so far were refused for values only, or have left these records. */
  predicate OnlyForValues(applied: Result<HostedZone, Failure>, left: set<RecordKey>) {
    match applied
    case Err(f) => f == ValuesDiffer
    case Ok(z) => z.Keys == left
  }

  lemma OneMoreDeleted(zone: HostedZone, cs: seq<Change>, left: set<RecordKey>, e: Endpoint)
    requires OnlyForValues(Apply(zone, cs), left) && KeyOf(e) in left
    ensures OnlyForValues(Apply(zone, cs + [Change(Delete, KeyOf(e), RecordOf(e))]), left - {KeyOf(e)})
  {
    ApplySnoc(zone, cs, Change(Delete, KeyOf(e), RecordOf(e)));
  }

  lemma KeysMore(es: seq<Endpoint>, e: Endpoint)
    ensures Keys(es + [e]) == Keys(es) + {KeyOf(e)}
  {
    forall k
      ensures k in Keys(es + [e]) <==> k in Keys(es) || k == KeyOf(e)
    {
      if i :| 0 <= i < |es| && KeyOf(es[i]) == k {
        assert KeyOf((es + [e])[i]) == k;
      }
      assert KeyOf((es + [e])[|es|]) == KeyOf(e);
    }
  }

  lemma NoneMissing(zone: HostedZone, spec: seq<Endpoint>)
    requires AllPublishable(spec) && Keys(spec) <= zone.Keys
    ensures ChangesFor(spec, Delete).Ok? && !Misses(zone, ChangesFor(spec, Delete).value)
  {
    PublishableChanges(spec, Delete);
    var cs := ChangesFor(spec, Delete).value;
    forall i | 0 <= i < |cs|
      ensures cs[i].key in zone
    {
      ChangesLength(spec, Delete);
      DeleteChange(spec, i);
      assert KeyOf(spec[i]) in Keys(spec);
    }
  }

  lemma {:induction false} ChangesLength(es: seq<Endpoint>, action: Action)
    requires ChangesFor(es, action).Ok?
    ensures |ChangesFor(es, action).value| == |es|
  {
    if es != [] {
      ChangesLength(es[..|es| - 1], action);
    }
  }

  lemma {:induction false} DeleteChange(es: seq<Endpoint>, i: nat)
    requires i < |es| && ChangesFor(es, Delete).Ok?
    ensures var cs := ChangesFor(es, Delete).value;
      |cs| == |es| && cs[i] == Change(Delete, KeyOf(es[i]), RecordOf(es[i]))
  {
    var n := |es| - 1;
    PublishableChanges(es, Delete);
    if i < n {
      DeleteChange(es[..n], i);
    }
    PublishableChanges(es[..n], Delete);
  }

  /** The deletion of a record published in its one zone, in one formula. */
  lemma OneZone(r: Record, live: Zones, zone: Zone, host: string, foreign: HostedZone)
    requires |r.zones| == 1 && r.zones[0].zone == zone && PublishedTo(r.zones, zone)
    requires InSync(Lookup(live, zone.id), r, zone, host, foreign)
    ensures var d, last := DeleteAll(r.zones, r, live, {}), EndpointsOf(r.zones, zone.id);
      (d.errors == [] <==> Contains(Desired(last), Desired(r.spec))) && |d.errors| <= 1 &&
      Lookup(d.live, zone.id) ==
        Some(if d.errors == [] then (foreign + Desired(last)) - Keys(r.spec) else foreign + Desired(last)) &&
      (!(Keys(r.spec) <= Keys(last)) ==> d == Deletion(live, [WasNotFound]))
  {
    var last := EndpointsOf(r.zones, zone.id);
    assert r.zones[..0] == [];
    DeleteBatch(live, zone.id, r.spec, last);
    SpecHeld(foreign, last, r.spec);
    DesiredKeys(last);
  }

  /** Deleting a published record in its only zone releases the object and leaves nothing of it
      behind, if and only if the zone was up to date with the spec, or held nothing of it; in
      particular a record that was emptied before its deletion leaves everything behind. */
  lemma DeletesCleanly(r: Record, live: Zones, zone: Zone, host: string, foreign: HostedZone)
    requires |r.zones| == 1 && r.zones[0].zone == zone && PublishedTo(r.zones, zone)
    requires InSync(Lookup(live, zone.id), r, zone, host, foreign)
    ensures var d, last := DeleteAll(r.zones, r, live, {}), EndpointsOf(r.zones, zone.id);
      Releases(d.errors) && Lookup(d.live, zone.id) == Some(foreign) <==> last == [] || Desired(r.spec) == Desired(last)
  {
    var d, last := DeleteAll(r.zones, r, live, {}), EndpointsOf(r.zones, zone.id);
    OneZone(r, live, zone, host, foreign);
    CleanOutcome(d.errors, Lookup(d.live, zone.id), foreign, last, r.spec);
  }

  lemma CleanOutcome(errors: seq<Failure>, left: Option<HostedZone>, foreign: HostedZone,
                     last: seq<Endpoint>, spec: seq<Endpoint>)
    requires Keys(last) !! foreign.Keys && Keys(spec) !! foreign.Keys
    requires (errors == [] <==> Contains(Desired(last), Desired(spec))) && |errors| <= 1
    requires left == Some(if errors == [] then (foreign + Desired(last)) - Keys(spec) else foreign + Desired(last))
    requires !(Keys(spec) <= Keys(last)) ==> errors == [WasNotFound]
    ensures Releases(errors) && left == Some(foreign) <==> last == [] || Desired(spec) == Desired(last)
  {
    if last == [] {
      NothingThere(foreign, spec);
    } else {
      NotForeign(foreign, last);
      Emptied(foreign, last, spec);
    }
  }

  lemma NothingThere(foreign: HostedZone, spec: seq<Endpoint>)
    ensures Keys([]) == {} && foreign + Desired([]) == foreign
    ensures spec == [] ==> foreign - Keys(spec) == foreign && Contains(Desired([]), Desired(spec))
    ensures spec != [] ==> !(Keys(spec) <= {})
  {
    assert spec != [] ==> KeyOf(spec[0]) in Keys(spec);
  }

  lemma Emptied(foreign: HostedZone, last: seq<Endpoint>, spec: seq<Endpoint>)
    requires Keys(last) !! foreign.Keys && Keys(spec) !! foreign.Keys
    ensures Contains(Desired(last), Desired(spec)) && (foreign + Desired(last)) - Keys(spec) == foreign <==>
      Desired(spec) == Desired(last)
  {
    DesiredKeys(last);
    DesiredKeys(spec);
    if Desired(spec) == Desired(last) {
      assert (foreign + Desired(last)) - Keys(spec) == foreign;
    } else if Contains(Desired(last), Desired(spec)) {
      LeftBehind(foreign, last, spec);
    }
  }

  lemma SpecHeld(foreign: HostedZone, last: seq<Endpoint>, spec: seq<Endpoint>)
    requires Keys(spec) !! foreign.Keys && DistinctKeys(spec)
    ensures Holds(foreign + Desired(last), spec) <==> Contains(Desired(last), Desired(spec))
  {
    DesiredKeys(spec);
    DesiredHolds(spec);
    if Holds(foreign + Desired(last), spec) {
      HoldsDesired(foreign + Desired(last), spec);
    }
  }

  lemma LeftBehind(foreign: HostedZone, last: seq<Endpoint>, spec: seq<Endpoint>)
    requires Contains(Desired(last), Desired(spec)) && Desired(spec) != Desired(last) && Keys(last) !! foreign.Keys
    ensures (foreign + Desired(last)) - Keys(spec) != foreign
  {
    DesiredKeys(last);
    DesiredKeys(spec);
    var k :| k in Desired(last) && k !in Desired(spec);
    assert k in (foreign + Desired(last)) - Keys(spec);
  }

  lemma NotForeign(foreign: HostedZone, last: seq<Endpoint>)
    requires Keys(last) !! foreign.Keys && last != []
    ensures foreign + Desired(last) != foreign
  {
    DesiredKeys(last);
    assert KeyOf(last[0]) in Keys(last);
    assert KeyOf(last[0]) in foreign + Desired(last);
  }

  /** A new endpoint that was never published makes the whole deletion a no-op that nevertheless
      releases the object: everything published before stays. */
  lemma ReleasedWithLeftovers(r: Record, live: Zones, zone: Zone, host: string, foreign: HostedZone)
    requires |r.zones| == 1 && r.zones[0].zone == zone && PublishedTo(r.zones, zone) && r.spec != []
    requires InSync(Lookup(live, zone.id), r, zone, host, foreign)
    requires !(Keys(r.spec) <= Keys(EndpointsOf(r.zones, zone.id)))
    ensures DeleteAll(r.zones, r, live, {}) == Deletion(live, [WasNotFound])
    ensures Releases([WasNotFound])
  {
    OneZone(r, live, zone, host, foreign);
  }
}
