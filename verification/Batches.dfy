/** What a change batch of the Route53 provider does to a hosted zone. */
module Batches {
  import opened Wrappers
  import opened Decimal
  import opened Endpoints
  import opened Route53

  /** The record sets an endpoint list stands for; of two with the same key the later counts. */
  function Desired(es: seq<Endpoint>): HostedZone {
    if es == [] then map[]
    else Desired(es[..|es| - 1])[KeyOf(es[|es| - 1]) := RecordOf(es[|es| - 1])]
  }

  predicate AllPublishable(es: seq<Endpoint>) {
    forall i :: 0 <= i < |es| ==> Publishable(es[i])
  }

  predicate DistinctKeys(es: seq<Endpoint>) {
    forall i, j :: 0 <= i < j < |es| ==> KeyOf(es[i]) != KeyOf(es[j])
  }

  /** The zone holds each of these record sets, with the values the endpoints give. */
  predicate Holds(zone: HostedZone, es: seq<Endpoint>) {
    forall i :: 0 <= i < |es| ==> KeyOf(es[i]) in zone && zone[KeyOf(es[i])] == RecordOf(es[i])
  }

  /** The weight is the number its text stands for, or zero if it stands for none. */
  ghost predicate WeighsAsAsked(ps: seq<Property>, weight: Option<int>) {
    if weight == None then Says(ps, Weight, None)
    else
      exists text :: Says(ps, Weight, Some(text)) &&
        weight == Some(if Atoi(text).ok then Atoi(text).value else 0)
  }

  /** The record of the endpoint, field by field. */
  ghost predicate AsAsked(record: RecordSet, e: Endpoint) {
    record.ttl == e.ttl && record.values == e.targets && WeighsAsAsked(e.providerSpecific, record.weight) &&
    Says(e.providerSpecific, Region, record.region) && Says(e.providerSpecific, Failover, record.failover) &&
    Says(e.providerSpecific, HealthCheckId, record.healthCheckId) &&
    (record.multiValueAnswer <==> !Says(e.providerSpecific, MultiValueAnswer, None))
  }

  /** The zone answers for the endpoint's name and identifier with just that record. */
  ghost predicate LiveAs(zone: HostedZone, e: Endpoint) {
    var k := RecordKey(e.dnsName, e.setIdentifier);
    k in zone && AsAsked(zone[k], e)
  }

  lemma RecordAsAsked(e: Endpoint)
    ensures AsAsked(RecordOf(e), e)
  {
    var ps := e.providerSpecific;
    FindSays(ps, Weight);
    FindSays(ps, Region);
    FindSays(ps, Failover);
    FindSays(ps, HealthCheckId);
    FindSays(ps, MultiValueAnswer);
  }

  lemma HeldAsAsked(zone: HostedZone, es: seq<Endpoint>)
    requires Holds(zone, es)
    ensures forall i :: 0 <= i < |es| ==> LiveAs(zone, es[i])
  {
    forall i | 0 <= i < |es|
      ensures LiveAs(zone, es[i])
    {
      RecordAsAsked(es[i]);
    }
  }

  predicate Contains(zone: HostedZone, part: HostedZone) {
    forall k :: k in part ==> k in zone && zone[k] == part[k]
  }

  lemma {:induction false} DesiredKeys(es: seq<Endpoint>)
    ensures Desired(es).Keys == Keys(es)
  {
    if es == [] {
      assert Keys(es) == {};
    } else {
      var n := |es| - 1;
      DesiredKeys(es[..n]);
      KeysSnoc(es[..n], es[n]);
      assert es == es[..n] + [es[n]];
    }
  }

  lemma KeysSnoc(es: seq<Endpoint>, e: Endpoint)
    ensures Keys(es + [e]) == Keys(es) + {KeyOf(e)}
  {
    var more := es + [e];
    forall k
      ensures k in Keys(more) <==> k in Keys(es) || k == KeyOf(e)
    {
      if k == KeyOf(e) {
        assert KeyOf(more[|es|]) == k;
      }
      if k in Keys(es) {
        var i :| 0 <= i < |es| && KeyOf(es[i]) == k;
        assert KeyOf(more[i]) == k;
      }
    }
  }

  /** Without repeated keys, holding the endpoints is containing what they stand for. */
  lemma {:induction false} HoldsDesired(zone: HostedZone, es: seq<Endpoint>)
    requires Holds(zone, es)
    ensures Contains(zone, Desired(es))
  {
    if es != [] {
      HoldsDesired(zone, es[..|es| - 1]);
    }
  }

  lemma {:induction false} DesiredHolds(es: seq<Endpoint>)
    requires DistinctKeys(es)
    ensures Holds(Desired(es), es)
  {
    if es != [] {
      var n := |es| - 1;
      DesiredHolds(es[..n]);
      forall i | 0 <= i < n
        ensures KeyOf(es[i]) in Desired(es) && Desired(es)[KeyOf(es[i])] == RecordOf(es[i])
      {
        assert es[..n][i] == es[i];
      }
    }
  }

  /** One unusable endpoint spoils the batch before it is sent. */
  lemma {:induction false} PublishableChanges(es: seq<Endpoint>, action: Action)
    ensures ChangesFor(es, action).Ok? <==> AllPublishable(es)
    ensures ChangesFor(es, action).Ok? ==> |ChangesFor(es, action).value| == |es|
  {
    if es != [] {
      var n := |es| - 1;
      PublishableChanges(es[..n], action);
      assert AllPublishable(es) <==> AllPublishable(es[..n]) && Publishable(es[n]) by {
        assert forall i :: 0 <= i < n ==> es[..n][i] == es[i];
      }
    }
  }

  lemma ApplySnoc(zone: HostedZone, cs: seq<Change>, c: Change)
    ensures Apply(zone, cs + [c]) == if Apply(zone, cs).Ok? then ApplyOne(Apply(zone, cs).value, c) else Apply(zone, cs)
  {
    assert (cs + [c])[..|cs|] == cs;
  }

  lemma {:induction false} ApplyConcat(zone: HostedZone, cs: seq<Change>, ds: seq<Change>)
    ensures Apply(zone, cs + ds) == if Apply(zone, cs).Ok? then Apply(Apply(zone, cs).value, ds) else Apply(zone, cs)
  {
    if ds == [] {
      assert cs + ds == cs;
    } else {
      var n := |ds| - 1;
      ApplyConcat(zone, cs, ds[..n]);
      ApplySnoc(zone, cs + ds[..n], ds[n]);
      assert cs + ds == (cs + ds[..n]) + [ds[n]];
    }
  }

  lemma {:induction false} UpsertsApply(zone: HostedZone, es: seq<Endpoint>)
    requires AllPublishable(es)
    ensures ChangesFor(es, Upsert).Ok? && Apply(zone, ChangesFor(es, Upsert).value) == Ok(zone + Desired(es))
  {
    if es == [] {
      assert zone + Desired(es) == zone;
    } else {
      var n := |es| - 1;
      assert AllPublishable(es[..n]) && Publishable(es[n]);
      UpsertsApply(zone, es[..n]);
      ApplySnoc(zone, ChangesFor(es[..n], Upsert).value, Change(Upsert, KeyOf(es[n]), RecordOf(es[n])));
      UpdateSum(zone, Desired(es[..n]), KeyOf(es[n]), RecordOf(es[n]));
    }
  }

  lemma UpdateSum(zone: HostedZone, more: HostedZone, k: RecordKey, r: RecordSet)
    ensures zone + more[k := r] == (zone + more)[k := r]
  {
  }

  lemma RemoveFromSum(zone: HostedZone, more: HostedZone, keys: set<RecordKey>)
    requires more.Keys !! keys
    ensures (zone + more) - keys == (zone - keys) + more
  {
  }

  /** A batch of deletes is accepted exactly when every record is there as described, and named
      once; it then takes away just those. */
  lemma {:induction false} DeletesApply(zone: HostedZone, es: seq<Endpoint>)
    requires AllPublishable(es)
    ensures ChangesFor(es, Delete).Ok?
    ensures var applied := Apply(zone, ChangesFor(es, Delete).value);
      (applied.Ok? <==> DistinctKeys(es) && Holds(zone, es)) && (applied.Ok? ==> applied.value == zone - Keys(es))
  {
    if es == [] {
      assert Keys(es) == {} && zone - {} == zone;
    } else {
      var n := |es| - 1;
      var front, e := es[..n], es[n];
      assert es == front + [e];
      DeletesApply(zone, front);
      PublishableChanges(es, Delete);
      ApplySnoc(zone, ChangesFor(front, Delete).value, Change(Delete, KeyOf(e), RecordOf(e)));
      KeysSnoc(front, e);
      DeleteOne(zone, front, e);
    }
  }

  lemma DeleteOne(zone: HostedZone, front: seq<Endpoint>, e: Endpoint)
    ensures var applied := ApplyOne(zone - Keys(front), Change(Delete, KeyOf(e), RecordOf(e)));
      (DistinctKeys(front) && Holds(zone, front) && applied.Ok? <==>
       DistinctKeys(front + [e]) && Holds(zone, front + [e])) &&
      (applied.Ok? ==> applied.value == zone - Keys(front) - {KeyOf(e)} == zone - (Keys(front) + {KeyOf(e)}))
  {
    var es := front + [e];
    assert Holds(zone, es) <==> Holds(zone, front) && KeyOf(e) in zone && zone[KeyOf(e)] == RecordOf(e) by {
      assert forall i :: 0 <= i < |front| ==> es[i] == front[i];
      assert es[|front|] == e;
    }
    assert DistinctKeys(es) <==> DistinctKeys(front) && KeyOf(e) !in Keys(front) by {
      assert forall i :: 0 <= i < |front| ==> es[i] == front[i];
      assert es[|front|] == e;
    }
  }

  // ---------- the batch of one publication ----------

  function StaleFor(spec: seq<Endpoint>, last: seq<Endpoint>): seq<Endpoint> {
    Stale(last, SetIDs(spec))
  }

  lemma SameKeySameID(spec: seq<Endpoint>, e: Endpoint)
    ensures KeyOf(e) in Keys(spec) ==> e.SetID() in SetIDs(spec)
  {
    if i :| 0 <= i < |spec| && KeyOf(spec[i]) == KeyOf(e) {
      assert spec[i].SetID() == e.SetID();
    }
  }

  /** A batch never both writes and deletes an identity, nor a record. */
  lemma NoConflict(spec: seq<Endpoint>, last: seq<Endpoint>)
    ensures SetIDs(spec) !! SetIDs(StaleFor(spec, last)) && Keys(spec) !! Keys(StaleFor(spec, last))
  {
    var stale := StaleFor(spec, last);
    forall j | 0 <= j < |stale|
      ensures stale[j].SetID() !in SetIDs(spec) && KeyOf(stale[j]) !in Keys(spec)
    {
      StaleMember(last, SetIDs(spec), stale[j]);
      SameKeySameID(spec, stale[j]);
    }
  }

  /** What the zone looks like after a successful publication. */
  function Replaced(zone: HostedZone, spec: seq<Endpoint>, last: seq<Endpoint>): HostedZone {
    (zone - Keys(StaleFor(spec, last))) + Desired(spec)
  }

  /** The publication of `spec` over `last` is accepted exactly when all endpoints are usable and,
      if there is anything to send, the zone can be reached and holds what is to be deleted. */
  predicate Acceptable(zone: Option<HostedZone>, spec: seq<Endpoint>, last: seq<Endpoint>, outage: bool) {
    var stale := StaleFor(spec, last);
    AllPublishable(spec) && AllPublishable(stale) &&
    (spec + stale == [] || (!outage && zone.Some? && DistinctKeys(stale) && Holds(zone.value, stale)))
  }

  lemma HoldsOther(zone: HostedZone, more: HostedZone, es: seq<Endpoint>)
    requires more.Keys !! Keys(es)
    ensures Holds(zone + more, es) <==> Holds(zone, es)
  {
    forall i | 0 <= i < |es|
      ensures KeyOf(es[i]) !in more
    {
      assert KeyOf(es[i]) in Keys(es);
    }
  }

  lemma PublishApplies(zone: HostedZone, spec: seq<Endpoint>, last: seq<Endpoint>)
    requires AllPublishable(spec) && AllPublishable(StaleFor(spec, last))
    ensures Batch(spec, last, Upsert).Ok?
    ensures var applied := Apply(zone, Batch(spec, last, Upsert).value);
      (applied.Ok? <==> DistinctKeys(StaleFor(spec, last)) && Holds(zone, StaleFor(spec, last))) &&
      (applied.Ok? ==> applied.value == Replaced(zone, spec, last))
  {
    var stale := StaleFor(spec, last);
    var upserts, deletes := ChangesFor(spec, Upsert), ChangesFor(stale, Delete);
    NoConflict(spec, last);
    DesiredKeys(spec);
    UpsertsApply(zone, spec);
    DeletesApply(zone + Desired(spec), stale);
    ApplyConcat(zone, upserts.value, deletes.value);
    HoldsOther(zone, Desired(spec), stale);
    RemoveFromSum(zone, Desired(spec), Keys(stale));
    assert Batch(spec, last, Upsert) == Ok(upserts.value + deletes.value);
  }

  /** The whole call: when it succeeds, and what it leaves behind. */
  lemma Publication(zones: Zones, zoneID: string, spec: seq<Endpoint>, last: seq<Endpoint>, outage: bool)
    ensures var outcome := Changed(zones, zoneID, spec, last, Upsert, outage);
      (outcome.failure == None <==> Acceptable(Lookup(zones, zoneID), spec, last, outage)) &&
      (outcome.failure.Some? ==> outcome.zones == zones) &&
      (outcome.failure == None && zoneID in zones ==>
       outcome.zones == zones[zoneID := Replaced(zones[zoneID], spec, last)])
  {
    var stale := StaleFor(spec, last);
    PublishableChanges(spec, Upsert);
    PublishableChanges(stale, Delete);
    if AllPublishable(spec) && AllPublishable(stale) {
      if zoneID in zones {
        PublishApplies(zones[zoneID], spec, last);
        if spec + stale == [] {
          assert spec == [] && stale == [];
          assert Keys(stale) == {};
          assert Replaced(zones[zoneID], spec, last) == zones[zoneID];
          assert zones[zoneID := zones[zoneID]] == zones;
        }
      }
    }
  }

  // ---------- exactness ----------

  /** Whoever left the spec's records also left its identities. */
  predicate Coherent(spec: seq<Endpoint>, last: seq<Endpoint>) {
    forall i :: 0 <= i < |last| && last[i].SetID() in SetIDs(spec) ==> KeyOf(last[i]) in Keys(spec)
  }

  /** A publication leaves exactly the spec of what it published before, if and only if no
      previous endpoint shares its identity, but not its record, with one of the spec. */
  lemma ExactStep(zone: HostedZone, spec: seq<Endpoint>, last: seq<Endpoint>)
    requires Keys(last) <= zone.Keys
    ensures Replaced(zone, spec, last) == (zone - Keys(last)) + Desired(spec) <==> Coherent(spec, last)
  {
    var stale := StaleFor(spec, last);
    DesiredKeys(spec);
    StaleKeys(spec, last);
    if !Coherent(spec, last) {
      var i :| 0 <= i < |last| && last[i].SetID() in SetIDs(spec) && KeyOf(last[i]) !in Keys(spec);
      var k := KeyOf(last[i]);
      assert k in Keys(last);
      KeptBack(spec, last, i);
      assert k in Replaced(zone, spec, last) && k !in (zone - Keys(last)) + Desired(spec);
    }
  }

  lemma StaleKeys(spec: seq<Endpoint>, last: seq<Endpoint>)
    ensures Keys(StaleFor(spec, last)) <= Keys(last)
    ensures Coherent(spec, last) ==> Keys(last) <= Keys(StaleFor(spec, last)) + Keys(spec)
  {
    var stale := StaleFor(spec, last);
    forall j | 0 <= j < |stale|
      ensures KeyOf(stale[j]) in Keys(last)
    {
      StaleMember(last, SetIDs(spec), stale[j]);
    }
    forall i | 0 <= i < |last| && last[i].SetID() !in SetIDs(spec)
      ensures KeyOf(last[i]) in Keys(stale)
    {
      StaleMember(last, SetIDs(spec), last[i]);
    }
  }

  lemma KeptBack(spec: seq<Endpoint>, last: seq<Endpoint>, i: nat)
    requires i < |last| && last[i].SetID() in SetIDs(spec)
    ensures KeyOf(last[i]) !in Keys(StaleFor(spec, last))
  {
    var stale := StaleFor(spec, last);
    if j :| 0 <= j < |stale| && KeyOf(stale[j]) == KeyOf(last[i]) {
      StaleMember(last, SetIDs(spec), stale[j]);
    }
  }

  /** The endpoints the ingress controller writes: one managed host, one address each. */
  predicate Managed(es: seq<Endpoint>, host: string) {
    forall i :: 0 <= i < |es| ==> es[i].dnsName == host && es[i].setIdentifier != ""
  }

  lemma ManagedCoherent(spec: seq<Endpoint>, last: seq<Endpoint>, host: string)
    requires Managed(spec, host) && Managed(last, host)
    ensures Coherent(spec, last)
  {
    forall i | 0 <= i < |last| && last[i].SetID() in SetIDs(spec)
      ensures KeyOf(last[i]) in Keys(spec)
    {
      var j :| 0 <= j < |spec| && spec[j].SetID() == last[i].SetID();
      assert KeyOf(spec[j]) == KeyOf(last[i]);
    }
  }
}
