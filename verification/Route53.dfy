/** The Route53 provider (pkg/dns/aws/dns.go): from endpoints to one atomic change batch. */
module Route53 {
  import opened Wrappers
  import opened Decimal
  import opened Endpoints
  import opened ZoneStatuses

  /** Route53 tells A records of a hosted zone apart by name and set identifier. */
  datatype RecordKey = RecordKey(name: string, setIdentifier: string)

  datatype RecordSet = RecordSet(
    ttl: int, values: seq<string>, weight: Option<int>, region: Option<string>, failover: Option<string>,
    multiValueAnswer: bool, healthCheckId: Option<string>)

  type HostedZone = map<RecordKey, RecordSet>

  datatype Action = Upsert | Delete

  datatype Change = Change(action: Action, key: RecordKey, record: RecordSet)

  datatype Failure = UnsupportedType | DomainRequired | TargetsRequired | WasNotFound | ValuesDiffer | Unavailable

  // ---------- one endpoint ----------

  function KeyOf(e: Endpoint): RecordKey { RecordKey(e.dnsName, e.setIdentifier) }

  /** A weight that does not parse counts as zero. */
  function WeightOf(value: string): int {
    if Atoi(value).ok then Atoi(value).value else 0
  }

  function RecordOf(e: Endpoint): RecordSet {
    var ps := e.providerSpecific;
    var weight := FindProperty(ps, Weight);
    RecordSet(
      e.ttl, e.targets, if weight.Some? then Some(WeightOf(weight.value)) else None, FindProperty(ps, Region),
      FindProperty(ps, Failover), FindProperty(ps, MultiValueAnswer).Some?, FindProperty(ps, HealthCheckId))
  }

  predicate Publishable(e: Endpoint) {
    e.recordType == A && e.dnsName != "" && e.targets != []
  }

  function ChangeFor(e: Endpoint, action: Action): Result<Change, Failure> {
    if e.recordType != A then Err(UnsupportedType)
    else if e.dnsName == "" then Err(DomainRequired)
    else if e.targets == [] then Err(TargetsRequired)
    else Ok(Change(action, KeyOf(e), RecordOf(e)))
  }

  function ChangesFor(es: seq<Endpoint>, action: Action): Result<seq<Change>, Failure> {
    if es == [] then Ok([])
    else
      match ChangesFor(es[..|es| - 1], action)
      case Err(f) => Err(f)
      case Ok(cs) =>
        match ChangeFor(es[|es| - 1], action)
        case Err(f) => Err(f)
        case Ok(c) => Ok(cs + [c])
  }

  // ---------- the batch ----------

  function SetIDs(es: seq<Endpoint>): (ids: set<string>)
    ensures forall id :: id in ids <==> exists i :: 0 <= i < |es| && es[i].SetID() == id
  {
    set i | 0 <= i < |es| :: es[i].SetID()
  }

  function Keys(es: seq<Endpoint>): (keys: set<RecordKey>)
    ensures forall k :: k in keys <==> exists i :: 0 <= i < |es| && KeyOf(es[i]) == k
  {
    set i | 0 <= i < |es| :: KeyOf(es[i])
  }

  /** The previously published endpoints whose identity is gone from the spec. */
  function Stale(last: seq<Endpoint>, expected: set<string>): seq<Endpoint> {
    if last == [] then []
    else
      var e := last[|last| - 1];
      Stale(last[..|last| - 1], expected) + (if e.SetID() in expected then [] else [e])
  }

  lemma {:induction false} StaleMember(last: seq<Endpoint>, expected: set<string>, e: Endpoint)
    ensures e in Stale(last, expected) <==> e in last && e.SetID() !in expected
  {
    if last != [] {
      StaleMember(last[..|last| - 1], expected, e);
      assert last == last[..|last| - 1] + [last[|last| - 1]];
    }
  }

  /** Where endpoints have no identifier, they are stale exactly when their name is gone. */
  lemma StaleByName(last: seq<Endpoint>, spec: seq<Endpoint>, e: Endpoint)
    requires e.setIdentifier == "" && forall i :: 0 <= i < |spec| ==> spec[i].setIdentifier == ""
    ensures e in Stale(last, SetIDs(spec)) <==>
      e in last && forall i :: 0 <= i < |spec| ==> spec[i].dnsName != e.dnsName
  {
    StaleMember(last, SetIDs(spec), e);
    assert forall i :: 0 <= i < |spec| ==> spec[i].SetID() == spec[i].dnsName;
  }

  /** Where they have one, exactly when that is gone. */
  lemma StaleByIdentifier(last: seq<Endpoint>, spec: seq<Endpoint>, e: Endpoint)
    requires e.setIdentifier != "" && forall i :: 0 <= i < |spec| ==> spec[i].setIdentifier != ""
    ensures e in Stale(last, SetIDs(spec)) <==>
      e in last && forall i :: 0 <= i < |spec| ==> spec[i].setIdentifier != e.setIdentifier
  {
    StaleMember(last, SetIDs(spec), e);
    assert forall i :: 0 <= i < |spec| ==> spec[i].SetID() == spec[i].setIdentifier;
  }

  function Batch(spec: seq<Endpoint>, last: seq<Endpoint>, action: Action): Result<seq<Change>, Failure> {
    match ChangesFor(spec, action)
    case Err(f) => Err(f)
    case Ok(changes) =>
      if action == Delete then Ok(changes)
      else
        match ChangesFor(Stale(last, SetIDs(spec)), Delete)
        case Err(f) => Err(f)
        case Ok(deletes) => Ok(changes + deletes)
  }

  // ---------- the hosted zone ----------

  function ApplyOne(zone: HostedZone, c: Change): Result<HostedZone, Failure> {
    if c.action == Upsert then Ok(zone[c.key := c.record])
    else if c.key !in zone then Err(WasNotFound)
    else if zone[c.key] != c.record then Err(ValuesDiffer)
    else Ok(zone - {c.key})
  }

  /** All changes of a batch, or none. */
  function Apply(zone: HostedZone, cs: seq<Change>): Result<HostedZone, Failure> {
    if cs == [] then Ok(zone)
    else
      match Apply(zone, cs[..|cs| - 1])
      case Err(f) => Err(f)
      case Ok(z) => ApplyOne(z, cs[|cs| - 1])
  }

  /** The batch deletes a record that is not there; the error message then says so. */
  predicate Misses(zone: HostedZone, cs: seq<Change>) {
    exists i :: 0 <= i < |cs| && cs[i].action == Delete && cs[i].key !in zone
  }

  type Zones = map<string, HostedZone>

  datatype Outcome = Outcome(zones: Zones, failure: Option<Failure>)

  /** `ChangeResourceRecordSets`: atomic; `outage` stands for every failure that is not the
      batch's own fault. */
  function Submit(zones: Zones, zoneID: string, cs: seq<Change>, outage: bool): Outcome {
    if outage || zoneID !in zones then Outcome(zones, Some(Unavailable))
    else
      match Apply(zones[zoneID], cs)
      case Err(f) => Outcome(zones, Some(if Misses(zones[zoneID], cs) then WasNotFound else f))
      case Ok(z) => Outcome(zones[zoneID := z], None)
  }

  /** `updateRecord` as a value; an empty batch is not even sent. */
  function Changed(zones: Zones, zoneID: string, spec: seq<Endpoint>, last: seq<Endpoint>, action: Action,
                   outage: bool): Outcome {
    match Batch(spec, last, action)
    case Err(f) => Outcome(zones, Some(f))
    case Ok(cs) => if cs == [] then Outcome(zones, None) else Submit(zones, zoneID, cs, outage)
  }

  class Provider {
    var zones: Zones

    constructor (zones: Zones)
      ensures this.zones == zones
    {
      this.zones := zones;
    }

    method ChangeResourceRecordSets(zoneID: string, changes: seq<Change>, outage: bool)
      returns (failure: Option<Failure>)
      modifies this
      ensures Outcome(zones, failure) == Submit(old(zones), zoneID, changes, outage)
    {
      if outage || zoneID !in zones {
        return Some(Unavailable);
      }
      var zone := zones[zoneID];
      for i := 0 to |changes|
        invariant Apply(zones[zoneID], changes[..i]) == Ok(zone)
        invariant zones == old(zones)
      {
        assert changes[..i + 1][..i] == changes[..i];
        var next := ApplyOne(zone, changes[i]);
        if next.Err? {
          Rejected(zones[zoneID], changes, i + 1);
          return Some(if Misses(zones[zoneID], changes) then WasNotFound else next.error);
        }
        zone := next.value;
      }
      assert changes[..|changes|] == changes;
      zones := zones[zoneID := zone];
      return None;
    }

    method UpdateRecord(spec: seq<Endpoint>, statuses: seq<ZoneStatus>, zoneID: string, action: Action, outage: bool)
      returns (failure: Option<Failure>)
      modifies this
      ensures Outcome(zones, failure) ==
        Changed(old(zones), zoneID, spec, EndpointsOf(statuses, zoneID), action, outage)
    {
      var changes, expected, error := CollectChanges(spec, action);
      if error.Some? {
        return error;
      }
      if action != Delete {
        var last := EndpointsFromZoneStatus(statuses, zoneID);
        var deletes;
        deletes, error := CollectDeletes(last, expected);
        if error.Some? {
          return error;
        }
        changes := changes + deletes;
      }
      if changes == [] {
        return None;
      }
      failure := ChangeResourceRecordSets(zoneID, changes, outage);
    }
  }

  /** A batch is refused as deleting what "was not found" for its deletions only: one that writes a
      new record and deletes one that is there, with other values, is refused for these. */
  lemma NotMissing(zones: Zones, zoneID: string, written: RecordKey, deleted: RecordKey, r: RecordSet, s: RecordSet)
    requires zoneID in zones && deleted in zones[zoneID] && zones[zoneID][deleted] != s && written != deleted
    ensures Submit(zones, zoneID, [Change(Upsert, written, r)] + [Change(Delete, deleted, s)], false) ==
      Outcome(zones, Some(ValuesDiffer))
  {
    var zone, first, second := zones[zoneID], Change(Upsert, written, r), Change(Delete, deleted, s);
    assert ([first] + [second])[..1] == [first] && [first][..0] == [];
    assert Apply(zone, []) == Ok(zone);
    assert Apply(zone, [first]) == Ok(zone[written := r]);
  }

  lemma {:induction false} Rejected(zone: HostedZone, cs: seq<Change>, n: nat)
    requires n <= |cs| && Apply(zone, cs[..n]).Err?
    ensures Apply(zone, cs) == Apply(zone, cs[..n])
    decreases |cs|
  {
    if n == |cs| {
      assert cs[..n] == cs;
    } else {
      assert cs[..|cs| - 1][..n] == cs[..n];
      Rejected(zone, cs[..|cs| - 1], n);
    }
  }

  lemma {:induction false} Refused(es: seq<Endpoint>, action: Action, n: nat)
    requires n <= |es| && ChangesFor(es[..n], action).Err?
    ensures ChangesFor(es, action) == ChangesFor(es[..n], action)
    decreases |es|
  {
    if n == |es| {
      assert es[..n] == es;
    } else {
      assert es[..|es| - 1][..n] == es[..n];
      Refused(es[..|es| - 1], action, n);
    }
  }

  lemma IDsMore(es: seq<Endpoint>, i: nat)
    requires i < |es|
    ensures SetIDs(es[..i + 1]) == SetIDs(es[..i]) + {es[i].SetID()}
  {
    forall id
      ensures id in SetIDs(es[..i + 1]) <==> id in SetIDs(es[..i]) || id == es[i].SetID()
    {
      if j :| 0 <= j < i && es[..i][j].SetID() == id {
        assert es[..i + 1][j].SetID() == id;
      }
      if id == es[i].SetID() {
        assert es[..i + 1][i].SetID() == id;
      }
    }
  }

  /** The loop over the spec: the changes, and the identities to expect. */
  method CollectChanges(spec: seq<Endpoint>, action: Action)
    returns (changes: seq<Change>, expected: set<string>, error: Option<Failure>)
    ensures ChangesFor(spec, action) == if error.Some? then Err(error.value) else Ok(changes)
    ensures error == None ==> expected == SetIDs(spec)
  {
    changes, expected, error := [], {}, None;
    for i := 0 to |spec|
      invariant ChangesFor(spec[..i], action) == Ok(changes)
      invariant expected == SetIDs(spec[..i])
    {
      IDsMore(spec, i);
      expected := expected + {spec[i].SetID()};
      assert spec[..i + 1][..i] == spec[..i];
      var change := ChangeFor(spec[i], action);
      if change.Err? {
        Refused(spec, action, i + 1);
        return changes, expected, Some(change.error);
      }
      changes := changes + [change.value];
    }
    assert spec[..|spec|] == spec;
  }

  /** The loop over the previously published endpoints. */
  method CollectDeletes(last: seq<Endpoint>, expected: set<string>)
    returns (deletes: seq<Change>, error: Option<Failure>)
    ensures ChangesFor(Stale(last, expected), Delete) == if error.Some? then Err(error.value) else Ok(deletes)
  {
    deletes, error := [], None;
    for i := 0 to |last|
      invariant ChangesFor(Stale(last[..i], expected), Delete) == Ok(deletes)
    {
      DeletesMore(last, expected, i, deletes);
      if last[i].SetID() !in expected {
        var change := ChangeFor(last[i], Delete);
        if change.Err? {
          return deletes, Some(change.error);
        }
        deletes := deletes + [change.value];
      }
    }
    assert last[..|last|] == last;
  }

  lemma ChangesSnoc(es: seq<Endpoint>, e: Endpoint, action: Action)
    ensures ChangesFor(es + [e], action) ==
      match ChangesFor(es, action)
      case Err(f) => Err(f)
      case Ok(cs) => if ChangeFor(e, action).Err? then Err(ChangeFor(e, action).error)
                     else Ok(cs + [ChangeFor(e, action).value])
  {
    assert (es + [e])[..|es|] == es;
  }

  lemma StaleSnoc(last: seq<Endpoint>, expected: set<string>, i: nat)
    requires i < |last|
    ensures Stale(last[..i + 1], expected) ==
      Stale(last[..i], expected) + (if last[i].SetID() in expected then [] else [last[i]])
  {
    assert last[..i + 1][..i] == last[..i];
  }

  lemma DeletesMore(last: seq<Endpoint>, expected: set<string>, i: nat, deletes: seq<Change>)
    requires i < |last| && ChangesFor(Stale(last[..i], expected), Delete) == Ok(deletes)
    ensures ChangesFor(Stale(last[..i + 1], expected), Delete) ==
      if last[i].SetID() in expected then Ok(deletes)
      else if ChangeFor(last[i], Delete).Err? then Err(ChangeFor(last[i], Delete).error)
      else Ok(deletes + [ChangeFor(last[i], Delete).value])
    ensures last[i].SetID() !in expected && ChangeFor(last[i], Delete).Err? ==>
      ChangesFor(Stale(last, expected), Delete) == Err(ChangeFor(last[i], Delete).error)
  {
    var stale, more, all := Stale(last[..i], expected), Stale(last[..i + 1], expected), Stale(last, expected);
    StaleSnoc(last, expected, i);
    if last[i].SetID() in expected {
      assert stale + [] == stale;
    } else {
      ChangesSnoc(stale, last[i], Delete);
      if ChangeFor(last[i], Delete).Err? {
        StalePrefix(last, expected, i + 1);
        Refused(all, Delete, |more|);
      }
    }
  }

  lemma {:induction false} StalePrefix(last: seq<Endpoint>, expected: set<string>, n: nat)
    requires n <= |last|
    ensures |Stale(last[..n], expected)| <= |Stale(last, expected)|
    ensures Stale(last, expected)[..|Stale(last[..n], expected)|] == Stale(last[..n], expected)
    decreases |last|
  {
    if n == |last| {
      assert last[..n] == last;
    } else {
      assert last[..|last| - 1][..n] == last[..n];
      StalePrefix(last[..|last| - 1], expected, n);
    }
  }
}
