/** The per-zone part of a DNSRecord's status (pkg/dns/dns_record.go): which zones count as
    published, and how the outcome of a publication is merged into what is stored. */
module ZoneStatuses {
  import opened Wrappers
  import opened Endpoints

  datatype Zone = Zone(id: string, tags: map<string, string>)

  datatype ConditionType = Succeeded | OtherCondition(name: string)

  datatype ConditionStatus = True | False | Unknown

  datatype Reason = ProviderError | ProviderSuccess | OtherReason(name: string)

  /** "replacing" or "ensuring" the record, and the provider's error if there was one. */
  datatype Message = Message(replacing: bool, failed: bool) | OtherMessage(text: string)

  datatype Condition = Condition(kind: ConditionType, status: ConditionStatus, reason: Reason, message: Message,
                                 transition: int)

  datatype ZoneStatus = ZoneStatus(zone: Zone, conditions: seq<Condition>, endpoints: seq<Endpoint>)

  // ---------- reading ----------

  /** Position of the first condition of a type, or the length of the list. */
  function FirstOf(cs: seq<Condition>, kind: ConditionType): (i: nat)
    ensures i <= |cs| && (i < |cs| ==> cs[i].kind == kind) && forall j :: 0 <= j < i ==> cs[j].kind != kind
  {
    if cs == [] then 0 else if cs[0].kind == kind then 0 else 1 + FirstOf(cs[1..], kind)
  }

  predicate HasKind(cs: seq<Condition>, kind: ConditionType) {
    FirstOf(cs, kind) < |cs|
  }

  /** The first status of the zone that has a Succeeded condition decides. */
  predicate PublishedTo(statuses: seq<ZoneStatus>, zone: Zone) {
    if statuses == [] then false
    else
      var cs := statuses[0].conditions;
      if statuses[0].zone == zone && HasKind(cs, Succeeded) then cs[FirstOf(cs, Succeeded)].status == True
      else PublishedTo(statuses[1..], zone)
  }

  /** The endpoints stored for a zone; zones are told apart by their ID alone here. */
  function EndpointsOf(statuses: seq<ZoneStatus>, zoneID: string): seq<Endpoint> {
    if statuses == [] then []
    else if statuses[0].zone.id == zoneID then statuses[0].endpoints
    else EndpointsOf(statuses[1..], zoneID)
  }

  method RecordIsAlreadyPublishedToZone(statuses: seq<ZoneStatus>, zone: Zone) returns (published: bool)
    ensures published == PublishedTo(statuses, zone)
  {
    for i := 0 to |statuses|
      invariant PublishedTo(statuses, zone) == PublishedTo(statuses[i..], zone)
    {
      assert statuses[i..][1..] == statuses[i + 1..];
      if statuses[i].zone != zone {
        continue;
      }
      var cs := statuses[i].conditions;
      for j := 0 to |cs|
        invariant j <= FirstOf(cs, Succeeded)
      {
        if cs[j].kind == Succeeded {
          return cs[j].status == True;
        }
      }
    }
    return false;
  }

  method EndpointsFromZoneStatus(statuses: seq<ZoneStatus>, zoneID: string) returns (endpoints: seq<Endpoint>)
    ensures endpoints == EndpointsOf(statuses, zoneID)
  {
    for i := 0 to |statuses|
      invariant EndpointsOf(statuses, zoneID) == EndpointsOf(statuses[i..], zoneID)
    {
      assert statuses[i..][1..] == statuses[i + 1..];
      if statuses[i].zone.id == zoneID {
        return statuses[i].endpoints;
      }
    }
    return [];
  }

  // ---------- merging conditions ----------

  predicate ConditionChanged(a: Condition, b: Condition) {
    a.status != b.status || a.reason != b.reason
  }

  function Overwrite(c: Condition, u: Condition, now: int): Condition {
    c.(status := u.status, reason := u.reason, message := u.message, transition := now)
  }

  /** Overwrites the first condition of the type that differs. */
  function UpdateFirst(cs: seq<Condition>, u: Condition, now: int): (r: seq<Condition>)
    ensures |r| == |cs| && forall i :: 0 <= i < |cs| ==> r[i].kind == cs[i].kind
  {
    if cs == [] then []
    else if cs[0].kind == u.kind && ConditionChanged(cs[0], u) then [Overwrite(cs[0], u, now)] + cs[1..]
    else [cs[0]] + UpdateFirst(cs[1..], u, now)
  }

  /** The outcome for one update, which is all that a publication ever has. */
  function MergedConditions(cs: seq<Condition>, u: Condition, now: int): seq<Condition> {
    if HasKind(cs, u.kind) then UpdateFirst(cs, u, now) else cs + [u.(transition := now)]
  }

  predicate Overwrites(c: Condition, u: Condition) {
    c.kind == u.kind && ConditionChanged(c, u)
  }

  lemma {:induction false} UpdatedAt(cs: seq<Condition>, u: Condition, now: int, j: nat)
    requires j <= |cs| && forall k :: 0 <= k < j ==> !Overwrites(cs[k], u)
    requires j < |cs| ==> Overwrites(cs[j], u)
    ensures UpdateFirst(cs, u, now) == if j < |cs| then cs[j := Overwrite(cs[j], u, now)] else cs
  {
    if j > 0 {
      UpdatedAt(cs[1..], u, now, j - 1);
    }
  }

  /** The inner loop of `mergeConditions`. */
  method MergeCondition(cs: seq<Condition>, u: Condition, now: int) returns (merged: seq<Condition>, add: bool)
    ensures merged == UpdateFirst(cs, u, now) && (add <==> !HasKind(cs, u.kind))
  {
    merged := cs;
    add := true;
    for j := 0 to |cs|
      invariant merged == cs
      invariant add <==> j <= FirstOf(cs, u.kind)
      invariant forall k :: 0 <= k < j ==> !Overwrites(cs[k], u)
    {
      if cs[j].kind == u.kind {
        add := false;
        if ConditionChanged(cs[j], u) {
          UpdatedAt(cs, u, now, j);
          return cs[j := Overwrite(cs[j], u, now)], false;
        }
      }
    }
    UpdatedAt(cs, u, now, |cs|);
  }

  function UpdateAll(cs: seq<Condition>, us: seq<Condition>, now: int): (r: seq<Condition>)
    ensures |r| == |cs| && forall i :: 0 <= i < |cs| ==> r[i].kind == cs[i].kind
  {
    if us == [] then cs else UpdateFirst(UpdateAll(cs, us[..|us| - 1], now), us[|us| - 1], now)
  }

  function AddAll(cs: seq<Condition>, us: seq<Condition>, now: int): seq<Condition> {
    if us == [] then []
    else
      var u := us[|us| - 1];
      AddAll(cs, us[..|us| - 1], now) + (if HasKind(cs, u.kind) then [] else [u.(transition := now)])
  }

  lemma SameKinds(cs: seq<Condition>, ds: seq<Condition>, kind: ConditionType)
    requires |ds| == |cs| && forall i :: 0 <= i < |cs| ==> ds[i].kind == cs[i].kind
    ensures FirstOf(ds, kind) == FirstOf(cs, kind)
  {
    var i, j := FirstOf(ds, kind), FirstOf(cs, kind);
    assert i < |cs| ==> ds[i].kind == cs[i].kind;
    assert j < |cs| ==> ds[j].kind == cs[j].kind;
  }

  method MergeConditions(cs: seq<Condition>, us: seq<Condition>, now: int) returns (merged: seq<Condition>)
    ensures merged == UpdateAll(cs, us, now) + AddAll(cs, us, now)
  {
    merged := cs;
    var additions: seq<Condition> := [];
    for i := 0 to |us|
      invariant merged == UpdateAll(cs, us[..i], now) && additions == AddAll(cs, us[..i], now)
    {
      assert us[..i + 1][..i] == us[..i];
      SameKinds(cs, merged, us[i].kind);
      var add;
      merged, add := MergeCondition(merged, us[i], now);
      if add {
        additions := additions + [us[i].(transition := now)];
      }
    }
    assert us[..|us|] == us;
    merged := merged + additions;
  }

  lemma MergeOne(cs: seq<Condition>, u: Condition, now: int)
    ensures UpdateAll(cs, [u], now) + AddAll(cs, [u], now) == MergedConditions(cs, u, now)
  {
    assert [u][..0] == [];
    if !HasKind(cs, u.kind) {
      UpdatedAt(cs, u, now, |cs|);
    }
  }

  // ---------- what readers see of merged conditions ----------

  /** The status and reason of the first condition of a type. */
  function Seen(cs: seq<Condition>, kind: ConditionType): (seen: Option<(ConditionStatus, Reason)>)
    ensures seen ==
      if HasKind(cs, kind) then Some((cs[FirstOf(cs, kind)].status, cs[FirstOf(cs, kind)].reason)) else None
  {
    if cs == [] then None
    else if cs[0].kind == kind then Some((cs[0].status, cs[0].reason))
    else Seen(cs[1..], kind)
  }

  /** The update that decides: the last one for a condition that is there, else the first one. */
  function Deciding(us: seq<Condition>, kind: ConditionType, known: bool): Option<Condition> {
    if us == [] then None
    else
      var u, front := us[|us| - 1], Deciding(us[..|us| - 1], kind, known);
      if u.kind == kind && (known || front == None) then Some(u) else front
  }

  lemma {:induction false} SeenUpdate(cs: seq<Condition>, u: Condition, now: int, kind: ConditionType)
    ensures Seen(UpdateFirst(cs, u, now), kind) ==
      if kind == u.kind && HasKind(cs, kind) then Some((u.status, u.reason)) else Seen(cs, kind)
  {
    if cs != [] {
      var r := UpdateFirst(cs, u, now);
      if cs[0].kind == u.kind && ConditionChanged(cs[0], u) {
        assert r == [Overwrite(cs[0], u, now)] + cs[1..] && r[1..] == cs[1..];
      } else {
        SeenUpdate(cs[1..], u, now, kind);
        assert r == [cs[0]] + UpdateFirst(cs[1..], u, now) && r[1..] == UpdateFirst(cs[1..], u, now);
      }
    }
  }

  lemma {:induction false} SeenUpdates(cs: seq<Condition>, us: seq<Condition>, now: int, kind: ConditionType)
    requires HasKind(cs, kind)
    ensures Seen(UpdateAll(cs, us, now), kind) ==
      match Deciding(us, kind, true)
      case None => Seen(cs, kind)
      case Some(u) => Some((u.status, u.reason))
  {
    if us != [] {
      var front := UpdateAll(cs, us[..|us| - 1], now);
      SeenUpdates(cs, us[..|us| - 1], now, kind);
      SameKinds(cs, front, kind);
      SeenUpdate(front, us[|us| - 1], now, kind);
    }
  }

  lemma {:induction false} SeenConcat(cs: seq<Condition>, ds: seq<Condition>, kind: ConditionType)
    ensures Seen(cs + ds, kind) == if HasKind(cs, kind) then Seen(cs, kind) else Seen(ds, kind)
  {
    if cs == [] {
      assert cs + ds == ds;
    } else {
      assert (cs + ds)[1..] == cs[1..] + ds;
      SeenConcat(cs[1..], ds, kind);
    }
  }

  lemma {:induction false} SeenAdditions(cs: seq<Condition>, us: seq<Condition>, now: int, kind: ConditionType)
    requires !HasKind(cs, kind)
    ensures Seen(AddAll(cs, us, now), kind) ==
      match Deciding(us, kind, false)
      case None => None
      case Some(u) => Some((u.status, u.reason))
  {
    if us != [] {
      var u := us[|us| - 1];
      SeenAdditions(cs, us[..|us| - 1], now, kind);
      SeenConcat(AddAll(cs, us[..|us| - 1], now), if HasKind(cs, u.kind) then [] else [u.(transition := now)], kind);
    }
  }

  /** Whatever was stored, readers see the deciding update's status and reason for its type, and
      what they saw before for every type that has no update. */
  lemma MergeDecides(cs: seq<Condition>, us: seq<Condition>, now: int, kind: ConditionType)
    ensures Seen(UpdateAll(cs, us, now) + AddAll(cs, us, now), kind) ==
      match Deciding(us, kind, HasKind(cs, kind))
      case None => Seen(cs, kind)
      case Some(u) => Some((u.status, u.reason))
  {
    var updated := UpdateAll(cs, us, now);
    SameKinds(cs, updated, kind);
    SeenConcat(updated, AddAll(cs, us, now), kind);
    if HasKind(cs, kind) {
      SeenUpdates(cs, us, now, kind);
    } else {
      SeenAdditions(cs, us, now, kind);
    }
  }

  /** A condition's transition time moves exactly when its status or reason does; it then is the
      update, message included. */
  lemma {:induction false} TransitionMoves(cs: seq<Condition>, u: Condition, now: int, i: nat)
    requires i < |cs|
    ensures var r := UpdateFirst(cs, u, now);
      r[i] == cs[i] ||
      ((cs[i].status != u.status || cs[i].reason != u.reason) && cs[i].kind == u.kind && r[i] == u.(transition := now))
  {
    var r := UpdateFirst(cs, u, now);
    if cs[0].kind == u.kind && ConditionChanged(cs[0], u) {
      assert r[0] == Overwrite(cs[0], u, now) && (i > 0 ==> r[i] == cs[1..][i - 1]);
    } else if i > 0 {
      TransitionMoves(cs[1..], u, now, i - 1);
      assert r[i] == UpdateFirst(cs[1..], u, now)[i - 1];
    }
  }

  // ---------- merging statuses ----------

  /** One publication attempt: the zone, the condition to record and the endpoints sent. */
  datatype Update = Update(zone: Zone, condition: Condition, endpoints: seq<Endpoint>)

  function Renewed(s: ZoneStatus, u: Update, now: int): ZoneStatus {
    if s.zone == u.zone then ZoneStatus(s.zone, MergedConditions(s.conditions, u.condition, now), u.endpoints) else s
  }

  function ApplyUpdate(statuses: seq<ZoneStatus>, u: Update, now: int): (r: seq<ZoneStatus>)
    ensures |r| == |statuses| && forall i :: 0 <= i < |r| ==> r[i] == Renewed(statuses[i], u, now)
  {
    seq(|statuses|, i requires 0 <= i < |statuses| => Renewed(statuses[i], u, now))
  }

  function ApplyUpdates(statuses: seq<ZoneStatus>, updates: seq<Update>, now: int): (r: seq<ZoneStatus>)
    ensures |r| == |statuses| && forall i :: 0 <= i < |r| ==> r[i].zone == statuses[i].zone
  {
    if updates == [] then statuses
    else ApplyUpdate(ApplyUpdates(statuses, updates[..|updates| - 1], now), updates[|updates| - 1], now)
  }

  predicate Known(statuses: seq<ZoneStatus>, zone: Zone) {
    exists i :: 0 <= i < |statuses| && statuses[i].zone == zone
  }

  function Fresh(u: Update): ZoneStatus {
    ZoneStatus(u.zone, [u.condition], u.endpoints)
  }

  function Additions(statuses: seq<ZoneStatus>, updates: seq<Update>): seq<ZoneStatus> {
    if updates == [] then []
    else
      var u := updates[|updates| - 1];
      Additions(statuses, updates[..|updates| - 1]) + (if Known(statuses, u.zone) then [] else [Fresh(u)])
  }

  /** `mergeStatuses` as a value. */
  function Merged(statuses: seq<ZoneStatus>, updates: seq<Update>, now: int): seq<ZoneStatus> {
    ApplyUpdates(statuses, updates, now) + Additions(statuses, updates)
  }

  /** The inner loop: every status of the updated zone is renewed. */
  method MergeUpdate(statuses: seq<ZoneStatus>, u: Update, now: int) returns (merged: seq<ZoneStatus>, add: bool)
    ensures merged == ApplyUpdate(statuses, u, now)
    ensures add <==> !Known(statuses, u.zone)
  {
    merged := statuses;
    add := true;
    for j := 0 to |statuses|
      invariant |merged| == |statuses| && merged[j..] == statuses[j..]
      invariant forall k :: 0 <= k < j ==> merged[k] == Renewed(statuses[k], u, now)
      invariant add <==> forall k :: 0 <= k < j ==> statuses[k].zone != u.zone
    {
      var status := merged[j];
      assert merged[j..][0] == statuses[j..][0];
      if status.zone == u.zone {
        add := false;
        var conditions := MergeConditions(status.conditions, [u.condition], now);
        MergeOne(status.conditions, u.condition, now);
        merged := merged[j := ZoneStatus(status.zone, conditions, u.endpoints)];
      }
    }
  }

  method MergeStatuses(statuses: seq<ZoneStatus>, updates: seq<Update>, now: int) returns (merged: seq<ZoneStatus>)
    ensures merged == Merged(statuses, updates, now)
  {
    merged := statuses;
    var additions: seq<ZoneStatus> := [];
    for i := 0 to |updates|
      invariant merged == ApplyUpdates(statuses, updates[..i], now) && additions == Additions(statuses, updates[..i])
    {
      assert updates[..i + 1][..i] == updates[..i];
      var add;
      merged, add := MergeUpdate(merged, updates[i], now);
      if add {
        additions := additions + [Fresh(updates[i])];
      }
    }
    assert updates[..|updates|] == updates;
    merged := merged + additions;
  }

  // ---------- reading what was merged ----------

  function StatusOf(statuses: seq<ZoneStatus>, id: string): Option<ZoneStatus> {
    if statuses == [] then None
    else if statuses[0].zone.id == id then Some(statuses[0])
    else StatusOf(statuses[1..], id)
  }

  function UpdateOf(updates: seq<Update>, id: string): Option<Update> {
    if updates == [] then None
    else if updates[|updates| - 1].zone.id == id then Some(updates[|updates| - 1])
    else UpdateOf(updates[..|updates| - 1], id)
  }

  predicate DistinctIDs(zones: seq<Zone>) {
    forall i, j :: 0 <= i < |zones| && 0 <= j < |zones| && zones[i].id == zones[j].id ==> i == j
  }

  /** What this code stores: one Succeeded condition for each zone it is configured with. */
  predicate WellFormed(statuses: seq<ZoneStatus>, configured: seq<Zone>) {
    forall i :: 0 <= i < |statuses| ==> FitsIn(statuses[i], configured)
  }

  predicate FitsIn(s: ZoneStatus, configured: seq<Zone>) {
    s.zone in configured && |s.conditions| == 1 && s.conditions[0].kind == Succeeded
  }

  predicate UpdatesFor(updates: seq<Update>, configured: seq<Zone>) {
    (forall i :: 0 <= i < |updates| ==> updates[i].zone in configured && updates[i].condition.kind == Succeeded) &&
    forall i, j :: 0 <= i < j < |updates| ==> updates[i].zone.id != updates[j].zone.id
  }

  lemma {:induction false} EndpointsOfStatus(statuses: seq<ZoneStatus>, id: string)
    ensures EndpointsOf(statuses, id) ==
      if StatusOf(statuses, id) == None then [] else StatusOf(statuses, id).value.endpoints
  {
    if statuses != [] {
      EndpointsOfStatus(statuses[1..], id);
    }
  }

  lemma {:induction false} StatusOfFound(statuses: seq<ZoneStatus>, configured: seq<Zone>, id: string)
    requires WellFormed(statuses, configured)
    ensures StatusOf(statuses, id).Some? ==>
      FitsIn(StatusOf(statuses, id).value, configured) && StatusOf(statuses, id).value.zone.id == id
    ensures StatusOf(statuses, id).None? <==> forall i :: 0 <= i < |statuses| ==> statuses[i].zone.id != id
  {
    if statuses != [] {
      assert FitsIn(statuses[0], configured);
      assert forall i :: 0 <= i < |statuses| - 1 ==> statuses[1..][i] == statuses[i + 1];
      StatusOfFound(statuses[1..], configured, id);
    }
  }

  /** For what this code stores, the flag of a zone can be read off the status with its ID. */
  lemma {:induction false} PublishedToStatus(statuses: seq<ZoneStatus>, configured: seq<Zone>, zone: Zone)
    requires WellFormed(statuses, configured) && DistinctIDs(configured) && zone in configured
    ensures PublishedTo(statuses, zone) <==>
      StatusOf(statuses, zone.id).Some? && |StatusOf(statuses, zone.id).value.conditions| == 1 &&
      StatusOf(statuses, zone.id).value.conditions[0].status == True
  {
    if statuses != [] {
      assert FitsIn(statuses[0], configured);
      assert forall i :: 0 <= i < |statuses| - 1 ==> statuses[1..][i] == statuses[i + 1];
      PublishedToStatus(statuses[1..], configured, zone);
    }
  }

  lemma {:induction false} StatusOfApply(statuses: seq<ZoneStatus>, u: Update, now: int, id: string)
    ensures StatusOf(ApplyUpdate(statuses, u, now), id) ==
      if StatusOf(statuses, id) == None then None else Some(Renewed(StatusOf(statuses, id).value, u, now))
  {
    if statuses != [] {
      assert ApplyUpdate(statuses, u, now)[1..] == ApplyUpdate(statuses[1..], u, now);
      StatusOfApply(statuses[1..], u, now, id);
    }
  }

  lemma {:induction false} StatusOfConcat(a: seq<ZoneStatus>, b: seq<ZoneStatus>, id: string)
    ensures StatusOf(a + b, id) == if StatusOf(a, id).Some? then StatusOf(a, id) else StatusOf(b, id)
  {
    if a == [] {
      assert a + b == b;
    } else {
      assert (a + b)[1..] == a[1..] + b;
      StatusOfConcat(a[1..], b, id);
    }
  }

  lemma {:induction false} StatusHasID(statuses: seq<ZoneStatus>, id: string)
    ensures StatusOf(statuses, id).Some? ==>
      StatusOf(statuses, id).value in statuses && StatusOf(statuses, id).value.zone.id == id
    ensures StatusOf(statuses, id).None? ==> forall i :: 0 <= i < |statuses| ==> statuses[i].zone.id != id
  {
    if statuses != [] {
      StatusHasID(statuses[1..], id);
      assert forall i :: 0 < i < |statuses| ==> statuses[i] == statuses[1..][i - 1];
    }
  }

  lemma {:induction false} UpdateHasID(updates: seq<Update>, id: string)
    ensures UpdateOf(updates, id).Some? ==>
      UpdateOf(updates, id).value in updates && UpdateOf(updates, id).value.zone.id == id
    ensures UpdateOf(updates, id).None? ==> forall i :: 0 <= i < |updates| ==> updates[i].zone.id != id
  {
    if updates != [] {
      UpdateHasID(updates[..|updates| - 1], id);
    }
  }

  lemma FrontOf(updates: seq<Update>, configured: seq<Zone>)
    requires updates != [] && UpdatesFor(updates, configured)
    ensures var n := |updates| - 1;
      UpdatesFor(updates[..n], configured) && UpdateOf(updates[..n], updates[n].zone.id) == None
  {
    var n := |updates| - 1;
    assert forall i :: 0 <= i < n ==> updates[..n][i] == updates[i];
    UpdateHasID(updates[..n], updates[n].zone.id);
  }

  lemma {:induction false} StatusOfUpdates(statuses: seq<ZoneStatus>, updates: seq<Update>, now: int, id: string,
                                           configured: seq<Zone>)
    requires UpdatesFor(updates, configured)
    ensures StatusOf(ApplyUpdates(statuses, updates, now), id) ==
      match StatusOf(statuses, id)
      case None => None
      case Some(s) => if UpdateOf(updates, id) == None then Some(s)
                      else Some(Renewed(s, UpdateOf(updates, id).value, now))
  {
    if updates != [] {
      var n := |updates| - 1;
      FrontOf(updates, configured);
      StatusOfUpdates(statuses, updates[..n], now, id, configured);
      StatusOfApply(ApplyUpdates(statuses, updates[..n], now), updates[n], now, id);
      StatusHasID(statuses, id);
    }
  }

  lemma {:induction false} StatusOfAdditions(statuses: seq<ZoneStatus>, updates: seq<Update>, id: string,
                                             configured: seq<Zone>)
    requires UpdatesFor(updates, configured)
    ensures StatusOf(Additions(statuses, updates), id) ==
      match UpdateOf(updates, id)
      case None => None
      case Some(u) => if Known(statuses, u.zone) then None else Some(Fresh(u))
  {
    if updates != [] {
      var n := |updates| - 1;
      FrontOf(updates, configured);
      StatusOfAdditions(statuses, updates[..n], id, configured);
      StatusOfConcat(Additions(statuses, updates[..n]),
                     if Known(statuses, updates[n].zone) then [] else [Fresh(updates[n])], id);
    }
  }

  /** The status stored for a zone after a merge, in terms of the one before and the update. */
  lemma MergedStatus(statuses: seq<ZoneStatus>, updates: seq<Update>, now: int, id: string, configured: seq<Zone>)
    requires DistinctIDs(configured) && WellFormed(statuses, configured) && UpdatesFor(updates, configured)
    ensures StatusOf(Merged(statuses, updates, now), id) ==
      match UpdateOf(updates, id)
      case None => StatusOf(statuses, id)
      case Some(u) => if StatusOf(statuses, id) == None then Some(Fresh(u))
                      else Some(Renewed(StatusOf(statuses, id).value, u, now))
  {
    StatusOfUpdates(statuses, updates, now, id, configured);
    StatusOfAdditions(statuses, updates, id, configured);
    StatusOfConcat(ApplyUpdates(statuses, updates, now), Additions(statuses, updates), id);
    UpdateHasID(updates, id);
    StatusOfFound(statuses, configured, id);
    if UpdateOf(updates, id).Some? && StatusOf(statuses, id).Some? {
      StatusHasID(statuses, id);
    }
  }

  lemma OneCondition(cs: seq<Condition>, u: Condition, now: int)
    requires |cs| == 1 && cs[0].kind == u.kind
    ensures MergedConditions(cs, u, now) == [if ConditionChanged(cs[0], u) then Overwrite(cs[0], u, now) else cs[0]]
  {
    assert UpdateFirst(cs[1..], u, now) == [];
  }

  lemma {:induction false} UpdatesFit(statuses: seq<ZoneStatus>, updates: seq<Update>, now: int, configured: seq<Zone>)
    requires WellFormed(statuses, configured) && UpdatesFor(updates, configured)
    ensures WellFormed(ApplyUpdates(statuses, updates, now), configured) &&
      WellFormed(Additions(statuses, updates), configured)
  {
    if updates != [] {
      var n := |updates| - 1;
      FrontOf(updates, configured);
      UpdatesFit(statuses, updates[..n], now, configured);
      var front := ApplyUpdates(statuses, updates[..n], now);
      forall i | 0 <= i < |front|
        ensures FitsIn(Renewed(front[i], updates[n], now), configured)
      {
        assert FitsIn(front[i], configured);
        OneCondition(front[i].conditions, updates[n].condition, now);
      }
    }
  }

  lemma MergedFit(statuses: seq<ZoneStatus>, updates: seq<Update>, now: int, configured: seq<Zone>)
    requires WellFormed(statuses, configured) && UpdatesFor(updates, configured)
    ensures WellFormed(Merged(statuses, updates, now), configured)
  {
    UpdatesFit(statuses, updates, now, configured);
  }

  // ---------- is there anything to store? ----------

  /** The order of conditions does not matter, that of zones does. */
  predicate SlicesEqual(a: seq<ZoneStatus>, b: seq<ZoneStatus>) {
    |a| == |b| &&
    forall i :: 0 <= i < |a| ==>
      a[i].zone == b[i].zone && a[i].endpoints == b[i].endpoints &&
      multiset(a[i].conditions) == multiset(b[i].conditions)
  }

  lemma SlicesEqualMeans(a: seq<ZoneStatus>, b: seq<ZoneStatus>, configured: seq<Zone>)
    requires WellFormed(a, configured) && WellFormed(b, configured)
    ensures SlicesEqual(a, b) <==> a == b
  {
    if SlicesEqual(a, b) {
      forall i | 0 <= i < |a|
        ensures a[i] == b[i]
      {
        assert FitsIn(a[i], configured) && FitsIn(b[i], configured);
        assert a[i].conditions[0] in multiset(a[i].conditions);
        assert a[i].conditions == b[i].conditions;
      }
    }
  }
}
