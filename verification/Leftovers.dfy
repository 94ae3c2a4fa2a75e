/** Runs of the DNSRecord controller after which records stay in the zone that nobody asks for. */
module Leftovers {
  import opened Wrappers
  import opened Endpoints
  import opened ZoneStatuses
  import opened Route53
  import opened Batches
  import opened DnsRecordController
  import opened Publication
  import opened ExactSync
  import opened DnsRecordDeletion

  const ZONE := Zone("z", map[])

  /** The endpoint of one address under the host "h". */
  function At(ip: string): Endpoint {
    Endpoint("h", [ip], A, ip, 60, map[], [])
  }

  function Initial(): World {
    World([Record([At("1")], 1, 0, [])], 0, map["z" := map[]])
  }

  lemma OneProper(ip: string)
    requires ip != ""
    ensures Proper([At(ip)], "h", map[])
  {
  }

  lemma OneUpdate(r: Record, zone: Zone, live: Zones, now: int)
    requires !Skips(r, zone)
    ensures var updates := Publish([zone], r, live, {}, now).updates;
      |updates| == 1 && updates[0].zone == zone
  {
    var configured := [zone];
    assert configured[..0] == [];
    assert Publish(configured[..0], r, live, {}, now) == Progress(live, []);
    assert Publish(configured, r, live, {}, now) == Attempt(r, Progress(live, []), zone, {}, now);
  }

  lemma OneAddition(update: Update, now: int)
    ensures Merged([], [update], now) == [Fresh(update)]
  {
    var updates := [update];
    assert updates[..0] == [];
    assert Additions([], updates[..0]) == [];
    assert Additions([], updates) == [] + [Fresh(update)] == [Fresh(update)];
    assert ApplyUpdates([], updates, now) == [];
  }

  lemma FirstStatus(r: Record, live: Zones, now: int)
    requires r.zones == [] && r.observed != r.generation
    ensures var next := Reconciled([ZONE], r, live, {}, now);
      |next.zones| == 1 && next.zones[0].zone == ZONE
  {
    OneUpdate(r, ZONE, live, now);
    var updates := Publish([ZONE], r, live, {}, now).updates;
    OneAddition(updates[0], now);
    assert updates == [updates[0]];
  }

  lemma AfterSnoc(w: World, es: seq<Event>, e: Event)
    requires Valid(w)
    ensures After([ZONE], w, es + [e]) == Next([ZONE], After([ZONE], w, es), e)
  {
    assert (es + [e])[..|es|] == es;
  }

  /** The reconcile that publishes "1" and the edit. */
  lemma TwoVersions(first: Record, next: Record, live: Zones, spec: seq<Endpoint>) returns (es: seq<Event>)
    requires first == Initial().versions[0] && next == Reconciled([ZONE], first, Initial().live, {}, 0) && next != first
    requires live == Publish([ZONE], first, Initial().live, {}, 0).live
    ensures var w := After([ZONE], Initial(), es);
      Latest(w) == Edited(next, spec) && w.live == live
  {
    var w0 := Initial();
    es := ThreeSteps(w0, Pass({}, 0, false), Sync(1), Edit(spec));
    assert Next([ZONE], w0, Pass({}, 0, false)) == World([first, next], 0, live);
  }

  lemma ThreeSteps(w: World, e1: Event, e2: Event, e3: Event) returns (es: seq<Event>)
    requires Valid(w)
    ensures After([ZONE], w, es) == Next([ZONE], Next([ZONE], Next([ZONE], w, e1), e2), e3)
  {
    AfterSnoc(w, [], e1);
    AfterSnoc(w, [] + [e1], e2);
    AfterSnoc(w, [] + [e1] + [e2], e3);
    es := [] + [e1] + [e2] + [e3];
  }

  lemma FirstRecord() returns (first: Record, next: Record, live: Zones)
    ensures first == Initial().versions[0] && next == Reconciled([ZONE], first, Initial().live, {}, 0) && next != first
    ensures live == Publish([ZONE], first, Initial().live, {}, 0).live
    ensures next.spec == EndpointsOf(next.zones, "z") == [At("1")] && Settled(next)
    ensures |next.zones| == 1 && next.zones[0].zone == ZONE
    ensures WellFormed(next.zones, [ZONE]) && PublishedTo(next.zones, ZONE)
    ensures InSync(Lookup(live, "z"), next, ZONE, "h", map[])
  {
    var w0 := Initial();
    first := w0.versions[0];
    next, live := Reconciled([ZONE], first, w0.live, {}, 0), Publish([ZONE], first, w0.live, {}, 0).live;
    FirstStatus(first, w0.live, 0);
    ReconciledZone([ZONE], first, w0.live, {}, 0, 0);
    FirstInSync(w0, first, next);
  }

  /** The record was published with address "1", and has since been edited to ask for `spec`. */
  lemma MovedRecord(spec: seq<Endpoint>) returns (es: seq<Event>, r: Record, live: Zones)
    requires Proper(spec, "h", map[]) && spec != [At("1")]
    ensures var w := After([ZONE], Initial(), es); Latest(w) == r && w.live == live
    ensures r.spec == spec && EndpointsOf(r.zones, "z") == [At("1")] && !Settled(r)
    ensures |r.zones| == 1 && r.zones[0].zone == ZONE && WellFormed(r.zones, [ZONE]) && PublishedTo(r.zones, ZONE)
    ensures InSync(Lookup(live, "z"), r, ZONE, "h", map[])
  {
    var first, next;
    first, next, live := FirstRecord();
    es := TwoVersions(first, next, live, spec);
    r := EditedInSync(next, live, spec);
  }

  lemma EditedInSync(next: Record, live: Zones, spec: seq<Endpoint>) returns (r: Record)
    requires Proper(spec, "h", map[]) && spec != next.spec && Settled(next)
    requires InSync(Lookup(live, "z"), next, ZONE, "h", map[])
    ensures r == Edited(next, spec) && !Settled(r) && InSync(Lookup(live, "z"), r, ZONE, "h", map[])
  {
    r := Edited(next, spec);
  }

  /** The first reconcile brings the zone in line. */
  lemma FirstInSync(w: World, first: Record, next: Record)
    requires w == Initial() && first == w.versions[0] && next == Reconciled([ZONE], first, w.live, {}, 0)
    ensures InSync(Lookup(Publish([ZONE], first, w.live, {}, 0).live, "z"), next, ZONE, "h", map[])
  {
    OneProper("1");
    var none: seq<Endpoint> := [];
    var empty: HostedZone := map[];
    assert Desired(none) == empty && empty + Desired(none) == empty;
    PassInSync([ZONE], first, w.live, {}, 0, 0, "h", map[]);
  }

  /** Deleting it now releases the object and leaves address "1" in the zone. */
  lemma DeletedTooEarly() returns (es: seq<Event>)
    ensures var w := After([ZONE], Initial(), es);
      var d := DeleteAll(Latest(w).zones, Latest(w), w.live, {});
      Releases(d.errors) && "z" in d.live && KeyOf(At("1")) in d.live["z"]
  {
    var r, live;
    OneProper("2");
    OtherKey();
    es, r, live := MovedRecord([At("2")]);
    ReleasedWithLeftovers(r, live, ZONE, "h", map[]);
    StillThere(live, r);
  }

  lemma OtherKey()
    ensures KeyOf(At("2")) in Keys([At("2")]) && KeyOf(At("2")) !in Keys([At("1")])
    ensures KeyOf(At("1")) in Keys([At("1")]) && KeyOf(At("1")) !in Keys([At("2")])
  {
    assert [At("1")][0] == At("1") && [At("2")][0] == At("2");
  }

  lemma StillThere(live: Zones, r: Record)
    requires InSync(Lookup(live, "z"), r, ZONE, "h", map[]) && EndpointsOf(r.zones, "z") == [At("1")]
    ensures "z" in live && KeyOf(At("1")) in live["z"]
  {
    OtherKey();
    DesiredKeys([At("1")]);
  }

  /** Emptied instead, and then deleted, it sends nothing and leaves address "1" as well. */
  lemma EmptiedThenDeleted() returns (es: seq<Event>)
    ensures var w := After([ZONE], Initial(), es);
      var d := DeleteAll(Latest(w).zones, Latest(w), w.live, {});
      Latest(w).spec == [] && d == Deletion(w.live, []) && Releases(d.errors) && "z" in d.live &&
      KeyOf(At("1")) in d.live["z"]
  {
    var r, live;
    es, r, live := MovedRecord([]);
    StillThere(live, r);
    assert r.zones[..0] == [];
    assert Batch([], EndpointsOf(r.zones, "z"), Delete) == Ok([]);
  }

  /** One outage in the next reconcile, and the one after publishes "2" and leaves "1" for good. */
  lemma PublishedTooLate() returns (es: seq<Event>)
    ensures var w := After([ZONE], Initial(), es);
      var r1, live1 :=
        Reconciled([ZONE], Latest(w), w.live, {"z"}, 1), Publish([ZONE], Latest(w), w.live, {"z"}, 1).live;
      var r2, live2 := Reconciled([ZONE], r1, live1, {}, 2), Publish([ZONE], r1, live1, {}, 2).live;
      PublishedTo(r2.zones, ZONE) && "z" in live2 && KeyOf(At("1")) in live2["z"] &&
      KeyOf(At("1")) !in Keys(Latest(w).spec)
  {
    var r, live;
    OneProper("2");
    OtherKey();
    es, r, live := MovedRecord([At("2")]);
    StillThere(live, r);
    RetryAfterOutage([ZONE], r, live, 1, 2, 0, "h", map[]);
  }
}
