/** When a hosted zone holds exactly what a DNSRecord asks for, and when stale records stay. */
module ExactSync {
  import opened Wrappers
  import opened Endpoints
  import opened ZoneStatuses
  import opened Route53
  import opened Batches
  import opened DnsRecordController
  import opened Publication

  /** A spec as the ingress controller writes it, none of whose records somebody else owns. */
  predicate Proper(spec: seq<Endpoint>, host: string, foreign: HostedZone) {
    Managed(spec, host) && DistinctKeys(spec) && AllPublishable(spec) && Keys(spec) !! foreign.Keys
  }

  /** The zone is what others put there plus what this record's status says. */
  predicate Exact(hosted: Option<HostedZone>, r: Record, zone: Zone, foreign: HostedZone) {
    hosted == Some(foreign + Desired(EndpointsOf(r.zones, zone.id)))
  }

  predicate InSync(hosted: Option<HostedZone>, r: Record, zone: Zone, host: string, foreign: HostedZone) {
    Proper(r.spec, host, foreign) && Proper(EndpointsOf(r.zones, zone.id), host, foreign) &&
    Exact(hosted, r, zone, foreign) &&
    r.observed <= r.generation && (Settled(r) ==> PublishedTo(r.zones, zone) && EndpointsOf(r.zones, zone.id) == r.spec)
  }

  lemma {:induction false} StaleDistinct(last: seq<Endpoint>, expected: set<string>)
    requires DistinctKeys(last)
    ensures DistinctKeys(Stale(last, expected))
  {
    if last != [] {
      var n := |last| - 1;
      assert forall i :: 0 <= i < n ==> last[..n][i] == last[i];
      StaleDistinct(last[..n], expected);
      var stale := Stale(last[..n], expected);
      forall i | 0 <= i < |stale|
        ensures KeyOf(stale[i]) != KeyOf(last[n])
      {
        StaleMember(last[..n], expected, stale[i]);
      }
    }
  }

  /** What is to be deleted is still there, just as it was published. */
  lemma StaleHeld(spec: seq<Endpoint>, last: seq<Endpoint>, host: string, foreign: HostedZone)
    requires Proper(last, host, foreign)
    ensures var stale := StaleFor(spec, last);
      AllPublishable(stale) && DistinctKeys(stale) && Holds(foreign + Desired(last), stale)
  {
    var stale := StaleFor(spec, last);
    StaleDistinct(last, SetIDs(spec));
    DesiredHolds(last);
    forall j | 0 <= j < |stale|
      ensures Publishable(stale[j])
      ensures KeyOf(stale[j]) in Desired(last) && Desired(last)[KeyOf(stale[j])] == RecordOf(stale[j])
    {
      StaleMember(last, SetIDs(spec), stale[j]);
      var i :| 0 <= i < |last| && last[i] == stale[j];
      assert Publishable(last[i]);
    }
  }

  lemma Rebuilt(foreign: HostedZone, last: seq<Endpoint>, spec: seq<Endpoint>)
    requires Keys(last) !! foreign.Keys
    ensures ((foreign + Desired(last)) - Keys(last)) + Desired(spec) == foreign + Desired(spec)
  {
    DesiredKeys(last);
  }

  /** Such a publication is never rejected, and leaves exactly the new spec. */
  lemma ProperStep(spec: seq<Endpoint>, last: seq<Endpoint>, host: string, foreign: HostedZone)
    requires Proper(spec, host, foreign) && Proper(last, host, foreign)
    ensures var zone := foreign + Desired(last);
      Acceptable(Some(zone), spec, last, false) && Replaced(zone, spec, last) == foreign + Desired(spec)
  {
    var zone := foreign + Desired(last);
    StaleHeld(spec, last, host, foreign);
    ManagedCoherent(spec, last, host);
    DesiredKeys(last);
    ExactStep(zone, spec, last);
    Rebuilt(foreign, last, spec);
  }

  lemma PassInSync(configured: seq<Zone>, r: Record, live: Zones, outages: set<string>, now: int, i: nat,
                   host: string, foreign: HostedZone)
    requires DistinctIDs(configured) && WellFormed(r.zones, configured) && i < |configured| &&
      configured[i].id !in outages
    requires InSync(Lookup(live, configured[i].id), r, configured[i], host, foreign)
    ensures var next, zone := Reconciled(configured, r, live, outages, now), configured[i];
      Settled(next) &&
      InSync(Lookup(Publish(configured, r, live, outages, now).live, zone.id), next, zone, host, foreign)
  {
    var zone := configured[i];
    ReconciledZone(configured, r, live, outages, now, i);
    PublishZone(configured, r, live, outages, now, i);
    ProperStep(r.spec, EndpointsOf(r.zones, zone.id), host, foreign);
  }

  // ---------- over runs ----------

  /** For the zone: proper edits only, and each reconcile that does not skip it reads the newest
      version, meets no outage and gets its status stored. */
  predicate Calm(w: World, e: Event, zone: Zone, host: string, foreign: HostedZone)
    requires Valid(w)
  {
    match e
    case Edit(spec) => Proper(spec, host, foreign)
    case Sync(_) => true
    case Pass(outages, _, writeFails) =>
      Skips(w.versions[w.cache], zone) || (w.cache + 1 == |w.versions| && !writeFails && zone.id !in outages)
  }

  predicate CalmRun(configured: seq<Zone>, w: World, es: seq<Event>, zone: Zone, host: string, foreign: HostedZone)
    requires Valid(w)
  {
    es == [] ||
    (CalmRun(configured, w, es[..|es| - 1], zone, host, foreign) &&
     Calm(After(configured, w, es[..|es| - 1]), es[|es| - 1], zone, host, foreign))
  }

  /** A reconcile that skips the zone may fail in any way, be lost, or read an old version. */
  lemma IdlePass(configured: seq<Zone>, w: World, outages: set<string>, now: int, writeFails: bool, i: nat,
                 host: string, foreign: HostedZone)
    requires DistinctIDs(configured) && Valid(w) && AllWellFormed(configured, w) && i < |configured|
    requires Skips(w.versions[w.cache], configured[i])
    requires InSync(Lookup(w.live, configured[i].id), Latest(w), configured[i], host, foreign)
    ensures var w' := Passed(configured, w, outages, now, writeFails);
      InSync(Lookup(w'.live, configured[i].id), Latest(w'), configured[i], host, foreign)
  {
    var r, zone := w.versions[w.cache], configured[i];
    var next, w' := Reconciled(configured, r, w.live, outages, now), Passed(configured, w, outages, now, writeFails);
    PublishZone(configured, r, w.live, outages, now, i);
    if w.cache + 1 == |w.versions| {
      assert r == Latest(w) && Latest(w') == if writeFails then r else next;
      ReconciledZone(configured, r, w.live, outages, now, i);
    } else {
      assert Latest(w') == Latest(w);
    }
  }

  lemma CalmPass(configured: seq<Zone>, w: World, outages: set<string>, now: int, i: nat, host: string,
                 foreign: HostedZone)
    requires DistinctIDs(configured) && Valid(w) && AllWellFormed(configured, w) && i < |configured|
    requires w.cache + 1 == |w.versions| && configured[i].id !in outages
    requires InSync(Lookup(w.live, configured[i].id), Latest(w), configured[i], host, foreign)
    ensures var w' := Passed(configured, w, outages, now, false);
      InSync(Lookup(w'.live, configured[i].id), Latest(w'), configured[i], host, foreign)
  {
    var next := Reconciled(configured, Latest(w), w.live, outages, now);
    PassInSync(configured, Latest(w), w.live, outages, now, i, host, foreign);
    assert Latest(Passed(configured, w, outages, now, false)) == next;
  }

  lemma CalmStep(configured: seq<Zone>, w: World, e: Event, i: nat, host: string, foreign: HostedZone)
    requires DistinctIDs(configured) && Valid(w) && AllWellFormed(configured, w) && i < |configured|
    requires Calm(w, e, configured[i], host, foreign)
    requires InSync(Lookup(w.live, configured[i].id), Latest(w), configured[i], host, foreign)
    ensures var w' := Next(configured, w, e);
      InSync(Lookup(w'.live, configured[i].id), Latest(w'), configured[i], host, foreign)
  {
    match e
    case Edit(spec) => assert Latest(Next(configured, w, e)) == Edited(Latest(w), spec);
    case Sync(_) =>
    case Pass(outages, now, writeFails) =>
      if Skips(w.versions[w.cache], configured[i]) {
        IdlePass(configured, w, outages, now, writeFails, i, host, foreign);
      } else {
        CalmPass(configured, w, outages, now, i, host, foreign);
      }
  }

  /** Over a calm run the zone always holds exactly the record's last published endpoints besides
      what others own, no batch is ever rejected, and nothing stale is left behind. */
  lemma {:induction false} CalmRunExact(configured: seq<Zone>, w: World, es: seq<Event>, i: nat, host: string)
    requires DistinctIDs(configured) && Start(w) && i < |configured| && configured[i].id in w.live
    requires Proper(Latest(w).spec, host, w.live[configured[i].id])
    requires CalmRun(configured, w, es, configured[i], host, w.live[configured[i].id])
    ensures var w' := After(configured, w, es);
      InSync(Lookup(w'.live, configured[i].id), Latest(w'), configured[i], host, w.live[configured[i].id])
  {
    var foreign := w.live[configured[i].id];
    if es == [] {
      assert foreign + Desired([]) == foreign;
    } else {
      var front := es[..|es| - 1];
      CalmRunExact(configured, w, front, i, host);
      RunInv(configured, w, front);
      CalmStep(configured, After(configured, w, front), es[|es| - 1], i, host, foreign);
    }
  }

  // ---------- after a failure ----------

  lemma OutagePass(configured: seq<Zone>, r: Record, live: Zones, now: int, i: nat)
    requires DistinctIDs(configured) && WellFormed(r.zones, configured) && i < |configured| && r.spec != [] &&
      !Settled(r)
    ensures var zone := configured[i];
      var next, after :=
        Reconciled(configured, r, live, {zone.id}, now), Publish(configured, r, live, {zone.id}, now).live;
      next.spec == r.spec && WellFormed(next.zones, configured) && !PublishedTo(next.zones, zone) &&
      EndpointsOf(next.zones, zone.id) == r.spec && Lookup(after, zone.id) == Lookup(live, zone.id)
  {
    var zone := configured[i];
    assert r.spec + StaleFor(r.spec, EndpointsOf(r.zones, zone.id)) != [];
    ReconciledZone(configured, r, live, {zone.id}, now, i);
    PublishZone(configured, r, live, {zone.id}, now, i);
  }

  lemma RetryPass(configured: seq<Zone>, r: Record, live: Zones, now: int, i: nat)
    requires DistinctIDs(configured) && WellFormed(r.zones, configured) && i < |configured| && configured[i].id in live
    requires AllPublishable(r.spec) && !PublishedTo(r.zones, configured[i]) &&
      EndpointsOf(r.zones, configured[i].id) == r.spec
    ensures var zone := configured[i];
      var next, after := Reconciled(configured, r, live, {}, now), Publish(configured, r, live, {}, now).live;
      PublishedTo(next.zones, zone) && EndpointsOf(next.zones, zone.id) == r.spec &&
      Lookup(after, zone.id) == Some(live[zone.id] + Desired(r.spec))
  {
    ReconciledZone(configured, r, live, {}, now, i);
    PublishZone(configured, r, live, {}, now, i);
    NothingStale(r.spec);
    Unreplaced(live[configured[i].id], r.spec);
  }

  /** The status takes over the new endpoints even when the provider refused them, so the retry no
      longer knows the old ones: it ends exact if and only if there was nothing to delete. */
  lemma RetryAfterOutage(configured: seq<Zone>, r: Record, live: Zones, first: int, second: int, i: nat,
                         host: string, foreign: HostedZone)
    requires DistinctIDs(configured) && WellFormed(r.zones, configured) && i < |configured| && r.spec != []
    requires InSync(Lookup(live, configured[i].id), r, configured[i], host, foreign) && !Settled(r)
    ensures var zone := configured[i];
      var r1, live1 :=
        Reconciled(configured, r, live, {zone.id}, first), Publish(configured, r, live, {zone.id}, first).live;
      var r2, live2 := Reconciled(configured, r1, live1, {}, second), Publish(configured, r1, live1, {}, second).live;
      PublishedTo(r2.zones, zone) && Lookup(live2, zone.id) == Some(live[zone.id] + Desired(r.spec)) &&
      (Exact(Lookup(live2, zone.id), r2, zone, foreign) <==> Keys(EndpointsOf(r.zones, zone.id)) <= Keys(r.spec))
  {
    var zone := configured[i];
    OutagePass(configured, r, live, first, i);
    RetryPass(configured, Reconciled(configured, r, live, {zone.id}, first),
              Publish(configured, r, live, {zone.id}, first).live, second, i);
    Leftovers(foreign, EndpointsOf(r.zones, zone.id), r.spec);
  }

  lemma Unreplaced(zone: HostedZone, spec: seq<Endpoint>)
    ensures Replaced(zone, spec, spec) == zone + Desired(spec)
  {
    NothingStale(spec);
    assert Keys([]) == {};
    assert zone - {} == zone;
  }

  lemma SumOver(a: HostedZone, b: HostedZone, c: HostedZone)
    requires b.Keys <= c.Keys
    ensures (a + b) + c == a + c
  {
  }

  lemma Leftovers(foreign: HostedZone, last: seq<Endpoint>, spec: seq<Endpoint>)
    requires Keys(last) !! foreign.Keys
    ensures (foreign + Desired(last)) + Desired(spec) == foreign + Desired(spec) <==> Keys(last) <= Keys(spec)
  {
    DesiredKeys(last);
    DesiredKeys(spec);
    if Keys(last) <= Keys(spec) {
      SumOver(foreign, Desired(last), Desired(spec));
    } else {
      var k :| k in Keys(last) && k !in Keys(spec);
      assert k in Desired(last) && k !in foreign && k !in Desired(spec);
      assert k in (foreign + Desired(last)) + Desired(spec);
    }
  }
}
