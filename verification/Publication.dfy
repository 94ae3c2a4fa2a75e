/** Runs of the DNSRecord controller against edits, a lagging cache, provider outages and lost
    status writes. */
module Publication {
  import opened Wrappers
  import opened Endpoints
  import opened ZoneStatuses
  import opened Route53
  import opened Batches
  import opened DnsRecordController

  /** The stored versions of one DNSRecord, the version the controller's cache holds, and the
      provider's hosted zones. */
  datatype World = World(versions: seq<Record>, cache: nat, live: Zones)

  datatype Event =
    | Edit(spec: seq<Endpoint>)
    | Sync(version: nat)
    | Pass(outages: set<string>, now: int, writeFails: bool)

  predicate Valid(w: World) {
    w.cache < |w.versions|
  }

  function Latest(w: World): Record
    requires Valid(w)
  {
    w.versions[|w.versions| - 1]
  }

  /** An edit that leaves the spec alone, such as one of the finalizers, keeps the generation. */
  function Edited(r: Record, spec: seq<Endpoint>): Record {
    if spec == r.spec then r else r.(spec := spec, generation := r.generation + 1)
  }

  function Passed(configured: seq<Zone>, w: World, outages: set<string>, now: int, writeFails: bool): World
    requires Valid(w)
  {
    var r := w.versions[w.cache];
    var next := Reconciled(configured, r, w.live, outages, now);
    var stored := next != r && !writeFails && w.cache + 1 == |w.versions|;
    World(if stored then w.versions + [next] else w.versions, w.cache,
          Publish(configured, r, w.live, outages, now).live)
  }

  function Next(configured: seq<Zone>, w: World, e: Event): (w': World)
    requires Valid(w)
    ensures Valid(w')
  {
    match e
    case Edit(spec) => w.(versions := w.versions + [Edited(Latest(w), spec)])
    case Sync(version) => if w.cache <= version < |w.versions| then w.(cache := version) else w
    case Pass(outages, now, writeFails) => Passed(configured, w, outages, now, writeFails)
  }

  function After(configured: seq<Zone>, w: World, es: seq<Event>): (w': World)
    requires Valid(w)
    ensures Valid(w')
  {
    if es == [] then w else Next(configured, After(configured, w, es[..|es| - 1]), es[|es| - 1])
  }

  /** The controller's `process` is the Pass step, followed by an edit that leaves the spec alone if
      the record's finalizer was missing and could be stored. */
  method RunPass(controller: Controller, store: RecordStore, cached: nat, finalized: bool, outages: set<string>,
                 now: int, writeFails: bool, updateFails: bool)
    returns (extended: bool)
    requires cached < |store.versions|
    modifies controller.provider, store
    ensures extended ==> !finalized
    ensures var before := old(World(store.versions, cached, controller.provider.zones));
      var passed := Next(controller.configured, before, Pass(outages, now, writeFails));
      World(store.versions, cached, controller.provider.zones) ==
        if extended then Next(controller.configured, passed, Edit(Latest(passed).spec)) else passed
  {
    var ok;
    ok, extended := controller.Process(store, cached, finalized, outages, now, writeFails, updateFails);
  }

  /** A new DNSRecord, not looked at yet. */
  predicate Start(w: World) {
    |w.versions| == 1 && w.cache == 0 && w.versions[0].zones == [] && w.versions[0].observed < w.versions[0].generation
  }

  // ---------- safety ----------

  function Hosted(live: Zones, id: string): HostedZone {
    if id in live then live[id] else map[]
  }

  /** Every endpoint of the spec is usable and live in the zone. */
  predicate Out(live: Zones, id: string, spec: seq<Endpoint>) {
    AllPublishable(spec) && Contains(Hosted(live, id), Desired(spec))
  }

  predicate Settled(r: Record) {
    r.observed == r.generation
  }

  predicate SameSpec(w: World)
    requires Valid(w)
  {
    forall k :: w.cache <= k < |w.versions| ==> w.versions[k].spec == Latest(w).spec
  }

  predicate AllWellFormed(configured: seq<Zone>, w: World) {
    forall k :: 0 <= k < |w.versions| ==> WellFormed(w.versions[k].zones, configured)
  }

  predicate PublishedIsOut(configured: seq<Zone>, r: Record, live: Zones) {
    forall i :: 0 <= i < |configured| && PublishedTo(r.zones, configured[i]) ==> Out(live, configured[i].id, r.spec)
  }

  predicate Inv(configured: seq<Zone>, w: World) {
    Valid(w) && AllWellFormed(configured, w) && Latest(w).observed <= Latest(w).generation &&
    (Settled(Latest(w)) ==> SameSpec(w) && PublishedIsOut(configured, Latest(w), w.live))
  }

  lemma ReplacedContains(zone: HostedZone, spec: seq<Endpoint>, last: seq<Endpoint>)
    ensures Contains(Replaced(zone, spec, last), Desired(spec))
  {
  }

  /** No reconcile takes a record of the spec it reads out of a zone, whatever it deletes. */
  lemma PassKeeps(configured: seq<Zone>, r: Record, live: Zones, outages: set<string>, now: int, i: nat)
    requires DistinctIDs(configured) && i < |configured|
    ensures var zone, after := configured[i], Publish(configured, r, live, outages, now).live;
      (Out(live, zone.id, r.spec) ==> Out(after, zone.id, r.spec)) &&
      (!Skips(r, zone) &&
       Acceptable(Lookup(live, zone.id), r.spec, EndpointsOf(r.zones, zone.id), zone.id in outages) ==>
        Out(after, zone.id, r.spec))
  {
    var zone, after := configured[i], Publish(configured, r, live, outages, now).live;
    PublishZone(configured, r, live, outages, now, i);
    if zone.id in live {
      ReplacedContains(live[zone.id], r.spec, EndpointsOf(r.zones, zone.id));
    }
    assert Hosted(after, zone.id) == if Lookup(after, zone.id) == None then map[] else Lookup(after, zone.id).value;
    assert r.spec == [] ==> Desired(r.spec) == map[];
  }

  lemma StoredIsOut(configured: seq<Zone>, r: Record, live: Zones, outages: set<string>, now: int)
    requires DistinctIDs(configured) && WellFormed(r.zones, configured)
    requires Settled(r) ==> PublishedIsOut(configured, r, live)
    ensures PublishedIsOut(configured, Reconciled(configured, r, live, outages, now),
                           Publish(configured, r, live, outages, now).live)
  {
    var next, after := Reconciled(configured, r, live, outages, now), Publish(configured, r, live, outages, now).live;
    forall i | 0 <= i < |configured| && PublishedTo(next.zones, configured[i])
      ensures Out(after, configured[i].id, next.spec)
    {
      ReconciledZone(configured, r, live, outages, now, i);
      PassKeeps(configured, r, live, outages, now, i);
    }
  }

  lemma ReconciledRecord(configured: seq<Zone>, r: Record, live: Zones, outages: set<string>, now: int)
    requires DistinctIDs(configured) && WellFormed(r.zones, configured)
    ensures var next := Reconciled(configured, r, live, outages, now);
      next.spec == r.spec && next.generation == next.observed == r.generation && WellFormed(next.zones, configured)
  {
    PublishUpdates(configured, r, live, outages, now);
    MergedFit(r.zones, Publish(configured, r, live, outages, now).updates, now, configured);
  }

  lemma UnstoredIsOut(configured: seq<Zone>, w: World, outages: set<string>, now: int)
    requires DistinctIDs(configured) && Inv(configured, w) && Settled(Latest(w))
    ensures PublishedIsOut(configured, Latest(w), Publish(configured, w.versions[w.cache], w.live, outages, now).live)
  {
    forall i | 0 <= i < |configured| && PublishedTo(Latest(w).zones, configured[i])
      ensures Out(Publish(configured, w.versions[w.cache], w.live, outages, now).live, configured[i].id, Latest(w).spec)
    {
      PassKeeps(configured, w.versions[w.cache], w.live, outages, now, i);
    }
  }

  lemma StoredInv(configured: seq<Zone>, w: World, next: Record, live: Zones)
    requires Inv(configured, w) && w.cache + 1 == |w.versions| && next.spec == Latest(w).spec
    requires Settled(next) && WellFormed(next.zones, configured) && PublishedIsOut(configured, next, live)
    ensures Inv(configured, World(w.versions + [next], w.cache, live))
  {
    var w' := World(w.versions + [next], w.cache, live);
    assert Latest(w') == next;
    forall k | 0 <= k < |w'.versions|
      ensures WellFormed(w'.versions[k].zones, configured)
    {
      assert k < |w.versions| ==> w'.versions[k] == w.versions[k] && WellFormed(w.versions[k].zones, configured);
    }
  }

  lemma UnstoredInv(configured: seq<Zone>, w: World, live: Zones)
    requires Inv(configured, w) && (Settled(Latest(w)) ==> PublishedIsOut(configured, Latest(w), live))
    ensures Inv(configured, World(w.versions, w.cache, live))
  {
  }

  lemma PassInv(configured: seq<Zone>, w: World, outages: set<string>, now: int, writeFails: bool)
    requires DistinctIDs(configured) && Inv(configured, w)
    ensures Inv(configured, Passed(configured, w, outages, now, writeFails))
  {
    var r := w.versions[w.cache];
    var next, live :=
      Reconciled(configured, r, w.live, outages, now), Publish(configured, r, w.live, outages, now).live;
    ReconciledRecord(configured, r, w.live, outages, now);
    if next != r && !writeFails && w.cache + 1 == |w.versions| {
      StoredIsOut(configured, r, w.live, outages, now);
      StoredInv(configured, w, next, live);
    } else {
      if Settled(Latest(w)) {
        UnstoredIsOut(configured, w, outages, now);
      }
      UnstoredInv(configured, w, live);
    }
  }

  lemma NextInv(configured: seq<Zone>, w: World, e: Event)
    requires DistinctIDs(configured) && Inv(configured, w)
    ensures Inv(configured, Next(configured, w, e))
  {
    match e
    case Pass(outages, now, writeFails) => PassInv(configured, w, outages, now, writeFails);
    case _ =>
  }

  lemma {:induction false} RunInv(configured: seq<Zone>, w: World, es: seq<Event>)
    requires DistinctIDs(configured) && Start(w)
    ensures Inv(configured, After(configured, w, es))
  {
    if es != [] {
      RunInv(configured, w, es[..|es| - 1]);
      NextInv(configured, After(configured, w, es[..|es| - 1]), es[|es| - 1]);
    }
  }

  /** Whatever was edited, failed, lost or read late before: once the newest generation has been
      observed, a zone whose condition is True has every endpoint of the spec live, the later one
      of two with the same name and identifier. */
  lemma PublishedIsLive(configured: seq<Zone>, w: World, es: seq<Event>, i: nat)
    requires DistinctIDs(configured) && Start(w) && i < |configured|
    ensures var w' := After(configured, w, es);
      Settled(Latest(w')) && PublishedTo(Latest(w').zones, configured[i]) ==>
        Out(w'.live, configured[i].id, Latest(w').spec) &&
        (DistinctKeys(Latest(w').spec) ==>
         Holds(Hosted(w'.live, configured[i].id), Latest(w').spec) &&
         LiveAsAsked(Hosted(w'.live, configured[i].id), Latest(w').spec))
  {
    RunInv(configured, w, es);
    var w' := After(configured, w, es);
    if Settled(Latest(w')) && PublishedTo(Latest(w').zones, configured[i]) && DistinctKeys(Latest(w').spec) {
      DesiredHolds(Latest(w').spec);
      HeldAsAsked(Hosted(w'.live, configured[i].id), Latest(w').spec);
    }
  }

  /** Every endpoint of the spec has its record in the zone, with its addresses, time to live and
      provider data. */
  ghost predicate LiveAsAsked(zone: HostedZone, spec: seq<Endpoint>) {
    forall i :: 0 <= i < |spec| ==> LiveAs(zone, spec[i])
  }

  // ---------- convergence ----------

  lemma NothingStale(spec: seq<Endpoint>)
    ensures StaleFor(spec, spec) == []
  {
    var stale := StaleFor(spec, spec);
    if stale != [] {
      assert stale[0] in stale;
      StaleMember(spec, SetIDs(spec), stale[0]);
    }
  }

  /** A second pass after one that has published the zone, or taken the spec into its status. */
  lemma SecondPass(configured: seq<Zone>, r: Record, live: Zones, now: int, i: nat)
    requires DistinctIDs(configured) && WellFormed(r.zones, configured) && i < |configured| &&
      configured[i].id in live && Settled(r)
    requires PublishedTo(r.zones, configured[i]) || EndpointsOf(r.zones, configured[i].id) == r.spec
    ensures PublishedTo(Reconciled(configured, r, live, {}, now).zones, configured[i]) <==>
      PublishedTo(r.zones, configured[i]) || AllPublishable(r.spec)
  {
    ReconciledZone(configured, r, live, {}, now, i);
    NothingStale(r.spec);
  }

  lemma ZoneStays(configured: seq<Zone>, r: Record, live: Zones, now: int, i: nat)
    requires DistinctIDs(configured) && i < |configured| && configured[i].id in live
    ensures configured[i].id in Publish(configured, r, live, {}, now).live
  {
    PublishZone(configured, r, live, {}, now, i);
    assert Lookup(Publish(configured, r, live, {}, now).live, configured[i].id).Some?;
  }

  /** Two undisturbed reconciles of the newest version. */
  lemma TwoPasses(configured: seq<Zone>, r: Record, live: Zones, first: int, second: int, i: nat)
    requires DistinctIDs(configured) && WellFormed(r.zones, configured) && i < |configured| && configured[i].id in live
    requires Settled(r) ==> PublishedIsOut(configured, r, live)
    ensures var r1, live1 := Reconciled(configured, r, live, {}, first), Publish(configured, r, live, {}, first).live;
      PublishedTo(Reconciled(configured, r1, live1, {}, second).zones, configured[i]) <==> AllPublishable(r.spec)
  {
    ReconciledZone(configured, r, live, {}, first, i);
    ZoneStays(configured, r, live, first, i);
    SecondPass(configured, Reconciled(configured, r, live, {}, first), Publish(configured, r, live, {}, first).live,
               second, i);
  }

  /** A reconcile that finds everything published makes no call and changes nothing. */
  lemma {:induction false} Quiet(configured: seq<Zone>, r: Record, live: Zones, outages: set<string>, now: int)
    requires forall i :: 0 <= i < |configured| ==> Skips(r, configured[i])
    ensures Publish(configured, r, live, outages, now) == Progress(live, [])
  {
    if configured != [] {
      var front := configured[..|configured| - 1];
      assert forall i :: 0 <= i < |front| ==> front[i] == configured[i];
      Quiet(front, r, live, outages, now);
    }
  }

  lemma QuietStatus(configured: seq<Zone>, r: Record, live: Zones, outages: set<string>, now: int)
    requires Settled(r) && forall i :: 0 <= i < |configured| ==> Skips(r, configured[i])
    ensures Reconciled(configured, r, live, outages, now) == r
  {
    Quiet(configured, r, live, outages, now);
    assert r.zones + [] == r.zones;
  }

  /** From the end of any run, two calm reconciles publish the spec everywhere, if and only if all
      of its endpoints can be published at all; from then on a reconcile does nothing. */
  lemma Converges(configured: seq<Zone>, w: World, es: seq<Event>, first: int, second: int)
    requires DistinctIDs(configured) && Start(w)
    requires var v := After(configured, w, es); forall i :: 0 <= i < |configured| ==> configured[i].id in v.live
    ensures var v := After(configured, w, es);
      var r1, live1 :=
        Reconciled(configured, Latest(v), v.live, {}, first), Publish(configured, Latest(v), v.live, {}, first).live;
      var r2, live2 := Reconciled(configured, r1, live1, {}, second), Publish(configured, r1, live1, {}, second).live;
      (forall i :: 0 <= i < |configured| ==>
       (PublishedTo(r2.zones, configured[i]) <==> AllPublishable(Latest(v).spec))) &&
      (AllPublishable(Latest(v).spec) ==>
        forall outages, now ::
          Publish(configured, r2, live2, outages, now) == Progress(live2, []) &&
          Reconciled(configured, r2, live2, outages, now) == r2)
  {
    var v := After(configured, w, es);
    RunInv(configured, w, es);
    var r1, live1 :=
      Reconciled(configured, Latest(v), v.live, {}, first), Publish(configured, Latest(v), v.live, {}, first).live;
    var r2, live2 := Reconciled(configured, r1, live1, {}, second), Publish(configured, r1, live1, {}, second).live;
    ReconciledRecord(configured, Latest(v), v.live, {}, first);
    ReconciledRecord(configured, r1, live1, {}, second);
    forall i | 0 <= i < |configured|
      ensures PublishedTo(r2.zones, configured[i]) <==> AllPublishable(Latest(v).spec)
    {
      TwoPasses(configured, Latest(v), v.live, first, second, i);
    }
    if AllPublishable(Latest(v).spec) {
      forall outages, now
        ensures Publish(configured, r2, live2, outages, now) == Progress(live2, []) &&
          Reconciled(configured, r2, live2, outages, now) == r2
      {
        Quiet(configured, r2, live2, outages, now);
        QuietStatus(configured, r2, live2, outages, now);
      }
    }
  }
}
