/** Both controllers together: the hosted zone itself, and not just the DNSRecord, is free of a
    leaving cluster's address for at least one TTL before its finalizer is dropped. */
module JointRuns {
  import opened Wrappers
  import opened Clock
  import opened Metadata
  import opened Migration
  import opened Endpoints
  import opened DnsReconciler
  import opened IngressController
  import opened MigrationRuns
  import opened ZoneStatuses
  import Zones = Route53
  import opened Batches
  import Dns = DnsRecordController
  import Pub = Publication
  import opened ExactSync
  import opened Published

  /** A joint run: what happens to the ingress and its record, the DNSRecord controller's world at
      each point, and what that controller does in a step, if anything. */
  datatype Joint = Joint(ws: seq<World>, es: seq<Event>, ps: seq<Pub.World>, acts: seq<Option<Pub.Event>>)

  /** A record whose endpoints change, or anything else of it, becomes a new version for the other
      controller, or there is no new version. */
  predicate Follows(configured: seq<Zone>, p: Pub.World, record: Option<DnsRecord>, p': Pub.World)
    requires Pub.Valid(p)
  {
    var spec := if record.Some? then record.value.endpoints else Pub.Latest(p).spec;
    p' == Pub.Next(configured, p, Pub.Edit(spec)) || (spec == Pub.Latest(p).spec && p' == p)
  }

  ghost predicate PubStep(configured: seq<Zone>, before: World, e: Event, after: World, p: Pub.World,
                          act: Option<Pub.Event>, p': Pub.World) {
    Pub.Valid(p) &&
    match act
    case None => Follows(configured, p, after.record, p')
    case Some(a) => !a.Edit? && e.Environment? && after.record == before.record && p' == Pub.Next(configured, p, a)
  }

  ghost predicate PubStepAt(configured: seq<Zone>, r: Joint, n: nat)
    requires n < |r.es| < |r.ws| && |r.ps| == |r.ws| && |r.acts| == |r.es|
  {
    PubStep(configured, r.ws[n], r.es[n], r.ws[n + 1], r.ps[n], r.acts[n], r.ps[n + 1])
  }

  ghost predicate JointRun(configured: seq<Zone>, r: Joint) {
    Run(r.ws, r.es) && |r.ps| == |r.ws| && |r.acts| == |r.es| &&
    forall n :: 0 <= n < |r.es| ==> PubStepAt(configured, r, n)
  }

  /** The zone looked at, the managed host, and what others have put into the zone. */
  datatype View = View(index: nat, zone: Zone, host: string, foreign: Zones.HostedZone)

  predicate Sound(configured: seq<Zone>, v: View) {
    DistinctIDs(configured) && v.index < |configured| && configured[v.index] == v.zone && v.host != "" &&
    forall k :: k in v.foreign ==> k.name != v.host
  }

  /** A serving step serves distinct addresses, and the DNSRecord controller is not disturbed while
      it works on the zone. */
  ghost predicate TidyStep(e: Event, p: Pub.World, act: Option<Pub.Event>, v: View) {
    (ServedBy(e) ==> DistinctServed(e.targets, e.migrated, e.calls.lookups) && "" !in SelectedBag(e)) &&
    (act.Some? && !act.value.Edit? && Pub.Valid(p) ==> Calm(p, act.value, v.zone, v.host, v.foreign))
  }

  ghost predicate TidyAt(r: Joint, v: View, n: nat)
    requires n < |r.es| < |r.ws| && |r.ps| == |r.ws| && |r.acts| == |r.es|
  {
    TidyStep(r.es[n], r.ps[n], r.acts[n], v)
  }

  ghost predicate Tidy(r: Joint, v: View)
    requires |r.es| < |r.ws| && |r.ps| == |r.ws| && |r.acts| == |r.es|
  {
    (forall n :: 0 <= n < |r.ws| ==> r.ws[n].record.Some?) &&
    forall n :: 0 <= n < |r.es| ==> TidyAt(r, v, n)
  }

  function Added(r: Joint, e: Event, w: World, act: Option<Pub.Event>, p: Pub.World): Joint {
    Joint(r.ws + [w], r.es + [e], r.ps + [p], r.acts + [act])
  }

  lemma JointExtended(configured: seq<Zone>, r: Joint, e: Event, w: World, act: Option<Pub.Event>, p: Pub.World)
    requires JointRun(configured, r)
    requires Next(r.ws[|r.es|], e, w) && PubStep(configured, r.ws[|r.es|], e, w, r.ps[|r.es|], act, p)
    ensures JointRun(configured, Added(r, e, w, act, p))
  {
    var more := Added(r, e, w, act, p);
    RunExtended(r.ws, r.es, e, w);
    forall n | 0 <= n < |more.es|
      ensures PubStepAt(configured, more, n)
    {
      assert n < |r.es| ==> PubStepAt(configured, r, n);
    }
  }

  lemma TidyExtended(r: Joint, e: Event, w: World, act: Option<Pub.Event>, p: Pub.World, v: View)
    requires |r.ws| == |r.ps| == |r.es| + 1 && |r.acts| == |r.es| && Tidy(r, v)
    requires w.record.Some? && TidyStep(e, r.ps[|r.es|], act, v)
    ensures Tidy(Added(r, e, w, act, p), v)
  {
    var more := Added(r, e, w, act, p);
    forall n | 0 <= n < |more.es|
      ensures TidyAt(more, v, n)
    {
      assert n < |r.es| ==> TidyAt(r, v, n);
    }
  }

  /** The record, its newest version and the zone belong together. */
  ghost predicate Coupled(configured: seq<Zone>, record: Option<DnsRecord>, p: Pub.World, v: View) {
    Pub.Inv(configured, p) && record.Some? && record.value.host == v.host && Identified(record.value.endpoints) &&
    Pub.Latest(p).spec == record.value.endpoints &&
    Identified(EndpointsOf(Pub.Latest(p).zones, v.zone.id)) &&
    InSync(Lookup(p.live, v.zone.id), Pub.Latest(p), v.zone, v.host, v.foreign)
  }

  /** For instance at the start, when the record has just been created and not been looked at. */
  lemma CoupledAtStart(configured: seq<Zone>, record: DnsRecord, p: Pub.World, v: View)
    requires Sound(configured, v) && Pub.Start(p) && Pub.Latest(p).spec == record.endpoints == [] &&
      record.host == v.host
    requires Lookup(p.live, v.zone.id) == Some(v.foreign)
    ensures Coupled(configured, Some(record), p, v)
  {
    Pub.RunInv(configured, p, []);
    assert v.foreign + Desired([]) == v.foreign;
  }

  // ---------- the coupling is kept ----------

  /** What an ingress step makes of the record is fit for publication. */
  lemma RecordFit(w: World, e: Event, w': World, v: View)
    requires Next(w, e, w') && w.record.Some? && w'.record.Some? && w.record.value.host == v.host != ""
    requires Identified(w.record.value.endpoints) && Proper(w.record.value.endpoints, v.host, v.foreign)
    requires ServedBy(e) ==> DistinctServed(e.targets, e.migrated, e.calls.lookups) && "" !in SelectedBag(e)
    requires forall k :: k in v.foreign ==> k.name != v.host
    ensures w'.record.value.host == v.host && Identified(w'.record.value.endpoints)
    ensures Proper(w'.record.value.endpoints, v.host, v.foreign)
  {
    if ServedBy(e) {
      assert DnsStep(e.seen.deleted, e.migrated, e.targets, e.calls, w.record, w'.record, e.verdict);
      ServedFit(e, w.record.value, w'.record.value, v);
    }
  }

  lemma ServedFit(e: Event, before: DnsRecord, after: DnsRecord, v: View)
    requires ServedBy(e) && before.host == v.host != "" && Identified(before.endpoints)
    requires Serves(v.host, before, e.migrated, e.targets, e.calls.lookups, after)
    requires DistinctServed(e.targets, e.migrated, e.calls.lookups) && "" !in SelectedBag(e)
    requires forall k :: k in v.foreign ==> k.name != v.host
    ensures after.host == v.host && Identified(after.endpoints) && Proper(after.endpoints, v.host, v.foreign)
  {
    var groups := GroupsOf(v.host, e.targets, e.migrated, e.calls.lookups, before.endpoints, after.endpoints);
    WrittenIsProper(v.host, groups, before.endpoints, after.endpoints, v.foreign);
  }

  lemma EditKeeps(configured: seq<Zone>, p: Pub.World, record: Option<DnsRecord>, earlier: Option<DnsRecord>,
                  p': Pub.World, v: View)
    requires Sound(configured, v) && Coupled(configured, earlier, p, v)
    requires record.Some? && record.value.host == v.host && Identified(record.value.endpoints)
    requires Proper(record.value.endpoints, v.host, v.foreign) && Follows(configured, p, record, p')
    ensures Coupled(configured, record, p', v)
    ensures Pub.Latest(p').zones == Pub.Latest(p).zones
  {
    var spec := record.value.endpoints;
    Pub.NextInv(configured, p, Pub.Edit(spec));
    CalmStep(configured, p, Pub.Edit(spec), v.index, v.host, v.foreign);
    assert Pub.Latest(Pub.Next(configured, p, Pub.Edit(spec))) == Pub.Edited(Pub.Latest(p), spec);
  }

  /** The endpoints stored for the zone stay, or become the spec; they are the spec after a
      reconcile of the newest version. */
  lemma StoredEndpoints(configured: seq<Zone>, p: Pub.World, act: Pub.Event, v: View)
    requires Sound(configured, v) && Pub.Inv(configured, p) && !act.Edit? && Calm(p, act, v.zone, v.host, v.foreign)
    requires InSync(Lookup(p.live, v.zone.id), Pub.Latest(p), v.zone, v.host, v.foreign)
    ensures var p' := Pub.Next(configured, p, act);
      var before, after := EndpointsOf(Pub.Latest(p).zones, v.zone.id), EndpointsOf(Pub.Latest(p').zones, v.zone.id);
      Pub.Latest(p').spec == Pub.Latest(p).spec && (after == before || after == Pub.Latest(p).spec) &&
      (act.Pass? && p.cache + 1 == |p.versions| ==> after == Pub.Latest(p).spec)
  {
    match act
    case Sync(_) =>
    case Pass(outages, now, writeFails) =>
      PassEndpoints(configured, p, outages, now, writeFails, v);
  }

  lemma PassEndpoints(configured: seq<Zone>, p: Pub.World, outages: set<string>, now: int, writeFails: bool, v: View)
    requires Sound(configured, v) && Pub.Inv(configured, p) &&
      Calm(p, Pub.Pass(outages, now, writeFails), v.zone, v.host, v.foreign)
    requires InSync(Lookup(p.live, v.zone.id), Pub.Latest(p), v.zone, v.host, v.foreign)
    ensures var p' := Pub.Passed(configured, p, outages, now, writeFails);
      var before, after := EndpointsOf(Pub.Latest(p).zones, v.zone.id), EndpointsOf(Pub.Latest(p').zones, v.zone.id);
      Pub.Latest(p').spec == Pub.Latest(p).spec && (after == before || after == Pub.Latest(p).spec) &&
      (p.cache + 1 == |p.versions| ==> after == Pub.Latest(p).spec)
  {
    if p.cache + 1 == |p.versions| {
      var r := p.versions[p.cache];
      assert r == Pub.Latest(p);
      Dns.ReconciledZone(configured, r, p.live, outages, now, v.index);
      NewestPassed(configured, p, outages, now, writeFails);
    } else {
      assert Pub.Passed(configured, p, outages, now, writeFails).versions == p.versions;
    }
  }

  lemma NewestPassed(configured: seq<Zone>, p: Pub.World, outages: set<string>, now: int, writeFails: bool)
    requires Pub.Valid(p) && p.cache + 1 == |p.versions|
    ensures var next := Dns.Reconciled(configured, Pub.Latest(p), p.live, outages, now);
      Pub.Latest(Pub.Passed(configured, p, outages, now, writeFails)) == if writeFails then Pub.Latest(p) else next
  {
  }

  lemma ActKeeps(configured: seq<Zone>, p: Pub.World, act: Pub.Event, record: Option<DnsRecord>, v: View)
    requires Sound(configured, v) && Coupled(configured, record, p, v) && !act.Edit? &&
      Calm(p, act, v.zone, v.host, v.foreign)
    ensures Coupled(configured, record, Pub.Next(configured, p, act), v)
  {
    Pub.NextInv(configured, p, act);
    CalmStep(configured, p, act, v.index, v.host, v.foreign);
    StoredEndpoints(configured, p, act, v);
  }

  lemma CoupledStep(configured: seq<Zone>, r: Joint, n: nat, v: View)
    requires JointRun(configured, r) && Sound(configured, v) && Tidy(r, v) && n < |r.es|
    requires Coupled(configured, r.ws[n].record, r.ps[n], v)
    ensures Coupled(configured, r.ws[n + 1].record, r.ps[n + 1], v)
  {
    assert PubStepAt(configured, r, n) && TidyAt(r, v, n);
    if r.acts[n].Some? {
      ActKeeps(configured, r.ps[n], r.acts[n].value, r.ws[n].record, v);
    } else {
      RecordFitAt(r, n, v);
      EditKeeps(configured, r.ps[n], r.ws[n + 1].record, r.ws[n].record, r.ps[n + 1], v);
    }
  }

  lemma RecordFitAt(r: Joint, n: nat, v: View)
    requires Run(r.ws, r.es) && |r.ps| == |r.ws| && |r.acts| == |r.es| && Tidy(r, v) && n < |r.es|
    requires r.ws[n].record.Some? && r.ws[n].record.value.host == v.host != "" &&
      Identified(r.ws[n].record.value.endpoints)
    requires Proper(r.ws[n].record.value.endpoints, v.host, v.foreign) &&
      forall k :: k in v.foreign ==> k.name != v.host
    ensures r.ws[n + 1].record.Some?
    ensures r.ws[n + 1].record.value.host == v.host && Identified(r.ws[n + 1].record.value.endpoints)
    ensures Proper(r.ws[n + 1].record.value.endpoints, v.host, v.foreign)
  {
    assert TidyAt(r, v, n);
    assert StepAt(r.ws, r.es, n);
    RecordFit(r.ws[n], r.es[n], r.ws[n + 1], v);
  }

  /** Throughout a tidy run, the zone holds what the status says next to what others own. */
  lemma {:induction false} AlwaysCoupled(configured: seq<Zone>, r: Joint, n: nat, v: View)
    requires JointRun(configured, r) && Sound(configured, v) && Tidy(r, v) && n <= |r.es|
    requires Coupled(configured, r.ws[0].record, r.ps[0], v)
    ensures Coupled(configured, r.ws[n].record, r.ps[n], v)
  {
    if n > 0 {
      AlwaysCoupled(configured, r, n - 1, v);
      CoupledStep(configured, r, n - 1, v);
    }
  }

  // ---------- when an address is out of the zone ----------

  predicate Free(endpoints: seq<Endpoint>, x: string) {
    forall i :: 0 <= i < |endpoints| ==> endpoints[i].targets != [x]
  }

  /** Nothing under the managed host resolves to `x`. */
  predicate ZoneFree(zone: Option<Zones.HostedZone>, host: string, x: string) {
    zone.Some? && forall k :: k in zone.value && k.name == host ==> x !in zone.value[k].values
  }

  /** The endpoints the status remembers for the zone are free of it. */
  predicate StatusFree(p: Pub.World, v: View, x: string) {
    Pub.Valid(p) && Free(EndpointsOf(Pub.Latest(p).zones, v.zone.id), x)
  }

  lemma FreeContent(last: seq<Endpoint>, foreign: Zones.HostedZone, host: string, x: string)
    requires DistinctKeys(last) && Identified(last) && Free(last, x) && forall k :: k in foreign ==> k.name != host
    ensures ZoneFree(Some(foreign + Desired(last)), host, x)
  {
    var zone := foreign + Desired(last);
    DesiredKeys(last);
    DesiredHolds(last);
    forall k | k in zone && k.name == host
      ensures x !in zone[k].values
    {
      var i :| 0 <= i < |last| && Zones.KeyOf(last[i]) == k;
      assert Desired(last)[k] == Zones.RecordOf(last[i]);
      assert last[i].targets == [last[i].setIdentifier];
    }
  }

  lemma FreeZone(configured: seq<Zone>, record: Option<DnsRecord>, p: Pub.World, v: View, x: string)
    requires Sound(configured, v) && Coupled(configured, record, p, v) && StatusFree(p, v, x)
    ensures ZoneFree(Lookup(p.live, v.zone.id), v.host, x)
  {
    FreeContent(EndpointsOf(Pub.Latest(p).zones, v.zone.id), v.foreign, v.host, x);
  }

  /** From a reconcile of the newest version on, the status's endpoints stay free of an address that
      the record is free of all the time. */
  lemma {:induction false} StaysFree(configured: seq<Zone>, r: Joint, p: nat, n: nat, v: View, x: string)
    requires JointRun(configured, r) && Sound(configured, v) && Tidy(r, v) &&
      Coupled(configured, r.ws[0].record, r.ps[0], v)
    requires p < n <= |r.es| && Publishes(r, p)
    requires forall i :: p <= i <= n ==> !ServesAddress(r.ws[i].record, x)
    ensures StatusFree(r.ps[n], v, x)
  {
    var m := n - 1;
    AlwaysCoupled(configured, r, m, v);
    if m > p {
      StaysFree(configured, r, p, m, v, x);
    } else {
      assert Publishes(r, m);
    }
    FreeStep(configured, r, m, v, x);
  }

  /** A reconcile of the DNSRecord controller that reads the newest version. */
  predicate Publishes(r: Joint, p: nat)
    requires p < |r.acts| < |r.ps|
  {
    r.acts[p].Some? && r.acts[p].value.Pass? && r.ps[p].cache + 1 == |r.ps[p].versions|
  }

  lemma FreeRecord(record: Option<DnsRecord>, x: string)
    requires record.Some? && !ServesAddress(record, x)
    ensures Free(record.value.endpoints, x)
  {
  }

  lemma FreeStep(configured: seq<Zone>, r: Joint, n: nat, v: View, x: string)
    requires JointRun(configured, r) && Sound(configured, v) && Tidy(r, v) && n < |r.es|
    requires Coupled(configured, r.ws[n].record, r.ps[n], v) && !ServesAddress(r.ws[n].record, x)
    requires Publishes(r, n) || StatusFree(r.ps[n], v, x)
    ensures StatusFree(r.ps[n + 1], v, x)
  {
    FreeRecord(r.ws[n].record, x);
    assert PubStepAt(configured, r, n) && TidyAt(r, v, n);
    if r.acts[n].Some? {
      StoredEndpoints(configured, r.ps[n], r.acts[n].value, v);
    } else {
      RecordFitAt(r, n, v);
      EditKeeps(configured, r.ps[n], r.ws[n + 1].record, r.ws[n].record, r.ps[n + 1], v);
    }
  }

  // ---------- what the zone serves meanwhile ----------

  /** The status remembers these endpoints for the zone. */
  predicate Remembers(p: Pub.World, v: View, endpoints: seq<Endpoint>) {
    Pub.Valid(p) && EndpointsOf(Pub.Latest(p).zones, v.zone.id) == endpoints
  }

  /** From a reconcile of the newest version on, the status remembers a list that the record had at
      that point or later. */
  lemma {:induction false} RemembersRecord(configured: seq<Zone>, r: Joint, p: nat, n: nat, v: View) returns (i: nat)
    requires JointRun(configured, r) && Sound(configured, v) && Tidy(r, v) &&
      Coupled(configured, r.ws[0].record, r.ps[0], v)
    requires p < n <= |r.es| && Publishes(r, p)
    ensures p <= i < n && Remembers(r.ps[n], v, r.ws[i].record.value.endpoints)
  {
    AlwaysCoupled(configured, r, n - 1, v);
    i := n - 1;
    if n - 1 > p {
      i := RemembersRecord(configured, r, p, n - 1, v);
    }
    var kept := RemembersStep(configured, r, p, n - 1, i, v);
    i := if kept then i else n - 1;
  }

  /** Whether step `n` leaves the status remembering the record at `i`; if not, it is the one at `n`. */
  lemma RemembersStep(configured: seq<Zone>, r: Joint, p: nat, n: nat, i: nat, v: View) returns (kept: bool)
    requires JointRun(configured, r) && Sound(configured, v) && Tidy(r, v) && p <= n < |r.es| && i <= n &&
      Publishes(r, p)
    requires Coupled(configured, r.ws[n].record, r.ps[n], v)
    requires n == p || Remembers(r.ps[n], v, r.ws[i].record.value.endpoints)
    ensures Remembers(r.ps[n + 1], v, r.ws[if kept then i else n].record.value.endpoints)
  {
    assert PubStepAt(configured, r, n) && TidyAt(r, v, n);
    if r.acts[n].Some? {
      StoredEndpoints(configured, r.ps[n], r.acts[n].value, v);
      kept := Remembers(r.ps[n + 1], v, r.ws[i].record.value.endpoints);
    } else {
      RecordFitAt(r, n, v);
      EditKeeps(configured, r.ps[n], r.ws[n + 1].record, r.ws[n].record, r.ps[n + 1], v);
      kept := true;
    }
  }

  /** At `n` the zone is what others own and the list the record had at `i`: not empty, and exactly
      the live addresses seen by the last serving reconcile from `j` to `i`. */
  ghost predicate ServesLive(r: Joint, v: View, j: nat, i: nat, n: nat)
    requires j <= i <= |r.es| && i < |r.ws| && n < |r.ps|
  {
    var m := LastServing(r.es, j, i);
    r.ws[i].record.Some? && m >= 0 &&
    Lookup(r.ps[n].live, v.zone.id) == Some(v.foreign + Desired(r.ws[i].record.value.endpoints)) &&
    r.ws[i].record.value.endpoints != [] && ListsBag(r.ws[i].record.value.endpoints, LiveBag(r.es[m]))
  }

  /** Some name under the managed host is answered. */
  predicate Answers(zone: Option<Zones.HostedZone>, host: string) {
    zone.Some? && exists k :: k in zone.value && k.name == host && zone.value[k].values != []
  }

  lemma ListAnswers(endpoints: seq<Endpoint>, v: View)
    requires Proper(endpoints, v.host, v.foreign) && endpoints != []
    ensures Answers(Some(v.foreign + Desired(endpoints)), v.host)
  {
    DesiredHolds(endpoints);
    var k := Zones.KeyOf(endpoints[0]);
    assert Desired(endpoints)[k] == Zones.RecordOf(endpoints[0]) && Zones.Publishable(endpoints[0]);
    assert k in v.foreign + Desired(endpoints);
  }

  lemma ServesLiveAt(configured: seq<Zone>, r: Joint, v: View, j: nat, p: nat, n: nat) returns (i: nat)
    requires JointRun(configured, r) && Sound(configured, v) && Tidy(r, v) &&
      Coupled(configured, r.ws[0].record, r.ps[0], v)
    requires j < p < n <= |r.es| && Publishes(r, p) && r.es[j].Reconciled? && r.es[j].verdict != Failed
    requires forall m :: j <= m < n && ServedBy(r.es[m]) ==> LiveBag(r.es[m]) != multiset{}
    ensures p <= i < n && ServesLive(r, v, j, i, n) && Answers(Lookup(r.ps[n].live, v.zone.id), v.host)
  {
    i := RemembersRecord(configured, r, p, n, v);
    AlwaysCoupled(configured, r, n, v);
    AlwaysCoupled(configured, r, i, v);
    LiveRecord(r.ws, r.es, j, i);
    ListAnswers(r.ws[i].record.value.endpoints, v);
  }

  /** The zone is free of `x`, and answers with a list of live addresses from `p` or later. */
  ghost predicate DrainedAt(r: Joint, v: View, j: nat, p: nat, n: nat, x: string)
    requires j <= p < n <= |r.es| && |r.es| < |r.ws| && n < |r.ps|
  {
    ZoneFree(Lookup(r.ps[n].live, v.zone.id), v.host, x) && Answers(Lookup(r.ps[n].live, v.zone.id), v.host) &&
    exists i :: p <= i < n && ServesLive(r, v, j, i, n)
  }

  lemma DrainedFrom(configured: seq<Zone>, r: Joint, v: View, j: nat, p: nat, n: nat, x: string)
    requires JointRun(configured, r) && Sound(configured, v) && Tidy(r, v) &&
      Coupled(configured, r.ws[0].record, r.ps[0], v)
    requires j < p < n <= |r.es| && Publishes(r, p) && r.es[j].Reconciled? && r.es[j].verdict != Failed
    requires forall m :: j <= m < n && ServedBy(r.es[m]) ==> LiveBag(r.es[m]) != multiset{}
    requires forall i :: p <= i <= n ==> !ServesAddress(r.ws[i].record, x)
    ensures DrainedAt(r, v, j, p, n, x)
  {
    AlwaysCoupled(configured, r, n, v);
    StaysFree(configured, r, p, n, v, x);
    FreeZone(configured, r.ws[n].record, r.ps[n], v, x);
    var i := ServesLiveAt(configured, r, v, j, p, n);
  }

  /** No downtime, down to the hosted zone: when every serving reconcile between the start of the
      timer and the drop found the cluster deleting and something to serve in its place, then from
      the moment the DNSRecord controller gets to work to the drop, nothing under the managed host
      resolves to the cluster's address, and the host is answered, with exactly the live addresses
      of a serving reconcile. If that moment comes within one TTL of the start, at least one TTL
      is left before the drop. */
  lemma ZoneDrained(configured: seq<Zone>, r: Joint, v: View, k: nat, c: Cluster, x: string, p: nat) returns (j: nat)
    requires JointRun(configured, r) && Sound(configured, v) && Tidy(r, v) &&
      Coupled(configured, r.ws[0].record, r.ps[0], v)
    requires k < |r.es| && Drops(r.es[k], r.ws[k + 1], c) && p < k && Publishes(r, p)
    ensures j < k && Timer(r.ws[k], c).Some? && Starts(r.es[j], c, Timer(r.ws[k], c).value)
    ensures Unix(r.ws[p + 1].clock) <= Unix(r.es[j].start) + TTL ==> Unix(r.es[k].end) >= Unix(r.ws[p + 1].clock) + TTL
    ensures j < p && AlwaysRelieved(r.es, j, k, c, x) ==>
      forall n :: p < n <= k + 1 ==> DrainedAt(r, v, j, p, n, x)
  {
    j := FinalizerDropped(r.ws, r.es, k, c);
    if j < p && AlwaysRelieved(r.es, j, k, c, x) {
      RelievedStaysOut(r.ws, r.es, j, k, c, x);
      forall n | p < n <= k + 1
        ensures DrainedAt(r, v, j, p, n, x)
      {
        DrainedFrom(configured, r, v, j, p, n, x);
      }
    }
  }
}
