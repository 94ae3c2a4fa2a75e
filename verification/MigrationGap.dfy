/** Runs in which a finalizer is dropped although the record points at the cluster in that very
    second: because the cluster came back and left again between two stored reconciles, which does
    not reset the timer, or because there is nothing else to serve. `MigrationRuns.DrainedExactly`
    has the exact condition. */
module MigrationGap {
  import opened Wrappers
  import opened Decimal
  import opened Clock
  import opened Metadata
  import opened Migration
  import opened Bags
  import opened Endpoints
  import opened DnsEndpoints
  import opened DnsTargets
  import opened DnsReconciler
  import opened IngressController
  import opened MigrationRuns

  const CALM := Calls(false, false, false, false, false, "", map[], false, false)

  function Statuses1(cluster: Cluster, ip: string): map<Cluster, seq<LoadBalancer>> {
    map[cluster := [LoadBalancer(ip, "")]]
  }

  /** The record that serves one address. */
  function Serving1(ip: string): DnsRecord {
    DnsRecord("h", [Refresh(NewEndpoint(ip), "h", ip, 1)], map[])
  }

  lemma ListsOne(cluster: Cluster, ip: string)
    requires ip != ""
    ensures Lists([Target(cluster, IP, ip)], Statuses(Statuses1(cluster, ip), [], "w"))
  {
    assert cluster in Statuses1(cluster, ip);
    var m := TargetMap(Statuses1(cluster, ip));
    BagPick(m, cluster);
    assert m[cluster] == [Target(cluster, IP, ip)];
    assert m - {cluster} == map[];
  }

  lemma GroupedOne(annotations: Annotations, cluster: Cluster, ip: string)
    ensures Grouped(map[ip := [ip]], [Target(cluster, IP, ip)], annotations, map[], Deletion(cluster) in annotations)
  {
    var t := Target(cluster, IP, ip);
    var none: map<string, seq<string>> := map[];
    GroupedSnoc(none, [], t, annotations, map[], Deletion(cluster) in annotations);
    assert [] + [t] == [t];
    assert Resolve(t, map[]) == [ip];
    assert [] + [ip] == [ip];
    assert Append(none, ip, [ip]) == map[ip := [ip]];
  }

  lemma BagsOne(annotations: Annotations, cluster: Cluster, ip: string)
    ensures ActiveBag([Target(cluster, IP, ip)], annotations, map[]) ==
      if Deletion(cluster) in annotations then multiset{} else multiset{ip}
    ensures ServedBag([Target(cluster, IP, ip)], annotations, map[]) == multiset{ip}
  {
    var t := Target(cluster, IP, ip);
    BagsSnoc([], t, annotations, map[]);
    assert [] + [t] == [t];
    assert Resolve(t, map[]) == [ip];
    assert ip in multiset{ip};
  }

  /** The one address is served, whether its cluster is leaving or not. */
  lemma ServedOne(annotations: Annotations, cluster: Cluster, ip: string)
    ensures ServedGroups(map[ip := [ip]], [Target(cluster, IP, ip)], annotations, map[])
  {
    var groups := map[ip := [ip]];
    BagsOne(annotations, cluster, ip);
    BagPick(groups, ip);
    assert groups - {ip} == map[];
    GroupedOne(annotations, cluster, ip);
    assert ip in multiset{ip};
  }

  lemma ComputedOne(before: seq<Endpoint>, annotations: Annotations, cluster: Cluster, ip: string)
    requires Refresh(Base(before, ip), "h", ip, 1) == Serving1(ip).endpoints[0]
    ensures Computed("h", [Target(cluster, IP, ip)], annotations, map[], before, Serving1(ip).endpoints)
  {
    var groups := map[ip := [ip]];
    var after := Serving1(ip).endpoints;
    ServedOne(annotations, cluster, ip);
    BagPick(groups, ip);
    assert groups - {ip} == map[];
    assert Addresses(after) == [ip];
    assert ListsTargets(groups, after);
    assert Refreshed("h", groups, before, after[0], ip);
    assert EndpointsFor("h", groups, before, after);
  }

  predicate Unmonitored(annotations: Annotations) {
    forall k: AnnotationKey :: k in annotations ==> !k.Health?
  }

  lemma NoHealth(annotations: Annotations, health: map<string, string>)
    requires Unmonitored(annotations)
    ensures health + HealthOf(annotations) == health
  {
  }

  lemma ServesOne(before: DnsRecord, annotations: Annotations, cluster: Cluster, ip: string)
    requires before.host == "h" && before.health == map[] && Unmonitored(annotations)
    requires Refresh(Base(before.endpoints, ip), "h", ip, 1) == Serving1(ip).endpoints[0]
    ensures DnsStep(false, annotations, [Target(cluster, IP, ip)], CALM, Some(before), Some(Serving1(ip)), Serving)
  {
    ComputedOne(before.endpoints, annotations, cluster, ip);
    NoHealth(annotations, before.health);
    assert Candidate(before, "h", annotations, Serving1(ip).endpoints) == Serving1(ip);
    assert Serves("h", before, annotations, [Target(cluster, IP, ip)], map[], Serving1(ip));
  }

  function World1(labels: Labels, annotations: Annotations, cluster: Cluster, ip: string, record: DnsRecord,
                  second: nat): World
    requires second < 1000
  {
    World(Ingress(false, labels, annotations, "w", Statuses1(cluster, ip), []), Some(record), second * SECOND)
  }

  function Event1(w: World, migrated: Annotations, cluster: Cluster, ip: string, persisted: bool): Event {
    Reconciled(w.ingress, w.clock, migrated, [Target(cluster, IP, ip)], CALM, Serving, w.clock, w.clock, persisted)
  }

  /** One reconcile of this run, given what it does to the marks. */
  lemma Step1(labels: Labels, annotations: Annotations, migrated: Annotations, cluster: Cluster, ip: string,
              before: DnsRecord, second: nat, persisted: bool) returns (w: World, e: Event, w': World)
    requires second < 1000 && ip != ""
    requires before.host == "h" && before.health == map[] && Unmonitored(migrated)
    requires Refresh(Base(before.endpoints, ip), "h", ip, 1) == Serving1(ip).endpoints[0]
    requires Migrated(labels, annotations, migrated, second * SECOND, second * SECOND, second * SECOND)
    ensures Next(w, e, w') && e == Event1(w, migrated, cluster, ip, persisted)
    ensures w == World1(labels, annotations, cluster, ip, before, second)
    ensures w' == World1(labels, if persisted then migrated else annotations, cluster, ip, Serving1(ip), second)
  {
    w := World1(labels, annotations, cluster, ip, before, second);
    w' := World1(labels, if persisted then migrated else annotations, cluster, ip, Serving1(ip), second);
    e := Event1(w, migrated, cluster, ip, persisted);
    ListsOne(cluster, ip);
    ServesOne(before, migrated, cluster, ip);
    StoresTarget(w.ingress, migrated, World1(labels, migrated, cluster, ip, Serving1(ip), second).ingress);
  }

  /** The marks of the run: cluster "c" leaving and staying, before and after each reconcile. */
  datatype Marks = Marks(leaving: Annotations, timedLeaving: Annotations, timedStaying: Annotations,
                         staying: Annotations, gone: Annotations, labelled: Labels)
  {
    ghost predicate Fit() {
      Migrated(map[], leaving, timedLeaving, 0, 0, 0) &&
      Migrated(labelled, timedStaying, staying, 100 * SECOND, 100 * SECOND, 100 * SECOND) &&
      Migrated(map[], timedLeaving, gone, 120 * SECOND, 120 * SECOND, 120 * SECOND)
    }

    ghost predicate Facts() {
      Unmonitored(timedLeaving) && Unmonitored(staying) && Unmonitored(gone) &&
      (forall c: Cluster :: DeleteAt(c) !in leaving) &&
      (forall c: Cluster :: Lookup(timedLeaving, DeleteAt(c)) == Lookup(timedStaying, DeleteAt(c))) &&
      SoftFinalizer("c") in timedLeaving && SoftFinalizer("c") !in gone &&
      Deletion("c") in leaving && Deletion("c") in timedLeaving && Deletion("c") in gone &&
      Deletion("d") !in timedLeaving && Deletion("d") !in gone
    }
  }

  lemma TimerStarts(leaving: Annotations, v: AnnotationValue)
    requires leaving == map[SoftFinalizer("c") := GlbcMigration, Deletion("c") := Text("")]
    requires v == WriteSecond(Unix(0) + 2 * TTL)
    ensures Migrated(map[], leaving, leaving[DeleteAt("c") := v], 0, 0, 0)
  {
    var t: Instant, after := 0, leaving[DeleteAt("c") := v];
    forall c: Cluster
      ensures ClusterStep(map[], leaving, after, c, t, t, t)
    {
    }
  }

  lemma TimerCancelled(labelled: Labels, staying: Annotations, v: AnnotationValue)
    requires labelled == map[SyncTarget("c") := "Sync"] && staying == map[SoftFinalizer("c") := GlbcMigration]
    ensures Migrated(labelled, staying[DeleteAt("c") := v], staying, 100 * SECOND, 100 * SECOND, 100 * SECOND)
  {
    var t: Instant, before := 100 * SECOND, staying[DeleteAt("c") := v];
    forall c: Cluster
      ensures ClusterStep(labelled, before, staying, c, t, t, t)
    {
    }
  }

  lemma TimerExpires(leaving: Annotations, gone: Annotations, v: AnnotationValue)
    requires leaving == map[SoftFinalizer("c") := GlbcMigration, Deletion("c") := Text("")]
    requires gone == map[Deletion("c") := Text("")] && ReadSecond(v) == Parsed(120, true)
    ensures Migrated(map[], leaving[DeleteAt("c") := v], gone, 120 * SECOND, 120 * SECOND, 120 * SECOND)
  {
    var t: Instant, before := 120 * SECOND, leaving[DeleteAt("c") := v];
    forall c: Cluster
      ensures ClusterStep(map[], before, gone, c, t, t, t)
    {
    }
  }

  lemma TimerValue() returns (v: AnnotationValue)
    ensures v == WriteSecond(Unix(0) + 2 * TTL) && ReadSecond(v) == Parsed(120, true)
  {
    v := WriteSecond(Unix(0) + 2 * TTL);
    FormatThenAtoi(Unix(0) + 2 * TTL);
  }

  lemma Shapes(m: Marks, v: AnnotationValue)
    requires m.leaving == map[SoftFinalizer("c") := GlbcMigration, Deletion("c") := Text("")]
    requires m.staying == map[SoftFinalizer("c") := GlbcMigration] && m.gone == map[Deletion("c") := Text("")]
    requires m.timedLeaving == m.leaving[DeleteAt("c") := v] && m.timedStaying == m.staying[DeleteAt("c") := v]
    ensures m.Facts()
  {
    SameTimers(m.leaving, m.staying, v);
  }

  lemma SameTimers(a: Annotations, b: Annotations, v: AnnotationValue)
    requires forall c: Cluster :: DeleteAt(c) !in a && DeleteAt(c) !in b
    ensures forall c: Cluster ::
      Lookup(a[DeleteAt("c") := v], DeleteAt(c)) == Lookup(b[DeleteAt("c") := v], DeleteAt(c))
  {
  }

  lemma MarksExist() returns (m: Marks)
    ensures m.Fit() && m.Facts()
  {
    var v := TimerValue();
    var leaving := map[SoftFinalizer("c") := GlbcMigration, Deletion("c") := Text("")];
    var staying := map[SoftFinalizer("c") := GlbcMigration];
    var gone: Annotations := map[Deletion("c") := Text("")];
    m := Marks(leaving, leaving[DeleteAt("c") := v], staying[DeleteAt("c") := v], staying, gone,
               map[SyncTarget("c") := "Sync"]);
    TimerStarts(leaving, v);
    TimerCancelled(m.labelled, staying, v);
    TimerExpires(leaving, gone, v);
    Shapes(m, v);
  }

  lemma Assemble(w0: World, e0: Event, w1: World, w2: World, e2: Event, w3: World, w4: World, e4: Event, w5: World)
    returns (ws: seq<World>, es: seq<Event>)
    requires forall c: Cluster :: DeleteAt(c) !in w0.ingress.annotations
    requires Next(w0, e0, w1) && Next(w1, Environment, w2) && Next(w2, e2, w3)
    requires Next(w3, Environment, w4) && Next(w4, e4, w5)
    ensures Run(ws, es) && |es| == 5 && ws[4] == w4 && ws[5] == w5 && es[2] == e2 && es[4] == e4
  {
    ws, es := AssembleThree(w0, e0, w1, w2, e2, w3);
    RunExtended(ws, es, Environment, w4);
    ws, es := ws + [w4], es + [Environment];
    RunExtended(ws, es, e4, w5);
    ws, es := ws + [w5], es + [e4];
  }

  lemma AssembleThree(w0: World, e0: Event, w1: World, w2: World, e2: Event, w3: World)
    returns (ws: seq<World>, es: seq<Event>)
    requires forall c: Cluster :: DeleteAt(c) !in w0.ingress.annotations
    requires Next(w0, e0, w1) && Next(w1, Environment, w2) && Next(w2, e2, w3)
    ensures Run(ws, es) && |es| == 3 && ws[2] == w2 && ws[3] == w3 && es[2] == e2
  {
    ws, es := [w0], [];
    RunExtended(ws, es, e0, w1);
    ws, es := ws + [w1], es + [e0];
    RunExtended(ws, es, Environment, w2);
    ws, es := ws + [w2], es + [Environment];
    RunExtended(ws, es, e2, w3);
    ws, es := ws + [w3], es + [e2];
  }

  lemma Elapse(w: World, w': World)
    requires w.clock <= w'.clock && w'.record == w.record
    requires forall c: Cluster :: Timer(w', c) == Timer(w, c)
    ensures Next(w, Environment, w')
  {
    forall c: Cluster
      ensures Lookup(w'.ingress.annotations, DeleteAt(c)) == Lookup(w.ingress.annotations, DeleteAt(c))
    {
      assert Timer(w', c) == Timer(w, c);
    }
  }

  lemma FirstServed(ip: string)
    ensures Refresh(Base([], ip), "h", ip, 1) == Serving1(ip).endpoints[0]
  {
  }

  lemma OtherServed(ip: string, other: string)
    requires ip != other && other != ""
    ensures Refresh(Base(Serving1(other).endpoints, ip), "h", ip, 1) == Serving1(ip).endpoints[0]
  {
    var es := Serving1(other).endpoints;
    assert es[0].GetAddress() == Some(other);
    assert es[..0] == [];
  }

  lemma StillServed(ip: string)
    requires ip != ""
    ensures Refresh(Base(Serving1(ip).endpoints, ip), "h", ip, 1) == Serving1(ip).endpoints[0]
  {
    var es := Serving1(ip).endpoints;
    assert es[0].GetAddress() == Some(ip);
    RefreshTwice(NewEndpoint(ip), "h", ip, 1);
  }

  lemma GapSteps()
    returns (w0: World, e0: Event, w1: World, w2: World, e2: Event, w3: World, w4: World, e4: Event, w5: World)
    ensures forall c: Cluster :: DeleteAt(c) !in w0.ingress.annotations
    ensures Next(w0, e0, w1) && Next(w1, Environment, w2) && Next(w2, e2, w3)
    ensures Next(w3, Environment, w4) && Next(w4, e4, w5)
    ensures ServedBy(e2) && !e2.persisted && e2.targets == [Target("c", IP, "1")]
    ensures Drops(e4, w5, "c") && ServesAddress(w4.record, "1") && w4.clock == e4.end
  {
    var m := MarksExist();
    var empty := DnsRecord("h", [], map[]);
    FirstServed("2");
    OtherServed("1", "2");
    OtherServed("2", "1");
    w0, e0, w1 := Step1(map[], m.leaving, m.timedLeaving, "d", "2", empty, 0, true);
    w2, e2, w3 := Step1(m.labelled, m.timedStaying, m.staying, "c", "1", Serving1("2"), 100, false);
    w4, e4, w5 := Step1(map[], m.timedLeaving, m.gone, "d", "2", Serving1("1"), 120, true);
    Elapse(w1, w2);
    Elapse(w3, w4);
    assert Serving1("1").endpoints[0].targets == ["1"];
  }

  /** Cluster "c" with address "1" leaves at second 0; at second 100 it is labelled again and
      served, but that reconcile fails after its DNS step; at second 120 it is leaving again and
      its finalizer is dropped by the very reconcile that takes its address out of the record. */
  lemma TimerOutlivesReturn() returns (ws: seq<World>, es: seq<Event>, k: nat, m: nat)
    ensures Run(ws, es) && k < |es| && Drops(es[k], ws[k + 1], "c")
    ensures ServesAddress(ws[k].record, "1") && ws[k].clock == es[k].end
    ensures m < k && ServedBy(es[m]) && !es[m].persisted && es[m].targets == [Target("c", IP, "1")]
  {
    var w0, e0, w1, w2, e2, w3, w4, e4, w5 := GapSteps();
    ws, es := Assemble(w0, e0, w1, w2, e2, w3, w4, e4, w5);
    k, m := 4, 2;
  }

  lemma NothingLive(w: World, migrated: Annotations, cluster: Cluster, ip: string)
    requires Deletion(cluster) in migrated
    ensures LiveBag(Event1(w, migrated, cluster, ip, true)) == multiset{}
  {
    BagsOne(migrated, cluster, ip);
  }

  lemma AloneExclusive(w: World, migrated: Annotations, cluster: Cluster, ip: string)
    ensures Exclusive(Event1(w, migrated, cluster, ip, true), cluster, ip)
  {
  }

  lemma AloneSteps() returns (w0: World, e0: Event, w1: World, w2: World, e2: Event, w3: World)
    ensures forall c: Cluster :: DeleteAt(c) !in w0.ingress.annotations
    ensures Next(w0, e0, w1) && Next(w1, Environment, w2) && Next(w2, e2, w3)
    ensures ServedBy(e0) && Drops(e2, w3, "c") && ServesAddress(w3.record, "1") && LiveBag(e2) == multiset{}
    ensures ServedBy(e2) && Exclusive(e2, "c", "1")
  {
    var m := MarksExist();
    FirstServed("1");
    StillServed("1");
    w0, e0, w1 := Step1(map[], m.leaving, m.timedLeaving, "c", "1", DnsRecord("h", [], map[]), 0, true);
    w2, e2, w3 := Step1(map[], m.timedLeaving, m.gone, "c", "1", Serving1("1"), 120, true);
    Elapse(w1, w2);
    NothingLive(w2, m.gone, "c", "1");
    AloneExclusive(w2, m.gone, "c", "1");
    assert Serving1("1").endpoints[0].targets == ["1"];
  }

  /** Cluster "c" with address "1" is the only one, and leaves: 120 seconds later its finalizer is
      dropped, and the record lists its address before and after. */
  lemma NothingElseToServe() returns (ws: seq<World>, es: seq<Event>, k: nat)
    ensures Run(ws, es) && k < |es| && Drops(es[k], ws[k + 1], "c") && Exclusive(es[k], "c", "1")
    ensures ServedBy(es[k]) && LiveBag(es[k]) == multiset{} && ServesAddress(ws[k + 1].record, "1")
  {
    var w0, e0, w1, w2, e2, w3 := AloneSteps();
    ws, es := AssembleThree(w0, e0, w1, w2, e2, w3);
    k := 2;
  }
}
