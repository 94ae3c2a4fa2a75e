/** A joint run that meets the premises of `JointRuns.ZoneDrained`: cluster "c" with address "1"
    leaves at second 0 while "d" serves "2", the DNSRecord controller publishes at once, and the
    finalizer is dropped at second 120. */
module JointExample {
  import opened Wrappers
  import opened Clock
  import opened Metadata
  import opened Endpoints
  import opened DnsReconciler
  import opened IngressController
  import opened MigrationRuns
  import opened MigrationGap
  import Migration
  import opened ZoneStatuses
  import Dns = DnsRecordController
  import Pub = Publication
  import opened JointRuns

  const HOSTED := Zone("z", map[])

  function ExampleView(): View {
    View(0, HOSTED, "h", map[])
  }

  function Listed2(): seq<Endpoint> {
    Serving1("2").endpoints
  }

  // ---------- the DNSRecord controller's side ----------

  const PASS := Pub.Pass({}, 0, false)

  /** A new record with no endpoints gets those listing "2", the cache catches up, and a reconcile
      publishes them. */
  lemma PubSteps() returns (p0: Pub.World, p1: Pub.World, p2: Pub.World, p3: Pub.World)
    ensures Pub.Start(p0) && Pub.Latest(p0).spec == [] && Lookup(p0.live, "z") == Some(map[])
    ensures Pub.Valid(p1) && p1 == Pub.Next([HOSTED], p0, Pub.Edit(Listed2())) &&
      p2 == Pub.Next([HOSTED], p1, Pub.Sync(1))
    ensures Pub.Valid(p2) && p2.cache + 1 == |p2.versions| && p3 == Pub.Next([HOSTED], p2, PASS)
    ensures Pub.Latest(p3).spec == Listed2()
  {
    p0 := Pub.World([Dns.Record([], 1, 0, [])], 0, map["z" := map[]]);
    p1 := Pub.Next([HOSTED], p0, Pub.Edit(Listed2()));
    p2 := Pub.Next([HOSTED], p1, Pub.Sync(1));
    p3 := Pub.Next([HOSTED], p2, PASS);
    assert Pub.Latest(p2).spec == Listed2();
    SpecKept(p2);
  }

  lemma SpecKept(p: Pub.World)
    requires Pub.Valid(p) && p.cache + 1 == |p.versions|
    ensures Pub.Latest(Pub.Next([HOSTED], p, PASS)).spec == Pub.Latest(p).spec
  {
    NewestPassed([HOSTED], p, {}, 0, false);
  }

  // ---------- the ingress controller's side ----------

  lemma ServesTwo(w: World, migrated: Annotations, persisted: bool)
    requires Deletion("d") !in migrated
    ensures var e := Event1(w, migrated, "d", "2", persisted);
      ServedBy(e) && NobodyElse(e, "c", "1") && LiveBag(e) == multiset{"2"} && SelectedBag(e) == multiset{"2"} &&
      DistinctServed(e.targets, e.migrated, e.calls.lookups)
  {
    BagsOne(migrated, "d", "2");
  }

  lemma IngressSteps() returns (w0: World, e0: Event, w1: World, w4: World, e4: Event, w5: World)
    ensures forall c: Cluster :: DeleteAt(c) !in w0.ingress.annotations
    ensures Next(w0, e0, w1) && Next(w1, Environment, w4) && Next(w4, e4, w5)
    ensures w0.record == Some(DnsRecord("h", [], map[])) && w1.record == w4.record == w5.record == Some(Serving1("2"))
    ensures Drops(e4, w5, "c") && w1.clock == 0 && Good(e0) && Good(e4) && e0.start == 0
  {
    var m := MarksExist();
    FirstServed("2");
    StillServed("2");
    w0, e0, w1 := Step1(map[], m.leaving, m.timedLeaving, "d", "2", DnsRecord("h", [], map[]), 0, true);
    w4, e4, w5 := Step1(map[], m.timedLeaving, m.gone, "d", "2", Serving1("2"), 120, true);
    Elapse(w1, w4);
    ServesTwo(w0, m.timedLeaving, true);
    ServesTwo(w4, m.gone, true);
  }

  /** The reconcile serves "2" alone, and finds "c" deleting. */
  ghost predicate Good(e: Event) {
    ServedBy(e) && NobodyElse(e, "c", "1") && Relieved(e, "c") && SelectedBag(e) == multiset{"2"} &&
    DistinctServed(e.targets, e.migrated, e.calls.lookups)
  }

  // ---------- both ----------

  ghost predicate Both(r: Joint) {
    JointRun([HOSTED], r) && Tidy(r, ExampleView())
  }

  /** Two more steps. */
  function Twice(r: Joint, ws: seq<World>, es: seq<Event>, ps: seq<Pub.World>, acts: seq<Option<Pub.Event>>): Joint
    requires |ws| == |es| == |ps| == |acts| == 2
  {
    Added(Added(r, es[0], ws[0], acts[0], ps[0]), es[1], ws[1], acts[1], ps[1])
  }

  lemma GoodStep(r: Joint, e: Event, w: World, p: Pub.World) returns (more: Joint)
    requires Both(r) && Good(e) && w.record == Some(Serving1("2"))
    requires Next(r.ws[|r.es|], e, w) && Pub.Valid(r.ps[|r.es|]) && Follows([HOSTED], r.ps[|r.es|], w.record, p)
    ensures Both(more) && more == Joint(r.ws + [w], r.es + [e], r.ps + [p], r.acts + [None])
  {
    more := Added(r, e, w, None, p);
    JointExtended([HOSTED], r, e, w, None, p);
    TidyExtended(r, e, w, None, p, ExampleView());
  }

  /** The ingress rests while the other controller acts. */
  lemma ActStep(r: Joint, act: Pub.Event, p: Pub.World) returns (more: Joint)
    requires Both(r) && Pub.Valid(r.ps[|r.es|])
    requires !act.Edit? && p == Pub.Next([HOSTED], r.ps[|r.es|], act)
    requires act.Pass? ==> act == PASS && r.ps[|r.es|].cache + 1 == |r.ps[|r.es|].versions|
    ensures Both(more) && more == Joint(r.ws + [r.ws[|r.es|]], r.es + [Environment], r.ps + [p], r.acts + [Some(act)])
  {
    Elapse(r.ws[|r.es|], r.ws[|r.es|]);
    more := Added(r, Environment, r.ws[|r.es|], Some(act), p);
    JointExtended([HOSTED], r, Environment, r.ws[|r.es|], Some(act), p);
    TidyExtended(r, Environment, r.ws[|r.es|], Some(act), p, ExampleView());
  }

  lemma RestStep(r: Joint, w: World) returns (more: Joint)
    requires Both(r) && Next(r.ws[|r.es|], Environment, w) && Pub.Valid(r.ps[|r.es|])
    requires w.record == Some(Serving1("2")) && Pub.Latest(r.ps[|r.es|]).spec == Listed2()
    ensures Both(more) && more == Joint(r.ws + [w], r.es + [Environment], r.ps + [r.ps[|r.es|]], r.acts + [None])
  {
    more := Added(r, Environment, w, None, r.ps[|r.es|]);
    JointExtended([HOSTED], r, Environment, w, None, r.ps[|r.es|]);
    TidyExtended(r, Environment, w, None, r.ps[|r.es|], ExampleView());
  }

  lemma StartJoint(w0: World, p0: Pub.World) returns (r: Joint)
    requires (forall c: Cluster :: DeleteAt(c) !in w0.ingress.annotations) && w0.record.Some?
    ensures Both(r) && |r.es| == 0 && r.ws[0] == w0 && r.ps[0] == p0
  {
    r := Joint([w0], [], [p0], []);
  }

  /** The record is served. */
  lemma Stage1(w0: World, e0: Event, w1: World, p0: Pub.World, p1: Pub.World) returns (r: Joint)
    requires (forall c: Cluster :: DeleteAt(c) !in w0.ingress.annotations) && w0.record.Some?
    requires Next(w0, e0, w1) && Good(e0) && w1.record == Some(Serving1("2"))
    requires Pub.Valid(p0) && Follows([HOSTED], p0, w1.record, p1)
    ensures Both(r) && |r.es| == 1 && r.ws[0] == w0 && r.ws[1] == w1 && r.es[0] == e0 && r.ps[0] == p0 && r.ps[1] == p1
  {
    r := StartJoint(w0, p0);
    r := GoodStep(r, e0, w1, p1);
  }

  /** It is published. */
  lemma Stage2(half: Joint, p2: Pub.World, p3: Pub.World) returns (r: Joint)
    requires Both(half) && |half.es| == 1 && Pub.Valid(half.ps[1]) && Pub.Valid(p2)
    requires p2 == Pub.Next([HOSTED], half.ps[1], Pub.Sync(1)) && p3 == Pub.Next([HOSTED], p2, PASS) &&
      p2.cache + 1 == |p2.versions|
    ensures Both(r) &&
      r == Twice(half, [half.ws[1], half.ws[1]], [Environment, Environment], [p2, p3], [Some(Pub.Sync(1)), Some(PASS)])
  {
    r := ActStep(half, Pub.Sync(1), p2);
    r := ActStep(r, PASS, p3);
  }

  /** The finalizer is dropped. */
  lemma Stage3(half: Joint, w4: World, e4: Event, w5: World) returns (r: Joint)
    requires Both(half) && |half.es| == 3 && Pub.Valid(half.ps[3]) && Pub.Latest(half.ps[3]).spec == Listed2()
    requires Next(half.ws[3], Environment, w4) && Next(w4, e4, w5) && Good(e4)
    requires w4.record == w5.record == Some(Serving1("2"))
    ensures Both(r) && r == Twice(half, [w4, w5], [Environment, e4], [half.ps[3], half.ps[3]], [None, None])
  {
    r := RestStep(half, w4);
    r := GoodStep(r, e4, w5, half.ps[3]);
  }

  /** Where the steps of the run are. */
  lemma Places(one: Joint, three: Joint, five: Joint, w4: World, e4: Event, w5: World, p2: Pub.World, p3: Pub.World)
    requires |one.es| == |one.acts| == 1 && |one.ws| == |one.ps| == 2
    requires three ==
      Twice(one, [one.ws[1], one.ws[1]], [Environment, Environment], [p2, p3], [Some(Pub.Sync(1)), Some(PASS)])
    requires five == Twice(three, [w4, w5], [Environment, e4], [p3, p3], [None, None])
    ensures |five.es| == |five.acts| == 5 && |five.ws| == |five.ps| == 6
    ensures five.ws[0] == one.ws[0] && five.ws[3] == one.ws[1] && five.ws[5] == w5
    ensures five.es[0] == one.es[0] && five.es[1] == five.es[2] == five.es[3] == Environment && five.es[4] == e4
    ensures five.ps[0] == one.ps[0] && five.ps[2] == p2 && five.acts[2] == Some(PASS)
  {
  }

  lemma StartCoupled(w0: World, p0: Pub.World)
    requires w0.record == Some(DnsRecord("h", [], map[])) && Pub.Start(p0) && Pub.Latest(p0).spec == []
    requires Lookup(p0.live, "z") == Some(map[])
    ensures Sound([HOSTED], ExampleView()) && Coupled([HOSTED], w0.record, p0, ExampleView())
  {
    CoupledAtStart([HOSTED], w0.record.value, p0, ExampleView());
  }

  lemma GoodRelieved(es: seq<Event>)
    requires |es| == 5 && Good(es[0]) && es[1] == es[2] == es[3] == Environment && Good(es[4])
    ensures AlwaysRelieved(es, 0, 4, "c", "1")
  {
    forall m | 0 <= m <= 4 && ServedBy(es[m])
      ensures NobodyElse(es[m], "c", "1") && Relieved(es[m], "c")
    {
      assert m == 0 || m == 4;
    }
  }

  /** The premises of `ZoneDrained`, for the drop in the last step and the publication in step 2. */
  ghost predicate Premises(r: Joint) {
    JointRun([HOSTED], r) && Sound([HOSTED], ExampleView()) && Tidy(r, ExampleView()) &&
    Coupled([HOSTED], r.ws[0].record, r.ps[0], ExampleView()) &&
    |r.es| == 5 && Drops(r.es[4], r.ws[5], "c") && Publishes(r, 2) &&
    AlwaysRelieved(r.es, 0, 4, "c", "1") && r.es[0].Reconciled? &&
    Unix(r.ws[3].clock) <= Unix(r.es[0].start) + Migration.TTL
  }

  /** The run, with what the premises need to know about it. */
  lemma Built() returns (r: Joint, w0: World, p0: Pub.World)
    ensures Both(r) && |r.es| == 5 && r.ws[0] == w0 && r.ps[0] == p0
    ensures w0.record == Some(DnsRecord("h", [], map[])) && r.ws[3].clock == 0
    ensures Good(r.es[0]) && r.es[0].start == 0 && r.es[1] == r.es[2] == r.es[3] == Environment && Good(r.es[4])
    ensures Drops(r.es[4], r.ws[5], "c") && r.acts[2] == Some(PASS) && r.ps[2].cache + 1 == |r.ps[2].versions|
    ensures Pub.Start(p0) && Pub.Latest(p0).spec == [] && Lookup(p0.live, "z") == Some(map[])
  {
    var e0, w1, w4, e4, w5, p1, p2, p3;
    w0, e0, w1, w4, e4, w5 := IngressSteps();
    p0, p1, p2, p3 := PubSteps();
    var one := Stage1(w0, e0, w1, p0, p1);
    var three := Stage2(one, p2, p3);
    r := Stage3(three, w4, e4, w5);
    Places(one, three, r, w4, e4, w5, p2, p3);
  }

  lemma PremisesMet() returns (r: Joint)
    ensures Premises(r)
  {
    var w0, p0;
    r, w0, p0 := Built();
    StartCoupled(w0, p0);
    GoodRelieved(r.es);
  }
}
