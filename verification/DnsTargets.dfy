/** Which addresses a DNS record should serve (the target loop of `DnsReconciler.Reconcile` in
    pkg/traffic/dns.go and `GetDNSTargets` in pkg/traffic/ingress.go). */
module DnsTargets {
  import opened Wrappers
  import opened Metadata
  import opened Bags
  import opened HostWatcher

  datatype TargetType = IP | Host | Unset

  datatype Target = Target(cluster: Cluster, kind: TargetType, value: string)

  /** One entry of a load balancer status. */
  datatype LoadBalancer = LoadBalancer(ip: string, hostname: string)

  function TargetFor(cluster: Cluster, lb: LoadBalancer): Target {
    if lb.hostname != "" then Target(cluster, Host, lb.hostname)
    else if lb.ip != "" then Target(cluster, IP, lb.ip)
    else Target(cluster, Unset, "")
  }

  function TargetsFor(cluster: Cluster, lbs: seq<LoadBalancer>): seq<Target> {
    seq(|lbs|, i requires 0 <= i < |lbs| => TargetFor(cluster, lbs[i]))
  }

  /** The targets of all statuses, by cluster. */
  function TargetMap(statuses: map<Cluster, seq<LoadBalancer>>): map<Cluster, seq<Target>> {
    map c | c in statuses :: TargetsFor(c, statuses[c])
  }

  /** `targets` is what some iteration order of the statuses gives. */
  ghost predicate Lists(targets: seq<Target>, statuses: map<Cluster, seq<LoadBalancer>>) {
    multiset(targets) == BagOf(TargetMap(statuses))
  }

  /** The target that one entry asks for: its host name, or its address if it has none. */
  predicate StandsFor(t: Target, lb: LoadBalancer) {
    match t.kind
    case Host => t.value == lb.hostname != ""
    case IP => t.value == lb.ip != "" && lb.hostname == ""
    case Unset => t.value == lb.ip == lb.hostname == ""
  }

  ghost function Asking(lbs: seq<LoadBalancer>, t: Target): set<nat> {
    set i: nat | i < |lbs| && StandsFor(t, lbs[i])
  }

  /** The entries of its cluster that ask for the target. */
  ghost function Entries(statuses: map<Cluster, seq<LoadBalancer>>, t: Target): set<nat> {
    if t.cluster in statuses then Asking(statuses[t.cluster], t) else {}
  }

  lemma AskingMore(lbs: seq<LoadBalancer>, lb: LoadBalancer, t: Target)
    ensures |Asking(lbs + [lb], t)| == |Asking(lbs, t)| + if StandsFor(t, lb) then 1 else 0
  {
    assert Asking(lbs + [lb], t) == Asking(lbs, t) + (if StandsFor(t, lb) then {|lbs|} else {});
  }

  lemma {:induction false} EntriesOf(c: Cluster, lbs: seq<LoadBalancer>, t: Target)
    requires t.cluster == c
    ensures multiset(TargetsFor(c, lbs))[t] == |Asking(lbs, t)|
  {
    if lbs != [] {
      var n := |lbs| - 1;
      EntriesOf(c, lbs[..n], t);
      AskingMore(lbs[..n], lbs[n], t);
      assert lbs == lbs[..n] + [lbs[n]];
      assert TargetsFor(c, lbs) == TargetsFor(c, lbs[..n]) + [TargetFor(c, lbs[n])];
    }
  }

  predicate OfCluster(targets: seq<Target>, c: Cluster) {
    forall t :: t in targets ==> t.cluster == c
  }

  /** In a bag of slices by cluster, a target is counted where it belongs. */
  lemma {:induction false} CountedOnce(m: map<Cluster, seq<Target>>, t: Target)
    requires forall c :: c in m ==> OfCluster(m[c], c)
    ensures BagOf(m)[t] == if t.cluster in m then multiset(m[t.cluster])[t] else 0
    decreases |m|
  {
    if m != map[] {
      var p := Pick(m.Keys);
      Minus(m, p, p);
      BagPick(m, p);
      CountedOnce(m - {p}, t);
      assert p != t.cluster ==> t !in m[p];
    }
  }

  /** Every target is listed as often as some entry asks for it. */
  lemma ListedTimes(targets: seq<Target>, statuses: map<Cluster, seq<LoadBalancer>>, t: Target)
    requires Lists(targets, statuses)
    ensures multiset(targets)[t] == |Entries(statuses, t)|
  {
    CountedOnce(TargetMap(statuses), t);
    if t.cluster in statuses {
      EntriesOf(t.cluster, statuses[t.cluster], t);
    }
  }

  /** In particular no entry is forgotten, and no other target is listed. */
  lemma EntryListed(targets: seq<Target>, statuses: map<Cluster, seq<LoadBalancer>>, t: Target)
    requires Lists(targets, statuses)
    ensures t in targets <==>
      t.cluster in statuses && exists i :: 0 <= i < |statuses[t.cluster]| && StandsFor(t, statuses[t.cluster][i])
  {
    ListedTimes(targets, statuses, t);
    assert t in targets <==> multiset(targets)[t] > 0;
    if t.cluster in statuses {
      if i: nat :| i < |statuses[t.cluster]| && StandsFor(t, statuses[t.cluster][i]) {
        assert i in Entries(statuses, t);
      }
    }
  }

  method GetDNSTargets(statuses: map<Cluster, seq<LoadBalancer>>) returns (targets: seq<Target>)
    ensures Lists(targets, statuses)
    ensures forall t :: multiset(targets)[t] == |Entries(statuses, t)|
  {
    targets := [];
    var todo := TargetMap(statuses);
    while todo != map[]
      invariant multiset(targets) + BagOf(todo) == BagOf(TargetMap(statuses))
      invariant forall c :: c in todo ==> c in statuses && todo[c] == TargetsFor(c, statuses[c])
      decreases |todo|
    {
      var c :| c in todo;
      BagPick(todo, c);
      assert (todo - {c}).Keys == todo.Keys - {c};
      targets := targets + TargetsFor(c, statuses[c]);
      todo := todo - {c};
    }
    forall t
      ensures multiset(targets)[t] == |Entries(statuses, t)|
    {
      ListedTimes(targets, statuses, t);
    }
  }

  // ---------- the reference: what each target contributes ----------

  /** The look-ups of one reconcile: a host that is not in the map fails. */
  type Lookups = map<string, seq<string>>

  predicate Deleting(annotations: Annotations, t: Target) {
    Deletion(t.cluster) in annotations
  }

  /** The addresses a live target stands for. */
  function Resolve(t: Target, lookups: Lookups): seq<string> {
    if t.kind == IP then [t.value] else if t.value in lookups then lookups[t.value] else []
  }

  /** What `t` adds to the live addresses, and to the fall-back addresses. */
  ghost function Live(t: Target, annotations: Annotations, lookups: Lookups): multiset<string> {
    if Deleting(annotations, t) then multiset{} else multiset(Resolve(t, lookups))
  }

  ghost function Dying(t: Target, annotations: Annotations): multiset<string> {
    if Deleting(annotations, t) then multiset{t.value} else multiset{}
  }

  ghost function ActiveBag(targets: seq<Target>, annotations: Annotations, lookups: Lookups): multiset<string> {
    Sum(targets, (t: Target) => Live(t, annotations, lookups))
  }

  ghost function DyingBag(targets: seq<Target>, annotations: Annotations): multiset<string> {
    Sum(targets, (t: Target) => Dying(t, annotations))
  }

  /** Live targets are served; the losing clusters only while nothing live has an address. */
  ghost function ServedBag(targets: seq<Target>, annotations: Annotations, lookups: Lookups): multiset<string> {
    if ActiveBag(targets, annotations, lookups) == multiset{} then DyingBag(targets, annotations)
    else ActiveBag(targets, annotations, lookups)
  }

  /** The order in which the statuses are ranged over does not change what is served. */
  lemma ServedWhateverOrder(one: seq<Target>, other: seq<Target>, annotations: Annotations, lookups: Lookups)
    requires multiset(one) == multiset(other)
    ensures ActiveBag(one, annotations, lookups) == ActiveBag(other, annotations, lookups)
    ensures ServedBag(one, annotations, lookups) == ServedBag(other, annotations, lookups)
  {
    SumPermutes(one, other, (t: Target) => Live(t, annotations, lookups));
    SumPermutes(one, other, (t: Target) => Dying(t, annotations));
  }

  lemma ActiveMember(targets: seq<Target>, annotations: Annotations, lookups: Lookups, a: string)
    ensures a in ActiveBag(targets, annotations, lookups) <==>
      exists t :: t in targets && !Deleting(annotations, t) && a in Resolve(t, lookups)
  {
    SumMember(targets, (t: Target) => Live(t, annotations, lookups), a);
  }

  lemma DyingMember(targets: seq<Target>, annotations: Annotations, a: string)
    ensures a in DyingBag(targets, annotations) <==>
      exists t :: t in targets && Deleting(annotations, t) && a == t.value
  {
    SumMember(targets, (t: Target) => Dying(t, annotations), a);
  }

  // ---------- the loop ----------

  /** `active` and `dying` as the loop builds them, with the hosts it starts watching. */
  datatype Selection = Selection(active: map<string, seq<string>>, dying: map<string, seq<string>>, hosts: seq<string>)

  function Append(m: map<string, seq<string>>, k: string, vs: seq<string>): map<string, seq<string>> {
    if vs == [] then m else m[k := (if k in m then m[k] else []) + vs]
  }

  /** One iteration; `None` when a look-up fails. */
  function SelectOne(sel: Selection, t: Target, annotations: Annotations, lookups: Lookups): Option<Selection> {
    if Deleting(annotations, t) then Some(sel.(dying := Append(sel.dying, t.value, [t.value])))
    else if t.kind == IP then Some(sel.(active := Append(sel.active, t.value, [t.value])))
    else if t.value !in lookups then None
    else Some(sel.(active := Append(sel.active, t.value, lookups[t.value]), hosts := sel.hosts + [t.value]))
  }

  /** The addresses that targets of value `k` contribute, among the dying ones or the live ones. */
  function Group(targets: seq<Target>, annotations: Annotations, lookups: Lookups, k: string,
                 dying: bool): seq<string> {
    if targets == [] then []
    else
      var t := targets[|targets| - 1];
      Group(targets[..|targets| - 1], annotations, lookups, k, dying) +
      (if t.value != k || Deleting(annotations, t) != dying then [] else if dying then [k] else Resolve(t, lookups))
  }

  /** `m` groups those addresses by target value, without empty groups. */
  ghost predicate Grouped(m: map<string, seq<string>>, targets: seq<Target>, annotations: Annotations,
                          lookups: Lookups, dying: bool) {
    forall k: string :: Lookup(m, k) ==
      var group := Group(targets, annotations, lookups, k, dying); if group == [] then None else Some(group)
  }

  /** The selection maps agree with the reference. */
  ghost predicate Selects(sel: Selection, targets: seq<Target>, annotations: Annotations, lookups: Lookups) {
    BagOf(sel.active) == ActiveBag(targets, annotations, lookups) &&
    BagOf(sel.dying) == DyingBag(targets, annotations) &&
    Grouped(sel.active, targets, annotations, lookups, false) &&
    Grouped(sel.dying, targets, annotations, lookups, true)
  }

  lemma AppendBag(m: map<string, seq<string>>, k: string, vs: seq<string>)
    ensures BagOf(Append(m, k, vs)) == BagOf(m) + multiset(vs)
  {
    BagAppend(m, k, vs);
  }

  lemma GroupedSnoc(m: map<string, seq<string>>, targets: seq<Target>, t: Target, annotations: Annotations,
                    lookups: Lookups, dying: bool)
    requires Grouped(m, targets, annotations, lookups, dying)
    ensures Grouped(
      if Deleting(annotations, t) != dying then m
      else Append(m, t.value, if dying then [t.value] else Resolve(t, lookups)),
      targets + [t], annotations, lookups, dying)
  {
    var added := if dying then [t.value] else Resolve(t, lookups);
    var n := if Deleting(annotations, t) != dying then m else Append(m, t.value, added);
    assert (targets + [t])[..|targets|] == targets;
    forall k: string
      ensures Lookup(n, k) ==
        var group := Group(targets + [t], annotations, lookups, k, dying); if group == [] then None else Some(group)
    {
      var group := Group(targets, annotations, lookups, k, dying);
      assert Lookup(m, k) == if group == [] then None else Some(group);
      assert group + [] == group;
    }
  }

  lemma BagsSnoc(targets: seq<Target>, t: Target, annotations: Annotations, lookups: Lookups)
    ensures ActiveBag(targets + [t], annotations, lookups) ==
      ActiveBag(targets, annotations, lookups) + Live(t, annotations, lookups)
    ensures DyingBag(targets + [t], annotations) == DyingBag(targets, annotations) + Dying(t, annotations)
  {
    SumSnoc(targets, t, (t: Target) => Live(t, annotations, lookups));
    SumSnoc(targets, t, (t: Target) => Dying(t, annotations));
  }

  lemma SelectsMore(sel: Selection, targets: seq<Target>, t: Target, annotations: Annotations, lookups: Lookups)
    requires Selects(sel, targets, annotations, lookups)
    requires SelectOne(sel, t, annotations, lookups).Some?
    ensures Selects(SelectOne(sel, t, annotations, lookups).value, targets + [t], annotations, lookups)
  {
    BagsSnoc(targets, t, annotations, lookups);
    GroupedSnoc(sel.active, targets, t, annotations, lookups, false);
    GroupedSnoc(sel.dying, targets, t, annotations, lookups, true);
    if Deleting(annotations, t) {
      AppendBag(sel.dying, t.value, [t.value]);
    } else {
      AppendBag(sel.active, t.value, Resolve(t, lookups));
    }
  }

  /** The groups handed to the endpoint computation. */
  function Chosen(sel: Selection): map<string, seq<string>> {
    if |sel.active| == 0 && |sel.dying| > 0 then sel.dying else sel.active
  }

  /** The groups for some order of the targets: live ones, or dying ones when nothing is live. */
  ghost predicate ServedGroups(groups: map<string, seq<string>>, targets: seq<Target>, annotations: Annotations,
                               lookups: Lookups) {
    BagOf(groups) == ServedBag(targets, annotations, lookups) &&
    Grouped(groups, targets, annotations, lookups, ActiveBag(targets, annotations, lookups) == multiset{})
  }

  lemma ChosenServes(sel: Selection, targets: seq<Target>, annotations: Annotations, lookups: Lookups)
    requires Selects(sel, targets, annotations, lookups)
    ensures ServedGroups(Chosen(sel), targets, annotations, lookups)
  {
    if |sel.active| == 0 {
      assert sel.active == map[];
      if |sel.dying| == 0 {
        assert sel.dying == map[];
      }
    } else {
      var k :| k in sel.active;
      BagPick(sel.active, k);
      assert Lookup(sel.active, k) == Some(sel.active[k]);
      assert sel.active[k][0] in BagOf(sel.active);
    }
  }

  /** What `t` adds to the group of `k`. */
  ghost function Share(t: Target, annotations: Annotations, lookups: Lookups, k: string,
                       dying: bool): multiset<string> {
    if t.value != k || Deleting(annotations, t) != dying then multiset{}
    else if dying then multiset{k} else multiset(Resolve(t, lookups))
  }

  lemma {:induction false} GroupBag(targets: seq<Target>, annotations: Annotations, lookups: Lookups, k: string,
                                    dying: bool)
    ensures multiset(Group(targets, annotations, lookups, k, dying)) ==
      Sum(targets, (t: Target) => Share(t, annotations, lookups, k, dying))
  {
    if targets != [] {
      GroupBag(targets[..|targets| - 1], annotations, lookups, k, dying);
    }
  }

  lemma GroupPermutes(one: seq<Target>, other: seq<Target>, annotations: Annotations, lookups: Lookups, k: string,
                      dying: bool)
    requires multiset(one) == multiset(other)
    ensures multiset(Group(one, annotations, lookups, k, dying)) ==
      multiset(Group(other, annotations, lookups, k, dying))
  {
    GroupBag(one, annotations, lookups, k, dying);
    GroupBag(other, annotations, lookups, k, dying);
    SumPermutes(one, other, (t: Target) => Share(t, annotations, lookups, k, dying));
  }

  lemma GroupedSame(m: map<string, seq<string>>, n: map<string, seq<string>>, one: seq<Target>, other: seq<Target>,
                    annotations: Annotations, lookups: Lookups, dying: bool)
    requires multiset(one) == multiset(other)
    requires Grouped(m, one, annotations, lookups, dying) && Grouped(n, other, annotations, lookups, dying)
    ensures SameGroups(m, n)
  {
    forall k: string
      ensures k in m <==> k in n
      ensures k in m && k in n ==> multiset(m[k]) == multiset(n[k])
    {
      var g, h := Group(one, annotations, lookups, k, dying), Group(other, annotations, lookups, k, dying);
      GroupPermutes(one, other, annotations, lookups, k, dying);
      assert |multiset(g)| == |g| && |multiset(h)| == |h|;
      assert Lookup(m, k) == (if g == [] then None else Some(g)) && Lookup(n, k) == (if h == [] then None else Some(h));
    }
  }

  /** Permuted targets give the same groups, up to the order within a group. */
  lemma SameServedGroups(m: map<string, seq<string>>, n: map<string, seq<string>>, one: seq<Target>, other: seq<Target>,
                         annotations: Annotations, lookups: Lookups)
    requires multiset(one) == multiset(other)
    requires ServedGroups(m, one, annotations, lookups) && ServedGroups(n, other, annotations, lookups)
    ensures SameGroups(m, n)
  {
    ServedWhateverOrder(one, other, annotations, lookups);
    GroupedSame(m, n, one, other, annotations, lookups, ActiveBag(one, annotations, lookups) == multiset{});
  }

  // ---------- with the watchers ----------

  predicate IsLiveHost(annotations: Annotations, t: Target, h: string) {
    !Deleting(annotations, t) && t.kind != IP && t.value == h
  }

  predicate Resolvable(annotations: Annotations, lookups: Lookups, t: Target) {
    Deleting(annotations, t) || t.kind == IP || t.value in lookups
  }

  /** `hosts` lists the values of the live host targets. */
  ghost predicate LiveHosts(hosts: seq<string>, targets: seq<Target>, annotations: Annotations) {
    forall h :: h in hosts <==> exists t :: t in targets && IsLiveHost(annotations, t, h)
  }

  lemma LiveHostsSnoc(sel: Selection, targets: seq<Target>, t: Target, annotations: Annotations, lookups: Lookups)
    requires LiveHosts(sel.hosts, targets, annotations) && SelectOne(sel, t, annotations, lookups).Some?
    ensures LiveHosts(SelectOne(sel, t, annotations, lookups).value.hosts, targets + [t], annotations)
  {
    var next := SelectOne(sel, t, annotations, lookups).value;
    forall h
      ensures h in next.hosts <==> exists u :: u in targets + [t] && IsLiveHost(annotations, u, h)
    {
      if u :| u in targets && IsLiveHost(annotations, u, h) {
        assert u in targets + [t];
      }
      if IsLiveHost(annotations, t, h) {
        assert t in targets + [t];
      }
    }
  }

  /** `hosts` have been added to what is watched for `key`. */
  ghost predicate WatchedToo(before: seq<Watcher>, after: seq<Watcher>, key: string, hosts: seq<string>) {
    Others(after, key) == Others(before, key) &&
    forall h :: h in Watched(after, key) <==> h in Watched(before, key) || h in hosts
  }

  /** The target loop: sorts the targets into live and dying ones, looks the live hosts up and
      has them watched; stops at the first failing look-up. */
  method SelectTargets(targets: seq<Target>, annotations: Annotations, lookups: Lookups, watcher: HostsWatcher,
                       key: string)
    returns (selected: Option<Selection>)
    requires watcher.Valid()
    modifies watcher`records, watcher`nextId
    ensures watcher.Valid()
    ensures Others(watcher.records, key) == Others(old(watcher.records), key)
    ensures selected.Some? <==> forall t :: t in targets ==> Resolvable(annotations, lookups, t)
    ensures selected.Some? ==>
      Selects(selected.value, targets, annotations, lookups) &&
      LiveHosts(selected.value.hosts, targets, annotations) &&
      WatchedToo(old(watcher.records), watcher.records, key, selected.value.hosts)
  {
    var sel := Selection(map[], map[], []);
    for i := 0 to |targets|
      invariant watcher.Valid()
      invariant forall t :: t in targets[..i] ==> Resolvable(annotations, lookups, t)
      invariant Selects(sel, targets[..i], annotations, lookups) && LiveHosts(sel.hosts, targets[..i], annotations)
      invariant WatchedToo(old(watcher.records), watcher.records, key, sel.hosts)
    {
      var t := targets[i];
      assert targets[..i + 1] == targets[..i] + [t];
      var next := SelectOne(sel, t, annotations, lookups);
      if next == None {
        assert t in targets && !Resolvable(annotations, lookups, t);
        return None;
      }
      SelectsMore(sel, targets[..i], t, annotations, lookups);
      LiveHostsSnoc(sel, targets[..i], t, annotations, lookups);
      if !Deleting(annotations, t) && t.kind != IP {
        var started := watcher.StartWatching(key, t.value);
      }
      sel := next.value;
    }
    assert targets[..|targets|] == targets;
    return Some(sel);
  }
}
