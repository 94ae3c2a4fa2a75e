/** What passes over the custom hosts of an ingress keep, one by one and over runs. */
module HostRuns {
  import opened Wrappers
  import opened Domains
  import opened Bags
  import opened CustomHosts

  /** Everything the user asked for: the rules in the spec and those waiting for verification. */
  function UserList(h: Hosts, generatedHost: string): seq<Rule> {
    Own(h.rules, generatedHost) + PendingRules(h.pending)
  }

  ghost function UserRules(h: Hosts, generatedHost: string): multiset<Rule> {
    multiset(UserList(h, generatedHost))
  }

  predicate Foreign(rules: seq<Rule>, generatedHost: string) {
    forall i :: 0 <= i < |rules| ==> rules[i].host != generatedHost
  }

  /** What only this code leaves in the annotation: readable, and no generated rule in it. */
  predicate Proper(h: Hosts, generatedHost: string) {
    h.pending != Malformed && Foreign(PendingRules(h.pending), generatedHost)
  }

  function Copies(rules: seq<Rule>, generatedHost: string): seq<Rule> {
    if rules == [] then [] else Copies(rules[..|rules| - 1], generatedHost) + [Copy(rules[|rules| - 1], generatedHost)]
  }

  predicate AllServe(rules: seq<Rule>, dvs: seq<Verification>) {
    forall i :: 0 <= i < |rules| ==> MayServe(rules[i].host, dvs)
  }

  predicate NoneServes(rules: seq<Rule>, dvs: seq<Verification>) {
    forall i :: 0 <= i < |rules| ==> !MayServe(rules[i].host, dvs)
  }

  // ---------- the filters ----------

  lemma {:induction false} OwnForeign(rules: seq<Rule>, generatedHost: string)
    ensures Foreign(Own(rules, generatedHost), generatedHost)
  {
    if rules != [] {
      OwnForeign(rules[..|rules| - 1], generatedHost);
    }
  }

  lemma {:induction false} OwnConcat(a: seq<Rule>, b: seq<Rule>, generatedHost: string)
    ensures Own(a + b, generatedHost) == Own(a, generatedHost) + Own(b, generatedHost)
    ensures Generated(a + b, generatedHost) == Generated(a, generatedHost) + Generated(b, generatedHost)
  {
    if b == [] {
      assert a + b == a;
    } else {
      assert (a + b)[..|a + b| - 1] == a + b[..|b| - 1];
      OwnConcat(a, b[..|b| - 1], generatedHost);
    }
  }

  lemma RuleSplits(rules: seq<Rule>, r: Rule, generatedHost: string)
    ensures Own(rules + [r], generatedHost) == Own(rules, generatedHost) + if r.host == generatedHost then [] else [r]
    ensures Generated(rules + [r], generatedHost) ==
      Generated(rules, generatedHost) + if r.host == generatedHost then [r] else []
  {
    assert (rules + [r])[..|rules|] == rules;
  }

  /** The spec is its own rules and its generated ones. */
  lemma {:induction false} OwnAndGenerated(rules: seq<Rule>, generatedHost: string)
    ensures multiset(rules) == multiset(Own(rules, generatedHost)) + multiset(Generated(rules, generatedHost))
  {
    if rules != [] {
      var front, r := rules[..|rules| - 1], rules[|rules| - 1];
      OwnAndGenerated(front, generatedHost);
      Joined(Own(front, generatedHost), Generated(front, generatedHost), front, r, r.host != generatedHost);
      LastBag(rules);
    }
  }

  lemma LastBag(rules: seq<Rule>)
    requires rules != []
    ensures multiset(rules) == multiset(rules[..|rules| - 1]) + multiset{rules[|rules| - 1]}
  {
    assert rules == rules[..|rules| - 1] + [rules[|rules| - 1]];
  }

  /** One more rule on either side. */
  lemma Joined(a: seq<Rule>, b: seq<Rule>, all: seq<Rule>, r: Rule, first: bool)
    requires multiset(a) + multiset(b) == multiset(all)
    ensures multiset(a + if first then [r] else []) + multiset(b + if first then [] else [r]) ==
      multiset(all) + multiset{r}
  {
    assert a + [] == a && b + [] == b;
  }

  lemma {:induction false} Divided(rules: seq<Rule>, dvs: seq<Verification>)
    ensures multiset(Verified(rules, dvs)) + multiset(Unverified(rules, dvs)) == multiset(rules)
  {
    if rules != [] {
      var front, r := rules[..|rules| - 1], rules[|rules| - 1];
      Divided(front, dvs);
      Joined(Verified(front, dvs), Unverified(front, dvs), front, r, MayServe(r.host, dvs));
      LastBag(rules);
    }
  }

  lemma {:induction false} Sides(rules: seq<Rule>, dvs: seq<Verification>)
    ensures AllServe(Verified(rules, dvs), dvs) && NoneServes(Unverified(rules, dvs), dvs)
  {
    if rules != [] {
      Sides(rules[..|rules| - 1], dvs);
    }
  }

  lemma {:induction false} UnverifiedForeign(rules: seq<Rule>, dvs: seq<Verification>, generatedHost: string)
    requires Foreign(rules, generatedHost)
    ensures Foreign(Unverified(rules, dvs), generatedHost)
  {
    if rules != [] {
      UnverifiedForeign(rules[..|rules| - 1], dvs, generatedHost);
    }
  }

  lemma {:induction false} AllServing(rules: seq<Rule>, dvs: seq<Verification>)
    requires AllServe(rules, dvs)
    ensures Verified(rules, dvs) == rules && Unverified(rules, dvs) == []
  {
    if rules != [] {
      var n := |rules| - 1;
      assert MayServe(rules[n].host, dvs) && rules == rules[..n] + [rules[n]];
      AllServing(rules[..n], dvs);
      assert Verified(rules, dvs) == rules[..n] + [rules[n]];
    }
  }

  lemma {:induction false} NoneServing(rules: seq<Rule>, dvs: seq<Verification>)
    requires NoneServes(rules, dvs)
    ensures Verified(rules, dvs) == [] && Unverified(rules, dvs) == rules
  {
    if rules != [] {
      var n := |rules| - 1;
      assert !MayServe(rules[n].host, dvs) && rules == rules[..n] + [rules[n]];
      NoneServing(rules[..n], dvs);
      assert Unverified(rules, dvs) == rules[..n] + [rules[n]];
    }
  }

  lemma OneRule(r: Rule, generatedHost: string)
    ensures Own([r], generatedHost) == if r.host == generatedHost then [] else [r]
    ensures Generated([r], generatedHost) == if r.host == generatedHost then [r] else []
  {
    assert [r][..0] == [];
  }

  /** Two more parts of a spec, given what they hold together. */
  lemma PartsSplit(front: seq<Rule>, a: seq<Rule>, b: seq<Rule>, generatedHost: string, own: seq<Rule>,
                   generated: seq<Rule>)
    requires Own(a, generatedHost) + Own(b, generatedHost) == own
    requires Generated(a, generatedHost) + Generated(b, generatedHost) == generated
    ensures Own(front + a + b, generatedHost) == Own(front, generatedHost) + own
    ensures Generated(front + a + b, generatedHost) == Generated(front, generatedHost) + generated
  {
    OwnConcat(a, b, generatedHost);
    OwnConcat(front, a + b, generatedHost);
    assert front + (a + b) == front + a + b;
  }

  /** What one rule and its copy add to the two parts of a spec. */
  lemma PairSplits(front: seq<Rule>, r: Rule, generatedHost: string, served: seq<Rule>)
    requires r.host != generatedHost && (served == [] || served == [r])
    ensures var copy := [Copy(r, generatedHost)];
      Own(front + served + copy, generatedHost) == Own(front + copy + served, generatedHost) ==
        Own(front, generatedHost) + served &&
      Generated(front + served + copy, generatedHost) == Generated(front + copy + served, generatedHost) ==
        Generated(front, generatedHost) + copy
  {
    var copy := [Copy(r, generatedHost)];
    OneRule(r, generatedHost);
    OneRule(copy[0], generatedHost);
    assert Own(served, generatedHost) == served && Generated(served, generatedHost) == [];
    assert served + [] == served && [] + served == served && copy + [] == copy && [] + copy == copy;
    PartsSplit(front, served, copy, generatedHost, served, copy);
    PartsSplit(front, copy, served, generatedHost, served, copy);
  }

  lemma {:induction false} KeptSplits(rules: seq<Rule>, generatedHost: string, dvs: seq<Verification>)
    requires Foreign(rules, generatedHost)
    ensures Own(Kept(rules, generatedHost, dvs), generatedHost) == Verified(rules, dvs)
    ensures Generated(Kept(rules, generatedHost, dvs), generatedHost) == Copies(rules, generatedHost)
  {
    if rules != [] {
      var n := |rules| - 1;
      KeptSplits(rules[..n], generatedHost, dvs);
      PairSplits(Kept(rules[..n], generatedHost, dvs), rules[n], generatedHost,
                 if MayServe(rules[n].host, dvs) then [rules[n]] else []);
    }
  }

  lemma {:induction false} RestoredSplits(rules: seq<Rule>, generatedHost: string, dvs: seq<Verification>)
    requires Foreign(rules, generatedHost)
    ensures Own(Restored(rules, generatedHost, dvs), generatedHost) == Verified(rules, dvs)
    ensures Generated(Restored(rules, generatedHost, dvs), generatedHost) == Copies(rules, generatedHost)
  {
    if rules != [] {
      var n := |rules| - 1;
      RestoredSplits(rules[..n], generatedHost, dvs);
      PairSplits(Restored(rules[..n], generatedHost, dvs), rules[n], generatedHost,
                 if MayServe(rules[n].host, dvs) then [rules[n]] else []);
    }
  }

  lemma {:induction false} CopiesConcat(a: seq<Rule>, b: seq<Rule>, generatedHost: string)
    ensures Copies(a + b, generatedHost) == Copies(a, generatedHost) + Copies(b, generatedHost)
  {
    if b == [] {
      assert a + b == a;
    } else {
      assert (a + b)[..|a + b| - 1] == a + b[..|b| - 1];
      CopiesConcat(a, b[..|b| - 1], generatedHost);
    }
  }

  lemma {:induction false} CopiesBag(rules: seq<Rule>, generatedHost: string)
    ensures multiset(Copies(rules, generatedHost)) == Sum(rules, (r: Rule) => multiset{Copy(r, generatedHost)})
  {
    if rules != [] {
      CopiesBag(rules[..|rules| - 1], generatedHost);
    }
  }

  lemma CopiesPermute(a: seq<Rule>, b: seq<Rule>, generatedHost: string)
    requires multiset(a) == multiset(b)
    ensures multiset(Copies(a, generatedHost)) == multiset(Copies(b, generatedHost))
  {
    CopiesBag(a, generatedHost);
    CopiesBag(b, generatedHost);
    SumPermutes(a, b, (r: Rule) => multiset{Copy(r, generatedHost)});
  }

  // ---------- one pass ----------

  /** The spec after a pass, taken apart. */
  lemma ProcessedSplits(h: Hosts, generatedHost: string, dvs: seq<Verification>)
    requires Proper(h, generatedHost)
    ensures var after, own, waiting :=
      Processed(h, generatedHost, dvs, false), Own(h.rules, generatedHost), PendingRules(h.pending);
      Own(after.rules, generatedHost) == Verified(own, dvs) + Verified(waiting, dvs) &&
      Generated(after.rules, generatedHost) == Copies(UserList(h, generatedHost), generatedHost) &&
      PendingRules(after.pending) == Unverified(waiting, dvs) + Unverified(own, dvs)
  {
    var own, waiting := Own(h.rules, generatedHost), PendingRules(h.pending);
    OwnForeign(h.rules, generatedHost);
    KeptSplits(own, generatedHost, dvs);
    RestoredSplits(waiting, generatedHost, dvs);
    OwnConcat(Kept(own, generatedHost, dvs), Restored(waiting, generatedHost, dvs), generatedHost);
    CopiesConcat(own, waiting, generatedHost);
  }

  lemma Regrouped(served: seq<Rule>, waiting: seq<Rule>, own: seq<Rule>, freed: seq<Rule>, left: seq<Rule>,
                  pending: seq<Rule>)
    requires multiset(served) + multiset(waiting) == multiset(own) &&
      multiset(freed) + multiset(left) == multiset(pending)
    ensures multiset((served + freed) + (left + waiting)) == multiset(own + pending)
  {
    assert multiset((served + freed) + (left + waiting)) ==
      multiset(served) + multiset(freed) + (multiset(left) + multiset(waiting));
    assert multiset(own + pending) == multiset(own) + multiset(pending);
  }

  /** No rule of the user is lost, doubled or changed, whatever is verified. */
  lemma Conserved(h: Hosts, generatedHost: string, dvs: seq<Verification>)
    requires Proper(h, generatedHost)
    ensures var after := Processed(h, generatedHost, dvs, false);
      Proper(after, generatedHost) && UserRules(after, generatedHost) == UserRules(h, generatedHost)
  {
    var own, waiting := Own(h.rules, generatedHost), PendingRules(h.pending);
    ProcessedSplits(h, generatedHost, dvs);
    Divided(own, dvs);
    Divided(waiting, dvs);
    OwnForeign(h.rules, generatedHost);
    UnverifiedForeign(own, dvs, generatedHost);
    UnverifiedForeign(waiting, dvs, generatedHost);
    Regrouped(Verified(own, dvs), Unverified(own, dvs), own, Verified(waiting, dvs), Unverified(waiting, dvs), waiting);
  }

  function Bodies(rules: seq<Rule>): seq<string> {
    if rules == [] then [] else Bodies(rules[..|rules| - 1]) + [rules[|rules| - 1].body]
  }

  lemma {:induction false} BodiesBag(rules: seq<Rule>)
    ensures multiset(Bodies(rules)) == Sum(rules, (r: Rule) => multiset{r.body})
  {
    if rules != [] {
      BodiesBag(rules[..|rules| - 1]);
    }
  }

  lemma BodiesPermute(a: seq<Rule>, b: seq<Rule>)
    requires multiset(a) == multiset(b)
    ensures multiset(Bodies(a)) == multiset(Bodies(b))
  {
    BodiesBag(a);
    BodiesBag(b);
    SumPermutes(a, b, (r: Rule) => multiset{r.body});
  }

  lemma {:induction false} CopiesBodies(rules: seq<Rule>, generatedHost: string)
    ensures Bodies(Copies(rules, generatedHost)) == Bodies(rules)
    ensures forall c :: c in Copies(rules, generatedHost) ==> c.host == generatedHost
  {
    if rules != [] {
      CopiesBodies(rules[..|rules| - 1], generatedHost);
    }
  }

  /** Every rule of the user is reachable under the generated host, exactly once: what the
      generated rules say is what the user's rules say, host apart. */
  lemma OneCopyEach(h: Hosts, generatedHost: string, dvs: seq<Verification>)
    requires Proper(h, generatedHost)
    ensures var after := Processed(h, generatedHost, dvs, false);
      var copies, user := Generated(after.rules, generatedHost), UserList(after, generatedHost);
      multiset(copies) == multiset(Copies(user, generatedHost)) && multiset(Bodies(copies)) == multiset(Bodies(user))
  {
    var after := Processed(h, generatedHost, dvs, false);
    var user := UserList(after, generatedHost);
    ProcessedSplits(h, generatedHost, dvs);
    Conserved(h, generatedHost, dvs);
    CopiesPermute(UserList(h, generatedHost), user, generatedHost);
    CopiesBodies(UserList(h, generatedHost), generatedHost);
    BodiesPermute(UserList(h, generatedHost), user);
  }

  lemma {:induction false} KeptSafe(rules: seq<Rule>, generatedHost: string, dvs: seq<Verification>)
    ensures forall r :: r in Kept(rules, generatedHost, dvs) || r in Restored(rules, generatedHost, dvs) ==>
      r.host == generatedHost || MayServe(r.host, dvs)
  {
    if rules != [] {
      KeptSafe(rules[..|rules| - 1], generatedHost, dvs);
    }
  }

  /** After every pass, with or without advanced scheduling, only the generated host, the empty
      host and hosts under a verified domain are served. */
  lemma OnlySafeHosts(h: Hosts, generatedHost: string, dvs: seq<Verification>, tmc: bool)
    ensures forall r :: r in Processed(h, generatedHost, dvs, tmc).rules ==>
      r.host == generatedHost || Covered(r.host, dvs)
  {
    KeptSafe(Own(h.rules, generatedHost), generatedHost, dvs);
    KeptSafe(PendingRules(h.pending), generatedHost, dvs);
    forall r
      ensures MayServe(r, dvs) <==> Covered(r, dvs)
    {
      ServedIsCovered(r, dvs);
    }
  }

  lemma {:induction false} SidesOf(rules: seq<Rule>, dvs: seq<Verification>, r: Rule)
    ensures r in Verified(rules, dvs) <==> r in rules && Covered(r.host, dvs)
    ensures r in Unverified(rules, dvs) <==> r in rules && !Covered(r.host, dvs)
  {
    ServedIsCovered(r.host, dvs);
    if rules != [] {
      SidesOf(rules[..|rules| - 1], dvs, r);
      assert rules == rules[..|rules| - 1] + [rules[|rules| - 1]];
    }
  }

  lemma {:induction false} OwnMember(rules: seq<Rule>, generatedHost: string, r: Rule)
    ensures r in Own(rules, generatedHost) <==> r in rules && r.host != generatedHost
  {
    if rules != [] {
      OwnMember(rules[..|rules| - 1], generatedHost, r);
      assert rules == rules[..|rules| - 1] + [rules[|rules| - 1]];
    }
  }

  /** Each rule of the user is served exactly when a verified domain covers its host, or it has
      none; otherwise, and only then, it waits. */
  lemma ServedOrWaiting(h: Hosts, generatedHost: string, dvs: seq<Verification>, r: Rule)
    requires Proper(h, generatedHost) && r in UserList(h, generatedHost)
    ensures var after := Processed(h, generatedHost, dvs, false);
      (r in after.rules <==> Covered(r.host, dvs)) && (r in PendingRules(after.pending) <==> !Covered(r.host, dvs))
  {
    var after := Processed(h, generatedHost, dvs, false);
    var own, waiting := Own(h.rules, generatedHost), PendingRules(h.pending);
    ProcessedSplits(h, generatedHost, dvs);
    SidesOf(own, dvs, r);
    SidesOf(waiting, dvs, r);
    OwnMember(h.rules, generatedHost, r);
    OwnMember(after.rules, generatedHost, r);
  }

  /** The label is set exactly while some rule of the user may not be served. */
  lemma LabelTells(h: Hosts, generatedHost: string, dvs: seq<Verification>, tmc: bool)
    requires Proper(h, generatedHost)
    ensures Processed(h, generatedHost, dvs, tmc).pendingLabel <==>
      exists r ::
        r in (if tmc then Own(h.rules, generatedHost) else UserList(h, generatedHost)) && !Covered(r.host, dvs)
  {
    var own, waiting := Own(h.rules, generatedHost), PendingRules(h.pending);
    UnverifiedExists(own, dvs);
    UnverifiedExists(waiting, dvs);
  }

  lemma {:induction false} UnverifiedExists(rules: seq<Rule>, dvs: seq<Verification>)
    ensures Unverified(rules, dvs) != [] <==> exists r :: r in rules && !Covered(r.host, dvs)
  {
    if rules != [] {
      var n := |rules| - 1;
      UnverifiedExists(rules[..n], dvs);
      ServedIsCovered(rules[n].host, dvs);
      assert rules == rules[..n] + [rules[n]];
    }
  }

  // ---------- the same pass again ----------

  lemma ServeConcat(a: seq<Rule>, b: seq<Rule>, dvs: seq<Verification>)
    ensures AllServe(a, dvs) && AllServe(b, dvs) ==> AllServe(a + b, dvs)
    ensures NoneServes(a, dvs) && NoneServes(b, dvs) ==> NoneServes(a + b, dvs)
  {
  }

  /** The second pass finds the user's rules where the first one left them. */
  lemma SecondPass(h: Hosts, generatedHost: string, dvs: seq<Verification>)
    requires Proper(h, generatedHost)
    ensures var once := Processed(h, generatedHost, dvs, false);
      var twice := Processed(once, generatedHost, dvs, false);
      Own(twice.rules, generatedHost) == Own(once.rules, generatedHost) &&
      Unverified(Own(once.rules, generatedHost), dvs) == [] && twice.pending == once.pending
  {
    var once := Processed(h, generatedHost, dvs, false);
    var own, waiting := Own(h.rules, generatedHost), PendingRules(h.pending);
    var served, left := Own(once.rules, generatedHost), PendingRules(once.pending);
    ProcessedSplits(h, generatedHost, dvs);
    Conserved(h, generatedHost, dvs);
    ProcessedSplits(once, generatedHost, dvs);
    Sides(own, dvs);
    Sides(waiting, dvs);
    ServeConcat(Verified(own, dvs), Verified(waiting, dvs), dvs);
    ServeConcat(Unverified(waiting, dvs), Unverified(own, dvs), dvs);
    AllServing(served, dvs);
    NoneServing(left, dvs);
  }

  /** A second pass changes neither the spec as a multiset nor the pending rules; from the second
      pass on nothing changes at all. */
  lemma Fixpoint(h: Hosts, generatedHost: string, dvs: seq<Verification>)
    requires Proper(h, generatedHost)
    ensures var once := Processed(h, generatedHost, dvs, false);
      var twice := Processed(once, generatedHost, dvs, false);
      multiset(twice.rules) == multiset(once.rules) && twice.pending == once.pending &&
      twice.pendingLabel == once.pendingLabel &&
      Processed(twice, generatedHost, dvs, false) == twice
  {
    var once := Processed(h, generatedHost, dvs, false);
    var twice := Processed(once, generatedHost, dvs, false);
    SecondPass(h, generatedHost, dvs);
    Conserved(h, generatedHost, dvs);
    SecondPass(once, generatedHost, dvs);
    SameRules(h, once, generatedHost, dvs);
  }

  lemma SameRules(h: Hosts, once: Hosts, generatedHost: string, dvs: seq<Verification>)
    requires Proper(h, generatedHost) && once == Processed(h, generatedHost, dvs, false)
    ensures multiset(Processed(once, generatedHost, dvs, false).rules) == multiset(once.rules)
  {
    var twice := Processed(once, generatedHost, dvs, false);
    SecondPass(h, generatedHost, dvs);
    OneCopyEach(h, generatedHost, dvs);
    Conserved(h, generatedHost, dvs);
    ProcessedSplits(once, generatedHost, dvs);
    OwnAndGenerated(once.rules, generatedHost);
    OwnAndGenerated(twice.rules, generatedHost);
  }

  // ---------- runs ----------

  /** One reconcile: the managed host and the verifications it sees, and whether scheduling is advanced. */
  datatype Pass = Pass(host: string, dvs: seq<Verification>, tmc: bool)

  /** What is stored: under advanced scheduling the spec is put back as the user wrote it. */
  function Stored(h: Hosts, pass: Pass): Hosts {
    var after := Processed(h, pass.host, pass.dvs, pass.tmc);
    if pass.tmc then after.(rules := h.rules) else after
  }

  function After(h: Hosts, passes: seq<Pass>): Hosts {
    if passes == [] then h else Stored(After(h, passes[..|passes| - 1]), passes[|passes| - 1])
  }

  /** Advanced scheduling drops the pending rules, for it expects to find them in the spec. */
  predicate Drops(h: Hosts, pass: Pass) {
    pass.tmc && PendingRules(h.pending) != []
  }

  lemma StepConserves(h: Hosts, pass: Pass)
    requires Proper(h, pass.host)
    ensures var after := Stored(h, pass);
      Proper(after, pass.host) && UserRules(after, pass.host) <= UserRules(h, pass.host) &&
      (UserRules(after, pass.host) == UserRules(h, pass.host) <==> !Drops(h, pass)) &&
      after.pendingLabel == Processed(h, pass.host, pass.dvs, pass.tmc).pendingLabel
  {
    if pass.tmc {
      var own, waiting := Own(h.rules, pass.host), PendingRules(h.pending);
      assert multiset(own + waiting) == multiset(own) + multiset(waiting);
      assert own + [] == own;
      assert |multiset(own) + multiset(waiting)| == |own| + |waiting|;
    } else {
      Conserved(h, pass.host, pass.dvs);
    }
  }

  // ---------- when the managed host changes ----------

  /** Rules generated under one host are taken for the user's under another: a change of host is
      harmless only while there are none of either. */
  predicate Harmless(rules: seq<Rule>, before: string, after: string) {
    before == after || Generated(rules, before) == Generated(rules, after) == []
  }

  lemma {:induction false} GeneratedHost(rules: seq<Rule>, generatedHost: string)
    ensures forall r :: r in Generated(rules, generatedHost) ==> r.host == generatedHost
  {
    if rules != [] {
      GeneratedHost(rules[..|rules| - 1], generatedHost);
    }
  }

  lemma SameMembers(a: seq<Rule>, b: seq<Rule>, more: multiset<Rule>)
    requires multiset(b) == multiset(a) + more
    ensures forall r :: r in a ==> r in b
  {
    forall r | r in a
      ensures r in b
    {
      assert r in multiset(a) && r in multiset(b);
    }
  }

  lemma HasMember(rules: seq<Rule>)
    ensures rules != [] ==> exists r :: r in rules
  {
    assert rules != [] ==> rules[0] in rules;
  }

  lemma NothingShared(a: seq<Rule>, b: seq<Rule>, before: string, after: string)
    requires multiset(a) == multiset(b) && before != after
    requires (forall r :: r in a ==> r.host == before) && forall r :: r in b ==> r.host == after
    ensures a == []
  {
    assert multiset(a) + multiset{} == multiset(a);
    SameMembers(a, b, multiset{});
    HasMember(a);
  }

  lemma SameGenerated(rules: seq<Rule>, before: string, after: string)
    ensures multiset(Generated(rules, before)) == multiset(Generated(rules, after)) <==> Harmless(rules, before, after)
  {
    var a, b := Generated(rules, before), Generated(rules, after);
    GeneratedHost(rules, before);
    GeneratedHost(rules, after);
    if multiset(a) == multiset(b) && before != after {
      NothingShared(a, b, before, after);
      NothingShared(b, a, after, before);
    }
  }

  /** The user's rules in the spec, seen from either host. */
  lemma OwnSeenFrom(rules: seq<Rule>, before: string, after: string)
    ensures multiset(Own(rules, before)) + multiset(Generated(rules, before)) ==
      multiset(Own(rules, after)) + multiset(Generated(rules, after))
  {
    OwnAndGenerated(rules, before);
    OwnAndGenerated(rules, after);
  }

  /** Two ways of taking the same rules apart, and some more rules. */
  lemma Balanced(a: multiset<Rule>, x: multiset<Rule>, b: multiset<Rule>, y: multiset<Rule>, more: multiset<Rule>)
    requires a + x == b + y
    ensures b == a + more <==> x == y + more
  {
    if b == a + more {
      assert forall r :: x[r] == (a + x)[r] - a[r];
      assert x == y + more;
    }
    if x == y + more {
      assert forall r :: b[r] == (b + y)[r] - y[r];
      assert b == a + more;
    }
  }

  lemma SameOwn(rules: seq<Rule>, before: string, after: string)
    ensures multiset(Own(rules, after)) == multiset(Own(rules, before)) <==> Harmless(rules, before, after)
  {
    var own, x := multiset(Own(rules, before)), multiset(Generated(rules, before));
    var seen, y := multiset(Own(rules, after)), multiset(Generated(rules, after));
    OwnSeenFrom(rules, before, after);
    SameGenerated(rules, before, after);
    Balanced(own, x, seen, y, multiset{});
    assert own + multiset{} == own && y + multiset{} == y;
  }

  /** Pending rules are none of the generated ones. */
  lemma PendingApart(h: Hosts, generatedHost: string, others: multiset<Rule>)
    requires Proper(h, generatedHost)
    requires multiset(Generated(h.rules, generatedHost)) == others + multiset(PendingRules(h.pending))
    ensures PendingRules(h.pending) == []
  {
    var waiting := PendingRules(h.pending);
    assert others + multiset(waiting) == multiset(waiting) + others;
    GeneratedHost(h.rules, generatedHost);
    SameMembers(waiting, Generated(h.rules, generatedHost), others);
    HasMember(waiting);
  }

  lemma ChangeConserves(h: Hosts, generatedHost: string, pass: Pass)
    requires Proper(h, generatedHost) && Proper(h, pass.host) && !pass.tmc
    ensures UserRules(Stored(h, pass), pass.host) == UserRules(h, generatedHost) <==>
      Harmless(h.rules, generatedHost, pass.host)
  {
    var own, seen, waiting := Own(h.rules, generatedHost), Own(h.rules, pass.host), PendingRules(h.pending);
    StepConserves(h, pass);
    SameOwn(h.rules, generatedHost, pass.host);
    Cancelled(multiset(own), multiset(seen), multiset(waiting));
    assert UserRules(h, generatedHost) == multiset(own) + multiset(waiting);
    assert UserRules(h, pass.host) == multiset(seen) + multiset(waiting);
  }

  lemma Cancelled(a: multiset<Rule>, b: multiset<Rule>, c: multiset<Rule>)
    ensures a + c == b + c <==> a == b
  {
    if a + c == b + c {
      assert forall r :: a[r] == (a + c)[r] - c[r];
      assert a == b;
    }
  }

  lemma ChangeDrops(h: Hosts, generatedHost: string, pass: Pass)
    requires Proper(h, generatedHost) && Proper(h, pass.host) && pass.tmc
    ensures UserRules(Stored(h, pass), pass.host) == UserRules(h, generatedHost) <==>
      Harmless(h.rules, generatedHost, pass.host) && PendingRules(h.pending) == []
  {
    var own, seen, waiting := Own(h.rules, generatedHost), Own(h.rules, pass.host), PendingRules(h.pending);
    var x, y := Generated(h.rules, generatedHost), Generated(h.rules, pass.host);
    OwnSeenFrom(h.rules, generatedHost, pass.host);
    SameGenerated(h.rules, generatedHost, pass.host);
    Balanced(multiset(own), multiset(x), multiset(seen), multiset(y), multiset(waiting));
    assert UserRules(h, generatedHost) == multiset(own) + multiset(waiting);
    assert seen + [] == seen;
    if multiset(x) == multiset(y) + multiset(waiting) {
      PendingApart(h, generatedHost, multiset(y));
    }
    assert waiting == [] ==> multiset(y) + multiset(waiting) == multiset(y);
  }

  /** A stored pass conserves the user's rules exactly when it drops no pending ones, and the
      managed host is the same as before or no rule has been generated yet. */
  lemma HostChange(h: Hosts, generatedHost: string, pass: Pass)
    requires Proper(h, generatedHost) && Proper(h, pass.host)
    ensures Proper(Stored(h, pass), pass.host)
    ensures UserRules(Stored(h, pass), pass.host) == UserRules(h, generatedHost) <==>
      Harmless(h.rules, generatedHost, pass.host) && !Drops(h, pass)
  {
    StepConserves(h, pass);
    if pass.tmc {
      ChangeDrops(h, generatedHost, pass);
    } else {
      ChangeConserves(h, generatedHost, pass);
    }
  }

  lemma TwoRules(own: Rule, copy: Rule, generatedHost: string)
    requires own.host != generatedHost
    ensures Own([own] + [copy], generatedHost) == if copy.host == generatedHost then [own] else [own] + [copy]
  {
    OwnConcat([own], [copy], generatedHost);
    OneRule(own, generatedHost);
    OneRule(copy, generatedHost);
    assert [own] + [] == [own];
  }

  lemma SeenAfter(h: Hosts, pass: Pass, one: Rule, other: Rule)
    requires Proper(h, pass.host) && !pass.tmc && UserList(h, pass.host) == [one] + [other]
    ensures UserRules(Stored(h, pass), pass.host) == multiset{one, other}
  {
    StepConserves(h, pass);
    assert multiset([one] + [other]) == multiset([one]) + multiset([other]);
  }

  /** A record that vanishes and comes back under another managed host: the copy of the user's
      rule becomes a rule of the user. */
  lemma CopyKept(own: Rule, before: string, after: string, dvs: seq<Verification>) returns (h: Hosts)
    requires before != after && own.host != before && own.host != after
    ensures Proper(h, before) && Proper(h, after) && UserRules(h, before) == multiset{own}
    ensures UserRules(Stored(h, Pass(after, dvs, false)), after) == multiset{own, Copy(own, before)}
  {
    var copy := Copy(own, before);
    h := Hosts([own] + [copy], Absent, false, None);
    TwoRules(own, copy, before);
    TwoRules(own, copy, after);
    assert UserList(h, before) == [own] && UserList(h, after) == [own] + [copy];
    SeenAfter(h, Pass(after, dvs, false), own, copy);
  }

  // ---------- whole runs ----------

  predicate SameHost(passes: seq<Pass>, generatedHost: string) {
    forall k :: 0 <= k < |passes| ==> passes[k].host == generatedHost
  }

  /** The passes of a run that lose rules: those of advanced scheduling that find some pending. */
  predicate LosesNothing(h: Hosts, passes: seq<Pass>) {
    forall k :: 0 <= k < |passes| ==> !Drops(After(h, passes[..k]), passes[k])
  }

  lemma StepShrinks(h: Hosts, bag: multiset<Rule>, pass: Pass)
    requires Proper(h, pass.host) && UserRules(h, pass.host) <= bag
    ensures Proper(Stored(h, pass), pass.host) && UserRules(Stored(h, pass), pass.host) <= bag
  {
    StepConserves(h, pass);
  }

  lemma {:induction false} RunProper(h: Hosts, generatedHost: string, passes: seq<Pass>)
    requires Proper(h, generatedHost) && SameHost(passes, generatedHost)
    ensures Proper(After(h, passes), generatedHost)
    ensures UserRules(After(h, passes), generatedHost) <= UserRules(h, generatedHost)
  {
    if passes != [] {
      var n := |passes| - 1;
      var before, pass := After(h, passes[..n]), passes[n];
      assert pass.host == generatedHost && After(h, passes) == Stored(before, pass);
      RunProper(h, generatedHost, passes[..n]);
      StepShrinks(before, UserRules(h, generatedHost), pass);
    }
  }

  lemma LosesNothingMore(h: Hosts, front: seq<Pass>, pass: Pass)
    ensures LosesNothing(h, front + [pass]) <==> LosesNothing(h, front) && !Drops(After(h, front), pass)
  {
    var passes := front + [pass];
    assert forall k :: 0 <= k < |front| ==> front[..k] == passes[..k] && front[k] == passes[k];
    assert passes[..|front|] == front && passes[|front|] == pass;
  }

  /** While the managed host stays, a run conserves the user's rules exactly when scheduling never
      becomes advanced while rules are pending; what is lost once never comes back. */
  lemma {:induction false} RunConserves(h: Hosts, generatedHost: string, passes: seq<Pass>)
    requires Proper(h, generatedHost) && SameHost(passes, generatedHost)
    ensures UserRules(After(h, passes), generatedHost) == UserRules(h, generatedHost) <==> LosesNothing(h, passes)
  {
    if passes != [] {
      var n := |passes| - 1;
      var front := passes[..n];
      assert passes == front + [passes[n]] && passes[n].host == generatedHost;
      RunConserves(h, generatedHost, front);
      RunProper(h, generatedHost, front);
      StepConserves(After(h, front), passes[n]);
      LosesNothingMore(h, front, passes[n]);
    }
  }

  /** The managed host before a pass. */
  function HostBefore(generatedHost: string, passes: seq<Pass>, k: nat): string
    requires k <= |passes|
  {
    if k == 0 then generatedHost else passes[k - 1].host
  }

  /** A pass of a run that neither drops rules nor sees them change sides. */
  predicate KeepsAt(h: Hosts, generatedHost: string, passes: seq<Pass>, k: nat)
    requires k < |passes|
  {
    var before := After(h, passes[..k]);
    Proper(before, passes[k].host) && Harmless(before.rules, HostBefore(generatedHost, passes, k), passes[k].host) &&
    !Drops(before, passes[k])
  }

  lemma KeepsFront(h: Hosts, generatedHost: string, passes: seq<Pass>, n: nat, k: nat)
    requires k < n <= |passes|
    ensures KeepsAt(h, generatedHost, passes[..n], k) <==> KeepsAt(h, generatedHost, passes, k)
  {
    assert passes[..n][..k] == passes[..k];
  }

  /** Across changes of the managed host, a run conserves the user's rules if each of its passes does. */
  lemma {:induction false} RunKeeps(h: Hosts, generatedHost: string, passes: seq<Pass>)
    requires Proper(h, generatedHost)
    requires forall k :: 0 <= k < |passes| ==> KeepsAt(h, generatedHost, passes, k)
    ensures var host := HostBefore(generatedHost, passes, |passes|);
      Proper(After(h, passes), host) && UserRules(After(h, passes), host) == UserRules(h, generatedHost)
  {
    if passes != [] {
      var n := |passes| - 1;
      forall k | 0 <= k < n
        ensures KeepsAt(h, generatedHost, passes[..n], k)
      {
        KeepsFront(h, generatedHost, passes, n, k);
      }
      RunKeeps(h, generatedHost, passes[..n]);
      assert KeepsAt(h, generatedHost, passes, n);
      HostChange(After(h, passes[..n]), HostBefore(generatedHost, passes[..n], n), passes[n]);
    }
  }

  lemma AdvancedStep(h: Hosts, pass: Pass)
    requires pass.tmc
    ensures Stored(h, pass).rules == h.rules && Stored(h, pass).pending == Absent
  {
  }

  /** Advanced scheduling never touches the stored spec, so only the first and the last host count. */
  lemma {:induction false} AdvancedRules(h: Hosts, passes: seq<Pass>)
    requires PendingRules(h.pending) == [] && forall k :: 0 <= k < |passes| ==> passes[k].tmc
    ensures After(h, passes).rules == h.rules && PendingRules(After(h, passes).pending) == []
  {
    if passes != [] {
      var n := |passes| - 1;
      var before := After(h, passes[..n]);
      assert After(h, passes) == Stored(before, passes[n]);
      AdvancedRules(h, passes[..n]);
      AdvancedStep(before, passes[n]);
    }
  }

  lemma SameSpec(h: Hosts, later: Hosts, before: string, after: string)
    requires later.rules == h.rules && PendingRules(later.pending) == PendingRules(h.pending) == []
    ensures UserRules(later, after) == UserRules(h, before) <==> Harmless(h.rules, before, after)
  {
    var own, seen := Own(h.rules, before), Own(h.rules, after);
    SameOwn(h.rules, before, after);
    assert own + [] == own && seen + [] == seen;
  }

  /** Under advanced scheduling throughout, the converse of `RunKeeps` fails: whatever the hosts in
      between, the run conserves the user's rules exactly when the last one is harmless to the first. */
  lemma AdvancedThroughout(h: Hosts, generatedHost: string, passes: seq<Pass>)
    requires PendingRules(h.pending) == [] && forall k :: 0 <= k < |passes| ==> passes[k].tmc
    ensures var host := HostBefore(generatedHost, passes, |passes|);
      UserRules(After(h, passes), host) == UserRules(h, generatedHost) <==> Harmless(h.rules, generatedHost, host)
  {
    AdvancedRules(h, passes);
    SameSpec(h, After(h, passes), generatedHost, HostBefore(generatedHost, passes, |passes|));
  }

  /** For instance a host that changes and comes back: the first of the two passes does not conserve
      the rules, and the run does. */
  lemma ThereAndBack(own: Rule, host: string, other: string) returns (h: Hosts, passes: seq<Pass>)
    requires host != other && own.host != host && own.host != other
    ensures passes == [Pass(other, [], true), Pass(host, [], true)]
    ensures Proper(h, host) && UserRules(After(h, passes), host) == UserRules(h, host)
    ensures !KeepsAt(h, host, passes, 0)
  {
    h := Hosts([own] + [Copy(own, host)], Absent, false, None);
    passes := [Pass(other, [], true), Pass(host, [], true)];
    AdvancedThroughout(h, host, passes);
    CopyGenerated(own, host);
    assert passes[..0] == [];
  }

  lemma CopyGenerated(own: Rule, host: string)
    requires own.host != host
    ensures Generated([own] + [Copy(own, host)], host) == [Copy(own, host)]
  {
    OwnConcat([own], [Copy(own, host)], host);
    OneRule(own, host);
    OneRule(Copy(own, host), host);
    assert [] + [Copy(own, host)] == [Copy(own, host)];
  }

  /** Scheduling that is advanced at first, and then never again, loses nothing. */
  lemma {:induction false} AdvancedFirst(h: Hosts, passes: seq<Pass>)
    requires PendingRules(h.pending) == []
    requires forall i, j :: 0 <= i < j < |passes| && passes[j].tmc ==> passes[i].tmc
    ensures LosesNothing(h, passes)
    ensures passes != [] && passes[|passes| - 1].tmc ==> After(h, passes).pending == Absent
  {
    if passes != [] {
      var n := |passes| - 1;
      var front, pass := passes[..n], passes[n];
      var before := After(h, front);
      assert After(h, passes) == Stored(before, pass);
      AdvancedFirst(h, front);
      assert n > 0 && pass.tmc ==> passes[n - 1].tmc && front[|front| - 1] == passes[n - 1];
      assert !Drops(before, pass);
      LosesNothingMore(h, front, pass);
      assert passes == front + [pass];
    }
  }

  lemma DropsSecond(h: Hosts, wait: Pass, drop: Pass)
    requires Proper(h, wait.host) && wait.host == drop.host && Drops(Stored(h, wait), drop)
    ensures UserRules(After(h, [wait] + [drop]), wait.host) != UserRules(h, wait.host)
  {
    assert [wait][..0] == [];
    assert After(h, [wait]) == Stored(h, wait);
    LosesNothingMore(h, [wait], drop);
    RunConserves(h, wait.host, [wait] + [drop]);
  }

  lemma Waits(h: Hosts, pass: Pass, rule: Rule)
    requires Proper(h, pass.host) && !pass.tmc && rule in UserList(h, pass.host) && !Covered(rule.host, pass.dvs)
    ensures PendingRules(Stored(h, pass).pending) != []
  {
    LabelTells(h, pass.host, pass.dvs, false);
  }

  /** A rule that waits for its verification is lost when scheduling becomes advanced. */
  lemma WaitingLost(h: Hosts, rule: Rule, wait: Pass, drop: Pass)
    requires Proper(h, wait.host) && wait.host == drop.host && !wait.tmc && drop.tmc
    requires rule in UserList(h, wait.host) && !Covered(rule.host, wait.dvs)
    ensures UserRules(After(h, [wait] + [drop]), wait.host) != UserRules(h, wait.host)
  {
    Waits(h, wait, rule);
    DropsSecond(h, wait, drop);
  }

  lemma OneWaiting(rule: Rule, host: string) returns (h: Hosts)
    requires rule.host != host
    ensures Proper(h, host) && UserList(h, host) == [rule]
  {
    h := Hosts([rule], Absent, false, None);
    OneRule(rule, host);
  }

  lemma Unlisted()
    ensures !Covered("a", [])
  {
  }

  /** For instance one for "a". */
  lemma RuleLost(body: string) returns (h: Hosts, wait: Pass, drop: Pass)
    ensures !wait.tmc && drop.tmc && wait.host == drop.host == "g"
    ensures Proper(h, "g") && UserRules(After(h, [wait] + [drop]), wait.host) != UserRules(h, wait.host)
  {
    h := OneWaiting(Rule("a", body), "g");
    wait, drop := Pass("g", [], false), Pass("g", [], true);
    Unlisted();
    WaitingLost(h, Rule("a", body), wait, drop);
  }
}
