/** The custom hosts of an ingress (`Ingress.ProcessCustomHosts` in pkg/traffic/ingress.go). */
module CustomHosts {
  import opened Wrappers
  import opened Domains

  /** A rule is its host and everything else in it. */
  datatype Rule = Rule(host: string, body: string)

  /** The pending-hosts annotation: absent, empty, not parseable, or the stored rules. */
  datatype Pending = Absent | Blank | Malformed | Stored(rules: seq<Rule>)

  /** The parts of an ingress that the pass reads and writes. */
  datatype Hosts = Hosts(rules: seq<Rule>, pending: Pending, pendingLabel: bool, replaced: Option<seq<string>>)

  datatype Failure = GeneratedHostMissing | PendingMalformed

  function Copy(r: Rule, generatedHost: string): Rule {
    r.(host := generatedHost)
  }

  function PendingRules(p: Pending): seq<Rule> {
    if p.Stored? then p.rules else []
  }

  // ---------- the loops as values ----------

  /** The user's rules in a spec: all but the generated ones. */
  function Own(rules: seq<Rule>, generatedHost: string): seq<Rule> {
    if rules == [] then []
    else
      var r := rules[|rules| - 1];
      Own(rules[..|rules| - 1], generatedHost) + (if r.host == generatedHost then [] else [r])
  }

  function Generated(rules: seq<Rule>, generatedHost: string): seq<Rule> {
    if rules == [] then []
    else
      var r := rules[|rules| - 1];
      Generated(rules[..|rules| - 1], generatedHost) + (if r.host == generatedHost then [r] else [])
  }

  function Verified(rules: seq<Rule>, dvs: seq<Verification>): seq<Rule> {
    if rules == [] then []
    else
      var r := rules[|rules| - 1];
      Verified(rules[..|rules| - 1], dvs) + (if MayServe(r.host, dvs) then [r] else [])
  }

  function Unverified(rules: seq<Rule>, dvs: seq<Verification>): seq<Rule> {
    if rules == [] then []
    else
      var r := rules[|rules| - 1];
      Unverified(rules[..|rules| - 1], dvs) + (if MayServe(r.host, dvs) then [] else [r])
  }

  /** The spec's own rules: each verified one, and after it the generated copy. */
  function Kept(rules: seq<Rule>, generatedHost: string, dvs: seq<Verification>): seq<Rule> {
    if rules == [] then []
    else
      var r := rules[|rules| - 1];
      Kept(rules[..|rules| - 1], generatedHost, dvs) +
      (if MayServe(r.host, dvs) then [r] else []) + [Copy(r, generatedHost)]
  }

  /** The pending rules: each generated copy, and after it the rule if it is verified now. */
  function Restored(rules: seq<Rule>, generatedHost: string, dvs: seq<Verification>): seq<Rule> {
    if rules == [] then []
    else
      var r := rules[|rules| - 1];
      Restored(rules[..|rules| - 1], generatedHost, dvs) +
      [Copy(r, generatedHost)] + (if MayServe(r.host, dvs) then [r] else [])
  }

  function HostsOf(rules: seq<Rule>): seq<string> {
    if rules == [] then [] else HostsOf(rules[..|rules| - 1]) + [rules[|rules| - 1].host]
  }

  /** A pass that does not fail, with and without advanced scheduling. */
  function Processed(h: Hosts, generatedHost: string, dvs: seq<Verification>, tmc: bool): Hosts {
    var own, earlier := Own(h.rules, generatedHost), PendingRules(h.pending);
    var kept, waiting := Kept(own, generatedHost, dvs), Unverified(own, dvs);
    var replaced := if waiting == [] then None else Some(HostsOf(waiting));
    if tmc then Hosts(kept, Absent, waiting != [], replaced)
    else
      var pending := Unverified(earlier, dvs) + waiting;
      Hosts(kept + Restored(earlier, generatedHost, dvs), if pending == [] then Absent else Stored(pending),
            pending != [], replaced)
  }

  // ---------- the code ----------

  class IngressObject {
    var rules: seq<Rule>
    var pending: Pending
    var pendingLabel: bool
    var replaced: Option<seq<string>>
    var generatedHost: string
    const deleting: bool
    const tmcEnabled: bool

    constructor (h: Hosts, generatedHost: string, deleting: bool, tmcEnabled: bool)
      ensures Value() == h && this.generatedHost == generatedHost && this.deleting == deleting &&
        this.tmcEnabled == tmcEnabled
    {
      rules, pending, pendingLabel, replaced := h.rules, h.pending, h.pendingLabel, h.replaced;
      this.generatedHost, this.deleting, this.tmcEnabled := generatedHost, deleting, tmcEnabled;
    }

    function Value(): Hosts
      reads this
    {
      Hosts(rules, pending, pendingLabel, replaced)
    }

    method ProcessCustomHosts(dvs: seq<Verification>) returns (failure: Option<Failure>)
      modifies `rules, `pending, `pendingLabel, `replaced
      ensures failure == Some(GeneratedHostMissing) <==> generatedHost == "" && !deleting
      ensures failure == Some(PendingMalformed) <==>
        (generatedHost != "" || deleting) && !tmcEnabled && old(pending) == Malformed
      ensures failure == None ==> Value() == Processed(old(Value()), generatedHost, dvs, tmcEnabled)
    {
      if generatedHost == "" && !deleting {
        return Some(GeneratedHostMissing);
      }
      var verifiedRules, unverifiedRules := SplitRules(rules, generatedHost, dvs);
      if |unverifiedRules| > 0 {
        pendingLabel := true;
        var replacedHosts := ListHosts(unverifiedRules);
        replaced := Some(replacedHosts);
      } else {
        pendingLabel := false;
        replaced := None;
      }
      if tmcEnabled {
        pending := Absent;
      }
      rules := verifiedRules;
      if !tmcEnabled {
        if pending == Malformed {
          return Some(PendingMalformed);
        }
        var restored, preserved := SplitPending(PendingRules(pending), generatedHost, dvs);
        rules := rules + restored;
        var stillPending := preserved + unverifiedRules;
        assert rules == Processed(old(Value()), generatedHost, dvs, false).rules;
        if |stillPending| > 0 {
          pendingLabel := true;
          pending := Stored(stillPending);
          return None;
        }
        pendingLabel := false;
        pending := Absent;
      }
      return None;
    }
  }

  lemma OwnMore(rules: seq<Rule>, i: nat, generatedHost: string)
    requires i < |rules|
    ensures Own(rules[..i + 1], generatedHost) ==
      if rules[i].host == generatedHost then Own(rules[..i], generatedHost)
      else Own(rules[..i], generatedHost) + [rules[i]]
  {
    assert rules[..i + 1][..i] == rules[..i];
    assert Own(rules[..i], generatedHost) + [] == Own(rules[..i], generatedHost);
  }

  lemma RuleMore(rules: seq<Rule>, r: Rule, generatedHost: string, dvs: seq<Verification>)
    ensures Kept(rules + [r], generatedHost, dvs) ==
      Kept(rules, generatedHost, dvs) + (if MayServe(r.host, dvs) then [r] else []) + [Copy(r, generatedHost)]
    ensures Unverified(rules + [r], dvs) == Unverified(rules, dvs) + (if MayServe(r.host, dvs) then [] else [r])
  {
    assert (rules + [r])[..|rules|] == rules;
  }

  /** The loop over the spec. */
  method SplitRules(rules: seq<Rule>, generatedHost: string, dvs: seq<Verification>)
    returns (verifiedRules: seq<Rule>, unverifiedRules: seq<Rule>)
    ensures verifiedRules == Kept(Own(rules, generatedHost), generatedHost, dvs)
    ensures unverifiedRules == Unverified(Own(rules, generatedHost), dvs)
  {
    verifiedRules, unverifiedRules := [], [];
    for i := 0 to |rules|
      invariant verifiedRules == Kept(Own(rules[..i], generatedHost), generatedHost, dvs)
      invariant unverifiedRules == Unverified(Own(rules[..i], generatedHost), dvs)
    {
      var rule := rules[i];
      OwnMore(rules, i, generatedHost);
      if rule.host == generatedHost {
        continue;
      }
      RuleMore(Own(rules[..i], generatedHost), rule, generatedHost, dvs);
      if IsDomainVerified(rule.host, dvs) || rule.host == "" {
        verifiedRules := verifiedRules + [rule];
        assert unverifiedRules + [] == unverifiedRules;
      } else {
        unverifiedRules := unverifiedRules + [rule];
        assert verifiedRules + [] == verifiedRules;
      }
      verifiedRules := verifiedRules + [Copy(rule, generatedHost)];
    }
    assert rules[..|rules|] == rules;
  }

  /** The loop over the pending rules. */
  method SplitPending(rules: seq<Rule>, generatedHost: string, dvs: seq<Verification>)
    returns (restored: seq<Rule>, preserved: seq<Rule>)
    ensures restored == Restored(rules, generatedHost, dvs) && preserved == Unverified(rules, dvs)
  {
    restored, preserved := [], [];
    for i := 0 to |rules|
      invariant restored == Restored(rules[..i], generatedHost, dvs) && preserved == Unverified(rules[..i], dvs)
    {
      assert rules[..i + 1][..i] == rules[..i];
      var pendingRule := rules[i];
      restored := restored + [Copy(pendingRule, generatedHost)];
      if IsDomainVerified(pendingRule.host, dvs) || pendingRule.host == "" {
        restored := restored + [pendingRule];
      } else {
        preserved := preserved + [pendingRule];
      }
    }
    assert rules[..|rules|] == rules;
  }

  method ListHosts(rules: seq<Rule>) returns (hosts: seq<string>)
    ensures hosts == HostsOf(rules)
  {
    hosts := [];
    for i := 0 to |rules|
      invariant hosts == HostsOf(rules[..i])
    {
      assert rules[..i + 1][..i] == rules[..i];
      hosts := hosts + [rules[i].host];
    }
    assert rules[..|rules|] == rules;
  }
}
