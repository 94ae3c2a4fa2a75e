/** Which hosts a verified domain covers (`IsDomainVerified` in pkg/traffic/traffic.go and
    `HostMatches` in pkg/reconciler/route/controller.go). */
module Domains {
  import opened Wrappers

  datatype Verification = Verification(domain: string, verified: bool)

  /** What follows the first dot, if there is one. */
  function Parent(host: string): (parent: Option<string>)
    ensures parent.Some? ==> |parent.value| < |host|
  {
    if host == "" then None
    else if host[0] == '.' then Some(host[1..])
    else Parent(host[1..])
  }

  predicate HostMatches(host: string, domain: string)
    decreases |host|
  {
    host == domain || (Parent(host).Some? && HostMatches(Parent(host).value, domain))
  }

  predicate Lists(dvs: seq<Verification>, domain: string) {
    exists i :: 0 <= i < |dvs| && dvs[i].domain == domain && dvs[i].verified
  }

  predicate IsDomainVerified(host: string, dvs: seq<Verification>)
    decreases |host|
  {
    Lists(dvs, host) || (Parent(host).Some? && IsDomainVerified(Parent(host).value, dvs))
  }

  /** A user's host that may be served: a verified one, or none at all. */
  predicate MayServe(host: string, dvs: seq<Verification>) {
    IsDomainVerified(host, dvs) || host == ""
  }

  // ---------- the declarative reading ----------

  predicate EndsWith(s: string, suffix: string) {
    |suffix| <= |s| && s[|s| - |suffix|..] == suffix
  }

  /** The domain itself or a name below it. */
  predicate Under(host: string, domain: string) {
    host == domain || EndsWith(host, "." + domain)
  }

  lemma EndsWithTail(host: string, suffix: string)
    requires host != ""
    ensures |suffix| < |host| ==> (EndsWith(host, suffix) <==> EndsWith(host[1..], suffix))
  {
    if |suffix| < |host| {
      assert host[1..][|host| - 1 - |suffix|..] == host[|host| - |suffix|..];
    }
  }

  lemma {:induction false} BelowParent(host: string, domain: string)
    ensures EndsWith(host, "." + domain) <==> Parent(host).Some? && Under(Parent(host).value, domain)
  {
    var suffix := "." + domain;
    if host != "" {
      EndsWithTail(host, suffix);
      if host[0] != '.' {
        BelowParent(host[1..], domain);
        assert |suffix| >= |host| && EndsWith(host, suffix) ==> host == suffix;
        assert EndsWith(host[1..], suffix) ==> |suffix| < |host|;
      } else if EndsWith(host, suffix) && |suffix| == |host| {
        assert host[1..] == domain;
      } else {
        assert host == "." + host[1..];
        DotBelow(host[1..], domain);
      }
    }
  }

  lemma DotBelow(rest: string, domain: string)
    ensures EndsWith("." + rest, "." + domain) <==> Under(rest, domain)
  {
    var host, suffix := "." + rest, "." + domain;
    if |suffix| < |host| {
      EndsWithTail(host, suffix);
      assert host[1..] == rest;
      assert rest != domain;
    } else if |suffix| == |host| {
      assert host[0..] == host && host[1..] == rest && suffix[1..] == domain;
    }
  }

  /** The walk up the labels finds exactly the domain and its sub-domains. */
  lemma {:induction false} WalkIsSubdomain(host: string, domain: string)
    ensures HostMatches(host, domain) <==> Under(host, domain)
    decreases |host|
  {
    BelowParent(host, domain);
    if Parent(host).Some? {
      WalkIsSubdomain(Parent(host).value, domain);
    }
  }

  lemma {:induction false} VerifiedIsSubdomain(host: string, dvs: seq<Verification>)
    ensures IsDomainVerified(host, dvs) <==> exists i :: 0 <= i < |dvs| && dvs[i].verified && Under(host, dvs[i].domain)
    decreases |host|
  {
    forall i | 0 <= i < |dvs|
      ensures Under(host, dvs[i].domain) <==>
        host == dvs[i].domain || (Parent(host).Some? && Under(Parent(host).value, dvs[i].domain))
    {
      BelowParent(host, dvs[i].domain);
    }
    if Parent(host).Some? {
      VerifiedIsSubdomain(Parent(host).value, dvs);
    }
  }

  /** There is nothing to verify, or some verified domain covers the host. */
  predicate Covered(host: string, dvs: seq<Verification>) {
    host == "" || exists i :: 0 <= i < |dvs| && dvs[i].verified && Under(host, dvs[i].domain)
  }

  lemma ServedIsCovered(host: string, dvs: seq<Verification>)
    ensures MayServe(host, dvs) <==> Covered(host, dvs)
  {
    VerifiedIsSubdomain(host, dvs);
  }
}
