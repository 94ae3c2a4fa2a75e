/** The endpoint list of a DNS record (`setEndpointFromTargets` and `awsEndpointWeight` in
    pkg/traffic/dns.go). */
module DnsEndpoints {
  import opened Wrappers
  import opened Decimal
  import opened Order
  import opened Bags
  import opened Endpoints

  const MAX_WEIGHT := 120
  const RECORD_TTL := 60

  // ---------- weights ----------

  function AwsEndpointWeight(numIPs: nat): nat
    requires numIPs > 0
  {
    MAX_WEIGHT / (if numIPs > MAX_WEIGHT then MAX_WEIGHT else numIPs)
  }

  lemma Division(m: nat, n: nat)
    requires n > 0
    ensures n * (m / n) <= m < n * (m / n) + n
  {
  }

  lemma Scaled(n: nat, q: int, r: int)
    requires n > 0
    ensures q < r ==> n * q + n <= n * r
  {
    if q < r {
      assert n * r == n * (q + 1) + n * (r - q - 1);
    }
  }

  lemma QuotientRange(m: nat, n: nat, q: int)
    requires 0 < n <= m && n * q <= m < n * q + n
    ensures 1 <= q <= m
  {
    Scaled(n, q, 1);
    Scaled(n, m, q);
    Scaled(m, 0, n);
  }

  lemma QuotientAntitone(m: nat, n: nat, k: nat, q: nat, r: nat)
    requires 0 < n <= k <= m && n * q <= m < n * q + n && k * r <= m < k * r + k
    ensures r <= q
  {
    Scaled(n, q, r);
    assert k * r == n * r + (k - n) * r;
  }

  /** Every weight is a legal, non-zero one, and larger groups never get larger weights. */
  lemma WeightBounds(n: nat, m: nat)
    requires 0 < n <= m
    ensures 1 <= AwsEndpointWeight(m) <= AwsEndpointWeight(n) <= MAX_WEIGHT
  {
    var a, b := if n > MAX_WEIGHT then MAX_WEIGHT else n, if m > MAX_WEIGHT then MAX_WEIGHT else m;
    Division(MAX_WEIGHT, a);
    Division(MAX_WEIGHT, b);
    QuotientRange(MAX_WEIGHT, a, MAX_WEIGHT / a);
    QuotientRange(MAX_WEIGHT, b, MAX_WEIGHT / b);
    QuotientAntitone(MAX_WEIGHT, a, b, MAX_WEIGHT / a, MAX_WEIGHT / b);
  }

  /** Two groups of new endpoints share the traffic evenly, up to the size of the larger one. */
  lemma GroupTotals(n: nat, m: nat)
    requires 0 < n <= m <= MAX_WEIGHT
    ensures MAX_WEIGHT - n < n * AwsEndpointWeight(n) <= MAX_WEIGHT
    ensures var difference := n * AwsEndpointWeight(n) - m * AwsEndpointWeight(m); 0 - m < difference < m
  {
    Division(MAX_WEIGHT, n);
    Division(MAX_WEIGHT, m);
  }

  // ---------- the list as a value ----------

  /** The endpoint made for a target that has none yet. */
  function NewEndpoint(target: string): Endpoint {
    Endpoint("", [], OtherType(""), target, 0, map[], [])
  }

  function Refresh(e: Endpoint, dnsName: string, target: string, groupSize: nat): Endpoint
    requires groupSize > 0
  {
    e.(dnsName := dnsName, recordType := A, targets := [target], ttl := RECORD_TTL,
       providerSpecific := PutProperty(e.providerSpecific, Weight, FormatInt(AwsEndpointWeight(groupSize))))
  }

  /** The endpoint an address keeps: the last one with that address, or a new one. */
  function Base(before: seq<Endpoint>, target: string): Endpoint {
    if before == [] then NewEndpoint(target)
    else
      var last := before[|before| - 1];
      if last.GetAddress() == Some(target) then last else Base(before[..|before| - 1], target)
  }

  /** The endpoint is one for this address: it has an identifier, and the address comes first. */
  predicate Has(e: Endpoint, target: string) {
    e.setIdentifier != "" && e.targets != [] && e.targets[0] == target
  }

  predicate NoneHas(before: seq<Endpoint>, target: string) {
    forall i :: 0 <= i < |before| ==> !Has(before[i], target)
  }

  predicate LastHas(before: seq<Endpoint>, target: string, i: nat) {
    i < |before| && Has(before[i], target) && NoneHas(before[i + 1..], target)
  }

  lemma {:induction false} BaseIsNew(before: seq<Endpoint>, target: string)
    requires NoneHas(before, target)
    ensures Base(before, target) == NewEndpoint(target)
  {
    if before != [] {
      BaseIsNew(before[..|before| - 1], target);
    }
  }

  lemma {:induction false} BaseIsLast(before: seq<Endpoint>, target: string, i: nat)
    requires LastHas(before, target, i)
    ensures Base(before, target) == before[i]
  {
    var n := |before| - 1;
    if i < n {
      assert before[..n][i + 1..] == before[i + 1..][..n - i - 1];
      assert before[i + 1..][n - i - 1] == before[n];
      BaseIsLast(before[..n], target, i);
    }
  }

  /** What a written endpoint takes over from the last endpoint for its address: identifier, labels
      and provider data, with the weight if there was none. */
  lemma TakesOver(before: seq<Endpoint>, dnsName: string, target: string, n: nat, i: nat)
    requires n > 0 && LastHas(before, target, i)
    ensures var e := Refresh(Base(before, target), dnsName, target, n);
      var weight := Property(Weight, FormatInt(AwsEndpointWeight(n)));
      e.dnsName == dnsName && e.targets == [target] && e.recordType == A && e.ttl == 60 &&
      e.setIdentifier == before[i].setIdentifier && e.labels == before[i].labels &&
      e.providerSpecific ==
        before[i].providerSpecific + (if Says(before[i].providerSpecific, Weight, None) then [weight] else [])
  {
    BaseIsLast(before, target, i);
    FindSays(before[i].providerSpecific, Weight);
    assert before[i].providerSpecific + [] == before[i].providerSpecific;
  }

  /** And what it is for a new address: that address as identifier, and the weight alone. */
  lemma StartsAnew(before: seq<Endpoint>, dnsName: string, target: string, n: nat)
    requires n > 0 && NoneHas(before, target)
    ensures Refresh(Base(before, target), dnsName, target, n) ==
      Endpoint(dnsName, [target], A, target, 60, map[], [Property(Weight, FormatInt(AwsEndpointWeight(n)))])
  {
    BaseIsNew(before, target);
  }

  predicate SingleTargets(es: seq<Endpoint>) {
    forall i :: 0 <= i < |es| ==> |es[i].targets| == 1
  }

  function Addresses(es: seq<Endpoint>): (addresses: seq<string>)
    requires SingleTargets(es)
    ensures |addresses| == |es| && forall i :: 0 <= i < |es| ==> addresses[i] == es[i].targets[0]
  {
    seq(|es|, i requires 0 <= i < |es| => es[i].targets[0])
  }

  /** One endpoint per listed target, in address order. */
  ghost predicate ListsTargets(groups: map<string, seq<string>>, after: seq<Endpoint>) {
    SingleTargets(after) && Sorted(Addresses(after)) && multiset(Addresses(after)) == BagOf(groups)
  }

  predicate Refreshed(dnsName: string, groups: map<string, seq<string>>, before: seq<Endpoint>, e: Endpoint,
                      target: string) {
    forall k :: k in groups && target in groups[k] ==> e == Refresh(Base(before, target), dnsName, target, |groups[k]|)
  }

  /** The endpoint list computed for `groups`, without mention of any order of the map. */
  ghost predicate EndpointsFor(dnsName: string, groups: map<string, seq<string>>, before: seq<Endpoint>,
                               after: seq<Endpoint>) {
    ListsTargets(groups, after) &&
    forall i :: 0 <= i < |after| ==> Refreshed(dnsName, groups, before, after[i], Addresses(after)[i])
  }

  ghost predicate Distinct(groups: map<string, seq<string>>) {
    forall t :: BagOf(groups)[t] <= 1
  }

  /** What is promised for any groups, and more for those without a repeated target. */
  ghost predicate Listed(dnsName: string, groups: map<string, seq<string>>, before: seq<Endpoint>,
                         after: seq<Endpoint>) {
    ListsTargets(groups, after) && (Distinct(groups) ==> EndpointsFor(dnsName, groups, before, after))
  }

  lemma Owner(groups: map<string, seq<string>>, after: seq<Endpoint>, i: nat) returns (k: string)
    requires ListsTargets(groups, after) && i < |after|
    ensures k in groups && Addresses(after)[i] in groups[k]
  {
    assert Addresses(after)[i] in multiset(Addresses(after));
    BagMember(groups, Addresses(after)[i]);
    k :| k in groups && Addresses(after)[i] in groups[k];
  }

  lemma SameSlice(groups: map<string, seq<string>>, others: map<string, seq<string>>, k: string, t: string)
    requires SameGroups(groups, others) && k in others
    ensures |groups[k]| == |others[k]| && (t in groups[k] <==> t in others[k])
  {
    assert |multiset(groups[k])| == |groups[k]| && |multiset(others[k])| == |others[k]|;
    assert t in groups[k] <==> t in multiset(groups[k]);
    assert t in others[k] <==> t in multiset(others[k]);
  }

  /** The order of targets within their groups does not matter to a list. */
  lemma Regrouped(dnsName: string, groups: map<string, seq<string>>, others: map<string, seq<string>>,
                  before: seq<Endpoint>, after: seq<Endpoint>)
    requires SameGroups(groups, others) && EndpointsFor(dnsName, groups, before, after)
    ensures EndpointsFor(dnsName, others, before, after)
  {
    SameGroupsBag(groups, others);
    forall i | 0 <= i < |after|
      ensures Refreshed(dnsName, others, before, after[i], Addresses(after)[i])
    {
      var t := Addresses(after)[i];
      assert Refreshed(dnsName, groups, before, after[i], t);
      forall k | k in others && t in others[k]
        ensures after[i] == Refresh(Base(before, t), dnsName, t, |others[k]|)
      {
        SameSlice(groups, others, k, t);
      }
    }
  }

  /** Whatever order the map and the targets are ranged over, the same list comes out. */
  lemma OrderIndependent(dnsName: string, groups: map<string, seq<string>>, others: map<string, seq<string>>,
                         before: seq<Endpoint>, one: seq<Endpoint>, other: seq<Endpoint>)
    requires SameGroups(groups, others)
    requires EndpointsFor(dnsName, groups, before, one) && EndpointsFor(dnsName, others, before, other)
    ensures one == other
  {
    Regrouped(dnsName, groups, others, before, one);
    SortedUnique(Addresses(one), Addresses(other));
    forall i | 0 <= i < |one|
      ensures one[i] == other[i]
    {
      var k := Owner(others, one, i);
      assert Refreshed(dnsName, others, before, one[i], Addresses(one)[i]);
      assert Refreshed(dnsName, others, before, other[i], Addresses(other)[i]);
    }
  }

  lemma {:induction false} BaseOf(before: seq<Endpoint>, target: string)
    ensures Base(before, target) == NewEndpoint(target) ||
      (Base(before, target) in before && Base(before, target).GetAddress() == Some(target))
    ensures (exists e :: e in before && e.GetAddress() == Some(target)) ==>
      Base(before, target) in before && Base(before, target).GetAddress() == Some(target)
  {
    if before != [] {
      BaseOf(before[..|before| - 1], target);
      assert before == before[..|before| - 1] + [before[|before| - 1]];
    }
  }

  /** Refreshing an endpoint a second time changes nothing. */
  lemma RefreshTwice(e: Endpoint, dnsName: string, target: string, n: nat)
    requires n > 0
    ensures Refresh(Refresh(e, dnsName, target, n), dnsName, target, n) == Refresh(e, dnsName, target, n)
  {
    GetAppend(e.providerSpecific, [Property(Weight, FormatInt(AwsEndpointWeight(n)))], Weight);
  }

  /** A refreshed endpoint carries its group's weight exactly when it had none or that one: a
      weight once written survives every change of the group. */
  lemma WeightInstalled(e: Endpoint, dnsName: string, target: string, n: nat)
    requires n > 0
    ensures var stored, due := FindProperty(e.providerSpecific, Weight), Some(FormatInt(AwsEndpointWeight(n)));
      FindProperty(Refresh(e, dnsName, target, n).providerSpecific, Weight) == due <==> stored == None || stored == due
  {
    SetThenGet(e.providerSpecific, Weight, FormatInt(AwsEndpointWeight(n)));
  }

  /** An address that was alone in its group keeps that weight, 120, when a second one joins. */
  lemma WeightGoesStale(target: string, dnsName: string)
    ensures var alone := Refresh(NewEndpoint(target), dnsName, target, 1);
      FindProperty(Refresh(alone, dnsName, target, 2).providerSpecific, Weight) == Some(FormatInt(120)) &&
      AwsEndpointWeight(2) == 60
  {
    var alone := Refresh(NewEndpoint(target), dnsName, target, 1);
    assert AwsEndpointWeight(1) == 120;
    SetThenGet([], Weight, FormatInt(AwsEndpointWeight(1)));
    SetThenGet(alone.providerSpecific, Weight, FormatInt(AwsEndpointWeight(2)));
  }

  /** A second run on its own result is the identity, so no update is issued. */
  lemma Idempotent(dnsName: string, groups: map<string, seq<string>>, before: seq<Endpoint>, after: seq<Endpoint>)
    requires Distinct(groups) && EndpointsFor(dnsName, groups, before, after)
    ensures EndpointsFor(dnsName, groups, after, after)
  {
    forall i | 0 <= i < |after|
      ensures Refreshed(dnsName, groups, after, after[i], Addresses(after)[i])
    {
      var t := Addresses(after)[i];
      assert Refreshed(dnsName, groups, before, after[i], t);
      var k := Owner(groups, after, i);
      RefreshTwice(Base(before, t), dnsName, t, |groups[k]|);
      BaseOf(before, t);
      BaseOf(after, t);
      if Base(after, t) == NewEndpoint(t) && Base(after, t) !in after {
        // only an empty address is not found again
        assert after[i].GetAddress() == None;
      } else {
        var j :| 0 <= j < |after| && after[j] == Base(after, t);
        OncePerAddress(groups, after, i, j);
      }
    }
  }

  lemma TwiceListed(s: seq<string>, i: nat, j: nat)
    ensures i < j < |s| && s[i] == s[j] ==> multiset(s)[s[i]] >= 2
  {
    if i < j < |s| && s[i] == s[j] {
      assert s == s[..j] + s[j..];
      assert s[..j][i] == s[i] && s[j..][0] == s[i];
    }
  }

  lemma OncePerAddress(groups: map<string, seq<string>>, after: seq<Endpoint>, i: nat, j: nat)
    requires ListsTargets(groups, after) && Distinct(groups)
    requires i < |after| && j < |after| && Addresses(after)[i] == Addresses(after)[j]
    ensures i == j
  {
    TwiceListed(Addresses(after), i, j);
    TwiceListed(Addresses(after), j, i);
  }
}
