/** Where the two controllers meet: the endpoints the ingress controller writes are such as the
    DNSRecord controller needs to keep its zones exact. */
module Published {
  import opened Wrappers
  import opened Decimal
  import opened Bags
  import opened Endpoints
  import opened DnsEndpoints
  import opened Route53
  import opened ExactSync
  import Migration

  /** Every endpoint is told apart by the one address it stands for. */
  predicate Identified(es: seq<Endpoint>) {
    forall i :: 0 <= i < |es| ==> es[i].targets == [es[i].setIdentifier]
  }

  /** The endpoint an address keeps is identified by that address. */
  lemma {:induction false} BaseIdentified(before: seq<Endpoint>, target: string)
    requires Identified(before)
    ensures Base(before, target).setIdentifier == target
  {
    if before != [] {
      BaseIdentified(before[..|before| - 1], target);
    }
  }

  lemma WrittenEndpoint(host: string, groups: map<string, seq<string>>, before: seq<Endpoint>, after: seq<Endpoint>,
                        i: nat)
    requires EndpointsFor(host, groups, before, after) && Identified(before) && i < |after|
    ensures var e := after[i];
      e.dnsName == host && e.recordType == A && e.targets == [Addresses(after)[i]] &&
      e.setIdentifier == Addresses(after)[i] && e.ttl == 60 == Migration.TTL
  {
    var k := Owner(groups, after, i);
    assert Refreshed(host, groups, before, after[i], Addresses(after)[i]);
    BaseIdentified(before, Addresses(after)[i]);
  }

  /** For a managed host, distinct non-empty addresses and names nobody else owns, what is written
      can be published, stays identified by address, and keeps the zone exact. */
  lemma WrittenIsProper(host: string, groups: map<string, seq<string>>, before: seq<Endpoint>, after: seq<Endpoint>,
                        foreign: HostedZone)
    requires EndpointsFor(host, groups, before, after) && Identified(before) && Distinct(groups)
    requires host != "" && "" !in BagOf(groups) && forall k :: k in foreign ==> k.name != host
    ensures Identified(after) && Proper(after, host, foreign)
  {
    forall i | 0 <= i < |after|
      ensures after[i].targets == [after[i].setIdentifier] && Publishable(after[i])
      ensures after[i].dnsName == host && after[i].setIdentifier == Addresses(after)[i] != ""
    {
      WrittenEndpoint(host, groups, before, after, i);
      assert Addresses(after)[i] in multiset(Addresses(after));
    }
    forall i, j | 0 <= i < j < |after|
      ensures KeyOf(after[i]) != KeyOf(after[j])
    {
      assert Addresses(after)[i] == Addresses(after)[j] ==> KeyOf(after[i]) == KeyOf(after[j]);
      DifferentAddresses(groups, after, i, j);
    }
  }

  lemma DifferentAddresses(groups: map<string, seq<string>>, after: seq<Endpoint>, i: nat, j: nat)
    requires ListsTargets(groups, after) && Distinct(groups) && i < j < |after|
    ensures Addresses(after)[i] != Addresses(after)[j]
  {
    TwiceListed(Addresses(after), i, j);
  }

  /** The weight computed for a new endpoint is the one Route53 is sent, not its fall-back of zero. */
  lemma WeightArrives(host: string, target: string, groupSize: nat)
    requires groupSize > 0
    ensures RecordOf(Refresh(NewEndpoint(target), host, target, groupSize)).weight == Some(AwsEndpointWeight(groupSize))
    ensures 1 <= AwsEndpointWeight(groupSize) <= MAX_WEIGHT
  {
    var value := FormatInt(AwsEndpointWeight(groupSize));
    WeightBounds(groupSize, groupSize);
    FormatThenAtoi(AwsEndpointWeight(groupSize));
    SetThenGet(NewEndpoint(target).providerSpecific, Weight, value);
  }
}
