/** `setEndpointFromTargets` on the heap: existing endpoints are updated through the pointers
    the record holds, new ones are allocated, and the record gets a freshly sorted slice. */
module DnsRecordObjects {
  import opened Wrappers
  import opened Decimal
  import opened Order
  import opened Bags
  import opened Endpoints
  import opened DnsEndpoints

  /** The address index: a map from address to the endpoint holding it. */
  type Index = map<string, EndpointObject>

  function Values(es: seq<EndpointObject>): (values: seq<Endpoint>)
    reads es
    ensures |values| == |es| && forall i :: 0 <= i < |es| ==> values[i] == es[i].Value()
  {
    seq(|es|, i requires 0 <= i < |es| reads es => es[i].Value())
  }

  /** A deserialised or deep-copied record: no two slots share an endpoint. */
  predicate Separate(es: seq<EndpointObject>) {
    forall i, j :: 0 <= i < j < |es| ==> es[i] != es[j]
  }

  predicate OfRecord(current: Index, es: seq<EndpointObject>) {
    (forall a :: a in current ==> current[a] in es) &&
    (forall a, b :: a in current && b in current && a != b ==> current[a] != current[b])
  }

  /** The index leads to the endpoint each address keeps. */
  ghost predicate Indexes(current: Index, es: seq<EndpointObject>)
    reads es
  {
    OfRecord(current, es) &&
    (forall a :: a in current ==> current[a].Value() == Base(Values(es), a)) &&
    (forall a :: a !in current ==> Base(Values(es), a) == NewEndpoint(a))
  }

  lemma NothingIndexed()
    ensures Indexes(map[], [])
  {
    var none: seq<EndpointObject> := [];
    assert Values(none) == [];
  }

  lemma BaseMore(es: seq<EndpointObject>, i: nat, a: string)
    requires i < |es|
    ensures Base(Values(es[..i + 1]), a) ==
      if es[i].Value().GetAddress() == Some(a) then es[i].Value() else Base(Values(es[..i]), a)
  {
    assert Values(es[..i + 1])[..i] == Values(es[..i]);
  }

  lemma IndexesMore(current: Index, es: seq<EndpointObject>, i: nat)
    requires i < |es| && Separate(es) && Indexes(current, es[..i])
    ensures var address := es[i].Value().GetAddress();
      Indexes(if address.Some? then current[address.value := es[i]] else current, es[..i + 1])
  {
    var address, longer := es[i].Value().GetAddress(), es[..i + 1];
    var next := if address.Some? then current[address.value := es[i]] else current;
    assert longer == es[..i] + [es[i]];
    assert OfRecord(next, longer);
    forall a
      ensures a in next ==> next[a].Value() == Base(Values(longer), a)
      ensures a !in next ==> Base(Values(longer), a) == NewEndpoint(a)
    {
      BaseMore(es, i, a);
      assert a in current ==> current[a].Value() == Base(Values(es[..i]), a);
    }
  }

  /** The slice under construction: every entry points at its target; for distinct targets the
      entries are final and the endpoints of the other addresses are still untouched. */
  ghost predicate Placed(current: Index, es: seq<EndpointObject>, before: seq<Endpoint>, dnsName: string,
                         groups: map<string, seq<string>>, entries: seq<(string, EndpointObject)>)
    requires OfRecord(current, es)
    reads es, set x | x in entries :: x.1
  {
    (forall x :: x in entries ==>
      x.1.targets == [x.0] && (if x.0 in current then x.1 == current[x.0] else x.1 !in es)) &&
    (Distinct(groups) ==>
      (forall x :: x in entries ==> Refreshed(dnsName, groups, before, x.1.Value(), x.0)) &&
      (forall a :: a in current && a !in Keys(entries) ==> current[a].Value() == Base(before, a)))
  }

  method RefreshTarget(current: Index, dnsName: string, target: string, groupSize: nat) returns (e: EndpointObject)
    requires groupSize > 0
    modifies if target in current then {current[target]} else {}
    ensures if target in current then e == current[target] else fresh(e)
    ensures e.Value() ==
      Refresh(if target in current then old(current[target].Value()) else NewEndpoint(target), dnsName, target,
              groupSize)
  {
    if target in current {
      e := current[target];
    } else {
      e := new EndpointObject(NewEndpoint(target));
    }
    e.dnsName := dnsName;
    e.recordType := A;
    e.targets := [target];
    e.ttl := RECORD_TTL;
    e.SetProviderSpecific(Weight, FormatInt(AwsEndpointWeight(groupSize)));
  }

  lemma OneGroup(groups: map<string, seq<string>>, k: string, target: string)
    requires Distinct(groups) && k in groups && target in groups[k]
    ensures forall l :: l in groups && target in groups[l] ==> l == k
  {
    forall l | l in groups && target in groups[l]
      ensures l == k
    {
      BagDistinct(groups, k, l, target);
    }
  }

  /** One pass of the inner loop. */
  method PlaceTarget(current: Index, ghost es: seq<EndpointObject>, ghost before: seq<Endpoint>, dnsName: string,
                     groups: map<string, seq<string>>, k: string, target: string,
                     entries: seq<(string, EndpointObject)>)
    returns (e: EndpointObject)
    requires k in groups && target in groups[k]
    requires OfRecord(current, es) && Placed(current, es, before, dnsName, groups, entries)
    requires forall a :: a !in current ==> Base(before, a) == NewEndpoint(a)
    requires Distinct(groups) ==> target !in Keys(entries)
    modifies es
    ensures e in es || fresh(e)
    ensures Placed(current, es, before, dnsName, groups, entries + [(target, e)])
  {
    e := RefreshTarget(current, dnsName, target, |groups[k]|);
    ghost var extended := entries + [(target, e)];
    forall x | x in entries
      ensures x.1 == e ==> x.0 == target
    {
    }
    if Distinct(groups) {
      OneGroup(groups, k, target);
      NotAmong(entries, target, e);
      assert Keys(extended) == Keys(entries) + [target];
    }
  }

  lemma NotAmong(entries: seq<(string, EndpointObject)>, target: string, e: EndpointObject)
    requires target !in Keys(entries) && forall x :: x in entries && x.1 == e ==> x.0 == target
    ensures forall x :: x in entries ==> x.1 != e
  {
    forall x | x in entries
      ensures x.1 != e
    {
      assert x.0 in Keys(entries);
    }
  }

  lemma NotYetPlaced(groups: map<string, seq<string>>, placed: seq<string>, targets: seq<string>,
                     rest: multiset<string>)
    requires targets != [] && multiset(placed) + multiset(targets) + rest == BagOf(groups)
    ensures Distinct(groups) ==> targets[0] !in placed
  {
    assert targets[0] in multiset(targets);
    assert multiset(placed)[targets[0]] + multiset(targets)[targets[0]] <= BagOf(groups)[targets[0]];
  }

  function Entered(entries: seq<(string, EndpointObject)>): (es: seq<EndpointObject>)
    ensures |es| == |entries| && forall i :: 0 <= i < |es| ==> es[i] == entries[i].1
  {
    seq(|entries|, i requires 0 <= i < |entries| => entries[i].1)
  }

  /** What has been placed, what is left of the group, and the other groups make up the whole. */
  ghost predicate Accounted(entries: seq<(string, EndpointObject)>, left: seq<string>, rest: multiset<string>,
                            groups: map<string, seq<string>>) {
    multiset(Keys(entries)) + multiset(left) + rest == BagOf(groups)
  }

  lemma CountPlaced(entries: seq<(string, EndpointObject)>, targets: seq<string>, j: nat, e: EndpointObject,
                    rest: multiset<string>, groups: map<string, seq<string>>)
    requires j < |targets| && Accounted(entries, targets[j..], rest, groups)
    ensures Accounted(entries + [(targets[j], e)], targets[j + 1..], rest, groups)
  {
    assert targets[j..] == [targets[j]] + targets[j + 1..];
    assert Keys(entries + [(targets[j], e)]) == Keys(entries) + [targets[j]];
  }

  lemma SortedSeparate(current: Index, es: seq<EndpointObject>, before: seq<Endpoint>, dnsName: string,
                       groups: map<string, seq<string>>, entries: seq<(string, EndpointObject)>,
                       sorted: seq<(string, EndpointObject)>, result: seq<EndpointObject>)
    requires OfRecord(current, es) && Placed(current, es, before, dnsName, groups, entries) && Distinct(groups)
    requires multiset(Keys(sorted)) == BagOf(groups) && forall i :: 0 <= i < |sorted| ==> sorted[i] in entries
    requires |result| == |sorted| && forall i :: 0 <= i < |sorted| ==> result[i] == sorted[i].1
    ensures Separate(result)
  {
    forall i, j | 0 <= i < j < |result|
      ensures result[i] != result[j]
    {
      TwiceListed(Keys(sorted), i, j);
      assert sorted[i] in entries && sorted[j] in entries;
    }
  }

  /** The entries in address order are the list that was asked for. */
  lemma SortedEntries(current: Index, es: seq<EndpointObject>, before: seq<Endpoint>, dnsName: string,
                      groups: map<string, seq<string>>, entries: seq<(string, EndpointObject)>,
                      sorted: seq<(string, EndpointObject)>, result: seq<EndpointObject>)
    requires OfRecord(current, es) && Placed(current, es, before, dnsName, groups, entries)
    requires multiset(sorted) == multiset(entries) && Sorted(Keys(sorted)) && multiset(Keys(entries)) == BagOf(groups)
    requires |result| == |sorted| && forall i :: 0 <= i < |sorted| ==> result[i] == sorted[i].1
    ensures ListsTargets(groups, Values(result))
    ensures Distinct(groups) ==> Separate(result) && EndpointsFor(dnsName, groups, before, Values(result))
    ensures forall i :: 0 <= i < |sorted| ==> sorted[i] in entries
  {
    KeysPermute(sorted, entries);
    forall i | 0 <= i < |sorted|
      ensures sorted[i] in entries
    {
      assert sorted[i] in multiset(sorted);
    }
    assert Addresses(Values(result)) == Keys(sorted);
    if Distinct(groups) {
      SortedSeparate(current, es, before, dnsName, groups, entries, sorted, result);
    }
  }

  lemma OneLess(todo: map<string, seq<string>>, k: string)
    requires k in todo
    ensures |todo - {k}| < |todo| && forall l :: l in todo - {k} ==> l in todo && (todo - {k})[l] == todo[l]
  {
    assert (todo - {k}).Keys == todo.Keys - {k};
  }

  /** One endpoint reference per target, in the order the map happens to be ranged over. */
  method CollectEndpoints(current: Index, ghost es: seq<EndpointObject>, dnsName: string,
                          groups: map<string, seq<string>>)
    returns (entries: seq<(string, EndpointObject)>)
    requires Indexes(current, es)
    modifies es
    ensures multiset(Keys(entries)) == BagOf(groups)
    ensures Placed(current, es, old(Values(es)), dnsName, groups, entries)
    ensures forall x :: x in entries ==> x.1 in es || fresh(x.1)
  {
    ghost var before := Values(es);
    entries := [];
    var todo := groups;
    while todo != map[]
      invariant forall k :: k in todo ==> k in groups && todo[k] == groups[k]
      invariant multiset(Keys(entries)) + BagOf(todo) == BagOf(groups)
      invariant Placed(current, es, before, dnsName, groups, entries)
      invariant forall x :: x in entries ==> x.1 in es || fresh(x.1)
      decreases |todo|
    {
      var k :| k in todo;
      BagPick(todo, k);
      OneLess(todo, k);
      todo := todo - {k};
      entries := CollectGroup(current, es, before, dnsName, groups, k, entries, BagOf(todo));
    }
  }

  /** The inner loop, over the targets of one key. */
  method CollectGroup(current: Index, ghost es: seq<EndpointObject>, ghost before: seq<Endpoint>, dnsName: string,
                      groups: map<string, seq<string>>,
                      k: string, placed: seq<(string, EndpointObject)>, ghost rest: multiset<string>)
    returns (entries: seq<(string, EndpointObject)>)
    requires k in groups && multiset(Keys(placed)) + multiset(groups[k]) + rest == BagOf(groups)
    requires OfRecord(current, es) && Placed(current, es, before, dnsName, groups, placed)
    requires forall a :: a !in current ==> Base(before, a) == NewEndpoint(a)
    modifies es
    ensures multiset(Keys(entries)) + rest == BagOf(groups)
    ensures Placed(current, es, before, dnsName, groups, entries)
    ensures forall x :: x in entries ==> x in placed || x.1 in es || fresh(x.1)
  {
    entries := placed;
    var targets := groups[k];
    assert targets[0..] == targets;
    for j := 0 to |targets|
      invariant Accounted(entries, targets[j..], rest, groups)
      invariant Placed(current, es, before, dnsName, groups, entries)
      invariant forall x :: x in entries ==> x in placed || x.1 in es || fresh(x.1)
    {
      NotYetPlaced(groups, Keys(entries), targets[j..], rest);
      var e := PlaceTarget(current, es, before, dnsName, groups, k, targets[j], entries);
      CountPlaced(entries, targets, j, e, rest, groups);
      entries := entries + [(targets[j], e)];
    }
  }

  /** The collected endpoints in address order. */
  method CollectSorted(current: Index, ghost es: seq<EndpointObject>, dnsName: string, groups: map<string, seq<string>>)
    returns (result: seq<EndpointObject>)
    requires Indexes(current, es)
    modifies es
    ensures forall e :: e in result ==> e in es || fresh(e)
    ensures Listed(dnsName, groups, old(Values(es)), Values(result))
    ensures Distinct(groups) ==> Separate(result)
  {
    ghost var before := Values(es);
    var entries := CollectEndpoints(current, es, dnsName, groups);
    var sorted := SortByKey(entries);
    result := Entered(sorted);
    SortedEntries(current, es, before, dnsName, groups, entries, sorted, result);
  }

  class DnsRecordObject {
    var endpoints: seq<EndpointObject>

    constructor (values: seq<Endpoint>)
      ensures Values(endpoints) == values && Separate(endpoints)
      ensures forall e :: e in endpoints ==> fresh(e)
    {
      endpoints := [];
      new;
      for i := 0 to |values|
        invariant forall e :: e in endpoints ==> fresh(e)
        invariant Separate(endpoints) && Values(endpoints) == values[..i]
      {
        var e := new EndpointObject(values[i]);
        endpoints := endpoints + [e];
      }
    }

    /** The address index over the record's endpoints; later endpoints win. */
    method BuildIndex() returns (current: Index)
      requires Separate(endpoints)
      ensures Indexes(current, endpoints)
    {
      current := map[];
      ghost var es := endpoints;
      assert es[..0] == [];
      NothingIndexed();
      for i := 0 to |endpoints|
        invariant Indexes(current, es[..i])
      {
        var address := endpoints[i].Value().GetAddress();
        IndexesMore(current, es, i);
        if address.Some? {
          current := current[address.value := endpoints[i]];
        }
      }
      assert es[..|es|] == es;
    }

    /** The new slice, while the record still holds the old one. */
    method Recomputed(dnsName: string, groups: map<string, seq<string>>) returns (result: seq<EndpointObject>)
      requires Separate(endpoints)
      modifies set e | e in endpoints
      ensures forall e :: e in result ==> e in endpoints || fresh(e)
      ensures Listed(dnsName, groups, old(Values(endpoints)), Values(result))
      ensures Distinct(groups) ==> Separate(result)
    {
      var current := BuildIndex();
      result := CollectSorted(current, endpoints, dnsName, groups);
    }

    method SetEndpointFromTargets(dnsName: string, groups: map<string, seq<string>>)
      requires Separate(endpoints)
      modifies this, set e | e in endpoints
      ensures forall e :: e in endpoints ==> e in old(endpoints) || fresh(e)
      ensures Listed(dnsName, groups, old(Values(endpoints)), Values(endpoints))
      ensures Distinct(groups) ==> Separate(endpoints)
    {
      var result := Recomputed(dnsName, groups);
      ghost var after := Values(result);
      endpoints := result;
      assert Values(endpoints) == after;
    }
  }
}
