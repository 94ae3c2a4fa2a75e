/** DNS endpoints (pkg/apis/kuadrant/v1/types.go): their identity, address and provider data. */
module Endpoints {
  import opened Wrappers

  /** "A" and everything else. */
  datatype RecordType = A | OtherType(name: string)

  /** "aws/weight", "aws/region" and so on. */
  datatype PropertyName = Weight | Region | Failover | MultiValueAnswer | HealthCheckId | OtherName(name: string)

  datatype Property = Property(name: PropertyName, value: string)

  datatype Endpoint = Endpoint(
    dnsName: string,
    targets: seq<string>,
    recordType: RecordType,
    setIdentifier: string,
    ttl: int,
    labels: map<string, string>,
    providerSpecific: seq<Property>)
  {
    /** The identity of the endpoint among the endpoints of a record. */
    function SetID(): string {
      if setIdentifier != "" then setIdentifier else dnsName
    }

    function GetAddress(): Option<string> {
      if setIdentifier == "" || targets == [] then None else Some(targets[0])
    }
  }

  /** The first value stored under `name`. */
  function FindProperty(ps: seq<Property>, name: PropertyName): Option<string> {
    if ps == [] then None
    else if ps[0].name == name then Some(ps[0].value)
    else FindProperty(ps[1..], name)
  }

  /** `value` is what the first pair of that name says, if there is any. */
  predicate Says(ps: seq<Property>, name: PropertyName, value: Option<string>) {
    if value == None then forall i :: 0 <= i < |ps| ==> ps[i].name != name
    else
      exists i :: 0 <= i < |ps| && ps[i] == Property(name, value.value) && forall j :: 0 <= j < i ==> ps[j].name != name
  }

  lemma {:induction false} FindSays(ps: seq<Property>, name: PropertyName)
    ensures Says(ps, name, FindProperty(ps, name))
  {
    if ps != [] && ps[0].name != name {
      FindSays(ps[1..], name);
      var found := FindProperty(ps[1..], name);
      if found.Some? {
        var i :| 0 <= i < |ps[1..]| && ps[1..][i] == Property(name, found.value) &&
          forall j :: 0 <= j < i ==> ps[1..][j].name != name;
        assert ps[i + 1] == Property(name, found.value);
        assert forall j :: 0 < j < i + 1 ==> ps[j] == ps[1..][j - 1];
      } else {
        assert forall j :: 0 < j < |ps| ==> ps[j] == ps[1..][j - 1];
      }
    }
  }

  /** What `SetProviderSpecific` leaves behind: the assignment for a name that is already
      present goes to the loop's copy of the pair, so only absent names are ever stored. */
  function PutProperty(ps: seq<Property>, name: PropertyName, value: string): seq<Property> {
    if FindProperty(ps, name).Some? then ps else ps + [Property(name, value)]
  }

  function DropProperty(ps: seq<Property>, name: PropertyName): seq<Property> {
    if ps == [] then []
    else (if ps[0].name == name then [] else [ps[0]]) + DropProperty(ps[1..], name)
  }

  lemma {:induction false} GetAppend(ps: seq<Property>, qs: seq<Property>, name: PropertyName)
    ensures FindProperty(ps + qs, name) ==
      if FindProperty(ps, name).Some? then FindProperty(ps, name) else FindProperty(qs, name)
  {
    if ps == [] {
      assert ps + qs == qs;
    } else {
      assert (ps + qs)[1..] == ps[1..] + qs;
      GetAppend(ps[1..], qs, name);
    }
  }

  /** One step of the loop over the pairs. */
  lemma DropMore(ps: seq<Property>, i: nat, name: PropertyName, kept: seq<Property>)
    requires i < |ps|
    ensures kept + DropProperty(ps[i..], name) ==
      (if ps[i].name == name then kept else kept + [ps[i]]) + DropProperty(ps[i + 1..], name)
    ensures FindProperty(ps[i..], name).Some? <==> ps[i].name == name || FindProperty(ps[i + 1..], name).Some?
  {
    assert ps[i..][1..] == ps[i + 1..];
    var rest := DropProperty(ps[i + 1..], name);
    if ps[i].name == name {
      assert DropProperty(ps[i..], name) == [] + rest == rest;
    } else {
      assert kept + ([ps[i]] + rest) == (kept + [ps[i]]) + rest;
    }
  }

  /** A written value is read back exactly when the name was absent or already had that value. */
  lemma SetThenGet(ps: seq<Property>, name: PropertyName, value: string)
    ensures FindProperty(PutProperty(ps, name, value), name) == Some(value) <==>
      (FindProperty(ps, name) == None || FindProperty(ps, name) == Some(value))
    ensures forall other :: other != name ==>
      FindProperty(PutProperty(ps, name, value), other) == FindProperty(ps, other)
  {
    var added := [Property(name, value)];
    assert added[1..] == [];
    GetAppend(ps, added, name);
    forall other | other != name
      ensures FindProperty(PutProperty(ps, name, value), other) == FindProperty(ps, other)
    {
      GetAppend(ps, added, other);
    }
  }

  /** Removing the name first makes the write effective for every input. */
  lemma {:induction false} DeleteThenGet(ps: seq<Property>, name: PropertyName, other: PropertyName)
    ensures FindProperty(DropProperty(ps, name), other) ==
      if other == name then None else FindProperty(ps, other)
  {
    if ps != [] {
      DeleteThenGet(ps[1..], name, other);
      GetAppend(if ps[0].name == name then [] else [ps[0]], DropProperty(ps[1..], name), other);
    }
  }

  lemma DeleteThenSetThenGet(ps: seq<Property>, name: PropertyName, value: string)
    ensures FindProperty(PutProperty(DropProperty(ps, name), name, value), name) == Some(value)
  {
    DeleteThenGet(ps, name, name);
    SetThenGet(DropProperty(ps, name), name, value);
  }

  /** An endpoint as the record's slice points to it. */
  class EndpointObject {
    var dnsName: string
    var targets: seq<string>
    var recordType: RecordType
    var setIdentifier: string
    var ttl: int
    var labels: map<string, string>
    var providerSpecific: seq<Property>

    constructor (e: Endpoint)
      ensures Value() == e
    {
      dnsName, targets, recordType := e.dnsName, e.targets, e.recordType;
      setIdentifier, ttl, labels, providerSpecific := e.setIdentifier, e.ttl, e.labels, e.providerSpecific;
    }

    function Value(): Endpoint
      reads this
    {
      Endpoint(dnsName, targets, recordType, setIdentifier, ttl, labels, providerSpecific)
    }

    method SetProviderSpecific(name: PropertyName, value: string)
      modifies this`providerSpecific
      ensures providerSpecific == PutProperty(old(providerSpecific), name, value)
    {
      // `property` is the loop's copy of a pair, never the stored pair itself.
      var property: Option<Property> := None;
      var i := 0;
      while i < |providerSpecific|
        invariant 0 <= i <= |providerSpecific|
        invariant FindProperty(providerSpecific, name).Some? <==>
          property.Some? || FindProperty(providerSpecific[i..], name).Some?
      {
        assert providerSpecific[i..][1..] == providerSpecific[i + 1..];
        if providerSpecific[i].name == name {
          property := Some(providerSpecific[i]);
        }
        i := i + 1;
      }
      if property.Some? {
        property := Some(property.value.(value := value));
        return;
      }
      providerSpecific := providerSpecific + [Property(name, value)];
    }

    method DeleteProviderSpecific(name: PropertyName) returns (deleted: bool)
      modifies this`providerSpecific
      ensures providerSpecific == DropProperty(old(providerSpecific), name)
      ensures deleted <==> FindProperty(old(providerSpecific), name).Some?
    {
      deleted := false;
      var kept: seq<Property> := [];
      ghost var before := providerSpecific;
      var i := 0;
      while i < |providerSpecific|
        invariant 0 <= i <= |providerSpecific| && providerSpecific == before
        invariant kept + DropProperty(before[i..], name) == DropProperty(before, name)
        invariant FindProperty(before, name).Some? <==> deleted || FindProperty(before[i..], name).Some?
      {
        DropMore(before, i, name, kept);
        if providerSpecific[i].name == name {
          deleted := true;
        } else {
          kept := kept + [providerSpecific[i]];
        }
        i := i + 1;
      }
      providerSpecific := kept;
    }
  }
}
