/** The cache of a host watcher and its pauses after failures (`watch` and `updateRecords` in
    pkg/dns/host_watcher.go, and `Min` in pkg/_internal/util/math/slice.go). */
module LookupCache {
  import opened Wrappers
  import opened Clock

  const ERROR_INTERVAL := 2 * SECOND
  const MAX_ERROR_INTERVAL := 300 * SECOND

  datatype HostAddress = HostAddress(ip: string, ttl: int)

  function IPs(records: seq<HostAddress>): (ips: seq<string>)
    ensures |ips| == |records| && forall i :: 0 <= i < |ips| ==> ips[i] == records[i].ip
  {
    seq(|records|, i requires 0 <= i < |records| => records[i].ip)
  }

  /** Every cached time to live covers the one just looked up. */
  predicate Outlives(cached: seq<HostAddress>, latest: seq<HostAddress>) {
    |cached| == |latest| && forall i :: 0 <= i < |cached| ==> latest[i].ttl <= cached[i].ttl
  }

  class RecordWatcher {
    var records: seq<HostAddress>
    var errInterval: int

    constructor ()
      ensures records == [] && errInterval == ERROR_INTERVAL
    {
      records, errInterval := [], ERROR_INTERVAL;
    }

    /** The cache is only left alone when the addresses are the same and no TTL has risen. */
    method UpdateRecords(latest: seq<HostAddress>) returns (updated: bool)
      modifies `records
      ensures IPs(records) == IPs(latest) && Outlives(records, latest)
      ensures updated <==> IPs(old(records)) != IPs(latest)
      ensures records ==
        if IPs(old(records)) == IPs(latest) && Outlives(old(records), latest) then old(records) else latest
    {
      if |records| != |latest| {
        records := latest;
        return true;
      }
      updated := false;
      var updatedTTLs := false;
      for i := 0 to |latest|
        invariant records == old(records)
        invariant updated <==> exists j :: 0 <= j < i && records[j].ip != latest[j].ip
        invariant updatedTTLs <==>
          exists j :: 0 <= j < i && records[j].ip == latest[j].ip && records[j].ttl < latest[j].ttl
      {
        if records[i].ip != latest[i].ip {
          updated := true;
          continue;
        }
        if records[i].ttl < latest[i].ttl {
          updatedTTLs := true;
        }
      }
      if updated {
        var j :| 0 <= j < |latest| && records[j].ip != latest[j].ip;
        assert IPs(records)[j] != IPs(latest)[j];
      } else {
        assert IPs(records) == IPs(latest);
      }
      if updated || updatedTTLs {
        records := latest;
      }
    }

    /** A failed look-up: how long to sleep, and the interval for the next failure. */
    method BackOff() returns (pause: int)
      modifies `errInterval
      ensures pause == LeastFromZero([old(errInterval), MAX_ERROR_INTERVAL])
      ensures errInterval == Squared(old(errInterval))
    {
      var sleepTime := errInterval;
      errInterval := Squared(errInterval);
      pause := Min([sleepTime, MAX_ERROR_INTERVAL]);
    }

    /** The loop of a fresh watcher over the outcomes of its look-ups: what it reports, and how long
        it sleeps after each failure. */
    method Watch(lookups: seq<Option<seq<HostAddress>>>) returns (reports: nat, pauses: seq<int>)
      requires errInterval == ERROR_INTERVAL
      modifies this
      ensures reports == Changes(IPs(old(records)), Succeeded(lookups))
      ensures IPs(records) == LastIPs(IPs(old(records)), Succeeded(lookups))
      ensures pauses == Pauses(lookups)
    {
      reports, pauses := 0, [];
      for i := 0 to |lookups|
        invariant IPs(records) == LastIPs(IPs(old(records)), Succeeded(lookups[..i]))
        invariant reports == Changes(IPs(old(records)), Succeeded(lookups[..i]))
        invariant errInterval == Backoff(FailuresInRow(lookups[..i])) && pauses == Pauses(lookups[..i])
      {
        LookedUp(IPs(old(records)), lookups, i);
        OneMore(lookups, i);
        if lookups[i] == None {
          var pause := BackOff();
          pauses := pauses + [pause];
        } else {
          errInterval := ERROR_INTERVAL;
          var updated := UpdateRecords(lookups[i].value);
          if updated {
            reports := reports + 1;
          }
        }
      }
      assert lookups[..|lookups|] == lookups;
    }
  }

  /** A `time.Duration` times itself. */
  function Squared(interval: int): int { Wrap64(interval * interval) }

  /** The least of the values and zero. */
  function LeastFromZero(values: seq<int>): int {
    if values == [] then 0
    else
      var least, value := LeastFromZero(values[..|values| - 1]), values[|values| - 1];
      if value < least then value else least
  }

  /** The variadic minimum: its accumulator starts as the zero value of its type. */
  method Min(values: seq<int>) returns (currentMin: int)
    ensures currentMin == LeastFromZero(values)
  {
    currentMin := 0;
    for i := 0 to |values|
      invariant currentMin == LeastFromZero(values[..i])
    {
      assert values[..i + 1][..i] == values[..i];
      if values[i] < currentMin {
        currentMin := values[i];
      }
    }
    assert values[..|values|] == values;
  }

  /** It is the minimum of the values if and only if one of them is not positive; otherwise it is 0. */
  lemma {:induction false} MinIsMinimum(values: seq<int>)
    ensures var least := LeastFromZero(values);
      (forall v :: v in values ==> least <= v) && (least == 0 || least in values) &&
      (least in values <==> exists v :: v in values && v <= 0)
  {
    if values != [] {
      MinIsMinimum(values[..|values| - 1]);
      assert values == values[..|values| - 1] + [values[|values| - 1]];
    }
  }

  function Succeeded(lookups: seq<Option<seq<HostAddress>>>): seq<seq<HostAddress>> {
    if lookups == [] then []
    else
      var last := lookups[|lookups| - 1];
      Succeeded(lookups[..|lookups| - 1]) + if last == None then [] else [last.value]
  }

  /** How many look-ups have failed since the last one that did not. */
  function FailuresInRow(lookups: seq<Option<seq<HostAddress>>>): nat {
    if lookups == [] || lookups[|lookups| - 1] != None then 0 else FailuresInRow(lookups[..|lookups| - 1]) + 1
  }

  /** The stored interval after that many failures: each one squares it. */
  function Backoff(failures: nat): int {
    if failures == 0 then ERROR_INTERVAL else Squared(Backoff(failures - 1))
  }

  /** How long the watcher sleeps after a failure that follows that many others. */
  function Pause(failures: nat): int {
    LeastFromZero([Backoff(failures), MAX_ERROR_INTERVAL])
  }

  /** The pauses after the failed look-ups, in order. */
  function Pauses(lookups: seq<Option<seq<HostAddress>>>): seq<int> {
    if lookups == [] then []
    else
      var front := lookups[..|lookups| - 1];
      Pauses(front) +
        if lookups[|lookups| - 1] == None then [Pause(FailuresInRow(front))] else []
  }

  function LastIPs(start: seq<string>, lookups: seq<seq<HostAddress>>): seq<string> {
    if lookups == [] then start else IPs(lookups[|lookups| - 1])
  }

  /** How often the address sequence differs from the one before it. */
  function Changes(start: seq<string>, lookups: seq<seq<HostAddress>>): nat {
    if lookups == [] then 0
    else
      var front := lookups[..|lookups| - 1];
      Changes(start, front) + if LastIPs(start, front) != IPs(lookups[|lookups| - 1]) then 1 else 0
  }

  lemma LookedUp(start: seq<string>, lookups: seq<Option<seq<HostAddress>>>, i: nat)
    requires i < |lookups|
    ensures var before, after := Succeeded(lookups[..i]), Succeeded(lookups[..i + 1]);
      match lookups[i]
      case None => after == before
      case Some(latest) =>
        LastIPs(start, after) == IPs(latest) &&
        Changes(start, after) == Changes(start, before) + if LastIPs(start, before) != IPs(latest) then 1 else 0
  {
    var before := Succeeded(lookups[..i]);
    assert lookups[..i + 1][..i] == lookups[..i];
    if lookups[i] != None {
      assert (before + [lookups[i].value])[..|before|] == before;
    }
  }

  lemma OneMore(lookups: seq<Option<seq<HostAddress>>>, i: nat)
    requires i < |lookups|
    ensures var row := FailuresInRow(lookups[..i]);
      if lookups[i] == None then
        FailuresInRow(lookups[..i + 1]) == row + 1 &&
        Pauses(lookups[..i + 1]) == Pauses(lookups[..i]) + [Pause(row)]
      else
        FailuresInRow(lookups[..i + 1]) == 0 && Pauses(lookups[..i + 1]) == Pauses(lookups[..i])
  {
    assert lookups[..i + 1][..i] == lookups[..i];
  }

  /** No report means the addresses never changed. */
  lemma {:induction false} SilentRun(start: seq<string>, lookups: seq<seq<HostAddress>>)
    ensures Changes(start, lookups) == 0 <==> forall i :: 0 <= i < |lookups| ==> IPs(lookups[i]) == start
  {
    if lookups != [] {
      SilentRun(start, lookups[..|lookups| - 1]);
    }
  }

  /** Squaring the interval overflows: two seconds, 4 * 10^18 nanoseconds, 3.8 * 10^18, and zero
      from the third failure in a row on. */
  lemma {:induction false} BackoffCollapses(failures: nat)
    ensures Backoff(failures) ==
      if failures == 0 then 2_000_000_000
      else if failures == 1 then 4_000_000_000_000_000_000
      else if failures == 2 then 3_799_332_742_966_018_048
      else 0
  {
    if failures > 0 {
      BackoffCollapses(failures - 1);
    }
  }

  lemma NoPause(failures: nat)
    ensures Pause(failures) == 0
  {
    var values := [Backoff(failures), MAX_ERROR_INTERVAL];
    BackoffCollapses(failures);
    MinIsMinimum(values);
    assert forall v :: v in values ==> v >= 0;
  }

  /** The back-off never backs off: the minimum of two durations that are not negative is zero, so
      every failed look-up, the first included, is followed by the next one without any pause. */
  lemma {:induction false} BusyLoop(lookups: seq<Option<seq<HostAddress>>>)
    ensures forall i :: 0 <= i < |Pauses(lookups)| ==> Pauses(lookups)[i] == 0
    ensures |Pauses(lookups)| + |Succeeded(lookups)| == |lookups|
  {
    if lookups != [] {
      var front := lookups[..|lookups| - 1];
      BusyLoop(front);
      NoPause(FailuresInRow(front));
    }
  }
}
