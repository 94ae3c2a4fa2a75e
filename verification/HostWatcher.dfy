/** The registry of background host look-ups (pkg/dns/host_watcher.go). */
module HostWatcher {
  function Filter<T(!new)>(s: seq<T>, p: T -> bool): (r: seq<T>)
    ensures forall x :: x in r <==> x in s && p(x)
  {
    if s == [] then []
    else
      assert s == s[..|s| - 1] + [s[|s| - 1]];
      Filter(s[..|s| - 1], p) + (if p(s[|s| - 1]) then [s[|s| - 1]] else [])
  }

  lemma {:induction false} FilterTwice<T(!new)>(s: seq<T>, p: T -> bool, q: T -> bool, r: T -> bool)
    requires forall x :: x in s ==> (r(x) <==> p(x) && q(x))
    ensures Filter(Filter(s, p), q) == Filter(s, r)
  {
    if s != [] {
      var front, last := s[..|s| - 1], s[|s| - 1];
      assert s == front + [last];
      FilterTwice(front, p, q, r);
      FilterSnoc(Filter(front, p), last, q);
      assert Filter(front, p) + [] == Filter(front, p);
    }
  }

  lemma {:induction false} FilterSame<T(!new)>(s: seq<T>, p: T -> bool, q: T -> bool)
    requires forall x :: x in s ==> (p(x) <==> q(x))
    ensures Filter(s, p) == Filter(s, q)
  {
    if s != [] {
      assert s == s[..|s| - 1] + [s[|s| - 1]];
      FilterSame(s[..|s| - 1], p, q);
    }
  }

  lemma {:induction false} FilterAll<T(!new)>(s: seq<T>, p: T -> bool)
    requires forall x :: x in s ==> p(x)
    ensures Filter(s, p) == s
  {
    if s != [] {
      assert s == s[..|s| - 1] + [s[|s| - 1]];
      FilterAll(s[..|s| - 1], p);
    }
  }

  lemma FilterSnoc<T(!new)>(s: seq<T>, x: T, p: T -> bool)
    ensures Filter(s + [x], p) == Filter(s, p) + (if p(x) then [x] else [])
  {
    assert (s + [x])[..|s|] == s;
  }

  /** What passes and what does not is everything. */
  lemma {:induction false} FilterSplit<T(!new)>(s: seq<T>, p: T -> bool, q: T -> bool)
    requires forall x :: x in s ==> (q(x) <==> !p(x))
    ensures multiset(Filter(s, p)) + multiset(Filter(s, q)) == multiset(s)
  {
    if s != [] {
      assert s == s[..|s| - 1] + [s[|s| - 1]];
      FilterSplit(s[..|s| - 1], p, q);
    }
  }

  /** `id` stands for the cancellable context of the watcher's goroutine. */
  datatype Watcher = Watcher(key: string, host: string, id: nat)

  function Watched(records: seq<Watcher>, key: string): set<string> {
    set w | w in records && w.key == key :: w.host
  }

  /** The watchers of all other keys, in registry order. */
  function Others(records: seq<Watcher>, key: string): seq<Watcher> {
    Filter(records, (w: Watcher) => w.key != key)
  }

  predicate Unique(records: seq<Watcher>) {
    forall i, j :: 0 <= i < j < |records| ==>
      records[i].id != records[j].id && (records[i].key != records[j].key || records[i].host != records[j].host)
  }

  lemma {:induction false} FilterUnique(records: seq<Watcher>, p: Watcher -> bool)
    requires Unique(records)
    ensures Unique(Filter(records, p))
  {
    if records != [] {
      var front := records[..|records| - 1];
      assert records == front + [records[|records| - 1]];
      FilterUnique(front, p);
      forall w | w in front
        ensures w.id != records[|front|].id && (w.key != records[|front|].key || w.host != records[|front|].host)
      {
      }
    }
  }

  /** What a clean-up for `key` keeps when `active` are the hosts still wanted. An unwanted
      watcher of the empty host makes `StopWatching(key, "")` drop every watcher of the key. */
  predicate Kept(records: seq<Watcher>, key: string, active: seq<string>, w: Watcher) {
    w.key != key || (w.host in active && ("" in active || "" !in Watched(records, key)))
  }

  predicate Stops(key: string, host: string, w: Watcher) {
    (host == "" || host == w.host) && w.key == key
  }

  /** The contexts of the watchers that left the registry. */
  function Dropped(before: seq<Watcher>, after: seq<Watcher>): set<nat> {
    set w | w in before && w !in after :: w.id
  }

  /** `w` is dropped by stopping the unwanted ones among `listed`. */
  predicate Forgotten(listed: seq<Watcher>, active: seq<string>, w: Watcher) {
    exists l :: l in listed && l.host !in active && Stops(l.key, l.host, w)
  }

  /** The cancel calls `calls` reach the contexts cancelled before and the dropped ones. */
  ghost predicate Cancels(earlier: seq<nat>, calls: seq<nat>, before: seq<Watcher>, after: seq<Watcher>) {
    forall id :: id in calls <==> id in earlier || id in Dropped(before, after)
  }

  lemma CancelsTwice(earlier: seq<nat>, middle: seq<nat>, calls: seq<nat>,
                     before: seq<Watcher>, now: seq<Watcher>, after: seq<Watcher>)
    requires Cancels(earlier, middle, before, now) && Cancels(middle, calls, now, after)
    requires forall w :: w in now ==> w in before
    requires forall w :: w in after ==> w in now
    ensures Cancels(earlier, calls, before, after)
  {
    assert Dropped(before, after) == Dropped(before, now) + Dropped(now, after);
  }

  predicate NoRepeats(ids: seq<nat>) {
    forall i, j :: 0 <= i < j < |ids| ==> ids[i] != ids[j]
  }

  function Unstopped(records: seq<Watcher>, key: string, host: string): seq<Watcher> {
    Filter(records, (w: Watcher) => !Stops(key, host, w))
  }

  /** The registry after stopping the unwanted ones among `listed`. */
  function Remaining(records: seq<Watcher>, listed: seq<Watcher>, active: seq<string>): seq<Watcher> {
    Filter(records, (w: Watcher) => !Forgotten(listed, active, w))
  }

  /** The registry after a clean-up. */
  function CleanedUp(records: seq<Watcher>, key: string, active: seq<string>): seq<Watcher> {
    Filter(records, (w: Watcher) => Kept(records, key, active, w))
  }

  /** `StopWatching` after its first `i` iterations. */
  ghost predicate StopScan(records: seq<Watcher>, key: string, host: string, i: nat, kept: seq<Watcher>,
                           earlier: seq<nat>, calls: seq<nat>)
    requires i <= |records|
  {
    kept == Unstopped(records[..i], key, host) && NoRepeats(calls) &&
    forall id :: id in calls <==>
      id in earlier || exists j :: 0 <= j < i && Stops(key, host, records[j]) && records[j].id == id
  }

  lemma StopScanStep(records: seq<Watcher>, key: string, host: string, i: nat, kept: seq<Watcher>,
                     earlier: seq<nat>, calls: seq<nat>)
    requires i < |records| && StopScan(records, key, host, i, kept, earlier, calls)
    requires Unique(records) && forall w :: w in records ==> w.id !in earlier
    ensures Stops(key, host, records[i]) ==> StopScan(records, key, host, i + 1, kept, earlier, calls + [records[i].id])
    ensures !Stops(key, host, records[i]) ==> StopScan(records, key, host, i + 1, kept + [records[i]], earlier, calls)
  {
    FilterSnoc(records[..i], records[i], (w: Watcher) => !Stops(key, host, w));
    assert records[..i + 1] == records[..i] + [records[i]];
    assert records[i] in records && records[i].id !in calls;
  }

  lemma RemainingStep(records: seq<Watcher>, list: seq<Watcher>, i: nat, active: seq<string>)
    requires i < |list|
    ensures Remaining(records, list[..i + 1], active) ==
      if list[i].host in active then Remaining(records, list[..i], active)
      else Unstopped(Remaining(records, list[..i], active), list[i].key, list[i].host)
  {
    ForgottenSnoc(list, i, active);
    if list[i].host in active {
      FilterSame(records, (w: Watcher) => !Forgotten(list[..i], active, w),
                 (w: Watcher) => !Forgotten(list[..i + 1], active, w));
    } else {
      FilterTwice(records, (w: Watcher) => !Forgotten(list[..i], active, w),
                  (w: Watcher) => !Stops(list[i].key, list[i].host, w),
                  (w: Watcher) => !Forgotten(list[..i + 1], active, w));
    }
  }

  lemma WatchedMore(records: seq<Watcher>, key: string, host: string, id: nat)
    ensures Watched(records + [Watcher(key, host, id)], key) == Watched(records, key) + {host}
    ensures Others(records + [Watcher(key, host, id)], key) == Others(records, key)
  {
    var w := Watcher(key, host, id);
    FilterSnoc(records, w, (w: Watcher) => w.key != key);
    assert w in records + [w];
    forall h
      ensures h in Watched(records + [w], key) <==> h in Watched(records, key) || h == host
    {
    }
  }

  class HostsWatcher {
    var records: seq<Watcher>
    var nextId: nat
    /** The contexts cancelled so far, one entry per cancel call. */
    var cancelled: seq<nat>

    /** Contexts are never reused nor cancelled twice, and a registered watcher has not been cancelled. */
    ghost predicate Valid()
      reads this
    {
      Unique(records) && NoRepeats(cancelled) &&
      (forall w :: w in records ==> w.id < nextId && w.id !in cancelled) &&
      (forall id :: id in cancelled ==> id < nextId)
    }

    constructor ()
      ensures Valid() && records == []
    {
      records, nextId, cancelled := [], 0, [];
    }

    method ListHostRecordWatchers(key: string) returns (list: seq<Watcher>)
      ensures list == Filter(records, (w: Watcher) => w.key == key)
    {
      var p := (w: Watcher) => w.key == key;
      list := [];
      for i := 0 to |records|
        invariant list == Filter(records[..i], p)
      {
        FilterSnoc(records[..i], records[i], p);
        assert records[..i + 1] == records[..i] + [records[i]];
        if records[i].key == key {
          list := list + [records[i]];
        }
      }
      assert records[..|records|] == records;
    }

    method StartWatching(key: string, host: string) returns (started: bool)
      requires Valid()
      modifies this`records, this`nextId
      ensures Valid()
      ensures started <==> host !in Watched(old(records), key)
      ensures records == if started then old(records) + [Watcher(key, host, old(nextId))] else old(records)
      ensures Watched(records, key) == Watched(old(records), key) + {host}
      ensures Others(records, key) == Others(old(records), key)
      ensures old(nextId) <= nextId
    {
      for i := 0 to |records|
        invariant forall j :: 0 <= j < i ==> records[j].key != key || records[j].host != host
      {
        if records[i].key == key && records[i].host == host {
          return false;
        }
      }
      WatchedMore(records, key, host, nextId);
      records := records + [Watcher(key, host, nextId)];
      nextId := nextId + 1;
      return true;
    }

    /** Drops the watchers of `key` for `host`, or all of them for the empty host. */
    method StopWatching(key: string, host: string)
      requires Valid()
      modifies this`records, this`cancelled
      ensures Valid()
      ensures records == Unstopped(old(records), key, host)
      ensures Cancels(old(cancelled), cancelled, old(records), records)
    {
      var kept: seq<Watcher> := [];
      ghost var before, earlier := records, cancelled;
      for i := 0 to |records|
        invariant records == before && StopScan(before, key, host, i, kept, earlier, cancelled)
      {
        StopScanStep(before, key, host, i, kept, earlier, cancelled);
        if Stops(key, host, records[i]) {
          cancelled := cancelled + [records[i].id];
        } else {
          kept := kept + [records[i]];
        }
      }
      assert before[..|before|] == before;
      FilterUnique(before, (w: Watcher) => !Stops(key, host, w));
      StoppedAreDropped(before, key, host, kept);
      records := kept;
    }
  }

  lemma StoppedAreDropped(records: seq<Watcher>, key: string, host: string, kept: seq<Watcher>)
    requires Unique(records) && kept == Unstopped(records, key, host)
    ensures forall id :: id in Dropped(records, kept) <==>
      exists j :: 0 <= j < |records| && Stops(key, host, records[j]) && records[j].id == id
    ensures forall w :: w in kept ==> w.id !in Dropped(records, kept)
  {
    forall id
      ensures id in Dropped(records, kept) <==>
        exists j :: 0 <= j < |records| && Stops(key, host, records[j]) && records[j].id == id
    {
      if id in Dropped(records, kept) {
        var w :| w in records && w !in kept && w.id == id;
        var j :| 0 <= j < |records| && records[j] == w;
        assert Stops(key, host, records[j]);
      }
    }
  }

  /** `for each listed watcher that is not wanted any more: ForgetHost(key, watcher.Host)`. */
  method CleanUp(hosts: HostsWatcher, key: string, active: seq<string>)
    requires hosts.Valid()
    modifies hosts`records, hosts`cancelled
    ensures hosts.Valid()
    ensures hosts.records == CleanedUp(old(hosts.records), key, active)
    ensures Cancels(old(hosts.cancelled), hosts.cancelled, old(hosts.records), hosts.records)
  {
    ghost var before := hosts.records;
    var list := hosts.ListHostRecordWatchers(key);
    FilterAll(before, (w: Watcher) => !Forgotten(list[..0], active, w));
    for i := 0 to |list|
      invariant hosts.Valid() && hosts.records == Remaining(before, list[..i], active)
      invariant Cancels(old(hosts.cancelled), hosts.cancelled, before, hosts.records)
    {
      ghost var now, cancelled := hosts.records, hosts.cancelled;
      RemainingStep(before, list, i, active);
      if list[i].host !in active {
        assert list[i] in list;
        hosts.StopWatching(key, list[i].host);
        CancelsTwice(old(hosts.cancelled), cancelled, hosts.cancelled, before, now, hosts.records);
      }
    }
    assert list[..|list|] == list;
    ForgottenOrKept(before, key, active, list);
    FilterSame(before, (w: Watcher) => !Forgotten(list, active, w), (w: Watcher) => Kept(before, key, active, w));
  }

  lemma ForgottenSnoc(list: seq<Watcher>, i: nat, active: seq<string>)
    requires i < |list|
    ensures forall w :: Forgotten(list[..i + 1], active, w) <==>
      Forgotten(list[..i], active, w) || (list[i].host !in active && Stops(list[i].key, list[i].host, w))
  {
    assert list[..i + 1] == list[..i] + [list[i]];
  }

  lemma ForgottenOrKept(before: seq<Watcher>, key: string, active: seq<string>, list: seq<Watcher>)
    requires list == Filter(before, (w: Watcher) => w.key == key)
    ensures forall w :: w in before ==> (Kept(before, key, active, w) <==> !Forgotten(list, active, w))
  {
    forall w | w in before
      ensures Kept(before, key, active, w) <==> !Forgotten(list, active, w)
    {
      if w.key == key {
        assert w in list;
        if "" in Watched(before, key) {
          var e :| e in before && e.key == key && e.host == "";
          assert e in list;
        }
        if Forgotten(list, active, w) {
          var l :| l in list && l.host !in active && Stops(l.key, l.host, w);
        }
      }
    }
  }

  lemma OthersStay(records: seq<Watcher>, key: string, active: seq<string>)
    ensures Others(CleanedUp(records, key, active), key) == Others(records, key)
    ensures forall w: Watcher :: w.key != key ==> (w in CleanedUp(records, key, active) <==> w in records)
  {
    FilterTwice(records, (w: Watcher) => Kept(records, key, active, w), (w: Watcher) => w.key != key,
                (w: Watcher) => w.key != key);
  }

  lemma WatchedAfter(records: seq<Watcher>, key: string, active: seq<string>, h: string)
    ensures h in Watched(CleanedUp(records, key, active), key) <==>
      h in Watched(records, key) && h in active && ("" in active || "" !in Watched(records, key))
  {
    var after := CleanedUp(records, key, active);
    if h in Watched(records, key) && h in active && ("" in active || "" !in Watched(records, key)) {
      var w :| w in records && w.key == key && w.host == h;
      assert w in after;
    }
    if h in Watched(after, key) {
      var w :| w in after && w.key == key && w.host == h;
      assert w in records;
    }
  }

  /** After a clean-up the watched hosts of the key are the active ones, for all starting
      registries but one family: an unwanted watcher of the empty host next to wanted hosts. */
  lemma CleanUpAgrees(records: seq<Watcher>, key: string, active: seq<string>)
    requires forall h :: h in active ==> h in Watched(records, key)
    ensures (forall h :: h in Watched(CleanedUp(records, key, active), key) <==> h in active) <==>
      active == [] || "" in active || "" !in Watched(records, key)
  {
    forall h {
      WatchedAfter(records, key, active, h);
    }
    if active != [] {
      assert active[0] in active;
    }
  }

  /** For instance a watcher of the empty host, no longer wanted, takes the wanted "h" with it. */
  lemma EmptyHostTakesAll() returns (records: seq<Watcher>)
    ensures Unique(records) && Watched(records, "k") == {"", "h"} && Watched(CleanedUp(records, "k", ["h"]), "k") == {}
  {
    records := [Watcher("k", "", 0), Watcher("k", "h", 1)];
    assert records[0] in records && records[1] in records;
    forall h {
      WatchedAfter(records, "k", ["h"], h);
    }
  }
}
