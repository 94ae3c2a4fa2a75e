/** Graceful workload migration (pkg/migration/workload/migrate.go): active clusters get a
    soft finalizer; a cluster marked for deletion keeps it until a delete-at second that lies
    twice the DNS record TTL in the future. */
module Migration {
  import opened Wrappers
  import opened Decimal
  import opened Clock
  import opened Metadata

  const TTL := 60

  /** A labelled cluster that is not marked for deletion. */
  predicate Active(labels: Labels, annotations: Annotations, c: Cluster) {
    SyncTarget(c) in labels && Deletion(c) !in annotations
  }

  /** A delete-at second that is no number, or too large a one, does not outlive a step; the finalizer
      goes with it exactly when the parser's stand-in value, zero for what is no number, is past. */
  lemma MalformedGoes(labels: Labels, before: Annotations, after: Annotations, c: Cluster,
                      at: Instant, t0: Instant, t1: Instant)
    requires ClusterStep(labels, before, after, c, at, t0, t1) && !Active(labels, before, c) && Pending(before, c)
    requires !ReadSecond(before[DeleteAt(c)]).ok
    ensures DeleteAt(c) !in after
    ensures SoftFinalizer(c) !in after ==> Deadline(before, c) <= Unix(t1)
    ensures SoftFinalizer(c) in after ==> Unix(t0) < Deadline(before, c)
  {
  }

  /** A proper one stays as it is until the second is reached, and then goes with the finalizer. */
  lemma WaitsOrGoes(labels: Labels, before: Annotations, after: Annotations, c: Cluster,
                    at: Instant, t0: Instant, t1: Instant)
    requires ClusterStep(labels, before, after, c, at, t0, t1) && !Active(labels, before, c) && Pending(before, c)
    requires ReadSecond(before[DeleteAt(c)]).ok
    ensures (Unix(t0) < Deadline(before, c) && SameTimer(before, after, c)) ||
      (Deadline(before, c) <= Unix(t1) && NoTimer(after, c))
  {
  }

  /** `strconv.Atoi` of an annotation value; the marker is not a number. */
  function ReadSecond(v: AnnotationValue): Parsed {
    match v
    case GlbcMigration => Parsed(0, false)
    case Text(s) => Atoi(s)
  }

  /** The marker reads like any other text that is no number. */
  lemma MarkerReads(v: AnnotationValue)
    ensures ReadSecond(v) == Atoi(TextOf(v))
  {
    assert !IsDigit("kuadrant.dev/glbc-migration"[0]);
  }

  function WriteSecond(n: nat): AnnotationValue { Text(FormatInt(n)) }

  /** The delete-at second recorded for `c`. */
  function Deadline(annotations: Annotations, c: Cluster): int
    requires DeleteAt(c) in annotations
  {
    ReadSecond(annotations[DeleteAt(c)]).value
  }

  /** A soft finalizer that waits for its delete-at second. */
  predicate Pending(annotations: Annotations, c: Cluster) {
    Deletion(c) in annotations && SoftFinalizer(c) in annotations && DeleteAt(c) in annotations
  }

  predicate SameTimer(before: Annotations, after: Annotations, c: Cluster) {
    Lookup(after, SoftFinalizer(c)) == Lookup(before, SoftFinalizer(c)) &&
    Lookup(after, DeleteAt(c)) == Lookup(before, DeleteAt(c))
  }

  predicate NoTimer(annotations: Annotations, c: Cluster) {
    SoftFinalizer(c) !in annotations && DeleteAt(c) !in annotations
  }

  /** What becomes of one cluster's finalizer and timer. `at` is the reading the new deadlines
      count from; the due-or-not decision reads the clock somewhere in `t0..t1`. */
  predicate ClusterStep(labels: Labels, before: Annotations, after: Annotations, c: Cluster,
                        at: Instant, t0: Instant, t1: Instant) {
    if Active(labels, before, c) then
      Lookup(after, SoftFinalizer(c)) == Some(GlbcMigration) && DeleteAt(c) !in after
    else if Deletion(c) !in before || SoftFinalizer(c) !in before then
      SameTimer(before, after, c)
    else if DeleteAt(c) !in before then
      Lookup(after, SoftFinalizer(c)) == Lookup(before, SoftFinalizer(c)) &&
      Lookup(after, DeleteAt(c)) == Some(WriteSecond(Unix(at) + 2 * TTL))
    else
      var deadline := ReadSecond(before[DeleteAt(c)]);
      || (deadline.value <= Unix(t1) && NoTimer(after, c))
      || (Unix(t0) < deadline.value && deadline.ok && SameTimer(before, after, c))
      || (Unix(t0) < deadline.value && !deadline.ok && DeleteAt(c) !in after &&
          Lookup(after, SoftFinalizer(c)) == Lookup(before, SoftFinalizer(c)))
  }

  /** A whole `Migrate` call between the clock values `t0` and `t1`. */
  ghost predicate Migrated(labels: Labels, before: Annotations, after: Annotations,
                           at: Instant, t0: Instant, t1: Instant) {
    t0 <= at <= t1 &&
    (forall c: Cluster :: ClusterStep(labels, before, after, c, at, t0, t1)) &&
    OnlyTimers(before, after)
  }

  /** `time.Duration(queueFor) * time.Second` holds about 292 years. */
  const LONGEST_DELAY := 9_223_372_036

  /** `q` wakes the object up no earlier than the deadline, and later by no more than the call took. */
  predicate Wakes(q: Delayed, key: string, deadline: int, t0: Instant, t1: Instant) {
    var took := Unix(t1) - Unix(t0);
    q.key == key && deadline <= Unix(q.due) && (took <= LONGEST_DELAY ==> Unix(q.due) <= deadline + took)
  }

  ghost predicate WokenFor(annotations: Annotations, c: Cluster, key: string, requests: seq<Delayed>, t0: Instant,
                           t1: Instant)
    requires DeleteAt(c) in annotations
  {
    exists q :: q in requests && Wakes(q, key, Deadline(annotations, c), t0, t1)
  }

  /** Every pending finalizer has its wake-up among the `requests` made in `t0..t1`. */
  ghost predicate Awaited(annotations: Annotations, key: string, requests: seq<Delayed>, t0: Instant, t1: Instant) {
    forall c: Cluster :: Pending(annotations, c) && Deadline(annotations, c) - Unix(t0) <= LONGEST_DELAY ==>
      WokenFor(annotations, c, key, requests, t0, t1)
  }

  /** No cluster that is being left holds a finalizer: there is nothing to wait for. */
  ghost predicate NoneLeaving(annotations: Annotations) {
    forall c: Cluster :: Deletion(c) in annotations ==> SoftFinalizer(c) !in annotations
  }

  lemma StillNoneLeaving(labels: Labels, before: Annotations, ensured: Annotations)
    requires NoneLeaving(before) && OnlyTimers(before, ensured)
    requires forall c: Cluster :: Ensured(labels, before, ensured, c)
    ensures NoneLeaving(ensured)
  {
    forall c: Cluster | Deletion(c) in ensured
      ensures SoftFinalizer(c) !in ensured
    {
      assert Lookup(ensured, Deletion(c)) == Lookup(before, Deletion(c));
      assert Ensured(labels, before, ensured, c);
    }
  }

  method Migrate(obj: ObjectMeta, clock: WallClock, queue: WorkQueue) returns (ghost at: Instant)
    modifies obj`annotations, clock, queue
    ensures Migrated(obj.labels, old(obj.annotations), obj.annotations, at, old(clock.now), clock.now)
    ensures old(queue.delayed) <= queue.delayed
    ensures Awaited(obj.annotations, obj.key, queue.delayed[|old(queue.delayed)|..], old(clock.now), clock.now)
    ensures NoneLeaving(old(obj.annotations)) ==> queue.delayed == old(queue.delayed)
  {
    ghost var before := obj.annotations;
    EnsureSoftFinalizers(obj);
    ghost var ensured, t0 := obj.annotations, clock.now;
    if NoneLeaving(before) {
      StillNoneLeaving(obj.labels, before, ensured);
    }
    at := GracefulRemoveSoftFinalizers(obj, clock, queue);
    PhasesCompose(obj.labels, before, ensured, obj.annotations, at, t0, clock.now);
  }

  /** Activation followed by graceful removal is one `ClusterStep` for every cluster. */
  lemma PhasesCompose(labels: Labels, before: Annotations, ensured: Annotations, after: Annotations,
                      at: Instant, t0: Instant, t1: Instant)
    requires t0 <= at <= t1 && OnlyTimers(before, ensured) && OnlyTimers(ensured, after)
    requires forall c: Cluster :: Ensured(labels, before, ensured, c)
    requires forall c: Cluster :: ClusterStep(map[], ensured, after, c, at, t0, t1)
    ensures Migrated(labels, before, after, at, t0, t1)
  {
    forall c: Cluster
      ensures ClusterStep(labels, before, after, c, at, t0, t1)
    {
      assert Lookup(ensured, Deletion(c)) == Lookup(before, Deletion(c));
      assert Ensured(labels, before, ensured, c);
      assert ClusterStep(map[], ensured, after, c, at, t0, t1);
    }
  }

  /** Nothing but the finalizer and the timer of cluster `c` may differ. */
  ghost predicate OnlyCluster(before: Annotations, after: Annotations, c: Cluster) {
    forall k: AnnotationKey :: k != SoftFinalizer(c) && k != DeleteAt(c) ==> Lookup(after, k) == Lookup(before, k)
  }

  /** Nothing but finalizers and timers may differ. */
  ghost predicate OnlyTimers(before: Annotations, after: Annotations) {
    forall k: AnnotationKey :: !k.SoftFinalizer? && !k.DeleteAt? ==> Lookup(after, k) == Lookup(before, k)
  }

  predicate Ensured(labels: Labels, before: Annotations, after: Annotations, c: Cluster) {
    if Active(labels, before, c)
    then Lookup(after, SoftFinalizer(c)) == Some(GlbcMigration) && DeleteAt(c) !in after
    else SameTimer(before, after, c)
  }

  method EnsureSoftFinalizers(obj: ObjectMeta)
    modifies obj`annotations
    ensures forall c: Cluster :: Ensured(obj.labels, old(obj.annotations), obj.annotations, c)
    ensures OnlyTimers(old(obj.annotations), obj.annotations)
  {
    ghost var before := obj.annotations;
    var todo := SyncTargets(obj.labels);
    while todo != {}
      invariant OnlyTimers(before, obj.annotations)
      invariant forall c :: c in todo ==> SyncTarget(c) in obj.labels && SameTimer(before, obj.annotations, c)
      invariant forall c: Cluster :: c !in todo ==> Ensured(obj.labels, before, obj.annotations, c)
      decreases |todo|
    {
      var c :| c in todo;
      todo := todo - {c};
      ghost var earlier := obj.annotations;
      EnsureOne(obj, c);
      EnsureCarries(obj.labels, before, earlier, obj.annotations, c);
    }
  }

  /** One iteration of the activation loop: finalizer on and timer off, unless `c` is deleting. */
  method EnsureOne(obj: ObjectMeta, c: Cluster)
    modifies obj`annotations
    ensures OnlyCluster(old(obj.annotations), obj.annotations, c)
    ensures if Deletion(c) in old(obj.annotations) then obj.annotations == old(obj.annotations)
      else Lookup(obj.annotations, SoftFinalizer(c)) == Some(GlbcMigration) && DeleteAt(c) !in obj.annotations
  {
    if !obj.HasAnnotation(Deletion(c)) {
      obj.AddAnnotation(SoftFinalizer(c), GlbcMigration);
      obj.RemoveAnnotation(DeleteAt(c));
    }
  }

  /** The other clusters keep finalizer, timer and deletion mark while `c` is processed. */
  lemma Untouched(before: Annotations, after: Annotations, c: Cluster, d: Cluster)
    requires OnlyCluster(before, after, c) && d != c
    ensures SameTimer(before, after, d)
    ensures SoftFinalizer(d) in after <==> SoftFinalizer(d) in before
    ensures DeleteAt(d) in after <==> DeleteAt(d) in before
    ensures Deletion(d) in after <==> Deletion(d) in before
  {
    assert Lookup(after, SoftFinalizer(d)) == Lookup(before, SoftFinalizer(d));
    assert Lookup(after, DeleteAt(d)) == Lookup(before, DeleteAt(d));
    assert Lookup(after, Deletion(d)) == Lookup(before, Deletion(d));
  }

  lemma EnsureCarries(labels: Labels, before: Annotations, earlier: Annotations, after: Annotations, c: Cluster)
    requires OnlyTimers(before, earlier) && SameTimer(before, earlier, c)
    requires SyncTarget(c) in labels && OnlyCluster(earlier, after, c)
    requires if Deletion(c) in earlier then after == earlier
      else Lookup(after, SoftFinalizer(c)) == Some(GlbcMigration) && DeleteAt(c) !in after
    ensures OnlyTimers(before, after) && Ensured(labels, before, after, c)
    ensures forall d: Cluster :: d != c && Ensured(labels, before, earlier, d) ==> Ensured(labels, before, after, d)
    ensures forall d: Cluster :: d != c && SameTimer(before, earlier, d) ==> SameTimer(before, after, d)
  {
    assert Lookup(earlier, Deletion(c)) == Lookup(before, Deletion(c));
    forall d: Cluster | d != c
      ensures Ensured(labels, before, earlier, d) ==> Ensured(labels, before, after, d)
      ensures SameTimer(before, earlier, d) ==> SameTimer(before, after, d)
    {
      Untouched(earlier, after, c, d);
    }
  }

  method GracefulRemoveSoftFinalizers(obj: ObjectMeta, clock: WallClock, queue: WorkQueue) returns (ghost at: Instant)
    modifies obj`annotations, clock, queue
    ensures old(clock.now) <= at <= clock.now
    ensures forall c: Cluster ::
      ClusterStep(map[], old(obj.annotations), obj.annotations, c, at, old(clock.now), clock.now)
    ensures OnlyTimers(old(obj.annotations), obj.annotations)
    ensures old(queue.delayed) <= queue.delayed
    ensures Awaited(obj.annotations, obj.key, queue.delayed[|old(queue.delayed)|..], old(clock.now), clock.now)
    ensures NoneLeaving(old(obj.annotations)) ==> queue.delayed == old(queue.delayed)
  {
    ghost var t0, before, queued := clock.now, obj.annotations, |queue.delayed|;
    var start := clock.Now();
    at := start;
    var todo := SoftFinalized(obj.annotations);
    while todo != {}
      invariant t0 <= at <= clock.now
      invariant OnlyTimers(before, obj.annotations)
      invariant forall c :: c in todo ==> SoftFinalizer(c) in before && SameTimer(before, obj.annotations, c)
      invariant forall c: Cluster :: c !in todo ==> ClusterStep(map[], before, obj.annotations, c, at, t0, clock.now)
      invariant old(queue.delayed) <= queue.delayed
      invariant AwaitedExcept(todo, obj.annotations, obj.key, queue.delayed[queued..], t0, clock.now)
      invariant NoneLeaving(before) ==> queue.delayed == old(queue.delayed)
      decreases |todo|
    {
      var c :| c in todo;
      todo := todo - {c};
      ghost var earlier, asked, t := obj.annotations, queue.delayed[queued..], clock.now;
      assert Lookup(obj.annotations, Deletion(c)) == Lookup(before, Deletion(c));
      GracefulRemoveOne(obj, clock, queue, c, start, t0);
      assert asked <= queue.delayed[queued..];
      StepCarries(before, earlier, obj.annotations, c, at, t0, t, clock.now);
      AwaitedCarries(todo, c, earlier, obj.annotations, obj.key, asked, queue.delayed[queued..], t0, t, clock.now);
    }
  }

  ghost predicate AwaitedExcept(todo: set<Cluster>, annotations: Annotations, key: string, requests: seq<Delayed>,
                                t0: Instant, t1: Instant) {
    forall c: Cluster ::
      c !in todo && Pending(annotations, c) && Deadline(annotations, c) - Unix(t0) <= LONGEST_DELAY ==>
        WokenFor(annotations, c, key, requests, t0, t1)
  }

  /** What was true of the other clusters stays true while `c` is processed. */
  lemma StepCarries(before: Annotations, earlier: Annotations, after: Annotations, c: Cluster,
                    at: Instant, t0: Instant, t: Instant, t1: Instant)
    requires OnlyCluster(earlier, after, c) && SameTimer(before, earlier, c)
    requires t <= t1 && OnlyTimers(before, earlier)
    requires ClusterStep(map[], earlier, after, c, at, t0, t1)
    ensures OnlyTimers(before, after)
    ensures ClusterStep(map[], before, after, c, at, t0, t1)
    ensures forall d: Cluster :: d != c && SameTimer(before, earlier, d) ==> SameTimer(before, after, d)
    ensures forall d: Cluster :: d != c && ClusterStep(map[], before, earlier, d, at, t0, t) ==>
      ClusterStep(map[], before, after, d, at, t0, t1)
  {
    UnixMonotone(t, t1);
    assert Lookup(earlier, Deletion(c)) == Lookup(before, Deletion(c));
    assert Lookup(earlier, SoftFinalizer(c)) == Lookup(before, SoftFinalizer(c));
    assert Lookup(earlier, DeleteAt(c)) == Lookup(before, DeleteAt(c));
    forall d: Cluster | d != c
      ensures SameTimer(before, earlier, d) ==> SameTimer(before, after, d)
      ensures ClusterStep(map[], before, earlier, d, at, t0, t) ==> ClusterStep(map[], before, after, d, at, t0, t1)
    {
      Untouched(earlier, after, c, d);
    }
  }

  lemma WokenStill(annotations: Annotations, later: Annotations, d: Cluster, key: string, asked: seq<Delayed>,
                   requests: seq<Delayed>, t0: Instant, t: Instant, t1: Instant)
    requires DeleteAt(d) in annotations && DeleteAt(d) in later && later[DeleteAt(d)] == annotations[DeleteAt(d)]
    requires asked <= requests && t <= t1 && WokenFor(annotations, d, key, asked, t0, t)
    ensures WokenFor(later, d, key, requests, t0, t1)
  {
    var q :| q in asked && Wakes(q, key, Deadline(annotations, d), t0, t);
    UnixMonotone(t, t1);
    assert q in requests && Wakes(q, key, Deadline(later, d), t0, t1);
  }

  lemma AwaitedCarries(todo: set<Cluster>, c: Cluster, earlier: Annotations, after: Annotations, key: string,
                       asked: seq<Delayed>, requests: seq<Delayed>, t0: Instant, t: Instant, t1: Instant)
    requires AwaitedExcept(todo + {c}, earlier, key, asked, t0, t)
    requires asked <= requests && t <= t1 && OnlyCluster(earlier, after, c)
    requires Pending(after, c) && Deadline(after, c) - Unix(t0) <= LONGEST_DELAY ==>
      WokenFor(after, c, key, requests, t0, t1)
    ensures AwaitedExcept(todo, after, key, requests, t0, t1)
  {
    forall d: Cluster | d !in todo && d != c && Pending(after, d) && Deadline(after, d) - Unix(t0) <= LONGEST_DELAY
      ensures WokenFor(after, d, key, requests, t0, t1)
    {
      Untouched(earlier, after, c, d);
      WokenStill(earlier, after, d, key, asked, requests, t0, t, t1);
    }
  }

  /** One iteration of the removal loop. */
  method GracefulRemoveOne(obj: ObjectMeta, clock: WallClock, queue: WorkQueue, c: Cluster, at: Instant,
                           ghost t0: Instant)
    requires SoftFinalizer(c) in obj.annotations
    requires t0 <= at <= clock.now
    modifies obj`annotations, clock, queue
    ensures old(clock.now) <= clock.now
    ensures ClusterStep(map[], old(obj.annotations), obj.annotations, c, at, t0, clock.now)
    ensures OnlyCluster(old(obj.annotations), obj.annotations, c)
    ensures old(queue.delayed) <= queue.delayed
    ensures Deletion(c) !in old(obj.annotations) ==> queue.delayed == old(queue.delayed)
    ensures Pending(obj.annotations, c) && Deadline(obj.annotations, c) - Unix(t0) <= LONGEST_DELAY ==>
      |queue.delayed| > |old(queue.delayed)| &&
      Wakes(queue.delayed[|queue.delayed| - 1], obj.key, Deadline(obj.annotations, c), t0, clock.now)
  {
    if !obj.HasAnnotation(Deletion(c)) {
      return;
    }
    if !obj.HasAnnotation(DeleteAt(c)) {
      obj.AddAnnotation(DeleteAt(c), WriteSecond(Unix(at) + TTL * 2));
      queue.AddAfter(clock, obj.key, TTL * 2);
      FormatThenAtoi(Unix(at) + 2 * TTL);
      UnixShift(clock.now, 2 * TTL);
      UnixMonotone(at, clock.now);
    } else {
      CheckDeadline(obj, clock, queue, c, t0);
    }
  }

  /** The branch of the removal loop that finds a delete-at annotation. */
  method CheckDeadline(obj: ObjectMeta, clock: WallClock, queue: WorkQueue, c: Cluster, ghost t0: Instant)
    requires Pending(obj.annotations, c) && t0 <= clock.now
    modifies obj`annotations, clock, queue
    ensures old(clock.now) <= clock.now
    ensures OnlyCluster(old(obj.annotations), obj.annotations, c)
    ensures var deadline := ReadSecond(old(obj.annotations)[DeleteAt(c)]);
      || (deadline.value <= Unix(clock.now) && NoTimer(obj.annotations, c))
      || (Unix(t0) < deadline.value &&
          Lookup(obj.annotations, SoftFinalizer(c)) == Lookup(old(obj.annotations), SoftFinalizer(c)) &&
          Lookup(obj.annotations, DeleteAt(c)) ==
            if deadline.ok then Lookup(old(obj.annotations), DeleteAt(c)) else None)
    ensures old(queue.delayed) <= queue.delayed
    ensures var deadline := ReadSecond(old(obj.annotations)[DeleteAt(c)]).value;
      DeleteAt(c) in obj.annotations && deadline - Unix(t0) <= LONGEST_DELAY ==>
      |queue.delayed| > |old(queue.delayed)| &&
        Wakes(queue.delayed[|queue.delayed| - 1], obj.key, deadline, t0, clock.now)
  {
    var deadline := ReadSecond(obj.annotations[DeleteAt(c)]);
    if !deadline.ok {
      obj.RemoveAnnotation(DeleteAt(c));
    }
    var now := clock.Now();
    UnixMonotone(t0, now);
    if deadline.value <= Unix(now) {
      obj.RemoveAnnotation(SoftFinalizer(c));
      obj.RemoveAnnotation(DeleteAt(c));
      UnixMonotone(now, clock.now);
    } else {
      var later := clock.Now();
      UnixMonotone(now, later);
      var queueFor := deadline.value - Unix(later);
      queue.AddAfter(clock, obj.key, queueFor);
      UnixShift(clock.now, queueFor);
      UnixMonotone(later, clock.now);
    }
  }
}
