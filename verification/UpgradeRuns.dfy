/** What follows once the managed host of a record from an older release has been lost
    (`DnsReconciler.HostSurvivesUpgrade` says when that happens). */
module UpgradeRuns {
  import opened Wrappers
  import opened Metadata
  import opened DnsReconciler
  import opened IngressController
  import opened MigrationRuns

  /** A reconcile of a living ingress that does not name the host either. */
  predicate Unhelpful(e: Event) {
    e.Reconciled? ==> !e.seen.deleted && GeneratedHost !in e.seen.annotations
  }

  lemma LostStep(w: World, e: Event, w': World)
    requires Next(w, e, w') && w.record.Some? && w.record.value.host == "" && Unhelpful(e)
    ensures w'.record == w.record || w'.record == None
    ensures e.Reconciled? ==> e.verdict == Failed && !e.persisted
  {
    if e.Reconciled? {
      assert Lookup(e.migrated, GeneratedHost) == Lookup(e.seen.annotations, GeneratedHost);
      HostLostStep(e.migrated, e.targets, e.calls, w.record.value, w'.record, e.verdict);
    }
  }

  lemma LostStepAt(ws: seq<World>, es: seq<Event>, n: nat)
    requires Run(ws, es) && n < |es| && Unhelpful(es[n]) && ws[n].record.Some? && ws[n].record.value.host == ""
    ensures ws[n + 1].record == ws[n].record || ws[n + 1].record == None
    ensures es[n].Reconciled? ==> es[n].verdict == Failed && !es[n].persisted
  {
    assert StepAt(ws, es, n);
    LostStep(ws[n], es[n], ws[n + 1]);
  }

  /** Until somebody restores the annotation or deletes one of the objects, every reconcile fails,
      nothing of the ingress is stored any more, and the record stays as it was. */
  lemma {:induction false} HostLostForGood(ws: seq<World>, es: seq<Event>, i: nat, n: nat)
    requires Run(ws, es) && i <= n <= |es| && ws[i].record.Some? && ws[i].record.value.host == ""
    requires (forall m :: i <= m < n ==> Unhelpful(es[m])) && forall m :: i <= m <= n ==> ws[m].record.Some?
    ensures ws[n].record == ws[i].record
    ensures forall m :: i <= m < n && es[m].Reconciled? ==> es[m].verdict == Failed && !es[m].persisted
  {
    if i < n {
      HostLostForGood(ws, es, i, n - 1);
      LostStepAt(ws, es, n - 1);
    }
  }
}
