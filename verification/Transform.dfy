/** Shipping a reconciled ingress as patches per cluster (`Ingress.Transform` in
    pkg/traffic/ingress.go and `applyTransformPatches` in pkg/traffic/traffic.go). */
module Transform {
  import opened Wrappers
  import opened Metadata
  import opened Domains
  import opened CustomHosts
  import opened HostRuns

  datatype Tls = Tls(hosts: seq<string>, secretName: string)

  /** A Go slice that can be nil; the fields that no patch touches are `rest`. */
  datatype Spec = Spec(rules: Option<seq<Rule>>, tls: Option<seq<Tls>>, rest: string)

  function Items<T>(slice: Option<seq<T>>): seq<T> {
    if slice.Some? then slice.value else []
  }

  datatype Patch = ReplaceRules(rules: seq<Rule>) | ReplaceTls(tls: seq<Tls>)

  /** An annotation's value: a list of patches, or anything else. */
  datatype Note = Diff(patches: seq<Patch>) | Plain(value: AnnotationValue)

  type Notes = map<AnnotationKey, Note>

  // ---------- the patches ----------

  /** A nil slice gives no patch, and neither does one equal to the old one; nil equals empty. */
  function RulesPatch(before: Spec, after: Spec): seq<Patch> {
    if after.rules.Some? && Items(after.rules) != Items(before.rules) then [ReplaceRules(after.rules.value)] else []
  }

  function TlsPatch(before: Spec, after: Spec): seq<Patch> {
    if after.tls.Some? && Items(after.tls) != Items(before.tls) then [ReplaceTls(after.tls.value)] else []
  }

  function Patches(before: Spec, after: Spec): seq<Patch> {
    RulesPatch(before, after) + TlsPatch(before, after)
  }

  function ApplyOne(spec: Spec, p: Patch): Spec {
    match p
    case ReplaceRules(rules) => spec.(rules := Some(rules))
    case ReplaceTls(tls) => spec.(tls := Some(tls))
  }

  function Apply(spec: Spec, ps: seq<Patch>): Spec {
    if ps == [] then spec else ApplyOne(Apply(spec, ps[..|ps| - 1]), ps[|ps| - 1])
  }

  /** The diffs are those of this transform, for exactly the current sync targets; every other
      annotation is as before. */
  ghost predicate Annotated(before: Notes, labels: Labels, patches: seq<Patch>, after: Notes) {
    forall k: AnnotationKey ::
      Lookup(after, k) ==
        if !k.SpecDiff? then Lookup(before, k)
        else if patches != [] && SyncTarget(k.cluster) in labels then Some(Diff(patches))
        else None
  }

  class IngressObject {
    var labels: Labels
    var notes: Notes
    var spec: Spec
    const tmcEnabled: bool

    constructor (labels: Labels, notes: Notes, spec: Spec, tmcEnabled: bool)
      ensures this.labels == labels && this.notes == notes && this.spec == spec && this.tmcEnabled == tmcEnabled
    {
      this.labels, this.notes, this.spec, this.tmcEnabled := labels, notes, spec, tmcEnabled;
    }

    method Transform(before: Spec)
      modifies `notes, `spec
      ensures Annotated(old(notes), labels, Patches(before, old(spec)), notes)
      ensures spec == if tmcEnabled then before else old(spec)
    {
      var patches := [];
      if spec.rules.Some? && Items(spec.rules) != Items(before.rules) {
        patches := patches + [ReplaceRules(spec.rules.value)];
      }
      if spec.tls.Some? && Items(spec.tls) != Items(before.tls) {
        patches := patches + [ReplaceTls(spec.tls.value)];
      }
      assert patches == Patches(before, spec);
      ApplyTransformPatches(patches);
      if tmcEnabled {
        spec := before;
      }
    }

    method ApplyTransformPatches(patches: seq<Patch>)
      modifies `notes
      ensures Annotated(old(notes), labels, patches, notes)
    {
      ResetDiffs();
      if |patches| != 0 {
        AddDiffs(patches);
      }
    }

    method ResetDiffs()
      modifies `notes
      ensures forall k: AnnotationKey :: Lookup(notes, k) == if k.SpecDiff? then None else Lookup(old(notes), k)
    {
      var existing := set k | k in notes && k.SpecDiff?;
      while existing != {}
        invariant forall k: AnnotationKey :: k in existing ==> k.SpecDiff?
        invariant forall k: AnnotationKey ::
          Lookup(notes, k) == if k.SpecDiff? && k !in existing then None else Lookup(old(notes), k)
        decreases |existing|
      {
        var k :| k in existing;
        notes := notes - {k};
        existing := existing - {k};
      }
    }

    method AddDiffs(patches: seq<Patch>)
      modifies `notes
      ensures forall k: AnnotationKey ::
        Lookup(notes, k) ==
          if k.SpecDiff? && SyncTarget(k.cluster) in labels then Some(Diff(patches)) else Lookup(old(notes), k)
    {
      var todo := SyncTargets(labels);
      ghost var targets := todo;
      while todo != {}
        invariant todo <= targets
        invariant forall k: AnnotationKey ::
          Lookup(notes, k) ==
            if k.SpecDiff? && k.cluster in targets - todo then Some(Diff(patches)) else Lookup(old(notes), k)
        decreases |todo|
      {
        var c :| c in todo;
        notes := notes[SpecDiff(c) := Diff(patches)];
        todo := todo - {c};
      }
    }
  }

  // ---------- what the syncer makes of it ----------

  /** Applying the patches to the old spec gives the reconciled rules and TLS, except where these
      are nil and the old ones were not empty: then the old ones stay. */
  lemma RoundTrip(before: Spec, after: Spec)
    ensures var applied := Apply(before, Patches(before, after));
      applied.rest == before.rest &&
      Items(applied.rules) == (if after.rules.Some? then after.rules.value else Items(before.rules)) &&
      Items(applied.tls) == (if after.tls.Some? then after.tls.value else Items(before.tls)) &&
      (Items(applied.rules) == Items(after.rules) <==> after.rules.Some? || Items(before.rules) == []) &&
      (Items(applied.tls) == Items(after.tls) <==> after.tls.Some? || Items(before.tls) == [])
  {
    var rules, tls := RulesPatch(before, after), TlsPatch(before, after);
    ApplyConcat(before, rules, tls);
    OnePatch(before, rules);
    OnePatch(Apply(before, rules), tls);
  }

  lemma OnePatch(spec: Spec, ps: seq<Patch>)
    requires |ps| <= 1
    ensures Apply(spec, ps) == if ps == [] then spec else ApplyOne(spec, ps[0])
  {
    if ps != [] {
      assert ps[..0] == [];
    }
  }

  lemma {:induction false} ApplyConcat(spec: Spec, a: seq<Patch>, b: seq<Patch>)
    ensures Apply(spec, a + b) == Apply(Apply(spec, a), b)
  {
    if b == [] {
      assert a + b == a;
    } else {
      assert (a + b)[..|a + b| - 1] == a + b[..|b| - 1];
      ApplyConcat(spec, a, b[..|b| - 1]);
    }
  }

  /** The spec a cluster runs: the stored one with the patches noted for it. */
  function Effective(stored: Spec, notes: Notes, cluster: Cluster): Spec {
    if SpecDiff(cluster) in notes && notes[SpecDiff(cluster)].Diff? then Apply(stored, notes[SpecDiff(cluster)].patches)
    else stored
  }

  lemma EffectiveOnTarget(stored: Spec, labels: Labels, notes: Notes, patches: seq<Patch>, noted: Notes,
                          cluster: Cluster)
    requires Annotated(notes, labels, patches, noted) && SyncTarget(cluster) in labels
    ensures Effective(stored, noted, cluster) == Apply(stored, patches)
  {
    assert Lookup(noted, SpecDiff(cluster)) == if patches == [] then None else Some(Diff(patches));
  }

  lemma SelfApplied(before: Spec, after: Spec)
    ensures var applied := Apply(after, Patches(before, after));
      Items(applied.rules) == Items(after.rules) && Items(applied.tls) == Items(after.tls)
  {
    var rules, tls := RulesPatch(before, after), TlsPatch(before, after);
    ApplyConcat(after, rules, tls);
    OnePatch(after, rules);
    OnePatch(Apply(after, rules), tls);
  }

  /** On a sync target the same rules take effect, whether the reconciled spec is stored or only
      shipped, if and only if they are not nil or there were none before; likewise for TLS. */
  lemma SameOnTargets(before: Spec, after: Spec, labels: Labels, notes: Notes, noted: Notes, cluster: Cluster)
    requires Annotated(notes, labels, Patches(before, after), noted) && SyncTarget(cluster) in labels
    ensures Items(Effective(after, noted, cluster).rules) == Items(after.rules)
    ensures Items(Effective(after, noted, cluster).tls) == Items(after.tls)
    ensures Items(Effective(before, noted, cluster).rules) == Items(after.rules) <==>
      after.rules.Some? || Items(before.rules) == []
    ensures Items(Effective(before, noted, cluster).tls) == Items(after.tls) <==>
      after.tls.Some? || Items(before.tls) == []
  {
    var patches := Patches(before, after);
    RoundTrip(before, after);
    SelfApplied(before, after);
    EffectiveOnTarget(before, labels, notes, patches, noted, cluster);
    EffectiveOnTarget(after, labels, notes, patches, noted, cluster);
  }

  /** Under advanced scheduling the user's spec is stored untouched, and yet every sync target
      serves only the generated host, the empty host and verified hosts. */
  lemma TargetsServeSafely(h: Hosts, generatedHost: string, dvs: seq<Verification>, tls: Option<seq<Tls>>,
                           newTls: Option<seq<Tls>>, rest: string, labels: Labels, notes: Notes, noted: Notes,
                           cluster: Cluster, r: Rule)
    requires SyncTarget(cluster) in labels
    requires var kept := Processed(h, generatedHost, dvs, true).rules;
      var before, after := Spec(Some(h.rules), tls, rest), Spec(if kept == [] then None else Some(kept), newTls, rest);
      Annotated(notes, labels, Patches(before, after), noted) && r in Items(Effective(before, noted, cluster).rules)
    ensures r.host == generatedHost || Covered(r.host, dvs)
  {
    var kept := Processed(h, generatedHost, dvs, true).rules;
    var before, after := Spec(Some(h.rules), tls, rest), Spec(if kept == [] then None else Some(kept), newTls, rest);
    RoundTrip(before, after);
    EffectiveOnTarget(before, labels, notes, Patches(before, after), noted, cluster);
    OnlySafeHosts(h, generatedHost, dvs, true);
    if kept == [] {
      NothingOwn(h.rules, generatedHost, dvs);
    }
  }

  lemma NothingOwn(rules: seq<Rule>, generatedHost: string, dvs: seq<Verification>)
    requires Kept(Own(rules, generatedHost), generatedHost, dvs) == []
    ensures forall r :: r in rules ==> r.host == generatedHost
  {
    assert Own(rules, generatedHost) == [];
    AllGenerated(rules, generatedHost);
  }

  lemma {:induction false} AllGenerated(rules: seq<Rule>, generatedHost: string)
    requires Own(rules, generatedHost) == []
    ensures forall r :: r in rules ==> r.host == generatedHost
  {
    if rules != [] {
      AllGenerated(rules[..|rules| - 1], generatedHost);
      assert rules == rules[..|rules| - 1] + [rules[|rules| - 1]];
    }
  }
}
