/** The custom host of a route (`Route.ProcessCustomHosts` in pkg/traffic/route.go). */
module RouteHosts {
  import opened Wrappers
  import opened Domains

  datatype Failure = GeneratedHostMissing | ShadowNotDeleted | ShadowNotWritten

  /** The parts of a Route that the pass reads and writes, and the host of its shadow route. */
  datatype Route = Route(
    host: string, pending: Option<string>, pendingLabel: bool, isShadow: bool, shadowFinalizer: bool,
    shadow: Option<string>)

  function PendingHost(r: Route): string {
    if r.pending.Some? then r.pending.value else ""
  }

  /** The host the user asked for. */
  function UserHost(r: Route, generatedHost: string): string {
    if r.host == generatedHost && PendingHost(r) != "" then PendingHost(r) else r.host
  }

  class RouteObject {
    var host: string
    var pending: Option<string>
    var pendingLabel: bool
    const isShadow: bool
    const deleting: bool
    var shadowFinalizer: bool
    var generatedHost: string
    /** The host of the shadow route in the API server. */
    var shadow: Option<string>

    constructor (r: Route, generatedHost: string, deleting: bool)
      ensures Value() == r && this.generatedHost == generatedHost && this.deleting == deleting
    {
      host, pending, pendingLabel, isShadow := r.host, r.pending, r.pendingLabel, r.isShadow;
      shadowFinalizer, shadow := r.shadowFinalizer, r.shadow;
      this.generatedHost, this.deleting := generatedHost, deleting;
    }

    function Value(): Route
      reads this
    {
      Route(host, pending, pendingLabel, isShadow, shadowFinalizer, shadow)
    }

    method ProcessCustomHosts(dvs: seq<Verification>, createOrUpdateFails: bool, deleteFails: bool)
      returns (failure: Option<Failure>)
      modifies `host, `pending, `pendingLabel, `shadowFinalizer, `shadow
      ensures failure == FailureOf(old(Value()), generatedHost, dvs, deleting, createOrUpdateFails, deleteFails)
      ensures failure == None ==> Value() == Processed(old(Value()), generatedHost, dvs, deleting)
    {
      if generatedHost == "" && !deleting {
        return Some(GeneratedHostMissing);
      }
      if isShadow {
        host := generatedHost;
        return None;
      }
      if deleting {
        if deleteFails {
          return Some(ShadowNotDeleted);
        }
        shadow := None;
        shadowFinalizer := false;
      }
      if host == generatedHost && pending.Some? && pending.value != "" {
        host := pending.value;
      }
      var verified := IsDomainVerified(host, dvs) || host == "";
      if !verified {
        pending := Some(host);
        pendingLabel := true;
        host := generatedHost;
      } else {
        if createOrUpdateFails {
          return Some(ShadowNotWritten);
        }
        shadow := Some(generatedHost);
        shadowFinalizer := true;
        pendingLabel := false;
        pending := None;
      }
      return None;
    }
  }

  /** The first thing that goes wrong in a pass. */
  function FailureOf(r: Route, generatedHost: string, dvs: seq<Verification>, deleting: bool,
                     createOrUpdateFails: bool, deleteFails: bool): Option<Failure> {
    if generatedHost == "" && !deleting then Some(GeneratedHostMissing)
    else if r.isShadow then None
    else if deleting && deleteFails then Some(ShadowNotDeleted)
    else if createOrUpdateFails && MayServe(UserHost(r, generatedHost), dvs) then Some(ShadowNotWritten)
    else None
  }

  /** The pass as a value, for a pass that fails nowhere. */
  function Processed(r: Route, generatedHost: string, dvs: seq<Verification>, deleting: bool): Route {
    var user, base := UserHost(r, generatedHost), if deleting then r.(shadow := None, shadowFinalizer := false) else r;
    if r.isShadow then r.(host := generatedHost)
    else if MayServe(user, dvs) then base.(host := user, pending := None, pendingLabel := false,
                                           shadow := Some(generatedHost), shadowFinalizer := true)
    else base.(host := generatedHost, pending := Some(user), pendingLabel := true)
  }

  /** The processed host is one that may be served; the route is pending exactly when the user's
      host may not be; and doing it again changes nothing. */
  lemma PassSafe(r: Route, generatedHost: string, dvs: seq<Verification>, deleting: bool)
    requires !r.isShadow
    ensures var after := Processed(r, generatedHost, dvs, deleting);
      (after.host == generatedHost || Covered(after.host, dvs)) &&
      UserHost(after, generatedHost) == UserHost(r, generatedHost) &&
      (after.pendingLabel <==> after.pending.Some?) &&
      (after.pending.Some? <==> !Covered(UserHost(r, generatedHost), dvs)) &&
      Processed(after, generatedHost, dvs, deleting) == after
  {
    ServedIsCovered(UserHost(r, generatedHost), dvs);
  }

  /** A deleted route gets rid of its shadow and the finalizer that guards it exactly when its host
      may not be served; otherwise the same pass writes both back, every time. */
  lemma DeletionEnds(r: Route, generatedHost: string, dvs: seq<Verification>)
    requires !r.isShadow
    ensures var after := Processed(r, generatedHost, dvs, true);
      (after.shadow == None && !after.shadowFinalizer <==> !Covered(UserHost(r, generatedHost), dvs)) &&
      (Covered(UserHost(r, generatedHost), dvs) ==> Processed(after, generatedHost, dvs, true).shadowFinalizer)
  {
    PassSafe(r, generatedHost, dvs, true);
  }

  /** For instance a deleted route whose host is verified; the managed host is no longer set then. */
  lemma DeletionStuck() returns (r: Route, dvs: seq<Verification>)
    ensures !r.isShadow && r.shadowFinalizer && r.shadow.Some? && Processed(r, "", dvs, true) == r
  {
    r, dvs := Route("a", None, false, false, true, Some("")), [Verification("a", true)];
    assert dvs[0].domain == "a" && dvs[0].verified;
    assert IsDomainVerified("a", dvs);
  }

  // ---------- runs ----------

  /** One pass over a living route: the verifications it sees, and whether scheduling is advanced. */
  datatype Pass = Pass(dvs: seq<Verification>, tmc: bool)

  /** What the API server keeps: under advanced scheduling the spec the user wrote. */
  function Stored(r: Route, generatedHost: string, pass: Pass): Route {
    var after := Processed(r, generatedHost, pass.dvs, false);
    if pass.tmc then after.(host := r.host) else after
  }

  function After(r: Route, generatedHost: string, passes: seq<Pass>): (after: Route)
    ensures after.isShadow == r.isShadow
  {
    if passes == [] then r
    else Stored(After(r, generatedHost, passes[..|passes| - 1]), generatedHost, passes[|passes| - 1])
  }

  /** Whatever becomes verified and unverified over time, outside advanced scheduling the user's
      host is never lost, and only the last list decides about serving it. */
  lemma {:induction false} HostSurvives(r: Route, generatedHost: string, passes: seq<Pass>)
    requires !r.isShadow && passes != [] && forall k :: 0 <= k < |passes| ==> !passes[k].tmc
    ensures var after, user, dvs :=
      After(r, generatedHost, passes), UserHost(r, generatedHost), passes[|passes| - 1].dvs;
      UserHost(after, generatedHost) == user &&
      after.host == (if Covered(user, dvs) then user else generatedHost) &&
      (after.pendingLabel <==> !Covered(user, dvs))
  {
    var n := |passes| - 1;
    if n > 0 {
      HostSurvives(r, generatedHost, passes[..n]);
    } else {
      assert After(r, generatedHost, passes[..0]) == r;
    }
    PassSafe(After(r, generatedHost, passes[..n]), generatedHost, passes[n].dvs, false);
  }

  /** A living route keeps its shadow, and gets one as soon as its host may be served. */
  lemma ShadowStays(r: Route, generatedHost: string, pass: Pass)
    requires !r.isShadow
    ensures var after := Stored(r, generatedHost, pass);
      if Covered(UserHost(r, generatedHost), pass.dvs) then after.shadow == Some(generatedHost) && after.shadowFinalizer
      else after.shadow == r.shadow && after.shadowFinalizer == r.shadowFinalizer
  {
    ServedIsCovered(UserHost(r, generatedHost), pass.dvs);
  }

  /** Only the pending annotation knew the user's host, and this pass finds it verified. */
  predicate Loses(r: Route, generatedHost: string, pass: Pass) {
    pass.tmc && r.host == generatedHost && PendingHost(r) != "" && PendingHost(r) != generatedHost &&
    Covered(PendingHost(r), pass.dvs)
  }

  /** Under advanced scheduling the stored spec is put back, and with it a host may be lost. */
  lemma KeptUnderScheduling(r: Route, generatedHost: string, pass: Pass)
    requires !r.isShadow
    ensures UserHost(Stored(r, generatedHost, pass), generatedHost) == UserHost(r, generatedHost) <==>
      !Loses(r, generatedHost, pass)
    ensures Loses(r, generatedHost, pass) ==> UserHost(Stored(r, generatedHost, pass), generatedHost) == generatedHost
  {
    ServedIsCovered(UserHost(r, generatedHost), pass.dvs);
    ServedIsCovered(PendingHost(r), pass.dvs);
  }

  predicate NeverLoses(r: Route, generatedHost: string, passes: seq<Pass>) {
    forall k :: 0 <= k < |passes| ==> !Loses(After(r, generatedHost, passes[..k]), generatedHost, passes[k])
  }

  lemma NeverLosesMore(r: Route, generatedHost: string, front: seq<Pass>, pass: Pass)
    ensures NeverLoses(r, generatedHost, front + [pass]) <==>
      NeverLoses(r, generatedHost, front) && !Loses(After(r, generatedHost, front), generatedHost, pass)
  {
    var passes := front + [pass];
    assert forall k :: 0 <= k < |front| ==> front[..k] == passes[..k] && front[k] == passes[k];
    assert passes[..|front|] == front && passes[|front|] == pass;
  }

  /** Over any mixture of scheduling modes the user's host is kept if and only if no pass loses it;
      once lost, only the generated host remains. */
  lemma {:induction false} RunKeepsHost(r: Route, generatedHost: string, passes: seq<Pass>)
    requires !r.isShadow
    ensures var user := UserHost(After(r, generatedHost, passes), generatedHost);
      (user == UserHost(r, generatedHost) <==> NeverLoses(r, generatedHost, passes)) &&
      (user == UserHost(r, generatedHost) || user == generatedHost)
  {
    if passes != [] {
      var n := |passes| - 1;
      var front := passes[..n];
      assert passes == front + [passes[n]];
      RunKeepsHost(r, generatedHost, front);
      KeptUnderScheduling(After(r, generatedHost, front), generatedHost, passes[n]);
      NeverLosesMore(r, generatedHost, front, passes[n]);
    }
  }

  /** For instance a route that waited for "a" outside advanced scheduling. */
  lemma HostLost() returns (r: Route, pass: Pass)
    ensures !r.isShadow && UserHost(r, "g") == "a" && UserHost(Stored(r, "g", pass), "g") == "g"
  {
    r, pass := Route("g", Some("a"), true, false, false, None), Pass([Verification("a", true)], true);
    assert pass.dvs[0].domain == "a" && pass.dvs[0].verified;
    assert IsDomainVerified("a", pass.dvs);
  }
}
