/** Which routes are re-queued when a domain verification changes
    (`routesFromDomainVerification` in pkg/reconciler/route/controller.go). */
module RouteRequeue {
  import opened Wrappers
  import opened Domains

  /** The characters `strings.TrimSpace` removes. */
  predicate Space(c: char) {
    var n := c as int;
    9 <= n <= 13 || n == 0x20 || n == 0x85 || n == 0xA0 || n == 0x1680 || 0x2000 <= n <= 0x200A ||
    n == 0x2028 || n == 0x2029 || n == 0x202F || n == 0x205F || n == 0x3000
  }

  /** Unicode's White_Space characters, of which U+2000 to U+200A are the typographic ones. */
  lemma SpaceExactly(c: char)
    ensures Space(c) <==>
      c in "\t\n\U{B}\U{C}\r \U{85}\U{A0}\U{1680}" ||
      c in "\U{2000}\U{2001}\U{2002}\U{2003}\U{2004}\U{2005}\U{2006}\U{2007}\U{2008}\U{2009}\U{200A}" ||
      c in "\U{2028}\U{2029}\U{202F}\U{205F}\U{3000}"
  {
  }

  predicate Blank(s: string) {
    forall i :: 0 <= i < |s| ==> Space(s[i])
  }

  function TrimLeft(s: string): string {
    if s != "" && Space(s[0]) then TrimLeft(s[1..]) else s
  }

  function TrimRight(s: string): string {
    if s != "" && Space(s[|s| - 1]) then TrimRight(s[..|s| - 1]) else s
  }

  function Trim(s: string): string {
    TrimRight(TrimLeft(s))
  }

  /** Lower-casing works letter by letter, and neither makes nor removes a dot. */
  ghost predicate KeepsDots(lowerChar: char -> char) {
    forall c: char :: lowerChar(c) == '.' <==> c == '.'
  }

  /** `strings.ToLower`. */
  function Lower(s: string, lowerChar: char -> char): (r: string)
    ensures |r| == |s| && forall i :: 0 <= i < |s| ==> r[i] == lowerChar(s[i])
  {
    seq(|s|, i requires 0 <= i < |s| => lowerChar(s[i]))
  }

  predicate Selected(host: string, domain: string, lowerChar: char -> char) {
    HostMatches(Lower(Trim(host), lowerChar), Lower(Trim(domain), lowerChar))
  }

  // ---------- what trimming does to a name below a domain ----------

  lemma {:induction false} TrimLeftSolid(x: string, rest: string)
    requires rest != "" && !Space(rest[0])
    ensures TrimLeft(x + rest) == TrimLeft(x) + rest
  {
    if x == "" {
      assert x + rest == rest;
    } else {
      assert (x + rest)[1..] == x[1..] + rest;
      if Space(x[0]) {
        TrimLeftSolid(x[1..], rest);
      }
    }
  }

  lemma {:induction false} TrimRightSolid(y: string, rest: string)
    requires !Blank(rest)
    ensures TrimRight(y + rest) == y + TrimRight(rest) && TrimRight(rest) != ""
  {
    var n := |rest| - 1;
    assert (y + rest)[..|y| + n] == y + rest[..n];
    if Space(rest[n]) {
      assert rest == rest[..n] + [rest[n]];
      TrimRightSolid(y, rest[..n]);
    }
  }

  lemma {:induction false} TrimRightBlank(y: string, rest: string)
    requires Blank(rest) && y != "" && !Space(y[|y| - 1])
    ensures TrimRight(y + rest) == y
  {
    if rest == "" {
      assert y + rest == y;
    } else {
      var n := |rest| - 1;
      assert (y + rest)[..|y| + n] == y + rest[..n];
      TrimRightBlank(y, rest[..n]);
    }
  }

  lemma {:induction false} TrimLeftSplit(s: string) returns (blank: string)
    ensures s == blank + TrimLeft(s) && Blank(blank)
    ensures TrimLeft(s) == "" || !Space(TrimLeft(s)[0])
    ensures s != "" && Space(s[0]) ==> blank != ""
  {
    if s != "" && Space(s[0]) {
      blank := TrimLeftSplit(s[1..]);
      blank := [s[0]] + blank;
    } else {
      blank := "";
    }
  }

  lemma TrimmedHost(x: string, domain: string) returns (y: string)
    ensures y != "" && y[|y| - 1] == '.'
    ensures Trim(x + "." + domain) == if Blank(domain) then y else y + TrimRight(domain)
  {
    y := TrimLeft(x) + ".";
    TrimLeftSolid(x, "." + domain);
    assert x + ("." + domain) == x + "." + domain && TrimLeft(x) + ("." + domain) == y + domain;
    if Blank(domain) {
      TrimRightBlank(y, domain);
    } else {
      TrimRightSolid(y, domain);
    }
  }

  lemma LowerConcat(y: string, t: string, lowerChar: char -> char)
    ensures Lower(y + t, lowerChar) == Lower(y, lowerChar) + Lower(t, lowerChar)
  {
  }

  lemma EndsBehindDot(y: string, t: string)
    requires y != ""
    ensures Under(y + t, t) <==> y[|y| - 1] == '.'
  {
    var host, suffix := y + t, "." + t;
    var tail := host[|host| - |suffix|..];
    assert tail == [y[|y| - 1]] + t;
    assert tail[0] == y[|y| - 1] && suffix[0] == '.';
    assert |host| > |t|;
  }

  /** A lower-cased name ends with the lower-cased part behind its dot, and only behind a dot. */
  lemma LowerEnds(y: string, t: string, lowerChar: char -> char)
    requires y != "" && KeepsDots(lowerChar)
    ensures Under(Lower(y + t, lowerChar), Lower(t, lowerChar)) <==> y[|y| - 1] == '.'
  {
    LowerConcat(y, t, lowerChar);
    EndsBehindDot(Lower(y, lowerChar), Lower(t, lowerChar));
  }

  /** The three ways in which trimming cuts into the domain at the end of a host. */
  lemma CutBlank(y: string, domain: string, lowerChar: char -> char)
    requires y != "" && y[|y| - 1] == '.' && KeepsDots(lowerChar) && Blank(domain)
    ensures Under(Lower(y, lowerChar), Lower(Trim(domain), lowerChar))
  {
    BlankTrims(domain);
    assert y + "" == y;
    LowerEnds(y, "", lowerChar);
  }

  lemma CutNothing(y: string, domain: string, lowerChar: char -> char)
    requires y != "" && y[|y| - 1] == '.' && KeepsDots(lowerChar) && !Blank(domain) && !Space(domain[0])
    ensures Under(Lower(y + TrimRight(domain), lowerChar), Lower(Trim(domain), lowerChar))
  {
    LowerEnds(y, TrimRight(domain), lowerChar);
  }

  lemma BlankFront(domain: string) returns (blank: string)
    requires !Blank(domain) && Space(domain[0])
    ensures TrimRight(domain) == blank + Trim(domain) && blank != "" && blank[|blank| - 1] != '.'
  {
    blank := TrimLeftSplit(domain);
    SolidLeft(blank, domain);
    TrimRightSolid(blank, TrimLeft(domain));
    assert Space(blank[|blank| - 1]);
  }

  lemma CutFront(y: string, domain: string, lowerChar: char -> char)
    requires KeepsDots(lowerChar) && !Blank(domain) && Space(domain[0])
    ensures !Under(Lower(y + TrimRight(domain), lowerChar), Lower(Trim(domain), lowerChar))
  {
    var blank := BlankFront(domain);
    var rest := Trim(domain);
    BehindBlank(y, blank, rest, lowerChar);
    Regrouped(y, blank, rest);
  }

  lemma Regrouped(a: string, b: string, c: string)
    ensures a + (b + c) == a + b + c
  {
  }

  lemma BehindBlank(y: string, blank: string, t: string, lowerChar: char -> char)
    requires KeepsDots(lowerChar) && blank != "" && blank[|blank| - 1] != '.'
    ensures !Under(Lower(y + blank + t, lowerChar), Lower(t, lowerChar))
  {
    var front := y + blank;
    assert front[|front| - 1] == blank[|blank| - 1];
    LowerEnds(front, t, lowerChar);
  }

  /** A host that a domain covers is found by the re-queue exactly when it is the domain, or the
      domain is blank, or does not begin with white space. */
  lemma CoveredSelected(host: string, domain: string, lowerChar: char -> char)
    requires Under(host, domain) && KeepsDots(lowerChar)
    ensures Selected(host, domain, lowerChar) <==> host == domain || Blank(domain) || !Space(domain[0])
  {
    WalkIsSubdomain(Lower(Trim(host), lowerChar), Lower(Trim(domain), lowerChar));
    if host != domain {
      var x := host[..|host| - |domain| - 1];
      assert host == x + "." + domain;
      var y := TrimmedHost(x, domain);
      if Blank(domain) {
        CutBlank(y, domain, lowerChar);
      } else if !Space(domain[0]) {
        CutNothing(y, domain, lowerChar);
      } else {
        CutFront(y, domain, lowerChar);
      }
    }
  }

  lemma {:induction false} BlankTrims(s: string)
    requires Blank(s)
    ensures Trim(s) == ""
  {
    if s != "" {
      BlankTrims(s[1..]);
    }
  }

  lemma SolidLeft(blank: string, s: string)
    requires s == blank + TrimLeft(s) && Blank(blank) && !Blank(s)
    ensures !Blank(TrimLeft(s))
  {
  }

  /** Changing one domain's verification can only bring new hosts to light below that domain; each
      of them that has no white space in it is selected. */
  lemma FlipSelects(host: string, domain: string, before: seq<Verification>, after: seq<Verification>,
                    lowerChar: char -> char)
    requires KeepsDots(lowerChar) && forall i :: 0 <= i < |host| ==> !Space(host[i])
    requires forall d :: d != domain && Domains.Lists(after, d) ==> Domains.Lists(before, d)
    requires !IsDomainVerified(host, before) && IsDomainVerified(host, after)
    ensures Selected(host, domain, lowerChar)
  {
    VerifiedIsSubdomain(host, before);
    VerifiedIsSubdomain(host, after);
    var i :| 0 <= i < |after| && after[i].verified && Under(host, after[i].domain);
    assert Domains.Lists(after, after[i].domain);
    assert after[i].domain == domain;
    if domain != "" && host != domain {
      assert domain[0] == host[|host| - |domain|..][0];
    }
    CoveredSelected(host, domain, lowerChar);
  }

  // ---------- the query ----------

  datatype ListedRoute = ListedRoute(key: string, hasPendingLabel: bool, pending: Option<string>)

  predicate Requeued(route: ListedRoute, domain: string, lowerChar: char -> char) {
    route.hasPendingLabel && route.pending.Some? && Selected(route.pending.value, domain, lowerChar)
  }

  function RequeuedAmong(routes: seq<ListedRoute>, domain: string, lowerChar: char -> char): seq<ListedRoute> {
    if routes == [] then []
    else
      var route := routes[|routes| - 1];
      RequeuedAmong(routes[..|routes| - 1], domain, lowerChar) +
        (if Requeued(route, domain, lowerChar) then [route] else [])
  }

  lemma {:induction false} RequeuedMember(routes: seq<ListedRoute>, domain: string, route: ListedRoute,
                                          lowerChar: char -> char)
    ensures route in RequeuedAmong(routes, domain, lowerChar) <==> route in routes && Requeued(route, domain, lowerChar)
  {
    if routes != [] {
      RequeuedMember(routes[..|routes| - 1], domain, route, lowerChar);
      assert routes == routes[..|routes| - 1] + [routes[|routes| - 1]];
    }
  }

  method RoutesFromDomainVerification(routes: seq<ListedRoute>, domain: string, lowerChar: char -> char)
    returns (requeued: seq<ListedRoute>)
    ensures requeued == RequeuedAmong(routes, domain, lowerChar)
  {
    requeued := [];
    var trimmed := Lower(Trim(domain), lowerChar);
    for i := 0 to |routes|
      invariant requeued == RequeuedAmong(routes[..i], domain, lowerChar)
    {
      assert routes[..i + 1][..i] == routes[..i];
      var route := routes[i];
      if !route.hasPendingLabel || route.pending == None {
        continue;
      }
      if !HostMatches(Lower(Trim(route.pending.value), lowerChar), trimmed) {
        continue;
      }
      requeued := requeued + [route];
    }
    assert routes[..|routes|] == routes;
  }

  /** No route that the change frees is forgotten. */
  lemma FreedRoutesRequeued(routes: seq<ListedRoute>, domain: string, before: seq<Verification>,
                            after: seq<Verification>, route: ListedRoute, lowerChar: char -> char)
    requires KeepsDots(lowerChar) && route in routes && route.hasPendingLabel && route.pending.Some?
    requires forall i :: 0 <= i < |route.pending.value| ==> !Space(route.pending.value[i])
    requires forall d :: d != domain && Domains.Lists(after, d) ==> Domains.Lists(before, d)
    requires !IsDomainVerified(route.pending.value, before) && IsDomainVerified(route.pending.value, after)
    ensures route in RequeuedAmong(routes, domain, lowerChar)
  {
    FlipSelects(route.pending.value, domain, before, after, lowerChar);
    RequeuedMember(routes, domain, route, lowerChar);
  }
}
