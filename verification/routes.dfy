/**
 * The route-protection rules of the session middleware: a decision, from the
 * request path and whether a user is signed in, to let the request through
 * or to redirect it.
 */
module Routes {

  import opened Text

  /** Let the request through, or redirect it to `location` (a path on the same site). */
  datatype Decision = Pass | Redirect(location: string)

  /** Paths anyone may open: two prefixes and four exact paths. */
  predicate IsPublic(path: string) {
    || StartsWith(path, "/global-health-news")
    || StartsWith(path, "/api/cron")
    || path == "/" || path == "/login" || path == "/signup" || path == "/auth"
  }

  /** The dashboard prefixes, which need a signed-in user. */
  predicate IsDashboard(path: string) {
    StartsWith(path, "/analysis") || StartsWith(path, "/intel-feed") || StartsWith(path, "/reports")
  }

  /** The sign-in pages a signed-in user is meant to be sent away from. */
  predicate IsLoginPage(path: string) {
    path == "/login" || path == "/signup"
  }

  /**
   * The rules in their written order: public paths pass; a dashboard path
   * without a user goes to "/login"; a signed-in user on a sign-in page goes
   * to "/analysis"; everything else passes.
   */
  function RouteDecision(path: string, hasUser: bool): (r: Decision)
    ensures IsPublic(path) ==> r == Pass
    ensures r == Redirect("/login") <==> !hasUser && !IsPublic(path) && IsDashboard(path)
    ensures r == Pass || r == Redirect("/login")
  {
    if IsPublic(path) then Pass
    else if !hasUser && IsDashboard(path) then Redirect("/login")
    else if hasUser && IsLoginPage(path) then Redirect("/analysis")
    else Pass
  }

  /** Every sign-in page is public, so the third rule's condition never holds when it is reached. */
  lemma LoginPagesArePublic(path: string)
    ensures IsLoginPage(path) ==> IsPublic(path)
  {
  }

  /** A signed-in user is let through everywhere: the redirect to "/analysis" never happens. */
  lemma SignedInAlwaysPasses(path: string)
    ensures RouteDecision(path, true) == Pass
  {
  }

  /** The concrete case: a signed-in user opening "/login" stays on the sign-in page. */
  lemma SignedInUserOnLoginPasses()
    ensures RouteDecision("/login", true) == Pass
    ensures RouteDecision("/signup", true) == Pass
  {
  }

  /** Public paths get the same decision whoever asks. */
  lemma PublicPathsIgnoreUser(path: string)
    requires IsPublic(path)
    ensures RouteDecision(path, true) == RouteDecision(path, false) == Pass
  {
  }

  /** The dashboard prefixes are matched as prefixes: "/reports-archive" is protected too. */
  lemma DashboardPrefixProtected(rest: string)
    ensures RouteDecision("/reports" + rest, false) == Redirect("/login")
  {
    assert StartsWith("/reports" + rest, "/reports") by {
      assert ("/reports" + rest)[..|"/reports"|] == "/reports";
    }
    assert !IsPublic("/reports" + rest) by {
      var p := "/reports" + rest;
      assert p[1] == 'r';
      assert !StartsWith(p, "/global-health-news") by { assert "/global-health-news"[1] == 'g'; }
      assert !StartsWith(p, "/api/cron") by { assert "/api/cron"[1] == 'a'; }
      assert p != "/" && p != "/login" && p != "/signup" && p != "/auth" by {
        assert |p| >= 8;
        assert "/login"[1] == 'l' && "/signup"[1] == 's' && "/auth"[1] == 'a';
      }
    }
  }

  // ---------------------------------------------------------------------------
  // The intended order: the signed-in redirect is tried before the public rule

  /** The rules with the sign-in redirect first, as its comment describes it. */
  function RouteDecisionIntended(path: string, hasUser: bool): (r: Decision)
    ensures r == Redirect("/analysis") <==> hasUser && IsLoginPage(path)
    ensures r == Redirect("/login") <==> !hasUser && !IsPublic(path) && IsDashboard(path)
    ensures r == Pass || r == Redirect("/login") || r == Redirect("/analysis")
  {
    if hasUser && IsLoginPage(path) then Redirect("/analysis")
    else if IsPublic(path) then Pass
    else if !hasUser && IsDashboard(path) then Redirect("/login")
    else Pass
  }

  /** The reordering changes only the signed-in sign-in-page case. */
  lemma IntendedAgreesElsewhere(path: string, hasUser: bool)
    requires !(hasUser && IsLoginPage(path))
    ensures RouteDecisionIntended(path, hasUser) == RouteDecision(path, hasUser)
  {
  }

  /**
   * Redirects settle: following either version's redirect with the same user
   * reaches a page that is let through, so no request loops.
   */
  lemma RedirectsSettle(path: string, hasUser: bool)
    ensures RouteDecision(path, hasUser).Redirect? ==>
              RouteDecision(RouteDecision(path, hasUser).location, hasUser) == Pass
    ensures RouteDecisionIntended(path, hasUser).Redirect? ==>
              RouteDecisionIntended(RouteDecisionIntended(path, hasUser).location, hasUser) == Pass
  {
    assert IsPublic("/login");
    assert IsDashboard("/analysis") && !IsLoginPage("/analysis");
    assert !IsPublic("/analysis") by {
      var p := "/analysis";
      assert !StartsWith(p, "/global-health-news") by { assert p[1] != "/global-health-news"[1]; }
      assert !StartsWith(p, "/api/cron") by { assert p[2] != "/api/cron"[2]; }
    }
  }
}
