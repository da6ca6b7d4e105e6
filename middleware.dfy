/** The route guard run before each page request: a decision on the
    pathname and the `auth_token` cookie between passing the request on and
    redirecting it. */
module Middleware {
  import opened Optional
  import opened JsPrims

  const ProtectedRoutes: seq<string> := ["/dashboard"]
  const AuthRoutes: seq<string> := ["/login", "/signup", "/forgot-password"]

  datatype Response = Next | Redirect(target: string)

  /** `Boolean(authToken)`: a cookie that is present and non-empty. */
  predicate IsAuthenticated(authToken: Option<string>) {
    authToken.Some? && authToken.value != ""
  }

  /** `routes.some(route => pathname.startsWith(route))` */
  function MatchesSome(routes: seq<string>, pathname: string): (b: bool)
    ensures b <==> exists i :: 0 <= i < |routes| && StartsWith(pathname, routes[i])
  {
    if routes == [] then false
    else StartsWith(pathname, routes[0]) || MatchesSome(routes[1..], pathname)
  }

  predicate IsProtectedRoute(pathname: string) { MatchesSome(ProtectedRoutes, pathname) }
  predicate IsAuthRoute(pathname: string) { MatchesSome(AuthRoutes, pathname) }

  /** `middleware(request)` */
  function Decide(pathname: string, authToken: Option<string>): (r: Response)
    ensures IsProtectedRoute(pathname) && !IsAuthenticated(authToken) <==> r == Redirect("/login")
    ensures IsAuthRoute(pathname) && IsAuthenticated(authToken) <==> r == Redirect("/dashboard")
    ensures r == Next || r == Redirect("/login") || r == Redirect("/dashboard")
  {
    ProtectedAndAuthDisjoint(pathname);
    if IsProtectedRoute(pathname) && !IsAuthenticated(authToken) then Redirect("/login")
    else if IsAuthRoute(pathname) && IsAuthenticated(authToken) then Redirect("/dashboard")
    else Next
  }

  /** Every request no rule claims passes through. */
  lemma OtherRequestsPass(pathname: string, authToken: Option<string>)
    requires !(IsProtectedRoute(pathname) && !IsAuthenticated(authToken))
    requires !(IsAuthRoute(pathname) && IsAuthenticated(authToken))
    ensures Decide(pathname, authToken) == Next
  {
  }

  /** No pathname is both protected and an auth route, so at most one rule fires. */
  lemma ProtectedAndAuthDisjoint(pathname: string)
    ensures !(IsProtectedRoute(pathname) && IsAuthRoute(pathname))
  {
    if IsProtectedRoute(pathname) {
      assert StartsWith(pathname, "/dashboard");
      assert pathname[1] == "/dashboard"[1] == 'd';
      forall i | 0 <= i < |AuthRoutes| ensures !StartsWith(pathname, AuthRoutes[i]) {
        assert AuthRoutes[i][1] != 'd';
      }
    }
  }

  /** Following a redirect with the same cookie is not redirected again. */
  lemma RedirectsSettle(pathname: string, authToken: Option<string>)
    requires Decide(pathname, authToken).Redirect?
    ensures Decide(Decide(pathname, authToken).target, authToken) == Next
  {
    var target := Decide(pathname, authToken).target;
    if target == "/login" {
      assert !StartsWith(target, "/dashboard") by { assert |target| < |"/dashboard"|; }
    } else {
      assert target == "/dashboard";
      forall i | 0 <= i < |AuthRoutes| ensures !StartsWith(target, AuthRoutes[i]) {
        assert target[1] != AuthRoutes[i][1];
      }
    }
  }

  /** Matching is on the raw text, so a sibling path such as "/dashboardx" is protected too. */
  lemma SiblingPathProtected(pathname: string)
    requires pathname == "/dashboardx"
    ensures IsProtectedRoute(pathname)
    ensures Decide(pathname, None) == Redirect("/login")
  {
    assert pathname[..10] == "/dashboard";
  }
}
