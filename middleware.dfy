/**
 * The routing decision of middleware.ts: keep signed-in users away from the
 * sign-in pages, send anonymous users on protected pages to the sign-in page,
 * and keep the admin area for staff.
 */
module Middleware {

  import opened Wrappers
  import opened Roles

  /** The part of an incoming URL the guard reads: its path and query parameters. */
  datatype Request = Request(pathname: string, query: map<string, string>)

  /** Let the request through, or redirect to a copy of its URL with a new path and query. */
  datatype Response = PassThrough | Redirect(pathname: string, query: map<string, string>)

  predicate IsAuthRoute(pathname: string) {
    "/login" <= pathname || "/signup" <= pathname
  }

  predicate IsProtectedRoute(pathname: string) {
    "/dashboard" <= pathname || "/products" <= pathname || "/admin" <= pathname
  }

  predicate IsAdminRoute(pathname: string) {
    "/admin" <= pathname
  }

  /**
   * `middleware` once the session user has been fetched; `profileRole` is the
   * role of that user's profile, consulted only on admin routes.
   */
  function Guard(request: Request, userPresent: bool, profileRole: Option<string>): (r: Response)
    ensures r.PassThrough? <==>
      (if IsAuthRoute(request.pathname) then !userPresent
       else ((IsProtectedRoute(request.pathname) ==> userPresent)
         && (IsAdminRoute(request.pathname) ==> IsStaff(profileRole))))
    ensures r == Redirect("/dashboard", request.query) <==>
      (if IsAuthRoute(request.pathname) then userPresent
       else IsAdminRoute(request.pathname) && userPresent && !IsStaff(profileRole))
    ensures r == Redirect("/login", request.query["redirectTo" := request.pathname]) <==>
      !IsAuthRoute(request.pathname) && IsProtectedRoute(request.pathname) && !userPresent
  {
    var path := request.pathname;
    if IsAuthRoute(path) then
      if userPresent then Redirect("/dashboard", request.query) else PassThrough
    else if IsProtectedRoute(path) then
      if !userPresent then Redirect("/login", request.query["redirectTo" := path])
      else if IsAdminRoute(path) && !IsStaff(profileRole) then Redirect("/dashboard", request.query)
      else PassThrough
    else PassThrough
  }

  /** The sign-in pages are tested first: a signed-in admin on /login goes to /dashboard. */
  lemma SignedInStaffOnLoginGoesToDashboard(query: map<string, string>)
    ensures Guard(Request("/login", query), true, Some("admin")) == Redirect("/dashboard", query)
  {
  }

  /** Matching is by prefix: /login-help and /productsX fall under the same rules. */
  lemma PrefixMatching(query: map<string, string>)
    ensures Guard(Request("/login-help", query), true, None) == Redirect("/dashboard", query)
    ensures Guard(Request("/productsX", query), false, None)
      == Redirect("/login", query["redirectTo" := "/productsX"])
  {
    assert "/login" <= "/login-help";
    assert "/products" <= "/productsX";
    assert "/productsX"[1] != "/login"[1] && "/productsX"[1] != "/signup"[1];
  }

  /** Any other path passes through, signed in or not. */
  lemma OtherPathsPassThrough(request: Request, userPresent: bool, profileRole: Option<string>)
    requires !IsAuthRoute(request.pathname) && !IsProtectedRoute(request.pathname)
    ensures Guard(request, userPresent, profileRole) == PassThrough
  {
  }
}
