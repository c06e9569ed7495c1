/**
 * The route-authorization policy of src/middleware.ts. For each request it
 * reads the pathname, whether an authenticated `userId` is present and, when
 * one is, the user's role; it lets the request through, sends it to sign-in
 * with a return URL, or redirects it to a fixed path.
 */
module Middleware {
  import opened Wrappers
  import opened JsValues
  import opened Roles

  /** The two parts of a request the handler reads: `req.url` and `req.nextUrl.pathname`. */
  datatype Request = Request(url: string, pathname: string)

  /** `NextResponse.next()`, `redirectToSignIn({ returnBackUrl })`, `NextResponse.redirect(path)`. */
  datatype Decision = Next | SignIn(returnBackUrl: string) | Redirect(target: string)

  const SignInPath := "/auth/sign-in"
  const SignUpPath := "/auth/sign-up"
  const ResetPasswordPath := "/auth/reset-password"
  const RootPath := "/"
  const AdminDashboardPath := "/admin/dashboard"
  const CompletionRootPath := "/completion"

  /** The literal parts of the patterns `'/admin(.*)'` and `'/completion(.*)'`. */
  const AdminPrefix := "/admin"
  const CompletionPrefix := "/completion"

  /** `isPublicRoute`: exactly one of the three listed paths. */
  predicate IsPublicRoute(path: string) {
    path == SignInPath || path == SignUpPath || path == ResetPasswordPath
  }

  /** `isAdminRoute`: the path starts with `/admin` (so `/adminX` too). */
  predicate IsAdminRoute(path: string) {
    AdminPrefix <= path
  }

  /** `isCompletionRoute`: the path starts with `/completion`. */
  predicate IsCompletionRoute(path: string) {
    CompletionPrefix <= path
  }

  /** The set of paths the handler ever redirects to. */
  predicate IsFixedTarget(path: string) {
    path == AdminDashboardPath || path == CompletionRootPath || path == RootPath || path == SignInPath
  }

  /**
   * The handler. `lookup` is what `getRoleFromDb` answers for this request;
   * it is one fixed function, so the guards' `checkRoleFromDb` and the
   * `getRoleFromDb` after it see the same role.
   */
  function Decide(req: Request, userId: Option<string>, lookup: string -> Option<Role>): (d: Decision)
    ensures IsPublicRoute(req.pathname) ==> d == Next
    ensures d.SignIn? <==> !IsPublicRoute(req.pathname) && !Truthy(userId)
    ensures d.SignIn? ==> d.returnBackUrl == req.url
    ensures d.Redirect? ==> IsFixedTarget(d.target)
  {
    if IsPublicRoute(req.pathname) then
      Next
    else if !Truthy(userId) && !IsPublicRoute(req.pathname) then
      SignIn(req.url)
    else if Truthy(userId) && req.pathname == RootPath then
      var role := lookup(userId.value);
      if HasRole(role, Admin) then Redirect(AdminDashboardPath)
      else if HasRole(role, Completion) then Redirect(CompletionRootPath)
      else Redirect(SignInPath)
    else if IsAdminRoute(req.pathname) && Truthy(userId) && !CheckRoleFromDb(lookup, userId.value, Admin) then
      var role := lookup(userId.value);
      Redirect(if HasRole(role, Completion) then CompletionRootPath else RootPath)
    else if IsCompletionRoute(req.pathname) && Truthy(userId) && !CheckRoleFromDb(lookup, userId.value, Completion) then
      var role := lookup(userId.value);
      Redirect(if HasRole(role, Admin) then AdminDashboardPath else RootPath)
    else
      Next
  }

  // ---------------------------------------------------------------------------
  // The route classes

  /** No path is both admin-scoped and completion-scoped. */
  lemma AdminAndCompletionDisjoint(path: string)
    ensures !(IsAdminRoute(path) && IsCompletionRoute(path))
  {
    if IsAdminRoute(path) {
      assert path[1] == AdminPrefix[1] == 'a';
      assert CompletionPrefix[1] == 'c';
    }
  }

  /** The public paths and the root are neither admin-scoped nor completion-scoped. */
  lemma PublicAndRootUnscoped(path: string)
    requires IsPublicRoute(path) || path == RootPath
    ensures !IsAdminRoute(path) && !IsCompletionRoute(path)
  {
    if path != RootPath {
      assert path[1] == 'a' && path[2] == 'u';
      assert AdminPrefix[2] == 'd' && CompletionPrefix[1] == 'c';
    }
  }

  /** Where each redirect target lands in the route classes. */
  lemma TargetsClassified()
    ensures IsAdminRoute(AdminDashboardPath) && !IsCompletionRoute(AdminDashboardPath)
    ensures IsCompletionRoute(CompletionRootPath) && !IsAdminRoute(CompletionRootPath)
    ensures IsPublicRoute(SignInPath)
    ensures !IsPublicRoute(AdminDashboardPath) && !IsPublicRoute(CompletionRootPath) && !IsPublicRoute(RootPath)
  {
    assert AdminDashboardPath[..|AdminPrefix|] == AdminPrefix;
    AdminAndCompletionDisjoint(AdminDashboardPath);
    AdminAndCompletionDisjoint(CompletionRootPath);
  }

  // ---------------------------------------------------------------------------
  // The branches, one by one

  /** A protected path without a user goes to sign-in, returning to the full request URL afterwards. */
  lemma UnauthenticatedSignsIn(req: Request, userId: Option<string>, lookup: string -> Option<Role>)
    requires !IsPublicRoute(req.pathname) && !Truthy(userId)
    ensures Decide(req, userId, lookup) == SignIn(req.url)
  {
  }

  /** A signed-in user at the root is sent to the area of their role, or to sign-in when there is none. */
  lemma RootRedirectsByRole(req: Request, userId: Option<string>, lookup: string -> Option<Role>)
    requires Truthy(userId) && req.pathname == RootPath
    ensures HasRole(lookup(userId.value), Admin) ==> Decide(req, userId, lookup) == Redirect(AdminDashboardPath)
    ensures HasRole(lookup(userId.value), Completion) ==> Decide(req, userId, lookup) == Redirect(CompletionRootPath)
    ensures !HasRole(lookup(userId.value), Admin) && !HasRole(lookup(userId.value), Completion) ==>
      Decide(req, userId, lookup) == Redirect(SignInPath)
  {
    PublicAndRootUnscoped(req.pathname);
  }

  /** A signed-in non-admin on an admin path goes to `/completion` if that is their role, else to `/`. */
  lemma AdminGuardRedirects(req: Request, userId: Option<string>, lookup: string -> Option<Role>)
    requires Truthy(userId) && IsAdminRoute(req.pathname)
    requires !HasRole(lookup(userId.value), Admin)
    ensures HasRole(lookup(userId.value), Completion) ==> Decide(req, userId, lookup) == Redirect(CompletionRootPath)
    ensures !HasRole(lookup(userId.value), Completion) ==> Decide(req, userId, lookup) == Redirect(RootPath)
  {
    PublicAndRootUnscoped(SignInPath);
    PublicAndRootUnscoped(SignUpPath);
    PublicAndRootUnscoped(ResetPasswordPath);
    PublicAndRootUnscoped(RootPath);
  }

  /** A signed-in non-completion user on a completion path goes to the admin dashboard if admin, else to `/`. */
  lemma CompletionGuardRedirects(req: Request, userId: Option<string>, lookup: string -> Option<Role>)
    requires Truthy(userId) && IsCompletionRoute(req.pathname)
    requires !HasRole(lookup(userId.value), Completion)
    ensures HasRole(lookup(userId.value), Admin) ==> Decide(req, userId, lookup) == Redirect(AdminDashboardPath)
    ensures !HasRole(lookup(userId.value), Admin) ==> Decide(req, userId, lookup) == Redirect(RootPath)
  {
    PublicAndRootUnscoped(SignInPath);
    PublicAndRootUnscoped(SignUpPath);
    PublicAndRootUnscoped(ResetPasswordPath);
    PublicAndRootUnscoped(RootPath);
    AdminAndCompletionDisjoint(req.pathname);
  }

  /**
   * A signed-in request passes through unchanged when it is an admin on an
   * admin path, a completion user on a completion path, or any path outside
   * `/`, `/admin…` and `/completion…`.
   */
  lemma AuthenticatedPassThrough(req: Request, userId: Option<string>, lookup: string -> Option<Role>)
    requires Truthy(userId) && req.pathname != RootPath
    requires || (IsAdminRoute(req.pathname) && HasRole(lookup(userId.value), Admin))
             || (IsCompletionRoute(req.pathname) && HasRole(lookup(userId.value), Completion))
             || (!IsAdminRoute(req.pathname) && !IsCompletionRoute(req.pathname))
    ensures Decide(req, userId, lookup) == Next
  {
    AdminAndCompletionDisjoint(req.pathname);
  }

  /**
   * A guard never redirects into its own area: the admin guard's targets are
   * not admin paths, the completion guard's are not completion paths, and the
   * root's fallback is a public path.
   */
  lemma GuardsLeaveTheirArea(req: Request, userId: Option<string>, lookup: string -> Option<Role>)
    requires Truthy(userId) && !IsPublicRoute(req.pathname)
    ensures var d := Decide(req, userId, lookup);
      IsAdminRoute(req.pathname) && d.Redirect? ==>
        (d.target == CompletionRootPath || d.target == RootPath) && !IsAdminRoute(d.target)
    ensures var d := Decide(req, userId, lookup);
      IsCompletionRoute(req.pathname) && d.Redirect? ==>
        (d.target == AdminDashboardPath || d.target == RootPath) && !IsCompletionRoute(d.target)
    ensures var d := Decide(req, userId, lookup);
      req.pathname == RootPath && d == Redirect(SignInPath) ==> IsPublicRoute(d.target)
  {
    TargetsClassified();
    PublicAndRootUnscoped(RootPath);
    AdminAndCompletionDisjoint(req.pathname);
  }

  // ---------------------------------------------------------------------------
  // What the decision depends on

  /** Public and unauthenticated decisions are reached without consulting the lookup. */
  lemma LookupOnlyWhenAuthenticated(req: Request, userId: Option<string>,
                                    lookup1: string -> Option<Role>, lookup2: string -> Option<Role>)
    requires IsPublicRoute(req.pathname) || !Truthy(userId)
    ensures Decide(req, userId, lookup1) == Decide(req, userId, lookup2)
  {
  }

  /**
   * The decision depends on the lookup only through whether the user's role
   * reads as `admin` and whether it reads as `completion`: a failed lookup
   * and any unrecognised role are treated alike.
   */
  lemma OnlyTheRoleClassMatters(req: Request, userId: Option<string>,
                                lookup1: string -> Option<Role>, lookup2: string -> Option<Role>)
    requires Truthy(userId)
    requires HasRole(lookup1(userId.value), Admin) == HasRole(lookup2(userId.value), Admin)
    requires HasRole(lookup1(userId.value), Completion) == HasRole(lookup2(userId.value), Completion)
    ensures Decide(req, userId, lookup1) == Decide(req, userId, lookup2)
  {
  }

  /** A failed lookup decides exactly as a user with an unrecognised role. */
  lemma FailedLookupActsAsUnknownRole(req: Request, userId: Option<string>,
                                      lookup: string -> Option<Role>, other: string)
    requires Truthy(userId) && lookup(userId.value) == None
    requires other != "admin" && other != "completion"
    ensures Decide(req, userId, lookup) == Decide(req, userId, _ => Some(Other(other)))
  {
    OnlyTheRoleClassMatters(req, userId, lookup, _ => Some(Other(other)));
  }

  // ---------------------------------------------------------------------------
  // An independent statement of the policy

  /** The classes a path falls into, in the order the handler tests them. */
  datatype RouteClass = PublicRoute | RootRoute | AdminScoped | CompletionScoped | Unscoped

  function Classify(path: string): RouteClass {
    if IsPublicRoute(path) then PublicRoute
    else if path == RootPath then RootRoute
    else if IsAdminRoute(path) then AdminScoped
    else if IsCompletionRoute(path) then CompletionScoped
    else Unscoped
  }

  /** The area a role belongs to, if any. */
  function HomeOf(role: Option<Role>): Option<string> {
    if HasRole(role, Admin) then Some(AdminDashboardPath)
    else if HasRole(role, Completion) then Some(CompletionRootPath)
    else None
  }

  /** Whether a role belongs to the area a route class names. */
  predicate InOwnArea(cls: RouteClass, role: Option<Role>) {
    (cls == AdminScoped && HasRole(role, Admin)) || (cls == CompletionScoped && HasRole(role, Completion))
  }

  /**
   * The policy as a table: public routes pass; without a user, sign in; at
   * the root, go home (or to sign-in); in an area that is not yours, go home
   * (or to the root); everything else passes.
   */
  function Policy(cls: RouteClass, url: string, authenticated: bool, role: Option<Role>): Decision {
    if cls == PublicRoute then Next
    else if !authenticated then SignIn(url)
    else if cls == RootRoute then Redirect(HomeOf(role).GetOr(SignInPath))
    else if cls == Unscoped || InOwnArea(cls, role) then Next
    else Redirect(HomeOf(role).GetOr(RootPath))
  }

  /** The handler is the table, applied to the route class and, for a signed-in user only, to their role. */
  lemma DecideIsPolicy(req: Request, userId: Option<string>, lookup: string -> Option<Role>)
    ensures Decide(req, userId, lookup) ==
      Policy(Classify(req.pathname), req.url, Truthy(userId),
             if Truthy(userId) then lookup(userId.value) else None)
  {
    if Truthy(userId) && !IsPublicRoute(req.pathname) {
      if req.pathname == RootPath {
        RootRedirectsByRole(req, userId, lookup);
      } else if IsAdminRoute(req.pathname) {
        if !HasRole(lookup(userId.value), Admin) {
          AdminGuardRedirects(req, userId, lookup);
        }
      } else if IsCompletionRoute(req.pathname) {
        if !HasRole(lookup(userId.value), Completion) {
          CompletionGuardRedirects(req, userId, lookup);
        }
      }
      AdminAndCompletionDisjoint(req.pathname);
    }
  }

  // ---------------------------------------------------------------------------
  // Following the redirects

  /**
   * No redirect loop: for a fixed user and role, following a redirect leads,
   * after at most one more redirect, to a request that passes through.
   */
  lemma RedirectsSettle(req: Request, userId: Option<string>, lookup: string -> Option<Role>,
                        url2: string, url3: string)
    ensures var d := Decide(req, userId, lookup);
      d.Redirect? ==>
        var d2 := Decide(Request(url2, d.target), userId, lookup);
        d2 == Next || (d2.Redirect? && Decide(Request(url3, d2.target), userId, lookup) == Next)
  {
    TargetsClassified();
    PublicAndRootUnscoped(RootPath);
    var d := Decide(req, userId, lookup);
    if d.Redirect? {
      DecideIsPolicy(Request(url2, d.target), userId, lookup);
      DecideIsPolicy(Request(url3, SignInPath), userId, lookup);
    }
  }

  // ---------------------------------------------------------------------------
  // Worked scenarios for a user `U1`

  lemma Scenarios(url: string)
    ensures Decide(Request(url, "/admin/dashboard"), None, _ => None) == SignIn(url)
    ensures Decide(Request(url, "/"), Some("U1"), _ => Some(Admin)) == Redirect("/admin/dashboard")
    ensures Decide(Request(url, "/admin/dashboard/agents"), Some("U1"), _ => Some(Completion)) == Redirect("/completion")
    ensures Decide(Request(url, "/admin/dashboard"), Some("U1"), _ => None) == Redirect("/")
    ensures Decide(Request(url, "/admin/dashboard/systems"), Some("U1"), _ => Some(Admin)) == Next
    ensures Decide(Request(url, "/administrator"), Some("U1"), _ => Some(Completion)) == Redirect("/completion")
  {
    TargetsClassified();
    assert IsAdminRoute("/admin/dashboard/agents") && !IsCompletionRoute("/admin/dashboard/agents") by {
      assert "/admin/dashboard/agents"[..6] == AdminPrefix;
      AdminAndCompletionDisjoint("/admin/dashboard/agents");
    }
    assert IsAdminRoute("/admin/dashboard/systems") && !IsCompletionRoute("/admin/dashboard/systems") by {
      assert "/admin/dashboard/systems"[..6] == AdminPrefix;
      AdminAndCompletionDisjoint("/admin/dashboard/systems");
    }
    assert IsAdminRoute("/administrator") by {
      assert "/administrator"[..6] == AdminPrefix;
    }
  }
}
