/** The route table: which page each path shows and which permissions its guard requires. */
module AppRoutes {
  import opened Common
  import opened Strings
  import opened Types
  import opened AuthContext
  import opened ProtectedRoute

  datatype Page =
    | LoginPage | UnauthorizedPage | IndexPage | CandidatesPage | JobsPage | WorkflowPage
    | ReportsPage | UserManagementPage | RoleManagementPage | SettingsPage | NotFoundPage

  /** A route either shows its page to anyone or wraps it in the guard with a required list. */
  datatype RouteEntry = Open(page: Page) | Guarded(required: seq<Permission>, page: Page)

  /** The declared routes, in declaration order. */
  const Routes: seq<(string, RouteEntry)> := [
    ("/login", Open(LoginPage)),
    ("/unauthorized", Open(UnauthorizedPage)),
    ("/", Guarded([], IndexPage)),
    ("/candidates", Guarded([Permission(Read, Candidates)], CandidatesPage)),
    ("/jobs", Guarded([Permission(Read, Jobs)], JobsPage)),
    ("/workflow", Guarded([Permission(Read, Jobs)], WorkflowPage)),
    ("/reports", Guarded([Permission(Read, Jobs)], ReportsPage)),
    ("/users", Guarded([Permission(Read, Users)], UserManagementPage)),
    ("/roles", Guarded([Permission(Read, Users)], RoleManagementPage)),
    ("/settings", Guarded([Permission(Read, Settings)], SettingsPage))
  ]

  /** The entry declared for `path`, if any. */
  function Lookup(table: seq<(string, RouteEntry)>, path: string): (r: Option<RouteEntry>)
    ensures r.Some? ==> (path, r.value) in table
    ensures r.None? ==> forall i :: 0 <= i < |table| ==> table[i].0 != path
  {
    if table == [] then None
    else if table[0].0 == path then Some(table[0].1)
    else
      var r := Lookup(table[1..], path);
      assert forall i :: 1 <= i < |table| ==> table[i] == table[1..][i - 1];
      r
  }

  /** The first entry declared for a path is the one found. */
  lemma {:induction false} LookupFindsFirst(table: seq<(string, RouteEntry)>, path: string, i: nat)
    requires i < |table| && table[i].0 == path
    requires forall j :: 0 <= j < i ==> table[j].0 != path
    ensures Lookup(table, path) == Some(table[i].1)
  {
    if i > 0 {
      LookupFindsFirst(table[1..], path, i - 1);
    }
  }

  /** The start of the run of '/' that ends `path[..j]`. */
  function SlashRunStart(path: string, j: nat): (n: nat)
    requires j <= |path|
    ensures n <= j
    ensures forall k :: n <= k < j ==> path[k] == '/'
    ensures n > 0 ==> path[n - 1] != '/'
    decreases j
  {
    if j == 0 || path[j - 1] != '/' then j else SlashRunStart(path, j - 1)
  }

  /** The form in which the router compares a pathname with a declared path: the match
      ignores ASCII case, and any run of trailing '/' is dropped, a pathname that is empty
      or made only of '/' standing for the root. */
  function Normalise(path: string): string {
    var n := SlashRunStart(path, |path|);
    if n == 0 then "/" else ToLower(path[..n])
  }

  /** A path in that form: not empty, no upper-case ASCII letter and no trailing '/' except
      the root. */
  predicate IsNormal(path: string) {
    path != [] &&
    (forall k :: 0 <= k < |path| ==> !('A' <= path[k] <= 'Z')) &&
    (path == "/" || path[|path| - 1] != '/')
  }

  /** Normalising gives a path in normal form, and leaves a path in normal form as it is. */
  lemma NormaliseIsNormal(path: string)
    ensures IsNormal(Normalise(path))
    ensures IsNormal(path) ==> Normalise(path) == path
  {
    var n := SlashRunStart(path, |path|);
    if n != 0 {
      var r := ToLower(path[..n]);
      assert forall k :: 0 <= k < |r| ==> r[k] == LowerChar(path[k]);
      assert r[n - 1] == LowerChar(path[n - 1]) != '/';
    }
    if IsNormal(path) && path != "/" {
      assert n == |path|;
      assert path[..n] == path;
      assert forall k :: 0 <= k < |path| ==> LowerChar(path[k]) == path[k];
    }
  }

  /** Normalising twice changes nothing more. */
  lemma NormaliseIdempotent(path: string)
    ensures Normalise(Normalise(path)) == Normalise(path)
  {
    NormaliseIsNormal(path);
    NormaliseIsNormal(Normalise(path));
  }

  /** The empty pathname is read as the root. */
  lemma EmptyPathIsRoot()
    ensures RouteFor("") == RouteFor("/")
  {
    assert Normalise("") == "/";
    RouteForNormalises("/");
  }

  /** Every declared path is in normal form. */
  lemma RoutesAreNormal(i: nat)
    requires i < |Routes|
    ensures IsNormal(Routes[i].0)
  {
  }

  /** Normalising a declared path gives that path back. */
  lemma DeclaredPathIsNormalised(i: nat)
    requires i < |Routes|
    ensures Normalise(Routes[i].0) == Routes[i].0
  {
    RoutesAreNormal(i);
    NormaliseIsNormal(Routes[i].0);
  }

  /** The route that matches `path`: the declared route whose path equals the normalised
      pathname, else the catch-all `*`, which shows the not-found page. */
  function RouteFor(path: string): (r: RouteEntry)
    ensures (Normalise(path), r) in Routes ||
      (r == Open(NotFoundPage) && forall i :: 0 <= i < |Routes| ==> Routes[i].0 != Normalise(path))
  {
    Lookup(Routes, Normalise(path)).GetOr(Open(NotFoundPage))
  }

  /** Two pathnames with the same normal form reach the same route: case and trailing
      slashes never change the page. */
  lemma RouteForNormalises(path: string)
    ensures RouteFor(path) == RouteFor(Normalise(path))
  {
    NormaliseIdempotent(path);
  }

  /** No two routes are declared for the same path, so each declared path finds its own entry. */
  lemma RouteAt(i: nat)
    requires i < |Routes|
    ensures RouteFor(Routes[i].0) == Routes[i].1
  {
    DeclaredPathIsNormalised(i);
    DeclaredLookup(i);
  }

  lemma DeclaredLookup(i: nat)
    requires i < |Routes|
    ensures Lookup(Routes, Routes[i].0) == Some(Routes[i].1)
  {
    assert forall j, k :: 0 <= j < k < |Routes| ==> |Routes[j].0| != |Routes[k].0| || Routes[j].0[1] != Routes[k].0[1];
    LookupFindsFirst(Routes, Routes[i].0, i);
  }

  /** A pathname whose normal form is a declared path reaches that path's route, whatever
      its case and trailing slashes. */
  lemma MatchesDeclared(path: string, i: nat)
    requires i < |Routes| && Normalise(path) == Routes[i].0
    ensures RouteFor(path) == Routes[i].1
  {
    RouteForNormalises(path);
    RouteAt(i);
  }

  /** For example, "/Candidates/" reaches the candidates route. */
  lemma MixedCaseWithSlash()
    ensures RouteFor("/Candidates/") == Guarded([Permission(Read, Candidates)], CandidatesPage)
  {
    var path := "/Candidates/";
    assert SlashRunStart(path, 12) == 11;
    assert ToLower(path[..11]) == "/candidates";
    MatchesDeclared(path, 3);
  }

  datatype Screen = Show(page: Page) | Redirect(to: string)

  /** What a visit to `path` ends in, given the session. */
  function Visit(path: string, isAuthenticated: bool, user: Option<User>): (s: Screen)
    ensures RouteFor(path).Open? ==> s == Show(RouteFor(path).page)
    ensures RouteFor(path).Guarded? ==>
      (s == Redirect("/login") <==> !isAuthenticated) &&
      (s == Show(RouteFor(path).page) <==> isAuthenticated && GrantsAll(user, RouteFor(path).required)) &&
      (s == Redirect("/unauthorized") <==> isAuthenticated && !GrantsAll(user, RouteFor(path).required))
  {
    match RouteFor(path)
    case Open(page) => Show(page)
    case Guarded(required, page) =>
      match Decide(isAuthenticated, user, required)
      case RedirectToLogin => Redirect("/login")
      case RedirectToUnauthorized => Redirect("/unauthorized")
      case RenderChildren => Show(page)
  }

  /** The login and unauthorized pages are open to everyone, signed in or not. */
  lemma OpenPages(isAuthenticated: bool, user: Option<User>)
    ensures Visit("/login", isAuthenticated, user) == Show(LoginPage)
    ensures Visit("/unauthorized", isAuthenticated, user) == Show(UnauthorizedPage)
  {
    RouteAt(0);
    RouteAt(1);
  }

  /** The dashboard needs a signed-in session and nothing more. */
  lemma DashboardNeedsOnlySignIn(isAuthenticated: bool, user: Option<User>)
    ensures Visit("/", isAuthenticated, user) == if isAuthenticated then Show(IndexPage) else Redirect("/login")
  {
  }

  /** Every guarded route other than the dashboard requires exactly one permission. */
  lemma GuardedRoutesRequireOnePair()
    ensures forall i :: 0 <= i < |Routes| && Routes[i].1.Guarded? && Routes[i].0 != "/" ==>
      |Routes[i].1.required| == 1
  {
  }

  /** The pages and the single pair each one requires. */
  lemma RequiredPermissions()
    ensures RouteFor("/candidates") == Guarded([Permission(Read, Candidates)], CandidatesPage)
    ensures RouteFor("/jobs") == Guarded([Permission(Read, Jobs)], JobsPage)
    ensures RouteFor("/workflow") == Guarded([Permission(Read, Jobs)], WorkflowPage)
    ensures RouteFor("/reports") == Guarded([Permission(Read, Jobs)], ReportsPage)
    ensures RouteFor("/users") == Guarded([Permission(Read, Users)], UserManagementPage)
    ensures RouteFor("/roles") == Guarded([Permission(Read, Users)], RoleManagementPage)
    ensures RouteFor("/settings") == Guarded([Permission(Read, Settings)], SettingsPage)
  {
    RouteAt(3);
    RouteAt(4);
    RouteAt(5);
    RouteAt(6);
    RouteAt(7);
    RouteAt(8);
    RouteAt(9);
  }

  /** A path whose normal form no route declares shows the not-found page, whoever visits. */
  lemma UnknownPathIsNotFound(path: string, isAuthenticated: bool, user: Option<User>)
    requires forall i :: 0 <= i < |Routes| ==> Routes[i].0 != Normalise(path)
    ensures Visit(path, isAuthenticated, user) == Show(NotFoundPage)
  {
  }

  /** An admin holds every pair any route requires. */
  lemma AdminHoldsRequirements(admin: User, i: nat)
    requires admin.role == Admin && i < |Routes| && Routes[i].1.Guarded?
    ensures GrantsAll(Some(admin), Routes[i].1.required)
  {
    AdminGrants();
  }

  /** A signed-in admin reaches every declared page. */
  lemma AdminReachesEveryRoute(admin: User, path: string)
    requires admin.role == Admin
    requires exists i :: 0 <= i < |Routes| && Routes[i].0 == path
    ensures Visit(path, true, Some(admin)) == Show(RouteFor(path).page)
  {
    var i :| 0 <= i < |Routes| && Routes[i].0 == path;
    RouteAt(i);
    if Routes[i].1.Guarded? {
      AdminHoldsRequirements(admin, i);
    }
  }

  /** A signed-in visit to a route guarded by one pair shows the page iff the role grants it. */
  lemma SingleGuardVisit(u: User, path: string, p: Permission)
    requires RouteFor(path).Guarded? && RouteFor(path).required == [p]
    ensures Visit(path, true, Some(u)) ==
      if p in RolePermissions(u.role) then Show(RouteFor(path).page) else Redirect("/unauthorized")
  {
    assert GrantsAll(Some(u), [p]) <==> HasPermission(Some(u), p.action, p.subject);
  }

  /** A signed-in viewer is turned away from user management and settings, and shown the
      candidates page. */
  lemma ViewerTurnedAway(viewer: User, path: string)
    requires viewer.role == Viewer
    ensures path == "/users" || path == "/settings" ==> Visit(path, true, Some(viewer)) == Redirect("/unauthorized")
    ensures path == "/candidates" ==> Visit(path, true, Some(viewer)) == Show(CandidatesPage)
  {
    if path == "/users" {
      SingleGuardVisitAt(viewer, path, 7);
      assert Routes[7].1.required[0] !in RolePermissions(Viewer);
    } else if path == "/settings" {
      SingleGuardVisitAt(viewer, path, 9);
      assert Routes[9].1.required[0] !in RolePermissions(Viewer);
    } else if path == "/candidates" {
      SingleGuardVisitAt(viewer, path, 3);
      assert Routes[3].1 == Guarded([Permission(Read, Candidates)], CandidatesPage);
    }
  }

  /** A signed-in visit to the route declared at `i`, when it is guarded by one pair. */
  lemma SingleGuardVisitAt(u: User, path: string, i: nat)
    requires i < |Routes| && Routes[i].0 == path
    requires Routes[i].1.Guarded? && |Routes[i].1.required| == 1
    ensures Visit(path, true, Some(u)) ==
      if Routes[i].1.required[0] in RolePermissions(u.role) then Show(Routes[i].1.page) else Redirect("/unauthorized")
  {
    RouteAt(i);
    SingleGuardVisit(u, path, Routes[i].1.required[0]);
  }
}
