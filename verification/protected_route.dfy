/** The route guard: a page is shown only to a signed-in user who holds every
    permission the route requires; otherwise the guard redirects. */
module ProtectedRoute {
  import opened Common
  import opened Types
  import opened AuthContext

  datatype Outcome = RedirectToLogin | RedirectToUnauthorized | RenderChildren

  /** Every required pair is granted to the user. */
  predicate GrantsAll(user: Option<User>, required: seq<Permission>) {
    forall p :: p in required ==> HasPermission(user, p.action, p.subject)
  }

  /** `required.every(p => hasPermission(p.action, p.subject))`, evaluated left to right. */
  function Every(user: Option<User>, required: seq<Permission>): (r: bool)
    ensures r <==> GrantsAll(user, required)
  {
    if required == [] then true
    else
      var rest := Every(user, required[1..]);
      assert forall p :: p in required ==> p == required[0] || p in required[1..];
      HasPermission(user, required[0].action, required[0].subject) && rest
  }

  /** The three-way decision. An absent `requiredPermissions` is the empty list. */
  function Decide(isAuthenticated: bool, user: Option<User>, required: seq<Permission>): (o: Outcome)
    ensures o == RedirectToLogin <==> !isAuthenticated
    ensures o == RenderChildren <==> isAuthenticated && GrantsAll(user, required)
    ensures o == RedirectToUnauthorized <==> isAuthenticated && !GrantsAll(user, required)
  {
    if !isAuthenticated then RedirectToLogin
    else if |required| > 0 && !Every(user, required) then RedirectToUnauthorized
    else RenderChildren
  }

  /** A signed-out visitor is sent to the login page whatever the route requires, even nothing. */
  lemma SignedOutGoesToLogin(user: Option<User>, required: seq<Permission>)
    ensures Decide(false, user, required) == RedirectToLogin
    ensures Decide(false, user, []) == RedirectToLogin
  {
  }

  /** A route that requires nothing renders for any signed-in session. */
  lemma NothingRequiredRenders(user: Option<User>)
    ensures Decide(true, user, []) == RenderChildren
  {
  }

  /** One refused pair is enough to send a signed-in user to the unauthorized page, never to login. */
  lemma RefusedPairGoesToUnauthorized(user: Option<User>, required: seq<Permission>, p: Permission)
    requires p in required && !HasPermission(user, p.action, p.subject)
    ensures Decide(true, user, required) == RedirectToUnauthorized
  {
  }

  /** The decision reads the required list as a set: order and repetitions do not matter. */
  lemma {:induction false} OnlyTheSetMatters(
    isAuthenticated: bool, user: Option<User>, r1: seq<Permission>, r2: seq<Permission>)
    requires AsSet(r1) == AsSet(r2)
    ensures Decide(isAuthenticated, user, r1) == Decide(isAuthenticated, user, r2)
  {
    assert forall p :: p in r1 <==> p in AsSet(r1);
    assert forall p :: p in r2 <==> p in AsSet(r2);
  }

  /** Requiring fewer pairs never turns a rendered page into a redirect. */
  lemma FewerRequirementsStillRender(user: Option<User>, r1: seq<Permission>, r2: seq<Permission>)
    requires forall p :: p in r2 ==> p in r1
    requires Decide(true, user, r1) == RenderChildren
    ensures Decide(true, user, r2) == RenderChildren
  {
  }

  /** Signed out, a page that requires reading candidates sends the visitor to login,
      not to the unauthorized page. */
  lemma SignedOutCandidatesPage()
    ensures Decide(false, None, [Permission(Read, Candidates)]) == RedirectToLogin
  {
  }

  /** The admin does not pass every guard: its grants leave out delete on settings and
      everything on roles, reports and pipeline levels. */
  lemma AdminIsNotAllPowerful(admin: User)
    requires admin.role == Admin
    ensures Decide(true, Some(admin), [Permission(Delete, Settings)]) == RedirectToUnauthorized
    ensures Decide(true, Some(admin), [Permission(Read, Reports)]) == RedirectToUnauthorized
  {
    var deleteSettings, readReports := Permission(Delete, Settings), Permission(Read, Reports);
    assert !AdminScope(deleteSettings) && !AdminScope(readReports);
    AdminRefused(admin, deleteSettings);
    AdminRefused(admin, readReports);
  }

  /** A pair outside the admin's scope sends the admin to the unauthorized page. */
  lemma AdminRefused(admin: User, p: Permission)
    requires admin.role == Admin && !AdminScope(p)
    ensures Decide(true, Some(admin), [p]) == RedirectToUnauthorized
  {
    AdminGrants();
    RefusedPairGoesToUnauthorized(Some(admin), [p], p);
  }
}
