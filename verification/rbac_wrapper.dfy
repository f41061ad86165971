/** The render wrapper: shows its children when the optional required permission is
    granted, and its fallback (nothing by default) when it is not. */
module RBACWrapper {
  import opened Common
  import opened Types
  import opened AuthContext
  import ProtectedRoute

  /** What the wrapper renders; `None` is React's `null`, which is also the default
      fallback. The decision reads only the permission lookup: neither whether the
      session is signed in nor anything that navigates. */
  function Render<T>(user: Option<User>, required: Option<Permission>, children: T, fallback: Option<T>): (r: Option<T>)
    ensures required.None? ==> r == Some(children)
    ensures required.Some? && HasPermission(user, required.value.action, required.value.subject) ==>
      r == Some(children)
    ensures required.Some? && !HasPermission(user, required.value.action, required.value.subject) ==>
      r == fallback
  {
    if required.Some? && !HasPermission(user, required.value.action, required.value.subject) then fallback
    else Some(children)
  }

  /** A recruiter never sees a control that requires deleting candidates: with the default
      fallback nothing is rendered. */
  lemma RecruiterSeesNoDeleteButton<T>(recruiter: User, button: T)
    requires recruiter.role == Recruiter
    ensures Render(Some(recruiter), Some(Permission(Delete, Candidates)), button, None) == None
  {
    RecruiterNeverDeletes();
  }

  /** Without a current user every guarded element falls back. */
  lemma NoUserFallsBack<T>(p: Permission, children: T, fallback: Option<T>)
    ensures Render(None, Some(p), children, fallback) == fallback
  {
  }

  /** For a signed-in session the wrapper and the route guard agree: the children are shown
      exactly when the guard would render a page requiring the same single pair. */
  lemma AgreesWithRouteGuard<T>(user: Option<User>, p: Permission, children: T)
    ensures Render(user, Some(p), children, None) == Some(children) <==>
      ProtectedRoute.Decide(true, user, [p]) == ProtectedRoute.RenderChildren
  {
    assert ProtectedRoute.GrantsAll(user, [p]) <==> HasPermission(user, p.action, p.subject);
  }
}
