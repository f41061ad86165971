/** The authentication context: the static role → grants table, the fail-closed
    permission lookup and the session state changed by restore, login and logout. */
module AuthContext {
  import opened Common
  import opened Types

  datatype User = User(
    id: string,
    name: string,
    email: string,
    role: Role,
    department: Option<string>,
    avatar: Option<string>)

  /** The grants of each role, in the order the table lists them. */
  function RolePermissions(r: Role): seq<Permission> {
    match r
    case Admin => [
      Permission(Create, Candidates), Permission(Read, Candidates),
      Permission(Update, Candidates), Permission(Delete, Candidates),
      Permission(Create, Jobs), Permission(Read, Jobs),
      Permission(Update, Jobs), Permission(Delete, Jobs),
      Permission(Create, Interviews), Permission(Read, Interviews),
      Permission(Update, Interviews), Permission(Delete, Interviews),
      Permission(Create, Users), Permission(Read, Users),
      Permission(Update, Users), Permission(Delete, Users),
      Permission(Read, Settings), Permission(Update, Settings)]
    case Recruiter => [
      Permission(Create, Candidates), Permission(Read, Candidates), Permission(Update, Candidates),
      Permission(Create, Jobs), Permission(Read, Jobs), Permission(Update, Jobs),
      Permission(Create, Interviews), Permission(Read, Interviews), Permission(Update, Interviews),
      Permission(Read, Users)]
    case HiringManager => [
      Permission(Read, Candidates), Permission(Update, Candidates),
      Permission(Read, Jobs),
      Permission(Create, Interviews), Permission(Read, Interviews), Permission(Update, Interviews),
      Permission(Read, Users)]
    case Viewer => [
      Permission(Read, Candidates), Permission(Read, Jobs), Permission(Read, Interviews)]
  }

  /** `perms.some(p => p.action === a && p.subject === s)`: a linear scan that
      answers exactly the membership of the pair. */
  function AnyGrants(perms: seq<Permission>, a: Action, s: Subject): (r: bool)
    ensures r <==> Permission(a, s) in perms
  {
    perms != [] && ((perms[0].action == a && perms[0].subject == s) || AnyGrants(perms[1..], a, s))
  }

  /** Some grant of the list names the subject and the action by their keys; the
      permission tables look grants up by the strings they display. */
  predicate GrantedByKey(perms: seq<Permission>, subjectKey: string, actionKey: string) {
    exists p :: p in perms && SubjectKey(p.subject) == subjectKey && ActionKey(p.action) == actionKey
  }

  /** The `.some` scan comparing keys. */
  function AnyGrantsByKey(perms: seq<Permission>, subjectKey: string, actionKey: string): (r: bool)
    ensures r <==> GrantedByKey(perms, subjectKey, actionKey)
  {
    if perms == [] then false
    else
      var rest := AnyGrantsByKey(perms[1..], subjectKey, actionKey);
      assert forall p :: p in perms <==> p == perms[0] || p in perms[1..];
      (SubjectKey(perms[0].subject) == subjectKey && ActionKey(perms[0].action) == actionKey) || rest
  }

  /** Looking a grant up by its keys is looking it up by value: keys name values one to one. */
  lemma GrantedByKeyIffMember(perms: seq<Permission>, a: Action, s: Subject)
    ensures GrantedByKey(perms, SubjectKey(s), ActionKey(a)) <==> Permission(a, s) in perms
  {
    if GrantedByKey(perms, SubjectKey(s), ActionKey(a)) {
      var p :| p in perms && SubjectKey(p.subject) == SubjectKey(s) && ActionKey(p.action) == ActionKey(a);
      SubjectKeyInjective(p.subject, s);
      ActionKeyInjective(p.action, a);
      assert p == Permission(a, s);
    }
  }

  /** `hasPermission(a, s)` for the session's current user: false without a user,
      otherwise whether the user's role lists the pair. */
  function HasPermission(user: Option<User>, a: Action, s: Subject): (r: bool)
    ensures user.None? ==> !r
    ensures user.Some? ==> (r <==> Permission(a, s) in RolePermissions(user.value.role))
  {
    match user
    case None => false
    case Some(u) => AnyGrants(RolePermissions(u.role), a, s)
  }

  /** The viewer reads candidates, jobs and interviews, and may do nothing else. */
  lemma ViewerGrantsReadOnly()
    ensures forall p :: p in RolePermissions(Viewer) <==>
      p.action == Read && (p.subject == Candidates || p.subject == Jobs || p.subject == Interviews)
  {
  }

  /** Consequences for a signed-in viewer: reading jobs is allowed, updating candidates is not. */
  lemma ViewerExamples(u: User)
    requires u.role == Viewer
    ensures HasPermission(Some(u), Read, Jobs)
    ensures !HasPermission(Some(u), Update, Candidates)
  {
    ViewerGrantsReadOnly();
  }

  /** The recruiter holds no delete grant at all. */
  lemma RecruiterNeverDeletes()
    ensures forall p :: p in RolePermissions(Recruiter) ==> p.action != Delete
    ensures !HasPermission(Some(User("", "", "", Recruiter, None, None)), Delete, Candidates)
  {
  }

  /** What the admin may do: every action on candidates, jobs, interviews and users,
      and read and update on settings. */
  predicate AdminScope(p: Permission) {
    || p.subject == Candidates || p.subject == Jobs || p.subject == Interviews || p.subject == Users
    || (p.subject == Settings && (p.action == Read || p.action == Update))
  }

  /** The admin's list holds exactly `AdminScope`: nothing on roles, reports or pipeline
      levels, and neither create nor delete on settings. */
  lemma AdminGrants()
    ensures forall p :: p in RolePermissions(Admin) <==> AdminScope(p)
  {
    var g := RolePermissions(Admin);
    assert forall k :: 0 <= k < |g| ==> AdminScope(g[k]);
    forall p | AdminScope(p)
      ensures p in g
    {
      var row := match p.subject
        case Candidates => 0 case Jobs => 4 case Interviews => 8 case Users => 12 case _ => 15;
      var column := match p.action
        case Create => 0 case Read => 1 case Update => 2 case Delete => 3;
      assert g[row + column] == p;
    }
  }

  /** Who may read what: every role reads candidates and jobs, every role but the viewer
      reads users, and only the admin reads settings. */
  lemma ReadGrants(r: Role)
    ensures Permission(Read, Candidates) in RolePermissions(r)
    ensures Permission(Read, Jobs) in RolePermissions(r)
    ensures Permission(Read, Users) in RolePermissions(r) <==> r != Viewer
    ensures Permission(Read, Settings) in RolePermissions(r) <==> r == Admin
  {
    var g := RolePermissions(r);
    match r
    case Admin => assert g[1] == Permission(Read, Candidates) && g[5] == Permission(Read, Jobs);
    case Recruiter => assert g[1] == Permission(Read, Candidates) && g[4] == Permission(Read, Jobs);
    case HiringManager => assert g[0] == Permission(Read, Candidates) && g[2] == Permission(Read, Jobs);
    case Viewer => assert g[0] == Permission(Read, Candidates) && g[1] == Permission(Read, Jobs);
  }

  /** No role lists the same pair twice. */
  lemma GrantListsAreDistinct(r: Role)
    ensures NoDuplicates(RolePermissions(r))
  {
    if r == Admin {
      AdminGrantsAreDistinct();
    }
  }

  lemma AdminGrantsAreDistinct()
    ensures NoDuplicates(RolePermissions(Admin))
  {
  }

  const MockUsers: seq<User> := [
    User("1", "Admin User", "admin@example.com", Admin, None, Some("AU")),
    User("2", "Recruiter User", "recruiter@example.com", Recruiter, Some("HR"), Some("RU")),
    User("3", "Manager User", "manager@example.com", HiringManager, Some("Engineering"), Some("MU")),
    User("4", "Viewer User", "viewer@example.com", Viewer, None, Some("VU"))
  ]

  /** Index `i` holds the first user with that email. */
  predicate FirstWithEmail(users: seq<User>, email: string, i: int) {
    0 <= i < |users| && users[i].email == email && forall j :: 0 <= j < i ==> users[j].email != email
  }

  /** `users.find(u => u.email === email)`: the first user with that email, if any. */
  function FindByEmail(users: seq<User>, email: string): (r: Option<User>)
    ensures r.None? <==> forall u :: u in users ==> u.email != email
    ensures r.Some? ==> exists i :: FirstWithEmail(users, email, i) && users[i] == r.value
  {
    if users == [] then None
    else if users[0].email == email then Some(users[0])
    else
      var r := FindByEmail(users[1..], email);
      assert r.Some? ==> exists i :: FirstWithEmail(users, email, i) && users[i] == r.value by {
        if r.Some? {
          var k :| FirstWithEmail(users[1..], email, k) && users[1..][k] == r.value;
          assert forall j :: 1 <= j < k + 1 ==> users[j] == users[1..][j - 1];
          assert FirstWithEmail(users, email, k + 1);
        }
      }
      r
  }

  /** The session: the current user and whether one is signed in. */
  class AuthSession {
    var currentUser: Option<User>
    var isAuthenticated: bool

    /** Signed in exactly when there is a current user. */
    ghost predicate Valid()
      reads this
    {
      isAuthenticated <==> currentUser.Some?
    }

    /** The provider mounts with nobody signed in. */
    constructor()
      ensures currentUser == None && !isAuthenticated
      ensures Valid()
    {
      currentUser := None;
      isAuthenticated := false;
    }

    /** The permission check the context hands to its consumers. */
    function Can(a: Action, s: Subject): bool
      reads this
    {
      HasPermission(currentUser, a, s)
    }

    /** The mount effect: a saved user (already decoded) signs that user in;
        nothing saved leaves the session as it is. */
    method RestoreSavedUser(saved: Option<User>)
      requires Valid()
      modifies this
      ensures Valid()
      ensures saved.Some? ==> currentUser == saved && isAuthenticated
      ensures saved.None? ==> currentUser == old(currentUser) && isAuthenticated == old(isAuthenticated)
    {
      if saved.Some? {
        currentUser := saved;
        isAuthenticated := true;
      }
    }

    /** `login(email)`: signs in the first mock user with that email; an unknown
        email changes nothing. */
    method Login(email: string)
      requires Valid()
      modifies this
      ensures Valid()
      ensures FindByEmail(MockUsers, email).Some? ==>
        currentUser == FindByEmail(MockUsers, email) && isAuthenticated
      ensures FindByEmail(MockUsers, email).None? ==>
        currentUser == old(currentUser) && isAuthenticated == old(isAuthenticated)
    {
      var user := FindByEmail(MockUsers, email);
      if user.Some? {
        currentUser := user;
        isAuthenticated := true;
      }
    }

    /** `logout()`: nobody is signed in afterwards. */
    method Logout()
      modifies this
      ensures currentUser == None && !isAuthenticated
      ensures Valid()
    {
      currentUser := None;
      isAuthenticated := false;
    }
  }

  /** Each mock user signs in with their own email and gets their own role. */
  lemma MockLogins()
    ensures forall i :: 0 <= i < |MockUsers| ==> FindByEmail(MockUsers, MockUsers[i].email) == Some(MockUsers[i])
  {
  }
}
