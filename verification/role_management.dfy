/** The role management page: its sample roles, its own edit dialog whose matrix is
    derived from the role's name, and which dialog is open for which role. */
module RoleManagement {
  import opened Common
  import opened PermissionMatrix

  datatype RoleSummary = RoleSummary(id: string, name: string, description: string)

  const Roles: seq<RoleSummary> := [
    RoleSummary("1", "Admin", "Full system access"),
    RoleSummary("2", "Recruiter", "Can manage candidates and jobs"),
    RoleSummary("3", "Hiring Manager", "Limited access to review candidates"),
    RoleSummary("4", "Viewer", "Read-only access to the system")
  ]

  /** The page's six modules (its list differs from the stand-alone dialogs' seven). */
  const Modules: seq<string> := ["recruitment", "candidates", "jobs", "interviews", "users", "settings"]

  /** Index `i` holds the first role with that id. */
  predicate FirstWithId(roles: seq<RoleSummary>, id: string, i: int) {
    0 <= i < |roles| && roles[i].id == id && forall j :: 0 <= j < i ==> roles[j].id != id
  }

  /** `roles.find(r => r.id === roleId)`. */
  function FindRole(roles: seq<RoleSummary>, id: string): (r: Option<RoleSummary>)
    ensures r.None? <==> forall role :: role in roles ==> role.id != id
    ensures r.Some? ==> exists i :: FirstWithId(roles, id, i) && roles[i] == r.value
  {
    if roles == [] then None
    else if roles[0].id == id then Some(roles[0])
    else
      var r := FindRole(roles[1..], id);
      assert r.Some? ==> exists i :: FirstWithId(roles, id, i) && roles[i] == r.value by {
        if r.Some? {
          var k :| FirstWithId(roles[1..], id, k) && roles[1..][k] == r.value;
          assert forall j :: 1 <= j < k + 1 ==> roles[j] == roles[1..][j - 1];
          assert FirstWithId(roles, id, k + 1);
        }
      }
      r
  }

  /** Whether the (possibly missing) role carries exactly this name. */
  predicate Named(role: Option<RoleSummary>, name: string) {
    role.Some? && role.value.name == name
  }

  /** The flags written for every module: read always, create and update for the admin
      and recruiter names, delete for the admin name only. */
  function DefaultCells(role: Option<RoleSummary>): (row: map<string, bool>)
    ensures row.Keys == {"create", "read", "update", "delete"}
    ensures row["read"]
    ensures row["create"] <==> Named(role, "Admin") || Named(role, "Recruiter")
    ensures row["update"] == row["create"]
    ensures row["delete"] <==> Named(role, "Admin")
    ensures row["delete"] ==> row["create"]
  {
    var manages := Named(role, "Admin") || Named(role, "Recruiter");
    Cells(manages, true, manages, Named(role, "Admin"))
  }

  /** The state initializer: one `DefaultCells` row written per module, in list order. */
  method InitialPermissions(modules: seq<string>, role: Option<RoleSummary>) returns (perms: Matrix)
    ensures perms == Uniform(modules, DefaultCells(role))
  {
    var row := DefaultCells(role);
    perms := map[];
    var i := 0;
    while i < |modules|
      invariant 0 <= i <= |modules|
      invariant perms.Keys == set m | m in modules[..i]
      invariant forall m :: m in perms ==> perms[m] == row
    {
      assert modules[..i + 1] == modules[..i] + [modules[i]];
      perms := perms[modules[i] := row];
      i := i + 1;
    }
    assert modules[..i] == modules;
  }

  /** Every module of the list gets a row; read is checked everywhere; create and update
      exactly for the admin and recruiter names; delete exactly for the admin name. */
  lemma DerivedMatrix(role: Option<RoleSummary>)
    ensures Uniform(Modules, DefaultCells(role)).Keys == set m | m in Modules
    ensures forall m :: m in Modules ==> Checked(Uniform(Modules, DefaultCells(role)), m, "read")
    ensures forall m :: m in Modules ==>
      (Checked(Uniform(Modules, DefaultCells(role)), m, "create") <==> Named(role, "Admin") || Named(role, "Recruiter"))
    ensures forall m :: m in Modules ==>
      (Checked(Uniform(Modules, DefaultCells(role)), m, "update") <==> Named(role, "Admin") || Named(role, "Recruiter"))
    ensures forall m :: m in Modules ==>
      (Checked(Uniform(Modules, DefaultCells(role)), m, "delete") <==> Named(role, "Admin"))
  {
  }

  /** An id that names no role yields a read-only matrix. */
  lemma UnknownRoleIsReadOnly(id: string)
    requires forall r :: r in Roles ==> r.id != id
    ensures forall m, p :: m in Modules ==>
      (Checked(Uniform(Modules, DefaultCells(FindRole(Roles, id))), m, p) <==> p == "read")
  {
  }

  /** Of the sample roles, the hiring manager and the viewer both get read-only matrices:
      the derivation looks only at the admin and recruiter names. */
  lemma SampleRoleMatrices()
    ensures FindRole(Roles, "1") == Some(Roles[0]) && DefaultCells(Some(Roles[0]))["delete"]
    ensures FindRole(Roles, "2") == Some(Roles[1])
    ensures DefaultCells(Some(Roles[1])) == Cells(true, true, true, false)
    ensures DefaultCells(Some(Roles[2])) == Cells(false, true, false, false)
    ensures DefaultCells(Some(Roles[3])) == Cells(false, true, false, false)
  {
    SampleRolesFound();
    SampleRoleCells();
  }

  lemma SampleRolesFound()
    ensures FindRole(Roles, "1") == Some(Roles[0]) && FindRole(Roles, "2") == Some(Roles[1])
  {
  }

  lemma SampleRoleCells()
    ensures DefaultCells(Some(Roles[0]))["delete"]
    ensures DefaultCells(Some(Roles[1])) == Cells(true, true, true, false)
    ensures DefaultCells(Some(Roles[2])) == Cells(false, true, false, false)
    ensures DefaultCells(Some(Roles[3])) == Cells(false, true, false, false)
  {
  }

  /** The page's inner edit dialog, mounted for one role id. */
  class RoleEditor {
    var form: RoleForm
    var permissions: Matrix
    var open: bool

    /** The form defaults to the role's name and description (blank for an unknown id);
        the matrix is the one derived from the role. */
    constructor(roleId: string, open: bool)
      ensures FindRole(Roles, roleId).Some? ==>
        form == RoleForm(FindRole(Roles, roleId).value.name, FindRole(Roles, roleId).value.description)
      ensures FindRole(Roles, roleId).None? ==> form == BlankRoleForm
      ensures permissions == Uniform(Modules, DefaultCells(FindRole(Roles, roleId)))
      ensures this.open == open
    {
      var role := FindRole(Roles, roleId);
      var perms := InitialPermissions(Modules, role);
      form := match role
        case Some(r) => RoleForm(r.name, r.description)
        case None => BlankRoleForm;
      permissions := perms;
      this.open := open;
    }

    /** The user types into the form. */
    method EditForm(values: RoleForm)
      modifies this
      ensures form == values && permissions == old(permissions) && open == old(open)
    {
      form := values;
    }

    /** `togglePermission(moduleId, perm)`: only that cell changes. */
    method TogglePermission(moduleId: string, perm: string)
      modifies this
      ensures permissions == Toggle(old(permissions), moduleId, perm)
      ensures form == old(form) && open == old(open)
    {
      permissions := Toggle(permissions, moduleId, perm);
    }

    /** A valid form closes the dialog and keeps the matrix; an invalid one changes nothing. */
    method Submit()
      modifies this
      ensures form == old(form) && permissions == old(permissions)
      ensures open == (old(open) && !ValidRoleForm(form))
    {
      if ValidRoleForm(form) {
        open := false;
      }
    }
  }

  /** Which dialog is open, and for which role. */
  class RoleManagementPage {
    var addOpen: bool
    var editOpen: bool
    var currentRoleId: Option<string>

    constructor()
      ensures !addOpen && !editOpen && currentRoleId == None
    {
      addOpen := false;
      editOpen := false;
      currentRoleId := None;
    }

    /** `handleAddRole`: opens the add dialog. */
    method HandleAddRole()
      modifies this
      ensures addOpen && editOpen == old(editOpen) && currentRoleId == old(currentRoleId)
    {
      addOpen := true;
    }

    /** `handleEditRole(roleId)`: remembers the role and opens the edit dialog. */
    method HandleEditRole(roleId: string)
      modifies this
      ensures currentRoleId == Some(roleId) && editOpen && addOpen == old(addOpen)
    {
      currentRoleId := Some(roleId);
      editOpen := true;
    }
  }
}
