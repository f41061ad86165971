/** The dialog that edits an existing role: it loads a sample role's matrix by id and lets
    the user flip single cells. */
module EditRoleDialog {
  import opened PermissionMatrix

  const Modules: seq<string> := ["recruitment", "candidates", "jobs", "users", "settings", "reports", "workflow"]

  const PermissionTypes: seq<string> := ["create", "read", "update", "delete"]

  datatype MockRole = MockRole(name: string, description: string, permissions: Matrix)

  /** The sample roles, keyed by id. */
  const MockRoles: map<string, MockRole> := map[
    "1" := MockRole("Admin", "Full system access", Uniform(Modules, Cells(true, true, true, true))),
    "2" := MockRole("Recruiter", "Can manage candidates and jobs", map[
      "recruitment" := Cells(true, true, true, false),
      "candidates" := Cells(true, true, true, false),
      "jobs" := Cells(true, true, true, false),
      "users" := Cells(false, true, false, false),
      "settings" := Cells(false, true, false, false),
      "reports" := Cells(false, true, false, false),
      "workflow" := Cells(true, true, true, false)]),
    "3" := MockRole("Hiring Manager", "Limited access to review candidates", map[
      "recruitment" := Cells(false, true, true, false),
      "candidates" := Cells(false, true, true, false),
      "jobs" := Cells(false, true, true, false),
      "users" := Cells(false, true, false, false),
      "settings" := Cells(false, false, false, false),
      "reports" := Cells(false, true, false, false),
      "workflow" := Cells(false, true, true, false)]),
    "4" := MockRole("Viewer", "Read-only access to the system", Uniform(Modules, Cells(false, true, false, false)))
  ]

  /** The admin sample checks every cell of every module. */
  lemma AdminAllChecked()
    ensures forall m, p :: m in Modules && p in PermissionTypes ==> Checked(MockRoles["1"].permissions, m, p)
  {
  }

  /** The viewer sample checks read and nothing else, on every module. */
  lemma ViewerReadsOnly()
    ensures forall m, p :: m in Modules && p in PermissionTypes ==>
      (Checked(MockRoles["4"].permissions, m, p) <==> p == "read")
  {
  }

  /** The recruiter sample never checks delete. */
  lemma RecruiterNeverDeletes()
    ensures forall m :: !Checked(MockRoles["2"].permissions, m, "delete")
  {
    var mat := MockRoles["2"].permissions;
    forall m | m in mat ensures !mat[m]["delete"] {
      assert m in Modules;
    }
  }

  /** The hiring manager sample checks nothing on settings. */
  lemma HiringManagerHasNoSettings()
    ensures forall p :: !Checked(MockRoles["3"].permissions, "settings", p)
  {
  }

  class EditRoleDialog {
    var form: RoleForm
    var permissions: Matrix
    var open: bool

    /** Mounts with a blank form and an empty matrix. */
    constructor(open: bool)
      ensures form == BlankRoleForm && permissions == map[] && this.open == open
    {
      form := BlankRoleForm;
      permissions := map[];
      this.open := open;
    }

    /** The load effect: a known role id fills the form and the matrix from its sample;
        any other id leaves both as they were. */
    method LoadRole(roleId: string)
      modifies this
      ensures roleId != "" && roleId in MockRoles ==>
        form == RoleForm(MockRoles[roleId].name, MockRoles[roleId].description) &&
        permissions == MockRoles[roleId].permissions
      ensures !(roleId != "" && roleId in MockRoles) ==> form == old(form) && permissions == old(permissions)
      ensures open == old(open)
    {
      if roleId != "" && roleId in MockRoles {
        var role := MockRoles[roleId];
        form := RoleForm(role.name, role.description);
        permissions := role.permissions;
      }
    }

    /** The user types into the form. */
    method EditForm(values: RoleForm)
      modifies this
      ensures form == values && permissions == old(permissions) && open == old(open)
    {
      form := values;
    }

    /** `togglePermission(moduleId, perm)`: only that cell changes. */
    method TogglePermission(moduleId: string, perm: string)
      modifies this
      ensures permissions == Toggle(old(permissions), moduleId, perm)
      ensures form == old(form) && open == old(open)
    {
      permissions := Toggle(permissions, moduleId, perm);
    }

    /** Submitting a valid form closes the dialog; the form and the matrix stay as they are.
        An invalid form is refused and nothing changes. */
    method Submit()
      modifies this
      ensures form == old(form) && permissions == old(permissions)
      ensures open == (old(open) && !ValidRoleForm(form))
    {
      if ValidRoleForm(form) {
        open := false;
      }
    }
  }

  /** An unknown role id leaves a freshly mounted dialog with the empty matrix. */
  method UnknownRoleStaysEmpty(roleId: string) returns (d: EditRoleDialog)
    requires roleId !in MockRoles
    ensures d.permissions == map[]
    ensures forall m, p :: !Checked(d.permissions, m, p)
  {
    d := new EditRoleDialog(true);
    d.LoadRole(roleId);
  }
}
