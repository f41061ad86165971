/** The dialog that creates a role: a blank form and an empty matrix, single-cell
    toggles, and a reset once the role is submitted. */
module AddRoleDialog {
  import opened PermissionMatrix

  class AddRoleDialog {
    var form: RoleForm
    var permissions: Matrix
    var open: bool

    /** Every checkbox starts unchecked: the matrix is empty. */
    constructor(open: bool)
      ensures form == BlankRoleForm && permissions == map[] && this.open == open
      ensures forall m, p :: !Checked(permissions, m, p)
    {
      form := BlankRoleForm;
      permissions := map[];
      this.open := open;
    }

    /** The user types into the form. */
    method EditForm(values: RoleForm)
      modifies this
      ensures form == values && permissions == old(permissions) && open == old(open)
    {
      form := values;
    }

    /** `togglePermission(moduleId, perm)`: only that cell changes. */
    method TogglePermission(moduleId: string, perm: string)
      modifies this
      ensures permissions == Toggle(old(permissions), moduleId, perm)
      ensures form == old(form) && open == old(open)
    {
      permissions := Toggle(permissions, moduleId, perm);
    }

    /** A valid form is submitted: the form goes back to its defaults, the matrix is
        emptied and the dialog closes. An invalid form is refused and nothing changes. */
    method Submit()
      modifies this
      ensures ValidRoleForm(old(form)) ==>
        form == BlankRoleForm && permissions == map[] && !open
      ensures !ValidRoleForm(old(form)) ==>
        form == old(form) && permissions == old(permissions) && open == old(open)
    {
      if ValidRoleForm(form) {
        form := BlankRoleForm;
        permissions := map[];
        open := false;
      }
    }
  }

  /** A role submitted after any toggles leaves the dialog showing every checkbox unchecked. */
  method SubmitClearsToggles(name: string, moduleId: string, perm: string) returns (d: AddRoleDialog)
    requires |name| >= 2
    ensures forall m, p :: !Checked(d.permissions, m, p)
    ensures d.form == BlankRoleForm && !d.open
  {
    d := new AddRoleDialog(true);
    d.EditForm(RoleForm(name, ""));
    d.TogglePermission(moduleId, perm);
    assert Checked(d.permissions, moduleId, perm);
    d.Submit();
  }
}
