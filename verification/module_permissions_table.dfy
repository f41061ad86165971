/** The read-only matrix of modules × permission types × roles on the role pages. */
module ModulePermissionsTable {
  import opened Common
  import opened Types
  import opened AuthContext

  /** The module rows; "recruitment" names no subject of the grants table. */
  const ModuleIds: seq<string> := ["recruitment", "candidates", "jobs", "interviews", "users", "settings"]

  const PermissionTypes: seq<string> := ["create", "read", "update", "delete"]

  /** `Object.keys(rolePermissions)`: the role keys in the order the table declares them. */
  const RoleColumns: seq<string> := ["admin", "recruiter", "hiring_manager", "viewer"]

  /** The columns are exactly the keys of the four roles, in table order. */
  lemma ColumnsAreRoleKeys()
    ensures |RoleColumns| == |AllRoles|
    ensures forall j :: 0 <= j < |RoleColumns| ==> RoleColumns[j] == RoleKey(AllRoles[j])
  {
  }

  /** Whether the role's grant list holds a grant with these subject and action keys.
      A role key the table does not hold yields false rather than an error; a key
      naming an inherited object property is not modelled (see the README). */
  function Check(role: string, moduleId: string, action: string): (r: bool)
    ensures ParseRole(role).None? ==> !r
    ensures ParseRole(role).Some? ==> (r <==> GrantedByKey(RolePermissions(ParseRole(role).value), moduleId, action))
  {
    match ParseRole(role)
    case None => false
    case Some(rl) => AnyGrantsByKey(RolePermissions(rl), moduleId, action)
  }

  /** For a real role, subject and action, the cell agrees with the session check of a user
      holding that role. */
  lemma AgreesWithSessionCheck(u: User, a: Action, s: Subject)
    ensures Check(RoleKey(u.role), SubjectKey(s), ActionKey(a)) == HasPermission(Some(u), a, s)
  {
    RolesAreClosed();
    GrantedByKeyIffMember(RolePermissions(u.role), a, s);
  }

  /** A key that is not a subject (the recruitment module) is unchecked for every role. */
  lemma NonSubjectModuleIsUnchecked(role: string, moduleId: string, action: string)
    requires ParseSubject(moduleId).None?
    ensures !Check(role, moduleId, action)
  {
  }

  /** A row of the matrix: a module heading, or one permission type with a cell per role. */
  datatype Row = ModuleHeader(moduleId: string) | PermissionRow(moduleId: string, action: string, cells: seq<bool>)

  /** The checkboxes of one permission row: the check of each role column, in column order. */
  function Cells(roles: seq<string>, moduleId: string, action: string): (cells: seq<bool>)
    ensures |cells| == |roles|
    ensures forall j :: 0 <= j < |roles| ==> cells[j] == Check(roles[j], moduleId, action)
  {
    seq(|roles|, j requires 0 <= j < |roles| => Check(roles[j], moduleId, action))
  }

  /** The permission rows of one module, one per permission type, in order. */
  function PermissionRows(roles: seq<string>, moduleId: string): (rows: seq<Row>)
    ensures |rows| == |PermissionTypes|
  {
    seq(|PermissionTypes|, k requires 0 <= k < |PermissionTypes| =>
      PermissionRow(moduleId, PermissionTypes[k], Cells(roles, moduleId, PermissionTypes[k])))
  }

  /** The rows of one module: its heading followed by its permission rows. */
  function Block(roles: seq<string>, moduleId: string): (rows: seq<Row>)
    ensures |rows| == 5
  {
    [ModuleHeader(moduleId)] + PermissionRows(roles, moduleId)
  }

  /** The blocks of the modules from position `i` on, in order. */
  function BodyFrom(roles: seq<string>, modules: seq<string>, i: nat): seq<Row>
    requires i <= |modules|
    decreases |modules| - i
  {
    if i == |modules| then [] else Block(roles, modules[i]) + BodyFrom(roles, modules, i + 1)
  }

  /** The table body: for each module its heading followed by its permission rows. */
  function Body(roles: seq<string>, modules: seq<string>): seq<Row> {
    BodyFrom(roles, modules, 0)
  }

  /** The blocks from position `i` on take five rows per module. */
  lemma {:induction false} BodyFromLength(roles: seq<string>, modules: seq<string>, i: nat)
    requires i <= |modules|
    ensures |BodyFrom(roles, modules, i)| == 5 * (|modules| - i)
    decreases |modules| - i
  {
    if i < |modules| {
      BodyFromLength(roles, modules, i + 1);
    }
  }

  /** In the blocks from position `i` on, the block of module `m` starts at `5 (m - i)`. */
  lemma {:induction false} BodyFromAt(roles: seq<string>, modules: seq<string>, i: nat, m: int, j: int)
    requires i <= m < |modules| && 0 <= j < 5
    ensures 5 * (m - i) + j < |BodyFrom(roles, modules, i)|
    ensures BodyFrom(roles, modules, i)[5 * (m - i) + j] == Block(roles, modules[m])[j]
    decreases m - i
  {
    BodyFromLength(roles, modules, i + 1);
    if m > i {
      BodyFromAt(roles, modules, i + 1, m, j);
    }
  }

  /** Five rows per module: the heading at `5m`, then the create, read, update and delete
      rows, each holding the check of every role column. */
  lemma BodyLayout(roles: seq<string>, modules: seq<string>)
    ensures |Body(roles, modules)| == 5 * |modules|
    ensures forall m :: 0 <= m < |modules| ==> Body(roles, modules)[5 * m] == ModuleHeader(modules[m])
    ensures forall m, k :: 0 <= m < |modules| && 0 <= k < 4 ==>
      Body(roles, modules)[5 * m + 1 + k] ==
        PermissionRow(modules[m], PermissionTypes[k], Cells(roles, modules[m], PermissionTypes[k]))
  {
    BodyFromLength(roles, modules, 0);
    forall m | 0 <= m < |modules|
      ensures Body(roles, modules)[5 * m] == ModuleHeader(modules[m])
    {
      BodyFromAt(roles, modules, 0, m, 0);
    }
    forall m, k | 0 <= m < |modules| && 0 <= k < 4
      ensures Body(roles, modules)[5 * m + 1 + k] ==
        PermissionRow(modules[m], PermissionTypes[k], Cells(roles, modules[m], PermissionTypes[k]))
    {
      BodyFromAt(roles, modules, 0, m, 1 + k);
    }
  }

  /** The matrix as drawn: one column per role key, 30 body rows. */
  lemma TableShape()
    ensures |Body(RoleColumns, ModuleIds)| == 30
  {
    BodyLayout(RoleColumns, ModuleIds);
  }
}
