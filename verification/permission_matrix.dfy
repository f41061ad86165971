/** What the role dialogs share: the module → permission-type → checked matrix with its
    single-cell toggle, and the role form with its schema. */
module PermissionMatrix {
  import Strings

  /** `Record<string, Record<string, boolean>>`; a missing module or cell reads unchecked. */
  type Matrix = map<string, map<string, bool>>

  /** `permissions[moduleId]?.[perm] || false`: what the checkbox shows. */
  predicate Checked(mat: Matrix, moduleId: string, perm: string) {
    moduleId in mat && perm in mat[moduleId] && mat[moduleId][perm]
  }

  /** `{...prev, [moduleId]: {...prev[moduleId], [perm]: !prev[moduleId]?.[perm]}}`:
      the addressed cell is flipped (a missing cell becomes checked); nothing else moves. */
  function Toggle(mat: Matrix, moduleId: string, perm: string): (r: Matrix)
    ensures Checked(r, moduleId, perm) == !Checked(mat, moduleId, perm)
    ensures forall m, p :: (m != moduleId || p != perm) ==> Checked(r, m, p) == Checked(mat, m, p)
    ensures forall m :: m in r <==> m in mat || m == moduleId
    ensures forall m :: m in mat && m != moduleId ==> r[m] == mat[m]
    ensures forall p :: p in r[moduleId] <==> p == perm || (moduleId in mat && p in mat[moduleId])
    ensures forall p :: p != perm && moduleId in mat && p in mat[moduleId] ==> r[moduleId][p] == mat[moduleId][p]
  {
    var row := if moduleId in mat then mat[moduleId] else map[];
    mat[moduleId := row[perm := !Checked(mat, moduleId, perm)]]
  }

  /** Toggling the same cell twice restores what every checkbox shows. */
  lemma ToggleTwiceRestoresView(mat: Matrix, moduleId: string, perm: string)
    ensures forall m, p :: Checked(Toggle(Toggle(mat, moduleId, perm), moduleId, perm), m, p) == Checked(mat, m, p)
  {
  }

  /** When the cell is already present, toggling it twice gives back the very same matrix. */
  lemma ToggleTwiceRestoresPresentCell(mat: Matrix, moduleId: string, perm: string)
    requires moduleId in mat && perm in mat[moduleId]
    ensures Toggle(Toggle(mat, moduleId, perm), moduleId, perm) == mat
  {
    var once := Toggle(mat, moduleId, perm);
    var twice := Toggle(once, moduleId, perm);
    var row, row2 := mat[moduleId], twice[moduleId];
    assert row2 == once[moduleId][perm := !once[moduleId][perm]];
    assert row2.Keys == row.Keys;
    assert forall p :: p in row ==> row2[p] == row[p];
    assert row2 == row;
    assert twice == mat[moduleId := row];
    assert mat[moduleId := row] == mat;
  }

  /** On a missing cell a double toggle leaves an explicit `false` behind: the matrix is not
      the one started from, though it reads the same. */
  lemma ToggleTwiceOnMissingCell()
    ensures Toggle(Toggle(map[], "jobs", "read"), "jobs", "read") == map["jobs" := map["read" := false]]
    ensures Toggle(Toggle(map[], "jobs", "read"), "jobs", "read") != map[]
  {
    var empty: Matrix := map[];
    var once := Toggle(empty, "jobs", "read");
    assert once == map["jobs" := map["read" := true]];
    var twice := Toggle(once, "jobs", "read");
    assert twice["jobs"] == map["read" := false];
    assert twice == map["jobs" := map["read" := false]];
  }

  /** The empty matrix shows every checkbox unchecked. */
  lemma EmptyIsUnchecked()
    ensures forall m, p :: !Checked(map[], m, p)
  {
  }

  /** The row of four flags a role dialog writes for one module. */
  function Cells(create: bool, read: bool, update: bool, delete: bool): (row: map<string, bool>)
    ensures row.Keys == {"create", "read", "update", "delete"}
  {
    map["create" := create, "read" := read, "update" := update, "delete" := delete]
  }

  /** The same row for every module of the list. */
  function Uniform(modules: seq<string>, row: map<string, bool>): (mat: Matrix)
    ensures mat.Keys == set m | m in modules
    ensures forall m :: m in mat ==> mat[m] == row
  {
    map m | m in modules :: row
  }

  /** The fields of a role form. */
  datatype RoleForm = RoleForm(name: string, description: string)

  /** The blank form every role dialog starts from and resets to. */
  const BlankRoleForm := RoleForm("", "")

  /** The role schema: a name at least two UTF-16 code units long; the description is free. */
  predicate ValidRoleForm(form: RoleForm) {
    Strings.Utf16Length(form.name) >= 2
  }

  /** A name of one astral character, such as an emoji, already meets the bound. */
  lemma OneEmojiNameIsValid()
    ensures ValidRoleForm(RoleForm("\U{1F600}", ""))
  {
    Strings.AstralCharIsTwoUnits('\U{1F600}');
  }
}
