/** The role × permission matrix: one row per (subject, action) for every subject that
    some role is granted anything on, one column per role. */
module RolePermissionsTable {
  import opened Common
  import opened Strings
  import opened Types
  import opened AuthContext

  /** `Object.values(rolePermissions)`, in key order. */
  const GrantLists: seq<seq<Permission>> :=
    [RolePermissions(Admin), RolePermissions(Recruiter), RolePermissions(HiringManager), RolePermissions(Viewer)]

  /** Some list grants something on the subject written `key`. */
  predicate SubjectGranted(lists: seq<seq<Permission>>, key: string) {
    exists i, p :: 0 <= i < |lists| && p in lists[i] && SubjectKey(p.subject) == key
  }

  /** `lists.flatMap(ps => ps.map(p => p.subject))`, in order. */
  function SubjectKeys(lists: seq<seq<Permission>>): (r: seq<string>)
    ensures forall key :: key in r <==> SubjectGranted(lists, key)
  {
    if lists == [] then []
    else
      var own := seq(|lists[0]|, k requires 0 <= k < |lists[0]| => SubjectKey(lists[0][k].subject));
      var rest := SubjectKeys(lists[1..]);
      forall key | SubjectGranted(lists, key)
        ensures key in own + rest
      {
        var i, p :| 0 <= i < |lists| && p in lists[i] && SubjectKey(p.subject) == key;
        if i == 0 {
          var k :| 0 <= k < |lists[0]| && lists[0][k] == p;
          assert own[k] == key;
        } else {
          assert p in lists[1..][i - 1];
        }
      }
      forall key | key in own + rest
        ensures SubjectGranted(lists, key)
      {
        if key in own {
          var k :| 0 <= k < |own| && own[k] == key;
          assert lists[0][k] in lists[0];
        } else {
          var i, p :| 0 <= i < |lists[1..]| && p in lists[1..][i] && SubjectKey(p.subject) == key;
          assert p in lists[i + 1];
        }
      }
      own + rest
  }

  /** `Array.from(new Set(subjects)).sort()`: every granted subject once, ascending. */
  function AllSubjectsOf(lists: seq<seq<Permission>>): (r: seq<string>)
    ensures StrictlySorted(r) && NoDuplicates(r)
    ensures forall key :: key in r <==> SubjectGranted(lists, key)
  {
    var r := Sort(Dedup(SubjectKeys(lists)));
    SortedHasNoDuplicates(r);
    r
  }

  /** Two ascending lists without repeats that hold the same strings are the same list. */
  lemma {:induction false} SortedListsWithSameElementsAreEqual(xs: seq<string>, ys: seq<string>)
    requires StrictlySorted(xs) && StrictlySorted(ys)
    requires forall s :: s in xs <==> s in ys
    ensures xs == ys
  {
    if xs != [] {
      assert xs[0] in ys;
    }
    if ys != [] {
      assert ys[0] in xs;
    }
    if xs != [] && ys != [] {
      // each head is the least element of the common set, so they coincide
      LessThanTotal(xs[0], ys[0]);
      if xs[0] != ys[0] {
        HeadIsLeast(ys, xs[0]);
        HeadIsLeast(xs, ys[0]);
        LessThanAsymmetric(xs[0], ys[0]);
      }
      forall s ensures s in xs[1..] <==> s in ys[1..] {
        SortedTail(xs, s);
        SortedTail(ys, s);
      }
      SortedListsWithSameElementsAreEqual(xs[1..], ys[1..]);
    }
  }

  /** The head of an ascending list is below every other element. */
  lemma HeadIsLeast(xs: seq<string>, s: string)
    requires StrictlySorted(xs) && s in xs && s != xs[0]
    ensures LessThan(xs[0], s)
  {
  }

  /** In an ascending list without repeats, the tail holds every element but the head. */
  lemma SortedTail(xs: seq<string>, s: string)
    requires StrictlySorted(xs) && xs != []
    ensures s in xs[1..] <==> s in xs && s != xs[0]
  {
    if s in xs[1..] {
      var j :| 0 <= j < |xs[1..]| && xs[1..][j] == s;
      assert LessThan(xs[0], xs[j + 1]);
      if s == xs[0] {
        LessThanIrreflexive(s);
      }
    }
  }

  /** Some role is granted something on a subject exactly when it is one of candidates,
      interviews, jobs, settings and users. */
  lemma LiveGranted(s: Subject)
    ensures SubjectGranted(GrantLists, SubjectKey(s)) <==> s in {Candidates, Interviews, Jobs, Settings, Users}
  {
    if SubjectGranted(GrantLists, SubjectKey(s)) {
      GrantedIsLive(s);
    }
    if s in {Candidates, Interviews, Jobs, Settings, Users} {
      AdminGrants();
      assert Permission(Read, s) in GrantLists[0];
    }
  }

  /** A subject some role is granted something on is one of the five. */
  lemma GrantedIsLive(s: Subject)
    requires SubjectGranted(GrantLists, SubjectKey(s))
    ensures s in {Candidates, Interviews, Jobs, Settings, Users}
  {
    var i, p :| 0 <= i < |GrantLists| && p in GrantLists[i] && SubjectKey(p.subject) == SubjectKey(s);
    SubjectKeyInjective(p.subject, s);
    var roles := [Admin, Recruiter, HiringManager, Viewer];
    assert GrantLists[i] == RolePermissions(roles[i]);
    GrantedSubjects(roles[i], p);
  }

  /** The expected row subjects, in ascending order. */
  const LiveSubjectKeys: seq<string> := ["candidates", "interviews", "jobs", "settings", "users"]

  lemma LiveSubjectKeysSorted()
    ensures StrictlySorted(LiveSubjectKeys)
  {
  }

  /** A key is among the expected ones exactly when some role is granted something on it. */
  lemma LiveMembership(key: string)
    ensures key in LiveSubjectKeys <==> SubjectGranted(GrantLists, key)
  {
    var subjects := [Candidates, Interviews, Jobs, Settings, Users];
    assert forall k :: 0 <= k < 5 ==> LiveSubjectKeys[k] == SubjectKey(subjects[k]);
    if key in LiveSubjectKeys {
      var k :| 0 <= k < 5 && LiveSubjectKeys[k] == key;
      LiveGranted(subjects[k]);
    }
    if SubjectGranted(GrantLists, key) {
      var i, p :| 0 <= i < |GrantLists| && p in GrantLists[i] && SubjectKey(p.subject) == key;
      LiveGranted(p.subject);
      assert p.subject in subjects;
    }
  }

  /** The rows of the live table are candidates, interviews, jobs, settings and users: no role
      is granted anything on roles, reports or pipeline levels. */
  lemma LiveSubjects()
    ensures AllSubjectsOf(GrantLists) == LiveSubjectKeys
  {
    LiveSubjectKeysSorted();
    forall key ensures key in AllSubjectsOf(GrantLists) <==> key in LiveSubjectKeys {
      LiveMembership(key);
    }
    SortedListsWithSameElementsAreEqual(AllSubjectsOf(GrantLists), LiveSubjectKeys);
  }

  /** Every role's grants stay within candidates, interviews, jobs, settings and users. */
  lemma GrantedSubjects(r: Role, p: Permission)
    requires p in RolePermissions(r)
    ensures p.subject in {Candidates, Interviews, Jobs, Settings, Users}
  {
    AdminGrants();
  }

  /** The check mark of a cell: the role's grants contain (action, subject). */
  function Cell(r: Role, subjectKey: string, actionKey: string): (checked: bool)
    ensures checked <==> GrantedByKey(RolePermissions(r), subjectKey, actionKey)
  {
    AnyGrantsByKey(RolePermissions(r), subjectKey, actionKey)
  }

  /** A cell reads the same as the session check for a user of that role. */
  lemma CellAgreesWithSessionCheck(u: User, a: Action, s: Subject)
    ensures Cell(u.role, SubjectKey(s), ActionKey(a)) == HasPermission(Some(u), a, s)
  {
    GrantedByKeyIffMember(RolePermissions(u.role), a, s);
  }

  /** One table row: an action on a subject, with a mark per role column. */
  datatype Row = Row(subjectKey: string, actionKey: string, marks: seq<bool>)

  /** The marks of one row, one per role, in column order. */
  function Marks(roles: seq<Role>, subjectKey: string, actionKey: string): (marks: seq<bool>)
    ensures |marks| == |roles|
    ensures forall j :: 0 <= j < |roles| ==> marks[j] == Cell(roles[j], subjectKey, actionKey)
  {
    seq(|roles|, j requires 0 <= j < |roles| => Cell(roles[j], subjectKey, actionKey))
  }

  const ActionOrder: seq<string> := ["create", "read", "update", "delete"]

  /** The four action rows of one subject. */
  function SubjectRows(roles: seq<Role>, subjectKey: string): (rows: seq<Row>)
    ensures |rows| == 4
  {
    seq(4, k requires 0 <= k < 4 => Row(subjectKey, ActionOrder[k], Marks(roles, subjectKey, ActionOrder[k])))
  }

  /** The rows of the subjects from position `i` on, in order. */
  function RowsFrom(roles: seq<Role>, subjects: seq<string>, i: nat): seq<Row>
    requires i <= |subjects|
    decreases |subjects| - i
  {
    if i == |subjects| then [] else SubjectRows(roles, subjects[i]) + RowsFrom(roles, subjects, i + 1)
  }

  /** For each subject, its four action rows; subjects in the given order. */
  function Rows(roles: seq<Role>, subjects: seq<string>): seq<Row> {
    RowsFrom(roles, subjects, 0)
  }

  /** The rows from position `i` on take four rows per subject. */
  lemma {:induction false} RowsFromLength(roles: seq<Role>, subjects: seq<string>, i: nat)
    requires i <= |subjects|
    ensures |RowsFrom(roles, subjects, i)| == 4 * (|subjects| - i)
    decreases |subjects| - i
  {
    if i < |subjects| {
      RowsFromLength(roles, subjects, i + 1);
    }
  }

  /** In the rows from position `i` on, the rows of subject `m` start at `4 (m - i)`. */
  lemma {:induction false} RowsFromAt(roles: seq<Role>, subjects: seq<string>, i: nat, m: int, k: int)
    requires i <= m < |subjects| && 0 <= k < 4
    ensures 4 * (m - i) + k < |RowsFrom(roles, subjects, i)|
    ensures RowsFrom(roles, subjects, i)[4 * (m - i) + k] == SubjectRows(roles, subjects[m])[k]
    decreases m - i
  {
    RowsFromLength(roles, subjects, i + 1);
    if m > i {
      RowsFromAt(roles, subjects, i + 1, m, k);
    }
  }

  /** Four rows per subject, in the order create, read, update, delete. */
  lemma RowsLayout(roles: seq<Role>, subjects: seq<string>)
    ensures |Rows(roles, subjects)| == 4 * |subjects|
    ensures forall m, k :: 0 <= m < |subjects| && 0 <= k < 4 ==>
      Rows(roles, subjects)[4 * m + k] == Row(subjects[m], ActionOrder[k], Marks(roles, subjects[m], ActionOrder[k]))
  {
    RowsFromLength(roles, subjects, 0);
    forall m, k | 0 <= m < |subjects| && 0 <= k < 4
      ensures Rows(roles, subjects)[4 * m + k] ==
        Row(subjects[m], ActionOrder[k], Marks(roles, subjects[m], ActionOrder[k]))
    {
      RowsFromAt(roles, subjects, 0, m, k);
    }
  }

  /** The table as drawn for the live grants: role columns in key order. */
  function Table(): seq<Row> {
    Rows(AllRoles, AllSubjectsOf(GrantLists))
  }
}
