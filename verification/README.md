# Applicant-tracking front end: access control, CSV and page state

This project models the logic core of a React applicant-tracking system (ATS) front end.
It covers three parts:

- **Role-based access control (RBAC):**
  - the closed sets of roles, actions and subjects;
  - the role → grant table;
  - the session's `hasPermission` lookup, and `login`, `logout` and saved-user restore;
  - the three consumers of that lookup: the route guard, the render/fallback wrapper and the route table;
  - the sidebar's visibility rules;
  - the two read-only permission tables;
  - the role-editing dialogs, whose permission matrix is a nested `module → action → bool` map changed one cell at a time.
- **CSV:**
  - `objectsToCSV`, whose header comes from the first record's keys and which quotes strings and doubles quotes;
  - `parseCSV` and the import dialog's near-identical loop, which skip blank lines and trim fields;
  - the export projections and the sample templates.
- **The state behind the pages:**
  - Candidates page: filter, selection, add, update, delete, bulk delete, status, the simulated portal import;
  - candidate form: skills with their ratings, experiences, submission mapping;
  - hiring pipeline levels: add, edit, delete with renumbering;
  - Jobs page: filter, selection toggles, import and export guards;
  - Interviews page: filter, add, status;
  - interview scheduling dialog: initials and the interviewer list;
  - job form: the job data sent, and the description generator.

Each source file keeps its own form:

- Pure lookups and projections are datatypes, functions and lemmas.
- Component state that handlers replace step by step is a `class`, whose fields are the component's state variables. Each handler is a `method` with a `modifies` clause. Its `ensures` states the new value of every field, usually through a specification function whose properties are proved as lemmas.
- The loops of the source are methods with loop invariants, proved equal to a recursive specification:
  - `objectsToCSV`;
  - `parseCSV`;
  - the import loop;
  - the matrix built by `forEach`.

Browser and network effects are parameters:

- the file's text;
- the AI generator's answer;
- a service failure;
- `Date.now()` ids;
- the saved user.

JavaScript objects are modelled as association lists of their own properties, in `JsObject`, listed in the order `Object.keys` gives (section 10.1.11.1 of ECMA-262). Keys that are array indices (the canonical numerals of 0 to 2^32 - 2) come first, in ascending numeric order; every other key follows in the order it was created. An assignment to an existing key keeps that key's position, and an assignment of a non-object value to `__proto__` creates no property. Strings are `seq<char>`, and case folding is ASCII only. A schema's length bound (zod's `min(n)`) compares `length`, which counts UTF-16 code units: a character outside the Basic Multilingual Plane counts twice (`Strings.Utf16Length`), so a one-emoji role name already meets `min(2)`.

The route table is matched as the router matches it: a pathname reaches the declared path equal to its normal form, which ignores ASCII case and drops trailing slashes, the empty pathname reading as the root (`AppRoutes.Normalise`). No two declared paths share a normal form, so the first match is the only one, and the catch-all `*` is used only when none matches.

Where the source files disagree with one another, the model follows the code that runs:

- **Admin grants.** The administrator is not granted everything. The role table grants the administrator all four actions on candidates, jobs, interviews and users only, read and update on settings, and nothing on roles, reports or pipeline levels. So some guarded pages with a requirement drawn from the enumerations do not render for an admin (`ProtectedRoute.AdminIsNotAllPowerful`).
- **Interview shape.** The `Interview` record in `src/types/index.ts` (lines 196-212) differs from the shape the Interviews page and the scheduling dialog use: a nested candidate, an interviewer list and a time span. The model follows the page.
- **Job enums.** The job form offers the types full-time, part-time, contract, remote and the statuses draft, active, closed, on-hold. The model uses these lists.
- **Candidate statuses.** The candidate statuses are those the Candidates page uses: new, reviewing, interview, offer, rejected.

## Model

| member | source | states |
|---|---|---|
| Types.RolesAreClosed | src/types/index.ts:5 | exactly four distinct roles; every role is listed and its key parses back to it |
| Types.ActionsAndSubjectsAreClosed | src/types/index.ts:8-9 | exactly four distinct actions and eight distinct subjects, all listed; subject keys parse back |
| Types.ActionKeyInjective | src/types/index.ts:8 | two actions with the same key are the same action |
| Types.SubjectKeyInjective | src/types/index.ts:9 | two subjects with the same key are the same subject |
| Types.ParseRole | src/types/index.ts:5 | a parsed key is that role's key; a key no role has gives None |
| Types.ParseSubject | src/types/index.ts:9 | a parsed key is that subject's key; a key no subject has gives None |
| Types.ApplicationStagesWellFormed | src/types/index.ts:68-139 | ten stages, the stage at index i has order i+1, ids distinct, first "new" and last "rejected" |
| AuthContext.AnyGrants | src/contexts/AuthContext.tsx:133-136 | the `.some` scan is true iff the (action, subject) pair is in the list |
| AuthContext.AnyGrantsByKey | src/components/users/ModulePermissionsTable.tsx:28-30 | the scan by subject and action key is true iff some grant has those keys |
| AuthContext.GrantedByKeyIffMember | src/contexts/AuthContext.tsx:133-136 | matching by keys agrees with structural membership of the pair |
| AuthContext.HasPermission | src/contexts/AuthContext.tsx:130-137 | false for every pair without a user; with a user, true iff the role's list contains the pair |
| AuthContext.ViewerGrantsReadOnly | src/contexts/AuthContext.tsx:47-51 | the viewer grants are exactly read on candidates, jobs and interviews |
| AuthContext.ViewerExamples | src/contexts/AuthContext.tsx:47-51 | a viewer may read jobs and may not update candidates |
| AuthContext.RecruiterNeverDeletes | src/contexts/AuthContext.tsx:26-37 | no recruiter grant is a delete; in particular a recruiter cannot delete candidates |
| AuthContext.AdminGrants | src/contexts/AuthContext.tsx:6-25 | admin holds all four actions on candidates, jobs, interviews and users, read and update on settings, and nothing else |
| AuthContext.ReadGrants | src/contexts/AuthContext.tsx:5-52 | every role reads candidates and jobs; reading users is every role but viewer; reading settings is admin only |
| AuthContext.GrantListsAreDistinct | src/contexts/AuthContext.tsx:5-52 | no role's list repeats a pair |
| AuthContext.AdminGrantsAreDistinct | src/contexts/AuthContext.tsx:6-25 | the admin's eighteen grants are pairwise distinct |
| AuthContext.FindByEmail | src/contexts/AuthContext.tsx:114 | None iff no user has the email; otherwise the first user with it |
| AuthContext.MockLogins | src/contexts/AuthContext.tsx:55-86 | every sample user's email finds that same user |
| AuthContext.AuthSession.constructor | src/contexts/AuthContext.tsx:101-102 | signed out: no user and not authenticated |
| AuthContext.AuthSession.RestoreSavedUser | src/contexts/AuthContext.tsx:105-111 | a saved user becomes the current user and authenticated; without one nothing changes; authenticated iff there is a user |
| AuthContext.AuthSession.Login | src/contexts/AuthContext.tsx:113-122 | a known email signs in its user; an unknown email changes nothing; the invariant is kept |
| AuthContext.AuthSession.Logout | src/contexts/AuthContext.tsx:124-128 | no user and not authenticated |
| ProtectedRoute.Every | src/components/auth/ProtectedRoute.tsx:28-30 | true iff every required pair is granted |
| ProtectedRoute.Decide | src/components/auth/ProtectedRoute.tsx:15-38 | login redirect iff signed out; render iff signed in and every pair granted; unauthorized redirect iff signed in and some pair refused |
| ProtectedRoute.SignedOutGoesToLogin | src/components/auth/ProtectedRoute.tsx:22-24 | signed out always goes to login, even with nothing required |
| ProtectedRoute.NothingRequiredRenders | src/components/auth/ProtectedRoute.tsx:17 | signed in with the default empty list renders |
| ProtectedRoute.RefusedPairGoesToUnauthorized | src/components/auth/ProtectedRoute.tsx:27-35 | one refused pair gives the unauthorized redirect, never login |
| ProtectedRoute.OnlyTheSetMatters | src/components/auth/ProtectedRoute.tsx:28-30 | two required lists with the same elements decide alike, so order and duplicates do not matter |
| ProtectedRoute.FewerRequirementsStillRender | src/components/auth/ProtectedRoute.tsx:27-35 | dropping required pairs never turns a render into a redirect |
| ProtectedRoute.SignedOutCandidatesPage | src/components/auth/ProtectedRoute.tsx:22-24 | the candidates requirement while signed out redirects to login |
| ProtectedRoute.AdminIsNotAllPowerful | src/contexts/AuthContext.tsx:6-25 | an admin is turned away from (delete, settings) and (read, reports) |
| ProtectedRoute.AdminRefused | src/components/auth/ProtectedRoute.tsx:29-35 | a pair outside the admin's grants sends a signed-in admin to the unauthorized page |
| RBACWrapper.Render | src/components/layout/RBACWrapper.tsx:15-27 | no requirement or a granted one shows the children; a refused one shows the fallback, nothing by default |
| RBACWrapper.RecruiterSeesNoDeleteButton | src/components/layout/RBACWrapper.tsx:22-24 | a delete-candidates button is hidden from a recruiter |
| RBACWrapper.NoUserFallsBack | src/components/layout/RBACWrapper.tsx:20-24 | without a user any requirement shows the fallback |
| RBACWrapper.AgreesWithRouteGuard | src/components/layout/RBACWrapper.tsx:22 | the wrapper shows its children iff the guard renders a page requiring the same pair, for a signed-in user |
| AppRoutes.Lookup | src/App.tsx:23-74 | a found entry is in the table; None iff no entry has the path |
| AppRoutes.LookupFindsFirst | src/App.tsx:23-74 | the first entry with the path wins |
| AppRoutes.RouteFor | src/App.tsx:22-74 | the entry of the listed path equal to the normalised pathname, or the not-found page when no listed path equals it |
| AppRoutes.NormaliseIsNormal | src/App.tsx:22-74 | normalising yields a non-empty path (the empty one becomes the root) with no upper-case ASCII letter and no trailing '/' but the root, and leaves such a path unchanged |
| AppRoutes.NormaliseIdempotent | src/App.tsx:22-74 | normalising twice is normalising once |
| AppRoutes.EmptyPathIsRoot | src/App.tsx:23 | the empty pathname reaches the route of "/" |
| AppRoutes.RoutesAreNormal | src/App.tsx:23-72 | every declared path is already in normal form |
| AppRoutes.DeclaredPathIsNormalised | src/App.tsx:23-72 | normalising a declared path gives it back |
| AppRoutes.RouteForNormalises | src/App.tsx:22-74 | a pathname and its normal form reach the same route |
| AppRoutes.MatchesDeclared | src/App.tsx:22-74 | a pathname differing from a declared path only in ASCII case and trailing slashes reaches that path's route |
| AppRoutes.MixedCaseWithSlash | src/App.tsx:32-36 | "/Candidates/" reaches the candidates route |
| AppRoutes.RouteAt | src/App.tsx:23-72 | each listed path routes to its own entry |
| AppRoutes.DeclaredLookup | src/App.tsx:23-72 | no two routes share a path, so the lookup of a declared path finds its own entry |
| AppRoutes.Visit | src/App.tsx:23-74 | open pages show; guarded pages go through the route guard |
| AppRoutes.OpenPages | src/App.tsx:23-24 | /login and /unauthorized show whatever the session |
| AppRoutes.DashboardNeedsOnlySignIn | src/App.tsx:26-30 | "/" shows when signed in and redirects to login otherwise |
| AppRoutes.GuardedRoutesRequireOnePair | src/App.tsx:32-72 | every guarded route but "/" lists exactly one pair |
| AppRoutes.RequiredPermissions | src/App.tsx:32-72 | the pair each guarded path requires |
| AppRoutes.UnknownPathIsNotFound | src/App.tsx:74 | a pathname whose normal form no route lists shows the not-found page, whoever visits |
| AppRoutes.AdminReachesEveryRoute | src/App.tsx:23-74 | a signed-in admin reaches every declared page |
| AppRoutes.ViewerTurnedAway | src/App.tsx:32-72 | a viewer is refused /users and /settings and shown /candidates |
| AppRoutes.AdminHoldsRequirements | src/App.tsx:32-72 | an admin holds every pair any guarded route requires |
| AppRoutes.SingleGuardVisit | src/App.tsx:32-72 | a signed-in visit to a one-pair route shows the page iff the role grants the pair, else redirects to unauthorized |
| AppRoutes.SingleGuardVisitAt | src/App.tsx:32-72 | the same for the route declared at a given position |
| Sidebar.VisibleItems | src/components/layout/Sidebar.tsx:56-58 | an item is listed iff it is declared and shown, in declaration order |
| Sidebar.ShowUserManagement | src/components/layout/Sidebar.tsx:82-84 | the section appears iff one of its items would be listed |
| Sidebar.ShowSettings | src/components/layout/Sidebar.tsx:42 | settings shows iff (read, settings) is granted |
| Sidebar.Render | src/components/layout/Sidebar.tsx:54-121 | the three sections as the visibility rules give them |
| Sidebar.DashboardAlwaysListed | src/components/layout/Sidebar.tsx:23 | the dashboard is always listed first |
| Sidebar.SignedOutSidebar | src/components/layout/Sidebar.tsx:42-58 | signed out, only the dashboard is listed |
| Sidebar.SignedOutHidesGuarded | src/components/layout/Sidebar.tsx:56-58 | signed out, a section whose items all carry a permission lists nothing |
| Sidebar.SignedOutMain | src/components/layout/Sidebar.tsx:22-28 | signed out, the main section keeps only the dashboard |
| Sidebar.SignedOutExtraSections | src/components/layout/Sidebar.tsx:31-42 | signed out, no user-management link passes and reading settings is not granted |
| Sidebar.MainSectionForEveryRole | src/components/layout/Sidebar.tsx:22-28 | every role sees the whole main section |
| Sidebar.MainPermissions | src/components/layout/Sidebar.tsx:22-28 | the main links need nothing, reading candidates or reading jobs |
| Sidebar.GrantedShowsAll | src/components/layout/Sidebar.tsx:56-58 | a section whose items are all granted is listed whole |
| Sidebar.RefusedHidesAll | src/components/layout/Sidebar.tsx:56-58 | a section none of whose items is granted lists nothing |
| Sidebar.UserManagementSection | src/components/layout/Sidebar.tsx:31-34 | every role but viewer sees user management |
| Sidebar.SettingsSection | src/components/layout/Sidebar.tsx:37-42 | only admin sees settings |
| Sidebar.LinksMatchRoutes | src/components/layout/Sidebar.tsx:22-39 | each link's permission is the one its route requires |
| Sidebar.LinkDeclared | src/components/layout/Sidebar.tsx:22-39 | link i has the path of route i + 2, whose guard requires the link's permission |
| Sidebar.LinkAt | src/components/layout/Sidebar.tsx:22-39 | the link at each position routes to the guarded route two places later in the route table, with the link's permission as its requirement |
| Sidebar.ListedLinksOpen | src/components/layout/Sidebar.tsx:56-58 | a listed link leads to a shown page, never a redirect |
| ModulePermissionsTable.ColumnsAreRoleKeys | src/components/users/ModulePermissionsTable.tsx:24 | the columns are the role keys in order |
| ModulePermissionsTable.Check | src/components/users/ModulePermissionsTable.tsx:27-31 | false for an unknown role; otherwise true iff a grant has that module and action |
| ModulePermissionsTable.AgreesWithSessionCheck | src/components/users/ModulePermissionsTable.tsx:27-31 | equal to the session's lookup for a user of that role |
| ModulePermissionsTable.NonSubjectModuleIsUnchecked | src/components/users/ModulePermissionsTable.tsx:10-17 | a module that is not a subject is never checked |
| ModulePermissionsTable.PermissionRows | src/components/users/ModulePermissionsTable.tsx:57-71 | four action rows per module |
| ModulePermissionsTable.BodyLayout | src/components/users/ModulePermissionsTable.tsx:46-73 | a header row then four rows in the order create, read, update, delete per module |
| ModulePermissionsTable.BodyFromAt | src/components/users/ModulePermissionsTable.tsx:46-73 | from any module on, the rows of module m start five rows per earlier module in |
| ModulePermissionsTable.TableShape | src/components/users/ModulePermissionsTable.tsx:10-20 | six modules give thirty rows |
| RolePermissionsTable.SubjectKeys | src/components/users/RolePermissionsTable.tsx:25-26 | a key is collected iff some role grants something on it |
| RolePermissionsTable.AllSubjectsOf | src/components/users/RolePermissionsTable.tsx:23-28 | strictly sorted, no duplicates, exactly the granted subjects |
| RolePermissionsTable.SortedListsWithSameElementsAreEqual | src/components/users/RolePermissionsTable.tsx:28 | two strictly sorted lists with the same elements are equal |
| RolePermissionsTable.LiveGranted | src/components/users/RolePermissionsTable.tsx:23-27 | the granted subjects are candidates, interviews, jobs, settings and users |
| RolePermissionsTable.GrantedIsLive | src/components/users/RolePermissionsTable.tsx:23-27 | a subject some role is granted anything on is one of those five |
| RolePermissionsTable.LiveSubjectKeysSorted | src/components/users/RolePermissionsTable.tsx:28 | those five keys are in ascending order |
| RolePermissionsTable.LiveMembership | src/components/users/RolePermissionsTable.tsx:23-27 | a key is among the five iff it is granted |
| RolePermissionsTable.LiveSubjects | src/components/users/RolePermissionsTable.tsx:23-28 | the table's subject list is exactly the five, sorted |
| RolePermissionsTable.GrantedSubjects | src/contexts/AuthContext.tsx:5-52 | every grant is on one of the five subjects |
| RolePermissionsTable.Cell | src/components/users/RolePermissionsTable.tsx:59-61 | checked iff the role's list has that action on that subject |
| RolePermissionsTable.CellAgreesWithSessionCheck | src/components/users/RolePermissionsTable.tsx:59-61 | equal to the session's lookup |
| RolePermissionsTable.RowsLayout | src/components/users/RolePermissionsTable.tsx:51-75 | four rows per subject, in the order create, read, update, delete |
| RolePermissionsTable.RowsFromAt | src/components/users/RolePermissionsTable.tsx:51-75 | from any subject on, the rows of subject m start four rows per earlier subject in |
| PermissionMatrix.Toggle | src/components/users/EditRoleDialog.tsx:139-147 | flips cell (m, p), an absent cell counting as unchecked; every other cell and module is unchanged |
| PermissionMatrix.ToggleTwiceRestoresView | src/components/users/EditRoleDialog.tsx:139-147 | two toggles restore every checkbox |
| PermissionMatrix.ToggleTwiceRestoresPresentCell | src/components/users/AddRoleDialog.tsx:69-77 | on a present cell two toggles restore the map itself |
| PermissionMatrix.ToggleTwiceOnMissingCell | src/components/users/AddRoleDialog.tsx:69-77 | on an absent cell two toggles leave an explicit false, not the old map |
| PermissionMatrix.EmptyIsUnchecked | src/components/users/AddRoleDialog.tsx:59 | the empty matrix reads unchecked everywhere |
| PermissionMatrix.Cells | src/pages/RoleManagement.tsx:235-240 | a row has exactly the four action keys |
| EditRoleDialog.AdminAllChecked | src/components/users/EditRoleDialog.tsx:57-69 | the admin sample role is all checked |
| EditRoleDialog.ViewerReadsOnly | src/components/users/EditRoleDialog.tsx:96-108 | the viewer sample role reads only |
| EditRoleDialog.RecruiterNeverDeletes | src/components/users/EditRoleDialog.tsx:70-82 | the recruiter sample role never deletes |
| EditRoleDialog.HiringManagerHasNoSettings | src/components/users/EditRoleDialog.tsx:91 | the hiring manager sample role has nothing on settings |
| EditRoleDialog.EditRoleDialog.constructor | src/components/users/EditRoleDialog.tsx:117-125 | blank form, empty matrix |
| EditRoleDialog.EditRoleDialog.LoadRole | src/components/users/EditRoleDialog.tsx:127-137 | a known role id loads its form and matrix; any other id changes nothing |
| EditRoleDialog.EditRoleDialog.EditForm | src/components/users/EditRoleDialog.tsx:119-126 | the form changes, the matrix does not |
| EditRoleDialog.EditRoleDialog.TogglePermission | src/components/users/EditRoleDialog.tsx:139-147 | the matrix becomes its toggle; nothing else changes |
| EditRoleDialog.EditRoleDialog.Submit | src/components/users/EditRoleDialog.tsx:149-160 | matrix and form unchanged; the dialog closes iff the name is at least two UTF-16 code units long |
| EditRoleDialog.UnknownRoleStaysEmpty | src/components/users/EditRoleDialog.tsx:129-136 | loading an unknown id leaves every box unchecked |
| AddRoleDialog.AddRoleDialog.constructor | src/components/users/AddRoleDialog.tsx:59-67 | blank form, empty matrix, every box unchecked |
| AddRoleDialog.AddRoleDialog.EditForm | src/components/users/AddRoleDialog.tsx:61-67 | the form changes, the matrix does not |
| AddRoleDialog.AddRoleDialog.TogglePermission | src/components/users/AddRoleDialog.tsx:69-77 | the matrix becomes its toggle; nothing else changes |
| AddRoleDialog.AddRoleDialog.Submit | src/components/users/AddRoleDialog.tsx:79-92 | a form whose name is at least two UTF-16 code units long resets form and matrix and closes; any other changes nothing |
| AddRoleDialog.SubmitClearsToggles | src/components/users/AddRoleDialog.tsx:88-91 | after toggles and a submit every box is unchecked again |
| RoleManagement.FindRole | src/pages/RoleManagement.tsx:218 | None iff no role has the id; otherwise the first one with it |
| RoleManagement.DefaultCells | src/pages/RoleManagement.tsx:235-240 | read always; create and update iff Admin or Recruiter; delete iff Admin |
| RoleManagement.InitialPermissions | src/pages/RoleManagement.tsx:229-244 | the `forEach` builds the uniform matrix of those cells over the modules |
| RoleManagement.DerivedMatrix | src/pages/RoleManagement.tsx:234-241 | an entry per module, read checked, the other actions as the role name decides |
| RoleManagement.UnknownRoleIsReadOnly | src/pages/RoleManagement.tsx:218-239 | an unknown role id gives a read-only matrix |
| RoleManagement.SampleRoleMatrices | src/pages/RoleManagement.tsx:35-40 | the four sample roles' rows |
| RoleManagement.SampleRolesFound | src/pages/RoleManagement.tsx:35-40 | ids "1" and "2" find the admin and recruiter roles |
| RoleManagement.SampleRoleCells | src/pages/RoleManagement.tsx:35-40 | admin rows include delete; recruiter rows are all but delete; hiring manager and viewer rows are read only |
| RoleManagement.RoleEditor.constructor | src/pages/RoleManagement.tsx:218-244 | form from the found role (blank if none), matrix derived from it |
| RoleManagement.RoleEditor.EditForm | src/pages/RoleManagement.tsx:220-227 | the form changes, the matrix does not |
| RoleManagement.RoleEditor.TogglePermission | src/pages/RoleManagement.tsx:246-254 | the matrix becomes its toggle; nothing else changes |
| RoleManagement.RoleEditor.Submit | src/pages/RoleManagement.tsx:256-266 | matrix and form unchanged; closes iff the name is at least two UTF-16 code units long |
| RoleManagement.RoleManagementPage.constructor | src/pages/RoleManagement.tsx:28-30 | both dialogs closed, no role chosen |
| RoleManagement.RoleManagementPage.HandleAddRole | src/pages/RoleManagement.tsx:55-57 | opens the add dialog only |
| RoleManagement.RoleManagementPage.HandleEditRole | src/pages/RoleManagement.tsx:59-62 | records the role and opens the edit dialog |
| CsvUtils.EscapeQuotes | src/utils/csvUtils.ts:22 | only quotes are added; a text without quotes is unchanged |
| CsvUtils.EscapeRoundTrip | src/utils/csvUtils.ts:22 | undoubling the quotes gives the text back |
| CsvUtils.CellReadsBack | src/utils/csvUtils.ts:22 | a string cell is quoted and reads back; a number is unquoted and parses back; a missing value is empty |
| CsvUtils.CsvLines | src/utils/csvUtils.ts:12-25 | the first item's keys joined by commas, then one line per item |
| CsvUtils.ObjectsToCsv | src/utils/csvUtils.ts:7-28 | the loop builds the specified text; empty input gives "" |
| CsvUtils.CellAvoidsNewline | src/utils/csvUtils.ts:22 | a cell of newline-free text holds no newline |
| CsvUtils.DataLineAvoidsNewline | src/utils/csvUtils.ts:20-24 | a data line of safe fields holds no newline |
| CsvUtils.HeaderLineAvoidsNewline | src/utils/csvUtils.ts:16 | a header of safe keys holds no newline |
| CsvUtils.CsvLinesReadBack | src/utils/csvUtils.ts:27 | splitting the text on newlines gives back the header and the data lines |
| CsvUtils.JobColumnsDistinct | src/utils/csvUtils.ts:60-68 | the eleven job columns are distinct |
| CsvUtils.JobRow | src/utils/csvUtils.ts:54-69 | a job row has exactly the eleven job columns |
| CsvUtils.JobSalaryCells | src/utils/csvUtils.ts:65-67 | salary bounds are empty iff missing or zero; the currency is empty without a salary |
| CsvUtils.CandidateRow | src/utils/csvUtils.ts:78-84 | a candidate row has exactly name, email, position, status, applied_date |
| CsvUtils.CandidateCells | src/utils/csvUtils.ts:78-84 | applied_date is the date, name the name, and id and initials are not exported |
| CsvUtils.CandidateDateCell | src/utils/csvUtils.ts:83 | the applied_date cell holds the candidate's date |
| CsvUtils.CandidateRowOmits | src/utils/csvUtils.ts:78-84 | a key outside the five exported columns has no cell |
| CsvUtils.CsvTextReadsBack | src/utils/csvUtils.ts:7-28 | the text is empty iff there are no objects; read back by lines it starts with the header line, and with newline-free values it is exactly the header and one line per object |
| CsvUtils.JobsCsv | src/utils/csvUtils.ts:52-72 | no jobs give ""; otherwise the first line is the eleven columns, and with newline-free values one line per job follows, holding that job's cells |
| CsvUtils.CandidatesCsv | src/utils/csvUtils.ts:76-87 | no candidates give ""; otherwise the first line is the five columns, and with newline-free values one line per candidate follows, holding that candidate's cells |
| CsvUtils.CandidateTemplateRecords | src/utils/csvUtils.ts:91-108 | the candidate template has two records with the same keys: name, email, position, status |
| CsvUtils.JobTemplateRecords | src/utils/csvUtils.ts:111-132 | the job template has two records with the same six keys, title to description |
| CsvUtils.SampleJobKeys | src/utils/csvUtils.ts:112-128 | every job template record has the keys title, department, location, type, status, description in that order |
| CsvUtils.ParsedRowsAreNonBlankLines | src/utils/csvUtils.ts:142-153 | one object per non-blank line, each built from that line |
| JsObject.AssignLookup | src/utils/csvUtils.ts:149 | after `obj[key] = value` the key holds the value, unless it is `__proto__`, which stays absent; every other key holds what it held |
| JsObject.PutLookup | src/utils/csvUtils.ts:149 | storing a property gives its key the value and leaves every other key's value alone, whether the key was present, a new array index or a new ordinary key |
| JsObject.AssignKeys | src/utils/csvUtils.ts:149 | an assignment keeps the keys distinct, free of `__proto__` and in property order; it adds exactly the key (not `__proto__`); a new non-index key goes last among the non-index keys, which are otherwise unchanged |
| JsObject.FillKeys | src/utils/csvUtils.ts:146-150 | the object built by the header loop is well formed, holds exactly the assigned keys other than `__proto__`, and lists its non-index keys in first-assignment order |
| JsObject.FillLookup | src/utils/csvUtils.ts:146-150 | in the built object a key holds the value of its last assignment; `__proto__` holds nothing |
| CsvUtils.BuildObject | src/utils/csvUtils.ts:146-150 | the `forEach` assigns the specified cells in header order |
| CsvUtils.ParseCsv | src/utils/csvUtils.ts:135-156 | the loop returns the specified records |
| CsvUtils.SingleLineParsesToNothing | src/utils/csvUtils.ts:137 | fewer than two lines give [] |
| CsvUtils.ParsedCount | src/utils/csvUtils.ts:142-153 | as many records as non-blank lines after the header |
| CsvUtils.ParsedField | src/utils/csvUtils.ts:139-150 | a record maps the trimmed header to the trimmed field, or to undefined past the last field; a repeated header holds its last position's field; a `__proto__` header stores nothing |
| CsvUtils.ParsedKeys | src/utils/csvUtils.ts:139-150 | a record's keys are the distinct headers other than `__proto__`, array-index headers first in ascending order, the others in first-appearance order |
| BulkImportDialog.BuildEntry | src/components/shared/BulkImportDialog.tsx:99-104 | the `forEach` assigns the specified cells in header order |
| BulkImportDialog.ImportEntries | src/components/shared/BulkImportDialog.tsx:89-107 | one entry per non-blank line after the header line, in order, each built from that line under the first line's headers; a one-line text gives none |
| BulkImportDialog.BuildEntries | src/components/shared/BulkImportDialog.tsx:89-107 | the loop returns the specified entries |
| BulkImportDialog.ImportRowsCount | src/components/shared/BulkImportDialog.tsx:95-106 | one entry per non-blank line after the first, each built from that line |
| BulkImportDialog.EntryField | src/components/shared/BulkImportDialog.tsx:101-103 | an entry maps the trimmed header to the trimmed field or '', never undefined; a repeated header holds its last position's field; a `__proto__` header stores nothing |
| BulkImportDialog.Defaulted | src/components/shared/BulkImportDialog.tsx:103 | replacing undefined by '' keeps the keys |
| BulkImportDialog.EntryIsDefaultedParse | src/components/shared/BulkImportDialog.tsx:95-106 | an entry is `parseCSV`'s record with undefined replaced by '' |
| BulkImportDialog.EntriesAreDefaultedParse | src/components/shared/BulkImportDialog.tsx:89-107 | the import loop is `parseCSV` with missing fields defaulted, entry by entry |
| BulkImportDialog.BulkImportDialog.constructor | src/components/shared/BulkImportDialog.tsx:26-27 | no file, not uploading |
| BulkImportDialog.BulkImportDialog.HandleFiles | src/components/shared/BulkImportDialog.tsx:65-75 | a CSV file by type or name is kept; any other leaves the file as it was |
| BulkImportDialog.BulkImportDialog.HandleImport | src/components/shared/BulkImportDialog.tsx:77-123 | no file: nothing is sent; otherwise the entries are sent, then success clears the file and closes while failure keeps them |
| ExportCandidates.DataToExport | src/components/candidates/ExportCandidates.tsx:18-25 | the selected candidates in order when exporting a non-empty selection; otherwise everything |
| ExportCandidates.SelectionKeepsOrder | src/components/candidates/ExportCandidates.tsx:21-25 | the selection of a concatenation is the concatenation of selections |
| ExportCandidates.SelectionExtremes | src/components/candidates/ExportCandidates.tsx:21-25 | all selected gives everything; none selected gives nothing |
| ExportCandidates.EnabledExports | src/components/candidates/ExportCandidates.tsx:21-38 | an enabled whole-list button has something to export; an enabled selection button exports something iff some selected id belongs to a listed candidate, so it can export nothing |
| ExportCandidates.ButtonVisibility | src/components/candidates/ExportCandidates.tsx:34 | the button shows iff (read, candidates) is granted, so for every role |
| CandidatesPage.FilteredCandidates | src/pages/Candidates.tsx:157-166 | kept iff the query is in the name, email or position and the status filter matches |
| CandidatesPage.NoFilterShowsAll | src/pages/Candidates.tsx:157-166 | an empty query and "all" keep every candidate in order |
| CandidatesPage.FilterKeepsOrder | src/pages/Candidates.tsx:157-166 | filtering distributes over concatenation |
| CandidatesPage.InitialsOfSplit | src/pages/Candidates.tsx:205-208 | a name that splits into several pieces with non-empty ends gets their upper-cased first letters |
| CandidatesPage.InitialsOfWords | src/pages/Candidates.tsx:205-208 | a multi-word name gives the upper-cased first letters of its first and last words |
| CandidatesPage.InitialsOfOneWord | src/pages/Candidates.tsx:205-208 | a one-word name gives its first two characters, upper-cased |
| CandidatesPage.TrailingSpaceInitials | src/pages/Candidates.tsx:205-208 | an empty last word contributes "UNDEFINED" |
| CandidatesPage.WithStatus | src/pages/Candidates.tsx:297-302 | same length; only the status of matching ids changes |
| CandidatesPage.WithData | src/pages/Candidates.tsx:238-256 | same length and ids; only matching entries take the new data |
| CandidatesPage.WithStatusProperties | src/pages/Candidates.tsx:297-302 | idempotent, keeps ids, and an absent id changes nothing |
| CandidatesPage.WithDataProperties | src/pages/Candidates.tsx:238-256 | keeps ids; an absent id changes nothing |
| CandidatesPage.WithoutId | src/pages/Candidates.tsx:265-275 | exactly the candidates with another id remain |
| CandidatesPage.WithoutSelected | src/pages/Candidates.tsx:285-288 | exactly the unselected candidates remain |
| CandidatesPage.DeleteIsBulkDeleteOfOne | src/pages/Candidates.tsx:265-288 | deleting one id is bulk-deleting the one-id selection |
| CandidatesPage.DeleteRemovesOne | src/pages/Candidates.tsx:265-275 | with distinct ids, a present id removes exactly one |
| CandidatesPage.RemoveAbsentId | src/pages/Candidates.tsx:265-275 | an absent id changes nothing |
| CandidatesPage.KeptAfterDelete | src/pages/Candidates.tsx:265-275 | every other candidate survives the delete |
| CandidatesPage.AddAfterDeleteReusesId | src/pages/Candidates.tsx:218 | after a delete, an add can hand out an id still in use |
| CandidatesPage.RepeatedId | src/pages/Candidates.tsx:224 | prepending a used id breaks id distinctness |
| CandidatesPage.CandidatesPage.constructor | src/pages/Candidates.tsx:138-155 | the initial list, no filter, no selection, nothing pending |
| CandidatesPage.CandidatesPage.SetFilters | src/pages/Candidates.tsx:169-176 | only the query and status filter change |
| CandidatesPage.CandidatesPage.SelectCandidate | src/pages/Candidates.tsx:179-185 | checking appends the id; unchecking removes every occurrence |
| CandidatesPage.CandidatesPage.SelectAll | src/pages/Candidates.tsx:188-195 | checked selects the filtered ids in order; unchecked selects nothing |
| CandidatesPage.CandidatesPage.AddCandidate | src/pages/Candidates.tsx:204-229 | prepends exactly the new candidate |
| CandidatesPage.CandidatesPage.EditCandidate | src/pages/Candidates.tsx:232-235 | remembers the candidate to edit |
| CandidatesPage.CandidatesPage.UpdateCandidate | src/pages/Candidates.tsx:238-256 | no-op without a candidate; otherwise merges data into its id and clears it |
| CandidatesPage.CandidatesPage.DeleteCandidate | src/pages/Candidates.tsx:259-262 | remembers the id and opens the dialog |
| CandidatesPage.CandidatesPage.ConfirmDelete | src/pages/Candidates.tsx:265-275 | removes that id and clears it; no-op without one |
| CandidatesPage.CandidatesPage.BulkDelete | src/pages/Candidates.tsx:278-282 | opens the dialog only with a selection |
| CandidatesPage.CandidatesPage.ConfirmBulkDelete | src/pages/Candidates.tsx:285-294 | removes the selected, clears the selection and select-all |
| CandidatesPage.CandidatesPage.UpdateStatus | src/pages/Candidates.tsx:297-302 | the list becomes its status update |
| CandidatesPage.CandidatesPage.ImportCandidates | src/pages/Candidates.tsx:311-349 | without a portal nothing changes; with one the two simulated candidates go in front of the list |
| CandidatesPage.MorganRobertsInitials | src/pages/Candidates.tsx:331-336 | the hard-coded "MR" is what the page computes for "Morgan Roberts" |
| CandidatesPage.TaylorSwiftInitials | src/pages/Candidates.tsx:340-345 | the hard-coded "TS" is what the page computes for "Taylor Swift" |
| CandidatesPage.ImportedPairShape | src/pages/Candidates.tsx:328-347 | both imported candidates are new, dated today, and carry the initials the page computes from their names |
| CandidatesPage.ImportKeepsIdsDistinct | src/pages/Candidates.tsx:330-339 | the `imported-` ids clash neither with each other nor with numeric ids, so an import keeps a list of distinct numeric ids distinct |
| CreateCandidateForm.Defaults | src/components/candidates/CreateCandidateForm.tsx:95-106 | blank values with status new and rating 3, or the edited candidate's fields |
| CreateCandidateForm.Submission | src/components/candidates/CreateCandidateForm.tsx:115-135 | education is [value] or undefined when empty; experience is the count or undefined when zero |
| CreateCandidateForm.EditRoundTrip | src/components/candidates/CreateCandidateForm.tsx:95-135 | submitting an unchanged edit keeps name, email, position, status and first education, and drops the experience count |
| CreateCandidateForm.RateAll | src/components/candidates/CreateCandidateForm.tsx:224-228 | one rating per skill, all equal |
| CreateCandidateForm.ResumeSkillsDistinct | src/components/candidates/CreateCandidateForm.tsx:209 | the parsed resume skills are distinct |
| CreateCandidateForm.CandidateForm.constructor | src/components/candidates/CreateCandidateForm.tsx:82-113 | defaults, no skills, no ratings, no experiences, in a dialog open or not as given |
| CreateCandidateForm.CandidateForm.SetValues | src/components/candidates/CreateCandidateForm.tsx:93-107 | typing into the form replaces the values only |
| CreateCandidateForm.CandidateForm.SetSkillInput | src/components/candidates/CreateCandidateForm.tsx:110 | only the input changes |
| CreateCandidateForm.CandidateForm.AddSkill | src/components/candidates/CreateCandidateForm.tsx:239-245 | a new non-empty skill is appended with rating 3 and the input cleared; otherwise nothing changes; skills stay distinct and match the ratings |
| CreateCandidateForm.CandidateForm.RemoveSkill | src/components/candidates/CreateCandidateForm.tsx:247-253 | removes the skill and its rating; the invariant is kept |
| CreateCandidateForm.CandidateForm.SetSkillRating | src/components/candidates/CreateCandidateForm.tsx:255-257 | only that skill's rating changes |
| CreateCandidateForm.CandidateForm.SetOverallRating | src/components/candidates/CreateCandidateForm.tsx:113 | only the overall rating changes |
| CreateCandidateForm.CandidateForm.SetDraft | src/components/candidates/CreateCandidateForm.tsx:86-91 | only the experience draft changes |
| CreateCandidateForm.CandidateForm.AddExperience | src/components/candidates/CreateCandidateForm.tsx:259-283 | a complete draft is appended and reset; an incomplete one changes nothing |
| CreateCandidateForm.CandidateForm.RemoveExperience | src/components/candidates/CreateCandidateForm.tsx:285-287 | exactly the entries with that id go |
| CreateCandidateForm.CandidateForm.FillFromResume | src/components/candidates/CreateCandidateForm.tsx:213-228 | the parsed fields, experiences and skills rated 3; the invariant is kept |
| CreateCandidateForm.CandidateForm.Submit | src/components/candidates/CreateCandidateForm.tsx:115-163 | values the schema rejects (lengths in UTF-16 code units) send nothing and change nothing; valid ones send the submission and close the dialog, and a create resets the form |
| HiringPipelineLevels.MockLevels | src/components/jobs/HiringPipelineLevels.tsx:67-92 | three levels numbered 1..3 for the job |
| HiringPipelineLevels.Edited | src/components/jobs/HiringPipelineLevels.tsx:125-134 | only matching levels change, and only name, description and users |
| HiringPipelineLevels.Renumbered | src/components/jobs/HiringPipelineLevels.tsx:164-167 | level i gets order i+1; nothing else changes |
| HiringPipelineLevels.RenumberNumbered | src/components/jobs/HiringPipelineLevels.tsx:164-167 | renumbering a numbered list changes nothing |
| HiringPipelineLevels.AfterDelete | src/components/jobs/HiringPipelineLevels.tsx:160-169 | numbered, no level with the id |
| HiringPipelineLevels.DeleteKeepsOthers | src/components/jobs/HiringPipelineLevels.tsx:162-167 | every other level survives renumbered, and every survivor is such a level |
| HiringPipelineLevels.DeleteKeepsOrder | src/components/jobs/HiringPipelineLevels.tsx:162 | deleting keeps the relative order |
| HiringPipelineLevels.DeleteAbsent | src/components/jobs/HiringPipelineLevels.tsx:162-167 | an absent id only renumbers; a numbered list stays as it was |
| HiringPipelineLevels.PipelineLevels.constructor | src/components/jobs/HiringPipelineLevels.tsx:63-96 | the sample levels for a job id, none without one |
| HiringPipelineLevels.PipelineLevels.AddLevel | src/components/jobs/HiringPipelineLevels.tsx:99-118 | a valid level is appended at the end; the numbering is kept |
| HiringPipelineLevels.PipelineLevels.EditClick | src/components/jobs/HiringPipelineLevels.tsx:148-157 | remembers the level to edit |
| HiringPipelineLevels.PipelineLevels.EditLevel | src/components/jobs/HiringPipelineLevels.tsx:121-145 | no-op without a level; otherwise edits its id and clears it |
| HiringPipelineLevels.PipelineLevels.DeleteLevel | src/components/jobs/HiringPipelineLevels.tsx:160-169 | removes the id and renumbers; the numbering is kept |
| JobsPage.FilteredJobs | src/pages/Jobs.tsx:187-191 | kept iff the query is in the title, department or location |
| JobsPage.EmptySearchShowsAll | src/pages/Jobs.tsx:187-191 | an empty query keeps every job in order |
| JobsPage.Toggle | src/pages/Jobs.tsx:312-326 | adds an absent entry, removes a present one, keeps the rest and keeps distinctness |
| JobsPage.ToggleTwice | src/pages/Jobs.tsx:312-326 | two toggles restore an absent entry's list, and move a present entry to the end |
| JobsPage.ToggleTwiceSameSet | src/pages/Jobs.tsx:312-326 | two toggles restore the set of entries |
| JobsPage.ImportedJobs | src/pages/Jobs.tsx:232-255 | two jobs per selected portal, in portal order |
| JobsPage.JobsPage.constructor | src/pages/Jobs.tsx:151-160 | empty search and selections, dialogs closed |
| JobsPage.JobsPage.TogglePortal | src/pages/Jobs.tsx:312-318 | the portal selection becomes its toggle and stays distinct |
| JobsPage.JobsPage.ToggleJob | src/pages/Jobs.tsx:320-326 | the job selection becomes its toggle and stays distinct |
| JobsPage.JobsPage.ImportJobs | src/pages/Jobs.tsx:216-277 | no portal: nothing; otherwise two jobs per portal and the selection cleared |
| JobsPage.JobsPage.ExportJobs | src/pages/Jobs.tsx:279-310 | no job selected: rejected; otherwise the selection counts as exported and is cleared |
| JobsPage.EnabledImportBuildsJobs | src/pages/Jobs.tsx:385 | the enabled import button never reaches the no-portal branch: two jobs per selected portal, at least two, the first portal's pair first |
| JobsPage.EnabledExportHasJobs | src/pages/Jobs.tsx:454 | the enabled export button never reaches the rejection: a job and a portal are selected and no export runs |
| InterviewsPage.FilteredInterviews | src/pages/Interviews.tsx:132-140 | kept iff the query is in the name or position and the type filter matches |
| InterviewsPage.NoFilterShowsAll | src/pages/Interviews.tsx:132-140 | an empty query and "all" keep every interview in order |
| InterviewsPage.FilterAfterAppend | src/pages/Interviews.tsx:132-170 | an appended interview shows at the end of the filtered list iff it matches |
| InterviewsPage.SequentialIdsDistinct | src/pages/Interviews.tsx:165 | ids numbered by position are distinct |
| InterviewsPage.AppendKeepsSequential | src/pages/Interviews.tsx:164-170 | appending keeps the numbering by position |
| InterviewsPage.WithStatus | src/pages/Interviews.tsx:178-183 | same length and ids; only the status of matching ids changes |
| InterviewsPage.WithStatusProperties | src/pages/Interviews.tsx:178-183 | keeps ids and numbering, idempotent, and an absent id changes nothing |
| InterviewsPage.StatusOfOneInterview | src/pages/Interviews.tsx:178-183 | with numbered ids, exactly one interview changes |
| InterviewsPage.InitialInterviewsWellFormed | src/pages/Interviews.tsx:26-106 | five interviews numbered 1..5, all with a known status |
| InterviewsPage.InterviewsPage.constructor | src/pages/Interviews.tsx:123-128 | the sample list, no filter, dialogs closed |
| InterviewsPage.InterviewsPage.SetSearch | src/pages/Interviews.tsx:143-145 | only the query changes |
| InterviewsPage.InterviewsPage.SetType | src/pages/Interviews.tsx:148-150 | only the type filter changes |
| InterviewsPage.InterviewsPage.OpenSchedule | src/pages/Interviews.tsx:153-155 | only opens the scheduling dialog |
| InterviewsPage.InterviewsPage.ViewDetails | src/pages/Interviews.tsx:158-161 | remembers the interview and opens the details |
| InterviewsPage.InterviewsPage.AddInterview | src/pages/Interviews.tsx:164-170 | appends exactly one interview at the end; numbering and known statuses are kept |
| InterviewsPage.InterviewsPage.UpdateStatus | src/pages/Interviews.tsx:330-338 | a menu status is set on the matching ids; numbering and known statuses are kept |
| ScheduleInterviewDialog.GetInitialsOfSplit | src/components/interviews/ScheduleInterviewDialog.tsx:136-139 | a name that splits into several pieces with non-empty ends gets their first letters |
| ScheduleInterviewDialog.GetInitialsOfWords | src/components/interviews/ScheduleInterviewDialog.tsx:136-139 | a multi-word name gives the first letters of its first and last words, not upper-cased |
| ScheduleInterviewDialog.GetInitialsOfOneWord | src/components/interviews/ScheduleInterviewDialog.tsx:140 | a one-word name gives its first two characters upper-cased |
| ScheduleInterviewDialog.SameInitialsUpToCase | src/pages/Candidates.tsx:205-208 | the candidates page's initials are these initials upper-cased |
| ScheduleInterviewDialog.InterviewersDetermined | src/components/interviews/ScheduleInterviewDialog.tsx:96-115 | one to three entries, each a filled interviewer with its initials, and only one list fits |
| ScheduleInterviewDialog.BuildInterviewers | src/components/interviews/ScheduleInterviewDialog.tsx:96-115 | interviewer1, then interviewer2 and interviewer3 when filled, in order |
| ScheduleInterviewDialog.ScheduleDialog.constructor | src/components/interviews/ScheduleInterviewDialog.tsx:81-92 | the default values |
| ScheduleInterviewDialog.ScheduleDialog.SetValues | src/components/interviews/ScheduleInterviewDialog.tsx:81-92 | only the values change |
| ScheduleInterviewDialog.ScheduleDialog.Submit | src/components/interviews/ScheduleInterviewDialog.tsx:95-134 | values the schema rejects (lengths in UTF-16 code units) send nothing; valid ones send a scheduled interview with time "start - end", then reset and close |
| CreateJobForm.Lines | src/components/jobs/CreateJobForm.tsx:135-136 | undefined iff empty; otherwise exactly the non-blank lines |
| CreateJobForm.LinesOfJoin | src/components/jobs/CreateJobForm.tsx:103-136 | a newline join reads back as its non-blank items in order |
| CreateJobForm.LinesRecoverItems | src/components/jobs/CreateJobForm.tsx:103-136 | non-blank newline-free items come back whole |
| CreateJobForm.SalaryOf | src/components/jobs/CreateJobForm.tsx:137-145 | a salary iff both bounds are filled, with the form's currency |
| CreateJobForm.SalaryRoundTrip | src/components/jobs/CreateJobForm.tsx:140-141 | integer bounds are read back as those integers |
| Strings.Utf16Length | src/components/users/AddRoleDialog.tsx:34 | `length` counts one unit per character and two per astral one: between the character count and twice it, equal to it iff no character is astral |
| PermissionMatrix.OneEmojiNameIsValid | src/components/users/AddRoleDialog.tsx:33-36 | a role name of one emoji passes the `min(2)` bound |
| Strings.ParseIntReadsHex | src/components/jobs/CreateJobForm.tsx:140-141 | `parseInt` without a radix reads `0x` and hexadecimal digits as a hexadecimal numeral |
| CreateJobForm.Payload | src/components/jobs/CreateJobForm.tsx:128-146 | the fields copied, the lists split into lines, the salary as above |
| CreateJobForm.Applied | src/components/jobs/CreateJobForm.tsx:100-107 | the description replaced; a generated requirements or responsibilities list written one item per line, a missing one leaving the field as it was; the other fields kept |
| CreateJobForm.GeneratedRequirementsSubmitted | src/components/jobs/CreateJobForm.tsx:103-136 | generated requirements reach the submitted job unchanged |
| CreateJobForm.JobForm.constructor | src/components/jobs/CreateJobForm.tsx:64-81 | the defaults, currency USD, not generating |
| CreateJobForm.JobForm.SetValues | src/components/jobs/CreateJobForm.tsx:64-78 | only the values change |
| CreateJobForm.JobForm.GenerateDescription | src/components/jobs/CreateJobForm.tsx:83-124 | an empty title changes nothing; otherwise a failure keeps the values and a success applies the answer |
| CreateJobForm.JobForm.Submit | src/components/jobs/CreateJobForm.tsx:126-165 | values the schema rejects (a title under three UTF-16 code units, among others) send nothing; valid ones send the job data, then success resets and closes while failure keeps everything |

## Left out

- Network calls (`src/services/api.ts`, the jobs service, the AI generator, the portal service): a call's outcome is a method parameter (`serviceFails`, `importFails`, the generator's `answer`).
- `localStorage` and `JSON.parse` of the saved user: `AuthSession.RestoreSavedUser` takes the decoded user, or None, as a parameter. The stored copy written on login and removed on logout is not modelled.
- A restored user with a role outside the four would make the grant lookup throw. The closed `Role` datatype rules this out.
- `downloadCSV` and its file name: DOM output.
- Clipboard sharing of a job (`handleShareJob`), toasts, console logging and all markup: they are output, not state.
- `file.text()` and `FileReader`: the file's text is a parameter of `BulkImportDialog.HandleImport`.
- `setTimeout` and `Promise` delays: the simulated imports, exports and resume parsing are modelled without the delay. Only their synchronous guards and effects remain.
- The resume upload's MIME-type check and its processing flag: `CreateCandidateForm.CandidateForm.FillFromResume` is the fill that follows a successful parse.
- The Candidates page's portal export (`handleExportCandidates`) only shows a toast after a delay and changes no state. The import sheet's open and importing flags are markup state and are not modelled.
- `Date.now()` ids and today's date: they are parameters (`AddLevel`'s id, `AddExperience`'s id, `AddCandidate`'s date, `ImportJobs`'s stamp).
- Date formatting (`toLocaleDateString`, `format(date, "MMM d")`): `ScheduleValues.interviewDate` holds the already formatted day.
- zod and react-hook-form internals, such as the email pattern: only the length, range and enum bounds of each schema are stated.
- `toLowerCase` and `toUpperCase` fold ASCII letters only: Unicode case mapping is not modelled.
- `interviewsByDate` and the calendar on the Interviews page: a placeholder filter.
- Workflow, Reports, Settings, the dashboard widgets, Login, NotFound, Unauthorized, UserManagement, `main.tsx` and the query provider: static pages or display-only components.
- `handleDeleteRole` (`src/pages/RoleManagement.tsx:64-70`): it only shows a notification and changes no state.
- The add-role dialog nested in `src/pages/RoleManagement.tsx` (lines 78-207): it is the same code as `src/components/users/AddRoleDialog.tsx`, so `AddRoleDialog.AddRoleDialog` stands for both.
- `RolePermissions` is imported from the types module but not defined there. `AuthContext.RolePermissions` is a total function from `Role` to a grant list.
- `parseCSV(objectsToCSV(x))` is not a round trip: `parseCSV` keeps the quotes `objectsToCSV` adds, and neither side handles commas or newlines inside fields. The model states what each side does separately (`CsvUtils.CsvLinesReadBack`, `CsvUtils.ParsedField`).
- The three permission tables are separate tables and are not assumed to agree: the session grants, the edit dialog's sample roles, and the role page's derived matrix.
- Ids of the sample candidate list are not proved distinct: the proof over the literal list is too costly. `CandidatesPage.AddAfterDeleteReusesId` shows that the page does not keep ids distinct anyway.
- CandidatesPage.CandidatesPage.AddCandidate: does not state that ids stay distinct, because after a delete the page can hand out an id already in use (`CandidatesPage.RepeatedId`).
- JobsPage.ToggleTwice: two toggles of a present entry move it to the end of the selection, so the list itself is restored only for an absent entry; only the set is restored in both cases.
- AppRoutes.RouteFor: the pathname is taken as the router sees it, already percent-decoded and without a basename; optional segments, parameters and nested routes do not occur in the route table and are not modelled.
- JsObject.Lookup reads own properties only: an inherited name such as `constructor` or `toString` reads as undefined, where JavaScript finds the prototype's member. The permission table's `ModulePermissionsTable.Check` is only called with role keys taken from the table itself, so it never meets such a name.
- The job description generator's call is taken as one step: edits made while the answer is awaited are not modelled, so `CreateJobForm.JobForm.GenerateDescription` applies the answer to the values as they were when the title was read.
- Strings.ParseInt does not round magnitudes above 2^53 to the nearest double, as JavaScript's `parseInt` does.
- CsvUtils.Value holds integers only: a fractional number, such as a salary of 1500.5, is not modelled.
- Strings.Take and Strings.FirstLetter index code points, whereas JavaScript indexes UTF-16 code units: for a name that starts with a character outside the Basic Multilingual Plane, `name[0]` is half a surrogate pair in JavaScript but the whole character here. This affects `CandidatesPage.Initials` and `ScheduleInterviewDialog.GetInitials`.
- Jobs on the Jobs page are not added to the displayed list by an import: the page's refetch is disabled, so `JobsPage.JobsPage.ImportJobs` returns the built jobs without storing them.
