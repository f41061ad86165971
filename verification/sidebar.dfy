/** The navigation sidebar: which links each section lists for the current user. */
module Sidebar {
  import opened Common
  import opened Types
  import opened AuthContext
  import opened AppRoutes
  import opened ProtectedRoute

  /** A link; an item without a permission is listed for everyone. */
  datatype NavItem = NavItem(name: string, href: string, permission: Option<Permission>)

  const Navigation: seq<NavItem> := [
    NavItem("Dashboard", "/", None),
    NavItem("Candidates", "/candidates", Some(Permission(Read, Candidates))),
    NavItem("Jobs", "/jobs", Some(Permission(Read, Jobs))),
    NavItem("Workflow", "/workflow", Some(Permission(Read, Jobs))),
    NavItem("Reports", "/reports", Some(Permission(Read, Jobs)))
  ]

  const UserManagementNav: seq<NavItem> := [
    NavItem("User Management", "/users", Some(Permission(Read, Users))),
    NavItem("Role Management", "/roles", Some(Permission(Read, Users)))
  ]

  const SettingsNav: seq<NavItem> := [
    NavItem("Settings", "/settings", Some(Permission(Read, Settings)))
  ]

  /** `showItem`: no permission attached, or the attached one is granted. */
  predicate ShowItem(user: Option<User>, item: NavItem) {
    item.permission.None? || HasPermission(user, item.permission.value.action, item.permission.value.subject)
  }

  /** The items of one section that are listed, in declaration order. */
  function VisibleItems(user: Option<User>, items: seq<NavItem>): (r: seq<NavItem>)
    ensures forall item :: item in r <==> item in items && ShowItem(user, item)
  {
    Filter(items, item => ShowItem(user, item))
  }

  /** The user-management section is drawn when some of its items would be shown. */
  function ShowUserManagement(user: Option<User>): (r: bool)
    ensures r <==> VisibleItems(user, UserManagementNav) != []
  {
    AnyIffFilterNonEmpty(UserManagementNav, item => ShowItem(user, item));
    Any(UserManagementNav, item => ShowItem(user, item))
  }

  /** `showSettings`: the current role is admin or reading settings is granted. Since the
      admin's grants include reading settings, the first test adds nothing. */
  function ShowSettings(user: Option<User>): (r: bool)
    ensures r <==> HasPermission(user, Read, Settings)
  {
    AdminGrants();
    (user.Some? && RoleKey(user.value.role) == "admin") || HasPermission(user, Read, Settings)
  }

  /** The three sections as drawn; a hidden section lists nothing. The settings section
      lists its items without a further check. */
  datatype SidebarView = SidebarView(main: seq<NavItem>, userManagement: seq<NavItem>, settings: seq<NavItem>)

  function Render(user: Option<User>): (v: SidebarView)
    ensures v.main == VisibleItems(user, Navigation)
    ensures v.userManagement == VisibleItems(user, UserManagementNav)
    ensures v.settings == if HasPermission(user, Read, Settings) then SettingsNav else []
  {
    var management := if ShowUserManagement(user) then VisibleItems(user, UserManagementNav) else [];
    var settings := if ShowSettings(user) then SettingsNav else [];
    SidebarView(VisibleItems(user, Navigation), management, settings)
  }

  /** The dashboard link heads the main section for every session. */
  lemma DashboardAlwaysListed(user: Option<User>)
    ensures Render(user).main != [] && Render(user).main[0] == NavItem("Dashboard", "/", None)
  {
  }

  /** A section whose items all need a permission lists nothing without a current user. */
  lemma {:induction false} SignedOutHidesGuarded(items: seq<NavItem>)
    requires forall i :: 0 <= i < |items| ==> items[i].permission.Some?
    ensures VisibleItems(None, items) == []
  {
    RefusedHidesAll(None, items);
  }

  /** Without a current user the main section keeps only the dashboard. */
  lemma SignedOutMain()
    ensures VisibleItems(None, Navigation) == [NavItem("Dashboard", "/", None)]
  {
    var rest := Navigation[1..];
    SignedOutHidesGuarded(rest);
    assert Navigation == [Navigation[0]] + rest;
    FilterAppend([Navigation[0]], rest, item => ShowItem(None, item));
    assert VisibleItems(None, [Navigation[0]]) == [Navigation[0]];
  }

  /** Without a current user no user-management link passes and reading settings is not
      granted. */
  lemma SignedOutExtraSections()
    ensures VisibleItems(None, UserManagementNav) == []
    ensures !HasPermission(None, Read, Settings)
  {
    SignedOutHidesGuarded(UserManagementNav);
  }

  /** Without a current user only the dashboard is listed, and neither extra section is drawn. */
  lemma SignedOutSidebar()
    ensures Render(None) == SidebarView([NavItem("Dashboard", "/", None)], [], [])
  {
    SignedOutMain();
    SignedOutExtraSections();
  }

  /** Every role gets the whole main section, in declaration order. */
  lemma MainSectionForEveryRole(u: User)
    ensures Render(Some(u)).main == Navigation
  {
    ReadGrants(u.role);
    MainPermissions();
    forall i | 0 <= i < |Navigation|
      ensures ShowItem(Some(u), Navigation[i])
    {
    }
    GrantedShowsAll(Some(u), Navigation);
    assert Render(Some(u)).main == VisibleItems(Some(u), Navigation);
  }

  /** The main links require nothing, reading candidates or reading jobs. */
  lemma MainPermissions()
    ensures forall i :: 0 <= i < |Navigation| ==>
      Navigation[i].permission in {None, Some(Permission(Read, Candidates)), Some(Permission(Read, Jobs))}
  {
    forall i | 0 <= i < |Navigation|
      ensures Navigation[i].permission in {None, Some(Permission(Read, Candidates)), Some(Permission(Read, Jobs))}
    {
      assert i < 2 || Navigation[i].permission == Some(Permission(Read, Jobs));
    }
  }

  /** A section whose every item is granted is listed whole. */
  lemma GrantedShowsAll(user: Option<User>, items: seq<NavItem>)
    requires forall i :: 0 <= i < |items| ==> ShowItem(user, items[i])
    ensures VisibleItems(user, items) == items
  {
    FilterKeepsAll(items, item => ShowItem(user, item));
  }

  /** The user-management links go to every role but the viewer. */
  lemma UserManagementSection(u: User)
    ensures Render(Some(u)).userManagement == if u.role == Viewer then [] else UserManagementNav
  {
    ReadGrants(u.role);
    var items := UserManagementNav;
    assert forall i :: 0 <= i < |items| ==> items[i].permission == Some(Permission(Read, Users));
    if u.role == Viewer {
      RefusedHidesAll(Some(u), items);
    } else {
      GrantedShowsAll(Some(u), items);
    }
  }

  /** A section none of whose items is granted lists nothing. */
  lemma RefusedHidesAll(user: Option<User>, items: seq<NavItem>)
    requires forall i :: 0 <= i < |items| ==> !ShowItem(user, items[i])
    ensures VisibleItems(user, items) == []
  {
    FilterDropsAll(items, item => ShowItem(user, item));
  }

  /** The settings section goes to the admin only. */
  lemma SettingsSection(u: User)
    ensures Render(Some(u)).settings == if u.role == Admin then SettingsNav else []
  {
    ReadGrants(u.role);
  }

  /** Each sidebar link points at a guarded route whose required list is the link's own
      permission (nothing for the dashboard). */
  lemma LinksMatchRoutes(item: NavItem)
    requires item in Navigation + UserManagementNav + SettingsNav
    ensures RouteFor(item.href).Guarded?
    ensures RouteFor(item.href).required == if item.permission.None? then [] else [item.permission.value]
  {
    var all := Navigation + UserManagementNav + SettingsNav;
    var i :| 0 <= i < |all| && all[i] == item;
    // the links are declared in the same order as the guarded routes, which start at index 2
    LinkAt(i);
  }

  lemma LinkAt(i: int)
    requires 0 <= i < |Navigation + UserManagementNav + SettingsNav|
    ensures var item := (Navigation + UserManagementNav + SettingsNav)[i];
      RouteFor(item.href) == Guarded(if item.permission.None? then [] else [item.permission.value], Routes[i + 2].1.page)
  {
    LinkDeclared(i);
    RouteAt(i + 2);
  }

  /** Link i has the path of route i + 2, whose guard requires the link's permission. */
  lemma LinkDeclared(i: int)
    requires 0 <= i < |Navigation + UserManagementNav + SettingsNav|
    ensures var item := (Navigation + UserManagementNav + SettingsNav)[i];
      item.href == Routes[i + 2].0 &&
      Routes[i + 2].1 == Guarded(if item.permission.None? then [] else [item.permission.value], Routes[i + 2].1.page)
  {
    var all := Navigation + UserManagementNav + SettingsNav;
    if i < 5 {
      assert all[i] == Navigation[i];
    } else if i < 7 {
      assert all[i] == UserManagementNav[i - 5];
    } else {
      assert all[i] == SettingsNav[0];
    }
  }

  /** Every link the sidebar lists leads a signed-in user to its page, not to a redirect. */
  lemma ListedLinksOpen(u: User, item: NavItem)
    requires item in Render(Some(u)).main || item in Render(Some(u)).userManagement
      || item in Render(Some(u)).settings
    ensures Visit(item.href, true, Some(u)).Show?
  {
    var view := Render(Some(u));
    if item in view.main {
      assert item in Navigation && ShowItem(Some(u), item);
    } else if item in view.userManagement {
      assert item in UserManagementNav && ShowItem(Some(u), item);
    } else {
      assert view.settings == SettingsNav && item == SettingsNav[0];
      assert ShowItem(Some(u), item);
    }
    assert item in Navigation + UserManagementNav + SettingsNav;
    LinksMatchRoutes(item);
    assert GrantsAll(Some(u), RouteFor(item.href).required);
  }
}
