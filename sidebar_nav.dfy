/** The sidebar: a fixed table from role to the navigation items that role
    sees, looked up with an empty fallback, and the test that highlights the
    item of the current page. */
module SidebarView {
  import opened Types

  /** A navigation item: the page it links to and its caption. The icon is
      not modelled. */
  datatype NavItem = NavItem(href: string, caption: string)

  const DashboardItem: NavItem := NavItem("/dashboard", "Dashboard")
  const DonationsItem: NavItem := NavItem("/donations", "Donations")
  const ProjectsItem: NavItem := NavItem("/projects", "Projects")
  const UsersItem: NavItem := NavItem("/users", "Users")
  const MediaItem: NavItem := NavItem("/media", "Media")
  const SettingsItem: NavItem := NavItem("/settings", "Settings")

  /** `navItemsByRole`, keyed by the role's text. */
  const NavItemsByRole: map<string, seq<NavItem>> := map[
    "Admin" := [DashboardItem, DonationsItem, ProjectsItem, UsersItem, MediaItem, SettingsItem],
    "Manager" := [DashboardItem, DonationsItem, ProjectsItem, MediaItem],
    "Volunteer" := [DashboardItem, MediaItem],
    "Intern" := [DashboardItem, MediaItem],
    "Donor" := [DashboardItem]
  ]

  /** `navItemsByRole[role] || []`: a role missing from the table sees no
      items. */
  function NavItemsFor(role: string): (items: seq<NavItem>)
    ensures role !in NavItemsByRole ==> items == []
    ensures role in NavItemsByRole ==> items == NavItemsByRole[role]
  {
    if role in NavItemsByRole then NavItemsByRole[role] else []
  }

  /** `isActive`: an item is highlighted when the current path is its link. */
  predicate IsActive(pathname: string, item: NavItem)
  {
    pathname == item.href
  }

  /** The links of a list of items, in order. */
  function Hrefs(items: seq<NavItem>): (r: seq<string>)
    ensures |r| == |items|
    ensures forall i :: 0 <= i < |items| ==> r[i] == items[i].href
  {
    if items == [] then [] else [items[0].href] + Hrefs(items[1..])
  }

  /** The items of `items` whose link is not in `hrefs`, order kept. */
  function Without(items: seq<NavItem>, hrefs: set<string>): seq<NavItem>
  {
    if items == [] then []
    else if items[0].href in hrefs then Without(items[1..], hrefs)
    else [items[0]] + Without(items[1..], hrefs)
  }

  /** An item survives exactly when it was in the list and its link is not
      in the set. */
  lemma {:induction false} WithoutMembers(items: seq<NavItem>, hrefs: set<string>, item: NavItem)
    ensures item in Without(items, hrefs) <==> item in items && item.href !in hrefs
  {
    if items != [] {
      WithoutMembers(items[1..], hrefs, item);
      assert item in items <==> item == items[0] || item in items[1..];
    }
  }

  /** The lists the table gives each role's text. */
  lemma TableLookups()
    ensures NavItemsFor("Admin") == [DashboardItem, DonationsItem, ProjectsItem, UsersItem, MediaItem, SettingsItem]
    ensures NavItemsFor("Manager") == [DashboardItem, DonationsItem, ProjectsItem, MediaItem]
    ensures NavItemsFor("Volunteer") == [DashboardItem, MediaItem]
    ensures NavItemsFor("Intern") == [DashboardItem, MediaItem]
    ensures NavItemsFor("Donor") == [DashboardItem]
  {
    assert "Admin"[0] != "Donor"[0];
  }

  /** The table is total over the roles and holds nothing else: a text gets
      items exactly when it is the name of a role. */
  lemma TableCoversExactlyTheRoles(role: string)
    ensures NavItemsFor(role) != [] <==> exists r: Role :: RoleName(r) == role
  {
    if role in NavItemsByRole {
      if role == "Admin" { assert RoleName(Admin) == role; }
      else if role == "Manager" { assert RoleName(Manager) == role; }
      else if role == "Volunteer" { assert RoleName(Volunteer) == role; }
      else if role == "Intern" { assert RoleName(Intern) == role; }
      else { assert RoleName(Donor) == role; }
    }
  }

  /** Every role's list begins with the dashboard. */
  lemma EveryListStartsWithDashboard(r: Role)
    ensures |NavItemsFor(RoleName(r))| >= 1
    ensures NavItemsFor(RoleName(r))[0] == NavItem("/dashboard", "Dashboard")
  {
  }

  /** A donor sees only the dashboard. */
  lemma DonorSeesOnlyDashboard()
    ensures NavItemsFor("Donor") == [DashboardItem]
  {
  }

  /** Only an administrator is offered the users and settings pages. */
  lemma UsersAndSettingsAreAdminOnly(r: Role)
    ensures "/users" in Hrefs(NavItemsFor(RoleName(r))) <==> r == Admin
    ensures "/settings" in Hrefs(NavItemsFor(RoleName(r))) <==> r == Admin
  {
    var hs := Hrefs(NavItemsFor(RoleName(r)));
    if r == Admin {
      assert hs[3] == "/users" && hs[5] == "/settings";
    } else {
      assert forall i :: 0 <= i < |hs| ==> hs[i] != "/users" && hs[i] != "/settings";
    }
  }

  /** A manager's list is an administrator's without users and settings, in
      the same order. */
  lemma ManagerIsAdminWithoutUsersAndSettings()
    ensures NavItemsFor("Manager") == Without(NavItemsFor("Admin"), {"/users", "/settings"})
  {
    var gone := {"/users", "/settings"};
    TableLookups();
    assert "/media"[1] != "/users"[1] && "/projects"[1] != "/settings"[1];
    assert Without([SettingsItem], gone) == [];
    assert Without([MediaItem, SettingsItem], gone) == [MediaItem];
    assert Without([UsersItem, MediaItem, SettingsItem], gone) == [MediaItem];
    assert Without([ProjectsItem, UsersItem, MediaItem, SettingsItem], gone) == [ProjectsItem, MediaItem];
    assert Without([DonationsItem, ProjectsItem, UsersItem, MediaItem, SettingsItem], gone) == [DonationsItem, ProjectsItem, MediaItem];
  }

  /** A manager is offered exactly the administrator's items other than users
      and settings. */
  lemma ManagerOffersAdminItemsButUsersAndSettings(item: NavItem)
    ensures item in NavItemsFor("Manager") <==>
      item in NavItemsFor("Admin") && item.href != "/users" && item.href != "/settings"
  {
    ManagerIsAdminWithoutUsersAndSettings();
    WithoutMembers(NavItemsFor("Admin"), {"/users", "/settings"}, item);
  }

  /** Volunteers and interns see the same items: the dashboard and media. */
  lemma VolunteerSameAsIntern()
    ensures NavItemsFor("Volunteer") == NavItemsFor("Intern") == [DashboardItem, MediaItem]
  {
  }

  /** The links nest: a donor's are among a volunteer's, a volunteer's among
      a manager's and a manager's among an administrator's. */
  lemma LinksNest()
    ensures forall h :: h in Hrefs(NavItemsFor("Donor")) ==> h in Hrefs(NavItemsFor("Volunteer"))
    ensures forall h :: h in Hrefs(NavItemsFor("Volunteer")) ==> h in Hrefs(NavItemsFor("Manager"))
    ensures forall h :: h in Hrefs(NavItemsFor("Manager")) ==> h in Hrefs(NavItemsFor("Admin"))
  {
    TableLookups();
    var donor := Hrefs(NavItemsFor("Donor"));
    var volunteer := Hrefs(NavItemsFor("Volunteer"));
    var manager := Hrefs(NavItemsFor("Manager"));
    var admin := Hrefs(NavItemsFor("Admin"));
    assert donor == ["/dashboard"];
    assert volunteer == ["/dashboard", "/media"];
    assert manager == ["/dashboard", "/donations", "/projects", "/media"];
    assert admin == ["/dashboard", "/donations", "/projects", "/users", "/media", "/settings"];
  }

  /** Within every list the links differ pairwise, as the list keys require. */
  lemma LinksDistinct(role: string)
    ensures forall i, j :: 0 <= i < j < |NavItemsFor(role)| ==>
      NavItemsFor(role)[i].href != NavItemsFor(role)[j].href
  {
  }

  /** On the page an item links to, that item is highlighted and no other
      item of the same list is. */
  lemma OnlyTheVisitedItemIsActive(role: string, i: nat)
    requires i < |NavItemsFor(role)|
    ensures forall j :: 0 <= j < |NavItemsFor(role)| ==>
      (IsActive(NavItemsFor(role)[i].href, NavItemsFor(role)[j]) <==> j == i)
  {
    LinksDistinct(role);
  }

  /** At most one item of a list is highlighted, whatever the path. */
  lemma AtMostOneActive(role: string, pathname: string)
    ensures forall i, j ::
      0 <= i < |NavItemsFor(role)| && 0 <= j < |NavItemsFor(role)| &&
      IsActive(pathname, NavItemsFor(role)[i]) && IsActive(pathname, NavItemsFor(role)[j])
      ==> i == j
  {
    LinksDistinct(role);
  }
}
