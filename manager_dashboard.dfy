/** The manager's dashboard: it loads the projects and donations lists from
    local storage once when it is shown, and totals each project's donations
    in rupees, matching donations to projects by the project's name. */
module ManagerView {
  import opened JsBuiltins
  import opened Types
  import opened SeedData
  import opened BrowserStorage

  // ---------------------------------------------------------------------------
  // Totals

  /** A donation's amount counted in rupees: dollars at the fixed rate. */
  function InrValue(d: Donation): (v: int)
    ensures d.currency == INR ==> v == d.amount
    ensures d.currency == USD ==> v == UsdToInr * d.amount
  {
    if d.currency == USD then d.amount * UsdToInr else d.amount
  }

  /** `donations.filter(d => d.project === name)`. */
  function MatchingDonations(donations: seq<Donation>, name: string): (r: seq<Donation>)
    ensures forall d :: d in r ==> d in donations && d.project == name
    ensures forall d :: d in donations && d.project == name ==> d in r
  {
    if donations == [] then []
    else if donations[0].project == name then [donations[0]] + MatchingDonations(donations[1..], name)
    else MatchingDonations(donations[1..], name)
  }

  /** `.reduce((acc, d) => acc + value(d), 0)` with the rupee value: the sum
      accumulated from the first donation to the last. */
  function InrSum(donations: seq<Donation>): int
  {
    if donations == [] then 0
    else InrSum(donations[..|donations| - 1]) + InrValue(donations[|donations| - 1])
  }

  /** A project's total: the rupee sum of the donations whose project text
      equals its name exactly. */
  function ProjectTotal(donations: seq<Donation>, name: string): int
  {
    InrSum(MatchingDonations(donations, name))
  }

  /** One row of the "Donations by Project" table. */
  datatype ProjectDonations = ProjectDonations(name: string, total: int)

  /** `donationsByProject`: one row per project, in project order, carrying
      the project's name and its total. */
  function DonationsByProject(projects: seq<Project>, donations: seq<Donation>): (rows: seq<ProjectDonations>)
    ensures |rows| == |projects|
    ensures forall i :: 0 <= i < |projects| ==>
      rows[i] == ProjectDonations(projects[i].name, ProjectTotal(donations, projects[i].name))
  {
    if projects == [] then []
    else [ProjectDonations(projects[0].name, ProjectTotal(donations, projects[0].name))]
         + DonationsByProject(projects[1..], donations)
  }

  /** The filter keeps every donation naming the project as often as it
      occurs, and no other. */
  lemma {:induction false} MatchingDonationsCounts(donations: seq<Donation>, name: string)
    ensures forall d ::
      multiset(MatchingDonations(donations, name))[d] == (if d.project == name then multiset(donations)[d] else 0)
  {
    if donations != [] {
      MatchingDonationsCounts(donations[1..], name);
      assert donations == [donations[0]] + donations[1..];
    }
  }

  lemma {:induction false} MatchingDonationsConcat(a: seq<Donation>, b: seq<Donation>, name: string)
    ensures MatchingDonations(a + b, name) == MatchingDonations(a, name) + MatchingDonations(b, name)
  {
    if a == [] {
      assert a + b == b;
    } else {
      assert (a + b)[0] == a[0];
      assert (a + b)[1..] == a[1..] + b;
      MatchingDonationsConcat(a[1..], b, name);
    }
  }

  lemma {:induction false} InrSumConcat(a: seq<Donation>, b: seq<Donation>)
    ensures InrSum(a + b) == InrSum(a) + InrSum(b)
  {
    if b != [] {
      var ab := a + b;
      assert ab[..|ab| - 1] == a + b[..|b| - 1];
      assert ab[|ab| - 1] == b[|b| - 1];
      InrSumConcat(a, b[..|b| - 1]);
    } else {
      assert a + b == a;
    }
  }

  /** A project's total over two donation lists one after the other is the sum
      of its totals over each. */
  lemma ProjectTotalConcat(a: seq<Donation>, b: seq<Donation>, name: string)
    ensures ProjectTotal(a + b, name) == ProjectTotal(a, name) + ProjectTotal(b, name)
  {
    MatchingDonationsConcat(a, b, name);
    InrSumConcat(MatchingDonations(a, name), MatchingDonations(b, name));
  }

  /** A project that no donation names totals 0. */
  lemma {:induction false} UnnamedProjectTotalsZero(donations: seq<Donation>, name: string)
    requires forall d :: d in donations ==> d.project != name
    ensures ProjectTotal(donations, name) == 0
  {
    if donations != [] {
      assert donations[0] in donations;
      assert forall d :: d in donations[1..] ==> d in donations;
      UnnamedProjectTotalsZero(donations[1..], name);
    }
  }

  /** A donation whose project text names no project changes no row. */
  lemma StrayDonationChangesNoRow(projects: seq<Project>, before: seq<Donation>, stray: Donation, after: seq<Donation>)
    requires forall p :: p in projects ==> p.name != stray.project
    ensures DonationsByProject(projects, before + [stray] + after) == DonationsByProject(projects, before + after)
  {
    var withStray := DonationsByProject(projects, before + [stray] + after);
    var without := DonationsByProject(projects, before + after);
    forall i | 0 <= i < |projects| ensures withStray[i] == without[i] {
      var name := projects[i].name;
      assert projects[i] in projects;
      ProjectTotalConcat(before + [stray], after, name);
      ProjectTotalConcat(before, [stray], name);
      ProjectTotalConcat(before, after, name);
      UnnamedProjectTotalsZero([stray], name);
    }
  }

  /** A project's total over a list is the first donation's share plus its
      total over the rest. */
  lemma ProjectTotalCons(d: Donation, rest: seq<Donation>, name: string)
    ensures ProjectTotal([d] + rest, name) == (if d.project == name then InrValue(d) else 0) + ProjectTotal(rest, name)
  {
    ProjectTotalConcat([d], rest, name);
    assert [d][1..] == [];
    if d.project == name {
      assert MatchingDonations([d], name) == [d];
      assert [d][..0] == [];
      assert InrSum([d]) == InrSum([]) + InrValue(d);
    } else {
      assert MatchingDonations([d], name) == [];
    }
  }

  /** A project's total over five donations, one donation at a time. */
  lemma ProjectTotalOfFive(a: Donation, b: Donation, c: Donation, d: Donation, e: Donation, name: string)
    ensures ProjectTotal([a, b, c, d, e], name) ==
      (if a.project == name then InrValue(a) else 0) + (if b.project == name then InrValue(b) else 0) +
      (if c.project == name then InrValue(c) else 0) + (if d.project == name then InrValue(d) else 0) +
      (if e.project == name then InrValue(e) else 0)
  {
    var ds := [a, b, c, d, e];
    assert ds == [a] + ds[1..];
    assert ds[1..] == [b] + ds[2..];
    assert ds[2..] == [c] + ds[3..];
    assert ds[3..] == [d] + ds[4..];
    assert ds[4..] == [e] + [];
    ProjectTotalCons(a, ds[1..], name);
    ProjectTotalCons(b, ds[2..], name);
    ProjectTotalCons(c, ds[3..], name);
    ProjectTotalCons(d, ds[4..], name);
    ProjectTotalCons(e, [], name);
    UnnamedProjectTotalsZero([], name);
  }

  /** Over the seed donations a project's total is 5000 + 15000 rupees for
      "Clean Water Initiative", 100 and 50 dollars at 80 for "Education for
      All", 200 dollars at 80 for "Healthcare Access", and 0 for any other
      name. */
  lemma SeedProjectTotal(name: string)
    ensures ProjectTotal(MockDonations, name) ==
      if name == "Clean Water Initiative" then 20000
      else if name == "Education for All" then 12000
      else if name == "Healthcare Access" then 16000
      else 0
  {
    var ds := MockDonations;
    ProjectTotalOfFive(ds[0], ds[1], ds[2], ds[3], ds[4], name);
    assert ds == [ds[0], ds[1], ds[2], ds[3], ds[4]];
    assert "Education for All"[0] != "Healthcare Access"[0];
  }

  /** The "Donations by Project" rows over the seed lists: water 20000,
      education 12000, healthcare 16000 and the women's programme, which no
      seed donation names, 0. */
  lemma SeedDonationsByProject()
    ensures |DonationsByProject(MockProjects, MockDonations)| == 4
    ensures DonationsByProject(MockProjects, MockDonations)[0] == ProjectDonations("Clean Water Initiative", 20000)
    ensures DonationsByProject(MockProjects, MockDonations)[1] == ProjectDonations("Education for All", 12000)
    ensures DonationsByProject(MockProjects, MockDonations)[2] == ProjectDonations("Healthcare Access", 16000)
    ensures DonationsByProject(MockProjects, MockDonations)[3] == ProjectDonations("Women Empowerment Program", 0)
  {
    SeedProjectTotal(MockProjects[0].name);
    SeedProjectTotal(MockProjects[1].name);
    SeedProjectTotal(MockProjects[2].name);
    SeedProjectTotal(MockProjects[3].name);
  }

  // ---------------------------------------------------------------------------
  // Loading from storage

  /** A list stored under `key`, or None when the key is missing or holds the
      empty text. */
  function StoredProjects(entries: map<string, StoredValue>): (r: Option<seq<Project>>)
    requires WellTyped(entries)
    ensures r.None? <==> ProjectsStorageKey !in entries || entries[ProjectsStorageKey].EmptyText?
    ensures r.Some? ==> entries[ProjectsStorageKey] == ProjectList(r.value)
  {
    if ProjectsStorageKey in entries && entries[ProjectsStorageKey].ProjectList?
    then Some(entries[ProjectsStorageKey].projects) else None
  }

  function StoredDonations(entries: map<string, StoredValue>): (r: Option<seq<Donation>>)
    requires WellTyped(entries)
    ensures r.None? <==> DonationsStorageKey !in entries || entries[DonationsStorageKey].EmptyText?
    ensures r.Some? ==> entries[DonationsStorageKey] == DonationList(r.value)
  {
    if DonationsStorageKey in entries && entries[DonationsStorageKey].DonationList?
    then Some(entries[DonationsStorageKey].donations) else None
  }

  /** The dashboard's state: the projects and donations it shows. */
  class ManagerDashboard {
    var projects: seq<Project>
    var donations: seq<Donation>

    constructor ()
      ensures projects == [] && donations == []
    {
      projects := [];
      donations := [];
    }

    /** The mount effect: take each list from storage when it is there, and
        keep the current list otherwise. */
    method LoadFromStorage(storage: LocalStorage)
      requires WellTyped(storage.entries)
      modifies this
      ensures projects == (match StoredProjects(storage.entries) case Some(ps) => ps case None => old(projects))
      ensures donations == (match StoredDonations(storage.entries) case Some(ds) => ds case None => old(donations))
    {
      var storedProjects := storage.GetItem(ProjectsStorageKey);
      if storedProjects.Some? && !storedProjects.value.EmptyText? {
        projects := storedProjects.value.projects;
      }
      var storedDonations := storage.GetItem(DonationsStorageKey);
      if storedDonations.Some? && !storedDonations.value.EmptyText? {
        donations := storedDonations.value.donations;
      }
    }

    /** The "Donations by Project" rows for the current state. */
    function Rows(): (rows: seq<ProjectDonations>)
      reads this
      ensures |rows| == |projects|
      ensures forall i :: 0 <= i < |rows| ==>
        rows[i].name == projects[i].name && rows[i].total == ProjectTotal(donations, projects[i].name)
    {
      DonationsByProject(projects, donations)
    }
  }

  /** Showing the dashboard over a storage: the rows follow the stored lists;
      with no stored projects there are no rows, and with no stored donations
      every total is 0. */
  method ShowDashboard(storage: LocalStorage) returns (rows: seq<ProjectDonations>)
    requires WellTyped(storage.entries)
    ensures rows == DonationsByProject(
      if StoredProjects(storage.entries).Some? then StoredProjects(storage.entries).value else [],
      if StoredDonations(storage.entries).Some? then StoredDonations(storage.entries).value else [])
    ensures StoredProjects(storage.entries).None? ==> rows == []
    ensures StoredProjects(storage.entries).Some? ==>
      |rows| == |StoredProjects(storage.entries).value|
    ensures StoredDonations(storage.entries).None? ==> forall i :: 0 <= i < |rows| ==> rows[i].total == 0
    ensures StoredDonations(storage.entries).Some? ==> forall i :: 0 <= i < |rows| ==>
      rows[i].total == ProjectTotal(StoredDonations(storage.entries).value, rows[i].name)
  {
    var dashboard := new ManagerDashboard();
    dashboard.LoadFromStorage(storage);
    rows := dashboard.Rows();
    if StoredDonations(storage.entries).None? {
      forall i | 0 <= i < |rows| ensures rows[i].total == 0 {
        UnnamedProjectTotalsZero([], rows[i].name);
      }
    }
  }
}
