/** The seed collections the dashboard starts from, and the donation trend
    tables whose rows carry a rupee total. */
module SeedData {
  import opened JsBuiltins
  import opened Types

  // ---------------------------------------------------------------------------
  // Users

  /** The seed user of each role (`mockUsers`, a record keyed by role). */
  function MockUser(role: Role): (u: User)
    ensures u.role == role
    ensures u.status == None && u.password == None
  {
    match role
    case Admin => User("user-admin-01", "Alex Ray", "alex.ray@example.com", "https://picsum.photos/seed/alex/100/100", Admin, None, None)
    case Manager => User("user-manager-01", "Jordan Lee", "jordan.lee@example.com", "https://picsum.photos/seed/jordan/100/100", Manager, None, None)
    case Volunteer => User("user-volunteer-01", "Casey Smith", "casey.smith@example.com", "https://picsum.photos/seed/casey/100/100", Volunteer, None, None)
    case Intern => User("user-intern-01", "Taylor Green", "taylor.green@example.com", "https://picsum.photos/seed/taylor/100/100", Intern, None, None)
    case Donor => User("user-donor-01", "Morgan Brown", "morgan.brown@example.com", "https://picsum.photos/seed/morgan/100/100", Donor, None, None)
  }

  /** The seed users list (`allMockUsers`): the five role users in the record's
      key order, then a second admin and a second manager. */
  const AllMockUsers: seq<User> := [
    MockUser(Admin), MockUser(Manager), MockUser(Volunteer), MockUser(Intern), MockUser(Donor),
    User("user-admin-02", "Jamie Doe", "jamie.doe@example.com", "https://picsum.photos/seed/jamie/100/100", Admin, None, None),
    User("user-manager-02", "Chris Wilson", "chris.w@example.com", "https://picsum.photos/seed/chris/100/100", Manager, None, None)
  ]

  /** Seven seed users with pairwise distinct ids, none of them carrying a status. */
  lemma SeedUsersShape()
    ensures |AllMockUsers| == 7
    ensures forall r: Role :: AllMockUsers[RoleIndex(r)] == MockUser(r)
    ensures forall i, j :: 0 <= i < j < |AllMockUsers| ==> AllMockUsers[i].id != AllMockUsers[j].id
    ensures forall i :: 0 <= i < |AllMockUsers| ==> AllMockUsers[i].status == None
  {
  }

  /** The position of each role's seed user at the front of `AllMockUsers`. */
  function RoleIndex(r: Role): (i: nat)
    ensures i < 5
  {
    match r
    case Admin => 0
    case Manager => 1
    case Volunteer => 2
    case Intern => 3
    case Donor => 4
  }

  /** No two seed users share an email, even ignoring case, so a
      case-insensitive email lookup over the seeds matches at most one user. */
  lemma SeedEmailsDistinctIgnoringCase()
    ensures forall i, j :: 0 <= i < j < |AllMockUsers| ==>
      ToLowerCase(AllMockUsers[i].email) != ToLowerCase(AllMockUsers[j].email)
  {
    // Only the intern's and the donor's addresses have the same length.
    assert ToLowerCase(AllMockUsers[3].email)[0] == 't';
    assert ToLowerCase(AllMockUsers[4].email)[0] == 'm';
  }

  /** Exactly one seed user is a Donor: `user-donor-01`, at index 4. */
  lemma SeedHasOneDonor()
    ensures AllMockUsers[4].role == Donor && AllMockUsers[4].id == "user-donor-01"
    ensures forall i :: 0 <= i < |AllMockUsers| && i != 4 ==> AllMockUsers[i].role != Donor
  {
  }

  // ---------------------------------------------------------------------------
  // Projects and donations

  const MockProjects: seq<Project> := [
    Project("proj-01", "Clean Water Initiative", "Providing clean and safe drinking water to rural communities.", "https://picsum.photos/seed/water/600/400", Ongoing, Some(75), None),
    Project("proj-02", "Education for All", "Building schools and providing educational materials for underprivileged children.", "https://picsum.photos/seed/education/600/400", Ongoing, Some(50), None),
    Project("proj-03", "Healthcare Access", "Setting up mobile clinics to offer free healthcare services.", "https://picsum.photos/seed/health/600/400", Completed, Some(100), None),
    Project("proj-04", "Women Empowerment Program", "Skill development workshops for women.", "https://picsum.photos/seed/women/600/400", Planning, Some(10), None)
  ]

  const MockDonations: seq<Donation> := [
    Donation("don-01", "Morgan Brown", "morgan.brown@example.com", 5000, INR, "2023-10-15", "Clean Water Initiative", Some("#")),
    Donation("don-02", "John Doe", "j.doe@example.com", 100, USD, "2023-10-20", "Education for All", None),
    Donation("don-03", "Jane Smith", "jane.s@example.com", 15000, INR, "2023-11-05", "Clean Water Initiative", None),
    Donation("don-04", "Morgan Brown", "morgan.brown@example.com", 200, USD, "2023-11-12", "Healthcare Access", Some("#")),
    Donation("don-05", "Peter Jones", "p.jones@example.com", 50, USD, "2023-12-01", "Education for All", None)
  ]

  /** Every seed donation has a positive amount and names a seed project. */
  lemma SeedDonationsWellFormed()
    ensures forall i :: 0 <= i < |MockDonations| ==> MockDonations[i].amount > 0
    ensures forall i :: 0 <= i < |MockDonations| ==>
      exists k :: 0 <= k < |MockProjects| && MockProjects[k].name == MockDonations[i].project
  {
    assert MockDonations[0].project == MockProjects[0].name;
    assert MockDonations[1].project == MockProjects[1].name;
    assert MockDonations[2].project == MockProjects[0].name;
    assert MockDonations[3].project == MockProjects[2].name;
    assert MockDonations[4].project == MockProjects[1].name;
  }

  // ---------------------------------------------------------------------------
  // Donation trends

  /** A trend row as written: a period label (month, week or day) with the
      rupee and dollar amounts of that period. */
  datatype RawTrendRow = RawTrendRow(period: string, inr: int, usd: int)

  /** A trend row with the period's total counted in rupees. */
  datatype TrendRow = TrendRow(period: string, inr: int, usd: int, total: int)

  function Untotalled(rows: seq<TrendRow>): (raw: seq<RawTrendRow>)
  {
    if rows == [] then []
    else [RawTrendRow(rows[0].period, rows[0].inr, rows[0].usd)] + Untotalled(rows[1..])
  }

  /** `raw.map(d => ({...d, Total: d.INR + d.USD * 80}))`: every row keeps its
      label and amounts, in the same order, and gains the rupee total. */
  function WithTotals(raw: seq<RawTrendRow>): (rows: seq<TrendRow>)
    ensures Untotalled(rows) == raw
    ensures forall i :: 0 <= i < |rows| ==> rows[i].total == rows[i].inr + rows[i].usd * UsdToInr
  {
    if raw == [] then []
    else [TrendRow(raw[0].period, raw[0].inr, raw[0].usd, raw[0].inr + raw[0].usd * UsdToInr)]
         + WithTotals(raw[1..])
  }

  /** `Untotalled` keeps the length and each row's label and amounts. */
  lemma {:induction false} UntotalledAt(rows: seq<TrendRow>, i: nat)
    requires i < |rows|
    ensures |Untotalled(rows)| == |rows|
    ensures Untotalled(rows)[i] == RawTrendRow(rows[i].period, rows[i].inr, rows[i].usd)
  {
    if i == 0 {
      if |rows| > 1 {
        UntotalledAt(rows[1..], 0);
      }
    } else {
      UntotalledAt(rows[1..], i - 1);
    }
  }

  /** Row by row, a totalled table is its source row with the rupee total added. */
  lemma TotalledRows(raw: seq<RawTrendRow>)
    ensures |WithTotals(raw)| == |raw|
    ensures forall i :: 0 <= i < |raw| ==>
      WithTotals(raw)[i] == TrendRow(raw[i].period, raw[i].inr, raw[i].usd, raw[i].inr + raw[i].usd * UsdToInr)
  {
    var rows := WithTotals(raw);
    if rows != [] {
      UntotalledAt(rows, 0);
    }
    forall i | 0 <= i < |raw|
      ensures WithTotals(raw)[i] == TrendRow(raw[i].period, raw[i].inr, raw[i].usd, raw[i].inr + raw[i].usd * UsdToInr)
    {
      UntotalledAt(rows, i);
    }
  }

  const RawMonthlyTrend: seq<RawTrendRow> := [
    RawTrendRow("Jan", 40000, 500), RawTrendRow("Feb", 30000, 350), RawTrendRow("Mar", 50000, 600),
    RawTrendRow("Apr", 45000, 550), RawTrendRow("May", 60000, 700), RawTrendRow("Jun", 55000, 650),
    RawTrendRow("Jul", 70000, 800), RawTrendRow("Aug", 65000, 750), RawTrendRow("Sep", 75000, 850),
    RawTrendRow("Oct", 80000, 900), RawTrendRow("Nov", 90000, 1000), RawTrendRow("Dec", 85000, 950)
  ]

  const RawWeeklyTrend: seq<RawTrendRow> := [
    RawTrendRow("W1", 10000, 125), RawTrendRow("W2", 12000, 150),
    RawTrendRow("W3", 8000, 100), RawTrendRow("W4", 15000, 180)
  ]

  const RawDailyTrend: seq<RawTrendRow> := [
    RawTrendRow("Mon", 2000, 25), RawTrendRow("Tue", 1500, 20), RawTrendRow("Wed", 3000, 35),
    RawTrendRow("Thu", 2500, 30), RawTrendRow("Fri", 4000, 50), RawTrendRow("Sat", 5000, 60),
    RawTrendRow("Sun", 1000, 15)
  ]

  const DonationMonthlyTrend: seq<TrendRow> := WithTotals(RawMonthlyTrend)
  const DonationWeeklyTrend: seq<TrendRow> := WithTotals(RawWeeklyTrend)
  const DonationDailyTrend: seq<TrendRow> := WithTotals(RawDailyTrend)

  /** The monthly table has twelve rows, each totalling its rupees plus
      eighty times its dollars. */
  lemma MonthlyTrendTotals()
    ensures |DonationMonthlyTrend| == 12
    ensures forall i :: 0 <= i < |DonationMonthlyTrend| ==>
      DonationMonthlyTrend[i].total == RawMonthlyTrend[i].inr + RawMonthlyTrend[i].usd * UsdToInr
  {
    TotalledRows(RawMonthlyTrend);
  }

  /** January, 40000 rupees and 500 dollars, totals 80000 rupees. */
  lemma JanuaryTotal()
    ensures DonationMonthlyTrend[0] == TrendRow("Jan", 40000, 500, 80000)
  {
    TotalledRows(RawMonthlyTrend);
    assert RawMonthlyTrend[0] == RawTrendRow("Jan", 40000, 500);
  }

  /** The weekly table has four rows, each totalling its rupees plus eighty
      times its dollars. */
  lemma WeeklyTrendTotals()
    ensures |DonationWeeklyTrend| == 4
    ensures forall i :: 0 <= i < |DonationWeeklyTrend| ==>
      DonationWeeklyTrend[i].total == RawWeeklyTrend[i].inr + RawWeeklyTrend[i].usd * UsdToInr
  {
    TotalledRows(RawWeeklyTrend);
  }

  /** The daily table has seven rows, each totalling its rupees plus eighty
      times its dollars. */
  lemma DailyTrendTotals()
    ensures |DonationDailyTrend| == 7
    ensures forall i :: 0 <= i < |DonationDailyTrend| ==>
      DonationDailyTrend[i].total == RawDailyTrend[i].inr + RawDailyTrend[i].usd * UsdToInr
  {
    TotalledRows(RawDailyTrend);
  }
}
