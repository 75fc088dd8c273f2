/** The administrator's dashboard: five headline figures computed from the
    seed collections — the rupee and dollar donation totals, kept apart, the
    number of projects, a fixed beneficiaries figure and the number of
    volunteers. */
module AdminView {
  import opened Types
  import opened SeedData
  import ManagerView

  // ---------------------------------------------------------------------------
  // Per-currency totals

  /** `donations.filter(d => d.currency === c)`. */
  function OfCurrency(donations: seq<Donation>, c: Currency): (r: seq<Donation>)
    ensures |r| <= |donations|
    ensures forall d :: d in r ==> d in donations && d.currency == c
    ensures forall d :: d in donations && d.currency == c ==> d in r
  {
    if donations == [] then []
    else if donations[0].currency == c then [donations[0]] + OfCurrency(donations[1..], c)
    else OfCurrency(donations[1..], c)
  }

  /** `.reduce((acc, d) => acc + d.amount, 0)`: the plain amounts, accumulated
      from the first donation to the last, with no conversion. */
  function AmountSum(donations: seq<Donation>): int
  {
    if donations == [] then 0
    else AmountSum(donations[..|donations| - 1]) + donations[|donations| - 1].amount
  }

  /** The total of one currency's donations, in that currency's own unit. */
  function CurrencyTotal(donations: seq<Donation>, c: Currency): int
  {
    AmountSum(OfCurrency(donations, c))
  }

  /** The filter keeps every donation in currency `c` as often as it occurs,
      and no other. */
  lemma {:induction false} OfCurrencyCounts(donations: seq<Donation>, c: Currency)
    ensures forall d ::
      multiset(OfCurrency(donations, c))[d] == (if d.currency == c then multiset(donations)[d] else 0)
  {
    if donations != [] {
      OfCurrencyCounts(donations[1..], c);
      assert donations == [donations[0]] + donations[1..];
    }
  }

  lemma {:induction false} OfCurrencyConcat(a: seq<Donation>, b: seq<Donation>, c: Currency)
    ensures OfCurrency(a + b, c) == OfCurrency(a, c) + OfCurrency(b, c)
  {
    if a == [] {
      assert a + b == b;
    } else {
      assert (a + b)[0] == a[0];
      assert (a + b)[1..] == a[1..] + b;
      OfCurrencyConcat(a[1..], b, c);
    }
  }

  lemma {:induction false} AmountSumConcat(a: seq<Donation>, b: seq<Donation>)
    ensures AmountSum(a + b) == AmountSum(a) + AmountSum(b)
  {
    if b != [] {
      var ab := a + b;
      assert ab[..|ab| - 1] == a + b[..|b| - 1];
      assert ab[|ab| - 1] == b[|b| - 1];
      AmountSumConcat(a, b[..|b| - 1]);
    } else {
      assert a + b == a;
    }
  }

  /** A currency's total over two lists one after the other is the sum of its
      totals over each. */
  lemma CurrencyTotalConcat(a: seq<Donation>, b: seq<Donation>, c: Currency)
    ensures CurrencyTotal(a + b, c) == CurrencyTotal(a, c) + CurrencyTotal(b, c)
  {
    OfCurrencyConcat(a, b, c);
    AmountSumConcat(OfCurrency(a, c), OfCurrency(b, c));
  }

  /** A single donation counts, at its own amount, towards its own currency's
      total and towards no other. */
  lemma CurrencyTotalOfOne(d: Donation, c: Currency)
    ensures CurrencyTotal([d], c) == if d.currency == c then d.amount else 0
  {
    assert [d][1..] == [];
    if d.currency == c {
      assert OfCurrency([d], c) == [d];
      assert [d][..0] == [];
      assert AmountSum([d]) == AmountSum([]) + d.amount;
    } else {
      assert OfCurrency([d], c) == [];
    }
  }

  /** The total of a list is the first donation's share plus the total of the
      rest. */
  lemma CurrencyTotalCons(d: Donation, rest: seq<Donation>, c: Currency)
    ensures CurrencyTotal([d] + rest, c) == (if d.currency == c then d.amount else 0) + CurrencyTotal(rest, c)
  {
    CurrencyTotalConcat([d], rest, c);
    CurrencyTotalOfOne(d, c);
  }

  /** Every donation is in rupees or in dollars, so the two totals together
      are the sum of all amounts. */
  lemma {:induction false} CurrencyTotalsSplitTheSum(donations: seq<Donation>)
    ensures CurrencyTotal(donations, INR) + CurrencyTotal(donations, USD) == AmountSum(donations)
  {
    if donations != [] {
      var n := |donations| - 1;
      var front := donations[..n];
      var last := donations[n];
      assert donations == front + [last];
      CurrencyTotalsSplitTheSum(front);
      CurrencyTotalConcat(front, [last], INR);
      CurrencyTotalConcat(front, [last], USD);
      CurrencyTotalOfOne(last, INR);
      CurrencyTotalOfOne(last, USD);
    }
  }

  /** The manager's rupee figure of a list (dollars at 80) is this dashboard's
      rupee total plus 80 times its dollar total. */
  lemma {:induction false} RupeeValueFromCurrencyTotals(donations: seq<Donation>)
    ensures ManagerView.InrSum(donations) == CurrencyTotal(donations, INR) + UsdToInr * CurrencyTotal(donations, USD)
  {
    if donations != [] {
      var n := |donations| - 1;
      var front := donations[..n];
      var last := donations[n];
      assert donations == front + [last];
      RupeeValueFromCurrencyTotals(front);
      CurrencyTotalConcat(front, [last], INR);
      CurrencyTotalConcat(front, [last], USD);
      CurrencyTotalOfOne(last, INR);
      CurrencyTotalOfOne(last, USD);
    }
  }

  /** A list with no donation in currency `c` totals 0 in `c`. */
  lemma {:induction false} AbsentCurrencyTotalsZero(donations: seq<Donation>, c: Currency)
    requires forall d :: d in donations ==> d.currency != c
    ensures CurrencyTotal(donations, c) == 0
  {
    if donations != [] {
      assert donations[0] in donations;
      assert forall d :: d in donations[1..] ==> d in donations;
      AbsentCurrencyTotalsZero(donations[1..], c);
    }
  }

  // ---------------------------------------------------------------------------
  // Counts

  /** `projects.length`: every project, whatever its status. */
  function TotalProjects(projects: seq<Project>): nat
  {
    |projects|
  }

  /** `users.filter(u => u.role === 'Volunteer')`. */
  function Volunteers(users: seq<User>): (r: seq<User>)
    ensures |r| <= |users|
    ensures forall u :: u in r ==> u in users && u.role == Volunteer
    ensures forall u :: u in users && u.role == Volunteer ==> u in r
  {
    if users == [] then []
    else if users[0].role == Volunteer then [users[0]] + Volunteers(users[1..])
    else Volunteers(users[1..])
  }

  /** The filter keeps every volunteer as often as it occurs, and no other
      user. */
  lemma {:induction false} VolunteersCounts(users: seq<User>)
    ensures forall u ::
      multiset(Volunteers(users))[u] == (if u.role == Volunteer then multiset(users)[u] else 0)
  {
    if users != [] {
      VolunteersCounts(users[1..]);
      assert users == [users[0]] + users[1..];
    }
  }

  /** The number of users whose role is Volunteer. */
  function VolunteerCount(users: seq<User>): nat
  {
    |Volunteers(users)|
  }

  /** The count is 0 exactly when no user is a volunteer. */
  lemma {:induction false} NoVolunteersIffCountZero(users: seq<User>)
    ensures VolunteerCount(users) == 0 <==> forall u :: u in users ==> u.role != Volunteer
  {
    if users != [] {
      NoVolunteersIffCountZero(users[1..]);
      assert forall u :: u in users ==> u == users[0] || u in users[1..];
    }
  }

  /** The count of a list is the first user's contribution, 1 for a
      volunteer and 0 otherwise, plus the count of the rest. */
  lemma VolunteerCountCons(u: User, rest: seq<User>)
    ensures VolunteerCount([u] + rest) == (if u.role == Volunteer then 1 else 0) + VolunteerCount(rest)
  {
    assert ([u] + rest)[0] == u;
    assert ([u] + rest)[1..] == rest;
  }

  /** The figure shown for beneficiaries, a constant. */
  const TotalBeneficiaries: int := 12500

  // ---------------------------------------------------------------------------
  // The stats list

  /** One headline figure. The shown text formats the number for the locale,
      behind a rupee or dollar sign for the two donation figures. */
  datatype Stat = Stat(title: string, value: int)

  /** `stats`: the five figures in their fixed order. */
  function Stats(donations: seq<Donation>, projects: seq<Project>, users: seq<User>): (r: seq<Stat>)
    ensures |r| == 5
    ensures r[0].title == "Donations (INR)" && r[1].title == "Donations (USD)"
    ensures r[2].title == "Active Projects" && r[3].title == "Beneficiaries Reached"
    ensures r[4].title == "Volunteers"
    ensures r[3].value == TotalBeneficiaries
    ensures r[0].value == CurrencyTotal(donations, INR) && r[1].value == CurrencyTotal(donations, USD)
    ensures r[2].value == |projects| && r[4].value == VolunteerCount(users)
  {
    [ Stat("Donations (INR)", CurrencyTotal(donations, INR)),
      Stat("Donations (USD)", CurrencyTotal(donations, USD)),
      Stat("Active Projects", TotalProjects(projects)),
      Stat("Beneficiaries Reached", TotalBeneficiaries),
      Stat("Volunteers", VolunteerCount(users)) ]
  }

  /** The two donation figures add up to the sum of all amounts, and the
      other figures do not depend on the donations at all. */
  lemma StatsSplitTheDonations(donations: seq<Donation>, other: seq<Donation>, projects: seq<Project>, users: seq<User>)
    ensures Stats(donations, projects, users)[0].value + Stats(donations, projects, users)[1].value
         == AmountSum(donations)
    ensures Stats(donations, projects, users)[2..] == Stats(other, projects, users)[2..]
  {
    CurrencyTotalsSplitTheSum(donations);
  }

  /** The figures the dashboard shows: computed from the seed collections. */
  function AdminDashboard(): seq<Stat>
  {
    Stats(MockDonations, MockProjects, AllMockUsers)
  }

  /** The seed donations' total in currency `c`, one donation at a time. */
  lemma SeedCurrencyTotal(c: Currency)
    ensures CurrencyTotal(MockDonations, c) ==
      (if c == INR then 5000 + 15000 else 100 + 200 + 50)
  {
    var ds := MockDonations;
    assert ds == [ds[0]] + ds[1..];
    assert ds[1..] == [ds[1]] + ds[2..];
    assert ds[2..] == [ds[2]] + ds[3..];
    assert ds[3..] == [ds[3]] + ds[4..];
    assert ds[4..] == [ds[4]] + [];
    CurrencyTotalCons(ds[0], ds[1..], c);
    CurrencyTotalCons(ds[1], ds[2..], c);
    CurrencyTotalCons(ds[2], ds[3..], c);
    CurrencyTotalCons(ds[3], ds[4..], c);
    CurrencyTotalCons(ds[4], [], c);
  }

  /** Exactly one seed user is a volunteer: the third. */
  lemma SeedVolunteerCount()
    ensures Volunteers(AllMockUsers) == [AllMockUsers[2]]
    ensures VolunteerCount(AllMockUsers) == 1
  {
    var us := AllMockUsers;
    assert Volunteers(us[6..]) == [];
    assert Volunteers(us[5..]) == [];
    assert Volunteers(us[4..]) == [];
    assert Volunteers(us[3..]) == [];
    assert Volunteers(us[2..]) == [us[2]];
    assert Volunteers(us[1..]) == [us[2]];
  }

  /** The seed figures: 20000 rupees, 350 dollars, 4 projects, 12500
      beneficiaries and 1 volunteer. */
  lemma SeedStats()
    ensures AdminDashboard()[0] == Stat("Donations (INR)", 20000)
    ensures AdminDashboard()[1] == Stat("Donations (USD)", 350)
    ensures AdminDashboard()[2] == Stat("Active Projects", 4)
    ensures AdminDashboard()[3] == Stat("Beneficiaries Reached", 12500)
    ensures AdminDashboard()[4] == Stat("Volunteers", 1)
  {
    SeedCurrencyTotal(INR);
    SeedCurrencyTotal(USD);
    SeedVolunteerCount();
  }

  /** "Active Projects" counts every project whatever its status: all four
      seed projects, of which the third is completed and the fourth still
      being planned. */
  lemma SeedActiveProjectsCountsEveryStatus()
    ensures AdminDashboard()[2].value == |MockProjects| == 4
    ensures MockProjects[2].status == Completed && MockProjects[3].status == Planning
  {
  }
}
