# NGO admin dashboard: session, donation arithmetic and role-based navigation

This project is a Dafny model of the logic inside an NGO's admin dashboard, a
Next.js web app. The model covers three parts.

- **The session provider** (`Auth`). It keeps the signed-in user and reads and writes the browser's
  local storage (`BrowserStorage`).
  - Sign-in by email is case-insensitive, and the password is never read.
  - Google sign-in takes the first Donor.
  - An account is refused only when its status is Inactive.
  - On page load, a stored session is resumed only when a user with its id is exactly Active.
  - Logout clears the session. The role switch rewrites the session record and every users-list entry with its id.
- **The donation arithmetic.** This covers the manager dashboard's per-project rupee totals
  (`ManagerView`), the administrator dashboard's figures (`AdminView`) and the
  seed data with its trend tables (`SeedData`). Dollars count as 80 rupees.
- **The role-based presentation rules.** The header (`HeaderView`) has the role switcher and the avatar
  initials. The sidebar (`SidebarView`) has the role-to-items table, its empty fallback and
  the active-item test.

Code that changes state is modelled as classes with `modifies` clauses:

- `AuthProvider` holds the session state;
- `LocalStorage` is the storage;
- `ManagerDashboard` holds the manager view's lists.

Every such method states its whole new state as a function of the old one.

The decisions behind those methods are pure functions with their own lemmas: `Admit`, `LoginOutcome`, `GoogleOutcome`,
`Restoration`, `ReplaceById` and `DonationsByProject`. The JavaScript
built-ins the code relies on are in `JsBuiltins`: `find`, `toLowerCase`, `toUpperCase`,
`trim` and `split(" ")`. `split(" ")` is specified through its inverse `Join`
(`join(" ")`), which the code itself never calls.

Where the code and its data disagree with the type declarations, the model follows the code.

- The seed users carry no `status` field, although the `User` type declares one. So
  `status` is optional here, and the seeds have none.
- Because of that missing status, a seed user is admitted at sign-in (`Admit`, which refuses only Inactive). The same user's stored session is evicted on the
  next page load (`Restoration`, which resumes only Active). `SeedSessionIsAdmittedThenEvicted` and
  `SeedSessionDoesNotSurviveReload` state this outright.
- The "Active Projects" figure counts every project, whatever its status
  (`SeedActiveProjectsCountsEveryStatus`).

## Model

| member | source | states |
|---|---|---|
| JsBuiltins.FindIndex | src/components/providers/auth-provider.tsx:71 | `find` semantics: a found index satisfies the test and no earlier one does; nothing is found exactly when no element satisfies it |
| JsBuiltins.Find | src/components/providers/auth-provider.tsx:36 | `find` returns an element of the list that satisfies the test, and returns nothing exactly when no element does |
| JsBuiltins.FindFirst | src/components/providers/auth-provider.tsx:90 | when `i` is the first index whose element satisfies the test, `find` returns that element |
| JsBuiltins.ToLowerCase | src/components/providers/auth-provider.tsx:71 | `toLowerCase` keeps the length, leaves no capital letter, and changes each character only in its case |
| JsBuiltins.ToUpperCase | src/components/layout/header.tsx:34-36 | `toUpperCase` keeps the length, leaves no small letter, and changes each character only in its case |
| JsBuiltins.Trim | src/components/layout/header.tsx:32 | `trim` yields "" exactly when every character is whitespace; otherwise it starts at the first non-whitespace character and neither end is whitespace |
| JsBuiltins.TrimRemovesOnlyPadding | src/components/layout/header.tsx:32 | a string is its leading whitespace, then its trim, then only whitespace: `trim` removes only the padding at the two ends |
| JsBuiltins.TrimOfPadded | src/components/layout/header.tsx:32 | padding a string that neither starts nor ends with whitespace, on either side, leaves its trim unchanged |
| JsBuiltins.TrimKeepsUnpaddedString | src/components/layout/header.tsx:32 | a string that neither starts nor ends with whitespace is its own trim |
| JsBuiltins.Split | src/components/layout/header.tsx:32 | `split(" ")` yields at least one piece, no piece contains a space, and a string starting with a non-space starts its first piece |
| JsBuiltins.Join | src/components/layout/header.tsx:32 | `join(" ")`, which the code itself never calls, serves as the inverse that specifies `split(" ")` (JoinSplit, SplitJoin); its contract says a join of no pieces is "" and a join of n pieces is at least n - 1 characters long, one per separator |
| JsBuiltins.JoinSplit | src/components/layout/header.tsx:32 | joining the pieces of a split with single spaces gives back the original string |
| JsBuiltins.SplitJoin | src/components/layout/header.tsx:32 | splitting a single-space join of space-free pieces gives back the pieces |
| JsBuiltins.SplitAfterWord | src/components/layout/header.tsx:32 | a space-free word followed by a space splits off as the first piece |
| JsBuiltins.SplitDoubleSpace | src/components/layout/header.tsx:32-33 | two spaces after a word produce an empty second piece |
| JsBuiltins.JoinEnds | src/components/layout/header.tsx:32 | a join of non-empty pieces starts with the first piece's first character and ends with the last piece's last character |
| SeedData.MockUser | src/lib/data.ts:3-9 | the seed user under each role key has that role and carries no status and no password |
| SeedData.SeedUsersShape | src/lib/data.ts:11-15 | seven seed users: the five role users in key order, then two more; ids pairwise distinct; none has a status |
| SeedData.SeedEmailsDistinctIgnoringCase | src/lib/data.ts:4-14 | no two seed emails are equal once lower-cased |
| SeedData.SeedHasOneDonor | src/lib/data.ts:8 | exactly one seed user is a Donor: `user-donor-01`, fifth in the list |
| SeedData.SeedDonationsWellFormed | src/lib/data.ts:24-30 | every seed donation has a positive amount and names a seed project |
| SeedData.WithTotals | src/lib/data.ts:61-64 | the trend map keeps each row's label and amounts in order, and every row's total is rupees plus 80 times dollars |
| SeedData.UntotalledAt | src/lib/data.ts:61-64 | dropping the totals keeps the length and every row's label and amounts |
| SeedData.TotalledRows | src/lib/data.ts:61-64 | row by row, a totalled table is its raw row plus the rupee total |
| SeedData.MonthlyTrendTotals | src/lib/data.ts:46-64 | the monthly table has 12 rows, each totalling rupees plus 80 times dollars |
| SeedData.JanuaryTotal | src/lib/data.ts:47 | January (40000 rupees, 500 dollars) totals 80000 |
| SeedData.WeeklyTrendTotals | src/lib/data.ts:66-76 | the weekly table has 4 rows, each totalling rupees plus 80 times dollars |
| SeedData.DailyTrendTotals | src/lib/data.ts:78-91 | the daily table has 7 rows, each totalling rupees plus 80 times dollars |
| BrowserStorage.LocalStorage.GetItem | src/components/providers/auth-provider.tsx:30 | `getItem` returns the stored value, and nothing exactly when the key is absent |
| BrowserStorage.LocalStorage.SetItem | src/components/providers/auth-provider.tsx:59 | `setItem` replaces one key's value and changes no other key; reading that key gives the new value back |
| BrowserStorage.LocalStorage.RemoveItem | src/components/providers/auth-provider.tsx:42 | `removeItem` removes one key and changes no other key; reading that key then gives nothing |
| Auth.LoadUsers | src/components/providers/auth-provider.tsx:34-35 | the users list is the seed list when the users key is missing or holds the empty text, and otherwise exactly the stored list (the same read recurs at lines 67-68, 88-89 and 119-120) |
| Auth.UsersListRoundTrip | src/components/providers/auth-provider.tsx:35 | a stored users list, even an empty one, is read back as stored; a missing key or the empty text falls back to the seed users |
| Auth.Admit | src/components/providers/auth-provider.tsx:48-59 | an account is admitted exactly when its status is Active or absent; otherwise the outcome is the inactive-account failure |
| Auth.LoginOutcome | src/components/providers/auth-provider.tsx:64-83 | login fails with invalid credentials exactly when no email matches ignoring case; a signed-in account is in the list, matches, and is not Inactive; the password plays no part |
| Auth.LoginPicksFirstMatch | src/components/providers/auth-provider.tsx:71-74 | login decides on the first user whose email matches, whatever follows it |
| Auth.SeedLoginSignsIntoTheMatchingUser | src/components/providers/auth-provider.tsx:68-74 | over the seed users an email matches at most one account, and signing in with it succeeds |
| Auth.GoogleOutcome | src/components/providers/auth-provider.tsx:85-102 | Google sign-in fails with no-donor exactly when no user is a Donor; a success is a Donor from the list that is not Inactive |
| Auth.GooglePicksFirstDonor | src/components/providers/auth-provider.tsx:90-93 | Google sign-in decides on the first Donor alone: it signs into it unless it is Inactive, and an Inactive first Donor fails even when a later Donor is Active |
| Auth.SeedGoogleLoginSelectsTheDonor | src/components/providers/auth-provider.tsx:88-93 | over the seed users Google sign-in signs into `user-donor-01` |
| Auth.Restoration | src/components/providers/auth-provider.tsx:29-46 | nothing happens exactly when no session is stored; a resumed session is a live list entry with the stored id and status exactly Active |
| Auth.RestorePicksFirstWithId | src/components/providers/auth-provider.tsx:36-43 | the first user with the stored id decides: resumed when it is Active, evicted otherwise, whatever users with that id follow |
| Auth.RestoreResumesExactlyActiveUsers | src/components/providers/auth-provider.tsx:36-43 | with unique ids, a stored session is resumed if and only if a user with its id is Active, and is evicted otherwise |
| Auth.SeedSessionIsAdmittedThenEvicted | src/components/providers/auth-provider.tsx:38 | a seed user is admitted at sign-in, but its stored session is evicted on the next load while the seed list is in use |
| Auth.ReplaceById | src/components/providers/auth-provider.tsx:122-124 | the users list keeps its length; exactly the entries with the switched id become the switched record, the rest are unchanged |
| Auth.ReplaceByIdSettles | src/components/providers/auth-provider.tsx:122-124 | replacing twice is replacing once; a list without the id is unchanged; the record is in the result when its id was |
| Auth.AuthProvider.constructor | src/components/providers/auth-provider.tsx:24-25 | a new provider has no user and is loading |
| Auth.AuthProvider.RestoreSession | src/components/providers/auth-provider.tsx:29-46 | the load effect resumes the live record, removes the stored record, or does nothing, as `Restoration` decides, and stops loading |
| Auth.AuthProvider.HandleAuth | src/components/providers/auth-provider.tsx:48-62 | an admitted account becomes the session and is stored under the current-user key; an Inactive one changes neither |
| Auth.AuthProvider.Login | src/components/providers/auth-provider.tsx:64-83 | the outcome is `LoginOutcome` over the users list read from storage; on success session and current-user key hold the account, otherwise both are unchanged |
| Auth.AuthProvider.GoogleLogin | src/components/providers/auth-provider.tsx:85-102 | the outcome is `GoogleOutcome` over the stored users list; on success session and current-user key hold the donor, otherwise both are unchanged |
| Auth.AuthProvider.Logout | src/components/providers/auth-provider.tsx:104-108 | the session is cleared and only the current-user key is removed |
| Auth.AuthProvider.SetRole | src/components/providers/auth-provider.tsx:110-128 | with a session, the session record gets the new role, is stored as current user, and replaces by id in the stored users list; with none, nothing changes |
| Auth.SeedSessionDoesNotSurviveReload | src/components/providers/auth-provider.tsx:29-46 | on a fresh browser a seed admin signs in, and a reloaded provider over the same storage has no session and no stored record |
| ManagerView.InrValue | src/components/dashboards/manager-dashboard.tsx:30 | a rupee donation counts its amount, a dollar donation 80 times its amount |
| ManagerView.MatchingDonations | src/components/dashboards/manager-dashboard.tsx:29 | the filter keeps exactly the donations whose project text equals the name: every kept one matches, every matching one is kept |
| ManagerView.MatchingDonationsCounts | src/components/dashboards/manager-dashboard.tsx:29 | the filter keeps every donation naming the project as often as it occurs, and no other; with MatchingDonationsConcat it also keeps their order |
| ManagerView.InrSum | src/components/dashboards/manager-dashboard.tsx:30 | the rupee values added from the first donation to the last; InrSumConcat and ProjectTotalCons state how it adds up |
| ManagerView.ProjectTotal | src/components/dashboards/manager-dashboard.tsx:29-30 | a project's total is the rupee sum of the donations naming it exactly; its properties are stated by ProjectTotalConcat, ProjectTotalCons and UnnamedProjectTotalsZero |
| ManagerView.DonationsByProject | src/components/dashboards/manager-dashboard.tsx:28-32 | one row per project, in project order, carrying its name and the rupee total of the donations naming it |
| ManagerView.MatchingDonationsConcat | src/components/dashboards/manager-dashboard.tsx:29 | filtering a concatenation is concatenating the filters |
| ManagerView.InrSumConcat | src/components/dashboards/manager-dashboard.tsx:30 | the rupee sum of a concatenation is the sum of the parts' sums |
| ManagerView.ProjectTotalConcat | src/components/dashboards/manager-dashboard.tsx:29-30 | a project's total over two lists one after the other is the sum of its totals over each |
| ManagerView.UnnamedProjectTotalsZero | src/components/dashboards/manager-dashboard.tsx:30 | a project no donation names totals 0 |
| ManagerView.StrayDonationChangesNoRow | src/components/dashboards/manager-dashboard.tsx:29 | a donation naming no project changes no row |
| ManagerView.ProjectTotalCons | src/components/dashboards/manager-dashboard.tsx:30 | a total is the first donation's rupee value, when it names the project, plus the total of the rest |
| ManagerView.SeedProjectTotal | src/components/dashboards/manager-dashboard.tsx:29-30 | over the seed donations the totals are 20000, 12000 and 16000 for the three named projects and 0 for any other name |
| ManagerView.SeedDonationsByProject | src/components/dashboards/manager-dashboard.tsx:28-32 | over the seed lists the four rows are water 20000, education 12000, healthcare 16000 and the women's programme 0 |
| ManagerView.ManagerDashboard.constructor | src/components/dashboards/manager-dashboard.tsx:16-17 | the dashboard starts with no projects and no donations |
| ManagerView.ManagerDashboard.LoadFromStorage | src/components/dashboards/manager-dashboard.tsx:19-25 | each list is taken from storage when its key holds one and otherwise kept as it was |
| ManagerView.StoredProjects | src/components/dashboards/manager-dashboard.tsx:20-21 | a projects list is read exactly when its key holds one; a missing key or the empty text reads as nothing |
| ManagerView.StoredDonations | src/components/dashboards/manager-dashboard.tsx:23-24 | a donations list is read exactly when its key holds one; a missing key or the empty text reads as nothing |
| ManagerView.ManagerDashboard.Rows | src/components/dashboards/manager-dashboard.tsx:28-32 | one row per current project, in order, with its name and its total over the current donations |
| ManagerView.ShowDashboard | src/components/dashboards/manager-dashboard.tsx:16-32 | the rows are the "Donations by Project" rows of the stored projects and donations, an absent list counting as empty; so with no stored projects there are no rows, and with no stored donations every total is 0 |
| AdminView.OfCurrency | src/components/dashboards/admin-dashboard.tsx:9 | the filter keeps exactly the donations in the given currency: every kept one is in it, every one in it is kept |
| AdminView.OfCurrencyCounts | src/components/dashboards/admin-dashboard.tsx:9 | the filter keeps every donation in the currency as often as it occurs, and no other; with OfCurrencyConcat it also keeps their order |
| AdminView.AmountSum | src/components/dashboards/admin-dashboard.tsx:10 | the plain amounts added from the first donation to the last; AmountSumConcat states how it adds up |
| AdminView.CurrencyTotal | src/components/dashboards/admin-dashboard.tsx:8-13 | the sum of the amounts of one currency's donations; its properties are stated by CurrencyTotalConcat, CurrencyTotalCons and CurrencyTotalsSplitTheSum |
| AdminView.OfCurrencyConcat | src/components/dashboards/admin-dashboard.tsx:9 | filtering a concatenation by currency is concatenating the filters |
| AdminView.AmountSumConcat | src/components/dashboards/admin-dashboard.tsx:10 | the amount sum of a concatenation is the sum of the parts' sums |
| AdminView.CurrencyTotalConcat | src/components/dashboards/admin-dashboard.tsx:8-10 | a currency total over two lists is the sum of the totals over each |
| AdminView.CurrencyTotalOfOne | src/components/dashboards/admin-dashboard.tsx:8-13 | one donation counts its own amount towards its own currency and nothing towards the other |
| AdminView.CurrencyTotalCons | src/components/dashboards/admin-dashboard.tsx:8-13 | a currency total is the first donation's share plus the total of the rest |
| AdminView.CurrencyTotalsSplitTheSum | src/components/dashboards/admin-dashboard.tsx:8-13 | the rupee total plus the dollar total is the sum of all amounts |
| AdminView.RupeeValueFromCurrencyTotals | src/components/dashboards/admin-dashboard.tsx:8-13 | the manager's converted rupee sum equals the rupee total plus 80 times the dollar total |
| AdminView.AbsentCurrencyTotalsZero | src/components/dashboards/admin-dashboard.tsx:8-13 | a list with no donation in a currency totals 0 in it |
| AdminView.TotalProjects | src/components/dashboards/admin-dashboard.tsx:15 | "Active Projects" is the length of the projects list |
| AdminView.Volunteers | src/components/dashboards/admin-dashboard.tsx:17 | the filter keeps exactly the users whose role is Volunteer: every kept one is a volunteer, every volunteer is kept |
| AdminView.VolunteersCounts | src/components/dashboards/admin-dashboard.tsx:17 | the filter keeps every volunteer as often as it occurs, and no other user |
| AdminView.VolunteerCount | src/components/dashboards/admin-dashboard.tsx:17 | the number of volunteers; its properties are stated by VolunteerCountCons and NoVolunteersIffCountZero |
| AdminView.VolunteerCountCons | src/components/dashboards/admin-dashboard.tsx:17 | a list's count is 1 for a first user who is a volunteer, 0 otherwise, plus the count of the rest |
| AdminView.NoVolunteersIffCountZero | src/components/dashboards/admin-dashboard.tsx:17 | the volunteer count is 0 exactly when no user is a volunteer |
| AdminView.Stats | src/components/dashboards/admin-dashboard.tsx:19-25 | five figures with the fixed titles in order: the rupee total, the dollar total, the number of projects, 12500 beneficiaries and the number of volunteers |
| AdminView.AdminDashboard | src/components/dashboards/admin-dashboard.tsx:7-25 | the figures are computed from the seed donations, projects and users; their values are stated by SeedStats |
| AdminView.StatsSplitTheDonations | src/components/dashboards/admin-dashboard.tsx:8-25 | the two donation figures add up to the sum of all amounts, and the other three do not depend on the donations |
| AdminView.SeedCurrencyTotal | src/components/dashboards/admin-dashboard.tsx:8-13 | over the seed donations the rupee total is 20000 and the dollar total 350 |
| AdminView.SeedVolunteerCount | src/components/dashboards/admin-dashboard.tsx:17 | exactly one seed user, the third, is a volunteer |
| AdminView.SeedStats | src/components/dashboards/admin-dashboard.tsx:19-25 | the seed figures are 20000 rupees, 350 dollars, 4 projects, 12500 beneficiaries and 1 volunteer |
| AdminView.SeedActiveProjectsCountsEveryStatus | src/components/dashboards/admin-dashboard.tsx:15 | "Active Projects" counts all four seed projects, including a completed and a planned one |
| HeaderView.RolesOfferEveryRoleOnce | src/components/layout/header.tsx:28 | the switcher offers the five roles, each exactly once, in the order Admin, Manager, Volunteer, Intern, Donor |
| HeaderView.OnRoleSelected | src/components/layout/header.tsx:53 | the chosen role is handed to the session's role switch unchanged |
| HeaderView.Initials | src/components/layout/header.tsx:30-37 | one or two characters; "U" for a missing or empty name; otherwise the first is the upper-cased first non-whitespace character |
| HeaderView.InitialsDefinedIff | src/components/layout/header.tsx:32-36 | a non-empty name has initials exactly when it has a non-whitespace character |
| HeaderView.WordsJoinUnpadded | src/components/layout/header.tsx:32 | words joined by single spaces need no trimming and split back into the words |
| HeaderView.InitialsFromPieces | src/components/layout/header.tsx:33-34 | with a non-empty second piece the initials are the upper-cased first characters of the first two pieces |
| HeaderView.InitialFromPieces | src/components/layout/header.tsx:36 | with no second piece, or an empty one, there is a single upper-cased initial |
| HeaderView.InitialsOfWords | src/components/layout/header.tsx:32-35 | a name of two or more words gives the first letters of the first two, upper-cased; later words play no part |
| HeaderView.InitialOfOneWord | src/components/layout/header.tsx:36 | a one-word name gives its upper-cased first letter |
| HeaderView.InitialAfterDoubleSpace | src/components/layout/header.tsx:32-36 | a double space after the first word gives a single initial whatever unpadded text follows |
| HeaderView.InitialsIgnorePadding | src/components/layout/header.tsx:32 | whitespace around a name, on either side, does not change its initials |
| HeaderView.InitialsOfThreeWordName | src/components/layout/header.tsx:33-34 | "Ann Bo Cy" gives "AB" |
| HeaderView.InitialOfDoubleSpacedName | src/components/layout/header.tsx:32-36 | "Ann  Lee" gives "A" |
| HeaderView.NoInitialsForSpaces | src/components/layout/header.tsx:32-36 | a name of spaces only falls outside the names `getInitials` can handle |
| SidebarView.NavItemsFor | src/components/layout/sidebar-nav.tsx:67 | a role text missing from the table gets no items, otherwise its table entry (texts naming inherited object properties behave differently in the code; see "Left out") |
| SidebarView.Hrefs | src/components/layout/sidebar-nav.tsx:77-78 | the links of a list, one per item, in order |
| SidebarView.WithoutMembers | src/components/layout/sidebar-nav.tsx:31-44 | an item survives removal exactly when it was listed and its link is not removed |
| SidebarView.TableLookups | src/components/layout/sidebar-nav.tsx:30-56 | the item list of each of the five role texts |
| SidebarView.TableCoversExactlyTheRoles | src/components/layout/sidebar-nav.tsx:30-56 | a text gets items exactly when it is the name of a role |
| SidebarView.EveryListStartsWithDashboard | src/components/layout/sidebar-nav.tsx:32 | every role's list begins with Dashboard at `/dashboard` |
| SidebarView.DonorSeesOnlyDashboard | src/components/layout/sidebar-nav.tsx:53-55 | a donor's list is exactly the dashboard |
| SidebarView.UsersAndSettingsAreAdminOnly | src/components/layout/sidebar-nav.tsx:35-37 | `/users` and `/settings` are in a role's links exactly when the role is Admin |
| SidebarView.ManagerOffersAdminItemsButUsersAndSettings | src/components/layout/sidebar-nav.tsx:31-44 | an item is in a manager's list exactly when it is in an administrator's and links to neither users nor settings |
| SidebarView.ManagerIsAdminWithoutUsersAndSettings | src/components/layout/sidebar-nav.tsx:31-44 | a manager's list is an administrator's with users and settings removed, order kept |
| SidebarView.VolunteerSameAsIntern | src/components/layout/sidebar-nav.tsx:45-52 | volunteers and interns see the same two items, dashboard and media |
| SidebarView.LinksNest | src/components/layout/sidebar-nav.tsx:30-56 | donor links are among volunteer links, volunteer among manager, manager among admin |
| SidebarView.LinksDistinct | src/components/layout/sidebar-nav.tsx:77 | within each list the links are pairwise distinct |
| SidebarView.IsActive | src/components/layout/sidebar-nav.tsx:80 | an item is highlighted when the current path equals its link; OnlyTheVisitedItemIsActive and AtMostOneActive state what that gives |
| SidebarView.OnlyTheVisitedItemIsActive | src/components/layout/sidebar-nav.tsx:76-80 | on the page an item links to, that item is highlighted and no other item of the list is |
| SidebarView.AtMostOneActive | src/components/layout/sidebar-nav.tsx:80 | whatever the path, at most one item of a list is active |

## Left out

- Serialisation is not modelled. Storage values are held already typed, and `WellTyped` excludes a stored text that does not parse to a value of the shape its reader expects. In the code such a text either throws or is read with `undefined` fields: a stored donations list `[{}]` matches no project and adds 0 to every total, and a stored users list `[{}]` with a stored user `{}` matches the record by `undefined === undefined` and evicts it. Neither behaviour is modelled.
- Storage events are not modelled, and neither is sharing storage between tabs.
- Router navigation to `/dashboard` and `/login` is not modelled. Neither are the toasts: the failure kind is returned as `AuthOutcome` instead.
- React's deferred state updates, `async`/Promise scheduling and re-rendering are not modelled. State changes take effect at once, in program order.
- `toLocaleString` and the currency signs in the admin figures are not modelled. `Stat.value` is the number before formatting.
- Icons, layout and all other rendering are left out.
- JsBuiltins.ToLowerCase, JsBuiltins.ToUpperCase: map ASCII letters only. JavaScript's full Unicode case mapping (for example "ß" to "SS") is not modelled. The gap reaches `Auth.LoginOutcome`: for an address with a non-ASCII capital, such as "É@x" entered against a stored "é@x", the code signs the user in and the model reports invalid credentials.
- JavaScript numbers are modelled as unbounded integers. Every amount in the code is integral, and only `+` and `*80` are applied to amounts.
- HeaderView.Initials: the model requires a name that is absent, empty or has a non-whitespace character. For a non-empty all-whitespace name the code throws a TypeError, and that case is outside the model. The code also takes `parts[0][0]` and `parts[1][0]`, the first UTF-16 code unit of each piece. A Dafny `char` is a whole Unicode scalar value, so for a piece starting outside the Basic Multilingual Plane (an emoji, say) the code yields a lone surrogate where the model yields the whole character.
- SidebarView.NavItemsFor: the table is modelled as a plain map, so every text missing from it gets no items. In the code `navItemsByRole[role]` also finds the properties every object inherits: for a text such as "constructor" it yields a function, which is truthy, and `navItems.map` then throws. The layout only ever passes a user's role, one of the five role names, so such a text does not reach the sidebar there.
- The seed tasks and uploads in `src/lib/data.ts` are left out. No modelled operation reads them.
- Left out as outside the modelled core:
  - the AI report generator and its server flow;
  - the Firebase initialisation;
  - the login page;
  - the donor, volunteer and intern dashboards;
  - the charts;
  - the create/edit/delete pages for users, projects and uploads.
- The role-gated policies for editing users, projects and uploads are not in the modelled files, so no rule for them is modelled.
- Fields not read by the modelled operations are omitted: the projects' initiatives and the donations' KYC details.
