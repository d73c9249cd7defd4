/** The side menu: a fixed table of pages with the roles allowed to see each,
    filtered by the signed-in user's role. */
module Sidebar {
  import opened Base
  import opened Types

  /** The pages the application can show; `LoginPage` is only ever set on
      logout. */
  datatype PageId =
    | DashboardPage | IncidentEntryPage | TehsilReportPage | MonitoringReportPage | DistrictChartPage
    | CategoriesPage | UserManagementPage | ProfilePage | ChangePasswordPage | LoginPage

  datatype MenuItem = MenuItem(id: PageId, legend: string, roles: seq<int>)

  const AllRoles: seq<int> := [AdminRole, StateRole, DistrictRole]
  const DistrictOnly: seq<int> := [DistrictRole]
  const StateAndAdmin: seq<int> := [AdminRole, StateRole]

  const MenuItems: seq<MenuItem> := [
    MenuItem(DashboardPage, "Dashboard", AllRoles),
    MenuItem(IncidentEntryPage, "घटनाओं की प्रविष्टि", DistrictOnly),
    MenuItem(TehsilReportPage, "घटना प्रतिवेदन (तहसील)", DistrictOnly),
    MenuItem(MonitoringReportPage, "घटना प्रतिवेदन (राज्य)", StateAndAdmin),
    MenuItem(DistrictChartPage, "क्षति विश्लेषण (ग्राफ)", StateAndAdmin),
    MenuItem(CategoriesPage, "घटनाओं की श्रेणी", StateAndAdmin),
    MenuItem(UserManagementPage, "उपयोगकर्ता प्रबंधन", StateAndAdmin),
    MenuItem(ProfilePage, "Profile", AllRoles),
    MenuItem(ChangePasswordPage, "Change Password", AllRoles)
  ]

  function VisibleTo(rollId: int): MenuItem -> bool {
    (item: MenuItem) => rollId in item.roles
  }

  /** The menu for a role: the table's items that list the role, in table order. */
  function FilteredMenu(rollId: int): (r: seq<MenuItem>)
    ensures forall item :: item in r <==> item in MenuItems && rollId in item.roles
  {
    Filter(MenuItems, VisibleTo(rollId))
  }

  function Ids(items: seq<MenuItem>): (r: seq<PageId>)
    ensures |r| == |items| && forall k :: 0 <= k < |items| ==> r[k] == items[k].id
  {
    seq(|items|, k requires 0 <= k < |items| => items[k].id)
  }

  /** One step of the filter: the head kept or dropped, then the rest. */
  lemma FilterStep(xs: seq<MenuItem>, i: nat, p: MenuItem -> bool)
    requires i < |xs|
    ensures Filter(xs[i..], p) == (if p(xs[i]) then [xs[i]] else []) + Filter(xs[i + 1..], p)
  {
    assert xs[i..][1..] == xs[i + 1..];
  }

  /** Which items a role sees, as a bit per item. */
  predicate SeesExactly(m: seq<MenuItem>, r: int, sees: seq<bool>)
    requires |m| == |sees|
  {
    forall k :: 0 <= k < |m| ==> (r in m[k].roles <==> sees[k])
  }

  function Kept(m: seq<MenuItem>, sees: seq<bool>, i: nat): (r: seq<PageId>)
    requires |m| == |sees| && i <= |m|
    decreases |m| - i
  {
    if i == |m| then [] else (if sees[i] then [m[i].id] else []) + Kept(m, sees, i + 1)
  }

  lemma IdsAppend(a: seq<MenuItem>, b: seq<MenuItem>)
    ensures Ids(a + b) == Ids(a) + Ids(b)
  {
  }

  /** Filtering a table by a role keeps the ids the role sees, in order. */
  lemma {:induction false} FilterIds(m: seq<MenuItem>, r: int, sees: seq<bool>, i: nat)
    requires |m| == |sees| && i <= |m| && SeesExactly(m, r, sees)
    ensures Ids(Filter(m[i..], VisibleTo(r))) == Kept(m, sees, i)
    decreases |m| - i
  {
    if i < |m| {
      FilterIds(m, r, sees, i + 1);
      FilterStep(m, i, VisibleTo(r));
      var head := if VisibleTo(r)(m[i]) then [m[i]] else [];
      IdsAppend(head, Filter(m[i + 1..], VisibleTo(r)));
      assert Ids(head) == if sees[i] then [m[i].id] else [];
    } else {
      assert m[i..] == [];
    }
  }

  /** The table's role column. */
  lemma MenuRoles()
    ensures |MenuItems| == 9
    ensures MenuItems[0].roles == AllRoles && MenuItems[1].roles == DistrictOnly && MenuItems[2].roles == DistrictOnly
    ensures MenuItems[3].roles == StateAndAdmin && MenuItems[4].roles == StateAndAdmin && MenuItems[5].roles == StateAndAdmin
    ensures MenuItems[6].roles == StateAndAdmin && MenuItems[7].roles == AllRoles && MenuItems[8].roles == AllRoles
  {
  }

  /** The table's id column. */
  lemma MenuIds()
    ensures Ids(MenuItems) == [DashboardPage, IncidentEntryPage, TehsilReportPage, MonitoringReportPage, DistrictChartPage,
                               CategoriesPage, UserManagementPage, ProfilePage, ChangePasswordPage]
  {
  }

  const StateSees: seq<bool> := [true, false, false, true, true, true, true, true, true]
  const DistrictSees: seq<bool> := [true, true, true, false, false, false, false, true, true]
  const NobodySees: seq<bool> := [false, false, false, false, false, false, false, false, false]

  lemma {:induction false} KeptNone(m: seq<MenuItem>, i: nat)
    requires |m| == 9 && i <= 9
    ensures Kept(m, NobodySees, i) == []
    decreases 9 - i
  {
    if i < 9 {
      KeptNone(m, i + 1);
    }
  }

  lemma KeptState(m: seq<MenuItem>)
    requires |m| == 9
    ensures Kept(m, StateSees, 0) == [m[0].id, m[3].id, m[4].id, m[5].id, m[6].id, m[7].id, m[8].id]
  {
    var s := StateSees;
    assert Kept(m, s, 9) == [];
    assert Kept(m, s, 8) == [m[8].id];
    assert Kept(m, s, 7) == [m[7].id, m[8].id];
    assert Kept(m, s, 6) == [m[6].id, m[7].id, m[8].id];
    assert Kept(m, s, 5) == [m[5].id, m[6].id, m[7].id, m[8].id];
    assert Kept(m, s, 4) == [m[4].id, m[5].id, m[6].id, m[7].id, m[8].id];
    assert Kept(m, s, 3) == [m[3].id, m[4].id, m[5].id, m[6].id, m[7].id, m[8].id];
    assert Kept(m, s, 2) == Kept(m, s, 3);
    assert Kept(m, s, 1) == Kept(m, s, 3);
  }

  lemma KeptDistrict(m: seq<MenuItem>)
    requires |m| == 9
    ensures Kept(m, DistrictSees, 0) == [m[0].id, m[1].id, m[2].id, m[7].id, m[8].id]
  {
    var s := DistrictSees;
    assert Kept(m, s, 9) == [];
    assert Kept(m, s, 8) == [m[8].id];
    assert Kept(m, s, 7) == [m[7].id, m[8].id];
    assert Kept(m, s, 6) == Kept(m, s, 7);
    assert Kept(m, s, 5) == Kept(m, s, 7);
    assert Kept(m, s, 4) == Kept(m, s, 7);
    assert Kept(m, s, 3) == Kept(m, s, 7);
    assert Kept(m, s, 2) == [m[2].id, m[7].id, m[8].id];
    assert Kept(m, s, 1) == [m[1].id, m[2].id, m[7].id, m[8].id];
  }

  /** The menu of a role, by which items it sees. */
  lemma MenuIs(r: int, sees: seq<bool>)
    requires |sees| == 9 && SeesExactly(MenuItems, r, sees)
    ensures Ids(FilteredMenu(r)) == Kept(MenuItems, sees, 0)
  {
    assert MenuItems[0..] == MenuItems;
    FilterIds(MenuItems, r, sees, 0);
  }

  /** The state and admin menus. */
  lemma StateMenu(r: int)
    requires r == AdminRole || r == StateRole
    ensures Ids(FilteredMenu(r)) ==
            [DashboardPage, MonitoringReportPage, DistrictChartPage, CategoriesPage, UserManagementPage, ProfilePage, ChangePasswordPage]
  {
    MenuRoles();
    MenuIds();
    MenuIs(r, StateSees);
    KeptState(MenuItems);
  }

  /** The district officer's menu. */
  lemma DistrictMenu()
    ensures Ids(FilteredMenu(DistrictRole)) == [DashboardPage, IncidentEntryPage, TehsilReportPage, ProfilePage, ChangePasswordPage]
  {
    MenuRoles();
    MenuIds();
    MenuIs(DistrictRole, DistrictSees);
    KeptDistrict(MenuItems);
  }

  /** A role outside the three sees no menu at all. */
  lemma OtherRoleMenu(r: int)
    requires r !in AllRoles
    ensures FilteredMenu(r) == []
  {
    MenuRoles();
    MenuIs(r, NobodySees);
    KeptNone(MenuItems, 0);
  }
}
