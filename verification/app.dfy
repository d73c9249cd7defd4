/** The application shell: who is signed in, which screen shows, the page
    gating by role, and the shared incident list. */
module App {
  import opened Base
  import opened Types
  import opened Sidebar
  import Dashboard

  datatype AppState = AppState(
    user: Option<User>,
    showLogin: bool,
    page: PageId,
    year: int,
    incidents: seq<Incident>,
    sidebarOpen: bool)

  /** The start: nobody signed in, the home page, year 2024, the seed
      incidents; the sidebar starts open on wide screens. */
  function Initial(seed: seq<Incident>, wideScreen: bool): (s: AppState)
    ensures s.user.None? && !s.showLogin && s.page == DashboardPage && s.year == 2024
    ensures s.incidents == seed && s.sidebarOpen == wideScreen
  {
    AppState(None, false, DashboardPage, 2024, seed, wideScreen)
  }

  /** A saved incident goes at the end; the earlier ones stay as they were. */
  function SaveIncident(s: AppState, i: Incident): (r: AppState)
    ensures |r.incidents| == |s.incidents| + 1 && r.incidents[|s.incidents|] == i
    ensures r.incidents[..|s.incidents|] == s.incidents
    ensures r.(incidents := s.incidents) == s
  {
    s.(incidents := s.incidents + [i])
  }

  /** A saved incident joins the dashboard's selection exactly when it is of
      the selected year, not deleted and in the viewer's district; the
      incidents already selected stay, in order, ahead of it. */
  lemma SavedIncidentOnDashboard(s: AppState, i: Incident, viewer: User)
    ensures var sel := Dashboard.DashboardSelect(viewer, s.year);
            Filter(SaveIncident(s, i).incidents, sel) ==
            Filter(s.incidents, sel) + (if sel(i) then [i] else [])
  {
    var sel := Dashboard.DashboardSelect(viewer, s.year);
    FilterAppend(s.incidents, [i], sel);
    assert Filter([i], sel) == (if sel(i) then [i] else []) by {
      assert [i][1..] == [];
    }
  }

  function HandleLogin(s: AppState, u: User): (r: AppState)
    ensures r.user == Some(u) && r.page == DashboardPage && !r.showLogin
    ensures r.incidents == s.incidents && r.year == s.year
  {
    s.(user := Some(u), page := DashboardPage, showLogin := false)
  }

  function HandleLogout(s: AppState): (r: AppState)
    ensures r.user.None? && r.page == LoginPage && !r.showLogin
    ensures r.incidents == s.incidents && r.year == s.year
  {
    s.(user := None, page := LoginPage, showLogin := false)
  }

  /** The profile page hands back the edited user. */
  function UpdateUser(s: AppState, u: User): (r: AppState)
    ensures r.user == Some(u) && r.(user := s.user) == s
  {
    s.(user := Some(u))
  }

  function ShowLogin(s: AppState, show: bool): (r: AppState)
    ensures r.showLogin == show && r.(showLogin := s.showLogin) == s
  {
    s.(showLogin := show)
  }

  function SetPage(s: AppState, p: PageId): (r: AppState)
    ensures r.page == p && r.(page := s.page) == s
  {
    s.(page := p)
  }

  function ToggleSidebar(s: AppState): (r: AppState)
    ensures r.sidebarOpen == !s.sidebarOpen && r.(sidebarOpen := s.sidebarOpen) == s
  {
    s.(sidebarOpen := !s.sidebarOpen)
  }

  /** The mobile overlay's click: the sidebar closes, whatever its state. */
  function CloseSidebar(s: AppState): (r: AppState)
    ensures !r.sidebarOpen && r.(sidebarOpen := s.sidebarOpen) == s
  {
    s.(sidebarOpen := false)
  }

  /** The year picker of the dashboard, the two reports and the chart all
      write the one shared year. */
  function SetYear(s: AppState, y: int): (r: AppState)
    ensures r.year == y && r.(year := s.year) == s
  {
    s.(year := y)
  }

  /** A year picked on one page is the year every page is handed: moving to
      any page keeps it, and the dashboard then selects by it. */
  lemma YearSharedAcrossPages(s: AppState, y: int, p: PageId, viewer: User, i: Incident)
    ensures SetPage(SetYear(s, y), p).year == y
    ensures Dashboard.DashboardSelect(viewer, SetPage(SetYear(s, y), p).year)(i)
            <==> i.year == y && !i.isDeleted && (Truthy(viewer.distCode) ==> i.distCode == viewer.distCode.value)
  {
  }

  /** Neither the overlay nor the year picker changes what is on screen;
      after the overlay, the menu button opens the sidebar again. */
  lemma SidebarAndYearKeepScreen(s: AppState, y: int)
    ensures View(CloseSidebar(s)) == View(s) && View(SetYear(s, y)) == View(s)
    ensures ToggleSidebar(CloseSidebar(s)).sidebarOpen
    ensures CloseSidebar(CloseSidebar(s)) == CloseSidebar(s)
  {
  }

  /** Whether the main area renders page `p` for role `rollId`: the district
      pages need the district role, the state pages the state or admin role,
      and the other pages render for anyone signed in. */
  predicate Renders(rollId: int, p: PageId) {
    match p
    case IncidentEntryPage | TehsilReportPage => rollId == DistrictRole
    case MonitoringReportPage | DistrictChartPage | CategoriesPage => rollId == StateRole || rollId == AdminRole
    case DashboardPage | UserManagementPage | ProfilePage | ChangePasswordPage => true
    case LoginPage => false
  }

  datatype Screen = HomeScreen | LoginScreen | MainScreen(content: Option<PageId>)

  /** What is on screen: without a user the home page or the login form;
      with one the main layout, whose content area shows the current page
      only when the role may see it. */
  function View(s: AppState): (v: Screen)
    ensures s.user.None? && !s.showLogin ==> v == HomeScreen
    ensures s.user.None? && s.showLogin ==> v == LoginScreen
    ensures s.user.Some? ==> v.MainScreen? && (v.content == Some(s.page) <==> Renders(s.user.value.rollId, s.page))
    ensures s.user.Some? ==> v.content.None? || v.content == Some(s.page)
  {
    match s.user
    case None => if s.showLogin then LoginScreen else HomeScreen
    case Some(u) => MainScreen(if Renders(u.rollId, s.page) then Some(s.page) else None)
  }

  /** After a login the dashboard shows; after a logout the home page does. */
  lemma LoginLogoutScreens(s: AppState, u: User)
    ensures View(HandleLogin(s, u)) == MainScreen(Some(DashboardPage))
    ensures View(HandleLogout(s)) == HomeScreen
  {
  }

  /** Every page a role's menu offers renders for that role. */
  lemma MenuPagesRender(rollId: int, p: PageId)
    requires p in Ids(FilteredMenu(rollId))
    ensures Renders(rollId, p)
  {
    if rollId == AdminRole || rollId == StateRole {
      StateMenu(rollId);
      StatePagesRender(rollId, p);
    } else if rollId == DistrictRole {
      DistrictMenu();
      DistrictPagesRender(p);
    } else {
      OtherRoleMenu(rollId);
    }
  }

  lemma StatePagesRender(rollId: int, p: PageId)
    requires rollId == AdminRole || rollId == StateRole
    requires p in [DashboardPage, MonitoringReportPage, DistrictChartPage, CategoriesPage, UserManagementPage, ProfilePage, ChangePasswordPage]
    ensures Renders(rollId, p)
  {
  }

  lemma DistrictPagesRender(p: PageId)
    requires p in [DashboardPage, IncidentEntryPage, TehsilReportPage, ProfilePage, ChangePasswordPage]
    ensures Renders(DistrictRole, p)
  {
  }

  /** The gate is looser than the menu: user management renders for a
      district officer, whose menu does not offer it. */
  lemma UserManagementLooserThanMenu()
    ensures Renders(DistrictRole, UserManagementPage)
    ensures UserManagementPage !in Ids(FilteredMenu(DistrictRole))
  {
    DistrictMenu();
  }
}
