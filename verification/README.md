# SDMA incident dashboard — a Dafny model

This project models the core of the State Disaster Management Authority's
incident dashboard, a React single-page application. District officers record
disaster incidents and the damage each caused. Officers at the state level and
administrators review them. The review happens through the dashboard totals,
the tehsil and monitoring reports, a district damage chart, the incident
taxonomy editor, and user administration.

Every screen is modelled as immutable state plus pure transition functions:

- the application shell: sign-in, sign-out, page switching and the sidebar;
- the role-filtered menu;
- the six-bucket damage statistics shared by every report;
- the dashboard's totals and pie chart;
- the tehsil report and the state monitoring report (summary and detailed);
- the district damage chart with its series toggles;
- the category editor with its subtype counters;
- the incident entry form;
- login with captcha;
- change-password;
- the profile page;
- the user-management dialog.

Outside effects become parameters:

- the clock, as a month or a `now` id;
- `Math.random()`, as draws in [0, 1);
- the window width, as a `wideScreen` flag;
- the seed data, as sequences.

Modules:

| file | module | models |
|---|---|---|
| base.dfy | Base | `Option`, filter, find, distinct, sums over sequences |
| ordering.dfy | Ordering | the name order used for `localeCompare`, insertion sort |
| types.dfy | Types | users, incidents, districts, tehsils, taxonomy entries |
| stats.dfy | Stats | `calculateStats` and its reference classification |
| sidebar.dfy | Sidebar | the menu table and its role filter |
| app.dfy | App | the shell state and which page renders for which role |
| dashboard.dfy | Dashboard | dashboard totals and pie chart |
| reports.dfy | Reports | tehsil report and monitoring report |
| chart.dfy | DistrictChart | the district damage chart |
| categories.dfy | Categories | the incident-category editor |
| incident_entry.dfy | IncidentEntry | the incident entry form |
| credentials.dfy | Credentials | the mock password and the captcha generator |
| login.dfy | Login | the login form |
| change_password.dfy | ChangePassword | the password policy and the change-password form |
| contact.dfy | Contact | the contact-details form shared by profile and user management |
| profile.dfy | Profile | the profile page |
| user_management.dfy | UserManagement | the user-management page |

## Model

| member | source | states |
|---|---|---|
| App.Initial | src/App.tsx:20-27 | nobody is signed in, the login form is hidden, the dashboard page and year 2024 are selected, the seed incidents are loaded, and the sidebar is open exactly on wide screens |
| App.SaveIncident | src/App.tsx:30-32 | the new incident is appended after all existing ones, which keep their order, and no other part of the state changes |
| App.SavedIncidentOnDashboard | src/App.tsx:30-32 | after a save, any viewer's dashboard selection is the old selection, followed by the new incident if it is selected |
| App.HandleLogin | src/App.tsx:34-38 | the user becomes the signed-in user, the dashboard opens, the login form closes, and incidents and year are kept |
| App.HandleLogout | src/App.tsx:40-44 | the user is cleared, the login page is selected, the login form is closed, and incidents and year are kept |
| App.UpdateUser | src/App.tsx:46-49 | only the signed-in user record is replaced |
| App.ShowLogin | src/App.tsx:58-60 | only the login-form flag changes |
| App.SetPage | src/App.tsx:88-94 | only the current page changes |
| App.ToggleSidebar | src/App.tsx:70-71 | only the sidebar flag flips |
| App.CloseSidebar | src/App.tsx:97-101 | the overlay's click leaves the sidebar closed and changes nothing else |
| App.SetYear | src/App.tsx:110-127 | the shared year becomes the picked year and nothing else changes |
| App.YearSharedAcrossPages | src/App.tsx:110-127 | after a year is picked, any page moved to is handed that year, and the dashboard selects the undeleted incidents of that year in the viewer's scope |
| App.SidebarAndYearKeepScreen | src/App.tsx:97-101 | closing the sidebar and picking a year leave the screen as it was; closing is idempotent and the menu button reopens the sidebar |
| App.View | src/App.tsx:56-144 | without a user, the home screen or the login form is shown; with one, the main layout shows the current page exactly when the role may see it |
| App.LoginLogoutScreens | src/App.tsx:34-61 | login lands on the dashboard inside the main layout, and logout lands on the home screen |
| App.MenuPagesRender | src/App.tsx:105-144 | every page the sidebar offers a role is a page the content area renders for that role |
| App.UserManagementLooserThanMenu | src/App.tsx:134-136 | the content area renders user management for a district user although their menu does not offer it |
| Sidebar.FilteredMenu | src/components/Sidebar.tsx:14-26 | an item is in a role's menu exactly when it is in the table and lists that role |
| Sidebar.MenuRoles | src/components/Sidebar.tsx:14-24 | the table has nine items, with the role lists written in the source |
| Sidebar.MenuIds | src/components/Sidebar.tsx:14-24 | the table's pages, in order |
| Sidebar.StateMenu | src/components/Sidebar.tsx:14-26 | administrators and state users see exactly seven pages, in table order |
| Sidebar.DistrictMenu | src/components/Sidebar.tsx:14-26 | district users see exactly dashboard, entry, tehsil report, profile and change-password |
| Sidebar.OtherRoleMenu | src/components/Sidebar.tsx:26 | any other role id gets an empty menu |
| Stats.CalculateStats | src/components/Reports.tsx:36-47 | each bucket equals the sum of quantities of the incidents that the reference classification puts in that bucket; the empty list gives zeros |
| Stats.RuleMatchesClassify | src/components/Reports.tsx:38-45 | the six filters pick exactly the incidents that the single-bucket classification assigns to each bucket, so no incident is counted twice |
| Stats.CalculateStatsAppend | src/components/Reports.tsx:36-47 | the statistics of a concatenation are the bucket-wise sum of the parts' statistics |
| Stats.CalculateStatsPermutation | src/components/Reports.tsx:36-47 | reordering the incidents does not change the statistics |
| Stats.StatsOfOne | src/components/Reports.tsx:36-47 | a single incident contributes its quantity to its own bucket and nothing to the other buckets |
| Stats.TotalIsClassifiedQuantity | src/components/Reports.tsx:36-47 | the sum of the six buckets equals the total quantity of the classified incidents |
| Stats.TotalBound | src/components/Reports.tsx:36-47 | with non-negative quantities, the six-bucket total lies between zero and the total quantity |
| Stats.AssetSplit | src/components/Reports.tsx:42-45 | the GPL and road buckets together hold exactly the quantity of the government-asset incidents |
| Stats.UnclassifiedAddsNothing | src/components/Reports.tsx:36-47 | an incident without a known damage type changes no bucket |
| Dashboard.DashboardStats | src/components/Dashboard.tsx:24-33 | the first five totals equal the report statistics; the road total also counts road-subtype records under other damage types |
| Dashboard.RoadSplit | src/components/Dashboard.tsx:32 | the subtype-only road sum is the report road sum plus the stray road records |
| Dashboard.DashboardMatchesReports | src/components/Dashboard.tsx:25-32 | when every road-subtype record is a government-asset record, the dashboard totals equal the report statistics |
| Dashboard.DashboardRoadDiffers | src/components/Dashboard.tsx:32 | a concrete record that the dashboard counts as road damage but the reports do not |
| Dashboard.DashboardTotals | src/components/Dashboard.tsx:15-33 | each of the first five totals sums the quantities of the user's selected records that the reference classification puts in that bucket; the road total sums the selected records with the road subtype |
| Reports.DashboardMatchesMonitoring | src/components/Dashboard.tsx:15-33 | on records whose road subtype occurs only under government assets, a user without a district sees the monitoring report's grand totals for the whole year and all disaster types |
| Reports.DashboardMatchesTehsilReport | src/components/Dashboard.tsx:15-33 | on the same records, a district user sees the tehsil report's grand totals for the whole year |
| Dashboard.DashboardScope | src/components/Dashboard.tsx:15-20 | a district user sees the undeleted incidents of the year in their district; any other user sees all undeleted incidents of the year |
| Dashboard.AllSlices | src/components/Dashboard.tsx:37-43 | one slice per bucket, in series order, carrying the series label, the bucket total and the series colour |
| Dashboard.PieSlices | src/components/Dashboard.tsx:37-44 | a slice is kept exactly when its value is positive; the kept slices appear in the fixed series order, each as often as in the full list |
| Dashboard.PieChartData | src/components/Dashboard.tsx:47-50 | the header row, then one name/value row per kept slice |
| Dashboard.PieColors | src/components/Dashboard.tsx:56 | the colours line up with the chart rows |
| Dashboard.ShowPieIffPositive | src/components/Dashboard.tsx:178 | the pie is drawn exactly when some bucket total is positive |
| Reports.GetDisasterName | src/components/Reports.tsx:49-53 | a missing or zero id gives '-'; otherwise the Hindi name of the first entry with that id, or 'Unknown' when no entry has it |
| Reports.TehsilRows | src/components/Reports.tsx:85-124 | a tehsil without incidents gets one placeholder row; otherwise one row per distinct disaster type, holding the statistics of that type's incidents, with the first row spanning the block |
| Reports.TehsilRowTypes | src/components/Reports.tsx:108-123 | the rows' types are exactly the types occurring in the pool, without repeats, in order of first occurrence |
| Reports.TehsilRowsTotal | src/components/Reports.tsx:109-119 | for each bucket, a tehsil's rows add up to that tehsil's own totals |
| Reports.TehsilRowsTiled | src/components/Reports.tsx:96-123 | the tehsil row spans tile the block: each opener spans exactly its group |
| Reports.TehsilReportRows | src/components/Reports.tsx:79-127 | each listed tehsil opens exactly one block, in the listed order; every row belongs to a listed tehsil; no row carries district data |
| Reports.TehsilReport | src/components/Reports.tsx:64-127 | the grand totals are the statistics of the user's district for the period; the row spans tile; the block openers are the user's tehsils in order, so every one of them has a block, and every row belongs to one of them |
| Reports.TehsilReportTiled | src/components/Reports.tsx:184-195 | over the whole report, every tehsil row span covers exactly its group |
| Reports.TehsilReportRowsTotal | src/components/Reports.tsx:79-127 | the tehsil report's rows add up, bucket by bucket, to the totals of each tehsil's own selection |
| Reports.TehsilPoolOfSelection | src/components/Reports.tsx:69-74 | when no in-period incident of the listed tehsils lies outside the district, a tehsil's selection is the district selection narrowed to that tehsil |
| Reports.TehsilReportAddsUp | src/components/Reports.tsx:64-127 | the rows add up to the grand-total row when the user's tehsils have distinct codes, cover the district's in-period incidents and hold none of another district; the rows are picked by tehsil code and the totals by district code, so without this condition they can differ |
| Reports.SortedDistricts | src/components/Reports.tsx:261 | the districts are permuted into Hindi-name order |
| Reports.SummaryRows | src/components/Reports.tsx:275-283 | one row per district, in the given order, numbered from 1, each carrying the statistics of the state-wide selection narrowed to that district |
| Reports.TehsilBlocks | src/components/Reports.tsx:293-327 | each of the district's tehsils opens exactly one block, in order; every row carries the district, with no district opener yet |
| Reports.DistrictRows | src/components/Reports.tsx:286-327 | a district has rows exactly when it has tehsils |
| Reports.MarkDistrictFirst | src/components/Reports.tsx:330-333 | the first row becomes the district opener, spanning the block and carrying the serial; all other rows are unchanged |
| Reports.GrandTotalColSpan | src/components/Reports.tsx:345-352 | the label cell is 2 wide in summary mode, 4 wide when the disaster column shows, and 3 wide otherwise |
| Reports.MonitoringReport | src/components/Reports.tsx:237-352 | the grand totals are the statistics of the state-wide selection; the summary table is the district-wise summary over the districts in name order, one row per district; the disaster column shows exactly in the detailed mode with every type selected; the grand-total label spans 2, 4 or 3 columns as `Reports.GrandTotalColSpan` gives, which `Reports.MonitoringHeader` shows to be the header's columns before the six buckets |
| Reports.MonitoringHeader | src/components/Reports.tsx:457-476 | serial and district first and the six bucket headings last; the tehsil column appears exactly in the detailed mode and the disaster column exactly when `showDisasterColumn` holds; the width is the grand-total span plus six |
| Reports.SelectedDisasterName | src/components/Reports.tsx:355-357 | 'सभी' for all types; otherwise the first matching entry's Hindi name, or 'Unknown' |
| Reports.DistrictPoolOfSelection | src/components/Reports.tsx:244-273 | a district's selection is the state-wide selection narrowed to that district |
| Reports.DistrictTotalsAddUp | src/components/Reports.tsx:243-283 | with distinct district codes covering every selected incident, the per-district totals add up to the grand total |
| Reports.SummaryAddsUp | src/components/Reports.tsx:243-283 | the summary rows add up to the report's grand totals |
| Reports.TehsilBlocksTotal | src/components/Reports.tsx:293-327 | a district's tehsil blocks add up to the per-tehsil totals |
| Reports.DistrictRowsTotal | src/components/Reports.tsx:286-327 | when its tehsils cover its incidents, a district's rows add up to that district's totals |
| Reports.DetailedRowsTotal | src/components/Reports.tsx:329-337 | the detailed rows add up to the sum of the per-district totals |
| Reports.DetailedAddsUp | src/components/Reports.tsx:243-342 | the detailed rows add up to the grand totals |
| Reports.DetailedSerials | src/components/Reports.tsx:330-337 | the district openers are numbered consecutively, one per district that has rows |
| Reports.MonitoringDetailedSerials | src/components/Reports.tsx:264-337 | the k-th district opener carries serial k+1 and the code of the k-th district with tehsils, in name order |
| Reports.DetailedTiled | src/components/Reports.tsx:329-337 | both the tehsil spans and the district spans tile the detailed table |
| Reports.MonitoringDetailedTiled | src/components/Reports.tsx:502-517 | in the rendered detailed table, every row-span cell covers exactly its group |
| Reports.DetailedInNameOrder | src/components/Reports.tsx:261-337 | rows of sorted districts appear in district-name order |
| Reports.MonitoringDetailedInNameOrder | src/components/Reports.tsx:261-337 | the detailed table lists its rows in district-name order |
| DistrictChart.InitiallyAllVisible | src/components/DistrictDamageChart.tsx:26-33 | every series starts visible |
| DistrictChart.ToggleSeries | src/components/DistrictDamageChart.tsx:35-40 | the toggled series flips, and every other series keeps its visibility |
| DistrictChart.ToggleTwice | src/components/DistrictDamageChart.tsx:35-40 | toggling twice restores the visibility |
| DistrictChart.ActiveSeries | src/components/DistrictDamageChart.tsx:72 | a series is active exactly when it is configured and visible; the active series keep the configured order |
| DistrictChart.Accumulate | src/components/DistrictDamageChart.tsx:60-68 | one loop step adds the incident's quantity to exactly its classified bucket |
| DistrictChart.AggregateCorrect | src/components/DistrictDamageChart.tsx:49-69 | the aggregate has one entry per occurring district code, in first-occurrence order, holding that district's statistics |
| DistrictChart.ObjectKeyOrder | src/components/DistrictDamageChart.tsx:78 | the key list is a permutation of the inserted keys, each kept as often as it was inserted |
| DistrictChart.ObjectKeyOrderSorted | src/components/DistrictDamageChart.tsx:78 | array-index keys come before all other keys, in ascending order |
| DistrictChart.RowValues | src/components/DistrictDamageChart.tsx:89-93 | one value per visible series: that series' bucket total |
| DistrictChart.RowOf | src/components/DistrictDamageChart.tsx:82-100 | a bar exists exactly when a master district has the code and the visible values sum to more than zero; it carries the Hindi name |
| DistrictChart.RowsForMembership | src/components/DistrictDamageChart.tsx:80-101 | a bar is listed exactly when some key produces it |
| DistrictChart.Labels | src/components/DistrictDamageChart.tsx:73 | one label per active series |
| DistrictChart.Colors | src/components/DistrictDamageChart.tsx:74 | one colour per active series |
| DistrictChart.Header | src/components/DistrictDamageChart.tsx:73 | 'District' followed by the active labels |
| DistrictChart.ChartRows | src/components/DistrictDamageChart.tsx:104 | the bars are a permutation of the unsorted bars, sorted by district name |
| DistrictChart.RowWidths | src/components/DistrictDamageChart.tsx:89-98 | every bar has one value per active series |
| DistrictChart.ChartData | src/components/DistrictDamageChart.tsx:106-109 | the header is one wider than the colours, the bars are name-sorted, and each bar is as wide as the colour list |
| DistrictChart.ChartColors | src/components/DistrictDamageChart.tsx:128 | the active colours, or the grey fallback when none is active |
| DistrictChart.ChartRowsCount | src/components/DistrictDamageChart.tsx:42-104 | there is exactly one bar per occurring district code that has a reference bar, so no bar is missing or repeated |
| DistrictChart.ChartRowsExact | src/components/DistrictDamageChart.tsx:42-104 | the bars are exactly the reference bars of the district codes occurring among the year's undeleted incidents |
| DistrictChart.AllSeriesOff | src/components/DistrictDamageChart.tsx:72-101 | with every series hidden there are no bars and no colours, and the fallback colour is used |
| Categories.WithCount | src/components/IncidentCategories.tsx:47-50 | the category keeps id and names, and its counter is the number of its subtypes |
| Categories.CountedList | src/components/IncidentCategories.tsx:47-59 | one counted category per master type, in order |
| Categories.InitialLists | src/components/IncidentCategories.tsx:43-60 | every starting counter equals the number of subtypes of its category |
| Categories.SubtypeView | src/components/IncidentCategories.tsx:93-103 | while drilled in, the subtypes shown are exactly those of the chosen parent, in stored order and with their multiplicity; otherwise none are shown |
| Categories.TabChange | src/components/IncidentCategories.tsx:106-111 | switching tabs keeps the lists and leaves the drill-down |
| Categories.DrillDown | src/components/IncidentCategories.tsx:219-223 | the view shows exactly the chosen type's subtypes, in stored order |
| Categories.Back | src/components/IncidentCategories.tsx:225-229 | going back shows no subtypes and keeps the lists |
| Categories.AddCategoryClick | src/components/IncidentCategories.tsx:115-122 | opens an add dialog for a category of the given kind, with an empty form and nothing selected; tab and drill-down are kept |
| Categories.AddSubtypeClick | src/components/IncidentCategories.tsx:124-130 | opens an add dialog for a subtype, with an empty form and nothing selected; the category kind, tab and drill-down are kept |
| Categories.CategoryEditClick | src/components/IncidentCategories.tsx:132-139 | opens an edit dialog filled with the category's names, with that category selected and its kind recorded, so the save edits that kind's list |
| Categories.SubtypeEditClick | src/components/IncidentCategories.tsx:141-147 | opens an edit dialog filled with the subtype's names, with that subtype selected; the category kind is kept |
| Categories.CloseDialog | src/components/IncidentCategories.tsx:465 | closes the dialog and keeps the lists |
| Categories.HandlersKeepSelectionFit | src/components/IncidentCategories.tsx:106-147 | every handler keeps a selected category in the category context and a selected subtype in the subtype context |
| Categories.Save | src/components/IncidentCategories.tsx:149-215 | a missing name, or an edit with nothing selected, changes nothing; any other save closes the dialog and leaves the rest of the editor as it was (the list changes are stated by the lemmas below) |
| Categories.SaveAddsCategory | src/components/IncidentCategories.tsx:160-172 | adding a category appends a new entry with id `now` and counter 0 to the chosen list |
| Categories.SaveAddsSubtype | src/components/IncidentCategories.tsx:174-191 | adding a subtype appends it under the drilled parent and bumps that parent's counter; the other kind's lists are untouched |
| Categories.BumpParentEffect | src/components/IncidentCategories.tsx:187-190 | only the parent's counter goes up by one, with a missing counter read as 0 |
| Categories.SaveEditsCategory | src/components/IncidentCategories.tsx:195-203 | editing renames the selected category in place; every other entry is unchanged |
| Categories.SaveEditsSubtype | src/components/IncidentCategories.tsx:204-211 | editing renames the selected subtype in place; every other entry is unchanged |
| Categories.AddSubtypeShowsInDrillDown | src/components/IncidentCategories.tsx:93-103 | a subtype added while drilled in appears at the end of the visible list |
| Categories.AddSubtypeKeepsCounts | src/components/IncidentCategories.tsx:174-191 | appending a subtype and bumping its parent keeps every counter equal to the number of subtypes |
| Categories.AddCategoryKeepsCounts | src/components/IncidentCategories.tsx:160-172 | a new category with counter 0 and no subtypes keeps the counters consistent |
| Categories.EditCategoryKeepsCounts | src/components/IncidentCategories.tsx:195-203 | renaming a category keeps the counters consistent |
| Categories.EditSubtypeKeepsCounts | src/components/IncidentCategories.tsx:204-211 | renaming a subtype under the same parent keeps the counters consistent |
| Categories.SaveKeepsCounts | src/components/IncidentCategories.tsx:149-215 | every save keeps each counter equal to the number of subtypes of its category |
| IncidentEntry.BlankForm | src/components/IncidentEntry.tsx:76-90 | the user's district (0 when absent), year 2024, the current month, quantity 0, no choices made, and empty camp fields |
| IncidentEntry.DistrictName | src/components/IncidentEntry.tsx:24 | the Hindi name of the first district with the user's code, or empty |
| IncidentEntry.AvailableTehsils | src/components/IncidentEntry.tsx:25 | exactly the tehsils of the user's district |
| IncidentEntry.AvailableSubtypes | src/components/IncidentEntry.tsx:28-29 | exactly the subtypes of the selected type; none when no type is selected |
| IncidentEntry.QuantityLabel | src/components/IncidentEntry.tsx:35-44 | hectares for crop damage, otherwise kilometres for the road subtype, otherwise a count |
| IncidentEntry.SetDisasterType | src/components/IncidentEntry.tsx:182-189 | the disaster subtype is cleared; the camp fields are reset unless the new type is flood; nothing else changes |
| IncidentEntry.SetDamageType | src/components/IncidentEntry.tsx:234 | the damage subtype is cleared and nothing else changes |
| IncidentEntry.DropdownsKeepSubtypeFit | src/components/IncidentEntry.tsx:233-253 | used through its dropdowns, the form keeps the damage subtype under the chosen damage type |
| IncidentEntry.MockId | src/components/IncidentEntry.tsx:61 | the id is the floor of draw × 10000, in 0..9999 |
| IncidentEntry.Submit | src/components/IncidentEntry.tsx:46-91 | rejected exactly when tehsil or disaster type is missing; otherwise the saved incident carries every field of the form, including subtype, deleted flag and camp figures, under the drawn id, and the form resets |
| IncidentEntry.BlankFormNeedsChoices | src/components/IncidentEntry.tsx:49-56 | a blank form is rejected; choosing a tehsil and a disaster type makes it savable |
| IncidentEntry.SavedIncidentInOwnDistrict | src/components/IncidentEntry.tsx:12-64 | an incident saved from the user's form is undeleted and lies in the user's district |
| Credentials.PickIndex | src/components/Login.tsx:23 | a draw picks a position inside the 36-character alphabet |
| Credentials.Pick | src/components/Login.tsx:23 | a draw picks an alphabet character |
| Credentials.PickAll | src/components/Login.tsx:21-24 | one character per draw, each the character that draw picks |
| Credentials.Generate | src/components/Login.tsx:19-26 | six draws give a six-character captcha over digits and capitals |
| Credentials.EveryCaptchaReachable | src/components/Login.tsx:19-26 | every six-character word over the alphabet is produced by some draws |
| Login.Refresh | src/components/Login.tsx:41-45 | shows the message, clears the captcha input and shows a fresh well-formed captcha; id and password are kept |
| Login.Open | src/components/Login.tsx:13-30 | the page opens with every field empty and a well-formed captcha |
| Login.RefreshButton | src/components/Login.tsx:113-120 | the refresh button draws a well-formed captcha and changes nothing else |
| Login.HandleLogin | src/components/Login.tsx:32-57 | checks in order: missing fields, then the captcha, then the account and password; sign-in happens exactly when all pass, with the first account of that id |
| Login.LoginIffKnownUser | src/components/Login.tsx:48-51 | with filled fields, the right captcha and the mock password, sign-in happens exactly when some account has the id, and yields the first such account |
| ChangePassword.CheckPassword | src/components/ChangePassword.tsx:49 | one pass over the password accepts exactly the strings of the policy |
| ChangePassword.Submit | src/components/ChangePassword.tsx:37-95 | checks in order: empty fields, new-password policy, confirm policy, old password, captcha (refreshed on mismatch), match; success clears the form and refreshes the captcha |
| ChangePassword.Open | src/components/ChangePassword.tsx:10-30 | the page opens with an empty form, no message and a well-formed captcha |
| ChangePassword.RefreshButton | src/components/ChangePassword.tsx:157-163 | the refresh button draws a well-formed captcha and keeps the form and the message |
| ChangePassword.SuccessMeetsPolicy | src/components/ChangePassword.tsx:82-95 | a success means the policy held, the passwords matched, the old password and captcha were right, and the new captcha is well formed |
| Contact.EmailValidIffPattern | src/components/Profile.tsx:69 | the e-mail scan accepts exactly the language of the e-mail pattern |
| Contact.FormOf | src/components/Profile.tsx:11-17 | the form copies the user's five fields, with absent mobile and e-mail as empty |
| Contact.ApplyChange | src/components/Profile.tsx:31-48 | an accepted change sets only the named field; a rejected mobile edit leaves the form alone |
| Contact.ErrorAfterChange | src/components/Profile.tsx:47 | an accepted change clears the error, and a rejected one keeps it |
| Contact.FilterKeepsMobileShape | src/components/Profile.tsx:35-44 | through the input filter, the mobile field stays at most ten digits |
| Contact.Validate | src/components/Profile.tsx:54-72 | passes exactly for ten digits and a valid e-mail; otherwise reports the first failing check |
| Contact.Merge | src/components/Profile.tsx:74-77 | the form's fields replace the user's; id, district, role and serial are kept |
| Contact.MergeOwnForm | src/components/Profile.tsx:74-77 | merging a user's own form gives back the user |
| Profile.Sync | src/components/Profile.tsx:21-29 | the form is refilled from the user |
| Profile.Change | src/components/Profile.tsx:31-48 | the form and the error follow the shared change rule |
| Profile.Submit | src/components/Profile.tsx:50-79 | a failed check shows its message and hands nothing on; otherwise the merged user is handed on |
| Profile.SubmitKeepsIdentity | src/components/Profile.tsx:74-77 | the user handed on keeps its identity and carries exactly the form's valid details |
| Profile.UntouchedSubmitIsIdentity | src/components/Profile.tsx:11-77 | submitting the untouched form of a valid user hands back that user |
| UserManagement.DistrictUsers | src/components/UserManagement.tsx:16-19 | exactly the users whose district code is non-zero and names a known district, in source order and with their multiplicity |
| UserManagement.EditClick | src/components/UserManagement.tsx:22-33 | opens the dialog on that user, with the form filled from the user and the error cleared |
| UserManagement.Change | src/components/UserManagement.tsx:35-52 | the form and the error follow the shared change rule, and the list is kept |
| UserManagement.Close | src/components/UserManagement.tsx:189 | closes the dialog and keeps the list |
| UserManagement.UpdateUsers | src/components/UserManagement.tsx:78-83 | users with the selected id take the form; every other user is unchanged |
| UserManagement.Save | src/components/UserManagement.tsx:54-88 | nothing happens without a selection; a failed check shows its message; otherwise the list is updated and the dialog closes |
| UserManagement.SaveTouchesOnlySelected | src/components/UserManagement.tsx:78-84 | a save keeps the list's length and every account's identity, changing only the selected account's details |
| UserManagement.SavedDetailsValid | src/components/UserManagement.tsx:58-84 | any account a save changed now has a ten-digit mobile number and a valid e-mail |
| Base.Filter | src/components/Dashboard.tsx:15-20 | keeps exactly the elements meeting the predicate; `Base.FilterInOrder` states their order and multiplicity |
| Base.FilterInOrder | src/components/Dashboard.tsx:15-20 | the kept elements form a subsequence of the input, in the input's order, each as many times as it occurs there |
| Base.FindIndex | src/components/Reports.tsx:51 | the first position meeting the predicate, or none when no element meets it |
| Base.Distinct | src/components/Reports.tsx:109 | the same elements, without duplicates |
| Base.DistinctFirstOccurrenceOrder | src/components/Reports.tsx:109 | the distinct elements keep the order of their first occurrence |
| Base.ReplaceWhere | src/components/IncidentCategories.tsx:200 | matching elements are replaced and all others kept, position by position |
| Ordering.NameLeqTotal | src/components/Reports.tsx:261 | any two names are comparable |
| Ordering.NameLeqTransitive | src/components/Reports.tsx:261 | the name order is transitive |
| Ordering.NameLeqAntisymmetric | src/components/Reports.tsx:261 | names ordered both ways are equal |
| Ordering.SortBy | src/components/Reports.tsx:261 | the result is a permutation of the input, sorted by key |
| Ordering.SortByStable | src/components/Reports.tsx:261 | the sort is stable: the elements sharing a key keep their input order |
| Ordering.SortInts | src/components/DistrictDamageChart.tsx:78 | the result is a permutation of the input, in ascending order |

## Left out

- Rendering is not modelled: the JSX markup, CSS, icons, the home page, the header, and the row-span `<td>` cells. Row spans are modelled as the flags and span counts that drive those cells.
- `localStorage` persistence and JSON parsing in the shell are not modelled. The signed-in user is passed in directly.
- SweetAlert and `alert` pop-ups are not modelled. The message a pop-up would show is recorded in the state, or the pop-up is omitted.
- Google Charts options and drawing are not modelled. The chart is drawn only when there is at least one bar and one colour (`DistrictDamageChart.tsx` line 183). That condition is not stated as a separate member.
- The clock, randomness and window width are parameters, not reads. `Date.now()` becomes the `now` id, `new Date().getMonth()` becomes the `month` argument, `Math.random()` becomes draws in [0, 1), and `window.innerWidth` becomes `wideScreen`.
- `localeCompare` is replaced by a plain code-point order on characters (`Ordering.NameLeq`). Locale collation tables are outside the model.
- JavaScript's own-key order is modelled for integer keys only: keys that are array indices come first, in ascending order, then the other keys. That the other keys keep their insertion order is not stated, since district codes are always small positive integers.
- Quantities are integers. A fractional `DM_Qty` is not modelled. A missing or NaN quantity is `None` and counts as 0.
- `null` and `undefined` are not distinguished. Both are `None` of an `Option`.
- The seed data (districts, tehsils, the damage and disaster taxonomy, users, incidents) is passed in as parameters. It is not written out as constants.
- UserManagement: the dialog form starts as `{}`. It is modelled as five empty strings, which is what the inputs display.
- The district name shown in a user-management row (`UserManagement.tsx` line 110) is display only and is not modelled.
- Month-name formatting in the report headings is not modelled.
- The login and change-password field setters are not modelled, because each one only copies an input value into the form.
- Categories.Save: requires that a selected category sits in the category context and a selected subtype in the subtype context. The source does not check this. Every handler keeps it true, as `Categories.HandlersKeepSelectionFit` proves.
- Login.LoginIffKnownUser: covers only the case where both fields are filled, the captcha matches and the password is the mock password. The other cases are stated by `Login.HandleLogin`.
