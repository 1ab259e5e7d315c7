# Project-management client: store reducers, views and form checks

This project models the client side of a small project-management web
application. The client holds a store with two slices:

- the **project slice** holds the projects. Each project holds its tasks
  and its members, and each task holds its comments and attachments. The
  slice also holds a `loading` flag and an `error` message.
- the **user slice** holds the team's users.

Fifteen project reducers and four user reducers change the store. Every
page then derives what it shows from it: filtered task and project lists,
"my tasks", counters and charts, upcoming and overdue tasks, the search
box and the notification badge, the active tab or menu entry, and the
checks a form makes before it sends anything.

The model is written as immutable datatypes and pure functions:

- Identifiers are `Key = Str(s) | Num(n)`. `Base.Norm` is JavaScript's
  `String(...)`.
  - The project slice and the pages that look projects up
    (`ProjectDetails`, `TaskDetails`, `MyTasks`) compare ids after that
    coercion (`SameId`).
  - The user slice, the team page, the share dialog, the new-task dialog,
    the notifications and the settings tab compare ids strictly, as the
    code does.
- The field `_id` is called `oid`. The separate `id` field that some views
  read is called `id`.
- Optional arrays are `Option<seq<_>>`, so "create the list if it is
  missing" can be stated.
- A task update is a record of `Option` fields. `Entities.Merge` is the
  spread `{ ...task, ...updates }`.
- Dates are integers. `now` and `today` are parameters.
- Each form handler is a function from the form to
  `Submit = Invalid(message) | Send(payload)`. Its result is the toast it
  would show or the request body it would send.

## Model

| member | source | states |
|---|---|---|
| ProjectSlice.SetLoading | src/features/projectSlice.js:13-15 | only the loading flag changes; projects and error are kept |
| ProjectSlice.SetError | src/features/projectSlice.js:17-20 | the error is installed and loading is forced off; projects are kept |
| ProjectSlice.SetProjects | src/features/projectSlice.js:22-26 | the payload list is installed verbatim, loading off, error cleared |
| ProjectSlice.AddProject | src/features/projectSlice.js:28-31 | the new project is element 0, the old list is the tail unchanged, length grows by one, no duplicate check |
| ProjectSlice.UpdateProject | src/features/projectSlice.js:33-40 | every project whose coerced id matches is replaced, all others stay at their positions; with no match the list is identical |
| ProjectSlice.DeleteProject | src/features/projectSlice.js:42-47 | a project survives exactly when its coerced id differs; the list never grows |
| ProjectSlice.AddTask | src/features/projectSlice.js:49-60 | only the first matching project changes, its task list (created if missing) gets the task in front; no match leaves the state unchanged |
| ProjectSlice.PrependTask | src/features/projectSlice.js:56-59 | the task is element 0 and the old tasks (or none) follow; nothing else in the project changes |
| ProjectSlice.UpdateTask | src/features/projectSlice.js:62-85 | only the first matching project changes, and in it only the first matching task, which becomes the merge of old fields and updates |
| ProjectSlice.MergeTaskIn | src/features/projectSlice.js:69-79 | the task count is kept, only the first matching task is merged, a missing list or task leaves the project as it was |
| ProjectSlice.DeleteTask | src/features/projectSlice.js:87-99 | only the first matching project changes; in it every task with the coerced id is dropped and the rest keep their order and multiplicity |
| ProjectSlice.DropTasks | src/features/projectSlice.js:94-98 | the surviving tasks are an order-preserving selection of the old ones, holding every occurrence of each task whose id differs and none of the others; a project without a task list is untouched |
| ProjectSlice.AddComment | src/features/projectSlice.js:101-118 | only the first matching task of the first matching project changes; loading and error are untouched |
| ProjectSlice.AppendComment | src/features/projectSlice.js:113-116 | the comment goes last and the existing comments are kept as a prefix |
| ProjectSlice.CommentIn | src/features/projectSlice.js:108-117 | only the first matching task gets the comment; no task list or no match leaves the project as it was |
| ProjectSlice.AddProjectMember | src/features/projectSlice.js:120-131 | the first matching project gets the member at the end of its (possibly new) member list; others untouched |
| ProjectSlice.AppendMember | src/features/projectSlice.js:127-130 | the member goes last and the existing members are kept as a prefix |
| ProjectSlice.RemoveProjectMember | src/features/projectSlice.js:133-145 | only the first matching project changes; in it every member whose `user._id` matches is dropped and the rest keep their order and multiplicity |
| ProjectSlice.DropMembers | src/features/projectSlice.js:140-144 | the surviving members are an order-preserving selection holding every occurrence of each member whose user's coerced id differs and none of the others |
| ProjectSlice.AddAttachment | src/features/projectSlice.js:147-164 | only the first matching task of the first matching project gets the attachment at the end |
| ProjectSlice.AppendAttachment | src/features/projectSlice.js:159-162 | the attachment goes last and the existing ones are kept as a prefix |
| ProjectSlice.AttachmentIn | src/features/projectSlice.js:154-163 | only the first matching task changes; a missing task list or task leaves the project as it was |
| ProjectSlice.RemoveAttachment | src/features/projectSlice.js:166-184 | only the first matching task of the first matching project loses the attachments with that id; the rest keep their order and multiplicity |
| ProjectSlice.DropAttachments | src/features/projectSlice.js:178-182 | the surviving attachments are an order-preserving selection holding every occurrence of each attachment whose id differs and none of the others; a task without attachments is untouched |
| ProjectSlice.DetachIn | src/features/projectSlice.js:173-183 | only the first matching task changes; no task list or no task leaves the project as it was |
| ProjectSlice.UpdateSingleProject | src/features/projectSlice.js:186-196 | only the first coerced-id match is replaced; with no match the state is identical, so it never adds a project |
| ProjectSlice.ProjectIndex | src/features/projectSlice.js:52-54 | `find` by coerced id: none exactly when no project matches, otherwise the first match |
| ProjectSlice.TaskIndex | src/features/projectSlice.js:70-72 | `findIndex` by coerced id: none exactly when no task matches, otherwise the first match |
| ProjectSliceLemmas.DeleteProjectKeepsOrder | src/features/projectSlice.js:42-47 | the survivors of a delete are a subsequence of the old list, in order |
| ProjectSliceLemmas.AddThenDeleteProject | src/features/projectSlice.js:28-47 | adding a project with a fresh id then deleting that id restores the list |
| ProjectSliceLemmas.AddProjectOrder | src/features/projectSlice.js:28-31 | of two additions the later one comes first |
| ProjectSliceLemmas.AddProjectUnique | src/features/projectSlice.js:28-31 | unique ids stay unique exactly when the new id is fresh, since there is no duplicate check |
| ProjectSliceLemmas.UpdateProjectUnique | src/features/projectSlice.js:33-40 | replacing by id keeps ids unique |
| ProjectSliceLemmas.DeleteProjectUnique | src/features/projectSlice.js:42-47 | deleting keeps ids unique |
| ProjectSliceLemmas.UpdateProjectReplacesOne | src/features/projectSlice.js:33-40 | with unique ids, `updateProject` changes exactly the one matching position |
| ProjectSliceLemmas.SingleUpdateAgreesWhenUnique | src/features/projectSlice.js:186-196 | with unique ids, replacing the first match equals replacing every match |
| ProjectSliceLemmas.SingleUpdateDiffersOnDuplicates | src/features/projectSlice.js:186-196 | with a duplicated id the two update reducers give different lists |
| ProjectSliceLemmas.AddThenDeleteTask | src/features/projectSlice.js:49-99 | on a project that already has a task list, adding a task with a fresh id and deleting it restores the state |
| ProjectSliceLemmas.AddThenRemoveMember | src/features/projectSlice.js:120-145 | on a project that already has a member list, adding a member for a user not yet in the project and removing that user restores the state |
| ProjectSliceLemmas.AddThenRemoveAttachment | src/features/projectSlice.js:147-184 | on a task that already has an attachment list, adding an attachment with a fresh id and removing it restores the state |
| ProjectSliceLemmas.AttachThenDetachAt | src/features/projectSlice.js:147-184 | whenever detaching undoes attaching on the first matching project, the two reducers undo each other on the state |
| ProjectSliceLemmas.DetachAfterAttach | src/features/projectSlice.js:154-183 | on one project, the attachment added to the first matching task is removed from that task again |
| ProjectSliceLemmas.CommentTwiceIn | src/features/projectSlice.js:108-117 | two comments on one task end up after the existing ones, in call order |
| ProjectSliceLemmas.CommentsInCallOrder | src/features/projectSlice.js:101-118 | on the state, the project after two comments is the project with both comments appended in order |
| ProjectSliceLemmas.UpdateTaskWithNothing | src/features/projectSlice.js:62-85 | an empty update object leaves the state as it was |
| ProjectSliceLemmas.MergeTaskInTwice | src/features/projectSlice.js:69-79 | when the first update keeps `_id`, two merges into one task equal one merge of the combined update |
| ProjectSliceLemmas.UpdateTaskTwice | src/features/projectSlice.js:62-85 | when the first update keeps `_id`, two updates of one task equal one update in which the later value of each field wins |
| ProjectSliceLemmas.DeleteTaskAcrossIdForms | src/features/projectSlice.js:87-99 | a numeric project id finds the project stored under its string form |
| ProjectSliceLemmas.CreateEditDelete | src/features/projectSlice.js:22-47 | create, edit and delete of one project leaves an empty list |
| ProjectSliceLemmas.RemoveMemberDropsDuplicates | src/features/projectSlice.js:140-144 | two members for the same user are both removed |
| Entities.Merge | src/features/projectSlice.js:75-78 | each of the thirteen fields: present in the update replaces the task's, absent keeps its old value |
| Entities.MergeTwice | src/features/projectSlice.js:75-78 | two successive merges are one merge of the combined update |
| Entities.MergeIdempotent | src/features/projectSlice.js:75-78 | merging the same update twice changes nothing the second time |
| Base.NumericAndStringIdsCoincide | src/features/projectSlice.js:34-36 | the number 42 and the string "42" are different values but the same id after coercion |
| UserSlice.SetUsers | src/features/userSlice.js:13-15 | the payload becomes the list verbatim; loading untouched |
| UserSlice.AddUser | src/features/userSlice.js:16-18 | the user goes last, the old list is a prefix, length grows by one; loading untouched |
| UserSlice.UpdateUserData | src/features/userSlice.js:19-23 | every user with a strictly equal `id` is patched, others stay; length and loading kept |
| UserSlice.Patch | src/features/userSlice.js:21-22 | the id is the patch's; each other patch field present replaces the user's, each absent one keeps it |
| UserSlice.RemoveUser | src/features/userSlice.js:24-26 | the surviving users are an order-preserving selection holding every occurrence of each user whose `id` differs strictly and none of the others; loading untouched |
| UserSlice.UpdateKeepsIds | src/features/userSlice.js:19-23 | patching never changes which id sits at which position |
| UserSlice.UpdateIdempotent | src/features/userSlice.js:19-23 | the same patch twice equals it once |
| UserSlice.AddThenRemoveUser | src/features/userSlice.js:16-26 | adding a user with a fresh id and removing that id restores the list |
| UserSlice.RemoveIsStrict | src/features/userSlice.js:24-26 | removing the string id "42" keeps the user whose id is the number 42 |
| ProjectTasks.FilteredTasks | src/components/ProjectTasks.jsx:27-34 | an order-preserving selection holding every copy of each task whose fields equal every non-"ALL" filter, and no other task |
| ProjectTasks.FilteredIsSubsequence | src/components/ProjectTasks.jsx:27 | the filtered list keeps table order and every copy of a passing task, and drops every other task |
| ProjectTasks.AllFiltersOff | src/components/ProjectTasks.jsx:27-34 | with all three filters at "ALL" the list is the task list |
| ProjectTasks.Toggle | src/components/ProjectTasks.jsx:94-102 | exactly that id flips membership |
| ProjectTasks.SelectAll | src/components/ProjectTasks.jsx:193-201 | checked selects the ids of the visible tasks, cleared selects nothing |
| ProjectTasks.SelectAllChecksHeader | src/components/ProjectTasks.jsx:189-201 | after select-all on a non-empty table with distinct ids the header shows checked |
| ProjectTasks.ClearedHeader | src/components/ProjectTasks.jsx:189-201 | after clearing, or on an empty table, the header is not checked |
| ProjectTasks.BulkDeleteRequest | src/components/ProjectTasks.jsx:56-59 | an empty selection is refused with no request; otherwise the request names the selection |
| ProjectsPage.FilterProjects | src/pages/Projects.jsx:55-79 | search, status and priority filters applied in turn; the result is a subsequence |
| ProjectsPage.FilterProjectsIsOneFilter | src/pages/Projects.jsx:56-76 | the three filters in a row equal one filter by the combined condition |
| ProjectsPage.FilterProjectsMembers | src/pages/Projects.jsx:56-76 | a project is shown exactly when it passes search, status and priority |
| ProjectsPage.NoFilterShowsAll | src/pages/Projects.jsx:56-78 | empty term and both filters at "ALL" show the store's list as it is |
| ProjectsPage.SearchHitsContainTerm | src/pages/Projects.jsx:58-64 | a search hit has a name or description that contains the term, both lower-cased; a missing field never matches |
| MyTasks.TaggedTasks | src/pages/MyTasks.jsx:30-45 | each entry tagged with the project and assigned to the user; untagged, an order-preserving selection of the project's tasks holding every occurrence of each assigned task; nothing without a task list |
| MyTasks.MyTasksOf | src/pages/MyTasks.jsx:20-47 | nothing without a user; otherwise the projects' tagged tasks in store order |
| MyTasks.ExtractAppend | src/pages/MyTasks.jsx:26-31 | tasks of earlier projects come first |
| MyTasks.OneProject | src/pages/MyTasks.jsx:27-45 | a project without tasks contributes nothing; otherwise exactly its assigned tasks |
| MyTasks.TaggedMembers | src/pages/MyTasks.jsx:32-45 | an entry of one project is exactly one of its tasks assigned to the user, tagged with it |
| MyTasks.ExtractMembers | src/pages/MyTasks.jsx:26-45 | an entry appears exactly when some project holds that task assigned to the user |
| MyTasks.FilterByStatus | src/pages/MyTasks.jsx:50-53 | "ALL" shows every task; another value an order-preserving selection holding every occurrence of each task with that status and nothing else |
| MyTasks.CountStatuses | src/pages/MyTasks.jsx:86-127 | total is the list length, each card counts its status, and the three cards sum to at most the total |
| MyTasks.CardsMatchFilters | src/pages/MyTasks.jsx:50-127 | each status card counts what its filter shows |
| MyTasksSidebar.Upcoming | src/components/MyTasksSidebar.jsx:53-58 | as many open tasks with a due date as there are, up to five, taken from them, earliest first, none due later than an open task left out; the stable sort's prefix |
| MyTasksSidebar.UpcomingKeepsOverdue | src/components/MyTasksSidebar.jsx:55-56 | past-due tasks are not dropped: with at most five open tasks all are listed |
| MyTasksSidebar.FooterFor | src/components/MyTasksSidebar.jsx:166-182 | the empty message shows exactly for no tasks, the link exactly otherwise |
| TasksSummary.Tag | src/components/TasksSummary.jsx:15-19 | a project's tasks in order, each tagged with the project's `id` |
| TasksSummary.AllTasksAppend | src/components/TasksSummary.jsx:13-20 | tasks of earlier projects come first and the counts add up |
| TasksSummary.AllTasksMembers | src/components/TasksSummary.jsx:13-20 | an entry is a task of some project, tagged with that project's `id` |
| TasksSummary.MakeCard | src/components/TasksSummary.jsx:33-55 | a card counts its whole list, shows at most three, and offers "View N more" with N = count - 3 exactly when count > 3 |
| TasksSummary.SummaryCards | src/components/TasksSummary.jsx:22-55 | each card counts all assigned, overdue or in-progress tasks, shows the first three of them in store order, and offers "more" exactly above three |
| TasksSummary.SignedOutMatchesUnassigned | src/components/TasksSummary.jsx:24 | signed out, "My Tasks" holds exactly the tasks with no `assigneeId`, a `null` one counted as missing |
| ProjectAnalytics.ComputeStats | src/components/ProjectAnalytics.jsx:31-64 | a missing list counts as empty; the total, the tasks of each status (summing to at most the total), and the open tasks past due (never more than the non-completed ones) |
| ProjectAnalytics.TallyBy | src/components/ProjectAnalytics.jsx:43-51 | one entry per listed key, in key order, counting the tasks with that value |
| ProjectAnalytics.UnknownValueIgnored | src/components/ProjectAnalytics.jsx:43-68 | a task whose value is no listed key leaves the map unchanged |
| ProjectAnalytics.StatusMapMatchesStats | src/components/ProjectAnalytics.jsx:43-56 | the status map and the status counters agree |
| ProjectAnalytics.StatusData | src/components/ProjectAnalytics.jsx:73-76 | every status key in fixed order, labelled in lower case with its first underscore as a space, with its count |
| ProjectAnalytics.TypeData | src/components/ProjectAnalytics.jsx:78-81 | an order-preserving selection of the five lower-cased type rows holding exactly those with a count above 0 |
| ProjectAnalytics.TypeShownIffUsed | src/components/ProjectAnalytics.jsx:78-81 | a type is charted exactly when some task has it |
| ProjectAnalytics.PercentOf | src/components/ProjectAnalytics.jsx:86 | with total 0 the share is 0 |
| ProjectAnalytics.PriorityData | src/components/ProjectAnalytics.jsx:83-87 | every priority key in order with its count and share |
| ProjectAnalytics.CompletionRate | src/components/ProjectAnalytics.jsx:91-98 | a dash with no tasks, a percentage otherwise |
| ProjectAnalytics.NoTasksNoDivision | src/components/ProjectAnalytics.jsx:86-98 | with no tasks every share is 0 and the rate shows a dash |
| StatsGrid.ProjectCounters | src/components/StatsGrid.jsx:5-19 | total is the project count, three status counts sum to at most it, all 0 for no projects |
| StatsGrid.AddingOneProject | src/components/StatsGrid.jsx:7-19 | one more project raises the total and exactly its own status counter |
| ProjectCalendar.UpcomingTasks | src/components/ProjectCalendar.jsx:47-55 | as many open tasks due today or later as there are, up to five, earliest first, none due later than a candidate left out; the stable sort's prefix |
| ProjectCalendar.FewUpcomingAllListed | src/components/ProjectCalendar.jsx:47-55 | with at most five candidates every open task due from today on is listed |
| ProjectCalendar.OverdueTasks | src/components/ProjectCalendar.jsx:57-62 | an order-preserving selection holding every occurrence of each open task due before today and nothing else |
| ProjectCalendar.UpcomingOverdueDisjoint | src/components/ProjectCalendar.jsx:47-62 | no task is both, and a completed task is neither |
| ProjectCalendar.Panel | src/components/ProjectCalendar.jsx:245-249 | the first five overdue tasks, and "+N more" with N = length - 5 exactly when there are more |
| RecentActivity.RecentTasks | src/components/RecentActivity.jsx:33-42 | a prefix of at most five of all tasks, newest `updatedAt` first |
| RecentActivity.EmptyStateIffNoTasks | src/components/RecentActivity.jsx:54-60 | the empty message shows exactly when no project has a task |
| RecentActivity.RecentEntriesAreTagged | src/components/RecentActivity.jsx:33-38 | every entry is a task of a project, tagged with its `id` |
| Navbar.Search | src/components/Navbar.jsx:79-121 | a blank query gives nothing and a closed dropdown, whatever the projects; otherwise the first ten hits, and the dropdown opens exactly when there was any hit |
| Navbar.MatchingTasks | src/components/Navbar.jsx:104-107 | exactly the project's tasks whose title or description contains the query |
| Navbar.CollectAppend | src/components/Navbar.jsx:88-118 | hits of earlier projects come first |
| Navbar.ProjectBeforeItsTasks | src/components/Navbar.jsx:88-118 | a project's own hit, if any, precedes its task hits |
| Navbar.CollectSound | src/components/Navbar.jsx:85-118 | every hit names a matching project or a matching task and links to its route |
| Navbar.CollectComplete | src/components/Navbar.jsx:85-118 | every matching project and task is collected |
| Navbar.SearchResultsSound | src/components/Navbar.jsx:79-121 | every shown result is sound |
| Navbar.MarkAsRead | src/components/Navbar.jsx:140-143 | notifications with the id become read, the rest unchanged; the count drops by one, never below 0 |
| Navbar.MarkAllAsRead | src/components/Navbar.jsx:153-154 | every notification is read and the count is 0 |
| Navbar.Badge | src/components/Navbar.jsx:245-247 | hidden at 0, the number up to 9, "9+" above |
| Navbar.ReadClickMiscounts | src/components/Navbar.jsx:140-143 | clicking an already read notification still lowers the count, so it no longer counts unread notifications |
| Navbar.MarkOneCount | src/components/Navbar.jsx:140-143 | with distinct ids, marking lowers the unread count by one exactly when that notification was unread |
| Navbar.MarkAsReadCounted | src/components/Navbar.jsx:140-143 | same list as `markAsRead`, the count never rises, and with distinct ids a count equal to the unread notifications stays equal |
| ProjectDetails.ActiveTab | src/pages/ProjectDetails.jsx:36-42 | "/analytics", "/calendar", "/settings" are looked for in that order; the tasks tab otherwise |
| ProjectDetails.TabPath | src/pages/ProjectDetails.jsx:94-102 | every tab path starts with the project's path; the tasks tab is that path |
| ProjectDetails.TabRoundTrip | src/pages/ProjectDetails.jsx:36-102 | for an id with no '/' and no tab word at its start, the tab read back from a tab's path is that tab |
| ProjectDetails.TabWordIdMisread | src/pages/ProjectDetails.jsx:36-42 | the tasks path of a project with id "analytics" is read as the analytics tab |
| ProjectDetails.LoadProject | src/pages/ProjectDetails.jsx:57-71 | the first store project with the URL's id is used; otherwise the store becomes `updateSingleProject` of the fetched project, or failure redirects |
| ProjectDetails.FetchNeverAdds | src/pages/ProjectDetails.jsx:67-71 | a project fetched because it was absent does not enter the store |
| ProjectDetails.NumericIdFoundFromUrl | src/pages/ProjectDetails.jsx:57-65 | a numeric store id is found from the URL's string without a fetch |
| ProjectDetails.CountTasks | src/pages/ProjectDetails.jsx:164-185 | total and the three status counts, summing to at most total; all 0 without a project |
| ProjectDetails.AddedTaskCounted | src/pages/ProjectDetails.jsx:164-185 | adding a task raises the total by one and each of the three status counters by one exactly when the task has that status |
| Sidebar.Highlights | src/components/Sidebar.jsx:118-121 | "/" only on exactly "/", every other entry on a path prefix |
| Sidebar.AtMostOneActive | src/components/Sidebar.jsx:108-122 | no pathname highlights two entries |
| Sidebar.PathsDistinct | src/components/Sidebar.jsx:108-115 | the six paths differ pairwise |
| Sidebar.NestedProjectRoute | src/components/Sidebar.jsx:121 | nested project pages highlight "Projects" and nothing else |
| ProjectsSidebar.ShownProjects | src/components/ProjectsSidebar.jsx:59 | the first five projects, in store order |
| ProjectsSidebar.ClickFlipsOnlyThatProject | src/components/ProjectsSidebar.jsx:38-42 | a click flips that project's expansion only, and two clicks restore the set |
| ProjectsSidebar.SubItems | src/components/ProjectsSidebar.jsx:19-36 | four items Tasks, Analytics, Calendar, Settings with the project page's tab paths |
| ProjectsSidebar.AtMostOneSubItemActive | src/components/ProjectsSidebar.jsx:79 | the four paths differ, so at most one item is active |
| ProjectsSidebar.SubItemOpensItsTab | src/components/ProjectsSidebar.jsx:19-36 | each sub-link opens its own tab and is active on its own path |
| AppGuards.ProtectedRoute | src/App.jsx:21-38 | spinner while loading; then redirect to /login exactly when unauthenticated, children otherwise |
| AppGuards.PublicRoute | src/App.jsx:40-57 | spinner while loading; then redirect to / exactly when authenticated, children otherwise |
| AppGuards.ExactlyOneRendersChildren | src/App.jsx:21-57 | once loaded, exactly one guard renders its children and exactly one redirects |
| ShareTaskDialog.AssigneeOid | src/components/ShareTaskDialog.jsx:20-22 | only a populated assignee has an `_id` |
| ShareTaskDialog.Candidates | src/components/ShareTaskDialog.jsx:20-23 | an order-preserving selection holding every copy of each fetched user other than the viewer and the assignee, and no other user |
| ShareTaskDialog.MissingIdsDropped | src/components/ShareTaskDialog.jsx:20-23 | signed out or with no populated assignee, users without `_id` are left out |
| ShareTaskDialog.ToggleUser | src/components/ShareTaskDialog.jsx:31-37 | the id flips membership, others keep theirs; an absent id is appended, a chosen one loses every copy while the rest keep order and multiplicity |
| ShareTaskDialog.ToggleKeepsDistinct | src/components/ShareTaskDialog.jsx:31-37 | a list without repeats stays without repeats |
| ShareTaskDialog.ChooseThenUnchoose | src/components/ShareTaskDialog.jsx:31-37 | choosing then un-choosing an id restores the list |
| ShareTaskDialog.UnchooseThenChooseReorders | src/components/ShareTaskDialog.jsx:31-37 | un-choosing then choosing moves the id to the end |
| ShareTaskDialog.Share | src/components/ShareTaskDialog.jsx:40-43 | an empty choice is refused; otherwise the request carries the chosen ids as they are |
| ShareTaskDialog.ButtonGuardsShare | src/components/ShareTaskDialog.jsx:160 | the dialog opens disabled with permission "view"; an enabled button always sends |
| Forms.CheckFile | src/pages/TaskDetails.jsx:140-143 | no file, a file over the limit refused with its message, or an upload of at most the limit |
| Forms.LimitIsInclusive | src/pages/TaskDetails.jsx:140-143 | the limit is accepted and one byte more is refused |
| Register.SubmitRegister | src/pages/Register.jsx:31-58 | empty field, then mismatch, then length < 6, first failure decides; the payload has no confirmation |
| Register.LengthBoundary | src/pages/Register.jsx:46-49 | six characters pass, five do not, and a blank name is not refused |
| Register.FirstFailureWins | src/pages/Register.jsx:31-54 | an empty field hides a mismatch and a mismatch hides a short password |
| Profile.InitialForm | src/pages/Profile.jsx:12-18 | name and email each from the user, or "" when the user or the field is missing; all password fields empty |
| Profile.SaveProfile | src/pages/Profile.jsx:31-34 | refused exactly when the trimmed name is empty |
| Profile.ChangePassword | src/pages/Profile.jsx:58-80 | empty fields, then mismatch, then length < 6; sent exactly when all three checks pass, with both passwords |
| Profile.MismatchBeforeLength | src/pages/Profile.jsx:63-71 | a short mistyped password is reported as a mismatch |
| Profile.AfterPasswordChanged | src/pages/Profile.jsx:82-87 | the three password fields are cleared, name and email kept |
| Profile.ResetBlocksResubmit | src/pages/Profile.jsx:82-87 | after the reset a resubmit is refused and saving the profile is unaffected |
| Profile.CheckImage | src/pages/Profile.jsx:100-103 | more than 2 MiB is refused before any upload |
| Profile.CancelEdit | src/pages/Profile.jsx:250-256 | name and email back from the user, passwords untouched |
| Profile.CancelIdempotent | src/pages/Profile.jsx:250-256 | cancelling twice equals once; cancelling a fresh form changes nothing |
| Team.NeverRemoveSelfOrOwner | src/pages/Team.jsx:198-200 | no row offers to remove the owner or the viewer, and none does without the right |
| Team.RemoveMember | src/pages/Team.jsx:39-49 | refused exactly without the right; on success the users with other `_id`s remain, in order and with every copy, and no other user |
| Team.RemovalKeepsViewer | src/pages/Team.jsx:39-49 | removing a row the button was shown for keeps the viewer |
| Team.Invited | src/pages/Team.jsx:322-325 | the invited user is appended |
| Team.CountRoles | src/pages/Team.jsx:97-125 | total, admins and members; admins plus members at most total |
| Team.InviteCounted | src/pages/Team.jsx:97-125 | an invite raises the total and exactly its role's counter |
| Team.ValidEmailMatchesPattern | src/pages/Team.jsx:348-352 | the scanning check accepts exactly the texts the regular expression matches |
| Team.EmailExamples | src/pages/Team.jsx:348-352 | a@b.c passes; a@b, a@b@c.d and a padded address fail |
| Team.SubmitInvite | src/pages/Team.jsx:343-352 | blank name or email, then the pattern on the untrimmed email; otherwise the invite |
| Team.PaddedEmailRejected | src/pages/Team.jsx:343-352 | a padded address passes the blank check and fails the pattern |
| ProjectSettings.OrElse | src/components/ProjectSettings.jsx:14-22 | a missing or empty field gives the default, otherwise the value |
| ProjectSettings.DatePart | src/components/ProjectSettings.jsx:19-20 | the stored text up to its first "T", or "" when absent |
| ProjectSettings.InitialForm | src/components/ProjectSettings.jsx:14-22 | each field from the project or its default, the dates cut at "T" |
| ProjectSettings.BareProjectDefaults | src/components/ProjectSettings.jsx:14-22 | a bare project opens on the defaults |
| ProjectSettings.StampOpensAsDate | src/components/ProjectSettings.jsx:19-20 | a timestamp `date + "T" + time` opens as `date` |
| ProjectSettings.SaveSettings | src/components/ProjectSettings.jsx:32-35 | refused exactly when the trimmed name is empty |
| ProjectSettings.UnnamedProjectCannotSave | src/components/ProjectSettings.jsx:32-35 | an unnamed project's form cannot be saved as it opens |
| ProjectSettings.MemberControl | src/components/ProjectSettings.jsx:279-293 | admins show "(Cannot remove)", other non-creators the remove button |
| ProjectSettings.CreatorNotRemovable | src/components/ProjectSettings.jsx:279-293 | the creator's and admins' rows never offer removal |
| ProjectSettings.RemoveMember | src/components/ProjectSettings.jsx:80-83 | a falsy id is refused before anything else |
| ProjectSettings.ButtonWithoutId | src/components/ProjectSettings.jsx:80-83 | a member without `_id` gets a button that is refused |
| TaskDetails.LookupTask | src/pages/TaskDetails.jsx:50-57 | idle exactly when an id is empty; otherwise the first task with the id in the first project with the id is found, and anything missing fetches that task |
| TaskDetails.OnlyFirstProjectSearched | src/pages/TaskDetails.jsx:50-57 | a task under a later project with the same id is not found |
| TaskDetails.LookupSeesStoredComment | src/pages/TaskDetails.jsx:118-126 | after `addComment` the lookup finds the task with the comment at the end |
| TaskDetails.SubmitComment | src/pages/TaskDetails.jsx:108-111 | refused exactly when the trimmed text is empty |
| TaskDetails.LocalComments | src/pages/TaskDetails.jsx:118 | the new comment is first and the rest follow |
| TaskDetails.PageAndStoreOrderDiffer | src/pages/TaskDetails.jsx:118-126 | the page puts the new comment first, the store last |
| TaskDetails.CheckUpload | src/pages/TaskDetails.jsx:140-143 | more than 5 MiB is refused, exactly 5 MiB uploaded |
| TaskDetails.LastAttachment | src/pages/TaskDetails.jsx:157-158 | the last attachment, none for an empty list |
| TaskDetails.UploadHandedToStore | src/pages/TaskDetails.jsx:157-158 | the appended upload is what the store gets |
| CreateTaskDialog.SubmitTask | src/components/CreateTaskDialog.jsx:52-63 | refused exactly for a blank title; a blank assignee becomes null, all else copied |
| CreateTaskDialog.FreshFormRefused | src/components/CreateTaskDialog.jsx:8-16 | the fresh form is TODO/TASK/MEDIUM and cannot be sent |
| CreateTaskDialog.FindUser | src/components/CreateTaskDialog.jsx:76-83 | the first user whose id strictly equals the assignee string, none exactly when no user has it |
| CreateTaskDialog.AssignmentNotice | src/components/CreateTaskDialog.jsx:76-83 | shown exactly for a non-empty assignee other than the viewer that a loaded user has |
| CreateTaskDialog.NoNoticeForSelfOrUnknown | src/components/CreateTaskDialog.jsx:76-83 | self-assignment or an unknown id shows no notice |

## Left out

- HTTP requests, `toast`, `navigate`, `confirm`, React effects and memoisation are not modelled. Their outcomes are parameters: `confirmed`, `deleted`, the fetched project, the server's attachment list.
- `Promise.all` in the bulk delete and out-of-order responses are not modelled. They are concurrency, not logic.
- `src/services/api.js` and `src/utils/authHelper.js` are not part of this model. They are HTTP and local-storage plumbing.
- The optimistic member insert in `AddProjectMember.jsx` is not modelled. It needs a clock for its temporary id, and its store effect is `ProjectSlice.AddProjectMember`.
- Display-only and simulated flows are not modelled: project cards, overview, layouts, store wiring, the create-project and invite dialogs, and the settings page.
- Dates are integers. Parsing, time zones and formatting are not modelled.
- Percentages are floating point, so `ProjectAnalytics.PercentOf` and `ProjectAnalytics.CompletionRate` are modelled only for the zero total. A non-zero share is left unevaluated.
- `Text.Lower` and `Text.IsSpace` are ASCII only. JavaScript's Unicode case mapping and `\s` are wider.
- String lengths count characters, not UTF-16 code units.
- The `console.error` diagnostics and the initial demo users of the user slice are not modelled.
- Object-prototype keys (a status named "constructor") in the analytics maps are not modelled.
- TaskDetails.LastAttachment: for an empty server list the page dispatches `undefined`. The model returns none instead.
- ShareTaskDialog.ChooseThenUnchoose: the round trip is proved only for an id not yet chosen. Starting from a chosen id it reorders (`UnchooseThenChooseReorders`).
- TasksSummary and RecentActivity require every project to carry a task list, because the code maps over it unguarded. Navbar.Search likewise requires every project to have a name, but only for a non-blank query; a blank query returns before any name is read.
- Fields the code reads without a guard are required in the model: a task always has a `title` and a `status`, and a member always has a `user`. The model cannot represent a task without a title or status, or a member without a user. On such input the source throws: the search box lower-cases `task.title` and rewrites `task.status`, and `removeProjectMember` reads `m.user._id`. The settings tab guards `member.user?.`, but it receives the same required field.
- JavaScript's `null` and `undefined` are one `None` in the model. Strict comparisons that can meet both are therefore coarser than the source:
- TasksSummary.SignedOutMatchesUnassigned: signed out, `currentUser?.id` is `undefined`, so the source leaves out a task whose `assigneeId` is `null`. The model counts it as unassigned.
- UserSlice.UpdateUserData and UserSlice.RemoveUser: a payload `id` of `undefined` never strictly equals a stored `null` id, but the model matches the two.

## Findings

| source | as written | input that shows it | evidently intended | confidence | as-written member | corrected member |
|---|---|---|---|---|---|---|
| src/components/Navbar.jsx:140-143 | `markAsRead` lowers the unread count by one whether or not the clicked notification was unread | one read and one unread notification, count 1; click the read one: count 0 while one is unread | lower the count only when the clicked notification was unread | not executed | Navbar.ReadClickMiscounts | Navbar.MarkAsReadCounted |
