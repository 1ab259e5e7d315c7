/**
  The projects panel of the navigation (`src/components/ProjectsSidebar.jsx`):
  the first five projects, each expandable by a set toggle, with four
  sub-links per expanded project. A sub-link is highlighted only on its
  exact path. The toggle is the same set flip as the task selection of the
  project task list, `ProjectTasks.Toggle`.
*/
module ProjectsSidebar {
  import opened Base
  import opened Seqs
  import opened Text
  import opened Entities
  import opened ProjectTasks
  import opened ProjectDetails

  /** `projects.slice(0, 5)`: a prefix of the store's list, at most five long. */
  function ShownProjects(projects: seq<Project>): (r: seq<Project>)
    ensures |r| == Min(5, |projects|)
    ensures forall i :: 0 <= i < |r| ==> r[i] == projects[i]
  {
    Take(projects, 5)
  }

  /** Each shown project's sub-links appear iff its `_id` is in the expanded set. */
  predicate Expanded(expanded: set<Key>, p: Project) {
    p.oid in expanded
  }

  /** A click on a project opens it when closed and closes it when open; no other project changes. */
  lemma ClickFlipsOnlyThatProject(expanded: set<Key>, p: Project, q: Project)
    ensures Expanded(Toggle(expanded, p.oid), p) <==> !Expanded(expanded, p)
    ensures q.oid != p.oid ==> (Expanded(Toggle(expanded, p.oid), q) <==> Expanded(expanded, q))
    ensures Toggle(Toggle(expanded, p.oid), p.oid) == expanded
  {
    ToggleTwice(expanded, p.oid);
  }

  datatype SubItem = SubItem(title: string, tab: Tab, path: string)

  /** `getProjectSubItems(projectId)`: the four tabs of the project page, with the id written by `String(...)`. */
  function SubItems(projectId: Key): (r: seq<SubItem>)
    ensures |r| == 4
    ensures r[0].title == "Tasks" && r[1].title == "Analytics" && r[2].title == "Calendar" && r[3].title == "Settings"
    ensures forall i :: 0 <= i < 4 ==> r[i].path == TabPath(Norm(projectId), r[i].tab)
    ensures r[0].tab == Tasks && r[1].tab == Analytics && r[2].tab == Calendar && r[3].tab == Settings
  {
    var id := Norm(projectId);
    [SubItem("Tasks", Tasks, TabPath(id, Tasks)),
     SubItem("Analytics", Analytics, TabPath(id, Analytics)),
     SubItem("Calendar", Calendar, TabPath(id, Calendar)),
     SubItem("Settings", Settings, TabPath(id, Settings))]
  }

  /** `location.pathname === item.path`. */
  predicate SubItemActive(pathname: string, item: SubItem) {
    pathname == item.path
  }

  /** The four sub-link paths differ, so at most one is highlighted. */
  lemma AtMostOneSubItemActive(projectId: Key, pathname: string)
    ensures forall i, j :: 0 <= i < j < 4 ==> SubItems(projectId)[i].path != SubItems(projectId)[j].path
    ensures forall i, j :: 0 <= i < j < 4 ==> !(SubItemActive(pathname, SubItems(projectId)[i]) && SubItemActive(pathname, SubItems(projectId)[j]))
  {
    var r := SubItems(projectId);
    var n := |Norm(projectId)| + 10;
    forall i, j | 0 <= i < j < 4
      ensures r[i].path != r[j].path
    {
      if i == 0 {
        assert |r[i].path| < |r[j].path|;
      } else {
        assert r[i].path[n + 1] != r[j].path[n + 1];
      }
    }
  }

  /**
    A sub-link leads to a page that opens on its own tab, for any id the
    project page's tab test cannot misread, and on that page it is the one
    highlighted sub-link.
  */
  lemma SubItemOpensItsTab(projectId: Key, i: int)
    requires PlainId(Norm(projectId))
    requires 0 <= i < 4
    ensures ActiveTab(SubItems(projectId)[i].path) == SubItems(projectId)[i].tab
    ensures SubItemActive(SubItems(projectId)[i].path, SubItems(projectId)[i])
  {
    TabRoundTrip(Norm(projectId), SubItems(projectId)[i].tab);
  }
}
