/**
  The project page (`src/pages/ProjectDetails.jsx`): which tab a URL
  selects, which URL a tab navigates to, where the shown project comes
  from, and the four task counters above the tabs. The project id in the
  URL is a string; a server response is a parameter (None when the request
  fails).
*/
module ProjectDetails {
  import opened Base
  import opened Seqs
  import opened Text
  import opened Entities
  import opened ProjectSlice

  datatype Tab = Tasks | Analytics | Calendar | Settings

  /** The path segment a tab adds after the project id; the tasks tab adds none. */
  function Suffix(tab: Tab): string {
    match tab
    case Tasks => ""
    case Analytics => "/analytics"
    case Calendar => "/calendar"
    case Settings => "/settings"
  }

  /** `getActiveTab`: the first of "/analytics", "/calendar", "/settings" the path contains, else the tasks tab. */
  function ActiveTab(path: string): (r: Tab)
    ensures r == Analytics <==> Contains(path, "/analytics")
    ensures r == Calendar <==> !Contains(path, "/analytics") && Contains(path, "/calendar")
    ensures r == Settings <==> !Contains(path, "/analytics") && !Contains(path, "/calendar") && Contains(path, "/settings")
    ensures r == Tasks <==> !Contains(path, "/analytics") && !Contains(path, "/calendar") && !Contains(path, "/settings")
  {
    if Contains(path, "/analytics") then Analytics
    else if Contains(path, "/calendar") then Calendar
    else if Contains(path, "/settings") then Settings
    else Tasks
  }

  /** `handleTabChange`'s path map. */
  function TabPath(projectId: string, tab: Tab): (r: string)
    ensures StartsWith(r, "/projects/" + projectId)
    ensures tab == Tasks ==> r == "/projects/" + projectId
    ensures tab != Tasks ==> |r| > 10 + |projectId| && r[10 + |projectId|] == '/'
  {
    "/projects/" + projectId + Suffix(tab)
  }

  /** An id the tab test cannot mistake for a tab: no '/', and not starting with a tab's word. */
  predicate PlainId(id: string) {
    '/' !in id && !StartsWith(id, "analytics") && !StartsWith(id, "calendar") && !StartsWith(id, "settings")
  }

  /** A needle `"/" + w` only ever starts at a '/' of the text. */
  lemma OccursAtSlash(s: string, p: string, i: int)
    requires |p| > 0 && p[0] == '/'
    requires 0 <= i <= |s| - |p| && StartsWith(s[i..], p)
    ensures s[i] == '/'
  {
    assert s[i..][..|p|][0] == p[0];
  }

  /** The characters of the fixed prefix: '/' only at its two ends. */
  lemma HeadSlashes(k: int)
    requires 0 <= k < 10 && "/projects/"[k] == '/'
    ensures k == 0 || k == 9
  {
  }

  /** In `"/projects/" + id + suf`, a '/' stands at position 0, 9 or where the suffix begins. */
  lemma SlashAt(id: string, suf: string, i: int)
    requires '/' !in id
    requires suf == "" || (suf[0] == '/' && '/' !in suf[1..])
    requires 0 <= i < |"/projects/" + id + suf| && ("/projects/" + id + suf)[i] == '/'
    ensures i == 0 || i == 9 || i == 10 + |id|
  {
    if i < 10 {
      HeadSlashes(i);
    }
  }

  /** A marker `"/" + w` does not start right after "/projects" unless the id begins with `w`. */
  lemma NotAtIdStart(id: string, suf: string, w: string)
    requires '/' !in id && '/' !in w && |w| > 0
    requires suf == "" || suf[0] == '/'
    requires !StartsWith(id, w)
    ensures !StartsWith(("/projects/" + id + suf)[9..], "/" + w)
  {
    var s := "/projects/" + id + suf;
    var p := "/" + w;
    if |s| - 9 >= |p| {
      if |id| >= |w| {
        // the id differs from the word at some position k
        assert id[..|w|] != w;
        var k :| 0 <= k < |w| && id[..|w|][k] != w[k];
        assert s[9..][1 + k] == id[k];
        assert p[1 + k] == w[k];
      } else {
        // the suffix's '/' meets a letter of the word
        assert s[9..][1 + |id|] == '/';
        assert p[1 + |id|] == w[|id|];
        assert w[|id|] in w;
      }
    }
  }

  /** The path of one tab never contains the marker of a different tab. */
  lemma NoOtherMarker(id: string, tab: Tab, other: Tab)
    requires PlainId(id)
    requires other != Tasks && other != tab
    ensures !Contains(TabPath(id, tab), Suffix(other))
  {
    var s := TabPath(id, tab);
    var suf := Suffix(tab);
    var p := Suffix(other);
    var w := p[1..];
    assert p == "/" + w;
    assert '/' !in w;
    assert suf == "" || (suf[0] == '/' && '/' !in suf[1..]);
    if Contains(s, p) {
      var i :| 0 <= i <= |s| - |p| && StartsWith(s[i..], p);
      OccursAtSlash(s, p, i);
      SlashAt(id, suf, i);
      assert s[i + 1] == p[1] by { assert s[i..][..|p|][1] == p[1]; }
      if i == 9 {
        NotAtIdStart(id, suf, w);
      }
    }
  }

  /** The tab a path selects is the tab that produced it, for any id the tab test cannot misread. */
  lemma TabRoundTrip(id: string, tab: Tab)
    requires PlainId(id)
    ensures ActiveTab(TabPath(id, tab)) == tab
  {
    var s := TabPath(id, tab);
    if tab != Analytics {
      NoOtherMarker(id, tab, Analytics);
    }
    if tab != Calendar {
      NoOtherMarker(id, tab, Calendar);
    }
    if tab != Settings {
      NoOtherMarker(id, tab, Settings);
    }
    if tab != Tasks {
      var k := 10 + |id|;
      assert s[k..] == Suffix(tab);
      assert StartsWith(s[k..], Suffix(tab));
    }
  }

  /** An id that begins with a tab's word is misread: its tasks tab shows as that tab. */
  lemma TabWordIdMisread()
    ensures ActiveTab(TabPath("analytics", Tasks)) == Analytics
  {
    var s := TabPath("analytics", Tasks);
    assert s[9..] == "/analytics";
    assert StartsWith(s[9..], "/analytics");
  }

  /** Where the shown project comes from. */
  datatype Load =
    | Idle                                  // no project id in the URL: nothing is loaded
    | FromStore(project: Project)           // found in the store, no request
    | Fetched(project: Project, store: State) // fetched and offered to `updateSingleProject`
    | Failed(redirect: string)              // the request failed: back to the project list

  /** `loadProject`: the first store project with the URL's id, else the server's answer. */
  function LoadProject(st: State, projectId: string, response: Option<Project>): (r: Load)
    ensures projectId == "" ==> r.Idle?
    ensures projectId != "" ==> forall i :: IsFirstProject(st.projects, Str(projectId), i) ==> r == FromStore(st.projects[i])
    ensures projectId != "" && NoProject(st.projects, Str(projectId)) && response.None? ==> r == Failed("/projects")
    ensures projectId != "" && NoProject(st.projects, Str(projectId)) && response.Some? ==>
      r.Fetched? && r.project == response.value && r.store == UpdateSingleProject(st, response.value) &&
      |r.store.projects| == |st.projects|
  {
    if projectId == "" then Idle
    else match ProjectIndex(st.projects, Str(projectId))
      case Some(i) => FromStore(st.projects[i])
      case None =>
        match response
        case None => Failed("/projects")
        case Some(p) => Fetched(p, UpdateSingleProject(st, p))
  }

  /** A fetched project with the requested id was absent from the store, so the store stays as it was. */
  lemma FetchNeverAdds(st: State, projectId: string, p: Project)
    requires projectId != "" && NoProject(st.projects, Str(projectId))
    requires SameId(p.oid, Str(projectId))
    ensures LoadProject(st, projectId, Some(p)) == Fetched(p, st)
  {
    assert NoProject(st.projects, p.oid);
  }

  /** A numeric store id is found from its string form in the URL without a request. */
  lemma NumericIdFoundFromUrl(st: State, p: Project)
    requires p.oid == Num(42) && st.projects == [p]
    ensures LoadProject(st, "42", None) == FromStore(p)
  {
    NumericAndStringIdsCoincide();
    assert IsFirstProject(st.projects, Str("42"), 0);
  }

  datatype TaskCards = TaskCards(total: nat, completed: nat, inProgress: nat, todo: nat)

  function StatusIs(status: string): Task -> bool {
    (t: Task) => t.status == status
  }

  /** `project?.tasks || []`. */
  function ShownTasks(project: Option<Project>): seq<Task> {
    if project.None? then [] else TasksOf(project.value)
  }

  /** The four counters above the tabs. */
  function CountTasks(project: Option<Project>): (r: TaskCards)
    ensures r.total == |ShownTasks(project)|
    ensures r.completed == Count(ShownTasks(project), StatusIs("COMPLETED"))
    ensures r.inProgress == Count(ShownTasks(project), StatusIs("IN_PROGRESS"))
    ensures r.todo == Count(ShownTasks(project), StatusIs("TODO"))
    ensures r.completed + r.inProgress + r.todo <= r.total
    ensures project.None? ==> r == TaskCards(0, 0, 0, 0)
  {
    var ts := ShownTasks(project);
    CountThreeBound(ts, StatusIs("COMPLETED"), StatusIs("IN_PROGRESS"), StatusIs("TODO"));
    TaskCards(|ts|, Count(ts, StatusIs("COMPLETED")), Count(ts, StatusIs("IN_PROGRESS")), Count(ts, StatusIs("TODO")))
  }

  /** Adding a task on this page raises the total by one and the counter of its status, if it has one. */
  lemma AddedTaskCounted(st: State, projectId: Key, task: Task, i: nat)
    requires IsFirstProject(st.projects, projectId, i)
    ensures CountTasks(Some(AddTask(st, projectId, task).projects[i])).total == CountTasks(Some(st.projects[i])).total + 1
    ensures CountTasks(Some(AddTask(st, projectId, task).projects[i])).todo ==
      CountTasks(Some(st.projects[i])).todo + (if task.status == "TODO" then 1 else 0)
    ensures CountTasks(Some(AddTask(st, projectId, task).projects[i])).inProgress ==
      CountTasks(Some(st.projects[i])).inProgress + (if task.status == "IN_PROGRESS" then 1 else 0)
    ensures CountTasks(Some(AddTask(st, projectId, task).projects[i])).completed ==
      CountTasks(Some(st.projects[i])).completed + (if task.status == "COMPLETED" then 1 else 0)
  {
    var q := AddTask(st, projectId, task).projects[i];
    var old_ := TasksOf(st.projects[i]);
    assert TasksOf(q) == [task] + old_ by {
      assert TasksOf(q)[1..] == old_;
    }
    CountAppend([task], old_, StatusIs("TODO"));
    CountAppend([task], old_, StatusIs("IN_PROGRESS"));
    CountAppend([task], old_, StatusIs("COMPLETED"));
    assert [task][1..] == [];
  }
}
