/**
  The top bar (`src/components/Navbar.jsx`): the global search over
  projects and their tasks, and the notification list with its unread
  badge. The search query is lower-cased but not trimmed for matching; a
  query of white space only clears the results. Notification ids are
  compared strictly.
*/
module Navbar {
  import opened Base
  import opened Seqs
  import opened Text
  import opened Entities

  // ---------------------------------------------------------------------------
  // Search

  datatype HitKind = ProjectHit | TaskHit

  datatype SearchResult = SearchResult(kind: HitKind, id: Key, title: string, subtitle: string, link: string)

  /** The search calls `project.name.toLowerCase()` unguarded: every project must have a name. */
  ghost predicate AllNamed(projects: seq<Project>) {
    forall p :: p in projects ==> p.name.Some?
  }

  /** `field?.toLowerCase().includes(query)` with the query already lower-cased. */
  predicate Mentions(field: Option<string>, query: string) {
    field.Some? && Contains(Lower(field.value), query)
  }

  predicate ProjectMatches(p: Project, query: string) {
    Mentions(p.name, query) || Mentions(p.description, query)
  }

  predicate TaskMatches(t: Task, query: string) {
    Mentions(Some(t.title), query) || Mentions(t.description, query)
  }

  function TaskMatching(query: string): Task -> bool {
    (t: Task) => TaskMatches(t, query)
  }

  function ProjectLink(p: Project): string {
    "/projects/" + Norm(p.oid)
  }

  function TaskLink(p: Project, t: Task): string {
    "/projects/" + Norm(p.oid) + "/tasks/" + Norm(t.oid)
  }

  function ProjectResult(p: Project): SearchResult
    requires p.name.Some?
  {
    var subtitle := if p.description.None? || p.description.value == "" then "No description" else p.description.value;
    SearchResult(ProjectHit, p.oid, p.name.value, subtitle, ProjectLink(p))
  }

  function TaskResult(p: Project, t: Task): SearchResult
    requires p.name.Some?
  {
    SearchResult(TaskHit, t.oid, t.title, p.name.value + " • " + FirstUnderscoreToSpace(t.status), TaskLink(p, t))
  }

  function MatchingTasks(p: Project, query: string): (ts: seq<Task>)
    ensures forall t :: t in ts <==> p.tasks.Some? && t in p.tasks.value && TaskMatches(t, query)
  {
    if p.tasks.Some? then Filter(p.tasks.value, TaskMatching(query)) else []
  }

  function OwnHit(p: Project, query: string): (r: seq<SearchResult>)
    requires p.name.Some?
  {
    if ProjectMatches(p, query) then [ProjectResult(p)] else []
  }

  function TaskHits(p: Project, ts: seq<Task>): (r: seq<SearchResult>)
    requires p.name.Some?
    ensures |r| == |ts|
    ensures forall i :: 0 <= i < |ts| ==> r[i] == TaskResult(p, ts[i])
  {
    seq(|ts|, i requires 0 <= i < |ts| => TaskResult(p, ts[i]))
  }

  /** The hits of one project: its own first (if it matches), then its matching tasks in task order. */
  function ProjectHits(p: Project, query: string): (r: seq<SearchResult>)
    requires p.name.Some?
  {
    OwnHit(p, query) + TaskHits(p, MatchingTasks(p, query))
  }

  /** The `forEach` over the projects, before the cut to ten. */
  function Collect(projects: seq<Project>, query: string): seq<SearchResult>
    requires AllNamed(projects)
    decreases |projects|
  {
    if |projects| == 0 then [] else ProjectHits(projects[0], query) + Collect(projects[1..], query)
  }

  datatype SearchView = SearchView(results: seq<SearchResult>, dropdown: bool)

  /** The search effect: nothing for a blank query, otherwise the first ten hits; the dropdown opens if there was any hit. */
  function Search(projects: seq<Project>, query: string): (r: SearchView)
    requires !IsBlank(query) ==> AllNamed(projects)
    ensures IsBlank(query) ==> r == SearchView([], false)
    ensures !IsBlank(query) ==> (r.dropdown <==> |Collect(projects, Lower(query))| > 0)
    ensures !IsBlank(query) ==> |r.results| == Min(10, |Collect(projects, Lower(query))|)
    ensures !IsBlank(query) ==> r.results == Collect(projects, Lower(query))[..Min(10, |Collect(projects, Lower(query))|)]
  {
    if IsBlank(query) then SearchView([], false)
    else
      var all := Collect(projects, Lower(query));
      SearchView(Take(all, 10), |all| > 0)
  }

  /** Store order: the hits of earlier projects come first. */
  lemma {:induction false} CollectAppend(a: seq<Project>, b: seq<Project>, query: string)
    requires AllNamed(a) && AllNamed(b)
    ensures AllNamed(a + b)
    ensures Collect(a + b, query) == Collect(a, query) + Collect(b, query)
    decreases |a|
  {
    if |a| == 0 {
      assert a + b == b;
    } else {
      var rest := a[1..];
      assert a == [a[0]] + rest;
      assert (a + b)[1..] == rest + b;
      CollectAppend(rest, b, query);
    }
  }

  /** Within one project, the project's own hit comes before every task hit. */
  lemma ProjectBeforeItsTasks(p: Project, query: string)
    requires p.name.Some?
    ensures ProjectMatches(p, query) <==> |ProjectHits(p, query)| > 0 && ProjectHits(p, query)[0].kind == ProjectHit
    ensures forall i :: 0 < i < |ProjectHits(p, query)| ==> ProjectHits(p, query)[i].kind == TaskHit
  {
    var own := OwnHit(p, query);
    var tail := TaskHits(p, MatchingTasks(p, query));
    assert forall i :: 0 <= i < |tail| ==> tail[i].kind == TaskHit;
    assert forall i :: |own| <= i < |own| + |tail| ==> ProjectHits(p, query)[i] == tail[i - |own|];
  }

  /** A hit is sound: a project hit names a matching project and links to it, a task hit a matching task of a project and links to both. */
  predicate Sound(projects: seq<Project>, query: string, r: SearchResult) {
    exists i :: 0 <= i < |projects| && projects[i].name.Some? &&
      ((r.kind == ProjectHit && ProjectMatches(projects[i], query) && r == ProjectResult(projects[i])) ||
       (r.kind == TaskHit && projects[i].tasks.Some? &&
          exists t :: t in projects[i].tasks.value && TaskMatches(t, query) && r == TaskResult(projects[i], t)))
  }

  lemma ProjectHitsSound(p: Project, query: string, r: SearchResult)
    requires p.name.Some?
    requires r in ProjectHits(p, query)
    ensures Sound([p], query, r)
  {
    var own := OwnHit(p, query);
    var ts := MatchingTasks(p, query);
    var tail := TaskHits(p, ts);
    assert [p][0] == p;
    if r !in own {
      assert r in tail;
      var j :| 0 <= j < |tail| && tail[j] == r;
      assert ts[j] in ts;
    }
  }

  lemma {:induction false} CollectSound(projects: seq<Project>, query: string, r: SearchResult)
    requires AllNamed(projects)
    requires r in Collect(projects, query)
    ensures Sound(projects, query, r)
    decreases |projects|
  {
    var p := projects[0];
    if r in ProjectHits(p, query) {
      ProjectHitsSound(p, query, r);
      assert [p][0] == projects[0];
    } else {
      CollectSound(projects[1..], query, r);
      var i :| 0 <= i < |projects[1..]| && projects[1..][i].name.Some? &&
        ((r.kind == ProjectHit && ProjectMatches(projects[1..][i], query) && r == ProjectResult(projects[1..][i])) ||
         (r.kind == TaskHit && projects[1..][i].tasks.Some? &&
            exists t :: t in projects[1..][i].tasks.value && TaskMatches(t, query) && r == TaskResult(projects[1..][i], t)));
      assert projects[i + 1] == projects[1..][i];
    }
  }

  /** Conversely, every matching project and every matching task of a project is collected. */
  lemma {:induction false} CollectComplete(projects: seq<Project>, query: string, i: int, t: Task)
    requires AllNamed(projects)
    requires 0 <= i < |projects|
    ensures ProjectMatches(projects[i], query) ==> ProjectResult(projects[i]) in Collect(projects, query)
    ensures projects[i].tasks.Some? && t in projects[i].tasks.value && TaskMatches(t, query) ==>
      TaskResult(projects[i], t) in Collect(projects, query)
    decreases |projects|
  {
    var p := projects[0];
    if i == 0 {
      var own := OwnHit(p, query);
      var ts := MatchingTasks(p, query);
      if p.tasks.Some? && t in p.tasks.value && TaskMatches(t, query) {
        assert t in ts;
        var j :| 0 <= j < |ts| && ts[j] == t;
        assert TaskHits(p, ts)[j] == TaskResult(p, t);
      }
    } else {
      CollectComplete(projects[1..], query, i - 1, t);
      assert projects[1..][i - 1] == projects[i];
    }
  }

  /** Every shown result is sound and its link is the route of what it names. */
  lemma SearchResultsSound(projects: seq<Project>, query: string, r: SearchResult)
    requires AllNamed(projects)
    requires r in Search(projects, query).results
    ensures Sound(projects, Lower(query), r)
  {
    CollectSound(projects, Lower(query), r);
  }

  // ---------------------------------------------------------------------------
  // Notifications

  function MarkIfId(id: Key): Notification -> bool {
    (n: Notification) => n.oid == id
  }

  function MarkRead(): Notification -> Notification {
    (n: Notification) => n.(read := true)
  }

  function CountUnread(ns: seq<Notification>): nat {
    Count(ns, (n: Notification) => !n.read)
  }

  datatype Inbox = Inbox(notifications: seq<Notification>, unreadCount: int)

  /** `markAsRead` as written: marks the notifications with that id and lowers the count by one, never below zero, whether or not they were unread. */
  function MarkAsRead(box: Inbox, id: Key): (r: Inbox)
    ensures |r.notifications| == |box.notifications|
    ensures forall i :: 0 <= i < |box.notifications| ==>
      r.notifications[i] == if box.notifications[i].oid == id then box.notifications[i].(read := true) else box.notifications[i]
    ensures r.unreadCount == if box.unreadCount - 1 < 0 then 0 else box.unreadCount - 1
  {
    Inbox(MapWhere(box.notifications, MarkIfId(id), MarkRead()),
      if box.unreadCount - 1 < 0 then 0 else box.unreadCount - 1)
  }

  /** `markAllAsRead`: everything read and the count reset. */
  function MarkAllAsRead(box: Inbox): (r: Inbox)
    ensures |r.notifications| == |box.notifications|
    ensures forall i :: 0 <= i < |r.notifications| ==> r.notifications[i] == box.notifications[i].(read := true)
    ensures CountUnread(r.notifications) == 0 && r.unreadCount == 0
  {
    var ns := MapWhere(box.notifications, (n: Notification) => true, MarkRead());
    FilterNone(ns, (n: Notification) => !n.read);
    Inbox(ns, 0)
  }

  /** The badge: hidden at zero, the number up to nine, "9+" above. */
  function Badge(unreadCount: int): (r: Option<string>)
    ensures r.None? <==> unreadCount <= 0
    ensures r == Some("9+") <==> unreadCount > 9
    ensures 0 < unreadCount <= 9 ==> r == Some(ShowNat(unreadCount))
  {
    if unreadCount <= 0 then None
    else if unreadCount > 9 then Some("9+")
    else
      assert |ShowNat(unreadCount)| == 1;
      Some(ShowNat(unreadCount))
  }

  /** The badge is in step with the list: the count is the number of unread notifications. */
  ghost predicate InStep(box: Inbox) {
    box.unreadCount == CountUnread(box.notifications)
  }

  /** Clicking a notification that is already read still lowers the count: the badge falls out of step. */
  lemma ReadClickMiscounts()
    ensures
      var read := Notification(Str("a"), "t", "m", true, None);
      var unread := Notification(Str("b"), "t", "m", false, None);
      var box := Inbox([read, unread], 1);
      InStep(box) && !InStep(MarkAsRead(box, Str("a")))
  {
    var read := Notification(Str("a"), "t", "m", true, None);
    var unread := Notification(Str("b"), "t", "m", false, None);
    var box := Inbox([read, unread], 1);
    var unreadOnly := (n: Notification) => !n.read;
    assert [read, unread][1..] == [unread];
    assert [unread][1..] == [];
    assert Filter([read, unread], unreadOnly) == [unread];
    var after := MarkAsRead(box, Str("a"));
    assert after.notifications == [read, unread];
  }

  /** Notification ids are pairwise different. */
  ghost predicate DistinctIds(ns: seq<Notification>) {
    forall i, j :: 0 <= i < j < |ns| ==> ns[i].oid != ns[j].oid
  }

  /** Some notification with this id is still unread. */
  ghost predicate HasUnread(ns: seq<Notification>, id: Key) {
    exists i :: 0 <= i < |ns| && ns[i].oid == id && !ns[i].read
  }

  /** The unread count splits into the head and the rest. */
  lemma UnreadCons(ns: seq<Notification>)
    requires |ns| > 0
    ensures CountUnread(ns) == (if ns[0].read then 0 else 1) + CountUnread(ns[1..])
  {
  }

  /** An unread notification with this id is the head or lies in the rest. */
  lemma HasUnreadCons(ns: seq<Notification>, id: Key)
    requires |ns| > 0
    ensures HasUnread(ns, id) <==> (ns[0].oid == id && !ns[0].read) || HasUnread(ns[1..], id)
  {
    var rest := ns[1..];
    if HasUnread(rest, id) {
      var i :| 0 <= i < |rest| && rest[i].oid == id && !rest[i].read;
      assert ns[i + 1] == rest[i];
    }
    if HasUnread(ns, id) && !(ns[0].oid == id && !ns[0].read) {
      var i :| 0 <= i < |ns| && ns[i].oid == id && !ns[i].read;
      assert rest[i - 1] == ns[i];
    }
  }

  /** With distinct ids, the rest holds no notification with the head's id. */
  lemma DistinctRest(ns: seq<Notification>)
    requires |ns| > 0 && DistinctIds(ns)
    ensures DistinctIds(ns[1..])
    ensures !HasUnread(ns[1..], ns[0].oid)
  {
    var rest := ns[1..];
    forall i | 0 <= i < |rest| ensures rest[i].oid != ns[0].oid {
      assert ns[i + 1] == rest[i];
    }
  }

  /** Marking at most one notification read lowers the unread count by one exactly when it was unread. */
  lemma {:induction false} MarkOneCount(ns: seq<Notification>, id: Key)
    requires DistinctIds(ns)
    ensures CountUnread(MapWhere(ns, MarkIfId(id), MarkRead())) ==
      CountUnread(ns) - (if HasUnread(ns, id) then 1 else 0)
    decreases |ns|
  {
    if |ns| > 0 {
      var rest := ns[1..];
      var m := MapWhere(ns, MarkIfId(id), MarkRead());
      assert m[1..] == MapWhere(rest, MarkIfId(id), MarkRead());
      DistinctRest(ns);
      MarkOneCount(rest, id);
      UnreadCons(m);
      UnreadCons(ns);
      HasUnreadCons(ns, id);
    }
  }

  /**
    Corrected: lower the count only when a notification with that id was
    unread. With distinct ids this keeps the badge in step with the list.
  */
  function MarkAsReadCounted(box: Inbox, id: Key): (r: Inbox)
    ensures r.notifications == MarkAsRead(box, id).notifications
    ensures r.unreadCount <= box.unreadCount
    ensures DistinctIds(box.notifications) && InStep(box) ==> InStep(r)
  {
    var wasUnread := exists i :: 0 <= i < |box.notifications| && box.notifications[i].oid == id && !box.notifications[i].read;
    var r := Inbox(MapWhere(box.notifications, MarkIfId(id), MarkRead()),
      if wasUnread then box.unreadCount - 1 else box.unreadCount);
    assert DistinctIds(box.notifications) && InStep(box) ==> InStep(r) by {
      if DistinctIds(box.notifications) {
        MarkOneCount(box.notifications, id);
      }
    }
    r
  }
}
