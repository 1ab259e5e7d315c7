/**
  The dashboard's task summary (`src/components/TasksSummary.jsx`): every
  task of every project, tagged with the project's `id` field, split into
  three cards. Each card shows its full count, at most three tasks and a
  "View N more" button for the rest. Unlike the "my tasks" page, the
  current user's tasks are found through `assigneeId` with strict equality.
*/
module TasksSummary {
  import opened Base
  import opened Seqs
  import opened Entities

  /** `{ ...task, projectId: project.id }`: the `id` field, which may be missing. */
  datatype SummaryTask = SummaryTask(task: Task, projectId: Option<Key>)

  /** Every project carries a task list; the summary reads `project.tasks.map` without a check. */
  ghost predicate AllHaveTasks(projects: seq<Project>) {
    forall i :: 0 <= i < |projects| ==> projects[i].tasks.Some?
  }

  function Tag(p: Project): (r: seq<SummaryTask>)
    requires p.tasks.Some?
    ensures |r| == |p.tasks.value|
    ensures forall k :: 0 <= k < |r| ==> r[k] == SummaryTask(p.tasks.value[k], p.id)
  {
    seq(|p.tasks.value|, k requires 0 <= k < |p.tasks.value| => SummaryTask(p.tasks.value[k], p.id))
  }

  /** `allTasks`: the projects' tasks concatenated in store order. */
  function AllTasks(projects: seq<Project>): (r: seq<SummaryTask>)
    requires AllHaveTasks(projects)
    decreases |projects|
  {
    if |projects| == 0 then [] else Tag(projects[0]) + AllTasks(projects[1..])
  }

  /** The summary's task count is the sum of the projects' task counts, and project order is kept. */
  lemma {:induction false} AllTasksAppend(a: seq<Project>, b: seq<Project>)
    requires AllHaveTasks(a) && AllHaveTasks(b)
    ensures AllHaveTasks(a + b)
    ensures AllTasks(a + b) == AllTasks(a) + AllTasks(b)
    decreases |a|
  {
    if |a| == 0 {
      assert a + b == b;
    } else {
      assert (a + b)[1..] == a[1..] + b;
      AllTasksAppend(a[1..], b);
    }
  }

  /** A summary entry is a task of some project, tagged with that project's `id`. */
  lemma {:induction false} AllTasksMembers(projects: seq<Project>, s: SummaryTask)
    requires AllHaveTasks(projects)
    ensures s in AllTasks(projects) <==>
      exists i :: 0 <= i < |projects| && s.task in projects[i].tasks.value && s.projectId == projects[i].id
    decreases |projects|
  {
    if |projects| > 0 {
      var rest := projects[1..];
      AllTasksMembers(rest, s);
      var p := projects[0];
      if s in Tag(p) {
        var k :| 0 <= k < |Tag(p)| && Tag(p)[k] == s;
        assert p.tasks.value[k] in p.tasks.value;
      }
      if s.task in p.tasks.value && s.projectId == p.id {
        var k :| 0 <= k < |p.tasks.value| && p.tasks.value[k] == s.task;
        assert Tag(p)[k] == s;
      }
      if exists i :: 0 <= i < |rest| && s.task in rest[i].tasks.value && s.projectId == rest[i].id {
        var i :| 0 <= i < |rest| && s.task in rest[i].tasks.value && s.projectId == rest[i].id;
        assert projects[i + 1] == rest[i];
      }
      if exists i :: 0 <= i < |projects| && s.task in projects[i].tasks.value && s.projectId == projects[i].id {
        var i :| 0 <= i < |projects| && s.task in projects[i].tasks.value && s.projectId == projects[i].id;
        if i > 0 {
          assert rest[i - 1] == projects[i];
        }
      }
    }
  }

  /** `currentUser?.id`: missing when nobody is signed in. */
  function CurrentUserId(user: Option<User>): Option<Key> {
    if user.None? then None else user.value.id
  }

  function AssignedTo(id: Option<Key>): SummaryTask -> bool {
    (s: SummaryTask) => s.task.assigneeId == id
  }

  function OverdueAt(now: int): SummaryTask -> bool {
    (s: SummaryTask) => Overdue(s.task, now)
  }

  function InProgress(): SummaryTask -> bool {
    (s: SummaryTask) => s.task.status == "IN_PROGRESS"
  }

  /** One card: its full count, the tasks it shows, and the number behind "View N more" if the button is shown. */
  datatype Card = Card(title: string, count: nat, items: seq<SummaryTask>, more: Option<nat>)

  function MakeCard(title: string, tasks: seq<SummaryTask>): (c: Card)
    ensures c.count == |tasks|
    ensures |c.items| == Min(3, |tasks|) && c.items == tasks[..|c.items|]
    ensures c.more.Some? <==> c.count > 3
    ensures c.more.Some? ==> c.count == 3 + c.more.value
  {
    Card(title, |tasks|, Take(tasks, 3), if |tasks| > 3 then Some(|tasks| - 3) else None)
  }

  /**
    The three cards, in display order: each counts every task that meets its
    condition and shows the first three of them in store order.
  */
  function SummaryCards(projects: seq<Project>, user: Option<User>, now: int): (r: seq<Card>)
    requires AllHaveTasks(projects)
    ensures |r| == 3
    ensures r[0].title == "My Tasks" && r[1].title == "Overdue" && r[2].title == "In Progress"
    ensures r[0].count == Count(AllTasks(projects), AssignedTo(CurrentUserId(user)))
    ensures r[1].count == Count(AllTasks(projects), OverdueAt(now))
    ensures r[2].count == Count(AllTasks(projects), InProgress())
    ensures r[0].items == Filter(AllTasks(projects), AssignedTo(CurrentUserId(user)))[..Min(3, r[0].count)]
    ensures r[1].items == Filter(AllTasks(projects), OverdueAt(now))[..Min(3, r[1].count)]
    ensures r[2].items == Filter(AllTasks(projects), InProgress())[..Min(3, r[2].count)]
    ensures forall k :: 0 <= k < 3 ==> (r[k].more.Some? <==> r[k].count > 3)
    ensures forall s :: s in r[0].items ==> s in AllTasks(projects) && s.task.assigneeId == CurrentUserId(user)
    ensures forall s :: s in r[1].items ==> s in AllTasks(projects) && Overdue(s.task, now)
    ensures forall s :: s in r[2].items ==> s in AllTasks(projects) && s.task.status == "IN_PROGRESS"
  {
    var all := AllTasks(projects);
    forall f: SummaryTask -> bool, s | s in Take(Filter(all, f), 3)
      ensures s in Filter(all, f)
    {
    }
    [MakeCard("My Tasks", Filter(all, AssignedTo(CurrentUserId(user)))),
     MakeCard("Overdue", Filter(all, OverdueAt(now))),
     MakeCard("In Progress", Filter(all, InProgress()))]
  }

  /** Signed out, the "My Tasks" card collects exactly the tasks without an `assigneeId`. */
  lemma SignedOutMatchesUnassigned(projects: seq<Project>, s: SummaryTask)
    requires AllHaveTasks(projects)
    requires s in AllTasks(projects)
    ensures s in Filter(AllTasks(projects), AssignedTo(CurrentUserId(None))) <==> s.task.assigneeId.None?
  {
  }
}
