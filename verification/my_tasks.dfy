/**
  The "my tasks" page (`src/pages/MyTasks.jsx`): the tasks of every project
  that are assigned to the signed-in user, tagged with their project, a
  status filter and the four stat cards. The same extraction is repeated
  verbatim in `src/components/MyTasksSidebar.jsx`, which imports it from
  here.
*/
module MyTasks {
  import opened Base
  import opened Seqs
  import opened Entities

  /** `{ ...task, projectId: project._id, projectName: project.name }`. */
  datatype MyTask = MyTask(task: Task, projectId: Key, projectName: Option<string>)

  /**
    `assigneeId?.toString() === user._id?.toString()`, after the falsy check:
    a populated assignee contributes its `_id`, a bare id itself. Two missing
    ids compare equal (`undefined === undefined`).
  */
  predicate AssignedTo(t: Task, user: User) {
    match t.assignee
    case Unassigned => false
    case Ref(k) => Truthy(k) && Some(Norm(k)) == NormMaybe(user.oid)
    case Populated(u) => NormMaybe(u.oid) == NormMaybe(user.oid)
  }

  function AssignedToUser(user: User): Task -> bool {
    (t: Task) => AssignedTo(t, user)
  }

  /** The tasks of tagged entries, tags removed. */
  function Untag(ms: seq<MyTask>): (r: seq<Task>)
    ensures |r| == |ms| && forall i :: 0 <= i < |ms| ==> r[i] == ms[i].task
  {
    seq(|ms|, i requires 0 <= i < |ms| => ms[i].task)
  }

  /**
    The assigned tasks of one project, in project order, tagged with it:
    untagged, they are the project's tasks with the unassigned ones dropped.
  */
  function TaggedTasks(p: Project, user: User): (r: seq<MyTask>)
    ensures p.tasks.None? ==> r == []
    ensures forall i :: 0 <= i < |r| ==> r[i].projectId == p.oid && r[i].projectName == p.name
    ensures forall i :: 0 <= i < |r| ==> AssignedTo(r[i].task, user)
    ensures p.tasks.Some? ==> |r| == Count(p.tasks.value, AssignedToUser(user))
    ensures p.tasks.Some? ==> IsSubseq(Untag(r), p.tasks.value)
    ensures p.tasks.Some? ==> forall t :: multiset(Untag(r))[t] == if AssignedTo(t, user) then multiset(p.tasks.value)[t] else 0
  {
    match p.tasks
    case None => []
    case Some(ts) =>
      var mine := Filter(ts, AssignedToUser(user));
      var r := seq(|mine|, i requires 0 <= i < |mine| => MyTask(mine[i], p.oid, p.name));
      FilterKeepsOrder(ts, AssignedToUser(user));
      assert Untag(r) == mine;
      forall i | 0 <= i < |r|
        ensures AssignedTo(r[i].task, user)
      {
        assert mine[i] in mine;
      }
      r
  }

  function Extract(projects: seq<Project>, user: User): seq<MyTask>
    decreases |projects|
  {
    if |projects| == 0 then [] else TaggedTasks(projects[0], user) + Extract(projects[1..], user)
  }

  /** The `myTasks` memo: nothing without a user, otherwise every project's tagged tasks in store order. */
  function MyTasksOf(projects: seq<Project>, user: Option<User>): (r: seq<MyTask>)
    ensures user.None? ==> r == []
    ensures user.Some? ==> r == Extract(projects, user.value)
  {
    if user.None? then [] else Extract(projects, user.value)
  }

  /** Order: the tasks of earlier projects come first. */
  lemma {:induction false} ExtractAppend(a: seq<Project>, b: seq<Project>, user: User)
    ensures Extract(a + b, user) == Extract(a, user) + Extract(b, user)
    decreases |a|
  {
    if |a| == 0 {
      assert a + b == b;
    } else {
      assert (a + b)[1..] == a[1..] + b;
      ExtractAppend(a[1..], b, user);
    }
  }

  /** One project contributes exactly its assigned tasks, in project order, each tagged with that project. */
  lemma OneProject(p: Project, user: User)
    ensures Extract([p], user) == TaggedTasks(p, user)
  {
    assert [p][1..] == [];
  }

  /** `m` is a task of `p` assigned to the user, tagged with `p`. */
  predicate HeldBy(p: Project, user: User, m: MyTask) {
    p.tasks.Some? && m.task in p.tasks.value && AssignedTo(m.task, user) &&
    m.projectId == p.oid && m.projectName == p.name
  }

  /** One project's contribution is exactly its assigned tasks, tagged with it. */
  lemma TaggedMembers(p: Project, user: User, m: MyTask)
    ensures m in TaggedTasks(p, user) <==> HeldBy(p, user, m)
  {
    if p.tasks.Some? {
      var mine := Filter(p.tasks.value, AssignedToUser(user));
      if m in TaggedTasks(p, user) {
        var k :| 0 <= k < |mine| && TaggedTasks(p, user)[k] == m;
        assert mine[k] in mine;
      }
      if HeldBy(p, user, m) {
        assert m.task in mine;
        var k :| 0 <= k < |mine| && mine[k] == m.task;
        assert TaggedTasks(p, user)[k] == m;
      }
    }
  }

  /** A task appears exactly when some project holding it has it assigned to the user; the tag names that project. */
  lemma {:induction false} ExtractMembers(projects: seq<Project>, user: User, m: MyTask)
    ensures m in Extract(projects, user) <==> exists i :: 0 <= i < |projects| && HeldBy(projects[i], user, m)
    decreases |projects|
  {
    if |projects| > 0 {
      var rest := projects[1..];
      TaggedMembers(projects[0], user, m);
      ExtractMembers(rest, user, m);
      if exists i :: 0 <= i < |rest| && HeldBy(rest[i], user, m) {
        var i :| 0 <= i < |rest| && HeldBy(rest[i], user, m);
        assert projects[i + 1] == rest[i];
      }
      if exists i :: 0 <= i < |projects| && HeldBy(projects[i], user, m) {
        var i :| 0 <= i < |projects| && HeldBy(projects[i], user, m);
        if i > 0 {
          assert rest[i - 1] == projects[i];
        }
      }
    }
  }

  function StatusIs(status: string): MyTask -> bool {
    (m: MyTask) => m.task.status == status
  }

  /** The status drop-down: "ALL" shows every task, any other value exactly the tasks with that status. */
  function FilterByStatus(tasks: seq<MyTask>, filter: string): (r: seq<MyTask>)
    ensures filter == "ALL" ==> r == tasks
    ensures filter != "ALL" ==> forall m :: m in r <==> m in tasks && m.task.status == filter
    ensures IsSubseq(r, tasks)
    ensures filter != "ALL" ==> forall m :: multiset(r)[m] == if m.task.status == filter then multiset(tasks)[m] else 0
  {
    FilterKeepsOrder(tasks, StatusIs(filter));
    if filter == "ALL" then
      IsSubseqRefl(tasks);
      tasks
    else Filter(tasks, StatusIs(filter))
  }

  datatype StatusCounts = StatusCounts(total: nat, todo: nat, inProgress: nat, completed: nat)

  /** The four stat cards (and the sidebar's `taskCounts`): total and the three status counts. */
  function CountStatuses(tasks: seq<MyTask>): (r: StatusCounts)
    ensures r.total == |tasks|
    ensures r.todo == Count(tasks, StatusIs("TODO"))
    ensures r.inProgress == Count(tasks, StatusIs("IN_PROGRESS"))
    ensures r.completed == Count(tasks, StatusIs("COMPLETED"))
    ensures r.todo + r.inProgress + r.completed <= r.total
  {
    CountThreeBound(tasks, StatusIs("TODO"), StatusIs("IN_PROGRESS"), StatusIs("COMPLETED"));
    StatusCounts(|tasks|, Count(tasks, StatusIs("TODO")), Count(tasks, StatusIs("IN_PROGRESS")), Count(tasks, StatusIs("COMPLETED")))
  }

  /** Each status card counts what its filter shows. */
  lemma CardsMatchFilters(tasks: seq<MyTask>)
    ensures CountStatuses(tasks).todo == |FilterByStatus(tasks, "TODO")|
    ensures CountStatuses(tasks).inProgress == |FilterByStatus(tasks, "IN_PROGRESS")|
    ensures CountStatuses(tasks).completed == |FilterByStatus(tasks, "COMPLETED")|
    ensures CountStatuses(tasks).total == |FilterByStatus(tasks, "ALL")|
  {
  }
}
