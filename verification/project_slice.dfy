/**
  The project store (`src/features/projectSlice.js`): a list of projects,
  each holding its own tasks and members, plus a `loading` flag and an
  `error` value. Every reducer is a total function from state to state.
  Identifiers are compared after `String(...)` coercion, the nested
  reducers act on the first project (and first task) with a matching id
  only, and a missing target leaves the state as it was.
*/
module ProjectSlice {
  import opened Base
  import opened Seqs
  import opened Entities

  datatype State = State(projects: seq<Project>, loading: bool, error: Option<string>)

  const Initial := State([], false, None)

  // ---------------------------------------------------------------------------
  // Identity and lookup

  function ProjectIs(k: Key): Project -> bool {
    (p: Project) => SameId(p.oid, k)
  }

  function ProjectOtherThan(k: Key): Project -> bool {
    (p: Project) => !SameId(p.oid, k)
  }

  function TaskIs(k: Key): Task -> bool {
    (t: Task) => SameId(t.oid, k)
  }

  function TaskOtherThan(k: Key): Task -> bool {
    (t: Task) => !SameId(t.oid, k)
  }

  /** A member is matched through the id of its embedded user: `String(m.user._id)`. */
  function MemberOtherThan(userId: Key): Member -> bool {
    (m: Member) => NormOpt(m.user.oid) != Norm(userId)
  }

  function AttachmentOtherThan(k: Key): Attachment -> bool {
    (a: Attachment) => !SameId(a.oid, k)
  }

  /** `i` is where `projects.find(p => String(p._id) === String(k))` stops. */
  ghost predicate IsFirstProject(ps: seq<Project>, k: Key, i: int) {
    0 <= i < |ps| && SameId(ps[i].oid, k) && forall j :: 0 <= j < i ==> !SameId(ps[j].oid, k)
  }

  ghost predicate NoProject(ps: seq<Project>, k: Key) {
    forall j :: 0 <= j < |ps| ==> !SameId(ps[j].oid, k)
  }

  /** `i` is where `tasks.find(t => String(t._id) === String(k))` stops. */
  ghost predicate IsFirstTask(ts: seq<Task>, k: Key, i: int) {
    0 <= i < |ts| && SameId(ts[i].oid, k) && forall j :: 0 <= j < i ==> !SameId(ts[j].oid, k)
  }

  ghost predicate NoTask(ts: seq<Task>, k: Key) {
    forall j :: 0 <= j < |ts| ==> !SameId(ts[j].oid, k)
  }

  /** `a` and `b` have the same length and agree everywhere except possibly at `i`. */
  ghost predicate OnlyAt<T>(a: seq<T>, b: seq<T>, i: int) {
    |a| == |b| && forall j :: 0 <= j < |a| && j != i ==> a[j] == b[j]
  }

  /** No two projects share an identifier after coercion. */
  ghost predicate UniqueIds(ps: seq<Project>) {
    forall i, j :: 0 <= i < j < |ps| ==> !SameId(ps[i].oid, ps[j].oid)
  }

  function ProjectIndex(ps: seq<Project>, k: Key): (r: Option<nat>)
    ensures r.None? <==> NoProject(ps, k)
    ensures r.Some? ==> IsFirstProject(ps, k, r.value)
    ensures forall i :: IsFirstProject(ps, k, i) ==> r == Some(i)
  {
    FirstIndex(ps, ProjectIs(k))
  }

  function TaskIndex(ts: seq<Task>, k: Key): (r: Option<nat>)
    ensures r.None? <==> NoTask(ts, k)
    ensures r.Some? ==> IsFirstTask(ts, k, r.value)
    ensures forall i :: IsFirstTask(ts, k, i) ==> r == Some(i)
  {
    FirstIndex(ts, TaskIs(k))
  }

  function TasksOf(p: Project): seq<Task> {
    p.tasks.GetOr([])
  }

  function MembersOf(p: Project): seq<Member> {
    p.members.GetOr([])
  }

  // ---------------------------------------------------------------------------
  // Flags and the project list

  function SetLoading(st: State, loading: bool): (r: State)
    ensures r.loading == loading
    ensures r.projects == st.projects && r.error == st.error
  {
    st.(loading := loading)
  }

  function SetError(st: State, error: Option<string>): (r: State)
    ensures r.error == error && !r.loading
    ensures r.projects == st.projects
  {
    st.(error := error, loading := false)
  }

  function SetProjects(st: State, projects: seq<Project>): (r: State)
    ensures r.projects == projects
    ensures !r.loading && r.error.None?
  {
    State(projects, false, None)
  }

  /** `unshift`: the new project comes first; there is no duplicate check. */
  function AddProject(st: State, p: Project): (r: State)
    ensures |r.projects| == |st.projects| + 1
    ensures r.projects[0] == p && r.projects[1..] == st.projects
    ensures !r.loading && r.error == st.error
  {
    st.(projects := [p] + st.projects, loading := false)
  }

  /** Replaces every project whose id matches the payload's. */
  function UpdateProject(st: State, p: Project): (r: State)
    ensures |r.projects| == |st.projects|
    ensures forall i :: 0 <= i < |st.projects| && SameId(st.projects[i].oid, p.oid) ==> r.projects[i] == p
    ensures forall i :: 0 <= i < |st.projects| && !SameId(st.projects[i].oid, p.oid) ==> r.projects[i] == st.projects[i]
    ensures NoProject(st.projects, p.oid) ==> r.projects == st.projects
    ensures !r.loading && r.error == st.error
  {
    st.(projects := MapWhere(st.projects, ProjectIs(p.oid), (_: Project) => p), loading := false)
  }

  /** Removes every project whose id matches. */
  function DeleteProject(st: State, id: Key): (r: State)
    ensures forall q :: q in r.projects <==> q in st.projects && !SameId(q.oid, id)
    ensures |r.projects| <= |st.projects|
    ensures !r.loading && r.error == st.error
  {
    st.(projects := Filter(st.projects, ProjectOtherThan(id)), loading := false)
  }

  /** Replaces the first project whose id matches, and only that one; never adds a project. */
  function UpdateSingleProject(st: State, p: Project): (r: State)
    ensures r.loading == st.loading && r.error == st.error
    ensures NoProject(st.projects, p.oid) ==> r == st
    ensures forall i :: IsFirstProject(st.projects, p.oid, i) ==>
      OnlyAt(st.projects, r.projects, i) && r.projects[i] == p
  {
    match ProjectIndex(st.projects, p.oid)
    case None => st
    case Some(i) => st.(projects := st.projects[i := p])
  }

  // ---------------------------------------------------------------------------
  // Tasks, comments, attachments and members of the first matching project

  /** The project with `task` put in front of its task list, which is created if missing. */
  function PrependTask(p: Project, task: Task): (q: Project)
    ensures q == p.(tasks := q.tasks)
    ensures q.tasks.Some? && |q.tasks.value| == |TasksOf(p)| + 1
    ensures q.tasks.value[0] == task && q.tasks.value[1..] == TasksOf(p)
  {
    p.(tasks := Some([task] + TasksOf(p)))
  }

  function AddTask(st: State, projectId: Key, task: Task): (r: State)
    ensures r.loading == st.loading && r.error == st.error
    ensures NoProject(st.projects, projectId) ==> r == st
    ensures forall i :: IsFirstProject(st.projects, projectId, i) ==>
      OnlyAt(st.projects, r.projects, i) && r.projects[i] == PrependTask(st.projects[i], task)
  {
    match ProjectIndex(st.projects, projectId)
    case None => st
    case Some(i) => st.(projects := st.projects[i := PrependTask(st.projects[i], task)])
  }

  /** The project with its first task of id `taskId` merged with `u`; unchanged if there is none. */
  function MergeTaskIn(p: Project, taskId: Key, u: TaskUpdates): (q: Project)
    ensures q == p.(tasks := q.tasks)
    ensures p.tasks.None? || NoTask(p.tasks.value, taskId) ==> q == p
    ensures p.tasks.Some? ==> q.tasks.Some? && |q.tasks.value| == |p.tasks.value|
    ensures p.tasks.Some? ==> forall k :: IsFirstTask(p.tasks.value, taskId, k) ==>
      OnlyAt(p.tasks.value, q.tasks.value, k) && q.tasks.value[k] == Merge(p.tasks.value[k], u)
  {
    match p.tasks
    case None => p
    case Some(ts) =>
      match TaskIndex(ts, taskId)
      case None => p
      case Some(k) => p.(tasks := Some(ts[k := Merge(ts[k], u)]))
  }

  function UpdateTask(st: State, projectId: Key, taskId: Key, u: TaskUpdates): (r: State)
    ensures r.loading == st.loading && r.error == st.error
    ensures NoProject(st.projects, projectId) ==> r == st
    ensures forall i :: IsFirstProject(st.projects, projectId, i) ==>
      OnlyAt(st.projects, r.projects, i) && r.projects[i] == MergeTaskIn(st.projects[i], taskId, u)
  {
    match ProjectIndex(st.projects, projectId)
    case None => st
    case Some(i) => st.(projects := st.projects[i := MergeTaskIn(st.projects[i], taskId, u)])
  }

  /** The project without the tasks of id `taskId`; unchanged if it has no task list. */
  function DropTasks(p: Project, taskId: Key): (q: Project)
    ensures q == p.(tasks := q.tasks)
    ensures p.tasks.None? ==> q == p
    ensures p.tasks.Some? ==> q.tasks.Some?
    ensures p.tasks.Some? ==> forall t :: t in q.tasks.value <==> t in p.tasks.value && !SameId(t.oid, taskId)
    ensures p.tasks.Some? ==> IsSubseq(q.tasks.value, p.tasks.value)
    ensures p.tasks.Some? ==> forall t :: multiset(q.tasks.value)[t] == if SameId(t.oid, taskId) then 0 else multiset(p.tasks.value)[t]
  {
    match p.tasks
    case None => p
    case Some(ts) =>
      FilterKeepsOrder(ts, TaskOtherThan(taskId));
      p.(tasks := Some(Filter(ts, TaskOtherThan(taskId))))
  }

  function DeleteTask(st: State, projectId: Key, taskId: Key): (r: State)
    ensures r.loading == st.loading && r.error == st.error
    ensures NoProject(st.projects, projectId) ==> r == st
    ensures forall i :: IsFirstProject(st.projects, projectId, i) ==>
      OnlyAt(st.projects, r.projects, i) && r.projects[i] == DropTasks(st.projects[i], taskId)
  {
    match ProjectIndex(st.projects, projectId)
    case None => st
    case Some(i) => st.(projects := st.projects[i := DropTasks(st.projects[i], taskId)])
  }

  /** The task with `c` at the end of its comment list, which is created if missing. */
  function AppendComment(t: Task, c: Comment): (t': Task)
    ensures t' == t.(comments := t'.comments)
    ensures t'.comments.Some? && |t'.comments.value| == |t.comments.GetOr([])| + 1
    ensures t'.comments.value[..|t.comments.GetOr([])|] == t.comments.GetOr([])
    ensures t'.comments.value[|t.comments.GetOr([])|] == c
  {
    t.(comments := Some(t.comments.GetOr([]) + [c]))
  }

  function CommentIn(p: Project, taskId: Key, c: Comment): (q: Project)
    ensures q == p.(tasks := q.tasks)
    ensures p.tasks.None? || NoTask(p.tasks.value, taskId) ==> q == p
    ensures p.tasks.Some? ==> q.tasks.Some? && forall k :: IsFirstTask(p.tasks.value, taskId, k) ==>
      OnlyAt(p.tasks.value, q.tasks.value, k) && q.tasks.value[k] == AppendComment(p.tasks.value[k], c)
  {
    match p.tasks
    case None => p
    case Some(ts) =>
      match TaskIndex(ts, taskId)
      case None => p
      case Some(k) => p.(tasks := Some(ts[k := AppendComment(ts[k], c)]))
  }

  function AddComment(st: State, projectId: Key, taskId: Key, c: Comment): (r: State)
    ensures r.loading == st.loading && r.error == st.error
    ensures NoProject(st.projects, projectId) ==> r == st
    ensures forall i :: IsFirstProject(st.projects, projectId, i) ==>
      OnlyAt(st.projects, r.projects, i) && r.projects[i] == CommentIn(st.projects[i], taskId, c)
  {
    match ProjectIndex(st.projects, projectId)
    case None => st
    case Some(i) => st.(projects := st.projects[i := CommentIn(st.projects[i], taskId, c)])
  }

  /** The project with `m` at the end of its member list, which is created if missing; no duplicate check. */
  function AppendMember(p: Project, m: Member): (q: Project)
    ensures q == p.(members := q.members)
    ensures q.members.Some? && |q.members.value| == |MembersOf(p)| + 1
    ensures q.members.value[..|MembersOf(p)|] == MembersOf(p) && q.members.value[|MembersOf(p)|] == m
  {
    p.(members := Some(MembersOf(p) + [m]))
  }

  function AddProjectMember(st: State, projectId: Key, m: Member): (r: State)
    ensures r.loading == st.loading && r.error == st.error
    ensures NoProject(st.projects, projectId) ==> r == st
    ensures forall i :: IsFirstProject(st.projects, projectId, i) ==>
      OnlyAt(st.projects, r.projects, i) && r.projects[i] == AppendMember(st.projects[i], m)
  {
    match ProjectIndex(st.projects, projectId)
    case None => st
    case Some(i) => st.(projects := st.projects[i := AppendMember(st.projects[i], m)])
  }

  /** The project without the members whose user id matches; unchanged if it has no member list. */
  function DropMembers(p: Project, userId: Key): (q: Project)
    ensures q == p.(members := q.members)
    ensures p.members.None? ==> q == p
    ensures p.members.Some? ==> q.members.Some?
    ensures p.members.Some? ==> forall m :: m in q.members.value <==> m in p.members.value && NormOpt(m.user.oid) != Norm(userId)
    ensures p.members.Some? ==> IsSubseq(q.members.value, p.members.value)
    ensures p.members.Some? ==> forall m :: multiset(q.members.value)[m] == if NormOpt(m.user.oid) == Norm(userId) then 0 else multiset(p.members.value)[m]
  {
    match p.members
    case None => p
    case Some(ms) =>
      FilterKeepsOrder(ms, MemberOtherThan(userId));
      p.(members := Some(Filter(ms, MemberOtherThan(userId))))
  }

  function RemoveProjectMember(st: State, projectId: Key, userId: Key): (r: State)
    ensures r.loading == st.loading && r.error == st.error
    ensures NoProject(st.projects, projectId) ==> r == st
    ensures forall i :: IsFirstProject(st.projects, projectId, i) ==>
      OnlyAt(st.projects, r.projects, i) && r.projects[i] == DropMembers(st.projects[i], userId)
  {
    match ProjectIndex(st.projects, projectId)
    case None => st
    case Some(i) => st.(projects := st.projects[i := DropMembers(st.projects[i], userId)])
  }

  /** The task with `a` at the end of its attachment list, which is created if missing. */
  function AppendAttachment(t: Task, a: Attachment): (t': Task)
    ensures t' == t.(attachments := t'.attachments)
    ensures t'.attachments.Some? && |t'.attachments.value| == |t.attachments.GetOr([])| + 1
    ensures t'.attachments.value[..|t.attachments.GetOr([])|] == t.attachments.GetOr([])
    ensures t'.attachments.value[|t.attachments.GetOr([])|] == a
  {
    t.(attachments := Some(t.attachments.GetOr([]) + [a]))
  }

  function AttachmentIn(p: Project, taskId: Key, a: Attachment): (q: Project)
    ensures q == p.(tasks := q.tasks)
    ensures p.tasks.None? || NoTask(p.tasks.value, taskId) ==> q == p
    ensures p.tasks.Some? ==> q.tasks.Some? && forall k :: IsFirstTask(p.tasks.value, taskId, k) ==>
      OnlyAt(p.tasks.value, q.tasks.value, k) && q.tasks.value[k] == AppendAttachment(p.tasks.value[k], a)
  {
    match p.tasks
    case None => p
    case Some(ts) =>
      match TaskIndex(ts, taskId)
      case None => p
      case Some(k) => p.(tasks := Some(ts[k := AppendAttachment(ts[k], a)]))
  }

  function AddAttachment(st: State, projectId: Key, taskId: Key, a: Attachment): (r: State)
    ensures r.loading == st.loading && r.error == st.error
    ensures NoProject(st.projects, projectId) ==> r == st
    ensures forall i :: IsFirstProject(st.projects, projectId, i) ==>
      OnlyAt(st.projects, r.projects, i) && r.projects[i] == AttachmentIn(st.projects[i], taskId, a)
  {
    match ProjectIndex(st.projects, projectId)
    case None => st
    case Some(i) => st.(projects := st.projects[i := AttachmentIn(st.projects[i], taskId, a)])
  }

  /** The task without the attachments of id `attachmentId`; unchanged if it has no attachment list. */
  function DropAttachments(t: Task, attachmentId: Key): (t': Task)
    ensures t' == t.(attachments := t'.attachments)
    ensures t.attachments.None? ==> t' == t
    ensures t.attachments.Some? ==> t'.attachments.Some?
    ensures t.attachments.Some? ==> forall a :: a in t'.attachments.value <==> a in t.attachments.value && !SameId(a.oid, attachmentId)
    ensures t.attachments.Some? ==> IsSubseq(t'.attachments.value, t.attachments.value)
    ensures t.attachments.Some? ==> forall a :: multiset(t'.attachments.value)[a] == if SameId(a.oid, attachmentId) then 0 else multiset(t.attachments.value)[a]
  {
    match t.attachments
    case None => t
    case Some(as_) =>
      FilterKeepsOrder(as_, AttachmentOtherThan(attachmentId));
      t.(attachments := Some(Filter(as_, AttachmentOtherThan(attachmentId))))
  }

  function DetachIn(p: Project, taskId: Key, attachmentId: Key): (q: Project)
    ensures q == p.(tasks := q.tasks)
    ensures p.tasks.None? || NoTask(p.tasks.value, taskId) ==> q == p
    ensures p.tasks.Some? ==> q.tasks.Some? && forall k :: IsFirstTask(p.tasks.value, taskId, k) ==>
      OnlyAt(p.tasks.value, q.tasks.value, k) && q.tasks.value[k] == DropAttachments(p.tasks.value[k], attachmentId)
  {
    match p.tasks
    case None => p
    case Some(ts) =>
      match TaskIndex(ts, taskId)
      case None => p
      case Some(k) => p.(tasks := Some(ts[k := DropAttachments(ts[k], attachmentId)]))
  }

  function RemoveAttachment(st: State, projectId: Key, taskId: Key, attachmentId: Key): (r: State)
    ensures r.loading == st.loading && r.error == st.error
    ensures NoProject(st.projects, projectId) ==> r == st
    ensures forall i :: IsFirstProject(st.projects, projectId, i) ==>
      OnlyAt(st.projects, r.projects, i) && r.projects[i] == DetachIn(st.projects[i], taskId, attachmentId)
  {
    match ProjectIndex(st.projects, projectId)
    case None => st
    case Some(i) => st.(projects := st.projects[i := DetachIn(st.projects[i], taskId, attachmentId)])
  }
}
