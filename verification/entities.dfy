/**
  The records the store holds, as the server sends them. Field names follow
  the JavaScript objects; `oid` stands for the server's `_id` and `id` for
  the separate `id` field that some dashboard widgets read instead.
  Dates are timestamps (`dueDate` is the server's `due_date`, `kind` its
  `type`); status, type, priority and role are kept as the strings the
  server sent, because nothing on the client validates them.
*/
module Entities {
  import opened Base

  /**
    `task.assignee`: missing or null, a bare user id (a string or number that
    may be falsy, such as ""), or a populated user object whose `_id` may be
    missing.
  */
  datatype Assignee = Unassigned | Ref(key: Key) | Populated(user: User)

  /** A user as the authentication layer, the user list and project members carry it. */
  datatype User = User(
    oid: Option<Key>,
    id: Option<Key>,
    name: Option<string>,
    email: Option<string>,
    role: Option<string>,
    isTeamOwner: bool)

  datatype Member = Member(user: User, role: string)

  datatype Comment = Comment(oid: Key, author: Key, content: string, createdAt: int)

  datatype Attachment = Attachment(oid: Key, filename: string, size: int, url: string)

  datatype Task = Task(
    oid: Key,
    id: Option<Key>,
    title: string,
    description: Option<string>,
    status: string,
    kind: string,
    priority: string,
    assignee: Assignee,
    assigneeId: Option<Key>,
    dueDate: Option<int>,
    updatedAt: int,
    comments: Option<seq<Comment>>,
    attachments: Option<seq<Attachment>>)

  datatype Project = Project(
    oid: Key,
    id: Option<Key>,
    name: Option<string>,
    description: Option<string>,
    status: Option<string>,
    priority: Option<string>,
    startDate: Option<string>,
    endDate: Option<string>,
    progress: Option<int>,
    creatorId: Option<Key>,
    members: Option<seq<Member>>,
    tasks: Option<seq<Task>>)

  /** Past due and not done: `due_date && new Date(due_date) < now && status !== "COMPLETED"`. */
  predicate Overdue(t: Task, now: int) {
    t.dueDate.Some? && t.dueDate.value < now && t.status != "COMPLETED"
  }

  datatype Notification = Notification(oid: Key, title: string, message: string, read: bool, link: Option<string>)

  /**
    A partial task, as `updateTask` receives it: a field that is `Some`
    is present in the update object and overrides the task's value.
  */
  datatype TaskUpdates = TaskUpdates(
    oid: Option<Key>,
    id: Option<Option<Key>>,
    title: Option<string>,
    description: Option<Option<string>>,
    status: Option<string>,
    kind: Option<string>,
    priority: Option<string>,
    assignee: Option<Assignee>,
    assigneeId: Option<Option<Key>>,
    dueDate: Option<Option<int>>,
    updatedAt: Option<int>,
    comments: Option<Option<seq<Comment>>>,
    attachments: Option<Option<seq<Attachment>>>)

  /** The update object `{}`. */
  const NoUpdates := TaskUpdates(None, None, None, None, None, None, None, None, None, None, None, None, None)

  /** `{ ...t, ...u }`: every field present in `u` replaces the task's; the rest stay. */
  function Merge(t: Task, u: TaskUpdates): (r: Task)
    ensures u.oid.None? ==> r.oid == t.oid
    ensures u.id.None? ==> r.id == t.id
    ensures u.title.None? ==> r.title == t.title
    ensures u.description.None? ==> r.description == t.description
    ensures u.status.None? ==> r.status == t.status
    ensures u.kind.None? ==> r.kind == t.kind
    ensures u.priority.None? ==> r.priority == t.priority
    ensures u.assignee.None? ==> r.assignee == t.assignee
    ensures u.assigneeId.None? ==> r.assigneeId == t.assigneeId
    ensures u.dueDate.None? ==> r.dueDate == t.dueDate
    ensures u.updatedAt.None? ==> r.updatedAt == t.updatedAt
    ensures u.comments.None? ==> r.comments == t.comments
    ensures u.attachments.None? ==> r.attachments == t.attachments
    ensures u.oid.Some? ==> r.oid == u.oid.value
    ensures u.id.Some? ==> r.id == u.id.value
    ensures u.title.Some? ==> r.title == u.title.value
    ensures u.description.Some? ==> r.description == u.description.value
    ensures u.status.Some? ==> r.status == u.status.value
    ensures u.kind.Some? ==> r.kind == u.kind.value
    ensures u.priority.Some? ==> r.priority == u.priority.value
    ensures u.assignee.Some? ==> r.assignee == u.assignee.value
    ensures u.assigneeId.Some? ==> r.assigneeId == u.assigneeId.value
    ensures u.dueDate.Some? ==> r.dueDate == u.dueDate.value
    ensures u.updatedAt.Some? ==> r.updatedAt == u.updatedAt.value
    ensures u.comments.Some? ==> r.comments == u.comments.value
    ensures u.attachments.Some? ==> r.attachments == u.attachments.value
  {
    Task(
      u.oid.GetOr(t.oid),
      u.id.GetOr(t.id),
      u.title.GetOr(t.title),
      u.description.GetOr(t.description),
      u.status.GetOr(t.status),
      u.kind.GetOr(t.kind),
      u.priority.GetOr(t.priority),
      u.assignee.GetOr(t.assignee),
      u.assigneeId.GetOr(t.assigneeId),
      u.dueDate.GetOr(t.dueDate),
      u.updatedAt.GetOr(t.updatedAt),
      u.comments.GetOr(t.comments),
      u.attachments.GetOr(t.attachments))
  }

  /** `{ ...u1, ...u2 }`: the later update wins field by field. */
  function Combine(u1: TaskUpdates, u2: TaskUpdates): TaskUpdates {
    TaskUpdates(
      if u2.oid.Some? then u2.oid else u1.oid,
      if u2.id.Some? then u2.id else u1.id,
      if u2.title.Some? then u2.title else u1.title,
      if u2.description.Some? then u2.description else u1.description,
      if u2.status.Some? then u2.status else u1.status,
      if u2.kind.Some? then u2.kind else u1.kind,
      if u2.priority.Some? then u2.priority else u1.priority,
      if u2.assignee.Some? then u2.assignee else u1.assignee,
      if u2.assigneeId.Some? then u2.assigneeId else u1.assigneeId,
      if u2.dueDate.Some? then u2.dueDate else u1.dueDate,
      if u2.updatedAt.Some? then u2.updatedAt else u1.updatedAt,
      if u2.comments.Some? then u2.comments else u1.comments,
      if u2.attachments.Some? then u2.attachments else u1.attachments)
  }

  /** Merging nothing leaves a task as it was. */
  lemma MergeNothing(t: Task)
    ensures Merge(t, NoUpdates) == t
  {
  }

  /** Two successive merges are one merge of the combined update: the later value of each field wins. */
  lemma MergeTwice(t: Task, u1: TaskUpdates, u2: TaskUpdates)
    ensures Merge(Merge(t, u1), u2) == Merge(t, Combine(u1, u2))
  {
  }

  /** Merging the same update twice changes nothing the second time. */
  lemma MergeIdempotent(t: Task, u: TaskUpdates)
    ensures Merge(Merge(t, u), u) == Merge(t, u)
  {
  }
}
