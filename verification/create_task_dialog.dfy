/**
  The new-task dialog (`src/components/CreateTaskDialog.jsx`): its initial
  form, the submit guard and the payload, and the condition for the
  "assigned to ..." notice. The assignee is the id string chosen in the
  user picker; the notice compares it strictly with user ids.
*/
module CreateTaskDialog {
  import opened Base
  import opened Text
  import opened Entities
  import opened Forms

  datatype TaskForm = TaskForm(
    title: string,
    description: string,
    status: string,
    kind: string,
    priority: string,
    assignee: string,
    dueDate: string)

  /** `initialFormState`. */
  const InitialForm: TaskForm := TaskForm("", "", "TODO", "TASK", "MEDIUM", "", "")

  /** The request body: the form with a blank assignee sent as `null`. */
  datatype TaskData = TaskData(
    title: string,
    description: string,
    status: string,
    kind: string,
    priority: string,
    assignee: Option<string>,
    dueDate: string)

  /** `handleSubmit` up to the request. */
  function SubmitTask(f: TaskForm): (r: Submit<TaskData>)
    ensures r.Invalid? <==> IsBlank(f.title)
    ensures r.Invalid? ==> r.message == "Task title is required"
    ensures r.Send? ==> (r.payload.assignee.None? <==> IsBlank(f.assignee))
    ensures r.Send? && r.payload.assignee.Some? ==> r.payload.assignee.value == f.assignee
    ensures r.Send? ==> (r.payload.title == f.title && r.payload.description == f.description &&
                         r.payload.status == f.status && r.payload.kind == f.kind &&
                         r.payload.priority == f.priority && r.payload.dueDate == f.dueDate)
  {
    if IsBlank(f.title) then Invalid("Task title is required")
    else Send(TaskData(f.title, f.description, f.status, f.kind, f.priority,
      if IsBlank(f.assignee) then None else Some(f.assignee), f.dueDate))
  }

  /** The dialog cannot be submitted as it opens, and after a successful submit it is reset to that state. */
  lemma FreshFormRefused()
    ensures SubmitTask(InitialForm).Invalid?
    ensures InitialForm.status == "TODO" && InitialForm.kind == "TASK" && InitialForm.priority == "MEDIUM"
  {
  }

  function CurrentOid(currentUser: Option<User>): Option<Key> {
    if currentUser.None? then None else currentUser.value.oid
  }

  /** `users.find(u => u._id === assignee)`. */
  function FindUser(users: seq<User>, assignee: string): (r: Option<User>)
    ensures r.None? <==> forall u :: u in users ==> u.oid != Some(Str(assignee))
    ensures r.Some? ==> r.value in users && r.value.oid == Some(Str(assignee))
    ensures r.Some? ==> exists i :: 0 <= i < |users| && users[i] == r.value && (forall j :: 0 <= j < i ==> users[j].oid != Some(Str(assignee)))
    decreases |users|
  {
    if |users| == 0 then None
    else if users[0].oid == Some(Str(assignee)) then Some(users[0])
    else FindUser(users[1..], assignee)
  }

  /** The user named in the success notice, if one is shown. */
  function AssignmentNotice(f: TaskForm, currentUser: Option<User>, users: seq<User>): (r: Option<User>)
    ensures r.Some? <==> (f.assignee != "" && Some(Str(f.assignee)) != CurrentOid(currentUser) &&
                          exists u :: u in users && u.oid == Some(Str(f.assignee)))
    ensures r.Some? ==> r.value in users && r.value.oid == Some(Str(f.assignee))
  {
    if f.assignee != "" && Some(Str(f.assignee)) != CurrentOid(currentUser) then FindUser(users, f.assignee)
    else None
  }

  /** Assigning a task to oneself never shows the notice, nor does a picker value no user has as a string id. */
  lemma NoNoticeForSelfOrUnknown(f: TaskForm, me: User, users: seq<User>)
    ensures me.oid == Some(Str(f.assignee)) ==> AssignmentNotice(f, Some(me), users).None?
    ensures (forall u :: u in users ==> u.oid.None? || u.oid.value.Num?) ==> AssignmentNotice(f, Some(me), users).None?
  {
  }
}
