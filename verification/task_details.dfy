/**
  The task page (`src/pages/TaskDetails.jsx`): where the task comes from,
  the comment and file guards, the page's own comment list, and the
  attachment it hands to the store after an upload. The ids in the URL are
  strings and are compared with the store's through `String(...)`.
*/
module TaskDetails {
  import opened Base
  import opened Text
  import opened Entities
  import opened Forms
  import opened ProjectSlice

  datatype TaskLookup = Idle | InStore(project: Project, task: Task) | Fetch(taskId: string)

  /**
    `loadTask`: the first store project with the URL's project id, then the
    first of its tasks with the URL's task id; anything missing means a
    request for the task.
  */
  function LookupTask(ps: seq<Project>, projectId: string, taskId: string): (r: TaskLookup)
    ensures r.Idle? <==> projectId == "" || taskId == ""
    ensures r.Fetch? ==> r.taskId == taskId
    ensures r.InStore? ==> r.project in ps && r.project.tasks.Some? && r.task in r.project.tasks.value
    ensures r.InStore? ==> exists i :: IsFirstProject(ps, Str(projectId), i) && ps[i] == r.project
    ensures r.InStore? ==> exists k :: IsFirstTask(r.project.tasks.value, Str(taskId), k) && r.project.tasks.value[k] == r.task
    ensures projectId != "" && taskId != "" && NoProject(ps, Str(projectId)) ==> r == Fetch(taskId)
    ensures forall i :: projectId != "" && taskId != "" && IsFirstProject(ps, Str(projectId), i) ==>
      (ps[i].tasks.None? || NoTask(ps[i].tasks.value, Str(taskId)) ==> r == Fetch(taskId)) &&
      (forall k :: ps[i].tasks.Some? && IsFirstTask(ps[i].tasks.value, Str(taskId), k) ==> r == InStore(ps[i], ps[i].tasks.value[k]))
  {
    if projectId == "" || taskId == "" then Idle
    else match ProjectIndex(ps, Str(projectId))
      case None => Fetch(taskId)
      case Some(i) =>
        var p := ps[i];
        if p.tasks.None? then Fetch(taskId)
        else match TaskIndex(p.tasks.value, Str(taskId))
          case None => Fetch(taskId)
          case Some(k) => InStore(p, p.tasks.value[k])
  }

  /** A task held under a different project of the same id is not found: only the first project is searched. */
  lemma OnlyFirstProjectSearched(p1: Project, p2: Project, t: Task)
    requires p1.oid == Str("p") && p2.oid == Str("p") && t.oid == Str("t")
    requires p1.tasks == Some([]) && p2.tasks == Some([t])
    ensures LookupTask([p1, p2], "p", "t") == Fetch("t")
  {
    assert IsFirstProject([p1, p2], Str("p"), 0);
  }

  /**
    After the store's `addComment` for the page's own task, the lookup still
    finds that task, now with the comment at the end of its list.
  */
  lemma LookupSeesStoredComment(st: State, projectId: string, taskId: string, c: Comment, i: nat, k: nat)
    requires projectId != "" && taskId != ""
    requires IsFirstProject(st.projects, Str(projectId), i) && st.projects[i].tasks.Some?
    requires IsFirstTask(st.projects[i].tasks.value, Str(taskId), k)
    ensures LookupTask(AddComment(st, Str(projectId), Str(taskId), c).projects, projectId, taskId).InStore?
    ensures LookupTask(AddComment(st, Str(projectId), Str(taskId), c).projects, projectId, taskId).task ==
      AppendComment(st.projects[i].tasks.value[k], c)
  {
    var qs := AddComment(st, Str(projectId), Str(taskId), c).projects;
    var q := qs[i];
    assert IsFirstProject(qs, Str(projectId), i);
    assert ProjectIndex(qs, Str(projectId)) == Some(i);
    assert IsFirstTask(q.tasks.value, Str(taskId), k);
    assert TaskIndex(q.tasks.value, Str(taskId)) == Some(k);
  }

  /** `handleAddComment`'s guard: blank text is refused, anything else is posted as typed. */
  function SubmitComment(text: string): (r: Submit<string>)
    ensures r.Invalid? <==> IsBlank(text)
    ensures r.Invalid? ==> r.message == "Comment cannot be empty"
    ensures r.Send? ==> r.payload == text
  {
    if IsBlank(text) then Invalid("Comment cannot be empty") else Send(text)
  }

  /** `[response.data, ...comments]`: the page shows the new comment first. */
  function LocalComments(comments: seq<Comment>, c: Comment): (r: seq<Comment>)
    ensures |r| == |comments| + 1 && r[0] == c && r[1..] == comments
  {
    [c] + comments
  }

  /**
    The page and the store order the same comments oppositely at the ends:
    the page puts the new one first, the store last.
  */
  lemma PageAndStoreOrderDiffer(t: Task, c: Comment)
    requires t.comments.Some? && |t.comments.value| > 0 && t.comments.value[0] != c
    ensures LocalComments(t.comments.value, c)[0] == c
    ensures AppendComment(t, c).comments.value[|t.comments.value|] == c
    ensures LocalComments(t.comments.value, c) != AppendComment(t, c).comments.value
  {
    assert AppendComment(t, c).comments.value[0] == t.comments.value[0];
  }

  const MaxFileBytes: nat := MiB(5)

  /** `handleFileUpload`'s guard: more than 5 MiB is refused; exactly 5 MiB is uploaded. */
  function CheckUpload(size: Option<nat>): (r: FileCheck)
    ensures r.TooLarge? <==> size.Some? && size.value > 5242880
    ensures size == Some(5242880) ==> r == Upload(5242880)
    ensures r.NoFile? <==> size.None?
  {
    CheckFile(size, MaxFileBytes, "File size should be less than 5MB")
  }

  /** `attachments[attachments.length - 1]`: the last one, undefined for an empty list. */
  function LastAttachment(attachments: seq<Attachment>): (r: Option<Attachment>)
    ensures r.None? <==> |attachments| == 0
    ensures r.Some? ==> r.value == attachments[|attachments| - 1] && r.value in attachments
  {
    if |attachments| == 0 then None else Some(attachments[|attachments| - 1])
  }

  /** When the server appends the upload to the task's list, the page hands exactly that upload to the store. */
  lemma UploadHandedToStore(before: seq<Attachment>, a: Attachment)
    ensures LastAttachment(before + [a]) == Some(a)
  {
  }
}
