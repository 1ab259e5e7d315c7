/**
  Properties that relate several project-store reducers: inverses, the
  id-uniqueness invariant, the difference between `updateProject` and
  `updateSingleProject`, and the scenarios the store is expected to satisfy.
*/
module ProjectSliceLemmas {
  import opened Base
  import opened Seqs
  import opened Entities
  import opened ProjectSlice

  // ---------------------------------------------------------------------------
  // The project list

  /** `deleteProject` removes exactly the matching projects; the survivors keep their order and multiplicity. */
  lemma DeleteProjectKeepsOrder(st: State, id: Key)
    ensures IsSubseq(DeleteProject(st, id).projects, st.projects)
    ensures forall q :: multiset(DeleteProject(st, id).projects)[q] == (if SameId(q.oid, id) then 0 else multiset(st.projects)[q])
    ensures NoProject(st.projects, id) ==> DeleteProject(st, id).projects == st.projects
  {
    var keep := ProjectOtherThan(id);
    FilterIsSubseq(st.projects, keep);
    forall q {
      FilterMultiset(st.projects, keep, q);
    }
    if NoProject(st.projects, id) {
      FilterAll(st.projects, keep);
    }
  }

  /** Adding a project with a fresh id and deleting it again restores the list. */
  lemma AddThenDeleteProject(st: State, p: Project)
    requires NoProject(st.projects, p.oid)
    ensures DeleteProject(AddProject(st, p), p.oid).projects == st.projects
  {
    var keep := ProjectOtherThan(p.oid);
    assert !keep(p);
    assert Filter([p] + st.projects, keep) == Filter(st.projects, keep) by {
      assert ([p] + st.projects)[1..] == st.projects;
    }
    FilterAll(st.projects, keep);
  }

  /** Two additions: the most recent one comes first. */
  lemma AddProjectOrder(st: State, a: Project, b: Project)
    ensures AddProject(AddProject(st, a), b).projects == [b, a] + st.projects
  {
  }

  /** Adding keeps identifiers unique exactly when the new id is not yet in the list. */
  lemma AddProjectUnique(st: State, p: Project)
    requires UniqueIds(st.projects)
    ensures UniqueIds(AddProject(st, p).projects) <==> NoProject(st.projects, p.oid)
  {
    var ps := AddProject(st, p).projects;
    if !NoProject(st.projects, p.oid) {
      var j :| 0 <= j < |st.projects| && SameId(st.projects[j].oid, p.oid);
      assert ps[0] == p && ps[j + 1] == st.projects[j];
    }
  }

  /** `updateProject` keeps identifiers unique: the replacement carries the id it replaces. */
  lemma UpdateProjectUnique(st: State, p: Project)
    requires UniqueIds(st.projects)
    ensures UniqueIds(UpdateProject(st, p).projects)
  {
  }

  /** `deleteProject` keeps identifiers unique. */
  lemma DeleteProjectUnique(st: State, id: Key)
    requires UniqueIds(st.projects)
    ensures UniqueIds(DeleteProject(st, id).projects)
  {
    FilterPairwise(st.projects, ProjectOtherThan(id), (a: Project, b: Project) => !SameId(a.oid, b.oid));
  }

  /**
    With unique identifiers, `updateProject` on a present id leaves exactly
    one entry with that id, equal to the payload, at the same position.
  */
  lemma UpdateProjectReplacesOne(st: State, p: Project, i: int)
    requires UniqueIds(st.projects)
    requires 0 <= i < |st.projects| && SameId(st.projects[i].oid, p.oid)
    ensures UpdateProject(st, p).projects[i] == p
    ensures forall j :: 0 <= j < |st.projects| && j != i ==>
      UpdateProject(st, p).projects[j] == st.projects[j] && !SameId(UpdateProject(st, p).projects[j].oid, p.oid)
  {
  }

  /** With unique identifiers, replacing the first match is replacing every match. */
  lemma SingleUpdateAgreesWhenUnique(st: State, p: Project)
    requires UniqueIds(st.projects)
    ensures UpdateSingleProject(st, p).projects == UpdateProject(st, p).projects
  {
    var a := UpdateSingleProject(st, p).projects;
    var b := UpdateProject(st, p).projects;
    match ProjectIndex(st.projects, p.oid)
    case None =>
    case Some(i) =>
      assert |a| == |b|;
      forall j | 0 <= j < |a|
        ensures a[j] == b[j]
      {
        if j != i {
          assert !SameId(st.projects[j].oid, p.oid);
        }
      }
  }

  /** With a duplicated id, `updateProject` replaces both copies and `updateSingleProject` only the first. */
  lemma SingleUpdateDiffersOnDuplicates()
    ensures
      var old1 := Project(Str("p1"), None, Some("old"), None, None, None, None, None, None, None, None, None);
      var new1 := old1.(name := Some("new"));
      var st := State([old1, old1], false, None);
      UpdateProject(st, new1).projects == [new1, new1] &&
      UpdateSingleProject(st, new1).projects == [new1, old1]
  {
    var old1 := Project(Str("p1"), None, Some("old"), None, None, None, None, None, None, None, None, None);
    var new1 := old1.(name := Some("new"));
    var st := State([old1, old1], false, None);
    assert IsFirstProject(st.projects, new1.oid, 0);
  }

  // ---------------------------------------------------------------------------
  // Nested reducers

  /** A nested reducer that changes only one project's inner lists keeps every project id, so the same project is found again. */
  lemma FirstProjectStable(ps: seq<Project>, qs: seq<Project>, k: Key, i: int)
    requires IsFirstProject(ps, k, i)
    requires OnlyAt(ps, qs, i) && qs[i].oid == ps[i].oid
    ensures IsFirstProject(qs, k, i)
  {
  }

  /** Adding a task with a fresh id to a project that has a task list, then deleting it, restores the state. */
  lemma AddThenDeleteTask(st: State, projectId: Key, task: Task, i: int)
    requires IsFirstProject(st.projects, projectId, i)
    requires st.projects[i].tasks.Some? && NoTask(st.projects[i].tasks.value, task.oid)
    ensures DeleteTask(AddTask(st, projectId, task), projectId, task.oid) == st
  {
    var p := st.projects[i];
    var mid := AddTask(st, projectId, task);
    FirstProjectStable(st.projects, mid.projects, projectId, i);
    var keep := TaskOtherThan(task.oid);
    var ts := p.tasks.value;
    assert Filter([task] + ts, keep) == Filter(ts, keep) by {
      assert ([task] + ts)[1..] == ts;
    }
    FilterAll(ts, keep);
    assert DropTasks(PrependTask(p, task), task.oid) == p;
    var r := DeleteTask(mid, projectId, task.oid);
    assert r.projects == st.projects;
  }

  /** On one project: dropping a user whose only membership was just appended restores the member list. */
  lemma DropAfterAppendMember(p: Project, m: Member, userId: Key)
    requires m.user.oid == Some(userId)
    requires p.members.Some?
    requires forall n :: n in p.members.value ==> NormOpt(n.user.oid) != Norm(userId)
    ensures DropMembers(AppendMember(p, m), userId) == p
  {
    var keep := MemberOtherThan(userId);
    var ms := p.members.value;
    FilterAppend(ms, [m], keep);
    assert Filter([m], keep) == [] by {
      assert !keep(m);
      assert [m][1..] == [];
    }
    FilterAll(ms, keep);
    assert ms + [] == ms;
  }

  /** Adding a member whose user is not yet in a project's member list, then removing that user, restores the state. */
  lemma AddThenRemoveMember(st: State, projectId: Key, m: Member, userId: Key, i: int)
    requires IsFirstProject(st.projects, projectId, i)
    requires m.user.oid == Some(userId)
    requires st.projects[i].members.Some?
    requires forall n :: n in st.projects[i].members.value ==> NormOpt(n.user.oid) != Norm(userId)
    ensures RemoveProjectMember(AddProjectMember(st, projectId, m), projectId, userId) == st
  {
    var p := st.projects[i];
    DropAfterAppendMember(p, m, userId);
    var mid := AddProjectMember(st, projectId, m);
    assert mid.projects == st.projects[i := AppendMember(p, m)];
    FirstProjectStable(st.projects, mid.projects, projectId, i);
    var r := RemoveProjectMember(mid, projectId, userId);
    assert r.projects == mid.projects[i := p];
    assert st.projects[i := AppendMember(p, m)][i := p] == st.projects;
  }

  /** On one task: dropping an attachment id that was fresh until the append restores the attachment list. */
  lemma DropAfterAppendAttachment(t: Task, a: Attachment)
    requires t.attachments.Some?
    requires forall b :: b in t.attachments.value ==> !SameId(b.oid, a.oid)
    ensures DropAttachments(AppendAttachment(t, a), a.oid) == t
  {
    var keep := AttachmentOtherThan(a.oid);
    var as_ := t.attachments.value;
    FilterAppend(as_, [a], keep);
    assert Filter([a], keep) == [] by {
      assert !keep(a);
      assert [a][1..] == [];
    }
    FilterAll(as_, keep);
    assert as_ + [] == as_;
  }

  /** `AttachmentIn` rewrites exactly the first matching task. */
  lemma AttachmentInAt(p: Project, taskId: Key, a: Attachment, k: int)
    requires p.tasks.Some? && IsFirstTask(p.tasks.value, taskId, k)
    ensures AttachmentIn(p, taskId, a) == p.(tasks := Some(p.tasks.value[k := AppendAttachment(p.tasks.value[k], a)]))
  {
    assert TaskIndex(p.tasks.value, taskId) == Some(k);
  }

  /** `DetachIn` rewrites exactly the first matching task. */
  lemma DetachInAt(p: Project, taskId: Key, attachmentId: Key, k: int)
    requires p.tasks.Some? && IsFirstTask(p.tasks.value, taskId, k)
    ensures DetachIn(p, taskId, attachmentId) == p.(tasks := Some(p.tasks.value[k := DropAttachments(p.tasks.value[k], attachmentId)]))
  {
    assert TaskIndex(p.tasks.value, taskId) == Some(k);
  }

  /** On one project: the attachment added to the first matching task is removed from that task again. */
  lemma DetachAfterAttach(p: Project, taskId: Key, a: Attachment, k: int)
    requires p.tasks.Some? && IsFirstTask(p.tasks.value, taskId, k)
    requires p.tasks.value[k].attachments.Some?
    requires forall b :: b in p.tasks.value[k].attachments.value ==> !SameId(b.oid, a.oid)
    ensures DetachIn(AttachmentIn(p, taskId, a), taskId, a.oid) == p
  {
    var ts := p.tasks.value;
    var ts' := ts[k := AppendAttachment(ts[k], a)];
    AttachmentInAt(p, taskId, a, k);
    FirstTaskStable(ts, ts', taskId, k);
    DetachInAt(p.(tasks := Some(ts')), taskId, a.oid, k);
    DropAfterAppendAttachment(ts[k], a);
    assert ts'[k := ts[k]] == ts;
  }

  /** `addAttachment` rewrites exactly the first matching project. */
  lemma AddAttachmentAt(st: State, projectId: Key, taskId: Key, a: Attachment, i: int)
    requires IsFirstProject(st.projects, projectId, i)
    ensures AddAttachment(st, projectId, taskId, a) == st.(projects := st.projects[i := AttachmentIn(st.projects[i], taskId, a)])
  {
    assert ProjectIndex(st.projects, projectId) == Some(i);
  }

  /** `removeAttachment` rewrites exactly the first matching project. */
  lemma RemoveAttachmentAt(st: State, projectId: Key, taskId: Key, attachmentId: Key, i: int)
    requires IsFirstProject(st.projects, projectId, i)
    ensures RemoveAttachment(st, projectId, taskId, attachmentId) == st.(projects := st.projects[i := DetachIn(st.projects[i], taskId, attachmentId)])
  {
    assert ProjectIndex(st.projects, projectId) == Some(i);
  }

  /** When detaching undoes attaching on the first matching project, the two reducers undo each other on the state. */
  lemma AttachThenDetachAt(st: State, projectId: Key, taskId: Key, a: Attachment, i: int)
    requires IsFirstProject(st.projects, projectId, i)
    requires DetachIn(AttachmentIn(st.projects[i], taskId, a), taskId, a.oid) == st.projects[i]
    ensures RemoveAttachment(AddAttachment(st, projectId, taskId, a), projectId, taskId, a.oid) == st
  {
    var ps := st.projects;
    var q := AttachmentIn(ps[i], taskId, a);
    var mid := st.(projects := ps[i := q]);
    AddAttachmentAt(st, projectId, taskId, a, i);
    FirstProjectStable(ps, mid.projects, projectId, i);
    RemoveAttachmentAt(mid, projectId, taskId, a.oid, i);
    assert ps[i := q][i := ps[i]] == ps;
  }

  /** Adding an attachment with a fresh id to a task that has an attachment list, then removing it, restores the state. */
  lemma AddThenRemoveAttachment(st: State, projectId: Key, taskId: Key, a: Attachment, i: int, k: int)
    requires IsFirstProject(st.projects, projectId, i)
    requires st.projects[i].tasks.Some? && IsFirstTask(st.projects[i].tasks.value, taskId, k)
    requires st.projects[i].tasks.value[k].attachments.Some?
    requires forall b :: b in st.projects[i].tasks.value[k].attachments.value ==> !SameId(b.oid, a.oid)
    ensures RemoveAttachment(AddAttachment(st, projectId, taskId, a), projectId, taskId, a.oid) == st
  {
    DetachAfterAttach(st.projects[i], taskId, a, k);
    AttachThenDetachAt(st, projectId, taskId, a, i);
  }

  /** A rewrite at the first matching task that keeps its id leaves it the first match. */
  lemma FirstTaskStable(ts: seq<Task>, ts': seq<Task>, k: Key, i: int)
    requires IsFirstTask(ts, k, i)
    requires OnlyAt(ts, ts', i) && ts'[i].oid == ts[i].oid
    ensures IsFirstTask(ts', k, i)
  {
  }

  /** `addComment` on one project rewrites exactly the first matching task. */
  lemma CommentInAt(p: Project, taskId: Key, c: Comment, k: int)
    requires p.tasks.Some? && IsFirstTask(p.tasks.value, taskId, k)
    ensures CommentIn(p, taskId, c) == p.(tasks := Some(p.tasks.value[k := AppendComment(p.tasks.value[k], c)]))
  {
    assert TaskIndex(p.tasks.value, taskId) == Some(k);
  }

  /** On one project: two comments on the same task land after the existing ones, in call order. */
  lemma CommentTwiceIn(p: Project, taskId: Key, c1: Comment, c2: Comment, k: int)
    requires p.tasks.Some? && IsFirstTask(p.tasks.value, taskId, k)
    ensures
      var q := CommentIn(CommentIn(p, taskId, c1), taskId, c2);
      q.tasks.Some? && k < |q.tasks.value| &&
      q.tasks.value[k].comments == Some(p.tasks.value[k].comments.GetOr([]) + [c1, c2])
  {
    var ts := p.tasks.value;
    var t1 := AppendComment(ts[k], c1);
    var q1 := p.(tasks := Some(ts[k := t1]));
    CommentInAt(p, taskId, c1, k);
    FirstTaskStable(ts, ts[k := t1], taskId, k);
    CommentInAt(q1, taskId, c2, k);
    var before := ts[k].comments.GetOr([]);
    assert before + [c1] + [c2] == before + [c1, c2];
  }

  /** Two comments on the same task end up after the existing ones, in call order. */
  lemma CommentsInCallOrder(st: State, projectId: Key, taskId: Key, c1: Comment, c2: Comment, i: int, k: int)
    requires IsFirstProject(st.projects, projectId, i)
    requires st.projects[i].tasks.Some? && IsFirstTask(st.projects[i].tasks.value, taskId, k)
    ensures
      var r := AddComment(AddComment(st, projectId, taskId, c1), projectId, taskId, c2);
      r.projects[i] == CommentIn(CommentIn(st.projects[i], taskId, c1), taskId, c2)
  {
    var p := st.projects[i];
    var mid := AddComment(st, projectId, taskId, c1);
    assert mid.projects == st.projects[i := CommentIn(p, taskId, c1)];
    FirstProjectStable(st.projects, mid.projects, projectId, i);
  }

  /** An empty update object changes nothing. */
  lemma UpdateTaskWithNothing(st: State, projectId: Key, taskId: Key)
    ensures UpdateTask(st, projectId, taskId, NoUpdates) == st
  {
    match ProjectIndex(st.projects, projectId)
    case None =>
    case Some(i) =>
      var p := st.projects[i];
      assert MergeTaskIn(p, taskId, NoUpdates) == p by {
        match p.tasks
        case None =>
        case Some(ts) =>
          match TaskIndex(ts, taskId)
          case None =>
          case Some(k) =>
            MergeNothing(ts[k]);
            assert ts[k := ts[k]] == ts;
      }
      assert st.projects[i := p] == st.projects;
  }

  /** `updateTask` on one project rewrites exactly the first matching task. */
  lemma MergeTaskInAt(p: Project, taskId: Key, u: TaskUpdates, k: int)
    requires p.tasks.Some? && IsFirstTask(p.tasks.value, taskId, k)
    ensures MergeTaskIn(p, taskId, u) == p.(tasks := Some(p.tasks.value[k := Merge(p.tasks.value[k], u)]))
  {
    assert TaskIndex(p.tasks.value, taskId) == Some(k);
  }

  /** On one project: two merges into the same task are one merge of the combined update. */
  lemma MergeTaskInTwice(p: Project, taskId: Key, u1: TaskUpdates, u2: TaskUpdates)
    requires u1.oid.None?
    ensures MergeTaskIn(MergeTaskIn(p, taskId, u1), taskId, u2) == MergeTaskIn(p, taskId, Combine(u1, u2))
  {
    if p.tasks.Some? && TaskIndex(p.tasks.value, taskId).Some? {
      var ts := p.tasks.value;
      var k := TaskIndex(ts, taskId).value;
      var t1 := Merge(ts[k], u1);
      var q1 := p.(tasks := Some(ts[k := t1]));
      MergeTaskInAt(p, taskId, u1, k);
      FirstTaskStable(ts, ts[k := t1], taskId, k);
      MergeTaskInAt(q1, taskId, u2, k);
      MergeTaskInAt(p, taskId, Combine(u1, u2), k);
      MergeTwice(ts[k], u1, u2);
      assert ts[k := t1][k := Merge(t1, u2)] == ts[k := Merge(ts[k], Combine(u1, u2))];
    }
  }

  /** `updateTask` rewrites exactly the first matching project. */
  lemma UpdateTaskAt(st: State, projectId: Key, taskId: Key, u: TaskUpdates, i: int)
    requires IsFirstProject(st.projects, projectId, i)
    ensures UpdateTask(st, projectId, taskId, u) == st.(projects := st.projects[i := MergeTaskIn(st.projects[i], taskId, u)])
  {
    assert ProjectIndex(st.projects, projectId) == Some(i);
  }

  /** Two updates of the same task amount to one update with the later value of every field. */
  lemma UpdateTaskTwice(st: State, projectId: Key, taskId: Key, u1: TaskUpdates, u2: TaskUpdates)
    requires u1.oid.None?
    ensures UpdateTask(UpdateTask(st, projectId, taskId, u1), projectId, taskId, u2) ==
      UpdateTask(st, projectId, taskId, Combine(u1, u2))
  {
    if ProjectIndex(st.projects, projectId).Some? {
      var ps := st.projects;
      var i := ProjectIndex(ps, projectId).value;
      var q1 := MergeTaskIn(ps[i], taskId, u1);
      var q2 := MergeTaskIn(ps[i], taskId, Combine(u1, u2));
      var mid := st.(projects := ps[i := q1]);
      UpdateTaskAt(st, projectId, taskId, u1, i);
      FirstProjectStable(ps, mid.projects, projectId, i);
      UpdateTaskAt(mid, projectId, taskId, u2, i);
      UpdateTaskAt(st, projectId, taskId, Combine(u1, u2), i);
      MergeTaskInTwice(ps[i], taskId, u1, u2);
      assert ps[i := q1][i := q2] == ps[i := q2];
    }
  }

  /** A task is found through a numeric project id even when the store holds the id as a string. */
  lemma DeleteTaskAcrossIdForms()
    ensures
      var t := Task(Str("t1"), None, "X", None, "TODO", "TASK", "LOW", Unassigned, None, None, 0, None, None);
      var p := Project(Str("42"), None, None, None, None, None, None, None, None, None, None, Some([t]));
      DeleteTask(State([p], false, None), Num(42), Str("t1")).projects[0].tasks == Some([])
  {
    NumericAndStringIdsCoincide();
    var t := Task(Str("t1"), None, "X", None, "TODO", "TASK", "LOW", Unassigned, None, None, 0, None, None);
    var p := Project(Str("42"), None, None, None, None, None, None, None, None, None, None, Some([t]));
    assert IsFirstProject([p], Num(42), 0);
    assert !TaskOtherThan(Str("t1"))(t);
  }

  /** Create, edit and delete one project: the list ends up empty. */
  lemma CreateEditDelete(st: State, p: Project, edited: Project)
    requires SameId(edited.oid, p.oid)
    ensures
      var s1 := AddProject(SetProjects(st, []), p);
      var s2 := UpdateProject(s1, edited);
      DeleteProject(s2, p.oid).projects == []
  {
    var s1 := AddProject(SetProjects(st, []), p);
    var s2 := UpdateProject(s1, edited);
    assert s2.projects == [edited];
    assert !ProjectOtherThan(p.oid)(edited);
  }

  /** Two members referring to the same user are both removed. */
  lemma RemoveMemberDropsDuplicates(p: Project, u: User, userId: Key, r1: string, r2: string)
    requires p.members == Some([Member(u, r1), Member(u, r2)])
    requires u.oid == Some(userId)
    ensures DropMembers(p, userId).members == Some([])
  {
    var ms := [Member(u, r1), Member(u, r2)];
    assert !MemberOtherThan(userId)(ms[0]);
    assert !MemberOtherThan(userId)(ms[1]);
    assert ms[1..] == [Member(u, r2)];
    assert Filter(ms[1..], MemberOtherThan(userId)) == Filter([], MemberOtherThan(userId)) by {
      assert ms[1..][1..] == [];
    }
  }
}
