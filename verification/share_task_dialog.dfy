/**
  The "share task" dialog (`src/components/ShareTaskDialog.jsx`): the users
  one may share with, the ordered list of chosen user ids, and the guard in
  front of the share request. Every id comparison here is strict
  (`!==`, `includes`), so a numeric id and its string form are different
  users.
*/
module ShareTaskDialog {
  import opened Base
  import opened Seqs
  import opened Entities

  /** `task.assignee?._id`: only a populated assignee has one; a bare id string has no `_id` field. */
  function AssigneeOid(a: Assignee): (r: Option<Key>)
    ensures a.Populated? ==> r == a.user.oid
    ensures !a.Populated? ==> r.None?
  {
    match a
    case Populated(u) => u.oid
    case _ => None
  }

  /** `currentUser?._id`. */
  function CurrentOid(currentUser: Option<User>): Option<Key> {
    if currentUser.None? then None else currentUser.value.oid
  }

  predicate IsCandidate(u: User, currentUser: Option<User>, task: Task) {
    u.oid != CurrentOid(currentUser) && u.oid != AssigneeOid(task.assignee)
  }

  function CandidateFor(currentUser: Option<User>, task: Task): User -> bool {
    (u: User) => IsCandidate(u, currentUser, task)
  }

  /** The fetched users without the current user and the task's assignee, in server order. */
  function Candidates(users: seq<User>, currentUser: Option<User>, task: Task): (r: seq<User>)
    ensures forall u :: u in r <==> u in users && u.oid != CurrentOid(currentUser) && u.oid != AssigneeOid(task.assignee)
    ensures IsSubseq(r, users)
    ensures forall u :: multiset(r)[u] == if IsCandidate(u, currentUser, task) then multiset(users)[u] else 0
  {
    FilterKeepsOrder(users, CandidateFor(currentUser, task));
    Filter(users, CandidateFor(currentUser, task))
  }

  /**
    `undefined !== undefined` is false: when nobody is signed in, or the
    assignee is not a populated user, every fetched user without an `_id`
    is left out.
  */
  lemma MissingIdsDropped(users: seq<User>, currentUser: Option<User>, task: Task, u: User)
    requires u in users && u.oid.None?
    requires currentUser.None? || !task.assignee.Populated?
    ensures u !in Candidates(users, currentUser, task)
  {
  }

  function Other(id: Key): Key -> bool {
    (k: Key) => k != id
  }

  /** `handleUserToggle`: a chosen id is removed (every copy), any other id is appended at the end. */
  function ToggleUser(selected: seq<Key>, id: Key): (r: seq<Key>)
    ensures id in r <==> id !in selected
    ensures forall k :: k != id ==> (k in r <==> k in selected)
    ensures id !in selected ==> r == selected + [id]
    ensures id in selected ==> IsSubseq(r, selected) && |r| < |selected|
    ensures id in selected ==> forall k :: multiset(r)[k] == if k == id then 0 else multiset(selected)[k]
  {
    if id in selected then
      FilterKeepsOrder(selected, Other(id));
      assert |Filter(selected, Other(id))| < |selected| by {
        var same := (k: Key) => k == id;
        var any := (k: Key) => true;
        CountDisjoint(selected, Other(id), same, any);
        FilterAll(selected, any);
        assert id in Filter(selected, same);
      }
      Filter(selected, Other(id))
    else selected + [id]
  }

  /** Toggling keeps a list without repeats free of repeats. */
  lemma ToggleKeepsDistinct(selected: seq<Key>, id: Key)
    requires Distinct(selected)
    ensures Distinct(ToggleUser(selected, id))
  {
    if id in selected {
      FilterPairwise(selected, Other(id), (a: Key, b: Key) => a != b);
    }
  }

  /** Choosing a user and then un-choosing it gives back the list exactly. */
  lemma ChooseThenUnchoose(selected: seq<Key>, id: Key)
    requires id !in selected
    ensures ToggleUser(ToggleUser(selected, id), id) == selected
  {
    FilterAppend(selected, [id], Other(id));
    FilterAll(selected, Other(id));
    assert Filter([id], Other(id)) == [] by {
      assert [id][1..] == [];
    }
  }

  /** Un-choosing and choosing again keeps the same users but moves this one to the end. */
  lemma UnchooseThenChooseReorders()
    ensures ToggleUser(ToggleUser([Str("a"), Str("b")], Str("a")), Str("a")) == [Str("b"), Str("a")]
  {
    var once := ToggleUser([Str("a"), Str("b")], Str("a"));
    assert once == [Str("b")] by {
      assert [Str("a"), Str("b")][1..] == [Str("b")];
      assert [Str("b")][1..] == [];
    }
  }

  /** The permission a share starts with. */
  const DefaultPermission: string := "view"

  /** What the dialog's own state is when it opens. */
  datatype Dialog = Dialog(selected: seq<Key>, permission: string, message: string, isSharing: bool)

  const Opened: Dialog := Dialog([], DefaultPermission, "", false)

  /** The share button is disabled while a share is in flight or nothing is chosen. */
  predicate ShareDisabled(d: Dialog) {
    d.isSharing || |d.selected| == 0
  }

  datatype ShareAction =
    | Rejected(message: string)
    | Request(taskId: Key, userIds: seq<Key>, permission: string, message: string)

  /** `handleShare`: refuse an empty choice, otherwise request the share for the chosen ids as they are. */
  function Share(d: Dialog, task: Task): (r: ShareAction)
    ensures r.Rejected? <==> |d.selected| == 0
    ensures r.Rejected? ==> r.message == "Please select at least one user"
    ensures r.Request? ==> r.taskId == task.oid && r.userIds == d.selected && r.permission == d.permission && r.message == d.message
  {
    if |d.selected| == 0 then Rejected("Please select at least one user")
    else Request(task.oid, d.selected, d.permission, d.message)
  }

  /** A freshly opened dialog cannot share; once the button is enabled, pressing it sends a request. */
  lemma ButtonGuardsShare(d: Dialog, task: Task)
    ensures ShareDisabled(Opened) && Opened.permission == "view"
    ensures !ShareDisabled(d) ==> Share(d, task).Request?
    ensures Share(d, task).Rejected? ==> ShareDisabled(d)
  {
  }
}
