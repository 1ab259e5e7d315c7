/**
  The calendar tab of a project (`src/components/ProjectCalendar.jsx`):
  the next five open tasks due from now on, earliest first, and the open
  tasks already past due, of which the panel lists five and counts the
  rest. `today` is the current time, passed in.
*/
module ProjectCalendar {
  import opened Base
  import opened Seqs
  import opened Sorting
  import opened Entities

  /** `due_date && !isBefore(due, today) && status !== "COMPLETED"`. */
  predicate DueFromToday(t: Task, today: int) {
    t.dueDate.Some? && !(t.dueDate.value < today) && t.status != "COMPLETED"
  }

  function DueFrom(today: int): Task -> bool {
    (t: Task) => DueFromToday(t, today)
  }

  function OverdueAt(today: int): Task -> bool {
    (t: Task) => Overdue(t, today)
  }

  function DueKey(): Task -> int {
    (t: Task) => t.dueDate.GetOr(0)
  }

  /**
    `upcomingTasks`: open tasks due now or later, earliest first, at most
    five; none is due later than a candidate left out.
  */
  function UpcomingTasks(tasks: seq<Task>, today: int): (r: seq<Task>)
    ensures |r| == Min(5, |Filter(tasks, DueFrom(today))|)
    ensures r == SortBy(Filter(tasks, DueFrom(today)), DueKey())[..|r|]
    ensures forall i :: 0 <= i < |r| ==> r[i] in tasks && DueFromToday(r[i], today)
    ensures forall i, j :: 0 <= i < j < |r| ==> r[i].dueDate.GetOr(0) <= r[j].dueDate.GetOr(0)
    ensures multiset(r) <= multiset(Filter(tasks, DueFrom(today)))
    ensures forall t :: multiset(r)[t] < multiset(Filter(tasks, DueFrom(today)))[t] ==>
      forall i :: 0 <= i < |r| ==> r[i].dueDate.GetOr(0) <= t.dueDate.GetOr(0)
  {
    var candidates := Filter(tasks, DueFrom(today));
    var sorted := SortBy(candidates, DueKey());
    var r := Take(sorted, 5);
    forall i | 0 <= i < |r|
      ensures r[i] in tasks && DueFromToday(r[i], today)
    {
      assert r[i] in sorted;
      SortedMembers(candidates, DueKey(), r[i]);
    }
    PrefixSorted(sorted, |r|, DueKey());
    assert SortedBy(r, DueKey());
    SortedPrefixFirst(sorted, |r|, DueKey());
    r
  }

  /** With at most five candidates, every open task due from today on is listed. */
  lemma FewUpcomingAllListed(tasks: seq<Task>, today: int, t: Task)
    requires t in tasks && DueFromToday(t, today)
    requires |Filter(tasks, DueFrom(today))| <= 5
    ensures t in UpcomingTasks(tasks, today)
  {
    SortedMembers(Filter(tasks, DueFrom(today)), DueKey(), t);
  }

  /** `overdueTasks`: exactly the open tasks due before now, in task order. */
  function OverdueTasks(tasks: seq<Task>, today: int): (r: seq<Task>)
    ensures forall t :: t in r <==> t in tasks && Overdue(t, today)
    ensures IsSubseq(r, tasks)
    ensures forall t :: multiset(r)[t] == if Overdue(t, today) then multiset(tasks)[t] else 0
  {
    FilterKeepsOrder(tasks, OverdueAt(today));
    Filter(tasks, OverdueAt(today))
  }

  /** No task is both upcoming and overdue, and a completed task is neither. */
  lemma UpcomingOverdueDisjoint(tasks: seq<Task>, today: int, t: Task)
    ensures !(t in UpcomingTasks(tasks, today) && t in OverdueTasks(tasks, today))
    ensures t.status == "COMPLETED" ==> t !in UpcomingTasks(tasks, today) && t !in OverdueTasks(tasks, today)
  {
  }

  /** The overdue panel: the first five overdue tasks, and the number behind "+N more" if there are more. */
  datatype OverduePanel = OverduePanel(shown: seq<Task>, more: Option<nat>)

  function Panel(overdue: seq<Task>): (r: OverduePanel)
    ensures |r.shown| == Min(5, |overdue|) && r.shown == overdue[..|r.shown|]
    ensures r.more.Some? <==> |overdue| > 5
    ensures r.more.Some? ==> |r.shown| + r.more.value == |overdue|
  {
    OverduePanel(Take(overdue, 5), if |overdue| > 5 then Some(|overdue| - 5) else None)
  }
}
