/**
  The sidebar panel of the signed-in user's tasks
  (`src/components/MyTasksSidebar.jsx`). It reuses the extraction and the
  status counts of the "my tasks" page and adds the upcoming list: the
  first five open tasks with a due date, earliest first. Nothing compares
  the due date with the current time, so overdue tasks are listed too.
*/
module MyTasksSidebar {
  import opened Base
  import opened Seqs
  import opened Sorting
  import opened Entities
  import opened MyTasks

  /** `task.due_date && task.status !== "COMPLETED"`. */
  predicate Open(m: MyTask) {
    m.task.dueDate.Some? && m.task.status != "COMPLETED"
  }

  function OpenWithDueDate(): MyTask -> bool {
    (m: MyTask) => Open(m)
  }

  /** The sort key; every candidate has a due date, so the default is never used for one. */
  function DueKey(): MyTask -> int {
    (m: MyTask) => m.task.dueDate.GetOr(0)
  }

  /**
    `upcomingTasks`: filter, sort by due date, keep the first five. The list
    holds as many open tasks as there are, up to five, taken from them, and
    none is due later than an open task left out.
  */
  function Upcoming(tasks: seq<MyTask>): (r: seq<MyTask>)
    ensures |r| == Min(5, |Filter(tasks, OpenWithDueDate())|)
    ensures r == SortBy(Filter(tasks, OpenWithDueDate()), DueKey())[..|r|]
    ensures forall i :: 0 <= i < |r| ==> r[i] in tasks && Open(r[i])
    ensures forall i, j :: 0 <= i < j < |r| ==> r[i].task.dueDate.GetOr(0) <= r[j].task.dueDate.GetOr(0)
    ensures multiset(r) <= multiset(Filter(tasks, OpenWithDueDate()))
    ensures forall m :: multiset(r)[m] < multiset(Filter(tasks, OpenWithDueDate()))[m] ==>
      forall i :: 0 <= i < |r| ==> r[i].task.dueDate.GetOr(0) <= m.task.dueDate.GetOr(0)
  {
    var candidates := Filter(tasks, OpenWithDueDate());
    var sorted := SortBy(candidates, DueKey());
    var r := Take(sorted, 5);
    forall i | 0 <= i < |r|
      ensures r[i] in tasks && Open(r[i])
    {
      assert r[i] in sorted;
      SortedMembers(candidates, DueKey(), r[i]);
    }
    PrefixSorted(sorted, |r|, DueKey());
    assert SortedBy(r, DueKey());
    SortedPrefixFirst(sorted, |r|, DueKey());
    r
  }

  /** Nothing is dropped for being past due: with at most five open tasks, all of them are listed. */
  lemma UpcomingKeepsOverdue(tasks: seq<MyTask>, m: MyTask)
    requires m in tasks && Open(m)
    requires |Filter(tasks, OpenWithDueDate())| <= 5
    ensures m in Upcoming(tasks)
  {
    var candidates := Filter(tasks, OpenWithDueDate());
    SortedMembers(candidates, DueKey(), m);
  }

  datatype Footer = NoTasksAssigned | ViewAllTasks

  /** "No tasks assigned to you" for an empty list, the link to the full page otherwise. */
  function FooterFor(tasks: seq<MyTask>): (r: Footer)
    ensures r == NoTasksAssigned <==> |tasks| == 0
    ensures r == ViewAllTasks <==> |tasks| > 0
  {
    if |tasks| == 0 then NoTasksAssigned else ViewAllTasks
  }
}
