/**
  The dashboard's recent activity (`src/components/RecentActivity.jsx`):
  every task of every project, tagged with the project's `id` as in the
  task summary, most recently updated first, five at most.
*/
module RecentActivity {
  import opened Base
  import opened Seqs
  import opened Sorting
  import opened Entities
  import opened TasksSummary

  /** Sorting ascending by the negated time is sorting by `updatedAt` descending. */
  function Recency(): SummaryTask -> int {
    (s: SummaryTask) => -s.task.updatedAt
  }

  /** `recentTasks`: sort all tasks by `updatedAt`, newest first, and keep the first five. */
  function RecentTasks(projects: seq<Project>): (r: seq<SummaryTask>)
    requires AllHaveTasks(projects)
    ensures |r| == Min(5, |AllTasks(projects)|)
    ensures r == SortBy(AllTasks(projects), Recency())[..|r|]
    ensures forall i, j :: 0 <= i < j < |r| ==> r[i].task.updatedAt >= r[j].task.updatedAt
    ensures forall i :: 0 <= i < |r| ==> r[i] in AllTasks(projects)
  {
    var all := AllTasks(projects);
    var sorted := SortBy(all, Recency());
    var r := Take(sorted, 5);
    PrefixSorted(sorted, |r|, Recency());
    assert SortedBy(r, Recency());
    forall i | 0 <= i < |r|
      ensures r[i] in all
    {
      assert r[i] in sorted;
      SortedMembers(all, Recency(), r[i]);
    }
    r
  }

  /** "No recent activity" shows exactly when no project has a task. */
  lemma EmptyStateIffNoTasks(projects: seq<Project>)
    requires AllHaveTasks(projects)
    ensures |RecentTasks(projects)| == 0 <==> |AllTasks(projects)| == 0
  {
  }

  /** Every listed entry is a task of a project, tagged with that project's `id`. */
  lemma RecentEntriesAreTagged(projects: seq<Project>, s: SummaryTask)
    requires AllHaveTasks(projects)
    requires s in RecentTasks(projects)
    ensures exists i :: 0 <= i < |projects| && s.task in projects[i].tasks.value && s.projectId == projects[i].id
  {
    AllTasksMembers(projects, s);
  }
}
