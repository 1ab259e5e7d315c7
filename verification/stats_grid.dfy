/**
  The dashboard's project counters (`src/components/StatsGrid.jsx`): all
  projects, and those whose status is COMPLETED, ACTIVE or ON_HOLD.
*/
module StatsGrid {
  import opened Base
  import opened Seqs
  import opened Entities

  datatype ProjectStats = ProjectStats(total: nat, completed: nat, active: nat, onHold: nat)

  function StatusIs(status: string): Project -> bool {
    (p: Project) => p.status == Some(status)
  }

  function ProjectCounters(projects: seq<Project>): (r: ProjectStats)
    ensures r.total == |projects|
    ensures r.completed == Count(projects, StatusIs("COMPLETED"))
    ensures r.active == Count(projects, StatusIs("ACTIVE"))
    ensures r.onHold == Count(projects, StatusIs("ON_HOLD"))
    ensures r.completed + r.active + r.onHold <= r.total
    ensures |projects| == 0 ==> r == ProjectStats(0, 0, 0, 0)
  {
    CountThreeBound(projects, StatusIs("COMPLETED"), StatusIs("ACTIVE"), StatusIs("ON_HOLD"));
    ProjectStats(|projects|, Count(projects, StatusIs("COMPLETED")), Count(projects, StatusIs("ACTIVE")), Count(projects, StatusIs("ON_HOLD")))
  }

  /** One more project raises the total by one and exactly the counter of its own status, if any. */
  lemma AddingOneProject(projects: seq<Project>, p: Project)
    ensures ProjectCounters(projects + [p]).total == ProjectCounters(projects).total + 1
    ensures ProjectCounters(projects + [p]).completed == ProjectCounters(projects).completed + (if p.status == Some("COMPLETED") then 1 else 0)
    ensures ProjectCounters(projects + [p]).active == ProjectCounters(projects).active + (if p.status == Some("ACTIVE") then 1 else 0)
    ensures ProjectCounters(projects + [p]).onHold == ProjectCounters(projects).onHold + (if p.status == Some("ON_HOLD") then 1 else 0)
  {
    CountAppend(projects, [p], StatusIs("COMPLETED"));
    CountAppend(projects, [p], StatusIs("ACTIVE"));
    CountAppend(projects, [p], StatusIs("ON_HOLD"));
    assert [p][1..] == [];
  }
}
