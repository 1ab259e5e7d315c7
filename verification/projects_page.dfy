/**
  The list on the projects page (`src/pages/Projects.jsx`): a search term
  and two drop-downs applied one after another to the store's projects.
  The term is matched case-insensitively against the name and the
  description; it is not trimmed, and an empty term disables the search.
*/
module ProjectsPage {
  import opened Base
  import opened Seqs
  import opened Text
  import opened Entities

  /** `field?.toLowerCase().includes(term.toLowerCase())`: a missing field never matches. */
  predicate FieldMatches(field: Option<string>, term: string) {
    field.Some? && Contains(Lower(field.value), Lower(term))
  }

  predicate MatchesTerm(p: Project, term: string) {
    FieldMatches(p.name, term) || FieldMatches(p.description, term)
  }

  function SearchHit(term: string): Project -> bool {
    (p: Project) => MatchesTerm(p, term)
  }

  function StatusIs(status: string): Project -> bool {
    (p: Project) => p.status == Some(status)
  }

  function PriorityIs(priority: string): Project -> bool {
    (p: Project) => p.priority == Some(priority)
  }

  /** The filter effect: search (if the term is non-empty), then status, then priority (each unless "ALL"). */
  function FilterProjects(projects: seq<Project>, term: string, status: string, priority: string): (r: seq<Project>)
    ensures |r| <= |projects|
  {
    var searched := if term != "" then Filter(projects, SearchHit(term)) else projects;
    var byStatus := if status != "ALL" then Filter(searched, StatusIs(status)) else searched;
    if priority != "ALL" then Filter(byStatus, PriorityIs(priority)) else byStatus
  }

  /** The three conditions together, as one predicate. */
  predicate Wanted(p: Project, term: string, status: string, priority: string) {
    (term == "" || MatchesTerm(p, term)) &&
    (status == "ALL" || p.status == Some(status)) &&
    (priority == "ALL" || p.priority == Some(priority))
  }

  function WantedBy(term: string, status: string, priority: string): Project -> bool {
    (p: Project) => Wanted(p, term, status, priority)
  }

  function KeepAll(): Project -> bool {
    (p: Project) => true
  }

  /** The three filters in a row keep the same projects, in the same order, as one filter by `Wanted`. */
  lemma {:induction false} FilterProjectsIsOneFilter(projects: seq<Project>, term: string, status: string, priority: string)
    ensures FilterProjects(projects, term, status, priority) == Filter(projects, WantedBy(term, status, priority))
  {
    var s1 := if term != "" then SearchHit(term) else KeepAll();
    var s2 := if status != "ALL" then StatusIs(status) else KeepAll();
    var s3 := if priority != "ALL" then PriorityIs(priority) else KeepAll();
    var s12 := (p: Project) => s1(p) && s2(p);
    FilterAll(projects, KeepAll());
    var searched := Filter(projects, s1);
    FilterAll(searched, KeepAll());
    FilterFilter(projects, s1, s2, s12);
    var byStatus := Filter(projects, s12);
    FilterAll(byStatus, KeepAll());
    FilterFilter(projects, s12, s3, WantedBy(term, status, priority));
  }

  /** The list shows a project exactly when it passes all three conditions; order and multiplicity come from the store. */
  lemma FilterProjectsMembers(projects: seq<Project>, term: string, status: string, priority: string)
    ensures forall p :: p in FilterProjects(projects, term, status, priority) <==> p in projects && Wanted(p, term, status, priority)
    ensures IsSubseq(FilterProjects(projects, term, status, priority), projects)
  {
    FilterProjectsIsOneFilter(projects, term, status, priority);
    FilterIsSubseq(projects, WantedBy(term, status, priority));
  }

  /** An empty term and both drop-downs at "ALL" show the store's list as it is. */
  lemma NoFilterShowsAll(projects: seq<Project>)
    ensures FilterProjects(projects, "", "ALL", "ALL") == projects
  {
  }

  /** A hit by search has its name or its description, lower-cased, containing the lower-cased term. */
  lemma SearchHitsContainTerm(projects: seq<Project>, term: string, p: Project)
    requires term != ""
    requires p in FilterProjects(projects, term, "ALL", "ALL")
    ensures p.name.Some? || p.description.Some?
    ensures (p.name.Some? && Contains(Lower(p.name.value), Lower(term))) ||
            (p.description.Some? && Contains(Lower(p.description.value), Lower(term)))
  {
    FilterProjectsMembers(projects, term, "ALL", "ALL");
  }
}
