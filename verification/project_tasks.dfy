/**
  The task table of a project (`src/components/ProjectTasks.jsx`): three
  drop-down filters, a selection of task ids kept in a `Set`, the
  select-all header checkbox and the guard in front of bulk deletion.
  Set membership uses the ids' own equality, so selections hold `Key`s
  compared strictly.
*/
module ProjectTasks {
  import opened Base
  import opened Seqs
  import opened Entities

  /** The value of each drop-down; "ALL" means the field is not filtered. */
  datatype TaskFilters = TaskFilters(status: string, kind: string, priority: string)

  const AllTasks := TaskFilters("ALL", "ALL", "ALL")

  /** The filter callback: every filter that is not "ALL" must equal the task's field. */
  predicate Passes(f: TaskFilters, t: Task) {
    (f.status == "ALL" || t.status == f.status) &&
    (f.kind == "ALL" || t.kind == f.kind) &&
    (f.priority == "ALL" || t.priority == f.priority)
  }

  function PassesFilters(f: TaskFilters): Task -> bool {
    (t: Task) => Passes(f, t)
  }

  function FilteredTasks(tasks: seq<Task>, f: TaskFilters): (r: seq<Task>)
    ensures forall t :: t in r <==> t in tasks && Passes(f, t)
    ensures |r| <= |tasks|
    ensures IsSubseq(r, tasks)
    ensures forall t :: multiset(r)[t] == if Passes(f, t) then multiset(tasks)[t] else 0
  {
    FilterKeepsOrder(tasks, PassesFilters(f));
    Filter(tasks, PassesFilters(f))
  }

  /** The filtered list keeps the tasks in table order, every copy of a passing task and no other. */
  lemma FilteredIsSubsequence(tasks: seq<Task>, f: TaskFilters)
    ensures IsSubseq(FilteredTasks(tasks, f), tasks)
    ensures forall t :: multiset(FilteredTasks(tasks, f))[t] == if Passes(f, t) then multiset(tasks)[t] else 0
  {
    FilterIsSubseq(tasks, PassesFilters(f));
    forall t {
      FilterMultiset(tasks, PassesFilters(f), t);
    }
  }

  /** With every filter at "ALL" the table shows every task. */
  lemma AllFiltersOff(tasks: seq<Task>)
    ensures FilteredTasks(tasks, AllTasks) == tasks
  {
    FilterAll(tasks, PassesFilters(AllTasks));
  }

  /** `toggleTaskSelection`: a selected id is removed, any other id added. */
  function Toggle(selection: set<Key>, id: Key): (r: set<Key>)
    ensures id in r <==> id !in selection
    ensures forall k :: k != id ==> (k in r <==> k in selection)
  {
    if id in selection then selection - {id} else selection + {id}
  }

  /** Toggling the same id twice gives back the selection. */
  lemma ToggleTwice(selection: set<Key>, id: Key)
    ensures Toggle(Toggle(selection, id), id) == selection
  {
  }

  /** The header checkbox's `onChange`: all visible ids when checked, nothing when cleared. */
  function SelectAll(filtered: seq<Task>, checked: bool): (r: set<Key>)
    ensures forall k :: k in r <==> checked && exists t :: t in filtered && t.oid == k
  {
    if checked then set t | t in filtered :: t.oid else {}
  }

  /** The header checkbox is shown checked when as many ids are selected as tasks are visible. */
  predicate HeaderChecked(selection: set<Key>, filtered: seq<Task>) {
    |filtered| > 0 && |selection| == |filtered|
  }

  function Ids(ts: seq<Task>): (r: seq<Key>)
    ensures |r| == |ts|
    ensures forall i :: 0 <= i < |ts| ==> r[i] == ts[i].oid
  {
    seq(|ts|, i requires 0 <= i < |ts| => ts[i].oid)
  }

  /**
    Checking the header box over visible tasks with pairwise different ids
    makes the box show checked; over duplicated ids the size comparison fails.
  */
  lemma SelectAllChecksHeader(filtered: seq<Task>)
    requires |filtered| > 0
    requires Distinct(Ids(filtered))
    ensures HeaderChecked(SelectAll(filtered, true), filtered)
  {
    var ids := Ids(filtered);
    DistinctCard(ids);
    assert SelectAll(filtered, true) == set x | x in ids by {
      forall k
        ensures k in SelectAll(filtered, true) <==> k in ids
      {
        if k in ids {
          var i :| 0 <= i < |ids| && ids[i] == k;
          assert filtered[i] in filtered;
        }
        if k in SelectAll(filtered, true) {
          var t :| t in filtered && t.oid == k;
          var i :| 0 <= i < |filtered| && filtered[i] == t;
          assert ids[i] == k;
        }
      }
    }
  }

  /** Clearing the header box empties the selection, and an empty table never shows it checked. */
  lemma ClearedHeader(filtered: seq<Task>, selection: set<Key>)
    ensures SelectAll(filtered, false) == {}
    ensures |filtered| == 0 ==> !HeaderChecked(selection, filtered)
  {
  }

  datatype BulkDelete = NoneSelected | DeleteEach(ids: set<Key>)

  /** `handleBulkDelete`'s guard: with nothing selected nothing is deleted and no request is made. */
  function BulkDeleteRequest(selection: set<Key>): (r: BulkDelete)
    ensures r.NoneSelected? <==> |selection| == 0
    ensures r.DeleteEach? ==> r.ids == selection
  {
    if |selection| == 0 then NoneSelected else DeleteEach(selection)
  }

  const NoneSelectedMessage := "No tasks selected"
}
