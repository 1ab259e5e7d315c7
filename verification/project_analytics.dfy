/**
  The analytics tab of a project (`src/components/ProjectAnalytics.jsx`):
  status counters, an overdue counter, and three charts fed by maps that
  count only their own listed keys. Percentages are floating-point
  divisions and are kept unevaluated; only the zero-total case, where the
  code avoids the division, is computed.
*/
module ProjectAnalytics {
  import opened Base
  import opened Seqs
  import opened Text
  import opened Entities

  const StatusKeys: seq<string> := ["TODO", "IN_PROGRESS", "COMPLETED"]
  const TypeKeys: seq<string> := ["TASK", "BUG", "FEATURE", "IMPROVEMENT", "OTHER"]
  const PriorityKeys: seq<string> := ["LOW", "MEDIUM", "HIGH"]

  datatype Field = StatusField | TypeField | PriorityField

  function FieldOf(f: Field, t: Task): string {
    match f
    case StatusField => t.status
    case TypeField => t.kind
    case PriorityField => t.priority
  }

  function FieldIs(f: Field, key: string): Task -> bool {
    (t: Task) => FieldOf(f, t) == key
  }

  function Safe(tasks: Option<seq<Task>>): seq<Task> {
    tasks.GetOr([])
  }

  datatype Stats = Stats(total: nat, completed: nat, inProgress: nat, todo: nat, overdue: nat)

  function OverdueAt(now: int): Task -> bool {
    (t: Task) => Overdue(t, now)
  }

  /** `stats`: a missing task list counts as empty. */
  function ComputeStats(tasks: Option<seq<Task>>, now: int): (r: Stats)
    ensures r.total == |Safe(tasks)|
    ensures tasks.None? ==> r == Stats(0, 0, 0, 0, 0)
    ensures r.completed == Count(Safe(tasks), FieldIs(StatusField, "COMPLETED"))
    ensures r.inProgress == Count(Safe(tasks), FieldIs(StatusField, "IN_PROGRESS"))
    ensures r.todo == Count(Safe(tasks), FieldIs(StatusField, "TODO"))
    ensures r.overdue == Count(Safe(tasks), OverdueAt(now))
    ensures r.completed + r.inProgress + r.todo <= r.total
    ensures r.overdue + r.completed <= r.total
  {
    var ts := Safe(tasks);
    CountThreeBound(ts, FieldIs(StatusField, "COMPLETED"), FieldIs(StatusField, "IN_PROGRESS"), FieldIs(StatusField, "TODO"));
    CountDisjoint(ts, OverdueAt(now), FieldIs(StatusField, "COMPLETED"),
      (t: Task) => OverdueAt(now)(t) || FieldIs(StatusField, "COMPLETED")(t));
    Stats(|ts|,
      Count(ts, FieldIs(StatusField, "COMPLETED")),
      Count(ts, FieldIs(StatusField, "IN_PROGRESS")),
      Count(ts, FieldIs(StatusField, "TODO")),
      Count(ts, OverdueAt(now)))
  }

  /** One entry of a counting map, in the map's key order. */
  datatype Tally = Tally(key: string, value: nat)

  /** `{ K1: 0, K2: 0, ... }` incremented per task whose field is one of the keys. */
  function TallyBy(tasks: seq<Task>, f: Field, keys: seq<string>): (r: seq<Tally>)
    ensures |r| == |keys|
    ensures forall i :: 0 <= i < |keys| ==> r[i].key == keys[i] && r[i].value == Count(tasks, FieldIs(f, keys[i]))
  {
    seq(|keys|, i requires 0 <= i < |keys| => Tally(keys[i], Count(tasks, FieldIs(f, keys[i]))))
  }

  /** A task whose field is none of the keys leaves the map as it was. */
  lemma UnknownValueIgnored(tasks: seq<Task>, t: Task, f: Field, keys: seq<string>)
    requires FieldOf(f, t) !in keys
    ensures TallyBy(tasks + [t], f, keys) == TallyBy(tasks, f, keys)
  {
    forall i | 0 <= i < |keys|
      ensures Count(tasks + [t], FieldIs(f, keys[i])) == Count(tasks, FieldIs(f, keys[i]))
    {
      CountAppend(tasks, [t], FieldIs(f, keys[i]));
      assert [t][1..] == [];
    }
  }

  /** The status counters and the status map agree key by key. */
  lemma StatusMapMatchesStats(tasks: Option<seq<Task>>, now: int)
    ensures TallyBy(Safe(tasks), StatusField, StatusKeys)[0].value == ComputeStats(tasks, now).todo
    ensures TallyBy(Safe(tasks), StatusField, StatusKeys)[1].value == ComputeStats(tasks, now).inProgress
    ensures TallyBy(Safe(tasks), StatusField, StatusKeys)[2].value == ComputeStats(tasks, now).completed
  {
  }

  datatype Datum = Datum(name: string, value: nat)

  /** `statusData`: every status key in fixed order, labelled in lower case with a space for the underscore. */
  function StatusData(tasks: seq<Task>): (r: seq<Datum>)
    ensures |r| == |StatusKeys|
    ensures forall i :: 0 <= i < |r| ==> r[i].name == Lower(FirstUnderscoreToSpace(StatusKeys[i]))
    ensures forall i :: 0 <= i < |r| ==> r[i].value == Count(tasks, FieldIs(StatusField, StatusKeys[i]))
  {
    var m := TallyBy(tasks, StatusField, StatusKeys);
    seq(|m|, i requires 0 <= i < |m| => Datum(Lower(FirstUnderscoreToSpace(m[i].key)), m[i].value))
  }

  /** Every type key in fixed order, lower-cased, with its count. */
  function TypeRows(tasks: seq<Task>): (r: seq<Datum>)
    ensures |r| == |TypeKeys|
    ensures forall i :: 0 <= i < |r| ==> r[i] == Datum(Lower(TypeKeys[i]), Count(tasks, FieldIs(TypeField, TypeKeys[i])))
  {
    var m := TallyBy(tasks, TypeField, TypeKeys);
    seq(|m|, i requires 0 <= i < |m| => Datum(Lower(m[i].key), m[i].value))
  }

  function Charted(): Datum -> bool {
    (d: Datum) => d.value > 0
  }

  /**
    `typeData`: the type keys in fixed order, leaving out those no task has.
    Renaming keeps the count, so dropping the empty entries before renaming
    them, as the chart does, drops the same ones.
  */
  function TypeData(tasks: seq<Task>): (r: seq<Datum>)
    ensures |r| <= |TypeKeys|
    ensures IsSubseq(r, TypeRows(tasks))
    ensures forall d :: d in r <==> d in TypeRows(tasks) && d.value > 0
    ensures forall d :: multiset(r)[d] == if d.value > 0 then multiset(TypeRows(tasks))[d] else 0
    ensures forall i :: 0 <= i < |r| ==> exists k :: k in TypeKeys && r[i] == Datum(Lower(k), Count(tasks, FieldIs(TypeField, k)))
  {
    var rows := TypeRows(tasks);
    FilterKeepsOrder(rows, Charted());
    var r := Filter(rows, Charted());
    forall i | 0 <= i < |r|
      ensures exists k :: k in TypeKeys && r[i] == Datum(Lower(k), Count(tasks, FieldIs(TypeField, k)))
    {
      RowOfSomeKey(tasks, r[i]);
    }
    r
  }

  /** Every row names one of the type keys and carries its count. */
  lemma RowOfSomeKey(tasks: seq<Task>, d: Datum)
    requires d in TypeRows(tasks)
    ensures exists k :: k in TypeKeys && d == Datum(Lower(k), Count(tasks, FieldIs(TypeField, k)))
  {
    var rows := TypeRows(tasks);
    var j :| 0 <= j < |rows| && rows[j] == d;
    assert TypeKeys[j] in TypeKeys;
  }

  /** A type is charted exactly when some task has it. */
  lemma TypeShownIffUsed(tasks: seq<Task>, k: string)
    requires k in TypeKeys
    ensures Datum(Lower(k), Count(tasks, FieldIs(TypeField, k))) in TypeData(tasks) <==> Count(tasks, FieldIs(TypeField, k)) > 0
  {
    var j :| 0 <= j < |TypeKeys| && TypeKeys[j] == k;
    assert TypeRows(tasks)[j] == Datum(Lower(k), Count(tasks, FieldIs(TypeField, k)));
  }

  /** `Math.round(v / total * 100)` is floating point and left unevaluated; with no tasks it is 0. */
  datatype Percentage = Zero | Share(part: nat, whole: nat)

  function PercentOf(part: nat, whole: nat): (r: Percentage)
    ensures r.Zero? <==> whole == 0
    ensures r.Share? ==> r.part == part && r.whole == whole
  {
    if whole == 0 then Zero else Share(part, whole)
  }

  datatype PriorityDatum = PriorityDatum(name: string, value: nat, percentage: Percentage)

  /** `priorityData`: every priority key in fixed order, with its count and its share of all tasks. */
  function PriorityData(tasks: seq<Task>): (r: seq<PriorityDatum>)
    ensures |r| == |PriorityKeys|
    ensures forall i :: 0 <= i < |r| ==> r[i].name == PriorityKeys[i] && r[i].value == Count(tasks, FieldIs(PriorityField, PriorityKeys[i]))
    ensures forall i :: 0 <= i < |r| ==> r[i].percentage == PercentOf(r[i].value, |tasks|)
  {
    var m := TallyBy(tasks, PriorityField, PriorityKeys);
    seq(|m|, i requires 0 <= i < |m| => PriorityDatum(m[i].key, m[i].value, PercentOf(m[i].value, |tasks|)))
  }

  /** The completion-rate card: a dash with no tasks, a percentage otherwise. */
  datatype CompletionDisplay = Dash | Rate(percentage: Percentage)

  function CompletionRate(stats: Stats): (r: CompletionDisplay)
    ensures r.Dash? <==> stats.total == 0
    ensures r.Rate? ==> r.percentage == Share(stats.completed, stats.total)
  {
    if stats.total == 0 then Dash else Rate(PercentOf(stats.completed, stats.total))
  }

  /** With no tasks, nothing is divided: every priority share is 0, the card shows a dash, and every count is 0. */
  lemma NoTasksNoDivision(tasks: Option<seq<Task>>, now: int)
    requires |Safe(tasks)| == 0
    ensures forall d :: d in PriorityData(Safe(tasks)) ==> d.percentage == Zero && d.value == 0
    ensures CompletionRate(ComputeStats(tasks, now)) == Dash
    ensures ComputeStats(tasks, now) == Stats(0, 0, 0, 0, 0)
    ensures TypeData(Safe(tasks)) == []
  {
    FilterNone(TypeRows(Safe(tasks)), Charted());
  }
}
