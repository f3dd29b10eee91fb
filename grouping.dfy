/**
 * Folding the flat time-log rows the server returns into grid rows: one row per
 * `project-task-activity` key, with seven daily hour buckets, seven notes and
 * seven billable flags.  The grid variant skips cancelled timesheets; the
 * variant used to preview the previous week keeps them and records no flags.
 */
module Grouping {
  import opened Basics
  import opened Calendar

  type Hours7 = s: seq<nat> | |s| == 7 witness [0, 0, 0, 0, 0, 0, 0]
  type Notes7 = s: seq<string> | |s| == 7 witness ["", "", "", "", "", "", ""]
  type Flags7 = s: seq<int> | |s| == 7 witness [0, 0, 0, 0, 0, 0, 0]

  /**
   * One row of the weekly query: a time log joined with its timesheet.  Absent
   * strings are "", absent hours are 0, and an absent `from_time` is second 0.
   * `fromTime` counts seconds from day 0; hours are hundredths of an hour.
   */
  datatype Entry = Entry(
    name: string, docstatus: int,
    project: string, task: string, activity: string,
    projectName: string, taskName: string, activityName: string,
    hours: nat, fromTime: int, isBillable: int, description: string)

  /** A grid row built from the entries sharing one key. */
  datatype GroupRow = GroupRow(
    project: string, task: string, activity: string,
    projectName: string, taskName: string, activityName: string,
    isBillable: int, description: string,
    daily: Hours7, notes: Notes7, billable: Flags7,
    orderIndex: nat)

  /** Which of the two groupers runs. */
  datatype Mode = Grid | Preview

  /** The grouping key: the three fields joined by '-', so distinct triples can share it. */
  function Key(e: Entry): string {
    e.project + "-" + e.task + "-" + e.activity
  }

  /** The key of the entries a row was built from. */
  function RowKey(r: GroupRow): string {
    r.project + "-" + r.task + "-" + r.activity
  }

  /** The grid grouper skips cancelled timesheets (docstatus 2); the preview keeps everything. */
  predicate Included(e: Entry, mode: Mode) {
    mode == Preview || e.docstatus != 2
  }

  /** Whole days from the week's first midnight to the entry, rounded down. */
  function DayOffset(e: Entry, start: int): int {
    (e.fromTime - start * SecondsPerDay) / SecondsPerDay
  }

  function NewRow(e: Entry, index: nat): GroupRow {
    GroupRow(e.project, e.task, e.activity, e.projectName, e.taskName, e.activityName,
             e.isBillable, e.description,
             [0, 0, 0, 0, 0, 0, 0], ["", "", "", "", "", "", ""], [0, 0, 0, 0, 0, 0, 0], index)
  }

  /** Adds one entry to its row's bucket, when the entry falls within the week. */
  function AddEntry(row: GroupRow, e: Entry, start: int, mode: Mode): GroupRow {
    var d := DayOffset(e, start);
    if 0 <= d < 7 then
      row.(daily := row.daily[d := row.daily[d] + e.hours],
           notes := if e.description != "" then row.notes[d := e.description] else row.notes,
           billable := if mode == Grid then row.billable[d := e.isBillable] else row.billable)
    else row
  }

  /** The grouper's state: keys in the order rows were created, and the rows by key. */
  datatype Groups = Groups(order: seq<string>, rows: map<string, GroupRow>)

  function Step(g: Groups, e: Entry, index: nat, start: int, mode: Mode): Groups {
    if !Included(e, mode) then g
    else
      var k := Key(e);
      var g1 := if k in g.rows then g else Groups(g.order + [k], g.rows[k := NewRow(e, index)]);
      Groups(g1.order, g1.rows[k := AddEntry(g1.rows[k], e, start, mode)])
  }

  /** The grouper's state after the entries `es`, taken in order. */
  function Fold(es: seq<Entry>, start: int, mode: Mode): Groups
    decreases |es|
  {
    if es == [] then Groups([], map[])
    else Step(Fold(es[..|es| - 1], start, mode), es[|es| - 1], |es| - 1, start, mode)
  }

  predicate Distinct(s: seq<string>) {
    forall i, j :: 0 <= i < j < |s| ==> s[i] != s[j]
  }

  ghost predicate WellFormed(g: Groups) {
    Distinct(g.order) && forall k :: k in g.rows <==> k in g.order
  }

  /** Some entry of `es` that the grouper takes in has key `k`. */
  predicate HasKey(es: seq<Entry>, k: string, mode: Mode) {
    exists i :: 0 <= i < |es| && Included(es[i], mode) && Key(es[i]) == k
  }

  /** The rows in creation order: what the grouper hands to the grid. */
  function GroupTimesheetEntries(es: seq<Entry>, start: int, mode: Mode): seq<GroupRow> {
    var g := Fold(es, start, mode);
    FoldKeys(es, start, mode);
    seq(|g.order|, i requires 0 <= i < |g.order| => g.rows[g.order[i]])
  }

  /**
   * The grouper as a loop: one pass over the entries updating the rows in
   * place, then one pass over the creation order.
   */
  method GroupEntries(entries: seq<Entry>, start: int, mode: Mode) returns (rows: seq<GroupRow>)
    ensures rows == GroupTimesheetEntries(entries, start, mode)
  {
    var order: seq<string> := [];
    var grouped: map<string, GroupRow> := map[];
    var i := 0;
    while i < |entries|
      invariant 0 <= i <= |entries|
      invariant Groups(order, grouped) == Fold(entries[..i], start, mode)
    {
      var e := entries[i];
      assert Fold(entries[..i + 1], start, mode) == Step(Fold(entries[..i], start, mode), e, i, start, mode) by {
        assert entries[..i + 1][..i] == entries[..i];
      }
      ghost var before := Groups(order, grouped);
      if Included(e, mode) {
        var key := Key(e);
        if key !in grouped {
          grouped := grouped[key := NewRow(e, i)];
          order := order + [key];
        }
        grouped := grouped[key := AddEntry(grouped[key], e, start, mode)];
      }
      assert Groups(order, grouped) == Step(before, e, i, start, mode);
      i := i + 1;
    }
    assert entries[..i] == entries;
    FoldKeys(entries, start, mode);
    rows := [];
    var j := 0;
    while j < |order|
      invariant 0 <= j <= |order|
      invariant |rows| == j
      invariant forall n :: 0 <= n < j ==> rows[n] == grouped[order[n]]
    {
      rows := rows + [grouped[order[j]]];
      j := j + 1;
    }
  }

  // ---------------------------------------------------------------------------
  // What the rows mean

  /** Keys are never repeated, and a key has a row exactly when some taken-in entry has it. */
  lemma {:induction false} FoldKeys(es: seq<Entry>, start: int, mode: Mode)
    ensures WellFormed(Fold(es, start, mode))
    ensures forall k :: k in Fold(es, start, mode).rows <==> HasKey(es, k, mode)
    decreases |es|
  {
    if es != [] {
      var p := es[..|es| - 1];
      var e := es[|es| - 1];
      FoldKeys(p, start, mode);
      forall k
        ensures HasKey(es, k, mode) <==> HasKey(p, k, mode) || (Included(e, mode) && Key(e) == k)
      {
        if HasKey(p, k, mode) {
          var i :| 0 <= i < |p| && Included(p[i], mode) && Key(p[i]) == k;
          assert es[i] == p[i];
        }
        if HasKey(es, k, mode) {
          var i :| 0 <= i < |es| && Included(es[i], mode) && Key(es[i]) == k;
          if i < |p| {
            assert p[i] == es[i];
          }
        }
        if Included(e, mode) && Key(e) == k {
          assert es[|es| - 1] == e;
        }
      }
    }
  }

  /** Entry `e` counts towards day `d` of the row with key `k`. */
  predicate Counts(e: Entry, k: string, d: int, start: int, mode: Mode) {
    Included(e, mode) && Key(e) == k && DayOffset(e, start) == d
  }

  /** Reference: the hours of all entries counting towards day `d` of key `k`. */
  function HoursOn(es: seq<Entry>, k: string, d: int, start: int, mode: Mode): nat
    decreases |es|
  {
    if es == [] then 0
    else
      var e := es[|es| - 1];
      HoursOn(es[..|es| - 1], k, d, start, mode) + if Counts(e, k, d, start, mode) then e.hours else 0
  }

  /** Reference: the last non-empty description among those entries, or "". */
  function LastNote(es: seq<Entry>, k: string, d: int, start: int, mode: Mode): string
    decreases |es|
  {
    if es == [] then ""
    else
      var e := es[|es| - 1];
      if Counts(e, k, d, start, mode) && e.description != "" then e.description
      else LastNote(es[..|es| - 1], k, d, start, mode)
  }

  /** Reference: the billable flag of the last of those entries, or 0. */
  function LastFlag(es: seq<Entry>, k: string, d: int, start: int, mode: Mode): int
    decreases |es|
  {
    if es == [] then 0
    else
      var e := es[|es| - 1];
      if Counts(e, k, d, start, mode) then e.isBillable
      else LastFlag(es[..|es| - 1], k, d, start, mode)
  }

  /** A row's key, names and row-level fields are those of entry `e`. */
  predicate HeaderOf(r: GroupRow, e: Entry) {
    r.project == e.project && r.task == e.task && r.activity == e.activity
    && r.projectName == e.projectName && r.taskName == e.taskName
    && r.activityName == e.activityName
    && r.isBillable == e.isBillable && r.description == e.description
  }

  /** Entry `n` is the first entry taken in with key `k`. */
  predicate FirstWithKey(es: seq<Entry>, n: nat, k: string, mode: Mode) {
    n < |es| && Included(es[n], mode) && Key(es[n]) == k
    && forall i :: 0 <= i < n ==> !(Included(es[i], mode) && Key(es[i]) == k)
  }

  lemma {:induction false} NoKeyNoBuckets(es: seq<Entry>, k: string, d: int, start: int, mode: Mode)
    requires !HasKey(es, k, mode)
    ensures HoursOn(es, k, d, start, mode) == 0
    ensures LastNote(es, k, d, start, mode) == ""
    ensures LastFlag(es, k, d, start, mode) == 0
    decreases |es|
  {
    if es != [] {
      var p := es[..|es| - 1];
      assert !HasKey(p, k, mode) by {
        forall i | 0 <= i < |p| ensures !(Included(p[i], mode) && Key(p[i]) == k) {
          assert p[i] == es[i];
        }
      }
      assert es[|es| - 1] == es[|es| - 1];
      NoKeyNoBuckets(p, k, d, start, mode);
    }
  }

  /**
   * Each day bucket of a row holds the sum of the hours counting towards it,
   * the last non-empty description among them, and (in the grid) the last
   * one's billable flag.
   */
  lemma {:induction false} FoldBuckets(es: seq<Entry>, k: string, d: int, start: int, mode: Mode)
    requires k in Fold(es, start, mode).rows && 0 <= d < 7
    ensures Fold(es, start, mode).rows[k].daily[d] == HoursOn(es, k, d, start, mode)
    ensures Fold(es, start, mode).rows[k].notes[d] == LastNote(es, k, d, start, mode)
    ensures Fold(es, start, mode).rows[k].billable[d] == if mode == Grid then LastFlag(es, k, d, start, mode) else 0
    decreases |es|
  {
    var p := es[..|es| - 1];
    var e := es[|es| - 1];
    var g := Fold(p, start, mode);
    assert Fold(es, start, mode) == Step(g, e, |p|, start, mode);
    StepBuckets(g, e, |p|, k, d, start, mode);
    var before := if k in g.rows then g.rows[k] else NewRow(e, |p|);
    assert before.daily[d] == HoursOn(p, k, d, start, mode)
        && before.notes[d] == LastNote(p, k, d, start, mode)
        && before.billable[d] == (if mode == Grid then LastFlag(p, k, d, start, mode) else 0) by {
      FoldKeys(p, start, mode);
      if k in g.rows {
        FoldBuckets(p, k, d, start, mode);
      } else {
        NoKeyNoBuckets(p, k, d, start, mode);
      }
    }
  }

  /** One entry's effect on day `d` of the row with key `k`. */
  lemma StepBuckets(g: Groups, e: Entry, index: nat, k: string, d: int, start: int, mode: Mode)
    requires k in Step(g, e, index, start, mode).rows && 0 <= d < 7
    ensures var before := if k in g.rows then g.rows[k] else NewRow(e, index);
      var after := Step(g, e, index, start, mode).rows[k];
      var counts := Counts(e, k, d, start, mode);
      after.daily[d] == before.daily[d] + (if counts then e.hours else 0)
      && after.notes[d] == (if counts && e.description != "" then e.description else before.notes[d])
      && after.billable[d] == (if counts && mode == Grid then e.isBillable else before.billable[d])
  {
  }

  /** Adding an entry to a row changes only its buckets. */
  lemma AddEntryKeepsHeader(r: GroupRow, e: Entry, start: int, mode: Mode)
    ensures var r' := AddEntry(r, e, start, mode);
      r'.orderIndex == r.orderIndex
      && r'.project == r.project && r'.task == r.task && r'.activity == r.activity
      && r'.projectName == r.projectName && r'.taskName == r.taskName
      && r'.activityName == r.activityName
      && r'.isBillable == r.isBillable && r'.description == r.description
  {
  }

  /** A row's order index points at the first entry with its key, which gave it its header. */
  lemma {:induction false} FoldFirst(es: seq<Entry>, k: string, start: int, mode: Mode)
    requires k in Fold(es, start, mode).rows
    ensures var r := Fold(es, start, mode).rows[k];
      FirstWithKey(es, r.orderIndex, k, mode) && HeaderOf(r, es[r.orderIndex])
    decreases |es|
  {
    var p := es[..|es| - 1];
    var e := es[|es| - 1];
    var g := Fold(p, start, mode);
    var r := Fold(es, start, mode).rows[k];
    assert Fold(es, start, mode) == Step(g, e, |p|, start, mode);
    FoldKeys(p, start, mode);
    if k in g.rows {
      FoldFirst(p, k, start, mode);
      var old_r := g.rows[k];
      assert r == old_r || r == AddEntry(old_r, e, start, mode);
      AddEntryKeepsHeader(old_r, e, start, mode);
      var n := old_r.orderIndex;
      assert r.orderIndex == n;
      assert es[n] == p[n];
      assert HeaderOf(old_r, p[n]);
      forall i | 0 <= i < n ensures !(Included(es[i], mode) && Key(es[i]) == k) {
        assert es[i] == p[i];
      }
    } else {
      assert Included(e, mode) && Key(e) == k;
      var fresh_r := NewRow(e, |p|);
      assert r == AddEntry(fresh_r, e, start, mode);
      AddEntryKeepsHeader(fresh_r, e, start, mode);
      assert r.orderIndex == |p|;
      forall i | 0 <= i < |p| ensures !(Included(es[i], mode) && Key(es[i]) == k) {
        assert es[i] == p[i];
        assert !HasKey(p, k, mode);
      }
    }
  }

  /** Along the creation order, order indexes strictly increase. */
  predicate CreationOrdered(g: Groups) {
    forall i, j :: 0 <= i < j < |g.order| && g.order[i] in g.rows && g.order[j] in g.rows ==>
      g.rows[g.order[i]].orderIndex < g.rows[g.order[j]].orderIndex
  }

  /** Rows are created in the order their keys first occur. */
  lemma {:induction false} FoldOrder(es: seq<Entry>, start: int, mode: Mode)
    ensures forall k :: k in Fold(es, start, mode).rows ==> Fold(es, start, mode).rows[k].orderIndex < |es|
    ensures CreationOrdered(Fold(es, start, mode))
    decreases |es|
  {
    if es != [] {
      var p := es[..|es| - 1];
      FoldOrder(p, start, mode);
      FoldKeys(p, start, mode);
      StepOrder(Fold(p, start, mode), es[|es| - 1], |p|, start, mode);
    }
  }

  lemma StepOrder(g: Groups, e: Entry, index: nat, start: int, mode: Mode)
    requires WellFormed(g) && CreationOrdered(g)
    requires forall k :: k in g.rows ==> g.rows[k].orderIndex < index
    ensures forall k :: k in Step(g, e, index, start, mode).rows ==> Step(g, e, index, start, mode).rows[k].orderIndex <= index
    ensures CreationOrdered(Step(g, e, index, start, mode))
  {
    var g' := Step(g, e, index, start, mode);
    if Included(e, mode) {
      var k := Key(e);
      var g1 := if k in g.rows then g else Groups(g.order + [k], g.rows[k := NewRow(e, index)]);
      assert g' == Groups(g1.order, g1.rows[k := AddEntry(g1.rows[k], e, start, mode)]);
      AddEntryKeepsHeader(g1.rows[k], e, start, mode);
      assert forall k' :: k' in g'.rows ==> g'.rows[k'].orderIndex == g1.rows[k'].orderIndex;
      if k !in g.rows {
        forall i, j | 0 <= i < j < |g'.order|
          ensures g'.rows[g'.order[i]].orderIndex < g'.rows[g'.order[j]].orderIndex
        {
          var ki := g.order[i];
          assert g'.order[i] == ki && ki in g.rows && ki != k;
          if j == |g.order| {
            assert g'.order[j] == k;
          } else {
            assert g'.order[j] == g.order[j];
          }
        }
      }
    }
  }

  /**
   * The grouped rows, in the order the grid shows them: one row per key found
   * among the taken-in entries (also when the entry lies outside the week), no
   * key twice, in order of first occurrence, each with that first entry's
   * header and with the buckets the reference functions describe.
   */
  lemma GroupedRows(es: seq<Entry>, start: int, mode: Mode)
    ensures var rows := GroupTimesheetEntries(es, start, mode);
      (forall k :: HasKey(es, k, mode) <==> exists i :: 0 <= i < |rows| && RowKey(rows[i]) == k)
      && (forall i, j :: 0 <= i < j < |rows| ==> RowKey(rows[i]) != RowKey(rows[j]))
      && (forall i, j :: 0 <= i < j < |rows| ==> rows[i].orderIndex < rows[j].orderIndex)
      && (forall i :: 0 <= i < |rows| ==>
            FirstWithKey(es, rows[i].orderIndex, RowKey(rows[i]), mode)
            && HeaderOf(rows[i], es[rows[i].orderIndex]))
      && (forall i, d :: 0 <= i < |rows| && 0 <= d < 7 ==>
            rows[i].daily[d] == HoursOn(es, RowKey(rows[i]), d, start, mode)
            && rows[i].notes[d] == LastNote(es, RowKey(rows[i]), d, start, mode)
            && rows[i].billable[d] == if mode == Grid then LastFlag(es, RowKey(rows[i]), d, start, mode) else 0)
  {
    var g := Fold(es, start, mode);
    var rows := GroupTimesheetEntries(es, start, mode);
    FoldKeys(es, start, mode);
    FoldOrder(es, start, mode);
    forall i, j | 0 <= i < j < |rows| ensures rows[i].orderIndex < rows[j].orderIndex {
      assert g.order[i] in g.rows && g.order[j] in g.rows;
    }
    forall i | 0 <= i < |rows|
      ensures RowKey(rows[i]) == g.order[i]
      ensures FirstWithKey(es, rows[i].orderIndex, RowKey(rows[i]), mode)
      ensures HeaderOf(rows[i], es[rows[i].orderIndex])
    {
      FoldFirst(es, g.order[i], start, mode);
    }
    forall i, d | 0 <= i < |rows| && 0 <= d < 7
      ensures rows[i].daily[d] == HoursOn(es, RowKey(rows[i]), d, start, mode)
      ensures rows[i].notes[d] == LastNote(es, RowKey(rows[i]), d, start, mode)
      ensures rows[i].billable[d] == if mode == Grid then LastFlag(es, RowKey(rows[i]), d, start, mode) else 0
    {
      FoldBuckets(es, g.order[i], d, start, mode);
    }
    forall k | HasKey(es, k, mode)
      ensures exists i :: 0 <= i < |rows| && RowKey(rows[i]) == k
    {
      var i :| 0 <= i < |g.order| && g.order[i] == k;
      assert RowKey(rows[i]) == k;
    }
  }

  /** Different project/task/activity triples can share a key, and then share a row. */
  lemma KeysCollide(e1: Entry, e2: Entry)
    requires e1.project == "a-" && e1.task == "b" && e1.activity == "c"
    requires e2.project == "a" && e2.task == "-b" && e2.activity == "c"
    ensures e1.project != e2.project && Key(e1) == Key(e2)
  {
    assert Key(e1) == "a--b-c" == Key(e2);
  }

  /** A cancelled timesheet's entries reach the preview but not the grid. */
  lemma CancelledOnlyInPreview(e: Entry, start: int)
    requires e.docstatus == 2
    ensures GroupTimesheetEntries([e], start, Grid) == []
    ensures |GroupTimesheetEntries([e], start, Preview)| == 1
  {
    assert [e][..0] == [];
    assert Fold([e], start, Grid) == Groups([], map[]);
    assert Fold([e], start, Preview).order == [Key(e)];
  }
}
