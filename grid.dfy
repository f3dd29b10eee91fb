/**
 * The editable grid as plain row records: per row the selected project and
 * activity type, and per day the typed time text, the hidden description and
 * the hidden billable flag.  Validation, totals, collecting the time logs to
 * save, and the "is there anything worth saving" test all read these records.
 */
module Grid {
  import opened Basics
  import opened TimeValue
  import opened Calendar
  import opened Grouping

  type Texts7 = s: seq<string> | |s| == 7 witness ["", "", "", "", "", "", ""]

  /** One grid row; "" is an empty field. */
  datatype GridRow = GridRow(project: string, activity: string, times: Texts7, notes: Notes7, billable: Flags7)

  /** The empty row added below the others for new entries. */
  const EmptyRow: GridRow :=
    GridRow("", "", ["", "", "", "", "", "", ""], ["", "", "", "", "", "", ""], [0, 0, 0, 0, 0, 0, 0])

  /**
   * A row as the page reads it: each time text parsed into hundredths of an
   * hour, next to the selections, the descriptions and the billable flags.
   */
  datatype ReadRow = ReadRow(project: string, activity: string, hours: Hours7, notes: Notes7, billable: Flags7)

  /** What the seven cells of a row read as. */
  function Readings(r: GridRow): (hs: Hours7)
    ensures forall d :: 0 <= d < 7 ==> hs[d] == ParseTimeInput(r.times[d])
  {
    seq(7, d requires 0 <= d < 7 => ParseTimeInput(r.times[d]))
  }

  function Read(r: GridRow): ReadRow {
    ReadRow(r.project, r.activity, Readings(r), r.notes, r.billable)
  }

  function ReadGrid(rows: seq<GridRow>): (rs: seq<ReadRow>)
    ensures |rs| == |rows| && forall i :: 0 <= i < |rows| ==> rs[i] == Read(rows[i])
  {
    seq(|rows|, i requires 0 <= i < |rows| => Read(rows[i]))
  }

  /** A row takes part in validation and saving when a project or an activity is selected. */
  predicate Filled(r: ReadRow) {
    r.project != "" || r.activity != ""
  }

  /**
   * A grouped row placed in the grid.  The project (activity) is selected only
   * when it is among the projects (activity types) the page offers; every day
   * shows its hours as `H:MM`, zero included.
   */
  function InstallRow(g: GroupRow, projects: set<string>, activities: set<string>): (r: GridRow)
    ensures r.notes == g.notes && r.billable == g.billable
    ensures r.project == (if g.project != "" && g.project in projects then g.project else "")
    ensures r.activity == (if g.activity != "" && g.activity in activities then g.activity else "")
    ensures forall d :: 0 <= d < 7 ==> r.times[d] == FormatHours(g.daily[d])
  {
    GridRow(if g.project != "" && g.project in projects then g.project else "",
            if g.activity != "" && g.activity in activities then g.activity else "",
            seq(7, d requires 0 <= d < 7 => FormatHours(g.daily[d])),
            g.notes, g.billable)
  }

  /** The rows the grid shows for grouped rows: each of them, then one empty row. */
  function InstallGrid(gs: seq<GroupRow>, projects: set<string>, activities: set<string>): (rows: seq<GridRow>)
    ensures |rows| == |gs| + 1 && rows[|gs|] == EmptyRow
    ensures forall i :: 0 <= i < |gs| ==> rows[i] == InstallRow(gs[i], projects, activities)
  {
    seq(|gs|, i requires 0 <= i < |gs| => InstallRow(gs[i], projects, activities)) + [EmptyRow]
  }

  /** Installing a row and reading its cells back gives each day's hours to within one hundredth. */
  lemma InstalledHoursWithinOne(g: GroupRow, projects: set<string>, activities: set<string>, d: nat)
    requires d < 7 && g.daily[d] <= 2400
    ensures g.daily[d] - 1 <= ParseTimeInput(InstallRow(g, projects, activities).times[d]) <= g.daily[d] + 1
  {
    FormatThenParseWithinOne(g.daily[d]);
  }

  /**
   * A grouped day above 24 hours is shown as its `H:MM` text but reads as 0,
   * so the totals, the validation and the collected logs leave it out.
   */
  lemma InstalledAboveDayReadsZero(g: GroupRow, projects: set<string>, activities: set<string>, d: nat)
    requires d < 7 && g.daily[d] > 2400
    ensures var r := InstallRow(g, projects, activities);
      r.times[d] == FormatHours(g.daily[d]) && Read(r).hours[d] == 0
  {
    FormatAboveDayReadsZero(g.daily[d]);
  }

  // ---------------------------------------------------------------------------
  // Validation

  datatype ValidationError =
    | ProjectRequired    // an activity without a project
    | ActivityRequired   // a project without an activity
    | NoHoursInRow       // a selected row without a positive hour
    | NoTimeEntered      // the week adds up to 0

  datatype ValidationWarning =
    | ExcessiveDay(position: nat, hours: nat)  // position among the row's positive cells
    | ExcessiveWeek(total: nat)

  datatype Validation = Validation(valid: bool, errors: seq<ValidationError>, warnings: seq<ValidationWarning>)

  /** The positive values among `hs`, in order. */
  function PositiveHours(hs: seq<nat>): (ps: seq<nat>)
    ensures forall j :: 0 <= j < |ps| ==> ps[j] > 0
    decreases |hs|
  {
    if hs == [] then []
    else
      var h := hs[|hs| - 1];
      PositiveHours(hs[..|hs| - 1]) + if h > 0 then [h] else []
  }

  /** A warning for every positive cell above 12 hours, labelled by its place in `hs`. */
  function DayWarnings(hs: seq<nat>): (ws: seq<ValidationWarning>)
    decreases |hs|
  {
    if hs == [] then []
    else
      DayWarnings(hs[..|hs| - 1]) + if hs[|hs| - 1] > 1200 then [ExcessiveDay(|hs| - 1, hs[|hs| - 1])] else []
  }

  /** How one row fares: ignored, rejected with one error, or passed with its total and warnings. */
  datatype RowCheck = Skipped | Failed(error: ValidationError) | Passed(total: nat, warnings: seq<ValidationWarning>)

  function CheckRow(r: ReadRow): RowCheck {
    if !Filled(r) then Skipped
    else if r.project == "" then Failed(ProjectRequired)
    else if r.activity == "" then Failed(ActivityRequired)
    else
      var hs := PositiveHours(r.hours);
      if hs == [] then Failed(NoHoursInRow) else Passed(Sum(hs), DayWarnings(hs))
  }

  datatype Tally = Tally(errors: seq<ValidationError>, warnings: seq<ValidationWarning>, total: nat)

  /** Errors, warnings and passed hours of the rows, in row order. */
  function TallyRows(rows: seq<ReadRow>): Tally
    decreases |rows|
  {
    if rows == [] then Tally([], [], 0)
    else
      AddCheck(TallyRows(rows[..|rows| - 1]), CheckRow(rows[|rows| - 1]))
  }

  /** The tally after one more row's check. */
  function AddCheck(t: Tally, c: RowCheck): Tally {
    match c
    case Skipped => t
    case Failed(e) => t.(errors := t.errors + [e])
    case Passed(n, ws) => Tally(t.errors, t.warnings + ws, t.total + n)
  }

  lemma TallyStep(rs: seq<ReadRow>, i: nat)
    requires i < |rs|
    ensures TallyRows(rs[..i + 1]) == AddCheck(TallyRows(rs[..i]), CheckRow(rs[i]))
  {
    assert rs[..i + 1][..i] == rs[..i];
  }

  /** What validation reports: the checks on the week total come after the rows. */
  function Validate(rows: seq<ReadRow>): Validation {
    var t := TallyRows(rows);
    var warnings := t.warnings + if t.total > 6000 then [ExcessiveWeek(t.total)] else [];
    var errors := t.errors + if t.total == 0 then [NoTimeEntered] else [];
    Validation(errors == [], errors, warnings)
  }

  /** Validation as the page runs it: a pass over the rows and, in each, over its seven cells. */
  method ValidateTimesheet(rows: seq<GridRow>) returns (v: Validation)
    ensures v == Validate(ReadGrid(rows))
  {
    ghost var rs := ReadGrid(rows);
    var errors: seq<ValidationError> := [];
    var warnings: seq<ValidationWarning> := [];
    var totalWeekHours: nat := 0;
    var i := 0;
    while i < |rows|
      invariant 0 <= i <= |rows|
      invariant Tally(errors, warnings, totalWeekHours) == TallyRows(rs[..i])
    {
      TallyStep(rs, i);
      ghost var before := Tally(errors, warnings, totalWeekHours);
      var c := ValidateRow(rows[i]);
      assert c == CheckRow(rs[i]);
      match c {
        case Skipped =>
        case Failed(e) =>
          errors := errors + [e];
        case Passed(rowTotal, rowWarnings) =>
          warnings := warnings + rowWarnings;
          totalWeekHours := totalWeekHours + rowTotal;
      }
      assert Tally(errors, warnings, totalWeekHours) == AddCheck(before, c);
      i := i + 1;
    }
    assert rs[..i] == rs;
    if totalWeekHours > 6000 {
      warnings := warnings + [ExcessiveWeek(totalWeekHours)];
    }
    if totalWeekHours == 0 {
      errors := errors + [NoTimeEntered];
    }
    v := Validation(|errors| == 0, errors, warnings);
  }

  /** The checks on one row, returning early as soon as one fails. */
  method ValidateRow(r: GridRow) returns (c: RowCheck)
    ensures c == CheckRow(Read(r))
  {
    if r.project == "" && r.activity == "" {
      return Skipped;
    }
    if r.project == "" {
      return Failed(ProjectRequired);
    }
    if r.activity == "" {
      return Failed(ActivityRequired);
    }
    var rowHours, rowTotal := ReadRowHours(r);
    if |rowHours| == 0 {
      return Failed(NoHoursInRow);
    }
    var rowWarnings := RowWarnings(rowHours);
    return Passed(rowTotal, rowWarnings);
  }

  /** The positive cells of a row and their sum, in one pass over the seven days. */
  method ReadRowHours(r: GridRow) returns (rowHours: seq<nat>, rowTotal: nat)
    ensures rowHours == PositiveHours(Read(r).hours) && rowTotal == Sum(rowHours)
  {
    ghost var readings := Readings(r);
    rowTotal := 0;
    rowHours := [];
    var day := 0;
    while day < 7
      invariant 0 <= day <= 7
      invariant rowHours == PositiveHours(readings[..day]) && rowTotal == Sum(rowHours)
    {
      assert readings[..day + 1][..day] == readings[..day];
      var hours := ParseTimeInput(r.times[day]);
      assert hours == readings[day];
      if hours > 0 {
        SumAppend(rowHours, [hours]);
        rowHours := rowHours + [hours];
        rowTotal := rowTotal + hours;
      }
      day := day + 1;
    }
    assert readings[..7] == readings;
  }

  /** The day warnings of a row's positive cells. */
  method RowWarnings(rowHours: seq<nat>) returns (ws: seq<ValidationWarning>)
    ensures ws == DayWarnings(rowHours)
  {
    ws := [];
    var j := 0;
    while j < |rowHours|
      invariant 0 <= j <= |rowHours|
      invariant ws == DayWarnings(rowHours[..j])
    {
      assert rowHours[..j + 1][..j] == rowHours[..j];
      if rowHours[j] > 1200 {
        ws := ws + [ExcessiveDay(j, rowHours[j])];
      }
      j := j + 1;
    }
    assert rowHours[..j] == rowHours;
  }

  /** A selected row passes validation when both fields are set and some cell reads positive. */
  predicate RowComplete(r: ReadRow) {
    r.project != "" && r.activity != "" && exists d :: 0 <= d < 7 && r.hours[d] > 0
  }

  lemma {:induction false} NoPositiveHours(hs: seq<nat>)
    ensures PositiveHours(hs) == [] <==> forall d :: 0 <= d < |hs| ==> hs[d] == 0
    decreases |hs|
  {
    if hs != [] {
      var p := hs[..|hs| - 1];
      NoPositiveHours(p);
      assert forall d :: 0 <= d < |p| ==> p[d] == hs[d];
    }
  }

  lemma SumOfPositives(hs: seq<nat>)
    requires hs != [] && forall j :: 0 <= j < |hs| ==> hs[j] > 0
    ensures Sum(hs) > 0
  {
    assert hs[|hs| - 1] > 0;
  }

  /** A row passes exactly when it is selected and complete, and then adds a positive total. */
  lemma CheckRowPasses(r: ReadRow)
    ensures CheckRow(r).Passed? <==> Filled(r) && RowComplete(r)
    ensures CheckRow(r).Failed? <==> Filled(r) && !RowComplete(r)
    ensures CheckRow(r).Passed? ==> CheckRow(r).total > 0
  {
    NoPositiveHours(r.hours);
    var hs := PositiveHours(r.hours);
    if hs != [] {
      SumOfPositives(hs);
    }
  }

  lemma {:induction false} TallyErrors(rows: seq<ReadRow>)
    ensures TallyRows(rows).errors == [] <==> forall i :: 0 <= i < |rows| && Filled(rows[i]) ==> RowComplete(rows[i])
    decreases |rows|
  {
    if rows != [] {
      var p := rows[..|rows| - 1];
      TallyErrors(p);
      CheckRowPasses(rows[|rows| - 1]);
      assert forall i :: 0 <= i < |p| ==> p[i] == rows[i];
    }
  }

  lemma {:induction false} TallyTotal(rows: seq<ReadRow>)
    ensures TallyRows(rows).total > 0 <==> exists i :: 0 <= i < |rows| && Filled(rows[i]) && RowComplete(rows[i])
    decreases |rows|
  {
    if rows != [] {
      var p := rows[..|rows| - 1];
      TallyTotal(p);
      CheckRowPasses(rows[|rows| - 1]);
      assert forall i :: 0 <= i < |p| ==> p[i] == rows[i];
    }
  }

  /**
   * The grid is valid exactly when every selected row has a project, an
   * activity and a positive cell, and at least one row is selected.  Large
   * values only ever add warnings.
   */
  lemma ValidIff(rows: seq<ReadRow>)
    ensures Validate(rows).valid <==>
      (forall i :: 0 <= i < |rows| && Filled(rows[i]) ==> RowComplete(rows[i]))
      && exists i :: 0 <= i < |rows| && Filled(rows[i])
    ensures Validate(rows).valid <==> Validate(rows).errors == []
  {
    TallyErrors(rows);
    TallyTotal(rows);
  }

  /** A grid with no selected row fails with exactly one error and no warning. */
  lemma {:induction false} NothingSelected(rows: seq<ReadRow>)
    requires forall i :: 0 <= i < |rows| ==> !Filled(rows[i])
    ensures TallyRows(rows) == Tally([], [], 0)
    ensures Validate(rows) == Validation(false, [NoTimeEntered], [])
    decreases |rows|
  {
    if rows != [] {
      var p := rows[..|rows| - 1];
      assert forall i :: 0 <= i < |p| ==> p[i] == rows[i];
      NothingSelected(p);
    }
  }

  // ---------------------------------------------------------------------------
  // Totals

  /** Hours of the cells whose hidden flag is 1. */
  function BillableOf(hs: seq<nat>, fs: seq<int>): nat
    requires |hs| == |fs|
    decreases |hs|
  {
    if hs == [] then 0
    else BillableOf(hs[..|hs| - 1], fs[..|fs| - 1]) + if fs[|fs| - 1] == 1 then hs[|hs| - 1] else 0
  }

  /** Hours of the cells whose hidden flag is anything but 1. */
  function NonBillableOf(hs: seq<nat>, fs: seq<int>): nat
    requires |hs| == |fs|
    decreases |hs|
  {
    if hs == [] then 0
    else NonBillableOf(hs[..|hs| - 1], fs[..|fs| - 1]) + if fs[|fs| - 1] != 1 then hs[|hs| - 1] else 0
  }

  function RowTotal(r: ReadRow): nat {
    Sum(r.hours)
  }

  function DayTotal(rs: seq<ReadRow>, d: nat): nat
    requires d < 7
    decreases |rs|
  {
    if rs == [] then 0 else DayTotal(rs[..|rs| - 1], d) + rs[|rs| - 1].hours[d]
  }

  function DayTotals(rs: seq<ReadRow>): seq<nat> {
    seq(7, d requires 0 <= d < 7 => DayTotal(rs, d))
  }

  function RowTotals(rs: seq<ReadRow>): seq<nat> {
    seq(|rs|, i requires 0 <= i < |rs| => RowTotal(rs[i]))
  }

  function WeekTotal(rs: seq<ReadRow>): nat
    decreases |rs|
  {
    if rs == [] then 0 else WeekTotal(rs[..|rs| - 1]) + RowTotal(rs[|rs| - 1])
  }

  function BillableTotal(rs: seq<ReadRow>): nat
    decreases |rs|
  {
    if rs == [] then 0
    else BillableTotal(rs[..|rs| - 1]) + BillableOf(rs[|rs| - 1].hours, rs[|rs| - 1].billable)
  }

  function NonBillableTotal(rs: seq<ReadRow>): nat
    decreases |rs|
  {
    if rs == [] then 0
    else NonBillableTotal(rs[..|rs| - 1]) + NonBillableOf(rs[|rs| - 1].hours, rs[|rs| - 1].billable)
  }

  /** The figures the totals row and the summary show. */
  datatype Totals = Totals(rowTotals: seq<nat>, dayTotals: seq<nat>, week: nat, billable: nat, nonBillable: nat)

  /**
   * The totals as the page computes them: every row counts, selected or not,
   * and each cell goes to the billable or the non-billable sum by its flag.
   */
  method CalculateTotals(rows: seq<GridRow>) returns (t: Totals)
    ensures t.rowTotals == RowTotals(ReadGrid(rows))
    ensures t.dayTotals == DayTotals(ReadGrid(rows))
    ensures t.week == WeekTotal(ReadGrid(rows))
    ensures t.billable == BillableTotal(ReadGrid(rows)) && t.nonBillable == NonBillableTotal(ReadGrid(rows))
  {
    ghost var rs := ReadGrid(rows);
    var dayTotals: seq<nat> := [0, 0, 0, 0, 0, 0, 0];
    var rowTotals: seq<nat> := [];
    var weekTotal: nat := 0;
    var billableTotal: nat := 0;
    var nonBillableTotal: nat := 0;
    var i := 0;
    while i < |rows|
      invariant 0 <= i <= |rows|
      invariant |dayTotals| == 7 && forall d :: 0 <= d < 7 ==> dayTotals[d] == DayTotal(rs[..i], d)
      invariant rowTotals == RowTotals(rs[..i])
      invariant weekTotal == WeekTotal(rs[..i])
      invariant billableTotal == BillableTotal(rs[..i]) && nonBillableTotal == NonBillableTotal(rs[..i])
    {
      RowStep(rs, i);
      assert rs[i].hours == Readings(rows[i]) && rs[i].billable == rows[i].billable;
      ghost var before := dayTotals;
      var rowTotal, billable, nonBillable;
      dayTotals, rowTotal, billable, nonBillable := AddRow(rows[i], dayTotals);
      DayTotalsAfterRow(rs, i, before, dayTotals);
      assert rowTotal == RowTotal(rs[i]);
      rowTotals := rowTotals + [rowTotal];
      weekTotal := weekTotal + rowTotal;
      billableTotal := billableTotal + billable;
      nonBillableTotal := nonBillableTotal + nonBillable;
      i := i + 1;
    }
    assert rs[..i] == rs;
    assert dayTotals == DayTotals(rs) by {
      forall d | 0 <= d < 7 ensures dayTotals[d] == DayTotals(rs)[d] {
      }
    }
    t := Totals(rowTotals, dayTotals, weekTotal, billableTotal, nonBillableTotal);
  }

  /** One row's pass over its seven cells, adding each to its day's total. */
  method AddRow(r: GridRow, dayTotals: seq<nat>) returns (dayTotals': seq<nat>, rowTotal: nat, billable: nat, nonBillable: nat)
    requires |dayTotals| == 7
    ensures |dayTotals'| == 7 && forall d :: 0 <= d < 7 ==> dayTotals'[d] == dayTotals[d] + Readings(r)[d]
    ensures rowTotal == Sum(Readings(r))
    ensures billable == BillableOf(Readings(r), r.billable)
    ensures nonBillable == NonBillableOf(Readings(r), r.billable)
  {
    ghost var read: seq<nat> := [];
    dayTotals' := dayTotals;
    rowTotal, billable, nonBillable := 0, 0, 0;
    var day := 0;
    while day < 7
      invariant 0 <= day <= 7 && |dayTotals'| == 7
      invariant read == ReadFirst(r.times, day)
      invariant forall d :: 0 <= d < 7 ==> dayTotals'[d] == dayTotals[d] + if d < day then read[d] else 0
      invariant rowTotal == Sum(read)
      invariant billable == BillableOf(read, r.billable[..day])
      invariant nonBillable == NonBillableOf(read, r.billable[..day])
    {
      var hours := ParseTimeInput(r.times[day]);
      AddCell(read, r.billable, hours, rowTotal, billable, nonBillable);
      read := read + [hours];
      dayTotals' := dayTotals'[day := dayTotals'[day] + hours];
      rowTotal := rowTotal + hours;
      if r.billable[day] == 1 {
        billable := billable + hours;
      } else {
        nonBillable := nonBillable + hours;
      }
      day := day + 1;
    }
    ReadFirstAll(r);
    assert r.billable[..7] == r.billable;
  }

  /** The running sums after one more cell. */
  lemma AddCell(read: seq<nat>, fs: seq<int>, hours: nat, rowTotal: nat, billable: nat, nonBillable: nat)
    requires |read| < |fs| && rowTotal == Sum(read)
    requires billable == BillableOf(read, fs[..|read|]) && nonBillable == NonBillableOf(read, fs[..|read|])
    ensures var n := |read|;
      && rowTotal + hours == Sum(read + [hours])
      && (if fs[n] == 1 then billable + hours else billable) == BillableOf(read + [hours], fs[..n + 1])
      && (if fs[n] != 1 then nonBillable + hours else nonBillable) == NonBillableOf(read + [hours], fs[..n + 1])
  {
    var n := |read|;
    CellStep(read + [hours], fs[..n + 1], n);
    assert (read + [hours])[..n] == read && (read + [hours])[..n + 1] == read + [hours];
    assert fs[..n + 1][..n] == fs[..n];
  }

  /** The readings of the first k cells, one cell at a time. */
  function ReadFirst(ts: seq<string>, k: nat): (hs: seq<nat>)
    requires k <= |ts|
    ensures |hs| == k
  {
    if k == 0 then [] else ReadFirst(ts, k - 1) + [ParseTimeInput(ts[k - 1])]
  }

  lemma {:induction false} ReadFirstAt(ts: seq<string>, k: nat, i: nat)
    requires i < k <= |ts|
    ensures ReadFirst(ts, k)[i] == ParseTimeInput(ts[i])
    decreases k
  {
    if i < k - 1 {
      ReadFirstAt(ts, k - 1, i);
    }
  }

  lemma ReadFirstAll(r: GridRow)
    ensures ReadFirst(r.times, 7) == Readings(r)
  {
    forall i | 0 <= i < 7 ensures ReadFirst(r.times, 7)[i] == Readings(r)[i] {
      ReadFirstAt(r.times, 7, i);
    }
  }

  /** The day totals after one more row, given those before it. */
  lemma DayTotalsAfterRow(rs: seq<ReadRow>, i: nat, before: seq<nat>, after: seq<nat>)
    requires i < |rs| && |before| == 7 && |after| == 7
    requires forall d :: 0 <= d < 7 ==> before[d] == DayTotal(rs[..i], d)
    requires forall d :: 0 <= d < 7 ==> after[d] == before[d] + rs[i].hours[d]
    ensures forall d :: 0 <= d < 7 ==> after[d] == DayTotal(rs[..i + 1], d)
  {
    RowStep(rs, i);
  }

  /** The totals after one more row. */
  lemma RowStep(rs: seq<ReadRow>, i: nat)
    requires i < |rs|
    ensures forall d :: 0 <= d < 7 ==> DayTotal(rs[..i + 1], d) == DayTotal(rs[..i], d) + rs[i].hours[d]
    ensures RowTotals(rs[..i + 1]) == RowTotals(rs[..i]) + [RowTotal(rs[i])]
    ensures WeekTotal(rs[..i + 1]) == WeekTotal(rs[..i]) + RowTotal(rs[i])
    ensures BillableTotal(rs[..i + 1]) == BillableTotal(rs[..i]) + BillableOf(rs[i].hours, rs[i].billable)
    ensures NonBillableTotal(rs[..i + 1]) == NonBillableTotal(rs[..i]) + NonBillableOf(rs[i].hours, rs[i].billable)
  {
    var q := rs[..i + 1];
    assert q[..i] == rs[..i] && q[i] == rs[i];
  }

  lemma DayTotalsStep(rs: seq<ReadRow>)
    requires rs != []
    ensures DayTotals(rs) == seq(7, d requires 0 <= d < 7 => DayTotals(rs[..|rs| - 1])[d] + rs[|rs| - 1].hours[d])
  {
    var a := DayTotals(rs[..|rs| - 1]);
    var b := seq(7, d requires 0 <= d < 7 => a[d] + rs[|rs| - 1].hours[d]);
    forall d | 0 <= d < 7 ensures DayTotals(rs)[d] == b[d] {
      assert DayTotals(rs)[d] == DayTotal(rs, d);
    }
  }

  /** Taking in one more cell adds it to the row total and to one of its two parts. */
  lemma CellStep(hs: seq<nat>, fs: seq<int>, n: nat)
    requires |hs| == |fs| && n < |hs|
    ensures Sum(hs[..n + 1]) == Sum(hs[..n]) + hs[n]
    ensures BillableOf(hs[..n + 1], fs[..n + 1]) == BillableOf(hs[..n], fs[..n]) + if fs[n] == 1 then hs[n] else 0
    ensures NonBillableOf(hs[..n + 1], fs[..n + 1]) == NonBillableOf(hs[..n], fs[..n]) + if fs[n] != 1 then hs[n] else 0
  {
    assert hs[..n + 1][..n] == hs[..n];
    assert fs[..n + 1][..n] == fs[..n];
  }

  lemma {:induction false} BillableSplit(hs: seq<nat>, fs: seq<int>)
    requires |hs| == |fs|
    ensures BillableOf(hs, fs) + NonBillableOf(hs, fs) == Sum(hs)
    decreases |hs|
  {
    if hs != [] {
      BillableSplit(hs[..|hs| - 1], fs[..|fs| - 1]);
    }
  }

  /** Every cell goes to exactly one of the billable and non-billable sums. */
  lemma {:induction false} TotalsBalance(rs: seq<ReadRow>)
    ensures BillableTotal(rs) + NonBillableTotal(rs) == WeekTotal(rs)
    decreases |rs|
  {
    if rs != [] {
      var r := rs[|rs| - 1];
      TotalsBalance(rs[..|rs| - 1]);
      BillableSplit(r.hours, r.billable);
    }
  }

  lemma {:induction false} SumPointwise(a: seq<nat>, b: seq<nat>)
    requires |a| == |b|
    ensures Sum(seq(|a|, i requires 0 <= i < |a| => a[i] + b[i])) == Sum(a) + Sum(b)
    decreases |a|
  {
    if a != [] {
      var n := |a| - 1;
      var c := seq(|a|, i requires 0 <= i < |a| => a[i] + b[i]);
      assert c[..n] == seq(n, i requires 0 <= i < n => a[..n][i] + b[..n][i]);
      SumPointwise(a[..n], b[..n]);
    }
  }

  lemma {:induction false} SumOfZeros(s: seq<nat>)
    requires forall i :: 0 <= i < |s| ==> s[i] == 0
    ensures Sum(s) == 0
    decreases |s|
  {
    if s != [] {
      SumOfZeros(s[..|s| - 1]);
    }
  }

  /** The week total is the sum of the seven day totals. */
  lemma {:induction false} WeekIsSumOfDays(rs: seq<ReadRow>)
    ensures Sum(DayTotals(rs)) == WeekTotal(rs)
    decreases |rs|
  {
    if rs == [] {
      SumOfZeros(DayTotals(rs));
    } else {
      var p := rs[..|rs| - 1];
      var r := rs[|rs| - 1];
      WeekIsSumOfDays(p);
      DayTotalsStep(rs);
      SumPointwise(DayTotals(p), r.hours);
    }
  }

  /** The week total is the sum of the row totals. */
  lemma {:induction false} WeekIsSumOfRows(rs: seq<ReadRow>)
    ensures Sum(RowTotals(rs)) == WeekTotal(rs)
    decreases |rs|
  {
    if rs != [] {
      var p := rs[..|rs| - 1];
      WeekIsSumOfRows(p);
      assert RowTotals(rs)[..|p|] == RowTotals(p);
    }
  }

  // ---------------------------------------------------------------------------
  // Collecting the time logs to save

  /** Seconds from midnight to the 09:00 start every collected log gets. */
  const NineAm: int := 9 * 3600

  /** Seconds in one hundredth of an hour. */
  const SecondsPerHundredth: int := 36

  /** A time log as sent to the server; "" stands for `null`. */
  datatype TimeLog = TimeLog(
    project: string, task: string, activity: string,
    hours: nat, isBillable: int, billingHours: nat,
    fromTime: int, toTime: int, description: string)

  /** The log of one cell: day `d` of the week starting on day `start`. */
  function CellLog(project: string, activity: string, hours: nat, flag: int, note: string, d: nat, start: int): TimeLog {
    var from := (start + d) * SecondsPerDay + NineAm;
    TimeLog(project, "", activity, hours, flag, if flag != 0 then hours else 0,
            from, from + SecondsPerHundredth * hours, note)
  }

  /** The log for day `d` of a row. */
  function DayLog(r: ReadRow, d: nat, start: int): TimeLog
    requires d < 7
  {
    CellLog(r.project, r.activity, r.hours[d], r.billable[d], r.notes[d], d, start)
  }

  /** The logs of the row's first `n` days: one per positive cell. */
  function RowLogs(r: ReadRow, start: int, n: nat): seq<TimeLog>
    requires n <= 7
  {
    if n == 0 then []
    else RowLogs(r, start, n - 1) + if r.hours[n - 1] > 0 then [DayLog(r, n - 1, start)] else []
  }

  /** The logs of all selected rows, row by row. */
  function Collected(rs: seq<ReadRow>, start: int): seq<TimeLog>
    decreases |rs|
  {
    if rs == [] then []
    else
      var r := rs[|rs| - 1];
      Collected(rs[..|rs| - 1], start) + if Filled(r) then RowLogs(r, start, 7) else []
  }

  /** Collecting as the page does it: rows in order and, in each selected row, days in order. */
  method CollectTimeEntries(rows: seq<GridRow>, start: int) returns (logs: seq<TimeLog>)
    ensures logs == Collected(ReadGrid(rows), start)
  {
    ghost var rs := ReadGrid(rows);
    logs := [];
    var i := 0;
    while i < |rows|
      invariant 0 <= i <= |rows|
      invariant logs == Collected(rs[..i], start)
    {
      assert rs[..i + 1][..i] == rs[..i];
      assert rs[i] == Read(rows[i]);
      var r := rows[i];
      if r.project != "" || r.activity != "" {
        var rowLogs := RowEntries(r, start);
        logs := logs + rowLogs;
      }
      i := i + 1;
    }
    assert rs[..i] == rs;
  }

  method RowEntries(r: GridRow, start: int) returns (logs: seq<TimeLog>)
    ensures logs == RowLogs(Read(r), start, 7)
  {
    ghost var rr := Read(r);
    logs := [];
    var day := 0;
    while day < 7
      invariant 0 <= day <= 7
      invariant logs == RowLogs(rr, start, day)
    {
      var hours := ParseTimeInput(r.times[day]);
      assert hours == rr.hours[day];
      if hours > 0 {
        logs := logs + [CellLog(r.project, r.activity, hours, r.billable[day], r.notes[day], day, start)];
      }
      day := day + 1;
    }
  }

  /** The day, counted from the week start, that a log's start time falls on. */
  function LogDay(l: TimeLog, start: int): int {
    (l.fromTime - start * SecondsPerDay) / SecondsPerDay
  }

  /**
   * What every collected log looks like: positive hours, no task, a project or
   * an activity, billing hours equal to the hours exactly when the flag is
   * set, and a span from 09:00 of its day for as long as its hours.
   */
  predicate WellFormedLog(l: TimeLog, start: int) {
    l.hours > 0 && l.task == "" && (l.project != "" || l.activity != "")
    && l.billingHours == (if l.isBillable != 0 then l.hours else 0)
    && 0 <= LogDay(l, start) < 7
    && l.fromTime == (start + LogDay(l, start)) * SecondsPerDay + NineAm
    && l.toTime == l.fromTime + SecondsPerHundredth * l.hours
  }

  lemma DayLogLandsOnItsDay(r: ReadRow, d: nat, start: int)
    requires d < 7 && Filled(r) && r.hours[d] > 0
    ensures WellFormedLog(DayLog(r, d, start), start) && LogDay(DayLog(r, d, start), start) == d
  {
    var l := DayLog(r, d, start);
    assert l.fromTime - start * SecondsPerDay == d * SecondsPerDay + NineAm;
  }

  lemma {:induction false} RowLogsWellFormed(r: ReadRow, start: int, n: nat)
    requires n <= 7 && Filled(r)
    ensures forall l :: l in RowLogs(r, start, n) ==> WellFormedLog(l, start)
  {
    if n > 0 {
      RowLogsWellFormed(r, start, n - 1);
      if r.hours[n - 1] > 0 {
        DayLogLandsOnItsDay(r, n - 1, start);
      }
    }
  }

  lemma {:induction false} CollectedWellFormed(rs: seq<ReadRow>, start: int)
    ensures forall l :: l in Collected(rs, start) ==> WellFormedLog(l, start)
    decreases |rs|
  {
    if rs != [] {
      var r := rs[|rs| - 1];
      CollectedWellFormed(rs[..|rs| - 1], start);
      if Filled(r) {
        RowLogsWellFormed(r, start, 7);
      }
    }
  }

  function LogHours(logs: seq<TimeLog>): nat
    decreases |logs|
  {
    if logs == [] then 0 else LogHours(logs[..|logs| - 1]) + logs[|logs| - 1].hours
  }

  lemma {:induction false} LogHoursAppend(a: seq<TimeLog>, b: seq<TimeLog>)
    ensures LogHours(a + b) == LogHours(a) + LogHours(b)
    decreases |b|
  {
    if b == [] {
      assert a + b == a;
    } else {
      assert (a + b)[..|a + b| - 1] == a + b[..|b| - 1];
      LogHoursAppend(a, b[..|b| - 1]);
    }
  }

  /** Hours of the selected rows only. */
  function FilledTotal(rs: seq<ReadRow>): nat
    decreases |rs|
  {
    if rs == [] then 0
    else FilledTotal(rs[..|rs| - 1]) + if Filled(rs[|rs| - 1]) then RowTotal(rs[|rs| - 1]) else 0
  }

  lemma {:induction false} RowLogsHours(r: ReadRow, start: int, n: nat)
    requires n <= 7
    ensures LogHours(RowLogs(r, start, n)) == Sum(r.hours[..n])
  {
    if n > 0 {
      RowLogsHours(r, start, n - 1);
      assert r.hours[..n][..n - 1] == r.hours[..n - 1];
      var tail := if r.hours[n - 1] > 0 then [DayLog(r, n - 1, start)] else [];
      LogHoursAppend(RowLogs(r, start, n - 1), tail);
      assert LogHours(tail) == r.hours[n - 1] by {
        if tail != [] {
          assert tail[..0] == [];
        }
      }
    }
  }

  /** The collected logs carry exactly the hours of the selected rows. */
  lemma {:induction false} CollectedHours(rs: seq<ReadRow>, start: int)
    ensures LogHours(Collected(rs, start)) == FilledTotal(rs)
    decreases |rs|
  {
    if rs != [] {
      var r := rs[|rs| - 1];
      var p := rs[..|rs| - 1];
      CollectedHours(p, start);
      var tail := if Filled(r) then RowLogs(r, start, 7) else [];
      LogHoursAppend(Collected(p, start), tail);
      RowLogsHours(r, start, 7);
      assert r.hours[..7] == r.hours;
    }
  }

  /**
   * A row with neither project nor activity adds its hours to the week total
   * the page shows, and adds no log to what is saved.
   */
  lemma UnselectedHoursNotSaved(rs: seq<ReadRow>, r: ReadRow, start: int)
    requires !Filled(r)
    ensures Collected(rs + [r], start) == Collected(rs, start)
    ensures WeekTotal(rs + [r]) == WeekTotal(rs) + RowTotal(r)
  {
    assert (rs + [r])[..|rs + [r]| - 1] == rs;
  }

  lemma {:induction false} SumOfPositiveHours(hs: seq<nat>)
    ensures Sum(PositiveHours(hs)) == Sum(hs)
    decreases |hs|
  {
    if hs != [] {
      var h := hs[|hs| - 1];
      SumOfPositiveHours(hs[..|hs| - 1]);
      SumAppend(PositiveHours(hs[..|hs| - 1]), if h > 0 then [h] else []);
      assert Sum([h]) == h by {
        assert [h][..0] == [];
      }
    }
  }

  lemma {:induction false} TallyWithinFilled(rs: seq<ReadRow>)
    ensures TallyRows(rs).total <= FilledTotal(rs)
    decreases |rs|
  {
    if rs != [] {
      var r := rs[|rs| - 1];
      TallyWithinFilled(rs[..|rs| - 1]);
      SumOfPositiveHours(r.hours);
    }
  }

  /** A grid that passes validation always yields logs, so saving never reports "no time entries" after it. */
  lemma ValidGridHasLogs(rs: seq<ReadRow>, start: int)
    requires Validate(rs).valid
    ensures Collected(rs, start) != []
  {
    TallyWithinFilled(rs);
    CollectedHours(rs, start);
  }

  // ---------------------------------------------------------------------------
  // Meaningful changes

  /** A time cell counts as a change when it holds more than blanks and is not "0:00". */
  predicate MeaningfulTime(v: string) {
    v != "" && Trim(v) != "" && v != "0:00"
  }

  /** A project or activity field counts as a change when it holds more than blanks. */
  predicate MeaningfulChoice(v: string) {
    v != "" && Trim(v) != ""
  }

  /** Some time cell of the row holds a meaningful value. */
  predicate RowHasTime(r: GridRow) {
    exists d :: 0 <= d < 7 && MeaningfulTime(r.times[d])
  }

  predicate HasTimeEntries(rows: seq<GridRow>) {
    exists i :: 0 <= i < |rows| && RowHasTime(rows[i])
  }

  predicate HasSelections(rows: seq<GridRow>) {
    exists i :: 0 <= i < |rows| && (MeaningfulChoice(rows[i].project) || MeaningfulChoice(rows[i].activity))
  }

  predicate HasMeaningfulChanges(rows: seq<GridRow>) {
    HasTimeEntries(rows) || HasSelections(rows)
  }

  /** The page's check: scan the time cells, then the selections, each stopping at the first hit. */
  method CheckMeaningfulChanges(rows: seq<GridRow>) returns (b: bool)
    ensures b <==> HasMeaningfulChanges(rows)
  {
    var hasTimeEntries := ScanTimes(rows);
    var hasSelections := ScanSelections(rows);
    b := hasTimeEntries || hasSelections;
  }

  /** The scan over the time cells, row by row. */
  method ScanTimes(rows: seq<GridRow>) returns (hasTimeEntries: bool)
    ensures hasTimeEntries <==> HasTimeEntries(rows)
  {
    var i := 0;
    while i < |rows|
      invariant 0 <= i <= |rows|
      invariant forall i' :: 0 <= i' < i ==> !RowHasTime(rows[i'])
    {
      var found := ScanRowTimes(rows[i]);
      if found {
        assert 0 <= i < |rows| && RowHasTime(rows[i]);
        return true;
      }
      i := i + 1;
    }
    return false;
  }

  /** The scan over one row's seven time cells. */
  method ScanRowTimes(r: GridRow) returns (found: bool)
    ensures found <==> RowHasTime(r)
  {
    var day := 0;
    while day < 7
      invariant 0 <= day <= 7
      invariant forall d :: 0 <= d < day ==> !MeaningfulTime(r.times[d])
    {
      var value := r.times[day];
      if MeaningfulTime(value) {
        assert 0 <= day < 7 && MeaningfulTime(r.times[day]);
        return true;
      }
      day := day + 1;
    }
    return false;
  }

  /** The scan over the rows' project and activity fields. */
  method ScanSelections(rows: seq<GridRow>) returns (hasSelections: bool)
    ensures hasSelections <==> HasSelections(rows)
  {
    hasSelections := false;
    var j := 0;
    while j < |rows|
      invariant 0 <= j <= |rows|
      invariant forall j' :: 0 <= j' < j ==> !MeaningfulChoice(rows[j'].project) && !MeaningfulChoice(rows[j'].activity)
    {
      var project := rows[j].project;
      var activity := rows[j].activity;
      if MeaningfulChoice(project) || MeaningfulChoice(activity) {
        assert 0 <= j < |rows| && (MeaningfulChoice(rows[j].project) || MeaningfulChoice(rows[j].activity));
        return true;
      }
      j := j + 1;
    }
  }

  /** Every cell reads as zero hours. */
  predicate NoHours(rs: seq<ReadRow>) {
    forall i, d :: 0 <= i < |rs| && 0 <= d < 7 ==> rs[i].hours[d] == 0
  }

  lemma {:induction false} FilledWithinWeek(rs: seq<ReadRow>)
    ensures FilledTotal(rs) <= WeekTotal(rs)
    decreases |rs|
  {
    if rs != [] {
      FilledWithinWeek(rs[..|rs| - 1]);
    }
  }

  lemma {:induction false} NoHoursWeek(rs: seq<ReadRow>)
    requires NoHours(rs)
    ensures WeekTotal(rs) == 0
    decreases |rs|
  {
    if rs != [] {
      var p := rs[..|rs| - 1];
      assert forall i :: 0 <= i < |p| ==> p[i] == rs[i];
      NoHoursWeek(p);
      SumOfZeros(rs[|rs| - 1].hours);
    }
  }

  lemma LogsCarryHours(logs: seq<TimeLog>, start: int)
    requires forall l :: l in logs ==> WellFormedLog(l, start)
    ensures logs != [] ==> LogHours(logs) > 0
  {
    if logs != [] {
      assert logs[|logs| - 1] in logs;
    }
  }

  /** A grid whose cells all read zero shows a zero week, saves nothing and fails validation. */
  lemma NoHoursNothingToSave(rs: seq<ReadRow>, start: int)
    requires NoHours(rs)
    ensures WeekTotal(rs) == 0 && Collected(rs, start) == [] && !Validate(rs).valid
  {
    NoHoursWeek(rs);
    FilledWithinWeek(rs);
    CollectedHours(rs, start);
    CollectedWellFormed(rs, start);
    LogsCarryHours(Collected(rs, start), start);
    ValidIff(rs);
  }

  /** A grid without meaningful changes reads as zero everywhere, so there is nothing to keep. */
  lemma NothingMeaningfulMeansNoHours(rows: seq<GridRow>, start: int)
    requires !HasMeaningfulChanges(rows)
    ensures NoHours(ReadGrid(rows))
    ensures WeekTotal(ReadGrid(rows)) == 0 && Collected(ReadGrid(rows), start) == []
    ensures !Validate(ReadGrid(rows)).valid
  {
    var rs := ReadGrid(rows);
    forall i, d | 0 <= i < |rs| && 0 <= d < 7
      ensures rs[i].hours[d] == 0
    {
      if ParseTimeInput(rows[i].times[d]) > 0 {
        PositiveReadingIsMeaningful(rows[i].times[d]);
      }
    }
    NoHoursNothingToSave(rs, start);
  }

  /** The blank row the page appends is not a change. */
  lemma EmptyRowIsNoChange()
    ensures !HasMeaningfulChanges([EmptyRow])
  {
  }
}
