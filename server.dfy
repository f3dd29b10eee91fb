/**
 * The server side of saving and submitting: `save_weekly_timesheet` filters
 * the incoming logs, adds up the totals, finds the timesheet to update (by
 * name, then by employee and week) and refuses submitted ones, and
 * `submit_timesheet` accepts drafts only.  The database is a sequence of
 * timesheet documents in the order the database returns them; hours are
 * hundredths of an hour and dates are day numbers.
 */
module Server {
  import opened Basics
  import opened Calendar
  import opened Grid

  /**
   * A log as the server receives it.  `hours` is `None` when missing or
   * null; `billingHours` is `None` when the key is absent (an explicit null
   * reads as 0); `isBillable` is 0 when absent.
   */
  datatype IncomingLog = IncomingLog(
    project: string, task: string, activity: string,
    hours: Option<int>, isBillable: int, billingHours: Option<int>,
    fromTime: int, toTime: int, description: string)

  /** A stored time log row of a timesheet. */
  datatype Detail = Detail(
    project: string, task: string, activity: string,
    fromTime: int, toTime: int, hours: int, isBillable: int, billingHours: int,
    description: string)

  datatype Timesheet = Timesheet(
    name: string, employee: string, startDate: int, endDate: int,
    docstatus: int, logs: seq<Detail>)

  datatype SaveError =
    | EmployeeRequired
    | SubmittedTimesheet   // the timesheet found is submitted
    | CancelledTimesheet   // the timesheet found by name is cancelled, and the framework refuses to save it

  datatype SaveReply = SaveReply(name: string, totalHours: int, totalBillableHours: int, docstatus: int)

  datatype SaveResult = Saved(reply: SaveReply) | SaveRefused(error: SaveError)

  datatype SubmitResult = Submitted | SubmitRefused(notFound: bool)

  // ---------------------------------------------------------------------------
  // Logs and totals

  /** A log is kept when its hours are present and positive. */
  predicate Kept(l: IncomingLog) {
    l.hours.Some? && l.hours.value > 0
  }

  function ToDetail(l: IncomingLog): Detail
    requires Kept(l)
  {
    Detail(l.project, l.task, l.activity, l.fromTime, l.toTime, l.hours.value, l.isBillable,
           if l.billingHours.Some? then l.billingHours.value else 0, l.description)
  }

  /** What a kept log adds to the billable total: its billing hours when given, else its hours. */
  function BillableShare(l: IncomingLog): int
    requires Kept(l)
  {
    if l.isBillable == 0 then 0
    else if l.billingHours.Some? then l.billingHours.value
    else l.hours.value
  }

  /** The stored rows for `ls`: one per kept log, in order. */
  function Details(ls: seq<IncomingLog>): seq<Detail>
    decreases |ls|
  {
    if ls == [] then []
    else var l := ls[|ls| - 1];
      Details(ls[..|ls| - 1]) + if Kept(l) then [ToDetail(l)] else []
  }

  function TotalHours(ls: seq<IncomingLog>): int
    decreases |ls|
  {
    if ls == [] then 0
    else var l := ls[|ls| - 1];
      TotalHours(ls[..|ls| - 1]) + if Kept(l) then l.hours.value else 0
  }

  function TotalBillable(ls: seq<IncomingLog>): int
    decreases |ls|
  {
    if ls == [] then 0
    else var l := ls[|ls| - 1];
      TotalBillable(ls[..|ls| - 1]) + if Kept(l) then BillableShare(l) else 0
  }

  function DetailHours(ds: seq<Detail>): int
    decreases |ds|
  {
    if ds == [] then 0 else DetailHours(ds[..|ds| - 1]) + ds[|ds| - 1].hours
  }

  function DetailBillable(ds: seq<Detail>): int
    decreases |ds|
  {
    if ds == [] then 0
    else DetailBillable(ds[..|ds| - 1]) + if ds[|ds| - 1].isBillable != 0 then ds[|ds| - 1].billingHours else 0
  }

  lemma {:induction false} DetailHoursAppend(a: seq<Detail>, b: seq<Detail>)
    ensures DetailHours(a + b) == DetailHours(a) + DetailHours(b)
    ensures DetailBillable(a + b) == DetailBillable(a) + DetailBillable(b)
    decreases |b|
  {
    if b == [] {
      assert a + b == a;
    } else {
      assert (a + b)[..|a + b| - 1] == a + b[..|b| - 1];
      DetailHoursAppend(a, b[..|b| - 1]);
    }
  }

  /** Every stored row has positive hours, and the hours total is the sum over the stored rows. */
  lemma {:induction false} DetailsOfKept(ls: seq<IncomingLog>)
    ensures forall d :: d in Details(ls) ==> d.hours > 0
    ensures |Details(ls)| <= |ls|
    ensures TotalHours(ls) == DetailHours(Details(ls))
    decreases |ls|
  {
    if ls != [] {
      var l := ls[|ls| - 1];
      DetailsOfKept(ls[..|ls| - 1]);
      var tail := if Kept(l) then [ToDetail(l)] else [];
      DetailHoursAppend(Details(ls[..|ls| - 1]), tail);
      assert tail == [] || tail[..0] == [];
    }
  }

  /**
   * The billable total agrees with the stored billing hours except where a
   * billable log came without the billing-hours key: those count their hours
   * in the total but are stored with 0 billing hours.
   */
  lemma {:induction false} BillableFallback(ls: seq<IncomingLog>)
    ensures TotalBillable(ls) == DetailBillable(Details(ls)) + MissingBilling(ls)
    decreases |ls|
  {
    if ls != [] {
      var l := ls[|ls| - 1];
      BillableFallback(ls[..|ls| - 1]);
      var tail := if Kept(l) then [ToDetail(l)] else [];
      DetailHoursAppend(Details(ls[..|ls| - 1]), tail);
      assert tail == [] || tail[..0] == [];
    }
  }

  /** Hours of the kept billable logs that carry no billing-hours key. */
  function MissingBilling(ls: seq<IncomingLog>): int
    decreases |ls|
  {
    if ls == [] then 0
    else var l := ls[|ls| - 1];
      MissingBilling(ls[..|ls| - 1]) + if Kept(l) && l.isBillable != 0 && l.billingHours.None? then l.hours.value else 0
  }

  /**
   * A present billing value of 0 stays 0, even for a billable log: the log
   * adds its hours to the hours total and nothing to the billable total.
   */
  lemma ZeroBillingStaysZero(ls: seq<IncomingLog>, l: IncomingLog)
    requires Kept(l) && l.isBillable != 0 && l.billingHours == Some(0)
    ensures TotalBillable(ls + [l]) == TotalBillable(ls)
    ensures TotalHours(ls + [l]) == TotalHours(ls) + l.hours.value
  {
    assert (ls + [l])[..|ls + [l]| - 1] == ls;
  }

  // ---------------------------------------------------------------------------
  // Finding the timesheet to update

  /** The first timesheet with this name. */
  function FindByName(docs: seq<Timesheet>, name: string): (r: Option<nat>)
    ensures r.Some? ==> r.value < |docs| && docs[r.value].name == name
    ensures r.Some? ==> forall j :: 0 <= j < r.value ==> docs[j].name != name
    ensures r.None? ==> forall j :: 0 <= j < |docs| ==> docs[j].name != name
    decreases |docs|
  {
    if docs == [] then None
    else if docs[0].name == name then Some(0)
    else match FindByName(docs[1..], name) {
      case None => None
      case Some(i) => Some(i + 1)
    }
  }

  /** A timesheet of this employee for exactly this week that is not cancelled. */
  predicate OpenFor(t: Timesheet, employee: string, startDate: int) {
    t.employee == employee && t.startDate == startDate && t.endDate == startDate + 6 && t.docstatus < 2
  }

  function FindOpen(docs: seq<Timesheet>, employee: string, startDate: int): (r: Option<nat>)
    ensures r.Some? ==> r.value < |docs| && OpenFor(docs[r.value], employee, startDate)
    ensures r.None? ==> forall j :: 0 <= j < |docs| ==> !OpenFor(docs[j], employee, startDate)
    decreases |docs|
  {
    if docs == [] then None
    else if OpenFor(docs[0], employee, startDate) then Some(0)
    else match FindOpen(docs[1..], employee, startDate) {
      case None => None
      case Some(i) => Some(i + 1)
    }
  }

  datatype Target = Refused(error: SaveError) | Existing(index: nat) | Fresh

  /** Which timesheet a save writes to. */
  function Resolve(docs: seq<Timesheet>, employee: string, startDate: int, name: string): (t: Target)
    ensures t.Existing? ==> t.index < |docs|
  {
    var byName := if name != "" then FindByName(docs, name) else None;
    if byName.Some? then
      if docs[byName.value].docstatus == 1 then Refused(SubmittedTimesheet)
      else if docs[byName.value].docstatus == 2 then Refused(CancelledTimesheet)
      else Existing(byName.value)
    else match FindOpen(docs, employee, startDate) {
      case None => Fresh
      case Some(i) => if docs[i].docstatus == 1 then Refused(SubmittedTimesheet) else Existing(i)
    }
  }

  /** The documents and the reply after a save. */
  function SaveSpec(docs: seq<Timesheet>, employee: string, startDate: int, ls: seq<IncomingLog>,
                    name: string, newName: string): (seq<Timesheet>, SaveResult)
  {
    if employee == "" then (docs, SaveRefused(EmployeeRequired))
    else match Resolve(docs, employee, startDate, name) {
      case Refused(e) => (docs, SaveRefused(e))
      case Existing(i) =>
        (docs[i := docs[i].(logs := Details(ls))],
         Saved(SaveReply(docs[i].name, TotalHours(ls), TotalBillable(ls), docs[i].docstatus)))
      case Fresh =>
        (docs + [Timesheet(newName, employee, startDate, startDate + 6, 0, Details(ls))],
         Saved(SaveReply(newName, TotalHours(ls), TotalBillable(ls), 0)))
    }
  }

  /** A refused save changes nothing; a submitted timesheet is refused whether found by name or by week. */
  lemma RefusedSaveChangesNothing(docs: seq<Timesheet>, employee: string, startDate: int, ls: seq<IncomingLog>,
                                  name: string, newName: string)
    ensures var (after, r) := SaveSpec(docs, employee, startDate, ls, name, newName);
      r.SaveRefused? ==> after == docs
    ensures var (after, r) := SaveSpec(docs, employee, startDate, ls, name, newName);
      var byName := FindByName(docs, name);
      (employee != "" && name != "" && byName.Some? && docs[byName.value].docstatus == 1)
        ==> r == SaveRefused(SubmittedTimesheet)
    ensures var (after, r) := SaveSpec(docs, employee, startDate, ls, name, newName);
      var open := FindOpen(docs, employee, startDate);
      (employee != "" && (name == "" || FindByName(docs, name).None?) && open.Some? && docs[open.value].docstatus == 1)
        ==> r == SaveRefused(SubmittedTimesheet)
  {
  }

  /**
   * A save never touches a submitted timesheet, changes at most one existing
   * timesheet, and writes exactly the kept logs into it: the old logs are
   * replaced, not extended.
   */
  lemma SaveTouchesOneDraft(docs: seq<Timesheet>, employee: string, startDate: int, ls: seq<IncomingLog>,
                            name: string, newName: string)
    ensures var (after, r) := SaveSpec(docs, employee, startDate, ls, name, newName);
      |docs| <= |after| <= |docs| + 1
      && (forall j :: 0 <= j < |docs| && docs[j].docstatus == 1 ==> after[j] == docs[j])
      && (forall j, k :: 0 <= j < k < |docs| && after[j] != docs[j] ==> after[k] == docs[k])
      && (forall j :: 0 <= j < |docs| && after[j] != docs[j] ==>
            after[j] == docs[j].(logs := Details(ls)) && docs[j].docstatus != 1 && docs[j].docstatus != 2)
      && (r.Saved? ==> r.reply.totalHours == DetailHours(Details(ls)))
  {
    DetailsOfKept(ls);
    var t := Resolve(docs, employee, startDate, name);
    if employee != "" && t.Existing? {
      var after := docs[t.index := docs[t.index].(logs := Details(ls))];
      assert forall j :: 0 <= j < |docs| && j != t.index ==> after[j] == docs[j];
      var byName := if name != "" then FindByName(docs, name) else None;
      if byName.None? {
        assert OpenFor(docs[t.index], employee, startDate);
      }
    }
  }

  /** A new timesheet is created only when no timesheet has the given name and none is open for the week. */
  lemma CreatesOnlyWithoutMatch(docs: seq<Timesheet>, employee: string, startDate: int, ls: seq<IncomingLog>,
                                name: string, newName: string)
    ensures var (after, r) := SaveSpec(docs, employee, startDate, ls, name, newName);
      |after| > |docs| <==>
        employee != "" && (name == "" || forall j :: 0 <= j < |docs| ==> docs[j].name != name)
        && forall j :: 0 <= j < |docs| ==> !OpenFor(docs[j], employee, startDate)
    ensures var (after, r) := SaveSpec(docs, employee, startDate, ls, name, newName);
      |after| > |docs| ==> after[|docs|] == Timesheet(newName, employee, startDate, startDate + 6, 0, Details(ls))
  {
  }

  /**
   * The name the page keeps can be a cancelled timesheet's while the page
   * shows a draft of the same week: the save is then refused although the
   * draft would have taken the logs.
   */
  lemma CancelledNameBlocksSave(ls: seq<IncomingLog>)
    ensures var docs := [Timesheet("TS-1", "E", 7, 13, 2, []), Timesheet("TS-2", "E", 7, 13, 0, [])];
      SaveSpec(docs, "E", 7, ls, "TS-1", "TS-3").1 == SaveRefused(CancelledTimesheet)
      && SaveSpec(docs, "E", 7, ls, "", "TS-3").0 == docs[1 := docs[1].(logs := Details(ls))]
  {
    var docs := [Timesheet("TS-1", "E", 7, 13, 2, []), Timesheet("TS-2", "E", 7, 13, 0, [])];
    assert FindOpen(docs[1..], "E", 7) == Some(0);
  }

  // ---------------------------------------------------------------------------
  // The database

  class Database {
    var docs: seq<Timesheet>

    constructor(initial: seq<Timesheet>)
      ensures docs == initial
    {
      docs := initial;
    }

    /** `save_weekly_timesheet`: the loop over the logs, then the write. */
    method SaveWeeklyTimesheet(employee: string, startDate: int, timeLogs: seq<IncomingLog>,
                               timesheetName: string, newName: string) returns (r: SaveResult)
      modifies this
      ensures (docs, r) == SaveSpec(old(docs), employee, startDate, timeLogs, timesheetName, newName)
    {
      if employee == "" {
        return SaveRefused(EmployeeRequired);
      }
      var endDate := startDate + 6;
      var target: Option<nat> := None;
      if timesheetName != "" {
        target := FindByName(docs, timesheetName);
        if target.Some? && docs[target.value].docstatus == 1 {
          return SaveRefused(SubmittedTimesheet);
        }
      }
      if target.None? {
        target := FindOpen(docs, employee, startDate);
        if target.Some? && docs[target.value].docstatus == 1 {
          return SaveRefused(SubmittedTimesheet);
        }
      }

      var details, totalHours, totalBillableHours := KeepLogs(timeLogs);

      if target.None? {
        docs := docs + [Timesheet(newName, employee, startDate, endDate, 0, details)];
        r := Saved(SaveReply(newName, totalHours, totalBillableHours, 0));
      } else if docs[target.value].docstatus == 2 {
        r := SaveRefused(CancelledTimesheet);
      } else {
        var t := docs[target.value];
        docs := docs[target.value := t.(logs := details)];
        r := Saved(SaveReply(t.name, totalHours, totalBillableHours, t.docstatus));
      }
    }

    /** `submit_timesheet`: only a draft becomes submitted. */
    method SubmitTimesheet(name: string) returns (r: SubmitResult)
      modifies this
      ensures (docs, r) == SubmitSpec(old(docs), name)
    {
      var found := FindByName(docs, name);
      if found.None? {
        return SubmitRefused(true);
      }
      var t := docs[found.value];
      if t.docstatus != 0 {
        return SubmitRefused(false);
      }
      docs := docs[found.value := t.(docstatus := 1)];
      r := Submitted;
    }
  }

  /** The loop of `save_weekly_timesheet`: keep the logs with positive hours and add up the totals. */
  method KeepLogs(timeLogs: seq<IncomingLog>) returns (details: seq<Detail>, totalHours: int, totalBillableHours: int)
    ensures details == Details(timeLogs)
    ensures totalHours == TotalHours(timeLogs) && totalBillableHours == TotalBillable(timeLogs)
  {
    details := [];
    totalHours := 0;
    totalBillableHours := 0;
    var i := 0;
    while i < |timeLogs|
      invariant 0 <= i <= |timeLogs|
      invariant details == Details(timeLogs[..i])
      invariant totalHours == TotalHours(timeLogs[..i])
      invariant totalBillableHours == TotalBillable(timeLogs[..i])
    {
      assert timeLogs[..i + 1][..i] == timeLogs[..i];
      var log := timeLogs[i];
      if log.hours.None? || log.hours.value <= 0 {
        i := i + 1;
        continue;
      }
      details := details + [ToDetail(log)];
      totalHours := totalHours + log.hours.value;
      if log.isBillable != 0 {
        totalBillableHours := totalBillableHours + if log.billingHours.Some? then log.billingHours.value else log.hours.value;
      }
      i := i + 1;
    }
    assert timeLogs[..i] == timeLogs;
  }

  function SubmitSpec(docs: seq<Timesheet>, name: string): (seq<Timesheet>, SubmitResult) {
    match FindByName(docs, name) {
      case None => (docs, SubmitRefused(true))
      case Some(i) =>
        if docs[i].docstatus != 0 then (docs, SubmitRefused(false))
        else (docs[i := docs[i].(docstatus := 1)], Submitted)
    }
  }

  /** Submitting succeeds exactly on a draft, and then changes its docstatus only. */
  lemma SubmitOnlyDrafts(docs: seq<Timesheet>, name: string)
    ensures var (after, r) := SubmitSpec(docs, name);
      var i := FindByName(docs, name);
      (r == Submitted <==> i.Some? && docs[i.value].docstatus == 0)
      && (r == Submitted ==> after == docs[i.value := docs[i.value].(docstatus := 1)])
      && (r != Submitted ==> after == docs)
      && |after| == |docs| && forall j :: 0 <= j < |docs| ==> after[j].logs == docs[j].logs
  {
  }

  /** A submitted timesheet cannot be submitted again, nor saved over by name for any week. */
  lemma SubmittedIsFinal(docs: seq<Timesheet>, name: string, employee: string, startDate: int, ls: seq<IncomingLog>,
                         newName: string)
    requires SubmitSpec(docs, name).1 == Submitted
    ensures var after := SubmitSpec(docs, name).0;
      SubmitSpec(after, name) == (after, SubmitRefused(false))
      && (employee != "" && name != "" ==>
            SaveSpec(after, employee, startDate, ls, name, newName) == (after, SaveRefused(SubmittedTimesheet)))
  {
    var i := FindByName(docs, name).value;
    var after := SubmitSpec(docs, name).0;
    assert FindByName(after, name) == Some(i) by {
      FindByNameUnchanged(docs, i, docs[i].(docstatus := 1));
    }
  }

  lemma {:induction false} FindByNameUnchanged(docs: seq<Timesheet>, i: nat, t: Timesheet)
    requires i < |docs| && FindByName(docs, docs[i].name) == Some(i) && t.name == docs[i].name
    ensures FindByName(docs[i := t], t.name) == Some(i)
    decreases |docs|
  {
    if i > 0 {
      assert docs[i := t][1..] == docs[1..][i - 1 := t];
      FindByNameUnchanged(docs[1..], i - 1, t);
    }
  }

  // ---------------------------------------------------------------------------
  // What the page sends

  function FromPage(l: TimeLog): IncomingLog {
    IncomingLog(l.project, l.task, l.activity, Some(l.hours), l.isBillable, Some(l.billingHours),
                l.fromTime, l.toTime, l.description)
  }

  function FromPageAll(ls: seq<TimeLog>): (r: seq<IncomingLog>)
    ensures |r| == |ls| && forall i :: 0 <= i < |ls| ==> r[i] == FromPage(ls[i])
  {
    seq(|ls|, i requires 0 <= i < |ls| => FromPage(ls[i]))
  }

  /** Hours of the billable logs among `ls`. */
  function BillableLogHours(ls: seq<TimeLog>): nat
    decreases |ls|
  {
    if ls == [] then 0
    else BillableLogHours(ls[..|ls| - 1]) + if ls[|ls| - 1].isBillable != 0 then ls[|ls| - 1].hours else 0
  }

  lemma {:induction false} PageLogsTotals(ls: seq<TimeLog>, start: int)
    requires forall l :: l in ls ==> WellFormedLog(l, start)
    ensures |Details(FromPageAll(ls))| == |ls|
    ensures TotalHours(FromPageAll(ls)) == LogHours(ls)
    ensures TotalBillable(FromPageAll(ls)) == BillableLogHours(ls)
    decreases |ls|
  {
    if ls != [] {
      var p := ls[..|ls| - 1];
      assert FromPageAll(ls)[..|ls| - 1] == FromPageAll(p);
      assert ls[|ls| - 1] in ls;
      PageLogsTotals(p, start);
    }
  }

  /**
   * Every log the page collects from a grid survives the server's filter,
   * and the saved totals are the grid's selected hours and the hours of its
   * billable cells.
   */
  lemma SavedGridTotals(rs: seq<ReadRow>, start: int)
    ensures var ls := FromPageAll(Collected(rs, start));
      |Details(ls)| == |ls| && TotalHours(ls) == FilledTotal(rs)
      && TotalBillable(ls) == BillableLogHours(Collected(rs, start))
  {
    CollectedWellFormed(rs, start);
    PageLogsTotals(Collected(rs, start), start);
    CollectedHours(rs, start);
  }
}
