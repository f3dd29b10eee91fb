/**
 * The page's session: the week shown, the grid, and the three fields that
 * track the timesheet being edited (its name, its docstatus and whether the
 * grid holds unsaved changes), with the operations that move them.  Remote
 * calls are replaced by their replies, given as parameters: `None` for a call
 * that fails or returns nothing, and a `confirmed` flag for each confirmation
 * dialog.  A reload the page starts after a call is a later `LoadData`.
 */
module Session {
  import opened Basics
  import opened Calendar
  import opened TimeValue
  import opened Grouping
  import opened Grid

  /** What the page keeps of the weekly data reply. */
  datatype WeekData = WeekData(
    employee: string, start: int, entries: seq<Entry>,
    projects: set<string>, activities: set<string>)

  // ---------------------------------------------------------------------------
  // Which timesheet the page shows

  /** The first row with docstatus `s`. */
  function FirstWithStatus(ts: seq<Entry>, s: int): (r: Option<nat>)
    ensures r.Some? ==> r.value < |ts| && ts[r.value].docstatus == s
    ensures r.Some? ==> forall j :: 0 <= j < r.value ==> ts[j].docstatus != s
    ensures r.None? ==> forall j :: 0 <= j < |ts| ==> ts[j].docstatus != s
    decreases |ts|
  {
    if ts == [] then None
    else if ts[0].docstatus == s then Some(0)
    else match FirstWithStatus(ts[1..], s) {
      case None => None
      case Some(i) => Some(i + 1)
    }
  }

  /** The row whose status and name the page shows: a draft first, then a submitted one, then a cancelled one. */
  function DisplayedIndex(ts: seq<Entry>): (i: nat)
    requires ts != []
    ensures i < |ts|
  {
    match FirstWithStatus(ts, 0) {
      case Some(i) => i
      case None =>
        match FirstWithStatus(ts, 1) {
          case Some(i) => i
          case None =>
            match FirstWithStatus(ts, 2) {
              case Some(i) => i
              case None => 0
            }
        }
    }
  }

  predicate HasStatus(ts: seq<Entry>, s: int) {
    exists j :: 0 <= j < |ts| && ts[j].docstatus == s
  }

  /** Draft before submitted before cancelled, the first row of that status, and the first row when none of the three occurs. */
  lemma DisplayedPriority(ts: seq<Entry>)
    requires ts != []
    ensures var i := DisplayedIndex(ts);
      (HasStatus(ts, 0) ==> ts[i].docstatus == 0)
      && (!HasStatus(ts, 0) && HasStatus(ts, 1) ==> ts[i].docstatus == 1)
      && (!HasStatus(ts, 0) && !HasStatus(ts, 1) && HasStatus(ts, 2) ==> ts[i].docstatus == 2)
      && (!HasStatus(ts, 0) && !HasStatus(ts, 1) && !HasStatus(ts, 2) ==> i == 0)
      && forall j :: 0 <= j < i ==> ts[j].docstatus != ts[i].docstatus
  {
    var f0, f1, f2 := FirstWithStatus(ts, 0), FirstWithStatus(ts, 1), FirstWithStatus(ts, 2);
    if HasStatus(ts, 0) {
      var j :| 0 <= j < |ts| && ts[j].docstatus == 0;
      assert f0.Some?;
    } else if HasStatus(ts, 1) {
      var j :| 0 <= j < |ts| && ts[j].docstatus == 1;
      assert f1.Some?;
    } else if HasStatus(ts, 2) {
      var j :| 0 <= j < |ts| && ts[j].docstatus == 2;
      assert f2.Some?;
    }
  }

  /**
   * The name the page keeps is always the first row's, while the status it
   * shows comes from the row the priority picks; with a cancelled timesheet
   * listed before a draft, the two belong to different timesheets.
   */
  lemma KeptNameNotShownTimesheet()
    ensures var ts := [Entry("TS-1", 2, "P", "", "A", "", "", "", 100, 0, 0, ""),
                       Entry("TS-2", 0, "P", "", "A", "", "", "", 100, 0, 0, "")];
      ts[0].name == "TS-1" && ts[DisplayedIndex(ts)].name == "TS-2" && ts[DisplayedIndex(ts)].docstatus == 0
  {
    var ts := [Entry("TS-1", 2, "P", "", "A", "", "", "", 100, 0, 0, ""),
               Entry("TS-2", 0, "P", "", "A", "", "", "", 100, 0, 0, "")];
    assert FirstWithStatus(ts[1..], 0) == Some(0);
  }

  /** When the week's rows all belong to one timesheet, the kept name is the shown one. */
  lemma OneTimesheetAgrees(ts: seq<Entry>)
    requires ts != [] && forall j :: 0 <= j < |ts| ==> ts[j].name == ts[0].name
    ensures ts[DisplayedIndex(ts)].name == ts[0].name
  {
  }

  // ---------------------------------------------------------------------------
  // Buttons and inputs by docstatus

  /** Which controls are visible or enabled. */
  datatype Ui = Ui(
    submissionActions: bool, cancelButton: bool, amendButton: bool,
    saveAndSubmit: bool, inputsEnabled: bool, copyButton: bool, readOnly: bool)

  /** Submitted: cancel only; cancelled: amend only; anything else: the draft controls. */
  function UiFor(docstatus: int): (u: Ui)
    ensures u.cancelButton <==> docstatus == 1
    ensures u.amendButton <==> docstatus == 2
    ensures u.submissionActions <==> docstatus == 1 || docstatus == 2
    ensures u.inputsEnabled <==> docstatus != 1 && docstatus != 2
  {
    if docstatus == 1 then Ui(true, true, false, false, false, false, true)
    else if docstatus == 2 then Ui(true, false, true, false, false, false, true)
    else Ui(false, false, false, true, true, true, false)
  }

  /** Exactly one way forward is offered, and editing goes with saving, submitting and copying. */
  lemma UiOffersOneAction(docstatus: int)
    ensures var u := UiFor(docstatus);
      (if u.cancelButton then 1 else 0) + (if u.amendButton then 1 else 0) + (if u.saveAndSubmit then 1 else 0) == 1
      && u.saveAndSubmit == u.inputsEnabled == u.copyButton == !u.readOnly
  {
  }

  // ---------------------------------------------------------------------------
  // The unsaved-changes flag

  /** The flag after `mark_as_changed`. */
  function Marked(wasChanged: bool, docstatus: int, rows: seq<GridRow>): bool {
    if docstatus != 0 || !HasMeaningfulChanges(rows) then wasChanged else true
  }

  /** The flag after an edit that re-checks: marked when the grid holds something, cleared otherwise. */
  function Rechecked(wasChanged: bool, docstatus: int, rows: seq<GridRow>): bool {
    if HasMeaningfulChanges(rows) then Marked(wasChanged, docstatus, rows) else false
  }

  /** Marking never clears the flag, and sets it only on a draft with meaningful content. */
  lemma MarkingRule(wasChanged: bool, docstatus: int, rows: seq<GridRow>)
    ensures Marked(wasChanged, docstatus, rows) <==> wasChanged || (docstatus == 0 && HasMeaningfulChanges(rows))
    ensures Rechecked(wasChanged, docstatus, rows) ==> HasMeaningfulChanges(rows)
    ensures docstatus == 0 && HasMeaningfulChanges(rows) ==> Rechecked(wasChanged, docstatus, rows)
    ensures docstatus != 0 ==> Rechecked(wasChanged, docstatus, rows) == (wasChanged && HasMeaningfulChanges(rows))
  {
  }

  /** An edit that leaves nothing meaningful clears the flag, and then the grid saves nothing. */
  lemma ClearedGridSavesNothing(wasChanged: bool, docstatus: int, rows: seq<GridRow>, start: int)
    requires !HasMeaningfulChanges(rows)
    ensures !Rechecked(wasChanged, docstatus, rows)
    ensures Collected(ReadGrid(rows), start) == [] && !Validate(ReadGrid(rows)).valid
  {
    NothingMeaningfulMeansNoHours(rows, start);
  }

  // ---------------------------------------------------------------------------
  // Copying the previous week

  /**
   * Copying installs the previous week's preview rows: each copied cell reads
   * back as that week's hours for the row's key and day, to within one
   * hundredth, and every cell carries no billable flag.
   */
  lemma CopiedCellsReadBack(es: seq<Entry>, start: int, projects: set<string>, activities: set<string>, i: nat, d: nat)
    requires var gs := GroupTimesheetEntries(es, start, Preview);
      i < |gs| && d < 7 && HoursOn(es, RowKey(gs[i]), d, start, Preview) <= 2400
    ensures var gs := GroupTimesheetEntries(es, start, Preview);
      var cell := InstallGrid(gs, projects, activities)[i];
      var h := HoursOn(es, RowKey(gs[i]), d, start, Preview);
      h - 1 <= ParseTimeInput(cell.times[d]) <= h + 1 && cell.billable[d] == 0
  {
    var gs := GroupTimesheetEntries(es, start, Preview);
    GroupedRows(es, start, Preview);
    assert gs[i].daily[d] == HoursOn(es, RowKey(gs[i]), d, start, Preview);
    InstalledHoursWithinOne(gs[i], projects, activities, d);
  }

  // ---------------------------------------------------------------------------
  // Outcomes of the page's actions

  /** What pressing Save leads to. */
  datatype SaveOutcome =
    | ValidationFailed(validation: Validation)
    | NothingToSave
    | NoWeekData   // the weekly data never arrived: the page stops on an error before any call
    | SaveSent(employee: string, start: int, logs: seq<TimeLog>, timesheetName: string)

  /** What pressing Submit, Cancel or Amend leads to. */
  datatype CallOutcome =
    | NoTimesheet          // a message, and no call
    | Declined             // the confirmation was dismissed
    | Called(timesheetName: string)

  /** What pressing Copy Previous Week leads to. */
  datatype CopyOutcome = NoPreviousData | CopyDeclined | Copied(groups: seq<GroupRow>)

  /** The reply to an amend: the new draft's name and, when given, its start date. */
  datatype AmendReply = AmendReply(name: string, startDate: Option<int>)

  // ---------------------------------------------------------------------------
  // The page

  class WeeklyTimesheet {
    /** The week-start date input, as a day number. */
    var weekStart: int
    /** The last weekly data reply. */
    var data: Option<WeekData>
    var rows: seq<GridRow>
    /** The name calls are made with; "" when there is none. */
    var currentTimesheet: string
    var currentDocstatus: int
    var isSubmitted: bool
    var hasUnsavedChanges: bool
    /** The timesheet name displayed beside the status; "" when hidden. */
    var shownTimesheet: string
    var ui: Ui

    /** The controls always follow the docstatus, and `isSubmitted` means docstatus 1. */
    ghost predicate Valid()
      reads this
    {
      ui == UiFor(currentDocstatus) && isSubmitted == (currentDocstatus == 1)
    }

    /** A new page shows the week containing `today`, as a draft with nothing loaded yet. */
    constructor(today: int)
      ensures Valid()
      ensures weekStart == GetWeekStart(today) && data.None? && rows == []
      ensures currentTimesheet == "" && currentDocstatus == 0 && !hasUnsavedChanges && shownTimesheet == ""
    {
      weekStart := GetWeekStart(today);
      data := None;
      rows := [];
      currentTimesheet := "";
      currentDocstatus := 0;
      isSubmitted := false;
      hasUnsavedChanges := false;
      shownTimesheet := "";
      ui := UiFor(0);
    }

    /** The projects and activity types the dropdowns offer. */
    function Projects(): set<string>
      reads this
    {
      if data.Some? then data.value.projects else {}
    }

    function Activities(): set<string>
      reads this
    {
      if data.Some? then data.value.activities else {}
    }

    /**
     * Installs a weekly data reply: the grid from its grouped rows, the first
     * row's name as the current timesheet, and the docstatus of the row the
     * priority picks.  The unsaved-changes flag is left as it was.
     */
    method LoadData(reply: Option<WeekData>)
      requires Valid()
      modifies this
      ensures Valid()
      ensures reply.None? ==> unchanged(this)
      ensures reply.Some? ==>
        var w := reply.value;
        data == reply
        && rows == InstallGrid(GroupTimesheetEntries(w.entries, w.start, Mode.Grid), w.projects, w.activities)
        && currentTimesheet == (if w.entries == [] then "" else w.entries[0].name)
        && currentDocstatus == (if w.entries == [] then 0 else w.entries[DisplayedIndex(w.entries)].docstatus)
        && shownTimesheet == (if w.entries == [] then "" else w.entries[DisplayedIndex(w.entries)].name)
        && weekStart == old(weekStart) && hasUnsavedChanges == old(hasUnsavedChanges)
    {
      if reply.None? {
        return;
      }
      var w := reply.value;
      data := reply;
      currentTimesheet := "";
      if w.entries != [] {
        currentTimesheet := w.entries[0].name;
      }
      var groups := GroupEntries(w.entries, w.start, Mode.Grid);
      rows := InstallGrid(groups, w.projects, w.activities);
      if w.entries != [] {
        var shown := w.entries[DisplayedIndex(w.entries)];
        currentDocstatus := shown.docstatus;
        shownTimesheet := shown.name;
      } else {
        currentDocstatus := 0;
        shownTimesheet := "";
      }
      isSubmitted := currentDocstatus == 1;
      ui := UiFor(currentDocstatus);
    }

    /** Sets the flag only on a draft whose grid holds something. */
    method MarkAsChanged()
      requires Valid()
      modifies this
      ensures Valid()
      ensures hasUnsavedChanges == Marked(old(hasUnsavedChanges), currentDocstatus, rows)
      ensures weekStart == old(weekStart) && data == old(data) && rows == old(rows)
      ensures currentTimesheet == old(currentTimesheet) && currentDocstatus == old(currentDocstatus)
      ensures isSubmitted == old(isSubmitted) && shownTimesheet == old(shownTimesheet) && ui == old(ui)
    {
      if currentDocstatus != 0 {
        return;
      }
      var meaningful := CheckMeaningfulChanges(rows);
      if !meaningful {
        return;
      }
      hasUnsavedChanges := true;
    }

    method MarkAsSaved()
      requires Valid()
      modifies this
      ensures Valid()
      ensures !hasUnsavedChanges
      ensures weekStart == old(weekStart) && data == old(data) && rows == old(rows)
      ensures currentTimesheet == old(currentTimesheet) && currentDocstatus == old(currentDocstatus)
      ensures isSubmitted == old(isSubmitted) && shownTimesheet == old(shownTimesheet) && ui == old(ui)
    {
      hasUnsavedChanges := false;
    }

    /** After a time edit or a row removal: marked when something meaningful remains, cleared otherwise. */
    method Recheck()
      requires Valid()
      modifies this
      ensures Valid()
      ensures hasUnsavedChanges == Rechecked(old(hasUnsavedChanges), currentDocstatus, rows)
      ensures weekStart == old(weekStart) && data == old(data) && rows == old(rows)
      ensures currentTimesheet == old(currentTimesheet) && currentDocstatus == old(currentDocstatus)
      ensures isSubmitted == old(isSubmitted) && shownTimesheet == old(shownTimesheet) && ui == old(ui)
    {
      var meaningful := CheckMeaningfulChanges(rows);
      if meaningful {
        MarkAsChanged();
      } else {
        MarkAsSaved();
      }
    }

    // -------------------------------------------------------------------------
    // Editing the grid

    /** A typed time is replaced by its normalised `H:MM` form. */
    method EditTime(i: nat, d: nat, value: string)
      requires Valid()
      requires i < |rows| && d < 7
      modifies this
      ensures Valid()
      ensures rows == old(rows)[i := old(rows)[i].(times := old(rows)[i].times[d := FormatHours(ParseTimeInput(value))])]
      ensures hasUnsavedChanges == Rechecked(old(hasUnsavedChanges), currentDocstatus, rows)
      ensures weekStart == old(weekStart) && data == old(data)
      ensures currentTimesheet == old(currentTimesheet) && currentDocstatus == old(currentDocstatus)
      ensures isSubmitted == old(isSubmitted) && shownTimesheet == old(shownTimesheet) && ui == old(ui)
    {
      var hours := ParseTimeInput(value);
      var r := rows[i];
      rows := rows[i := r.(times := r.times[d := FormatHours(hours)])];
      Recheck();
    }

    /** The description dialog writes the day's note and billable flag. */
    method EditDescription(i: nat, d: nat, note: string, billable: bool)
      requires Valid()
      requires i < |rows| && d < 7
      modifies this
      ensures Valid()
      ensures rows == old(rows)[i := old(rows)[i].(notes := old(rows)[i].notes[d := note],
                                                   billable := old(rows)[i].billable[d := if billable then 1 else 0])]
      ensures hasUnsavedChanges == Marked(old(hasUnsavedChanges), currentDocstatus, rows)
      ensures weekStart == old(weekStart) && data == old(data)
      ensures currentTimesheet == old(currentTimesheet) && currentDocstatus == old(currentDocstatus)
      ensures isSubmitted == old(isSubmitted) && shownTimesheet == old(shownTimesheet) && ui == old(ui)
    {
      var r := rows[i];
      rows := rows[i := r.(notes := r.notes[d := note], billable := r.billable[d := if billable then 1 else 0])];
      MarkAsChanged();
    }

    method SelectProject(i: nat, project: string)
      requires Valid()
      requires i < |rows|
      modifies this
      ensures Valid()
      ensures rows == old(rows)[i := old(rows)[i].(project := project)]
      ensures hasUnsavedChanges == Marked(old(hasUnsavedChanges), currentDocstatus, rows)
      ensures weekStart == old(weekStart) && data == old(data)
      ensures currentTimesheet == old(currentTimesheet) && currentDocstatus == old(currentDocstatus)
      ensures isSubmitted == old(isSubmitted) && shownTimesheet == old(shownTimesheet) && ui == old(ui)
    {
      rows := rows[i := rows[i].(project := project)];
      MarkAsChanged();
    }

    method SelectActivity(i: nat, activity: string)
      requires Valid()
      requires i < |rows|
      modifies this
      ensures Valid()
      ensures rows == old(rows)[i := old(rows)[i].(activity := activity)]
      ensures hasUnsavedChanges == Marked(old(hasUnsavedChanges), currentDocstatus, rows)
      ensures weekStart == old(weekStart) && data == old(data)
      ensures currentTimesheet == old(currentTimesheet) && currentDocstatus == old(currentDocstatus)
      ensures isSubmitted == old(isSubmitted) && shownTimesheet == old(shownTimesheet) && ui == old(ui)
    {
      rows := rows[i := rows[i].(activity := activity)];
      MarkAsChanged();
    }

    /** Adding an empty row is not a change. */
    method AddTaskRow()
      requires Valid()
      modifies this
      ensures Valid()
      ensures rows == old(rows) + [EmptyRow] && hasUnsavedChanges == old(hasUnsavedChanges)
      ensures weekStart == old(weekStart) && data == old(data)
      ensures currentTimesheet == old(currentTimesheet) && currentDocstatus == old(currentDocstatus)
      ensures isSubmitted == old(isSubmitted) && shownTimesheet == old(shownTimesheet) && ui == old(ui)
    {
      rows := rows + [EmptyRow];
    }

    method RemoveRow(i: nat)
      requires Valid()
      requires i < |rows|
      modifies this
      ensures Valid()
      ensures rows == old(rows)[..i] + old(rows)[i + 1..]
      ensures hasUnsavedChanges == Rechecked(old(hasUnsavedChanges), currentDocstatus, rows)
      ensures weekStart == old(weekStart) && data == old(data)
      ensures currentTimesheet == old(currentTimesheet) && currentDocstatus == old(currentDocstatus)
      ensures isSubmitted == old(isSubmitted) && shownTimesheet == old(shownTimesheet) && ui == old(ui)
    {
      rows := rows[..i] + rows[i + 1..];
      Recheck();
    }

    // -------------------------------------------------------------------------
    // Weeks

    /** The previous (-1) or next (1) week; the page then reloads. */
    method NavigateWeek(direction: int)
      requires Valid()
      modifies this
      ensures Valid()
      ensures weekStart == Calendar.NavigateWeek(old(weekStart), direction)
      ensures data == old(data) && rows == old(rows) && hasUnsavedChanges == old(hasUnsavedChanges)
      ensures currentTimesheet == old(currentTimesheet) && currentDocstatus == old(currentDocstatus)
      ensures isSubmitted == old(isSubmitted) && shownTimesheet == old(shownTimesheet) && ui == old(ui)
    {
      weekStart := Calendar.NavigateWeek(weekStart, direction);
    }

    /** A date picked in the week input is moved back to its Monday; the page then reloads. */
    method PickWeek(day: int)
      requires Valid()
      modifies this
      ensures Valid()
      ensures weekStart == GetWeekStart(day)
      ensures data == old(data) && rows == old(rows) && hasUnsavedChanges == old(hasUnsavedChanges)
      ensures currentTimesheet == old(currentTimesheet) && currentDocstatus == old(currentDocstatus)
      ensures isSubmitted == old(isSubmitted) && shownTimesheet == old(shownTimesheet) && ui == old(ui)
    {
      weekStart := GetWeekStart(day);
    }

    // -------------------------------------------------------------------------
    // Saving and the document lifecycle

    /**
     * Validates the grid, collects its logs and sends them with the current
     * name; a reply naming a timesheet makes it current and clears the flag.
     */
    method SaveTimesheet(reply: Option<string>) returns (o: SaveOutcome)
      requires Valid()
      modifies this
      ensures Valid()
      ensures var v := Validate(ReadGrid(old(rows)));
        if !v.valid then o == ValidationFailed(v)
        else if old(data).None? then o == NoWeekData
        else if Collected(ReadGrid(old(rows)), old(data).value.start) == [] then o == NothingToSave
        else o == SaveSent(old(data).value.employee, old(data).value.start,
                           Collected(ReadGrid(old(rows)), old(data).value.start), old(currentTimesheet))
      ensures if o.SaveSent? && reply.Some?
        then currentTimesheet == reply.value && !hasUnsavedChanges
        else currentTimesheet == old(currentTimesheet) && hasUnsavedChanges == old(hasUnsavedChanges)
      ensures weekStart == old(weekStart) && data == old(data) && rows == old(rows)
      ensures currentDocstatus == old(currentDocstatus) && isSubmitted == old(isSubmitted)
      ensures shownTimesheet == old(shownTimesheet) && ui == old(ui)
    {
      var v := ValidateTimesheet(rows);
      if !v.valid {
        return ValidationFailed(v);
      }
      if data.None? {
        return NoWeekData;
      }
      var logs := CollectTimeEntries(rows, data.value.start);
      if logs == [] {
        return NothingToSave;
      }
      o := SaveSent(data.value.employee, data.value.start, logs, currentTimesheet);
      if reply.Some? {
        currentTimesheet := reply.value;
        MarkAsSaved();
      }
    }

    /** Submits the current timesheet after confirmation, without validating the grid. */
    method SubmitTimesheet(confirmed: bool, succeeded: bool) returns (o: CallOutcome)
      requires Valid()
      modifies this
      ensures Valid()
      ensures o == (if old(currentTimesheet) == "" then NoTimesheet
                    else if !confirmed then Declined
                    else Called(old(currentTimesheet)))
      ensures hasUnsavedChanges == (if o.Called? && succeeded then false else old(hasUnsavedChanges))
      ensures weekStart == old(weekStart) && data == old(data) && rows == old(rows)
      ensures currentTimesheet == old(currentTimesheet) && currentDocstatus == old(currentDocstatus)
      ensures isSubmitted == old(isSubmitted) && shownTimesheet == old(shownTimesheet) && ui == old(ui)
    {
      if currentTimesheet == "" {
        return NoTimesheet;
      }
      if !confirmed {
        return Declined;
      }
      o := Called(currentTimesheet);
      if succeeded {
        MarkAsSaved();
      }
    }

    /** A successful cancel makes the page show a cancelled timesheet. */
    method CancelTimesheet(confirmed: bool, succeeded: bool) returns (o: CallOutcome)
      requires Valid()
      modifies this
      ensures Valid()
      ensures o == (if old(currentTimesheet) == "" then NoTimesheet
                    else if !confirmed then Declined
                    else Called(old(currentTimesheet)))
      ensures if o.Called? && succeeded
        then currentDocstatus == 2 && shownTimesheet == old(currentTimesheet)
        else currentDocstatus == old(currentDocstatus) && shownTimesheet == old(shownTimesheet)
      ensures weekStart == old(weekStart) && data == old(data) && rows == old(rows)
      ensures currentTimesheet == old(currentTimesheet) && hasUnsavedChanges == old(hasUnsavedChanges)
    {
      if currentTimesheet == "" {
        return NoTimesheet;
      }
      if !confirmed {
        return Declined;
      }
      o := Called(currentTimesheet);
      if succeeded {
        currentDocstatus := 2;
        isSubmitted := false;
        ui := UiFor(currentDocstatus);
        shownTimesheet := currentTimesheet;
      }
    }

    /** A successful amend switches to the new draft, and to its week when the reply gives one. */
    method AmendTimesheet(confirmed: bool, reply: Option<AmendReply>) returns (o: CallOutcome)
      requires Valid()
      modifies this
      ensures Valid()
      ensures o == (if old(currentTimesheet) == "" then NoTimesheet
                    else if !confirmed then Declined
                    else Called(old(currentTimesheet)))
      ensures if o.Called? && reply.Some?
        then currentTimesheet == reply.value.name && currentDocstatus == 0 && shownTimesheet == reply.value.name
             && weekStart == (if reply.value.startDate.Some? then reply.value.startDate.value else old(weekStart))
        else currentTimesheet == old(currentTimesheet) && currentDocstatus == old(currentDocstatus)
             && shownTimesheet == old(shownTimesheet) && weekStart == old(weekStart)
      ensures data == old(data) && rows == old(rows) && hasUnsavedChanges == old(hasUnsavedChanges)
    {
      if currentTimesheet == "" {
        return NoTimesheet;
      }
      if !confirmed {
        return Declined;
      }
      o := Called(currentTimesheet);
      if reply.Some? {
        currentTimesheet := reply.value.name;
        currentDocstatus := 0;
        isSubmitted := false;
        if reply.value.startDate.Some? {
          weekStart := reply.value.startDate.value;
        }
        ui := UiFor(currentDocstatus);
        shownTimesheet := reply.value.name;
      }
    }

    // -------------------------------------------------------------------------
    // Copying the previous week

    /**
     * Groups the previous week's reply for preview and, once confirmed,
     * installs it; `previous` is the reply for the week seven days before.
     * A failed fetch (`None`) and a reply without rows both give `NoPreviousData`:
     * the page tells them apart only by the message it shows.
     */
    method CopyPreviousWeek(previous: Option<WeekData>, confirmed: bool) returns (o: CopyOutcome)
      requires Valid()
      modifies this
      ensures Valid()
      ensures if previous.None? || previous.value.entries == [] then o == NoPreviousData
        else var gs := GroupTimesheetEntries(previous.value.entries, previous.value.start, Preview);
          o == (if confirmed then Copied(gs) else CopyDeclined)
      ensures if o.Copied?
        then rows == InstallGrid(o.groups, old(Projects()), old(Activities()))
             && hasUnsavedChanges == Marked(old(hasUnsavedChanges), currentDocstatus, rows)
        else rows == old(rows) && hasUnsavedChanges == old(hasUnsavedChanges)
      ensures weekStart == old(weekStart) && data == old(data)
      ensures currentTimesheet == old(currentTimesheet) && currentDocstatus == old(currentDocstatus)
      ensures isSubmitted == old(isSubmitted) && shownTimesheet == old(shownTimesheet) && ui == old(ui)
    {
      if previous.None? || previous.value.entries == [] {
        return NoPreviousData;
      }
      var groups := GroupEntries(previous.value.entries, previous.value.start, Preview);
      if !confirmed {
        return CopyDeclined;
      }
      PerformCopyPreviousWeek(groups);
      o := Copied(groups);
    }

    /** Replaces the whole grid with the copied rows and an empty row, then marks the change. */
    method PerformCopyPreviousWeek(groups: seq<GroupRow>)
      requires Valid()
      modifies this
      ensures Valid()
      ensures rows == InstallGrid(groups, old(Projects()), old(Activities()))
      ensures hasUnsavedChanges == Marked(old(hasUnsavedChanges), currentDocstatus, rows)
      ensures weekStart == old(weekStart) && data == old(data)
      ensures currentTimesheet == old(currentTimesheet) && currentDocstatus == old(currentDocstatus)
      ensures isSubmitted == old(isSubmitted) && shownTimesheet == old(shownTimesheet) && ui == old(ui)
    {
      rows := InstallGrid(groups, Projects(), Activities());
      MarkAsChanged();
    }
  }
}
