# Weekly timesheet — a verified model

This project models the core of the weekly timesheet page in `project_addons`. The page shows one employee's week as a grid: one row per project and activity, and seven day cells per row. Each cell holds `H:MM` or decimal hours, a description and a billable flag. The page:

- groups the stored time logs of the week into grid rows;
- validates the grid and computes its totals;
- turns the grid back into time logs to save;
- tracks which timesheet document it is editing, that document's docstatus (0 draft, 1 submitted, 2 cancelled) and whether the grid holds unsaved changes.

On the server, `save_weekly_timesheet` filters and totals the incoming logs and finds the document to write. It refuses submitted documents. `submit_timesheet` accepts drafts only.

## Units and conventions

- **Hours** are natural numbers of hundredths of an hour. The page rounds every value it parses to two decimals.
- **Times** are integer seconds from day 0, which is 1970-01-01, a Thursday. One hundredth of an hour is exactly 36 seconds. A collected log starts at `(start + d)·86400 + 9·3600`.
- **Dates** are integer day numbers.
- **Weekdays.** JavaScript's `getDay` is `(n + 4) % 7`. Python's `weekday` is `(n + 3) % 7`.
- **Absent values.** `""` stands for an absent string: `null`, `undefined` or an empty input. An absent `hours` in a grouped entry is 0. An absent `from_time` is second 0.
- **`parseFloat`** is modelled as a longest-numeric-prefix parser over exact rationals. It skips leading white space and reads a sign, `Infinity`, digits, a fraction and an exponent. Comparisons with 0, 24 and 60 and the `Math.round` to hundredths are exact, with no floating-point error.
- **Remote calls** (`frappe.call`), **confirmation dialogs** (`frappe.confirm`) and **messages** are not modelled as such. Their results are parameters of the methods:
  - the reply, or `None` when the call fails or returns nothing;
  - a `confirmed` flag for each dialog.

  A reload the page starts after a call is a later `LoadData` call with its own reply.

## Structure

- `basics.dfy` (`Basics`): `Option` and sums of naturals.
- `calendar.dfy` (`Calendar`): weekdays, `get_week_start`, `navigate_week`, and the default week of `get_weekly_timesheet_data`.
- `timevalue.dfy` (`TimeValue`): `parse_time_input` (with the reason for each rejection) and `format_hours`, and how the two compose.
- `grouping.dfy` (`Grouping`): `group_timesheet_entries` and its preview variant. Both are a loop over the entries (`GroupEntries`) proved equal to a fold (`GroupTimesheetEntries`), with reference functions for what each bucket holds.
- `grid.dfy` (`Grid`): the grid rows and how they are read, installed, validated (`validate_timesheet`), totalled (`calculate_totals`), collected (`collect_time_entries`) and checked for meaningful changes (`has_meaningful_changes`).
  - Validation, totals and collection, each a loop in the source, are methods proved equal to a function of the rows as parsed (`ReadGrid`). The check for meaningful changes is a method proved equal to `HasMeaningfulChanges` of the raw cell texts. The properties are lemmas about those functions.
- `session.dfy` (`Session`): the class `WeeklyTimesheet`. It holds the session fields and the lifecycle operations: load, edit, mark changed/saved, save, submit, cancel, amend, navigate, and copy the previous week.
- `server.dfy` (`Server`): the store of timesheet documents (class `Database`), `save_weekly_timesheet` and `submit_timesheet`.

## Behaviour the model keeps as the code has it

- **Current timesheet and displayed status can disagree.**
  - `load_data` sets `current_timesheet` to the *first* row's name (weekly_timesheet.js:887). The comment there says the rows come latest-modified first. The query orders them by start date and `from_time` (timesheet.py:49).
  - The docstatus shown comes from the row the priority Draft > Submitted > Cancelled picks (weekly_timesheet.js:896-917).
  - When no row has docstatus 0, 1 or 2, the code falls back to the first row (weekly_timesheet.js:913-914).
  - The two can name different documents (`Session.KeptNameNotShownTimesheet`). Save and submit then act on the first one. If that one is cancelled, the save is refused even though a draft of the week is on screen (`Server.CancelledNameBlocksSave`).
- **Copying replaces the grid.** `perform_copy_previous_week` empties the grid before installing the copied rows (weekly_timesheet.js:2530). The confirmation text says existing entries are kept (weekly_timesheet.js:2464). The model follows what the code does (`Session.WeeklyTimesheet.PerformCopyPreviousWeek`).
- **`submit_timesheet` does not validate the grid**, and a successful submit does not change the docstatus. Only the reload that follows does.
- **`load_data` does not clear `has_unsaved_changes`.**
- **The week starts on Monday** (weekly_timesheet.js:590), although the comment of the date handler says Sunday.
- **Parsing and formatting do not round-trip exactly.**
  - `parse_time_input(format_hours(c))` is within one hundredth of `c`, for any `c` up to 24 hours (`TimeValue.FormatThenParseWithinOne`).
  - The round trip is not always exact: `0:01` reads back as 0.02 h (`TimeValue.FormatThenParseNotExact`).
  - Formatting, parsing and formatting again gives back the same text (`TimeValue.FormatParseFormatStable`).
- **Rejected input reads as 0.** `parse_time_input` reports rejected input as 0. The model's `ParseTime` keeps the rejection reason and `ParseTimeInput` returns 0 for it, as the code does.
- **Length counts UTF-16 code units.** The 10-character limit of `parse_time_input` (weekly_timesheet.js:2064) is on `value.length`, so a character outside the Basic Multilingual Plane counts twice (`TimeValue.Utf16Length`).
- **An empty or non-numeric hour field is 0 hours.** `parseFloat(parts[0]) || 0` turns `:30` into 0.50 h and `x:30` into 0.50 h instead of rejecting them (`TimeValue.EmptyHoursField`).
- **A stored day above 24 hours is lost on the next save.** The grid writes it as `H:MM` past 24 (such as `25:00`), and that text reads as 0 (`TimeValue.FormatAboveDayReadsZero`, `Grid.InstalledAboveDayReadsZero`). The totals and the validation then count it as 0, and `collect_time_entries` leaves it out, so saving the grid again drops those hours.
- **Grouping keys can collide.** The key is the string `project-task-activity`, so two different triples can share a key (`Grouping.KeysCollide`).

## Model

| member | source | states |
|---|---|---|
| Calendar.GetWeekStart | project_addons/public/js/timesheet/weekly_timesheet.js:586-592 | the week start is a Monday, and the day lies in the seven days from it |
| Calendar.WeekStartUnique | project_addons/public/js/timesheet/weekly_timesheet.js:586-592 | the Monday on or before a day is the only Monday within the six days before it, so the week start is well defined |
| Calendar.WeekStartIdempotent | project_addons/public/js/timesheet/weekly_timesheet.js:89-101 | moving a date to its week start twice gives the same Monday as once |
| Calendar.NavigateWeek | project_addons/public/js/timesheet/weekly_timesheet.js:607-614 | moving by a number of weeks always lands on a Monday |
| Calendar.NavigateFromMonday | project_addons/public/js/timesheet/weekly_timesheet.js:607-614 | from a Monday, navigating moves by exactly seven days per step |
| Calendar.NavigateThereAndBack | project_addons/public/js/timesheet/weekly_timesheet.js:607-614 | going one week forward and then one week back lands on the Monday of the starting date's week |
| Calendar.WeekRange | project_addons/project_addons/api/timesheet.py:19-26 | the week ends six days after it starts; a given start is kept; with no start it is the Monday (Python weekday 0) of today's week, and contains today |
| Calendar.PyWeekStart | project_addons/project_addons/api/timesheet.py:21-22 | the server's week start is a Monday in Python's numbering and today lies in the seven days from it |
| Calendar.DefaultWeekIsBrowserWeek | project_addons/project_addons/api/timesheet.py:19-22 | the server's default week starts on the same Monday the page computes for today |
| Calendar.SameWeekStart | project_addons/project_addons/api/timesheet.py:21-22 | Python's `today - weekday()` and the page's `get_week_start` agree on every date |
| TimeValue.ParseTime | project_addons/public/js/timesheet/weekly_timesheet.js:2057-2145 | empty input is blank, more than 10 UTF-16 code units after trimming is too long, more than one colon is rejected, and an accepted value is at most 24 hours |
| TimeValue.ParseTimeInput | project_addons/public/js/timesheet/weekly_timesheet.js:2057-2145 | the result is at most 2400 hundredths, a rejected input reads as 0, and an accepted input reads as its accepted hundredths |
| TimeValue.BlankReadsZero | project_addons/public/js/timesheet/weekly_timesheet.js:2058-2061 | input that is blank after trimming reads as 0 |
| TimeValue.TooManyColonsRejected | project_addons/public/js/timesheet/weekly_timesheet.js:2073-2081 | `1:2:3` reads as 0 |
| TimeValue.ThreeFieldsRejected | project_addons/public/js/timesheet/weekly_timesheet.js:2073-2081 | any trimmed text of three colon-free fields joined by two colons reads as 0 |
| TimeValue.ClockAboveDayRejected | project_addons/public/js/timesheet/weekly_timesheet.js:2103-2110 | `24:1` goes past 24 hours and reads as 0 |
| TimeValue.ClockPastDay | project_addons/public/js/timesheet/weekly_timesheet.js:2087-2110 | digit fields `H:M` past 24:00 (hours above 24, or 24 with minutes) read as 0 |
| TimeValue.WholeClockAboveDay | project_addons/public/js/timesheet/weekly_timesheet.js:2087-2110 | whole hours above 24 are out of range, and 24 hours plus minutes is over a day |
| TimeValue.NonNumericHoursAreZero | project_addons/public/js/timesheet/weekly_timesheet.js:2083-2113 | any hour field that `parseFloat` reads as NaN counts as 0 hours, so `F:MM` with minutes below 60 is accepted as MM minutes instead of being rejected |
| TimeValue.NonNumericField | project_addons/public/js/timesheet/weekly_timesheet.js:2083 | a field whose first character is not white space, a digit, a sign, a dot or `I` is NaN to `parseFloat` |
| TimeValue.EmptyHoursField | project_addons/public/js/timesheet/weekly_timesheet.js:2073-2113 | `:MM` (only digits, below 60) reads as MM minutes, so `:30` reads as 50 hundredths |
| TimeValue.FormsCover | project_addons/public/js/timesheet/weekly_timesheet.js:2057-2081 | every non-blank input is too long, has too many colons, or is in the clock form or the decimal form |
| TimeValue.ClockChecks | project_addons/public/js/timesheet/weekly_timesheet.js:2083-2113 | for every clock-form input, with H and M the two fields as `parseFloat` reads them, a NaN counting as 0: H below 0 or above 24 is rejected as out of range; otherwise M below 0 or at least 60 is rejected; otherwise H + M/60 above 24 is over a day; otherwise the result is H + M/60 to the nearest hundredth, halves up |
| TimeValue.DecimalChecks | project_addons/public/js/timesheet/weekly_timesheet.js:2116-2144 | for every decimal-form input, with x what `parseFloat` reads: the input is rejected as not a number exactly when x is NaN; a negative x or an x above 24 is rejected; otherwise the result is x to the nearest hundredth, halves up |
| TimeValue.NearestHundredthUnique | project_addons/public/js/timesheet/weekly_timesheet.js:2113 | a number has only one nearest hundredth, so the rounding result is determined |
| TimeValue.RoundHundredths | project_addons/public/js/timesheet/weekly_timesheet.js:2144 | `Math.round(x * 100)` of an x in [0, 24] is at most 2400 and is x's nearest hundredth, halves up |
| TimeValue.DecimalReads | project_addons/public/js/timesheet/weekly_timesheet.js:2116-2144 | a decimal-form text whose number lies in [0, 24] reads as exactly that number's nearest hundredth |
| TimeValue.ReadFraction | project_addons/public/js/timesheet/weekly_timesheet.js:2117 | `I.F` with digit runs I and F is, to `parseFloat`, the exact fraction whose denominator is 10 to the number of digits of F and whose numerator is the digits of I and F read as one number |
| TimeValue.OneDecimalExact | project_addons/public/js/timesheet/weekly_timesheet.js:2116-2144 | decimal hours with one decimal up to 24.0 read as their exact hundredths |
| TimeValue.ThreeDecimalHalfRoundsUp | project_addons/public/js/timesheet/weekly_timesheet.js:2116-2144 | `1.005` reads as 101 hundredths: the exact value 100.5 is rounded half up |
| TimeValue.HalfPastFourExact | project_addons/public/js/timesheet/weekly_timesheet.js:2116-2144 | `4.5` reads as 450 hundredths |
| TimeValue.Utf16Length | project_addons/public/js/timesheet/weekly_timesheet.js:2064 | the length the 10-character limit measures is the number of UTF-16 code units: between the number of characters and twice it |
| TimeValue.AstralTextTooLong | project_addons/public/js/timesheet/weekly_timesheet.js:2064-2070 | six characters beyond U+FFFF are twelve code units, so they are too long and read as 0 |
| TimeValue.ParseFloat | project_addons/public/js/timesheet/weekly_timesheet.js:2083-2084 | defines `parseFloat`: the longest numeric prefix after leading white space, as an exact rational, or NaN (its properties are the lemmas above) |
| TimeValue.FormatHours | project_addons/public/js/timesheet/weekly_timesheet.js:2147-2162 | defines `format_hours` on hundredths (its properties are `FormatIsClock` and the round-trip lemmas) |
| TimeValue.DecimalAboveDayRejected | project_addons/public/js/timesheet/weekly_timesheet.js:2135-2141 | the decimal `25` reads as 0 |
| TimeValue.DigitsAboveDay | project_addons/public/js/timesheet/weekly_timesheet.js:2135-2141 | a whole number above 24 reads as 0 |
| TimeValue.NegativeRejected | project_addons/public/js/timesheet/weekly_timesheet.js:2127-2133 | the decimal `-1` reads as 0 |
| TimeValue.NegativeDecimal | project_addons/public/js/timesheet/weekly_timesheet.js:2127-2133 | a minus sign before a positive run of digits reads as 0 |
| TimeValue.NotANumberRejected | project_addons/public/js/timesheet/weekly_timesheet.js:2117-2125 | `abc` is not a number and reads as 0 |
| TimeValue.ReadClock | project_addons/public/js/timesheet/weekly_timesheet.js:2083-2113 | `H:MM` within a day reads as 100·H plus the nearest hundredth of MM/60 |
| TimeValue.FormatIsClock | project_addons/public/js/timesheet/weekly_timesheet.js:2147-2162 | the formatted text is whole hours, a colon and a two-digit minute field below 60 (the carry to the next hour never fires on hundredths) |
| TimeValue.FormatThenParseWithinOne | project_addons/public/js/timesheet/weekly_timesheet.js:2057-2162 | formatting a value up to 24 hours and parsing the text back is off by at most one hundredth |
| TimeValue.OneHundredthReadsHigh | project_addons/public/js/timesheet/weekly_timesheet.js:2057-2162 | every value ending in one hundredth is written with one minute and reads back one hundredth high |
| TimeValue.FormatThenParseNotExact | project_addons/public/js/timesheet/weekly_timesheet.js:2147-2162 | 0.01 h formats as `0:01`, which reads back as 0.02 h |
| TimeValue.FormatParseFormatStable | project_addons/public/js/timesheet/weekly_timesheet.js:2043-2046 | normalising a typed value a second time does not change the text |
| TimeValue.FormatAboveDayReadsZero | project_addons/public/js/timesheet/weekly_timesheet.js:2087-2110 | a formatted value above 24 hours no longer reads back (it reads as 0) |
| TimeValue.PositiveReadingIsMeaningful | project_addons/public/js/timesheet/weekly_timesheet.js:2627-2633 | a cell that reads as positive hours is non-blank and not `0:00` |
| Grouping.GroupTimesheetEntries | project_addons/public/js/timesheet/weekly_timesheet.js:1229-1282 | defines the grouping as a fold over the entries (its properties are `GroupedRows` and `FoldKeys`) |
| Grouping.GroupEntries | project_addons/public/js/timesheet/weekly_timesheet.js:1229-1282 | the loop over the entries, with the rows updated in place, gives the rows of the fold |
| Grouping.GroupedRows | project_addons/public/js/timesheet/weekly_timesheet.js:1233-1273 | one row per key of a taken-in entry (also when its day is outside the week), no key twice, in first-occurrence order, the first entry's header, daily hours the sum over the entries of that key and day, notes the last non-empty description, billable the last entry's flag (grid) or 0 (preview) |
| Grouping.FoldKeys | project_addons/public/js/timesheet/weekly_timesheet.js:1243-1259 | the row map and the creation order hold the same keys, without repeats, and a key is present exactly when a taken-in entry has it |
| Grouping.KeysCollide | project_addons/public/js/timesheet/weekly_timesheet.js:1241 | (`a-`, `b`, `c`) and (`a`, `-b`, `c`) share a key, so they land in one row |
| Grouping.CancelledOnlyInPreview | project_addons/public/js/timesheet/weekly_timesheet.js:2491-2526 | an entry of a cancelled timesheet is skipped by the grid grouper and kept by the preview grouper |
| Grid.InstallRow | project_addons/public/js/timesheet/weekly_timesheet.js:1721-1753 | an installed row shows each day's hours as `H:MM`, keeps notes and flags, and selects its project or activity only when the page offers it |
| Grid.InstallGrid | project_addons/public/js/timesheet/weekly_timesheet.js:1202-1219 | the grid is one row per grouped row, in order, followed by one empty row |
| Grid.InstalledAboveDayReadsZero | project_addons/public/js/timesheet/weekly_timesheet.js:1721-1725 | a grouped day above 24 hours is installed as its `H:MM` text and reads as 0 |
| Grid.InstalledHoursWithinOne | project_addons/public/js/timesheet/weekly_timesheet.js:1721-1725 | for a grouped day of at most 24 hours, the installed cell reads back as the grouped hours to within one hundredth |
| Grid.Readings | project_addons/public/js/timesheet/weekly_timesheet.js:534-535 | each of a row's seven readings is `parse_time_input` of that day's cell |
| Grid.ReadRowHours | project_addons/public/js/timesheet/weekly_timesheet.js:531-540 | the pass over a row's seven cells keeps, in day order, exactly its positive readings, and sums them |
| Grid.RowWarnings | project_addons/public/js/timesheet/weekly_timesheet.js:548-552 | the warnings are those of `DayWarnings`: one per positive reading above 12 hours, numbered by its place among the positive readings as the code numbers it |
| Grid.CheckRow | project_addons/public/js/timesheet/weekly_timesheet.js:517-554 | defines one row's outcome: skipped, project missing, activity missing, no positive hour, or passed (its properties are `CheckRowPasses` and `ValidIff`) |
| Grid.Validate | project_addons/public/js/timesheet/weekly_timesheet.js:507-584 | defines the validation of the parsed grid: row errors and warnings in row order, then the week checks (its properties are `ValidIff`, `NothingSelected` and `ValidGridHasLogs`) |
| Grid.ValidateTimesheet | project_addons/public/js/timesheet/weekly_timesheet.js:507-584 | the loop over the rows gives the validation of the parsed grid |
| Grid.ValidateRow | project_addons/public/js/timesheet/weekly_timesheet.js:512-555 | one row's check: skipped, failed with its error, or passed with its positive total and its day warnings |
| Grid.CheckRowPasses | project_addons/public/js/timesheet/weekly_timesheet.js:517-545 | a row passes exactly when it is selected and complete (project, activity and a positive hour), fails exactly when it is selected and incomplete, and a passing row adds a positive total |
| Grid.ValidIff | project_addons/public/js/timesheet/weekly_timesheet.js:517-567 | the grid is valid exactly when every selected row is complete and some row is selected; valid exactly when there are no errors |
| Grid.NothingSelected | project_addons/public/js/timesheet/weekly_timesheet.js:512-564 | a grid with no selected row gives exactly one error and no warning |
| Grid.TallyErrors | project_addons/public/js/timesheet/weekly_timesheet.js:520-545 | the rows give no error exactly when every selected row is complete |
| Grid.TallyTotal | project_addons/public/js/timesheet/weekly_timesheet.js:531-554 | the counted week total is positive exactly when some row is selected and complete |
| Grid.CalculateTotals | project_addons/public/js/timesheet/weekly_timesheet.js:2175-2213 | the loop gives the row totals, day totals, week total and billable/non-billable totals of the parsed grid |
| Grid.AddRow | project_addons/public/js/timesheet/weekly_timesheet.js:2181-2199 | one row's pass adds its cells to the day totals and splits its total by flag |
| Grid.TotalsBalance | project_addons/public/js/timesheet/weekly_timesheet.js:2190-2196 | billable plus non-billable equals the week total |
| Grid.BillableSplit | project_addons/public/js/timesheet/weekly_timesheet.js:2190-2196 | a row's billable part (flag exactly 1) plus its non-billable part is its total |
| Grid.WeekIsSumOfDays | project_addons/public/js/timesheet/weekly_timesheet.js:2187-2199 | the week total is the sum of the seven day totals |
| Grid.WeekIsSumOfRows | project_addons/public/js/timesheet/weekly_timesheet.js:2188-2199 | the week total is the sum of the row totals |
| Grid.CollectTimeEntries | project_addons/public/js/timesheet/weekly_timesheet.js:2318-2360 | the loop gives, row by row and day by day, one log per positive cell of a selected row |
| Grid.RowEntries | project_addons/public/js/timesheet/weekly_timesheet.js:2330-2356 | one row's logs: one per positive cell, in day order |
| Grid.CollectedWellFormed | project_addons/public/js/timesheet/weekly_timesheet.js:2329-2353 | every collected log has positive hours, no task, a project or an activity, billing hours equal to the hours exactly when flagged (else 0), starts at 09:00 of a day of the week and lasts its hours |
| Grid.DayLogLandsOnItsDay | project_addons/public/js/timesheet/weekly_timesheet.js:2341-2343 | the log of day d falls on day d when its start is read back the way the grouper reads it |
| Grid.CollectedHours | project_addons/public/js/timesheet/weekly_timesheet.js:2318-2360 | the collected logs carry exactly the hours of the selected rows |
| Grid.UnselectedHoursNotSaved | project_addons/public/js/timesheet/weekly_timesheet.js:2175-2360 | for every grid, a further row with neither project nor activity adds no log to what is collected and adds its row total to the week total |
| Grid.ValidGridHasLogs | project_addons/public/js/timesheet/weekly_timesheet.js:2238-2252 | a grid that passes validation always yields logs, so "no time entries" is unreachable after validation |
| Grid.CheckMeaningfulChanges | project_addons/public/js/timesheet/weekly_timesheet.js:2622-2647 | the two scans, each stopping at its first hit, return true exactly when some time cell or some selection is meaningful |
| Grid.ScanTimes | project_addons/public/js/timesheet/weekly_timesheet.js:2627-2634 | the scan over the rows finds a time cell exactly when some row holds a non-blank value other than `0:00` |
| Grid.ScanRowTimes | project_addons/public/js/timesheet/weekly_timesheet.js:2628-2634 | the scan over one row's cells finds one exactly when some cell is non-blank and not `0:00` |
| Grid.ScanSelections | project_addons/public/js/timesheet/weekly_timesheet.js:2636-2643 | the scan finds a selection exactly when some row's project or activity holds more than blanks |
| Grid.NothingMeaningfulMeansNoHours | project_addons/public/js/timesheet/weekly_timesheet.js:2622-2647 | a grid without meaningful changes reads as zero everywhere: its week total is 0, it collects nothing and it fails validation |
| Grid.NoHoursNothingToSave | project_addons/public/js/timesheet/weekly_timesheet.js:2318-2360 | a grid whose cells all read 0 has a zero week, saves nothing and is invalid |
| Grid.EmptyRowIsNoChange | project_addons/public/js/timesheet/weekly_timesheet.js:2215-2219 | the empty row the page adds is not a meaningful change |
| Session.DisplayedPriority | project_addons/public/js/timesheet/weekly_timesheet.js:893-917 | the shown row is a draft if any, else a submitted one if any, else a cancelled one if any, else the first row; and it is the first row of its status |
| Session.KeptNameNotShownTimesheet | project_addons/public/js/timesheet/weekly_timesheet.js:884-917 | with a cancelled timesheet's row first and a draft's second, the kept name is the cancelled one while the draft's status and name are shown |
| Session.OneTimesheetAgrees | project_addons/public/js/timesheet/weekly_timesheet.js:884-917 | when all rows belong to one timesheet, the kept and the shown names agree |
| Session.UiFor | project_addons/public/js/timesheet/weekly_timesheet.js:2687-2742 | cancel is shown exactly for submitted, amend exactly for cancelled, the submission actions for either, and inputs are enabled exactly otherwise |
| Session.UiOffersOneAction | project_addons/public/js/timesheet/weekly_timesheet.js:2687-2742 | exactly one of cancel, amend and save/submit is offered; editing, saving and copying go together and are off when read-only |
| Session.MarkingRule | project_addons/public/js/timesheet/weekly_timesheet.js:2606-2620 | marking never clears the flag and sets it only on a draft with meaningful content; the re-check after an edit leaves the flag set only if something meaningful remains, and always sets it on a draft then |
| Session.ClearedGridSavesNothing | project_addons/public/js/timesheet/weekly_timesheet.js:2043-2055 | an edit that leaves nothing meaningful clears the flag, and such a grid would save nothing and fails validation |
| Session.CopiedCellsReadBack | project_addons/public/js/timesheet/weekly_timesheet.js:2491-2537 | for a previous-week day of at most 24 hours, each copied cell reads back as the hours for its key and day to within one hundredth; every copied cell has no billable flag |
| Session.WeeklyTimesheet.constructor | project_addons/public/js/timesheet/weekly_timesheet.js:2-30 | a new page shows the Monday of today's week, as a draft, with no timesheet and no unsaved changes |
| Session.WeeklyTimesheet.LoadData | project_addons/public/js/timesheet/weekly_timesheet.js:866-928 | a reply installs the grouped grid, keeps the first row's name, takes docstatus and shown name from the priority pick (draft when there are no rows), sets the controls by docstatus and leaves the unsaved flag; no reply changes nothing |
| Session.WeeklyTimesheet.MarkAsChanged | project_addons/public/js/timesheet/weekly_timesheet.js:2606-2620 | the flag becomes set on a draft with meaningful changes; nothing else changes |
| Session.WeeklyTimesheet.MarkAsSaved | project_addons/public/js/timesheet/weekly_timesheet.js:2649-2653 | the flag is cleared; nothing else changes |
| Session.WeeklyTimesheet.EditTime | project_addons/public/js/timesheet/weekly_timesheet.js:2043-2055 | the cell is replaced by the normalised text of what it parses to, then the flag is re-checked |
| Session.WeeklyTimesheet.EditDescription | project_addons/public/js/timesheet/weekly_timesheet.js:1906-1927 | the day's note and flag (1 or 0) are written, then the change is marked |
| Session.WeeklyTimesheet.SelectProject | project_addons/public/js/timesheet/weekly_timesheet.js:1796-1801 | the row's project is set, then the change is marked |
| Session.WeeklyTimesheet.SelectActivity | project_addons/public/js/timesheet/weekly_timesheet.js:1803-1808 | the row's activity is set, then the change is marked |
| Session.WeeklyTimesheet.AddTaskRow | project_addons/public/js/timesheet/weekly_timesheet.js:2215-2219 | an empty row is appended and the flag is left alone |
| Session.WeeklyTimesheet.Recheck | project_addons/public/js/timesheet/weekly_timesheet.js:2049-2054 | the flag is set (on a draft) when something meaningful remains and cleared otherwise; nothing else changes |
| Session.WeeklyTimesheet.RemoveRow | project_addons/public/js/timesheet/weekly_timesheet.js:1775-1793 | the row is removed, then the flag is re-checked |
| Session.WeeklyTimesheet.NavigateWeek | project_addons/public/js/timesheet/weekly_timesheet.js:607-614 | the week input moves to the Monday of the week seven days per step away |
| Session.WeeklyTimesheet.PickWeek | project_addons/public/js/timesheet/weekly_timesheet.js:89-101 | a picked date is moved back to its Monday |
| Session.WeeklyTimesheet.SaveTimesheet | project_addons/public/js/timesheet/weekly_timesheet.js:2236-2284 | an invalid grid is reported with its validation and nothing is sent; otherwise the collected logs are sent with the employee, week and current name; a reply makes its name current and clears the flag |
| Session.WeeklyTimesheet.SubmitTimesheet | project_addons/public/js/timesheet/weekly_timesheet.js:2286-2316 | no current name gives a message and no call; a confirmed submit sends the current name without validating; success clears the flag and leaves the docstatus |
| Session.WeeklyTimesheet.CancelTimesheet | project_addons/public/js/timesheet/weekly_timesheet.js:2830-2864 | no current name gives a message and no call; a successful cancel sets docstatus 2 (not submitted, amend offered) and shows the current name |
| Session.WeeklyTimesheet.AmendTimesheet | project_addons/public/js/timesheet/weekly_timesheet.js:2788-2828 | no current name gives a message and no call; a successful amend makes the returned name current, sets docstatus 0 and moves to the returned week when given |
| Session.WeeklyTimesheet.CopyPreviousWeek | project_addons/public/js/timesheet/weekly_timesheet.js:2362-2489 | no previous data (a failed fetch or a reply without rows, which the model does not tell apart) reports so; otherwise the previous week is grouped for preview and, once confirmed, installed |
| Session.WeeklyTimesheet.PerformCopyPreviousWeek | project_addons/public/js/timesheet/weekly_timesheet.js:2528-2555 | the grid becomes exactly the copied rows and an empty row, whatever it held before, and the change is marked |
| Server.DetailsOfKept | project_addons/project_addons/api/timesheet.py:178-197 | every stored log has positive hours, no more logs are stored than received, and the hours total is the sum over the stored logs |
| Server.BillableFallback | project_addons/project_addons/api/timesheet.py:192-199 | the billable total is the stored billing hours of billable logs plus the hours of billable logs that came without a billing-hours key |
| Server.ZeroBillingStaysZero | project_addons/project_addons/api/timesheet.py:198-199 | for every list of logs, a further kept billable log whose billing hours are present and 0 adds its hours to the hours total and nothing to the billable total |
| Server.KeepLogs | project_addons/project_addons/api/timesheet.py:174-199 | the loop keeps, in order, exactly the logs with present positive hours, and sums their hours and billable shares |
| Server.Resolve | project_addons/project_addons/api/timesheet.py:125-172 | an existing target is a valid index into the store |
| Server.RefusedSaveChangesNothing | project_addons/project_addons/api/timesheet.py:113-159 | a refused save changes no document; a submitted document found by name, or found by employee and week when the name finds nothing, is refused |
| Server.SaveTouchesOneDraft | project_addons/project_addons/api/timesheet.py:141-203 | a save adds at most one document, never changes a submitted one, changes at most one existing document and then only its logs, which become exactly the kept logs; the reply's total is the stored hours |
| Server.CreatesOnlyWithoutMatch | project_addons/project_addons/api/timesheet.py:127-169 | a document is created exactly when the employee is given, no document has the given name and none of the employee's non-cancelled documents covers the week; it is a draft holding the kept logs |
| Server.CancelledNameBlocksSave | project_addons/project_addons/api/timesheet.py:128-172 | saving with a cancelled document's name is refused although a draft of the week exists; without a name the draft takes the logs |
| Server.SaveSpec | project_addons/project_addons/api/timesheet.py:110-211 | defines the effect of a save on the documents and its reply (its properties are `RefusedSaveChangesNothing`, `SaveTouchesOneDraft`, `CreatesOnlyWithoutMatch` and `CancelledNameBlocksSave`) |
| Server.SubmitSpec | project_addons/project_addons/api/timesheet.py:214-226 | defines the effect of a submit (its properties are `SubmitOnlyDrafts` and `SubmittedIsFinal`) |
| Server.Database.SaveWeeklyTimesheet | project_addons/project_addons/api/timesheet.py:110-211 | the guards, the filtering loop and the write give exactly the documents and the reply of the save specification |
| Server.Database.SubmitTimesheet | project_addons/project_addons/api/timesheet.py:214-226 | the method gives the documents and reply of the submit specification |
| Server.SubmitOnlyDrafts | project_addons/project_addons/api/timesheet.py:218-224 | a submit succeeds exactly on a draft found by name, then changes only its docstatus to 1, and otherwise changes nothing |
| Server.SubmittedIsFinal | project_addons/project_addons/api/timesheet.py:113-226 | after a submit the document can neither be submitted again nor saved over by name, for any week |
| Server.PageLogsTotals | project_addons/project_addons/api/timesheet.py:178-199 | logs as the page collects them all pass the filter, and the totals are their hours and the hours of the flagged ones |
| Server.SavedGridTotals | project_addons/project_addons/api/timesheet.py:175-199 | every log the page collects from a grid is stored, the saved hours total is the grid's selected hours, and the billable total is the hours of its billable logs |

## Left out

- DOM rendering, styling, dimension monitoring, dropdown and popover positioning, tooltips and mobile modals: these are presentation. Only the values they write into a row are modelled.
- Networking, `frappe.confirm` and `msgprint`: they become reply and confirmation parameters. Alerts and status-indicator texts are not modelled.
- `update_status_indicator` and the summary texts: they only display values.
- The debounce of the description dialog: the model performs its write at once.
- Timezones and the text formats of dates (`toISOString`, `format_datetime_for_frappe`): every date is a day number and every time is seconds on one clock.
- Floating point.
  - Hours are exact hundredths. Sums of stored hours are exact.
  - `parseFloat` and `Math.round` are exact. A three-decimal half is therefore rounded up on its exact value: `1.005` reads as 101 hundredths (`TimeValue.ThreeDecimalHalfRoundsUp`). A browser computes `1.005 * 100` as slightly less than 100.5 and reads it as 100.
  - The server's `flt` of a string is not modelled; incoming hours are integers or absent.
- The SQL of `get_weekly_timesheet_data`, the project and activity lists, `get_tasks_for_project`, `get_activity_cost`, and the employee lookup for the current user: these are database access. The weekly data reply is a parameter of `LoadData`.
- The cancel and amend server endpoints: they are not part of this model. Only the page's reaction to their replies is modelled.
- Documents are in the store's order; which of several matches `frappe.db.get_value` returns is modelled as the first.
- The framework's own document validation on save is not modelled. The single exception is its refusal to save a cancelled document (`CancelledTimesheet`). New document names are a parameter.
- The page bootstrap file (`page/weekly_timesheet/weekly_timesheet.js`) and the beforeunload and page-change hooks: these are environment wiring.
- The row totals `calculate_row_total` writes: they equal `Grid.RowTotal`. The per-row text is not modelled.
- TimeValue.ParseTime: JavaScript strings may hold unpaired surrogate code units, which a Dafny `char` cannot; the model's strings are sequences of Unicode scalar values.
- Session.WeeklyTimesheet.CopyPreviousWeek: a failed fetch ("Error loading previous week data") and a reply without rows ("No Data Found") both give `NoPreviousData`. The two differ only in the message shown, which is not modelled.
- Grid.InstallRow: it assumes the dropdowns' project and activity lists are in place when a row is installed. The source fills them asynchronously.
