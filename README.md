# PyBudgetPlot core, modelled in Dafny

PyBudgetPlot turns a budget definition into a day-by-day breakdown. A budget
definition is a period (a start date and an end date) plus a list of items or
events. Each one has a description, an amount and a frequency, such as "every
monday" or a single date. The breakdown is a frame with one row per day of the
period and one column per item. Each column holds the item's amount on the
dates its frequency produces and 0 elsewhere. Two more columns hold the daily
total and its running (cumulative) total.

The repository holds three generations of the same engine. This project models
all three.

- **The single-module engine** (`datamodel.py`), module `DataModel`. It holds
  `DatePeriod`, `BudgetItem` validation, `BudgetDefinition` with `add_item`,
  `as_dict`, `from_dict` and `calculate_breakdown`, and `BudgetBreakdown`.
- **The `budget` package with the time utilities.**
  - `TimeUtil`: the time utilities. Time-stamp and date-stamp parsing,
    `generate_date_stamps`, `stamp_to_str`, and `Period`.
  - `BudgetItems`: `parse_string`, `parse_int` and `new_budget_item`.
  - `BudgetDefinitions`: the definition named tuple, whose item list is mutated
    in place. It also covers `model/budget_definition.py`, which has the same
    code.
  - `BudgetBreakdowns`: `calculate_breakdown`.
- **The `definitions` package.**
  - `Events`: `normalize_string`, `parse_amount`, `Event.as_dict`,
    `new_event`.
  - `DefinitionsPeriod`: `parse_datestamp`, `format_timestamp`, `Period`,
    `new_period`.
  - `DefinitionsBudget`: the `Budget` class.
  - `DefinitionsBreakdown`: `calculate_breakdown_data`, `column_names` and
    `rows_data`.

Shared concepts each have one module:

- `Values`: Python's dynamically typed values and the exceptions raised, as
  data.
- `Calendar`: proleptic Gregorian day numbers and ISO dates.
- `Stamps`: pandas Timestamps at nanosecond resolution, with `normalize()`
  and `str()`.
- `Whitespace`: `re.sub(r"\s+", " ", s).strip()`.
- `Decimals`: `Decimal(text).to_integral_value(ROUND_HALF_UP)`.
- `Resolution`: dateutil's `rule.between(start, end, inc=True)`. Also the
  foreign parsers, which are parameters.
- `Dicts`: Python dicts as insertion-ordered entry lists.
- `Folds`: a loop that stops at the first exception.
- `Ledger`: the frame. It holds the day index, the outer join of item columns,
  `fillna(0)`, `sum(axis=1)` and `cumsum()`.

The breakdown is specified by `Ledger.Tabulation` and computed by imperative
methods over arrays, each proved to equal the specification:

- `InsertKey`, `DayIndex` and `Join` build the row index.
- `FillColumn`, `RowSums` and `CumulativeSums` fill the cells and the totals.
- `Tabulate` and `Breakdown` put the frame together.

Definitions with an item list that `add_item` mutates are Dafny classes.
Periods, items, events and dicts are datatypes.

Two things are parameters of the model, in a `Resolution.Foreign` record:

- `Timestamp(value)` for values that are not Timestamps.
- The English-to-rule translation that `recurrent` and `dateutil` perform,
  which yields a finite, ascending list of occurrences.

The float conversion `float(value)` and the `:.2f` formatting of event amounts
are parameters too.

## Model

| member | source | states |
|---|---|---|
| Calendar.IsoDateRoundTrip | src/pybudgetplot/datamodel.py:96 | `date().isoformat()` is ten characters `YYYY-MM-DD` and reads back as the same day |
| Stamps.NormalizeFloor | src/pybudgetplot/utils/time_util.py:81 | `normalize()` gives a date-stamp on the same day, no later than the stamp and less than a day before it |
| Stamps.NormalizeFixedPoints | src/pybudgetplot/datamodel.py:66 | normalising twice is normalising once; a stamp is its own normal form exactly when it is a midnight |
| Stamps.InstantOrdersDays | src/pybudgetplot/datamodel.py:119-123 | comparing Timestamps by instant refines comparing them by day |
| Stamps.InstantInjective | src/pybudgetplot/budget/budget_breakdown.py:25-29 | two stamps with the same instant are equal, so the instant is a faithful row key |
| Stamps.StampText | src/pybudgetplot/utils/time_util.py:140 | `str(stamp)` starts with the ISO date followed by a space |
| Stamps.FormatTimestamp | src/pybudgetplot/definitions/period.py:82-103 | the text reads back as an ISO date exactly when the stamp is a date-stamp, and then as its day; otherwise its first ten characters are still the ISO date |
| Whitespace.Collapse | src/pybudgetplot/budget/budget_item.py:27 | `re.sub(r"\s+", " ", s)` leaves no whitespace but single spaces between non-space characters, keeps the non-space characters, and starts with whitespace exactly when s does |
| Whitespace.CollapseWords | src/pybudgetplot/budget/budget_item.py:27 | the substitution keeps the words of the text, so each whitespace run becomes exactly one space |
| Whitespace.CollapseLast | src/pybudgetplot/budget/budget_item.py:27 | the substituted text ends with whitespace exactly when the text does |
| Whitespace.SingleSpacedWords | src/pybudgetplot/budget/budget_item.py:27-28 | a text in normal form is its own words joined by single spaces |
| Whitespace.NormalizeString | src/pybudgetplot/datamodel.py:165-171 | fails with ValueError(text) exactly when the text is all whitespace; otherwise the result is non-empty, single-spaced and has the same non-space characters in the same order |
| Whitespace.NormalizeStringWords | src/pybudgetplot/datamodel.py:165-171 | succeeds exactly when the text has a word, and then returns its words (`s.split()`) joined by single spaces, `" ".join(s.split())` |
| Whitespace.NormalizeStringIdempotent | src/pybudgetplot/datamodel.py:165-171 | normalised text is a fixed point, so normalising twice equals normalising once |
| Whitespace.NormalizedShape | src/pybudgetplot/budget/budget_item.py:27-28 | the substitution and strip give `" ".join(s.split())`: the input's words joined by single spaces, single-spaced, with the input's non-space characters, empty exactly when the input has no word |
| Whitespace.ParseString | src/pybudgetplot/budget/budget_item.py:11-34 | a non-str raises TypeError(value, str); a str is normalised; the copy at `src/pybudgetplot/definitions/event.py:10-36` follows the same rules |
| Decimals.AmountText | src/pybudgetplot/datamodel.py:180-182 | the text gives an integer exactly when it is not blank and its normal form parses as a decimal |
| Decimals.AmountTextRounds | src/pybudgetplot/datamodel.py:180-182 | that integer is the half-up rounding of the decimal, and no other integer is |
| Decimals.ParseInt | src/pybudgetplot/budget/budget_item.py:37-58 | an int is returned as is; any other value is rounded half up from its `str()`, and every failure is ValueError(value); the copy at `src/pybudgetplot/datamodel.py:174-184` follows the same rules |
| Decimals.HalfUpRoundingUnique | src/pybudgetplot/datamodel.py:181 | at most one integer is the half-up rounding of a fraction |
| Decimals.ParseIntTie | src/pybudgetplot/budget/budget_item.py:53-56 | "23.50" rounds up to 24 |
| Decimals.ParseIntBelowTie | src/pybudgetplot/budget/budget_item.py:53-56 | "23.4950" rounds to 23, the digits after the tie position do not carry |
| Decimals.ParseIntNegativeTie | src/pybudgetplot/budget/budget_item.py:53-56 | "-2.5" rounds away from zero to -3 |
| Decimals.ParseIntNoCascade | src/pybudgetplot/budget/budget_item.py:53-56 | "1.495" rounds once, to 1 |
| Decimals.ParseIntLeadingSpaceExample | src/pybudgetplot/budget/budget_item.py:54 | " 23.5" is normalised before parsing and gives 24 |
| Decimals.ParseIntRefusesWords | src/pybudgetplot/budget/budget_item.py:53-58 | "abc" raises ValueError |
| Decimals.ParseIntRefusesBlank | src/pybudgetplot/budget/budget_item.py:53-58 | an all-whitespace text raises ValueError |
| Decimals.ParseIntRefusesNone | src/pybudgetplot/budget/budget_item.py:53-58 | None raises ValueError(None), because "None" is not a number |
| Resolution.CompareTo | src/pybudgetplot/datamodel.py:121 | an occurrence can be compared with a Timestamp, a datetime or NaT bound and with nothing else |
| Resolution.InRangeMembers | src/pybudgetplot/utils/time_util.py:116 | the occurrences kept are exactly those whose instant lies in the closed interval of the bounds |
| Resolution.InRangeAscending | src/pybudgetplot/utils/time_util.py:116 | the kept occurrences stay in ascending order |
| Resolution.BetweenIsInRange | src/pybudgetplot/utils/time_util.py:116 | with Timestamp bounds, dateutil's inclusive `between` walk gives exactly the occurrences in the interval |
| Resolution.RuleDatesInPeriod | src/pybudgetplot/datamodel.py:110-123 | a rule's dates are the normalised occurrences in the period: midnights, within the period's days, non-decreasing, one per kept occurrence |
| Resolution.MidnightsOfClipped | src/pybudgetplot/utils/time_util.py:114-118 | normalising kept occurrences gives midnights inside the period's days, in order, covering every kept occurrence's day |
| TimeUtil.IsNormalized | src/pybudgetplot/utils/time_util.py:14-35 | a non-Timestamp raises TypeError(stamp, Timestamp); otherwise true exactly when the time of day is below one microsecond; the copy at `src/pybudgetplot/datamodel.py:69-79` follows the same rules; the copy at `src/pybudgetplot/definitions/period.py:17-44` follows the same rules |
| TimeUtil.ParseTimeStamp | src/pybudgetplot/utils/time_util.py:38-60 | None raises ValueError(None); a Timestamp passes as is; anything else is what `Timestamp(value)` gives, ValueError(value) when that raises |
| TimeUtil.ParseDateStamp | src/pybudgetplot/utils/time_util.py:63-81 | success gives a date-stamp on the parsed stamp's day; failure is ValueError(value), or TypeError when `Timestamp(value)` gives NaT; the copy at `src/pybudgetplot/datamodel.py:49-66` follows the same rules |
| TimeUtil.ParseDateStampIdempotent | src/pybudgetplot/utils/time_util.py:63-81 | parsing a parsed date-stamp gives it back |
| TimeUtil.GenerateDateStamps | src/pybudgetplot/utils/time_util.py:84-121 | a frequency that parses as a date gives that date alone; a TypeError there is raised; every later failure is ValueError(frequency) |
| TimeUtil.RuleDatesBeforeEnd | src/pybudgetplot/utils/time_util.py:102-118 | every generated rule date is a midnight no later than the end's day |
| TimeUtil.GenerateDateStampsOfRule | src/pybudgetplot/utils/time_util.py:102-118 | a rule frequency gives the normalised occurrences that lie between the parsed bounds |
| TimeUtil.StampToStr | src/pybudgetplot/utils/time_util.py:124-140 | a non-Timestamp raises TypeError; a date-stamp gives its ISO date, which reads back as its day; another stamp gives text starting with its ISO date; the copy at `src/pybudgetplot/datamodel.py:82-98` follows the same rules |
| TimeUtil.Period.GenerateDates | src/pybudgetplot/utils/time_util.py:154-167 | `generate_date_stamps` over the period's two bounds |
| TimeUtil.DatePeriod | src/pybudgetplot/budget/budget_definition.py:45 | both bounds are parsed as date-stamps, the start first; the first failure is raised |
| BudgetItems.NewBudgetItem | src/pybudgetplot/budget/budget_item.py:69-91 | description, amount and frequency are validated in that order, the first failure raised; a built item has non-empty single-spaced texts; the copy at `src/pybudgetplot/datamodel.py:152-162` follows the same rules |
| BudgetItems.NewBudgetItemOfItem | src/pybudgetplot/budget/budget_item.py:69-91 | validating an item's own fields gives the item back |
| BudgetItems.DescriptionCheckedFirst | src/pybudgetplot/budget/budget_item.py:86-88 | a description that is not a str raises TypeError whatever the amount and frequency |
| Events.ParseAmount | src/pybudgetplot/definitions/event.py:39-62 | the float conversion's value, or ValueError(value) when it raises |
| Events.NewEvent | src/pybudgetplot/definitions/event.py:82-108 | description, amount and frequency are validated in that order, the first failure raised; the event keeps that field order, each text is `normalize_string` of the given text and the amount is `parse_amount` of the given amount |
| Events.NewEventNormalForm | src/pybudgetplot/definitions/event.py:82-108 | the texts of a built event are already normal, so normalising them again changes nothing |
| Events.Event.AsDict | src/pybudgetplot/definitions/event.py:72-79 | description and frequency are kept; the amount becomes its two-decimal text, and the formatting error is raised |
| DefinitionsPeriod.ParseDatestamp | src/pybudgetplot/definitions/period.py:47-79 | a value outside int, str, date, datetime and Timestamp raises TypeError; any other value is handled as `parse_date_stamp` handles it |
| DefinitionsPeriod.NoneIsTypeError | src/pybudgetplot/definitions/period.py:47-79 | None is a TypeError here, where the time utilities raise ValueError |
| DefinitionsPeriod.Period.AsDict | src/pybudgetplot/definitions/period.py:117-127 | succeeds exactly when both bounds are Timestamps, with `format_timestamp` of each; otherwise TypeError on the first bad bound |
| DefinitionsPeriod.Period.AsDictReadsBack | src/pybudgetplot/definitions/period.py:117-127 | a date-stamp bound's text reads back as its day; any bound's text starts with its ISO date |
| DefinitionsPeriod.Period.GenerateDates | src/pybudgetplot/definitions/period.py:129-174 | a date frequency gives that date; a TypeError there is raised; otherwise the rule between the stored bounds, or ValueError(frequency) |
| DefinitionsPeriod.NewPeriod | src/pybudgetplot/definitions/period.py:177-198 | both bounds are parsed, the start first; the period holds two date-stamps |
| DefinitionsPeriod.NewPeriodAsDict | src/pybudgetplot/definitions/period.py:177-198 | a period from `new_period` turns into two ISO dates that read back as its days |
| DefinitionsPeriod.GenerateDatesAgree | src/pybudgetplot/definitions/period.py:129-174 | on date-stamp bounds this resolver agrees with the time utilities' one on every str frequency |
| Dicts.Lookup | src/pybudgetplot/budget/budget_definition.py:59-66 | a lookup finds nothing exactly when the key is absent |
| Dicts.FromPairsKeys | src/pybudgetplot/budget/budget_definition.py:59-66 | the comprehension's keys are the descriptions in order of first occurrence, each once |
| Dicts.FromPairsLookup | src/pybudgetplot/budget/budget_definition.py:59-66 | a repeated description holds the values of its last item |
| Dicts.FromPairsDistinct | src/pybudgetplot/budget/budget_definition.py:59-66 | the comprehension's keys are distinct |
| Dicts.FromPairsOfDistinct | src/pybudgetplot/budget/budget_definition.py:59-66 | pairs with distinct keys come out unchanged and in order |
| Folds.MapAllFacts | src/pybudgetplot/budget/budget_definition.py:105-108 | the loop succeeds exactly when every step does, with one result per element in order; otherwise it raises the first failing step's error |
| Folds.MapAllAgree | src/pybudgetplot/budget/budget_breakdown.py:23-29 | two loops whose steps agree on every element give the same result or the same error |
| Folds.FailureSticks | src/pybudgetplot/budget/budget_definition.py:105-108 | once a step raises, the rest of the loop does not run |
| Ledger.DailyKeysMembers | src/pybudgetplot/budget/budget_breakdown.py:19-21 | `date_range(start, end)` holds exactly the instants start + k days that are not after end |
| Ledger.DailyKeysIncreasing | src/pybudgetplot/budget/budget_breakdown.py:19-21 | the day index is strictly increasing |
| Ledger.JoinAllFacts | src/pybudgetplot/budget/budget_breakdown.py:23-29 | the outer join's index is increasing and holds exactly the period's days and every item date |
| Ledger.RowsFacts | src/pybudgetplot/budget/budget_breakdown.py:19-29 | the rows are increasing and are exactly the period's days plus the item dates |
| Ledger.RowsWithin | src/pybudgetplot/budget/budget_breakdown.py:19-29 | when every item date is a day of the period, the rows are exactly the days of the period |
| Ledger.CellMeaning | src/pybudgetplot/budget/budget_breakdown.py:25-29 | an item's cell is its amount on its own dates and 0 on any other row |
| Ledger.TabulationTotals | src/pybudgetplot/budget/budget_breakdown.py:31-32 | one name and one full column per item; the daily total is the row sum; the cumulative total adds each day's total to the previous one and ends at the sum of every item's column |
| Ledger.BreakdownExample | tests/test_budget_breakdown.py:37-48 | the cash, food and commute budget starting 2021-12-31 gives daily totals 200, -5, -6, -6, -6, -5 and cumulative totals 200, 195, 189, 183, 177, 172 |
| Ledger.InsertKey | src/pybudgetplot/budget/budget_breakdown.py:29 | inserting a key into the increasing index gives the specified sorted union |
| Ledger.DayIndex | src/pybudgetplot/budget/budget_breakdown.py:19-21 | the loop builds the daily index of the period |
| Ledger.Join | src/pybudgetplot/budget/budget_breakdown.py:23-29 | the nested loops build the joined index of the period and all columns |
| Ledger.FillColumn | src/pybudgetplot/budget/budget_breakdown.py:29 | the array loop fills a column with its cells, the amount on its dates and 0 elsewhere |
| Ledger.RowSums | src/pybudgetplot/budget/budget_breakdown.py:31 | the loops compute every row's sum over the item columns |
| Ledger.CumulativeSums | src/pybudgetplot/budget/budget_breakdown.py:32 | the loop computes the running totals |
| Ledger.Tabulate | src/pybudgetplot/budget/budget_breakdown.py:19-34 | the methods together compute the specified frame |
| Ledger.Breakdown | src/pybudgetplot/budget/budget_breakdown.py:23-34 | the item loop raises the first item's failure, or gives the frame of all columns |
| Ledger.InstantsOf | src/pybudgetplot/budget/budget_breakdown.py:27 | one index key per generated date, each the date's instant |
| BudgetDicts.DictOfFacts | src/pybudgetplot/budget/budget_definition.py:51-73 | the dict's period reads back as the bounds' days; its item keys are distinct, the descriptions in order of first occurrence, each holding the last item's values; the copy at `src/pybudgetplot/datamodel.py:239-255` follows the same rules |
| BudgetDicts.LoadFacts | src/pybudgetplot/budget/budget_definition.py:96-110 | reading a dict succeeds exactly when both bounds parse and every entry validates; it then holds the parsed bounds and one item per entry, in order; the start is checked before the end; the copy at `src/pybudgetplot/datamodel.py:208-223` follows the same rules |
| BudgetDicts.LoadItemsOfItems | src/pybudgetplot/budget/budget_definition.py:104-108 | validated items come back unchanged from their own entries |
| BudgetDicts.RoundTrip | src/pybudgetplot/budget/budget_definition.py:51-110 | reading the dict of a definition back gives the same bounds and items when the bounds are midnights, the descriptions distinct, and the parser reads an ISO date as its midnight |
| BudgetDicts.RepeatedDescriptionMerges | src/pybudgetplot/budget/budget_definition.py:59-66 | two items with one description leave one entry, with the second item's values |
| DataModel.DatePeriod.GenerateDates | src/pybudgetplot/datamodel.py:100-131 | a date frequency gives that date; a TypeError there is raised; otherwise the rule between the bounds, every failure ValueError(frequency) |
| DataModel.NewDatePeriod | src/pybudgetplot/datamodel.py:37-41 | both bounds are parsed as date-stamps, the start first |
| DataModel.GenerateDatesAgree | src/pybudgetplot/datamodel.py:100-131 | on date-stamp bounds it agrees with the time utilities' `Period.generate_dates` on every frequency |
| DataModel.BreakdownColumns | src/pybudgetplot/datamodel.py:275-293 | the breakdown fails exactly when some item's frequency fails, with the first such error; otherwise column j is item j's amount on its generated dates, over the period's days |
| DataModel.BudgetDefinition.New | src/pybudgetplot/datamodel.py:202-205 | the period is parsed from the two bounds and the item list starts empty and valid |
| DataModel.BudgetDefinition.AddItem | src/pybudgetplot/datamodel.py:233-237 | a valid item is appended; an invalid one raises and leaves the list as it was; validity is preserved |
| DataModel.BudgetDefinition.AddEntry | src/pybudgetplot/datamodel.py:218-221 | `add_item` on one dict entry, with the same effect |
| DataModel.BudgetDefinition.FromDict | src/pybudgetplot/datamodel.py:208-223 | the loop builds exactly what the dict specifies, or raises its first error |
| DataModel.BudgetDefinition.CalculateBreakdown | src/pybudgetplot/datamodel.py:275-293 | the method computes the specified breakdown of the definition |
| DataModel.NewBudgetBreakdown | src/pybudgetplot/datamodel.py:450-482 | anything but a definition raises TypeError; a definition gives the same frame as `calculate_breakdown` |
| BudgetDefinitions.BudgetDefinition.AddItem | src/pybudgetplot/budget/budget_definition.py:17-31 | returns the validated item and appends it; a failure leaves the list as it was; validity is preserved; the copy at `src/pybudgetplot/model/budget_definition.py:18-39` follows the same rules |
| BudgetDefinitions.BudgetDefinition.AddEntry | src/pybudgetplot/budget/budget_definition.py:105-108 | `add_item` on one dict entry, with the same effect |
| BudgetDefinitions.NewBudget | src/pybudgetplot/budget/budget_definition.py:34-48 | the period is parsed and the item list starts empty; the first bound failure is raised; the copy at `src/pybudgetplot/model/budget_definition.py:42-62` follows the same rules |
| BudgetDefinitions.BudgetFromDict | src/pybudgetplot/budget/budget_definition.py:96-110 | the loop builds exactly what the dict specifies, valid, or raises its first error |
| BudgetDefinitions.AsDictRoundTrip | src/pybudgetplot/budget/budget_definition.py:51-110 | `budget_from_dict(budget_as_dict(b))` gives b's bounds and items back, under the conditions of the round trip above |
| BudgetBreakdowns.CalculateBreakdown | src/pybudgetplot/budget/budget_breakdown.py:9-34 | the method computes the specified breakdown of the definition |
| BudgetBreakdowns.BreakdownAgrees | src/pybudgetplot/budget/budget_breakdown.py:9-34 | over the same date-stamp bounds and items, this copy and the single-module one give the same frame or the same error |
| DefinitionsBudget.Budget.constructor | src/pybudgetplot/definitions/budget.py:18-20 | the period holds the two values as given, and there are no events |
| DefinitionsBudget.Budget.Equals | src/pybudgetplot/definitions/budget.py:25-31 | false for a non-Budget; for a Budget, true exactly when the periods are equal and the event lists are equal; every budget equals itself |
| DefinitionsBudget.Budget.AddEvent | src/pybudgetplot/definitions/budget.py:33-46 | the event holds the three values as given and is appended last |
| DefinitionsBudget.Budget.FromDict | src/pybudgetplot/definitions/budget.py:78-95 | the period holds the dict's two values, and there is one event per entry, in order |
| DefinitionsBudget.AsDictFacts | src/pybudgetplot/definitions/budget.py:48-58 | succeeds exactly when both bounds are Timestamps and every amount formats; then one entry per event, in order; a bad bound is reported before any event |
| DefinitionsBudget.FromAsDict | src/pybudgetplot/definitions/budget.py:48-95 | reading back the dict keeps the events' order, descriptions and frequencies; amounts become their texts, and the bounds become str values |
| DefinitionsBudget.ReadBackCannotBeDumped | src/pybudgetplot/definitions/budget.py:18-20 | a budget read back from a dict cannot be turned into a dict again: TypeError on its start |
| DefinitionsBudget.Budget.New | src/pybudgetplot/definitions/budget.py:18-20 | corrected constructor: the bounds are parsed by `new_period` |
| DefinitionsBudget.Budget.FromDictParsed | src/pybudgetplot/definitions/budget.py:78-95 | corrected `from_dict`: the period is parsed, then one event per entry, in order |
| DefinitionsBudget.ParsedPeriodRoundTrip | src/pybudgetplot/definitions/budget.py:48-95 | with parsed bounds, a period of two midnights comes back equal from its own dict |
| DefinitionsBreakdown.BreakdownDataAsWritten | src/pybudgetplot/definitions/breakdown.py:30-44 | as written, every Budget raises AttributeError("start"), and anything else raises TypeError |
| DefinitionsBreakdown.NormalizeBound | src/pybudgetplot/definitions/breakdown.py:38-39 | a Timestamp bound normalises to a date-stamp on its day; NaT stays NaT; anything else has no `normalize` |
| DefinitionsBreakdown.RangeBounds | src/pybudgetplot/definitions/breakdown.py:36-41 | the range runs from midnight of the start day to midnight of the end day; a non-stamp bound raises AttributeError and a NaT bound raises ValueError |
| DefinitionsBreakdown.CalculateBreakdownData | src/pybudgetplot/definitions/breakdown.py:30-58 | a non-Budget raises TypeError; otherwise the method computes the specified frame |
| DefinitionsBreakdown.BreakdownDataColumns | src/pybudgetplot/definitions/breakdown.py:36-58 | over Timestamp bounds, fails exactly when some event's frequency fails; otherwise column j is event j's amount on its dates, over the period's days |
| DefinitionsBreakdown.BreakdownFinding | src/pybudgetplot/definitions/breakdown.py:36-44 | for a budget with Timestamp bounds and resolvable events, the code as written fails while the corrected breakdown succeeds |
| DefinitionsBreakdown.StrBoundsBreakdown | src/pybudgetplot/definitions/breakdown.py:36-41 | for a budget over two str bounds, as the tests build one, the range raises AttributeError on `normalize` even with the period's own names; with the bounds parsed by `new_period` the breakdown succeeds once every event resolves |
| DefinitionsBreakdown.ReplaceLastTwo | src/pybudgetplot/definitions/breakdown.py:110 | `xs[-2:] = [a, b]` ends with a and b, with the rest unchanged |
| DefinitionsBreakdown.ColumnNames | src/pybudgetplot/definitions/breakdown.py:105-111 | "DATE", the event column names, then "DAILY_TOTAL" and "CUMULATIVE_TOTAL" |
| DefinitionsBreakdown.RowsData | src/pybudgetplot/definitions/breakdown.py:113-121 | one entry per row: its day, then the cells of every column and the two totals |
| DefinitionsBreakdown.RowsDataFacts | src/pybudgetplot/definitions/breakdown.py:105-121 | each row has one value per name after "DATE": an event's amount on its dates or 0, then the row's sum, then the running total |

## Findings

| source | as written | input that shows it | evidently intended | confidence | as-written member | corrected member |
|---|---|---|---|---|---|---|
| src/pybudgetplot/definitions/breakdown.py:38-44 | reads `budget.period.start`, `budget.period.end` and calls `budget.period.generate_datestamps`; a definitions `Period` has `start_date`, `end_date` and `generate_dates` | any `Budget`, e.g. one over two Timestamp bounds with no events: AttributeError | the period's own names: `start_date.normalize()`, `end_date.normalize()`, `generate_dates(event.frequency)`; for the tests' budgets over str bounds (tests/test_datamodel_breakdown.py:11), also the parsed period of the next row, because a str has no `normalize` (`DefinitionsBreakdown.StrBoundsBreakdown`) | high, not executed | DefinitionsBreakdown.BreakdownDataAsWritten | DefinitionsBreakdown.CalculateBreakdownData |
| src/pybudgetplot/definitions/budget.py:18-20 | `Budget(start, end)` stores the raw values in the `Period` named tuple, whose fields are declared as Timestamps | `Budget.from_dict(b.as_dict())` for any b whose `as_dict` succeeds: the read-back period holds two str values, so its `as_dict` raises TypeError | parse the bounds with `new_period`, as the package's own constructor function does | medium, not executed | DefinitionsBudget.ReadBackCannotBeDumped | DefinitionsBudget.Budget.FromDictParsed |

## Left out

- YAML, CSV and XLSX reading and writing, plotting, logging and the command line. They are I/O. `budget_as_yaml`, `budget_from_yaml`, `breakdown_as_csv`, `to_csv`, `to_xlsx`, `as_yaml` and `from_yaml` wrap the modelled dict and frame functions.
- `Timestamp(value)` for non-Timestamp values, and the `recurrent`/`dateutil` translation of a frequency sentence into a rule. Both are foreign code and are parameters (`Resolution.Foreign`). A rule's occurrences are a finite ascending list, so unbounded rules are cut to what the list holds.
- Floating point. `float(value)` in `parse_amount` and the `:.2f` format in `Event.as_dict` are parameters. Frame cells are integers, where pandas stores float64.
- Ledger.TabulationTotals: an item described "daily_total" or "cumulative_total" is not modelled. pandas assigns the two totals by label, so such an item's column would be overwritten and the frame would not gain a separate total column. The model, `Ledger.Tabulation` and the array methods that compute it always keep one column per item and add the two totals after them.
- DefinitionsBreakdown.ColumnNames: for the same reason, the names are stated only as the layout for events not described "daily_total" or "cumulative_total". With such an event, `column_names[-2:]` would rename the wrong columns.
- `DefinitionsBreakdown.CalculateBreakdownData` requires every event amount to be an int. The definitions package stores floats or raw values, and their float64 sums are not modelled.
- `Decimal` syntax beyond signs, digits, one point and an exponent is not modelled: underscores, non-ASCII digits, "Infinity" and "NaN". Texts using them are refused.
- KeyError for a dict without "PERIOD"/"ITEMS" (or "period"/"events"), or an entry without "amount"/"frequency". The model reads already-split dicts.
- `time_util.date_period`, which `budget/budget_definition.py` and `model/budget_definition.py` import, is not defined in `utils/time_util.py`. `TimeUtil.DatePeriod` models it as `parse_date_stamp` of both bounds, the start first, so `Period(start, end)` holds two date-stamps.
- `model/budget_item.py` is not part of this model. The `model` copy of the definition is modelled with the `budget` package's `new_budget_item`.
- The `items` argument of the single-module `BudgetDefinition(...)` is not modelled: the item list always starts empty, as `from_dict` uses it.
- The `isinstance` checks on `period` and `items` in `BudgetBreakdown` always pass here, because the model's types guarantee them.
- pandas' join of a column whose dates repeat one day is not modelled. Item dates are treated as a set of row keys, and one item's repeated day counts once.
- Python's cross-type equality (`Timestamp == datetime`, `5 == 5.0`) in `Budget.__eq__` is not modelled. Values compare structurally.
- Aliasing of the item and event lists: the model copies sequences where Python would share a list object.
- The message texts of exceptions are not modelled. An error records its kind and the value or attribute it names.
- In `normalize_string` of the single-module copy, a non-str raises whatever `re.sub` raises. It is modelled as the TypeError of `parse_string`.
- The nanosecond part of the period bounds in `date_range`: keys are the start instant plus whole days, as pandas builds them.
