/**
 * The breakdown of the definitions package: the frame of a Budget's events
 * over the days of its period, its column names and its rows.
 */
module DefinitionsBreakdown {
  import opened Wrappers
  import opened Stamps
  import opened Values
  import opened Resolution
  import opened Events
  import opened DefinitionsPeriod
  import opened DefinitionsBudget
  import opened Folds
  import opened Ledger

  /**
   * `calculate_breakdown_data(budget)` as written: anything but a Budget
   * raises TypeError; for a Budget the first step reads `period.start`,
   * which a Period does not have (its fields are `start_date` and
   * `end_date`), so every Budget raises AttributeError.
   */
  function BreakdownDataAsWritten(arg: Arg): (r: Result<Table<Value>, Error>)
    ensures r.Failure?
    ensures arg.OtherArg? <==> r.error.TypeError?
    ensures arg.BudgetArg? ==> r.error == AttributeError("start")
  {
    match arg
    case OtherArg(v) => Failure(TypeError(v, BudgetClass))
    case BudgetArg(_) => Failure(AttributeError("start"))
  }

  /**
   * `bound.normalize()`: a Timestamp gives its midnight, NaT gives NaT
   * (None here), any other value has no `normalize` attribute.
   */
  function NormalizeBound(v: Value): (r: Result<Option<Timestamp>, Error>)
    ensures r.Success? <==> v.TimestampValue? || v.NaTValue?
    ensures r.Failure? ==> r.error == AttributeError("normalize")
    ensures v.TimestampValue? ==> (r.Success? && r.value.Some? && IsDatestamp(r.value.value) && r.value.value.day == v.stamp.day)
    ensures v.NaTValue? ==> r == Success(None)
  {
    match v
    case TimestampValue(t) => Success(Some(Normalize(t)))
    case NaTValue => Success(None)
    case _ => Failure(AttributeError("normalize"))
  }

  /**
   * The first key and the last key of `date_range(start=..., end=...)` over
   * the two normalised bounds: both are normalised before the range is
   * built, and a NaT bound makes the range raise ValueError.
   */
  function RangeBounds(period: Period): (r: Result<(int, int), Error>)
    ensures r.Success? <==> period.startDate.TimestampValue? && period.endDate.TimestampValue?
    ensures r.Success? ==> r.value == (period.startDate.stamp.day * NanosPerDay, period.endDate.stamp.day * NanosPerDay)
    ensures r.Failure? ==>
      r.error == (if !(period.startDate.TimestampValue? || period.startDate.NaTValue?) || !(period.endDate.TimestampValue? || period.endDate.NaTValue?)
        then AttributeError("normalize") else ValueError(NaTValue))
  {
    var start :- NormalizeBound(period.startDate);
    var end :- NormalizeBound(period.endDate);
    if start.None? || end.None? then Failure(ValueError(NaTValue))
    else Success((Instant(start.value), Instant(end.value)))
  }

  predicate IntAmounts(events: seq<Event>) {
    forall i :: 0 <= i < |events| ==> events[i].amount.IntValue?
  }

  /** An event's column: its description, its amount and the keys of its generated dates. */
  function EventColumn(period: Period, f: Foreign): Event -> Result<Column<Value>, Error> {
    (e: Event) =>
      match period.GenerateDates(e.frequency, f)
      case Failure(err) => Failure(err)
      case Success(ds) => Success(Column(e.description, if e.amount.IntValue? then e.amount.i else 0, InstantsOf(ds)))
  }

  /** `calculate_breakdown_data(budget)` with the period's own field and method names. */
  function BreakdownDataOf(period: Period, events: seq<Event>, f: Foreign): Result<Table<Value>, Error>
    requires IntAmounts(events)
  {
    var (lo, hi) :- RangeBounds(period);
    var cs :- MapAll(events, EventColumn(period, f));
    Success(Tabulation(lo, hi, cs))
  }

  /** `calculate_breakdown_data(budget)`: the range over the period's days, then one column per event, in order. */
  method CalculateBreakdownData(arg: Arg, f: Foreign) returns (r: Result<Table<Value>, Error>)
    requires arg.BudgetArg? ==> IntAmounts(arg.budget.events)
    ensures arg.OtherArg? ==> r == Failure(TypeError(arg.other, BudgetClass))
    ensures arg.BudgetArg? ==> r == BreakdownDataOf(arg.budget.period, arg.budget.events, f)
  {
    match arg {
      case OtherArg(v) =>
        r := Failure(TypeError(v, BudgetClass));
      case BudgetArg(b) =>
        match RangeBounds(b.period) {
          case Failure(e) =>
            r := Failure(e);
          case Success(bounds) =>
            r := Breakdown(bounds.0, bounds.1, b.events, EventColumn(b.period, f));
        }
    }
  }

  /**
   * Over a period of two Timestamps the breakdown fails exactly when some
   * event's frequency cannot be resolved, with the first such error;
   * otherwise its rows run over the days of the normalised period, and
   * column j is event j's amount on the keys of its generated dates.
   */
  lemma BreakdownDataColumns(period: Period, events: seq<Event>, f: Foreign)
    requires IntAmounts(events)
    requires period.startDate.TimestampValue? && period.endDate.TimestampValue?
    ensures BreakdownDataOf(period, events, f).Success? <==>
      forall j :: 0 <= j < |events| ==> period.GenerateDates(events[j].frequency, f).Success?
    ensures BreakdownDataOf(period, events, f).Success? ==>
      var cs := MapAll(events, EventColumn(period, f)).value;
      && BreakdownDataOf(period, events, f).value
        == Tabulation(period.startDate.stamp.day * NanosPerDay, period.endDate.stamp.day * NanosPerDay, cs)
      && |cs| == |events|
      && forall j :: 0 <= j < |events| ==>
        cs[j] == Column(events[j].description, events[j].amount.i, InstantsOf(period.GenerateDates(events[j].frequency, f).value))
    ensures BreakdownDataOf(period, events, f).Failure? ==>
      exists j :: 0 <= j < |events| && period.GenerateDates(events[j].frequency, f) == Failure(BreakdownDataOf(period, events, f).error)
  {
    MapAllFacts(events, EventColumn(period, f));
  }

  /**
   * The discrepancy: for a Budget whose period holds two Timestamps and
   * whose events all resolve, the code as written raises AttributeError
   * while the breakdown with the period's own names succeeds.
   */
  lemma BreakdownFinding(b: Budget, f: Foreign)
    requires IntAmounts(b.events)
    requires b.period.startDate.TimestampValue? && b.period.endDate.TimestampValue?
    requires forall j :: 0 <= j < |b.events| ==> b.period.GenerateDates(b.events[j].frequency, f).Success?
    ensures BreakdownDataAsWritten(BudgetArg(b)) == Failure(AttributeError("start"))
    ensures BreakdownDataOf(b.period, b.events, f).Success?
  {
    BreakdownDataColumns(b.period, b.events, f);
  }

  /**
   * A Budget built from two str bounds, as the package's tests build one:
   * stored as given, the bounds have no `normalize`, so even the breakdown
   * with the period's own names raises AttributeError; with the bounds
   * parsed by `new_period` it succeeds once every event's frequency
   * resolves.
   */
  lemma StrBoundsBreakdown(start: string, end: string, events: seq<Event>, f: Foreign)
    requires IntAmounts(events)
    requires NewPeriod(StrValue(start), StrValue(end), f).Success?
    requires forall j :: 0 <= j < |events| ==>
      NewPeriod(StrValue(start), StrValue(end), f).value.GenerateDates(events[j].frequency, f).Success?
    ensures BreakdownDataOf(Period(StrValue(start), StrValue(end)), events, f) == Failure(AttributeError("normalize"))
    ensures BreakdownDataOf(NewPeriod(StrValue(start), StrValue(end), f).value, events, f).Success?
  {
    BreakdownDataColumns(NewPeriod(StrValue(start), StrValue(end), f).value, events, f);
  }

  /** `column_names[-2:] = [a, b]` on a list of at least two names: the last two are replaced. */
  function ReplaceLastTwo<T>(xs: seq<T>, a: T, b: T): (r: seq<T>)
    ensures |r| == if |xs| >= 2 then |xs| else 2
    ensures r[|r| - 2..] == [a, b]
    ensures |xs| >= 2 ==> r[..|r| - 2] == xs[..|xs| - 2]
  {
    if |xs| >= 2 then xs[..|xs| - 2] + [a, b] else [a, b]
  }

  /**
   * `Breakdown.column_names`: "DATE", the event columns' names, and the two
   * totals renamed to "DAILY_TOTAL" and "CUMULATIVE_TOTAL" (the layout of a
   * frame with no event labelled "daily_total" or "cumulative_total").
   */
  function ColumnNames(t: Table<Value>): (r: seq<Value>)
    ensures r == [StrValue("DATE")] + t.names + [StrValue("DAILY_TOTAL"), StrValue("CUMULATIVE_TOTAL")]
  {
    var names := [StrValue("DATE")] + t.names + [StrValue("daily_total"), StrValue("cumulative_total")];
    var r := ReplaceLastTwo(names, StrValue("DAILY_TOTAL"), StrValue("CUMULATIVE_TOTAL"));
    assert r[..|r| - 2] == [StrValue("DATE")] + t.names;
    r
  }

  /** A frame whose columns all have one cell per row. */
  predicate Shaped<N>(t: Table<N>) {
    && |t.daily| == |t.rows| && |t.cumulative| == |t.rows|
    && forall j :: 0 <= j < |t.cells| ==> |t.cells[j]| == |t.rows|
  }

  /** The values of row i: one per event column, then the daily and the cumulative total. */
  function RowValues<N>(t: Table<N>, i: int): seq<int>
    requires Shaped(t) && 0 <= i < |t.rows|
  {
    seq(|t.cells|, j requires 0 <= j < |t.cells| => t.cells[j][i]) + [t.daily[i], t.cumulative[i]]
  }

  /** `Breakdown.rows_data`: each row's date (the day of its key) followed by its values. */
  function RowsData<N>(t: Table<N>): (r: seq<(int, seq<int>)>)
    requires Shaped(t)
    ensures |r| == |t.rows|
    ensures forall i :: 0 <= i < |t.rows| ==> r[i] == (t.rows[i] / NanosPerDay, RowValues(t, i))
  {
    seq(|t.rows|, i requires 0 <= i < |t.rows| => (t.rows[i] / NanosPerDay, RowValues(t, i)))
  }

  /**
   * Each row of a breakdown has one value under every name after "DATE":
   * event j's amount when the row is one of its dates, 0 otherwise; then the
   * row's sum; then the running total, which adds the row's sum to the
   * previous row's.
   */
  lemma RowsDataFacts(lo: int, hi: int, cs: seq<Column<Value>>, i: int)
    requires 0 <= i < |Rows(lo, hi, cs)|
    ensures Shaped(Tabulation(lo, hi, cs))
    ensures var t := Tabulation(lo, hi, cs);
      var values := RowsData(t)[i].1;
      && |values| + 1 == |ColumnNames(t)|
      && (forall j :: 0 <= j < |cs| ==> values[j] == if t.rows[i] in cs[j].keys then cs[j].amount else 0)
      && values[|cs|] == RowSum(cs, t.rows[i])
      && values[|cs| + 1] == (if i == 0 then values[|cs|] else RowsData(t)[i - 1].1[|cs| + 1] + values[|cs|])
  {
    var t := Tabulation(lo, hi, cs);
    TabulationTotals(lo, hi, cs);
    var values := RowsData(t)[i].1;
    assert values == RowValues(t, i);
    forall j | 0 <= j < |cs|
      ensures values[j] == if t.rows[i] in cs[j].keys then cs[j].amount else 0
    {
      CellMeaning(lo, hi, cs, j, i);
    }
    if i > 0 {
      assert RowsData(t)[i - 1].1 == RowValues(t, i - 1);
    }
  }
}
