/**
 * The single-module copy of the engine: a DatePeriod of two date-stamps, a
 * BudgetDefinition holding a period and a growing list of items, and the
 * breakdown computed from it.
 */
module DataModel {
  import opened Wrappers
  import opened Stamps
  import opened Values
  import opened Resolution
  import opened BudgetItems
  import opened BudgetDicts
  import opened Folds
  import opened Ledger
  import TimeUtil

  /**
   * A DatePeriod: both bounds went through `parse_datestamp` when it was
   * built, which behaves as `parse_date_stamp` of the time utilities.
   */
  datatype DatePeriod = DatePeriod(start: Timestamp, end: Timestamp) {
    /**
     * `generate_dates(frequency)`: a frequency that parses as a date-stamp
     * gives that one date; a TypeError of that attempt is raised; after a
     * ValueError the rule is walked between the two bounds, and every
     * failure of that stage is `ValueError(frequency)`.
     */
    function GenerateDates(frequency: Value, f: Foreign): (r: Result<seq<Timestamp>, Error>)
      ensures TimeUtil.ParseDateStamp(frequency, f).Success? ==> r == Success([TimeUtil.ParseDateStamp(frequency, f).value])
      ensures TimeUtil.ParseDateStamp(frequency, f).Failure? && !TimeUtil.ParseDateStamp(frequency, f).error.ValueError? ==>
        r == Failure(TimeUtil.ParseDateStamp(frequency, f).error)
      ensures r.Failure? ==> r.error == ValueError(frequency) || r.error == TimeUtil.ParseDateStamp(frequency, f).error
    {
      var literal := TimeUtil.ParseDateStamp(frequency, f);
      if literal.Success? then Success([literal.value])
      else if !literal.error.ValueError? then Failure(literal.error)
      else
        match RuleDates(frequency, TimestampValue(start), TimestampValue(end), f)
        case None => Failure(ValueError(frequency))
        case Some(ds) => Success(ds)
    }
  }

  /** `DatePeriod(start_date, end_date)`: the start is parsed first, then the end. */
  function NewDatePeriod(start: Value, end: Value, f: Foreign): (r: Result<DatePeriod, Error>)
    ensures r.Success? <==> TimeUtil.ParseDateStamp(start, f).Success? && TimeUtil.ParseDateStamp(end, f).Success?
    ensures r.Success? ==> IsDatestamp(r.value.start) && IsDatestamp(r.value.end)
    ensures r.Success? ==> Success(r.value.start) == TimeUtil.ParseDateStamp(start, f) && Success(r.value.end) == TimeUtil.ParseDateStamp(end, f)
    ensures r.Failure? ==> r.error == (if TimeUtil.ParseDateStamp(start, f).Failure? then TimeUtil.ParseDateStamp(start, f).error else TimeUtil.ParseDateStamp(end, f).error)
  {
    var s :- TimeUtil.ParseDateStamp(start, f);
    var e :- TimeUtil.ParseDateStamp(end, f);
    Success(DatePeriod(s, e))
  }

  /**
   * On a period of two date-stamps, the resolver of this copy and the one of
   * the time utilities agree on every frequency.
   */
  lemma GenerateDatesAgree(p: DatePeriod, frequency: Value, f: Foreign)
    requires IsDatestamp(p.start) && IsDatestamp(p.end)
    ensures p.GenerateDates(frequency, f) == TimeUtil.Period(p.start, p.end).GenerateDates(frequency, f)
  {
    assert TimeUtil.ParseDateStamp(TimestampValue(p.start), f) == Success(p.start);
    assert TimeUtil.ParseDateStamp(TimestampValue(p.end), f) == Success(p.end);
  }

  /** An item's column: its description, its amount and the row keys of its generated dates. */
  function ItemColumn(p: DatePeriod, f: Foreign): BudgetItem -> Result<Column<string>, Error> {
    (item: BudgetItem) =>
      match p.GenerateDates(StrValue(item.frequency), f)
      case Failure(e) => Failure(e)
      case Success(ds) => Success(Column(item.description, item.amount, InstantsOf(ds)))
  }

  /** `calculate_breakdown()` of a period and a list of items. */
  function BreakdownOf(p: DatePeriod, items: seq<BudgetItem>, f: Foreign): Result<Table<string>, Error> {
    var cs :- MapAll(items, ItemColumn(p, f));
    Success(Tabulation(Instant(p.start), Instant(p.end), cs))
  }

  /**
   * The breakdown fails exactly when some item's frequency cannot be
   * resolved, with the error of the first such item; otherwise column j is
   * item j, holding its amount on the instants of its generated dates.
   */
  lemma BreakdownColumns(p: DatePeriod, items: seq<BudgetItem>, f: Foreign)
    ensures BreakdownOf(p, items, f).Success? <==>
      forall j :: 0 <= j < |items| ==> p.GenerateDates(StrValue(items[j].frequency), f).Success?
    ensures BreakdownOf(p, items, f).Success? ==>
      var cs := MapAll(items, ItemColumn(p, f)).value;
      && BreakdownOf(p, items, f).value == Tabulation(Instant(p.start), Instant(p.end), cs)
      && |cs| == |items|
      && forall j :: 0 <= j < |items| ==>
        cs[j] == Column(items[j].description, items[j].amount, InstantsOf(p.GenerateDates(StrValue(items[j].frequency), f).value))
    ensures BreakdownOf(p, items, f).Failure? ==>
      exists j :: 0 <= j < |items| && p.GenerateDates(StrValue(items[j].frequency), f) == Failure(BreakdownOf(p, items, f).error)
        && forall q :: 0 <= q < j ==> p.GenerateDates(StrValue(items[q].frequency), f).Success?
  {
    MapAllFacts(items, ItemColumn(p, f));
  }

  /**
   * Reading a dict back parses the period as `DatePeriod` does, then loads
   * the items: the first failure of the two is the result's.
   */
  lemma LoadPeriod(data: BudgetData, f: Foreign)
    ensures NewDatePeriod(data.start, data.end, f).Failure? ==>
      Load(data, f) == Failure(NewDatePeriod(data.start, data.end, f).error)
    ensures NewDatePeriod(data.start, data.end, f).Success? ==>
      Load(data, f) == match LoadItems(data.items)
        case Failure(e) => Failure(e)
        case Success(items) =>
          var p := NewDatePeriod(data.start, data.end, f).value;
          Success(Loaded(p.start, p.end, items))
  {
  }

  /**
   * A BudgetDefinition: its period, set when it is built, and its list of
   * items, which only grows.
   */
  class BudgetDefinition {
    var period: DatePeriod
    var items: seq<BudgetItem>

    /** Every definition built from parsed bounds and extended by `add_item`: date-stamp bounds, validated items. */
    predicate Valid()
      reads this
    {
      IsDatestamp(period.start) && IsDatestamp(period.end) && AllWellFormed(items)
    }

    constructor (period: DatePeriod)
      ensures this.period == period && items == []
    {
      this.period := period;
      items := [];
    }

    /** `BudgetDefinition(period_start, period_end)`: the period is parsed, the list starts empty. */
    static method New(start: Value, end: Value, f: Foreign) returns (r: Result<BudgetDefinition, Error>)
      ensures r.Success? <==> NewDatePeriod(start, end, f).Success?
      ensures r.Failure? ==> r.error == NewDatePeriod(start, end, f).error
      ensures r.Success? ==> (fresh(r.value) && r.value.period == NewDatePeriod(start, end, f).value
        && r.value.items == [] && r.value.Valid())
    {
      match NewDatePeriod(start, end, f) {
        case Failure(e) =>
          r := Failure(e);
        case Success(p) =>
          var b := new BudgetDefinition(p);
          r := Success(b);
      }
    }

    /**
     * `add_item(description, amount, frequency)`: the item is validated
     * before the append, so a failure leaves the list as it was.
     */
    method AddItem(description: Value, amount: Value, frequency: Value) returns (r: Outcome<Error>)
      modifies this
      ensures period == old(period)
      ensures r.Pass? <==> NewBudgetItem(description, amount, frequency).Success?
      ensures r.Pass? ==> items == old(items) + [NewBudgetItem(description, amount, frequency).value]
      ensures r.Fail? ==> r.error == NewBudgetItem(description, amount, frequency).error && items == old(items)
      ensures old(Valid()) ==> Valid()
    {
      var made := NewBudgetItem(description, amount, frequency);
      if made.Failure? {
        r := Fail(made.error);
      } else {
        var item := made.value;
        assert WellFormed(item);
        AppendWellFormed(items, item);
        items := items + [item];
        r := Pass;
      }
    }

    /** `add_item` on one "ITEMS" entry of a dict being read back. */
    method AddEntry(entry: (Value, ItemFields)) returns (r: Outcome<Error>)
      modifies this
      ensures period == old(period)
      ensures r.Pass? <==> ItemOfEntry(entry).Success?
      ensures r.Pass? ==> items == old(items) + [ItemOfEntry(entry).value]
      ensures r.Fail? ==> r.error == ItemOfEntry(entry).error && items == old(items)
      ensures old(Valid()) ==> Valid()
    {
      r := AddItem(entry.0, entry.1.amount, entry.1.frequency);
    }

    /** `as_dict()`. */
    function AsDict(): BudgetDict
      reads this
    {
      DictOf(period.start, period.end, items)
    }

    /** `from_dict(data)`: a new definition over the dict's period, then `add_item` on each entry in order. */
    static method FromDict(data: BudgetData, f: Foreign) returns (r: Result<BudgetDefinition, Error>)
      ensures r.Success? <==> Load(data, f).Success?
      ensures r.Failure? ==> r.error == Load(data, f).error
      ensures r.Success? ==> (fresh(r.value) && r.value.Valid()
        && r.value.period == DatePeriod(Load(data, f).value.start, Load(data, f).value.end)
        && r.value.items == Load(data, f).value.items)
    {
      var made := New(data.start, data.end, f);
      LoadPeriod(data, f);
      if made.Failure? {
        return Failure(made.error);
      }
      var b := made.value;
      ghost var period := b.period;
      var j := 0;
      while j < |data.items|
        invariant 0 <= j <= |data.items|
        invariant fresh(b) && b.period == period && b.Valid()
        invariant MapAll(data.items[..j], ItemOfEntry) == Success(b.items)
      {
        MapAllStep(data.items, ItemOfEntry, j);
        var outcome := b.AddEntry(data.items[j]);
        if outcome.Fail? {
          FailureSticks(data.items, ItemOfEntry, j + 1);
          return Failure(outcome.error);
        }
        j := j + 1;
      }
      assert data.items[..|data.items|] == data.items;
      r := Success(b);
    }

    /** `calculate_breakdown()`. */
    method CalculateBreakdown(f: Foreign) returns (r: Result<Table<string>, Error>)
      ensures r == BreakdownOf(period, items, f)
    {
      r := Breakdown(Instant(period.start), Instant(period.end), items, ItemColumn(period, f));
    }
  }

  /** What `BudgetBreakdown` is given: a BudgetDefinition, or any other value. */
  datatype DefinitionArg = Definition(definition: BudgetDefinition) | NotDefinition(other: Value)

  /**
   * `BudgetBreakdown(budget)`: anything but a BudgetDefinition raises
   * `TypeError(budget, BudgetDefinition, type(budget))`; a definition gives
   * the same frame as its own `calculate_breakdown()`.
   */
  method NewBudgetBreakdown(arg: DefinitionArg, f: Foreign) returns (r: Result<Table<string>, Error>)
    ensures arg.NotDefinition? ==> r == Failure(TypeError(arg.other, DefinitionClass))
    ensures arg.Definition? ==> r == BreakdownOf(arg.definition.period, arg.definition.items, f)
  {
    match arg {
      case NotDefinition(v) =>
        r := Failure(TypeError(v, DefinitionClass));
      case Definition(b) =>
        r := b.CalculateBreakdown(f);
    }
  }
}
