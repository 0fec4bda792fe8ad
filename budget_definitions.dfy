/**
 * The `budget` copy of the definition: a named tuple of a time-utilities
 * Period and a list of items that `add_item` appends to in place, its dict
 * form and its reading back.
 */
module BudgetDefinitions {
  import opened Wrappers
  import opened Stamps
  import opened Values
  import opened Resolution
  import opened BudgetItems
  import opened BudgetDicts
  import opened Folds
  import TimeUtil

  /**
   * A BudgetDefinition: the tuple's period never changes, its list of items
   * is mutated in place by `add_item`.
   */
  class BudgetDefinition {
    const period: TimeUtil.Period
    var items: seq<BudgetItem>

    /** Every definition `new_budget` builds and `add_item` extends: date-stamp bounds, validated items. */
    predicate Valid()
      reads this
    {
      IsDatestamp(period.start) && IsDatestamp(period.end) && AllWellFormed(items)
    }

    constructor (period: TimeUtil.Period, items: seq<BudgetItem>)
      ensures this.period == period && this.items == items
    {
      this.period := period;
      this.items := items;
    }

    /**
     * `add_item(description, amount, frequency)`: the new item is validated
     * first, so a failure leaves the list as it was; otherwise it is appended
     * and returned. The definition stays valid either way.
     */
    method AddItem(description: Value, amount: Value, frequency: Value) returns (r: Result<BudgetItem, Error>)
      modifies this
      ensures r == NewBudgetItem(description, amount, frequency)
      ensures r.Success? ==> items == old(items) + [r.value]
      ensures r.Failure? ==> items == old(items)
      ensures old(Valid()) ==> Valid()
    {
      r := NewBudgetItem(description, amount, frequency);
      if r.Success? {
        AppendWellFormed(items, r.value);
        items := items + [r.value];
      }
    }

    /** `add_item` on one "ITEMS" entry of a dict being read back. */
    method AddEntry(entry: (Value, ItemFields)) returns (r: Result<BudgetItem, Error>)
      modifies this
      ensures r == ItemOfEntry(entry)
      ensures r.Success? ==> items == old(items) + [r.value]
      ensures r.Failure? ==> items == old(items)
      ensures old(Valid()) ==> Valid()
    {
      r := AddItem(entry.0, entry.1.amount, entry.1.frequency);
    }
  }

  /** `new_budget(period_start, period_end)`: `date_period` of the bounds and an empty list. */
  method NewBudget(start: Value, end: Value, f: Foreign) returns (r: Result<BudgetDefinition, Error>)
    ensures r.Success? <==> TimeUtil.DatePeriod(start, end, f).Success?
    ensures r.Failure? ==> r.error == TimeUtil.DatePeriod(start, end, f).error
    ensures r.Success? ==> (fresh(r.value) && r.value.period == TimeUtil.DatePeriod(start, end, f).value
      && r.value.items == [] && r.value.Valid())
  {
    match TimeUtil.DatePeriod(start, end, f) {
      case Failure(e) =>
        r := Failure(e);
      case Success(p) =>
        var b := new BudgetDefinition(p, []);
        r := Success(b);
    }
  }

  /** `budget_as_dict(budget)`. */
  function BudgetAsDict(b: BudgetDefinition): BudgetDict
    reads b
  {
    DictOf(b.period.start, b.period.end, b.items)
  }

  /** `budget_from_dict(data)`: `new_budget` over the dict's period, then `add_item` on each entry in order. */
  method BudgetFromDict(data: BudgetData, f: Foreign) returns (r: Result<BudgetDefinition, Error>)
    ensures r.Success? <==> Load(data, f).Success?
    ensures r.Failure? ==> r.error == Load(data, f).error
    ensures r.Success? ==> (fresh(r.value) && r.value.Valid()
      && r.value.period == TimeUtil.Period(Load(data, f).value.start, Load(data, f).value.end)
      && r.value.items == Load(data, f).value.items)
  {
    var made := NewBudget(data.start, data.end, f);
    LoadDatePeriod(data, f);
    if made.Failure? {
      return Failure(made.error);
    }
    var b := made.value;
    var j := 0;
    while j < |data.items|
      invariant 0 <= j <= |data.items|
      invariant fresh(b) && b.Valid()
      invariant MapAll(data.items[..j], ItemOfEntry) == Success(b.items)
    {
      MapAllStep(data.items, ItemOfEntry, j);
      var added := b.AddEntry(data.items[j]);
      if added.Failure? {
        FailureSticks(data.items, ItemOfEntry, j + 1);
        return Failure(added.error);
      }
      j := j + 1;
    }
    assert data.items[..|data.items|] == data.items;
    r := Success(b);
  }

  /** `budget_from_dict` reads the period as `date_period` does, then the items. */
  lemma LoadDatePeriod(data: BudgetData, f: Foreign)
    ensures TimeUtil.DatePeriod(data.start, data.end, f).Failure? ==>
      Load(data, f) == Failure(TimeUtil.DatePeriod(data.start, data.end, f).error)
    ensures TimeUtil.DatePeriod(data.start, data.end, f).Success? ==>
      Load(data, f) == match LoadItems(data.items)
        case Failure(e) => Failure(e)
        case Success(items) =>
          var p := TimeUtil.DatePeriod(data.start, data.end, f).value;
          Success(Loaded(p.start, p.end, items))
  {
  }

  /**
   * `budget_from_dict(budget_as_dict(b))` rebuilds b's period and items when
   * its descriptions are distinct and the date parser reads an ISO date as
   * its midnight.
   */
  lemma AsDictRoundTrip(b: BudgetDefinition, f: Foreign)
    requires b.Valid()
    requires IsMidnight(b.period.start) && IsMidnight(b.period.end)
    requires f.timestamp(StrValue(BudgetAsDict(b).start)) == Some(Stamp(Midnight(b.period.start.day)))
    requires f.timestamp(StrValue(BudgetAsDict(b).end)) == Some(Stamp(Midnight(b.period.end.day)))
    requires forall i, j :: 0 <= i < j < |b.items| ==> b.items[i].description != b.items[j].description
    ensures Load(AsData(BudgetAsDict(b)), f) == Success(Loaded(b.period.start, b.period.end, b.items))
  {
    RoundTrip(b.period.start, b.period.end, b.items, f);
  }
}
