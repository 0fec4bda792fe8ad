/**
 * The `budget` copy of the breakdown: a frame indexed by the days of the
 * period, one column per item, then the daily and cumulative totals.
 */
module BudgetBreakdowns {
  import opened Wrappers
  import opened Stamps
  import opened Values
  import opened Resolution
  import opened BudgetItems
  import opened Folds
  import opened Ledger
  import TimeUtil
  import BudgetDefinitions
  import DataModel

  /** An item's column under a time-utilities Period. */
  function ItemColumn(p: TimeUtil.Period, f: Foreign): BudgetItem -> Result<Column<string>, Error> {
    (item: BudgetItem) =>
      match p.GenerateDates(StrValue(item.frequency), f)
      case Failure(e) => Failure(e)
      case Success(ds) => Success(Column(item.description, item.amount, InstantsOf(ds)))
  }

  /** `calculate_breakdown(budget)` of a period and a list of items. */
  function BreakdownOf(p: TimeUtil.Period, items: seq<BudgetItem>, f: Foreign): Result<Table<string>, Error> {
    var cs :- MapAll(items, ItemColumn(p, f));
    Success(Tabulation(Instant(p.start), Instant(p.end), cs))
  }

  /** `calculate_breakdown(budget)`. */
  method CalculateBreakdown(b: BudgetDefinitions.BudgetDefinition, f: Foreign) returns (r: Result<Table<string>, Error>)
    ensures r == BreakdownOf(b.period, b.items, f)
  {
    r := Breakdown(Instant(b.period.start), Instant(b.period.end), b.items, ItemColumn(b.period, f));
  }

  /**
   * Over the same date-stamp bounds and the same items, this copy and the
   * single-module one compute the same frame, or fail with the same error.
   */
  lemma BreakdownAgrees(start: Timestamp, end: Timestamp, items: seq<BudgetItem>, f: Foreign)
    requires IsDatestamp(start) && IsDatestamp(end)
    ensures BreakdownOf(TimeUtil.Period(start, end), items, f) == DataModel.BreakdownOf(DataModel.DatePeriod(start, end), items, f)
  {
    var p := TimeUtil.Period(start, end);
    var q := DataModel.DatePeriod(start, end);
    forall j | 0 <= j < |items|
      ensures ItemColumn(p, f)(items[j]) == DataModel.ItemColumn(q, f)(items[j])
    {
      DataModel.GenerateDatesAgree(q, StrValue(items[j].frequency), f);
    }
    MapAllAgree(items, ItemColumn(p, f), DataModel.ItemColumn(q, f));
  }
}
