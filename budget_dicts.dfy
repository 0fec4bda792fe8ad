/**
 * The dict form of a budget definition, shared by the `datamodel` and the
 * `budget` copies: "PERIOD" holds the ISO dates of the bounds, "ITEMS" maps
 * each description to its amount and frequency. Reading it back parses the
 * bounds, then validates the items in the dict's order.
 */
module BudgetDicts {
  import opened Wrappers
  import opened Calendar
  import opened Stamps
  import opened Values
  import opened Resolution
  import opened Decimals
  import opened BudgetItems
  import opened Dicts
  import opened Folds
  import TimeUtil

  /** The "ITEMS" entry of one item. */
  datatype ItemData = ItemData(amount: int, frequency: string)

  /** What `as_dict` returns: the two ISO dates and the items keyed by description, in dict order. */
  datatype BudgetDict = BudgetDict(start: string, end: string, items: seq<(string, ItemData)>)

  /** An "ITEMS" entry as `from_dict` reads it: whatever values the dict holds. */
  datatype ItemFields = ItemFields(amount: Value, frequency: Value)

  /** A dict as `from_dict` reads it. */
  datatype BudgetData = BudgetData(start: Value, end: Value, items: seq<(Value, ItemFields)>)

  /** What `from_dict` builds: the parsed bounds and the validated items, in order. */
  datatype Loaded = Loaded(start: Timestamp, end: Timestamp, items: seq<BudgetItem>)

  /** The (key, value) pairs the comprehension over the items produces, in item order. */
  function ItemPairs(items: seq<BudgetItem>): (ps: seq<(string, ItemData)>)
    ensures |ps| == |items|
    ensures forall i :: 0 <= i < |items| ==> ps[i] == (items[i].description, ItemData(items[i].amount, items[i].frequency))
  {
    if items == [] then []
    else ItemPairs(items[..|items| - 1]) + [(items[|items| - 1].description, ItemData(items[|items| - 1].amount, items[|items| - 1].frequency))]
  }

  /** `as_dict()` / `budget_as_dict(budget)` of a period and a list of items. */
  function DictOf(start: Timestamp, end: Timestamp, items: seq<BudgetItem>): BudgetDict {
    BudgetDict(IsoDate(start.day), IsoDate(end.day), FromPairs(ItemPairs(items)))
  }

  function Descriptions(items: seq<BudgetItem>): (ds: seq<string>)
    ensures |ds| == |items| && forall i :: 0 <= i < |items| ==> ds[i] == items[i].description
  {
    if items == [] then [] else Descriptions(items[..|items| - 1]) + [items[|items| - 1].description]
  }

  /**
   * The dict has one ITEMS entry per distinct description, in the order of
   * first occurrence, holding the amount and frequency of the last item with
   * that description; the period reads back as the bounds' days.
   */
  lemma DictOfFacts(start: Timestamp, end: Timestamp, items: seq<BudgetItem>, k: string)
    ensures var d := DictOf(start, end, items);
      && ReadIsoDate(d.start) == Some(start.day) && ReadIsoDate(d.end) == Some(end.day)
      && DistinctKeys(d.items)
      && Keys(d.items) == FirstOccurrences(Descriptions(items))
      && Lookup(d.items, k) == LastValue(ItemPairs(items), k)
  {
    IsoDateRoundTrip(start.day);
    IsoDateRoundTrip(end.day);
    FromPairsDistinct(ItemPairs(items));
    FromPairsKeys(ItemPairs(items));
    assert Keys(ItemPairs(items)) == Descriptions(items);
    FromPairsLookup(ItemPairs(items), k);
  }

  /** The dict handed back to `from_dict` as it is: texts as str, amounts as int. */
  function AsData(d: BudgetDict): (data: BudgetData)
    ensures data.start == StrValue(d.start) && data.end == StrValue(d.end) && |data.items| == |d.items|
    ensures forall i :: 0 <= i < |d.items| ==>
      data.items[i] == (StrValue(d.items[i].0), ItemFields(IntValue(d.items[i].1.amount), StrValue(d.items[i].1.frequency)))
  {
    BudgetData(StrValue(d.start), StrValue(d.end), EntriesData(d.items))
  }

  function EntriesData(es: seq<(string, ItemData)>): (r: seq<(Value, ItemFields)>)
    ensures |r| == |es|
    ensures forall i :: 0 <= i < |es| ==> r[i] == (StrValue(es[i].0), ItemFields(IntValue(es[i].1.amount), StrValue(es[i].1.frequency)))
  {
    if es == [] then []
    else
      var (k, v) := es[|es| - 1];
      EntriesData(es[..|es| - 1]) + [(StrValue(k), ItemFields(IntValue(v.amount), StrValue(v.frequency)))]
  }

  /** `add_item` on one "ITEMS" entry. */
  function ItemOfEntry(entry: (Value, ItemFields)): Result<BudgetItem, Error> {
    NewBudgetItem(entry.0, entry.1.amount, entry.1.frequency)
  }

  /** The item loop of `from_dict`: `add_item` on each entry in dict order; the first invalid entry raises. */
  function LoadItems(entries: seq<(Value, ItemFields)>): Result<seq<BudgetItem>, Error> {
    MapAll(entries, ItemOfEntry)
  }

  /** `from_dict(data)`: the period first, start then end, then the items. */
  function Load(data: BudgetData, f: Foreign): Result<Loaded, Error> {
    var start :- TimeUtil.ParseDateStamp(data.start, f);
    var end :- TimeUtil.ParseDateStamp(data.end, f);
    var items :- LoadItems(data.items);
    Success(Loaded(start, end, items))
  }

  /**
   * `from_dict` succeeds exactly when both bounds parse and every entry
   * validates; it then holds the parsed bounds and one item per entry, in
   * order. The start is parsed first, then the end, then the entries.
   */
  lemma LoadFacts(data: BudgetData, f: Foreign)
    ensures Load(data, f).Success? <==>
      && TimeUtil.ParseDateStamp(data.start, f).Success? && TimeUtil.ParseDateStamp(data.end, f).Success?
      && forall i :: 0 <= i < |data.items| ==> ItemOfEntry(data.items[i]).Success?
    ensures Load(data, f).Success? ==>
      var l := Load(data, f).value;
      && Success(l.start) == TimeUtil.ParseDateStamp(data.start, f)
      && Success(l.end) == TimeUtil.ParseDateStamp(data.end, f)
      && |l.items| == |data.items|
      && forall i :: 0 <= i < |data.items| ==> Success(l.items[i]) == ItemOfEntry(data.items[i])
    ensures TimeUtil.ParseDateStamp(data.start, f).Failure? ==> Load(data, f) == Failure(TimeUtil.ParseDateStamp(data.start, f).error)
    ensures TimeUtil.ParseDateStamp(data.start, f).Success? && TimeUtil.ParseDateStamp(data.end, f).Failure? ==>
      Load(data, f) == Failure(TimeUtil.ParseDateStamp(data.end, f).error)
  {
    MapAllFacts(data.items, ItemOfEntry);
  }

  /** Validated items come back unchanged from their own entries. */
  lemma LoadItemsOfItems(items: seq<BudgetItem>)
    requires forall i :: 0 <= i < |items| ==> WellFormed(items[i])
    ensures LoadItems(EntriesData(ItemPairs(items))) == Success(items)
  {
    var es := EntriesData(ItemPairs(items));
    forall j | 0 <= j < |es|
      ensures ItemOfEntry(es[j]) == Success(items[j])
    {
      NewBudgetItemOfItem(items[j]);
    }
    MapAllOf(es, ItemOfEntry, items);
  }

  /** An ISO date the parser reads as its midnight gives that midnight back. */
  lemma ParseIsoDate(t: Timestamp, f: Foreign)
    requires t == Midnight(t.day)
    requires f.timestamp(StrValue(IsoDate(t.day))) == Some(Stamp(Midnight(t.day)))
    ensures TimeUtil.ParseDateStamp(StrValue(IsoDate(t.day)), f) == Success(t)
  {
  }

  /**
   * `from_dict(as_dict(b)) == b` for a budget whose bounds are midnights,
   * whose items are validated and have distinct descriptions, when the date
   * parser reads an ISO date as its midnight.
   */
  lemma RoundTrip(start: Timestamp, end: Timestamp, items: seq<BudgetItem>, f: Foreign)
    requires start == Midnight(start.day) && end == Midnight(end.day)
    requires f.timestamp(StrValue(IsoDate(start.day))) == Some(Stamp(Midnight(start.day)))
    requires f.timestamp(StrValue(IsoDate(end.day))) == Some(Stamp(Midnight(end.day)))
    requires forall i :: 0 <= i < |items| ==> WellFormed(items[i])
    requires forall i, j :: 0 <= i < j < |items| ==> items[i].description != items[j].description
    ensures Load(AsData(DictOf(start, end, items)), f) == Success(Loaded(start, end, items))
  {
    assert DistinctKeys(ItemPairs(items));
    FromPairsOfDistinct(ItemPairs(items));
    LoadItemsOfItems(items);
    ParseIsoDate(start, f);
    ParseIsoDate(end, f);
  }

  /**
   * With a repeated description the round trip loses items: the dict keeps
   * one entry, so two items "a" come back as one, with the second's values.
   */
  lemma RepeatedDescriptionMerges(start: Timestamp, end: Timestamp, a: BudgetItem, b: BudgetItem)
    requires a.description == b.description
    ensures DictOf(start, end, [a, b]).items == [(a.description, ItemData(b.amount, b.frequency))]
  {
    var ps := ItemPairs([a, b]);
    assert ps[..1] == [ps[0]] && [ps[0]][..0] == [];
    assert FromPairs([ps[0]]) == [ps[0]];
  }
}
