/**
 * The Budget class of the definitions package: a Period and a list of
 * events, both holding the values they were given as they are; its dict
 * form and its reading back.
 */
module DefinitionsBudget {
  import opened Wrappers
  import opened Calendar
  import opened Stamps
  import opened Values
  import opened Resolution
  import opened Events
  import opened DefinitionsPeriod
  import opened Folds
  import TimeUtil

  /** What `as_dict()` returns: the period's dict and one dict per event, in order. */
  datatype BudgetDict = BudgetDict(period: PeriodDict, events: seq<EventDict>)

  /** One "events" entry as `from_dict` reads it. */
  datatype EventData = EventData(description: Value, amount: Value, frequency: Value)

  /** A dict as `from_dict` reads it: the two period values and the event entries. */
  datatype BudgetData = BudgetData(startDate: Value, endDate: Value, events: seq<EventData>)

  /** The events `from_dict` stores: one per entry, in order, holding the entry's values. */
  function EventsOf(entries: seq<EventData>): (es: seq<Event>)
    ensures |es| == |entries|
    ensures forall i :: 0 <= i < |entries| ==>
      es[i] == Event(entries[i].description, entries[i].amount, entries[i].frequency)
  {
    if entries == [] then []
    else
      var e := entries[|entries| - 1];
      EventsOf(entries[..|entries| - 1]) + [Event(e.description, e.amount, e.frequency)]
  }

  /** The comprehension's step: `event.as_dict()`. */
  function EventDictOf(fixed2: Value -> Result<string, Error>): Event -> Result<EventDict, Error> {
    (e: Event) => e.AsDict(fixed2)
  }

  /** `as_dict()` of a period and its events: the period first, then the events in order. */
  function BudgetAsDict(period: Period, events: seq<Event>, fixed2: Value -> Result<string, Error>): Result<BudgetDict, Error> {
    var p :- period.AsDict();
    var es :- MapAll(events, EventDictOf(fixed2));
    Success(BudgetDict(p, es))
  }

  /**
   * `as_dict()` succeeds exactly when both bounds are Timestamps and every
   * amount can be formatted; it then holds one entry per event, in order,
   * each with the event's own description and frequency and its formatted
   * amount. A bad bound is reported before any event.
   */
  lemma AsDictFacts(period: Period, events: seq<Event>, fixed2: Value -> Result<string, Error>)
    ensures BudgetAsDict(period, events, fixed2).Success? <==>
      period.AsDict().Success? && forall i :: 0 <= i < |events| ==> fixed2(events[i].amount).Success?
    ensures BudgetAsDict(period, events, fixed2).Success? ==>
      var d := BudgetAsDict(period, events, fixed2).value;
      && d.period == period.AsDict().value
      && |d.events| == |events|
      && forall i :: 0 <= i < |events| ==>
        d.events[i] == EventDict(events[i].description, fixed2(events[i].amount).value, events[i].frequency)
    ensures period.AsDict().Failure? ==> BudgetAsDict(period, events, fixed2) == Failure(period.AsDict().error)
  {
    MapAllFacts(events, EventDictOf(fixed2));
  }

  /** The dict handed back to `from_dict` as it is: every text a str. */
  function AsData(d: BudgetDict): (data: BudgetData)
    ensures data.startDate == StrValue(d.period.startDate) && data.endDate == StrValue(d.period.endDate)
    ensures |data.events| == |d.events|
    ensures forall i :: 0 <= i < |d.events| ==>
      data.events[i] == EventData(d.events[i].description, StrValue(d.events[i].amount), d.events[i].frequency)
  {
    BudgetData(StrValue(d.period.startDate), StrValue(d.period.endDate), EventEntries(d.events))
  }

  function EventEntries(ds: seq<EventDict>): (r: seq<EventData>)
    ensures |r| == |ds|
    ensures forall i :: 0 <= i < |ds| ==> r[i] == EventData(ds[i].description, StrValue(ds[i].amount), ds[i].frequency)
  {
    if ds == [] then []
    else
      var d := ds[|ds| - 1];
      EventEntries(ds[..|ds| - 1]) + [EventData(d.description, StrValue(d.amount), d.frequency)]
  }

  /** What `__eq__` is given: a Budget, or any other value. */
  datatype Arg = BudgetArg(budget: Budget) | OtherArg(other: Value)

  function Objects(arg: Arg): set<object> {
    if arg.BudgetArg? then {arg.budget} else {}
  }

  class Budget {
    var period: Period
    var events: seq<Event>

    /** `Budget(period_start, period_end)`: the named tuple of the two values as given, no events. */
    constructor (start: Value, end: Value)
      ensures period == Period(start, end) && events == []
    {
      period := Period(start, end);
      events := [];
    }

    /**
     * `__eq__(other)`: equal periods and equal event lists for a Budget,
     * False for anything else; every budget equals itself.
     */
    function Equals(other: Arg): (r: bool)
      reads this, Objects(other)
      ensures other.OtherArg? ==> !r
      ensures other.BudgetArg? ==> (r <==> other.budget.period == period && other.budget.events == events)
      ensures other == BudgetArg(this) ==> r
    {
      match other
      case OtherArg(_) => false
      case BudgetArg(b) => period == b.period && events == b.events
    }

    /** `add_event(...)`: the event holds the three values as given and goes last. */
    method AddEvent(description: Value, amount: Value, frequency: Value) returns (e: Event)
      modifies this
      ensures e == Event(description, amount, frequency)
      ensures events == old(events) + [e] && period == old(period)
    {
      e := Event(description, amount, frequency);
      events := events + [e];
    }

    /** `as_dict()`. */
    function AsDict(fixed2: Value -> Result<string, Error>): Result<BudgetDict, Error>
      reads this
    {
      BudgetAsDict(period, events, fixed2)
    }

    /** `from_dict(data)`: a Budget over the two period values, then `add_event` on each entry in order. */
    static method FromDict(data: BudgetData) returns (b: Budget)
      ensures fresh(b)
      ensures b.period == Period(data.startDate, data.endDate) && b.events == EventsOf(data.events)
    {
      b := new Budget(data.startDate, data.endDate);
      var j := 0;
      while j < |data.events|
        invariant 0 <= j <= |data.events|
        invariant fresh(b) && b.period == Period(data.startDate, data.endDate)
        invariant b.events == EventsOf(data.events[..j])
      {
        assert data.events[..j + 1][..j] == data.events[..j];
        var entry := data.events[j];
        var _ := b.AddEvent(entry.description, entry.amount, entry.frequency);
        j := j + 1;
      }
      assert data.events[..|data.events|] == data.events;
    }

    /**
     * A Budget over two parsed bounds: `new_period` of them and no events.
     * This is the constructor the class needs for `as_dict` to accept what
     * `from_dict` reads.
     */
    static method New(start: Value, end: Value, f: Foreign) returns (r: Result<Budget, Error>)
      ensures r.Success? <==> NewPeriod(start, end, f).Success?
      ensures r.Failure? ==> r.error == NewPeriod(start, end, f).error
      ensures r.Success? ==> (fresh(r.value) && r.value.period == NewPeriod(start, end, f).value && r.value.events == [])
    {
      match NewPeriod(start, end, f) {
        case Failure(e) =>
          r := Failure(e);
        case Success(p) =>
          var b := new Budget(start, end);
          b.period := p;
          r := Success(b);
      }
    }

    /** `from_dict(data)` with the period parsed by `new_period`. */
    static method FromDictParsed(data: BudgetData, f: Foreign) returns (r: Result<Budget, Error>)
      ensures r.Success? <==> NewPeriod(data.startDate, data.endDate, f).Success?
      ensures r.Failure? ==> r.error == NewPeriod(data.startDate, data.endDate, f).error
      ensures r.Success? ==> (fresh(r.value)
        && r.value.period == NewPeriod(data.startDate, data.endDate, f).value
        && r.value.events == EventsOf(data.events))
    {
      r := New(data.startDate, data.endDate, f);
      if r.Failure? {
        return;
      }
      var b := r.value;
      var j := 0;
      while j < |data.events|
        invariant 0 <= j <= |data.events|
        invariant fresh(b) && b.period == NewPeriod(data.startDate, data.endDate, f).value
        invariant b.events == EventsOf(data.events[..j])
      {
        assert data.events[..j + 1][..j] == data.events[..j];
        var entry := data.events[j];
        var _ := b.AddEvent(entry.description, entry.amount, entry.frequency);
        j := j + 1;
      }
      assert data.events[..|data.events|] == data.events;
    }
  }

  /**
   * `from_dict(as_dict(b))` keeps b's events in order with their
   * descriptions and frequencies, their amounts now the formatted texts, and
   * a period of the two ISO texts as str values.
   */
  lemma FromAsDict(period: Period, events: seq<Event>, fixed2: Value -> Result<string, Error>)
    requires period.AsDict().Success?
    requires forall i :: 0 <= i < |events| ==> fixed2(events[i].amount).Success?
    ensures BudgetAsDict(period, events, fixed2).Success?
    ensures var data := AsData(BudgetAsDict(period, events, fixed2).value);
      && data.startDate == StrValue(period.AsDict().value.startDate)
      && data.endDate == StrValue(period.AsDict().value.endDate)
      && |EventsOf(data.events)| == |events|
      && forall i :: 0 <= i < |events| ==>
        EventsOf(data.events)[i] == Event(events[i].description, StrValue(fixed2(events[i].amount).value), events[i].frequency)
  {
    AsDictFacts(period, events, fixed2);
  }

  /**
   * A period read back by `from_dict` holds two str values, so `as_dict` of
   * the budget it makes raises TypeError on the start, whatever the events.
   */
  lemma ReadBackCannotBeDumped(period: Period, events: seq<Event>, more: seq<Event>, fixed2: Value -> Result<string, Error>)
    requires BudgetAsDict(period, events, fixed2).Success?
    ensures var data := AsData(BudgetAsDict(period, events, fixed2).value);
      BudgetAsDict(Period(data.startDate, data.endDate), more, fixed2) == Failure(TypeError(data.startDate, TimestampClass))
  {
    var data := AsData(BudgetAsDict(period, events, fixed2).value);
    AsDictFacts(Period(data.startDate, data.endDate), more, fixed2);
  }

  /**
   * With the period parsed, the round trip keeps the period: a period of
   * two date-stamps comes back equal when the date parser reads an ISO date
   * as its midnight, and its dict is the same again.
   */
  lemma ParsedPeriodRoundTrip(start: Timestamp, end: Timestamp, f: Foreign)
    requires IsMidnight(start) && IsMidnight(end)
    requires f.timestamp(StrValue(IsoDate(start.day))) == Some(Stamp(start))
    requires f.timestamp(StrValue(IsoDate(end.day))) == Some(Stamp(end))
    ensures var p := Period(TimestampValue(start), TimestampValue(end));
      && p.AsDict() == Success(PeriodDict(IsoDate(start.day), IsoDate(end.day)))
      && NewPeriod(StrValue(p.AsDict().value.startDate), StrValue(p.AsDict().value.endDate), f) == Success(p)
  {
    MidnightText(start);
    MidnightText(end);
    ParseMidnightText(start, f);
    ParseMidnightText(end, f);
  }

  /** A midnight is written as its ISO date. */
  lemma MidnightText(t: Timestamp)
    requires IsMidnight(t)
    ensures TimeUtil.StampToStr(TimestampValue(t)) == Success(IsoDate(t.day))
  {
  }

  /** The ISO date of a midnight, read by a parser that reads it as that midnight, is the midnight. */
  lemma ParseMidnightText(t: Timestamp, f: Foreign)
    requires IsMidnight(t)
    requires f.timestamp(StrValue(IsoDate(t.day))) == Some(Stamp(t))
    ensures ParseDatestamp(StrValue(IsoDate(t.day)), f) == Success(t)
  {
  }
}
