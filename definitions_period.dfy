/**
 * The period of the definitions package. Its date-stamp parser checks the
 * type of the value before parsing it, and a Period holds whatever bounds
 * it was built from.
 */
module DefinitionsPeriod {
  import opened Wrappers
  import opened Calendar
  import opened Stamps
  import opened Values
  import opened Resolution
  import TimeUtil

  /**
   * `PARSABLE_STAMP_TYPES`: int, str, date, datetime and Timestamp. NaT is
   * an instance of datetime, so it passes the check.
   */
  predicate Parsable(v: Value) {
    v.IntValue? || v.StrValue? || v.DateValue? || v.DateTimeValue? || v.TimestampValue? || v.NaTValue?
  }

  /** The closing step of `parse_datestamp`: a Timestamp that is not a date-stamp is normalised; NaT fails the check. */
  function ToDatestamp(p: Parsed): Result<Timestamp, Error> {
    match p
    case NotATime => Failure(TypeError(NaTValue, TimestampClass))
    case Stamp(t) => if IsDatestamp(t) then Success(t) else Success(Normalize(t))
  }

  /**
   * `parse_datestamp(value)`: a value of any other type is a TypeError; a
   * parsable one is handled exactly as `parse_date_stamp` of the time
   * utilities handles it.
   */
  function ParseDatestamp(v: Value, f: Foreign): (r: Result<Timestamp, Error>)
    ensures !Parsable(v) ==> r == Failure(TypeError(v, StampClasses))
    ensures Parsable(v) ==> r == TimeUtil.ParseDateStamp(v, f)
  {
    if !Parsable(v) then Failure(TypeError(v, StampClasses))
    else if v.TimestampValue? then ToDatestamp(Stamp(v.stamp))
    else
      match f.timestamp(v)
      case None => Failure(ValueError(v))
      case Some(p) => ToDatestamp(p)
  }

  /** The two copies part on None: here it is a TypeError, in the time utilities a ValueError. */
  lemma NoneIsTypeError(f: Foreign)
    ensures ParseDatestamp(NoneValue, f) == Failure(TypeError(NoneValue, StampClasses))
    ensures TimeUtil.ParseDateStamp(NoneValue, f) == Failure(ValueError(NoneValue))
  {
  }

  datatype PeriodDict = PeriodDict(startDate: string, endDate: string)

  datatype Period = Period(startDate: Value, endDate: Value) {
    /**
     * `Period.as_dict()`: both bounds formatted; a bound that is not a
     * Timestamp raises the formatter's TypeError, the start's first. A
     * date-stamp bound becomes its ISO date, which reads back as its day.
     */
    function AsDict(): (r: Result<PeriodDict, Error>)
      ensures r.Success? <==> startDate.TimestampValue? && endDate.TimestampValue?
      ensures r.Failure? ==> r.error == TypeError(if startDate.TimestampValue? then endDate else startDate, TimestampClass)
      ensures r.Success? ==>
        && Success(r.value.startDate) == TimeUtil.StampToStr(startDate)
        && Success(r.value.endDate) == TimeUtil.StampToStr(endDate)
    {
      if !startDate.TimestampValue? then Failure(TypeError(startDate, TimestampClass))
      else if !endDate.TimestampValue? then Failure(TypeError(endDate, TimestampClass))
      else Success(PeriodDict(TimeUtil.StampToStr(startDate).value, TimeUtil.StampToStr(endDate).value))
    }

    /** A date-stamp bound becomes its ISO date, which reads back as its day; another Timestamp keeps its date in front. */
    lemma AsDictReadsBack()
      requires AsDict().Success?
      ensures ReadIsoDate(AsDict().value.startDate) == (if IsDatestamp(startDate.stamp) then Some(startDate.stamp.day) else None)
      ensures ReadIsoDate(AsDict().value.endDate) == (if IsDatestamp(endDate.stamp) then Some(endDate.stamp.day) else None)
      ensures AsDict().value.startDate[..10] == IsoDate(startDate.stamp.day)
      ensures AsDict().value.endDate[..10] == IsoDate(endDate.stamp.day)
    {
    }

    /**
     * `Period.generate_dates(frequency)`: a frequency that parses as a
     * date-stamp gives that one date; a TypeError of that attempt (a
     * frequency of an unparsable type, or NaT) is raised; after a ValueError
     * the rule is walked between the bounds as they are stored, and every
     * failure of that stage is `ValueError(frequency)`.
     */
    function GenerateDates(frequency: Value, f: Foreign): (r: Result<seq<Timestamp>, Error>)
      ensures ParseDatestamp(frequency, f).Success? ==> r == Success([ParseDatestamp(frequency, f).value])
      ensures ParseDatestamp(frequency, f).Failure? && !ParseDatestamp(frequency, f).error.ValueError? ==>
        r == Failure(ParseDatestamp(frequency, f).error)
      ensures r.Failure? ==> r.error == ValueError(frequency) || r.error == ParseDatestamp(frequency, f).error
      ensures !frequency.StrValue? && ParseDatestamp(frequency, f).Failure? ==> r.Failure?
    {
      var literal := ParseDatestamp(frequency, f);
      if literal.Success? then Success([literal.value])
      else if !literal.error.ValueError? then Failure(literal.error)
      else
        match RuleDates(frequency, startDate, endDate, f)
        case None => Failure(ValueError(frequency))
        case Some(ds) => Success(ds)
    }
  }

  /**
   * `new_period(start, end)`: both bounds parsed, the start first; the
   * period holds two date-stamps.
   */
  function NewPeriod(start: Value, end: Value, f: Foreign): (r: Result<Period, Error>)
    ensures r.Success? <==> ParseDatestamp(start, f).Success? && ParseDatestamp(end, f).Success?
    ensures r.Success? ==> r.value == Period(TimestampValue(ParseDatestamp(start, f).value), TimestampValue(ParseDatestamp(end, f).value))
    ensures r.Success? ==> IsDatestamp(r.value.startDate.stamp) && IsDatestamp(r.value.endDate.stamp)
    ensures r.Failure? ==> r.error == (if ParseDatestamp(start, f).Failure? then ParseDatestamp(start, f).error else ParseDatestamp(end, f).error)
  {
    var s :- ParseDatestamp(start, f);
    var e :- ParseDatestamp(end, f);
    Success(Period(TimestampValue(s), TimestampValue(e)))
  }

  /** A period made by `new_period` turns into a dict of two ISO dates that read back as its days. */
  lemma NewPeriodAsDict(start: Value, end: Value, f: Foreign)
    requires NewPeriod(start, end, f).Success?
    ensures var p := NewPeriod(start, end, f).value;
      p.AsDict().Success?
      && ReadIsoDate(p.AsDict().value.startDate) == Some(p.startDate.stamp.day)
      && ReadIsoDate(p.AsDict().value.endDate) == Some(p.endDate.stamp.day)
  {
    NewPeriod(start, end, f).value.AsDictReadsBack();
  }

  /**
   * On a period of two date-stamps, this copy of the resolver and the one of
   * the time utilities agree on every str frequency.
   */
  lemma GenerateDatesAgree(start: Timestamp, end: Timestamp, frequency: string, f: Foreign)
    requires IsDatestamp(start) && IsDatestamp(end)
    ensures Period(TimestampValue(start), TimestampValue(end)).GenerateDates(StrValue(frequency), f)
      == TimeUtil.Period(start, end).GenerateDates(StrValue(frequency), f)
  {
    assert TimeUtil.ParseDateStamp(TimestampValue(start), f) == Success(start);
    assert TimeUtil.ParseDateStamp(TimestampValue(end), f) == Success(end);
  }
}
