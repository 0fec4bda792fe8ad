/**
 * The time utilities of the budget package: recognising and producing
 * date-stamps, resolving a frequency into date-stamps, and the text of a
 * stamp.
 */
module TimeUtil {
  import opened Wrappers
  import opened Calendar
  import opened Stamps
  import opened Values
  import opened Resolution

  /**
   * `is_normalized(stamp)`: a Timestamp is normalised when it lies within
   * the first microsecond of its day; any other value is a TypeError.
   */
  function IsNormalized(v: Value): (r: Result<bool, Error>)
    ensures r.Success? <==> v.TimestampValue?
    ensures r.Failure? ==> r.error == TypeError(v, TimestampClass)
    ensures r.Success? ==> (r.value <==> TimeOfDay(v.stamp) < 1000)
  {
    if v.TimestampValue? then
      TimeOfDayRange(v.stamp);
      Success(IsDatestamp(v.stamp))
    else Failure(TypeError(v, TimestampClass))
  }

  /**
   * `parse_time_stamp(value)`: None is refused, a Timestamp is returned as
   * it is, anything else goes to pandas; every failure is `ValueError(value)`.
   */
  function ParseTimeStamp(v: Value, f: Foreign): (r: Result<Parsed, Error>)
    ensures r.Failure? ==> r.error == ValueError(v)
    ensures v.NoneValue? ==> r.Failure?
    ensures v.TimestampValue? ==> r == Success(Stamp(v.stamp))
    ensures !v.NoneValue? && !v.TimestampValue? ==> (r.Success? <==> f.timestamp(v).Some?)
    ensures !v.NoneValue? && !v.TimestampValue? && r.Success? ==> r.value == f.timestamp(v).value
  {
    match v
    case NoneValue => Failure(ValueError(v))
    case TimestampValue(t) => Success(Stamp(t))
    case _ =>
      match f.timestamp(v)
      case None => Failure(ValueError(v))
      case Some(p) => Success(p)
  }

  /**
   * `parse_date_stamp(value)`: the parsed stamp if it is already a
   * date-stamp, else its midnight. When pandas yields NaT the normalisation
   * test raises `TypeError(NaT, Timestamp, NaTType)`.
   */
  function ParseDateStamp(v: Value, f: Foreign): (r: Result<Timestamp, Error>)
    ensures r.Success? <==> ParseTimeStamp(v, f).Success? && ParseTimeStamp(v, f).value.Stamp?
    ensures r.Success? ==> IsDatestamp(r.value)
    ensures r.Success? ==> var t := ParseTimeStamp(v, f).value.stamp;
      && r.value.day == t.day
      && Instant(r.value) <= Instant(t) < Instant(r.value) + NanosPerDay
      && (IsDatestamp(t) ==> r.value == t)
      && (!IsDatestamp(t) ==> r.value == Midnight(t.day))
    ensures r.Failure? ==> r.error == ValueError(v) || (r.error == TypeError(NaTValue, TimestampClass) && f.timestamp(v) == Some(NotATime))
  {
    match ParseTimeStamp(v, f)
    case Failure(e) => Failure(e)
    case Success(NotATime) => Failure(TypeError(NaTValue, TimestampClass))
    case Success(Stamp(t)) =>
      NormalizeFloor(t);
      TimeOfDayRange(t);
      if IsDatestamp(t) then Success(t) else Success(Normalize(t))
  }

  /** A date-stamp it produced is returned unchanged, so parsing it again gives the same result. */
  lemma ParseDateStampIdempotent(v: Value, f: Foreign)
    requires ParseDateStamp(v, f).Success?
    ensures ParseDateStamp(TimestampValue(ParseDateStamp(v, f).value), f) == ParseDateStamp(v, f)
  {
  }

  /**
   * `generate_date_stamps(frequency, start_date, end_date)`: a frequency
   * that parses as a date-stamp gives that one date, whatever the bounds;
   * only a ValueError of that attempt lets the rule be tried, between the
   * parsed bounds; every failure of the rule stage, unparsable bounds
   * included, is `ValueError(frequency)`.
   */
  function GenerateDateStamps(frequency: Value, start: Value, end: Value, f: Foreign): (r: Result<seq<Timestamp>, Error>)
    ensures ParseDateStamp(frequency, f).Success? ==> r == Success([ParseDateStamp(frequency, f).value])
    ensures ParseDateStamp(frequency, f).Failure? && !ParseDateStamp(frequency, f).error.ValueError? ==>
      r == Failure(ParseDateStamp(frequency, f).error)
    ensures r.Failure? ==> r.error == ValueError(frequency) || r.error == ParseDateStamp(frequency, f).error
    ensures r.Success? && ParseDateStamp(frequency, f).Failure? ==>
      && ParseDateStamp(start, f).Success? && ParseDateStamp(end, f).Success?
      && forall i :: 0 <= i < |r.value| ==> IsMidnight(r.value[i]) && r.value[i].day <= ParseDateStamp(end, f).value.day
  {
    var literal := ParseDateStamp(frequency, f);
    if literal.Success? then Success([literal.value])
    else if !literal.error.ValueError? then Failure(literal.error)
    else
      var lo := ParseDateStamp(start, f);
      var hi := ParseDateStamp(end, f);
      if lo.Failure? || hi.Failure? then Failure(ValueError(frequency))
      else
        match RuleDates(frequency, TimestampValue(lo.value), TimestampValue(hi.value), f)
        case None => Failure(ValueError(frequency))
        case Some(ds) =>
          RuleDatesBeforeEnd(frequency, lo.value, hi.value, f);
          Success(ds)
  }

  /** Whatever the order of the occurrences, the walk stops at the end bound. */
  lemma RuleDatesBeforeEnd(frequency: Value, lo: Timestamp, hi: Timestamp, f: Foreign)
    ensures var r := RuleDates(frequency, TimestampValue(lo), TimestampValue(hi), f);
      r.Some? ==> forall i :: 0 <= i < |r.value| ==> IsMidnight(r.value[i]) && r.value[i].day <= hi.day
  {
    if frequency.StrValue? && f.occurrences(frequency.s).Some? {
      var occ := f.occurrences(frequency.s).value;
      BetweenBeforeEnd(occ, TimestampValue(lo), hi, false);
      var b := Between(occ, TimestampValue(lo), TimestampValue(hi), false);
      if b.Some? {
        var ds := NormalizeAll(b.value);
        forall i | 0 <= i < |ds|
          ensures IsMidnight(ds[i]) && ds[i].day <= hi.day
        {
          assert b.value[i] in b.value;
          InstantOrdersDays(b.value[i], hi);
        }
      }
    }
  }

  lemma {:induction false} BetweenBeforeEnd(occ: seq<DateTime>, lo: Value, hi: Timestamp, started: bool)
    ensures var r := Between(occ, lo, TimestampValue(hi), started);
      r.Some? ==> forall o :: o in r.value ==> Instant(o) <= Instant(hi)
    decreases |occ|
  {
    if occ != [] {
      BetweenBeforeEnd(occ[1..], lo, hi, true);
      BetweenBeforeEnd(occ[1..], lo, hi, false);
    }
  }

  /**
   * With a literal frequency refused by a ValueError and bounds that parse,
   * a rule that yields its occurrences in order gives the midnights of
   * exactly the occurrences inside the parsed period, in order.
   */
  lemma GenerateDateStampsOfRule(frequency: string, start: Value, end: Value, f: Foreign, occ: seq<DateTime>)
    requires ParseDateStamp(StrValue(frequency), f).Failure? && ParseDateStamp(StrValue(frequency), f).error.ValueError?
    requires ParseDateStamp(start, f).Success? && ParseDateStamp(end, f).Success?
    requires f.occurrences(frequency) == Some(occ) && Ascending(occ)
    ensures GenerateDateStamps(StrValue(frequency), start, end, f)
      == Success(NormalizeAll(InRange(occ, ParseDateStamp(start, f).value, ParseDateStamp(end, f).value)))
  {
    RuleDatesInPeriod(frequency, ParseDateStamp(start, f).value, ParseDateStamp(end, f).value, f, occ);
  }

  /**
   * `stamp_to_str(stamp)`: the ISO date of a normalised Timestamp, its full
   * text otherwise; the ISO date reads back as the stamp's day exactly when
   * the stamp is normalised.
   */
  function StampToStr(v: Value): (r: Result<string, Error>)
    ensures r.Success? <==> v.TimestampValue?
    ensures r.Failure? ==> r.error == TypeError(v, TimestampClass)
    ensures r.Success? ==> ReadIsoDate(r.value) == (if IsDatestamp(v.stamp) then Some(v.stamp.day) else None)
    ensures r.Success? ==> |r.value| >= 10 && r.value[..10] == IsoDate(v.stamp.day)
  {
    match v
    case TimestampValue(t) => Success(FormatTimestamp(t))
    case _ => Failure(TypeError(v, TimestampClass))
  }

  /** The period of a budget: two Timestamps. */
  datatype Period = Period(start: Timestamp, end: Timestamp) {
    /**
     * `Period.generate_dates(frequency)`: the resolver over this period's
     * bounds. The bounds always parse, so the only failures are the
     * literal attempt's own non-ValueError and `ValueError(frequency)`.
     */
    function GenerateDates(frequency: Value, f: Foreign): (r: Result<seq<Timestamp>, Error>)
      ensures r == GenerateDateStamps(frequency, TimestampValue(start), TimestampValue(end), f)
      ensures r.Failure? ==> r.error == ValueError(frequency) || ParseDateStamp(frequency, f) == Failure(r.error)
      ensures r.Success? && ParseDateStamp(frequency, f).Failure? ==>
        forall i :: 0 <= i < |r.value| ==> IsMidnight(r.value[i]) && r.value[i].day <= end.day
    {
      GenerateDateStamps(frequency, TimestampValue(start), TimestampValue(end), f)
    }
  }

  /**
   * `date_period(start, end)`: both bounds parsed as date-stamps, the start
   * first. time_util does not define it; this is what its callers expect.
   */
  function DatePeriod(start: Value, end: Value, f: Foreign): (r: Result<Period, Error>)
    ensures r.Success? <==> ParseDateStamp(start, f).Success? && ParseDateStamp(end, f).Success?
    ensures r.Success? ==> r.value == Period(ParseDateStamp(start, f).value, ParseDateStamp(end, f).value)
    ensures r.Success? ==> IsDatestamp(r.value.start) && IsDatestamp(r.value.end)
    ensures r.Failure? ==> r.error == (if ParseDateStamp(start, f).Failure? then ParseDateStamp(start, f).error else ParseDateStamp(end, f).error)
  {
    var s :- ParseDateStamp(start, f);
    var e :- ParseDateStamp(end, f);
    Success(Period(s, e))
  }
}
