/**
 * What the frequency resolvers share: the two foreign parsers they call,
 * the walk `rrule.between(start, end, inc=True)` makes over a rule's
 * occurrences, and the normalisation of what it keeps.
 */
module Resolution {
  import opened Wrappers
  import opened Calendar
  import opened Stamps
  import opened Values

  /** What `pandas.Timestamp(value)` returns: a stamp, or the "not a time" value NaT. */
  datatype Parsed = Stamp(stamp: Timestamp) | NotATime

  /**
   * The foreign libraries, as parameters of the model.
   * `timestamp(v)` is `pandas.Timestamp(v)`, None when it raises.
   * `occurrences(s)` is the rule that `recurrent.RecurringEvent().parse(s)`
   * and `dateutil.rrule.rrulestr` build from the sentence s, as the list of
   * its occurrences in the order the rule yields them; None when either
   * library raises.
   */
  datatype Foreign = Foreign(timestamp: Value -> Option<Parsed>, occurrences: string -> Option<seq<DateTime>>)

  /** The outcome of comparing an occurrence with a bound; NaT is unordered with everything. */
  datatype Order = Below | Same | Above | Unordered

  /**
   * How the naive `datetime` occurrence compares with a period bound: by the
   * instant for a Timestamp or a datetime, unordered for NaT, and None (a
   * TypeError) for a date, a str or any other value.
   */
  function CompareTo(occ: DateTime, bound: Value): (r: Option<Order>)
    ensures r.Some? <==> bound.TimestampValue? || bound.DateTimeValue? || bound.NaTValue?
  {
    match bound
    case TimestampValue(t) => Some(CompareInstants(occ, t))
    case DateTimeValue(t) => Some(CompareInstants(occ, t))
    case NaTValue => Some(Unordered)
    case _ => None
  }

  function CompareInstants(a: Timestamp, b: Timestamp): Order {
    if Instant(a) > Instant(b) then Above else if Instant(a) == Instant(b) then Same else Below
  }

  /**
   * `rule.between(lo, hi, inc=True)`: the occurrences are visited in order;
   * the first one later than hi ends the walk; from the first one not
   * earlier than lo on, every visited occurrence is kept. None when a
   * comparison raises.
   */
  function Between(occ: seq<DateTime>, lo: Value, hi: Value, started: bool): Option<seq<DateTime>>
    decreases |occ|
  {
    if occ == [] then Some([])
    else
      match CompareTo(occ[0], hi)
      case None => None
      case Some(o) =>
        if o == Above then Some([])
        else if started then Keep(occ[0], Between(occ[1..], lo, hi, true))
        else
          match CompareTo(occ[0], lo)
          case None => None
          case Some(p) =>
            if p == Above || p == Same then Keep(occ[0], Between(occ[1..], lo, hi, true))
            else Between(occ[1..], lo, hi, false)
  }

  function Keep(o: DateTime, rest: Option<seq<DateTime>>): Option<seq<DateTime>> {
    match rest
    case None => None
    case Some(kept) => Some([o] + kept)
  }

  /** The order in which a rule yields its occurrences: strictly increasing instants. */
  predicate Ascending(occ: seq<DateTime>) {
    forall i, j :: 0 <= i < j < |occ| ==> Instant(occ[i]) < Instant(occ[j])
  }

  /** The reference definition of clipping: the occurrences inside [lo, hi], in their order. */
  function InRange(occ: seq<DateTime>, lo: Timestamp, hi: Timestamp): (r: seq<DateTime>)
    ensures |r| <= |occ|
  {
    if occ == [] then []
    else (if Instant(lo) <= Instant(occ[0]) <= Instant(hi) then [occ[0]] else []) + InRange(occ[1..], lo, hi)
  }

  /** Clipping keeps an occurrence exactly when it lies inside [lo, hi]. */
  lemma {:induction false} InRangeMembers(occ: seq<DateTime>, lo: Timestamp, hi: Timestamp)
    ensures forall o :: o in InRange(occ, lo, hi) <==> o in occ && Instant(lo) <= Instant(o) <= Instant(hi)
    decreases |occ|
  {
    if occ != [] {
      InRangeMembers(occ[1..], lo, hi);
      assert occ == [occ[0]] + occ[1..];
    }
  }

  /** A lower bound of all occurrences bounds all clipped ones. */
  lemma {:induction false} InRangeAbove(occ: seq<DateTime>, lo: Timestamp, hi: Timestamp, x: Timestamp)
    requires forall i :: 0 <= i < |occ| ==> Instant(x) < Instant(occ[i])
    ensures forall k :: 0 <= k < |InRange(occ, lo, hi)| ==> Instant(x) < Instant(InRange(occ, lo, hi)[k])
    decreases |occ|
  {
    if occ != [] {
      var tail := occ[1..];
      assert forall i :: 0 <= i < |tail| ==> tail[i] == occ[i + 1];
      InRangeAbove(tail, lo, hi, x);
    }
  }

  /** Clipping keeps the order of the occurrences. */
  lemma {:induction false} InRangeAscending(occ: seq<DateTime>, lo: Timestamp, hi: Timestamp)
    requires Ascending(occ)
    ensures Ascending(InRange(occ, lo, hi))
    decreases |occ|
  {
    if occ != [] {
      var tail := occ[1..];
      AscendingTail(occ);
      InRangeAscending(tail, lo, hi);
      InRangeAbove(tail, lo, hi, occ[0]);
      var rest := InRange(tail, lo, hi);
      var r := InRange(occ, lo, hi);
      if Instant(lo) <= Instant(occ[0]) <= Instant(hi) {
        assert r == [occ[0]] + rest;
        forall i, j | 0 <= i < j < |r|
          ensures Instant(r[i]) < Instant(r[j])
        {
          assert r[j] == rest[j - 1];
          if i > 0 {
            assert r[i] == rest[i - 1];
          }
        }
      } else {
        assert r == rest;
      }
    }
  }

  lemma AscendingTail(occ: seq<DateTime>)
    requires Ascending(occ) && occ != []
    ensures Ascending(occ[1..])
    ensures forall i :: 0 <= i < |occ[1..]| ==> Instant(occ[0]) < Instant(occ[1..][i])
  {
    var tail := occ[1..];
    forall i, j | 0 <= i < j < |tail|
      ensures Instant(tail[i]) < Instant(tail[j])
    {
      assert tail[i] == occ[i + 1] && tail[j] == occ[j + 1];
    }
    forall i | 0 <= i < |tail|
      ensures Instant(occ[0]) < Instant(tail[i])
    {
      assert tail[i] == occ[i + 1];
    }
  }

  /** Nothing is inside the period once the first occurrence is past its end. */
  lemma InRangePastEnd(occ: seq<DateTime>, lo: Timestamp, hi: Timestamp)
    requires Ascending(occ) && occ != [] && Instant(occ[0]) > Instant(hi)
    ensures InRange(occ, lo, hi) == []
  {
    forall i | 0 <= i < |occ|
      ensures Instant(occ[i]) > Instant(hi)
    {
      if i > 0 {
        assert Instant(occ[0]) < Instant(occ[i]);
      }
    }
    InRangeNone(occ, lo, hi);
  }

  lemma {:induction false} InRangeNone(occ: seq<DateTime>, lo: Timestamp, hi: Timestamp)
    requires forall i :: 0 <= i < |occ| ==> Instant(occ[i]) > Instant(hi)
    ensures InRange(occ, lo, hi) == []
    decreases |occ|
  {
    if occ != [] {
      InRangeNone(occ[1..], lo, hi);
    }
  }

  /**
   * On a rule's occurrences the walk is exactly the clipping to [lo, hi]:
   * the early exit at the first later occurrence loses nothing, and once
   * started the walk keeps only occurrences that are not earlier than lo.
   */
  lemma {:induction false} BetweenIsInRange(occ: seq<DateTime>, lo: Timestamp, hi: Timestamp, started: bool)
    requires Ascending(occ)
    requires started ==> forall i :: 0 <= i < |occ| ==> Instant(lo) <= Instant(occ[i])
    ensures Between(occ, TimestampValue(lo), TimestampValue(hi), started) == Some(InRange(occ, lo, hi))
    decreases |occ|
  {
    if occ != [] {
      var o := occ[0];
      var tail := occ[1..];
      AscendingTail(occ);
      assert CompareTo(o, TimestampValue(hi)) == Some(CompareInstants(o, hi));
      assert CompareTo(o, TimestampValue(lo)) == Some(CompareInstants(o, lo));
      if Instant(o) > Instant(hi) {
        InRangePastEnd(occ, lo, hi);
      } else if started || Instant(lo) <= Instant(o) {
        BetweenIsInRange(tail, lo, hi, true);
        assert InRange(occ, lo, hi) == [o] + InRange(tail, lo, hi);
      } else {
        BetweenIsInRange(tail, lo, hi, false);
        assert InRange(occ, lo, hi) == InRange(tail, lo, hi);
      }
    }
  }

  /** `[Timestamp(o).normalize() for o in occ]`. */
  function NormalizeAll(occ: seq<DateTime>): (r: seq<Timestamp>)
    ensures |r| == |occ|
    ensures forall i :: 0 <= i < |r| ==> r[i] == Normalize(occ[i])
  {
    if occ == [] then [] else [Normalize(occ[0])] + NormalizeAll(occ[1..])
  }

  /**
   * The rule stage of every resolver: expand the sentence, walk the
   * occurrences between the bounds, normalise what is kept. None stands for
   * any exception, which the callers turn into `ValueError(frequency)`.
   * A frequency that is not a str is refused by the sentence parser.
   */
  function RuleDates(frequency: Value, lo: Value, hi: Value, f: Foreign): Option<seq<Timestamp>> {
    if !frequency.StrValue? then None
    else
      match f.occurrences(frequency.s)
      case None => None
      case Some(occ) =>
        match Between(occ, lo, hi, false)
        case None => None
        case Some(kept) => Some(NormalizeAll(kept))
  }

  /** A midnight date-stamp. */
  predicate IsMidnight(t: Timestamp) {
    t == Midnight(t.day)
  }

  /**
   * What the rule stage yields between two Timestamp bounds when the rule
   * yields its occurrences in order: the midnights of exactly the
   * occurrences inside the period, one per occurrence, in order, so every
   * date lies on a day of the period and the days never decrease.
   */
  lemma RuleDatesInPeriod(frequency: string, lo: Timestamp, hi: Timestamp, f: Foreign, occ: seq<DateTime>)
    requires f.occurrences(frequency) == Some(occ) && Ascending(occ)
    ensures RuleDates(StrValue(frequency), TimestampValue(lo), TimestampValue(hi), f) == Some(NormalizeAll(InRange(occ, lo, hi)))
    ensures var ds := NormalizeAll(InRange(occ, lo, hi));
      && (forall i :: 0 <= i < |ds| ==> IsMidnight(ds[i]) && lo.day <= ds[i].day <= hi.day)
      && (forall i, j :: 0 <= i < j < |ds| ==> ds[i].day <= ds[j].day)
      && (forall o :: o in occ && Instant(lo) <= Instant(o) <= Instant(hi) ==> Normalize(o) in ds)
  {
    BetweenIsInRange(occ, lo, hi, false);
    InRangeAscending(occ, lo, hi);
    InRangeMembers(occ, lo, hi);
    MidnightsOfClipped(InRange(occ, lo, hi), lo, hi);
  }

  lemma MidnightsOfClipped(kept: seq<DateTime>, lo: Timestamp, hi: Timestamp)
    requires Ascending(kept)
    requires forall o :: o in kept ==> Instant(lo) <= Instant(o) <= Instant(hi)
    ensures var ds := NormalizeAll(kept);
      && (forall i :: 0 <= i < |ds| ==> IsMidnight(ds[i]) && lo.day <= ds[i].day <= hi.day)
      && (forall i, j :: 0 <= i < j < |ds| ==> ds[i].day <= ds[j].day)
      && (forall o :: o in kept ==> Normalize(o) in ds)
  {
    var ds := NormalizeAll(kept);
    forall i | 0 <= i < |ds|
      ensures IsMidnight(ds[i]) && lo.day <= ds[i].day <= hi.day
    {
      assert kept[i] in kept;
      InstantOrdersDays(lo, kept[i]);
      InstantOrdersDays(kept[i], hi);
    }
    forall i, j | 0 <= i < j < |ds|
      ensures ds[i].day <= ds[j].day
    {
      InstantOrdersDays(kept[i], kept[j]);
    }
    forall o | o in kept
      ensures Normalize(o) in ds
    {
      var k :| 0 <= k < |kept| && kept[k] == o;
      assert ds[k] == Normalize(o);
    }
  }
}
