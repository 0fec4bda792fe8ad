/**
 * Time-zone naive pandas Timestamps: a calendar day and a time of day down
 * to the nanosecond, their order, midnight truncation and their text forms.
 */
module Stamps {
  import opened Wrappers
  import opened Digits
  import opened Calendar

  type Hour = h: int | 0 <= h < 24
  type Sixty = m: int | 0 <= m < 60
  type Micros = u: int | 0 <= u < 1000000
  type Nanos = n: int | 0 <= n < 1000

  const NanosPerDay: int := 86400000000000

  datatype Timestamp = Timestamp(day: Day, hour: Hour, minute: Sixty, second: Sixty, micro: Micros, nano: Nanos)

  /** A `datetime.datetime` carries no nanoseconds. */
  type DateTime = t: Timestamp | t.nano == 0 witness Timestamp(0, 0, 0, 0, 0, 0)

  /**
   * A "date-stamp": hour, minute, second and microsecond are all zero.
   * The nanosecond field is not looked at.
   */
  predicate IsDatestamp(t: Timestamp) {
    t.hour == 0 && t.minute == 0 && t.second == 0 && t.micro == 0
  }

  /** The first instant of a day. */
  function Midnight(d: Day): Timestamp {
    Timestamp(d, 0, 0, 0, 0, 0)
  }

  /** `Timestamp.normalize()`: the time of day is truncated to midnight. */
  function Normalize(t: Timestamp): Timestamp {
    Midnight(t.day)
  }

  /** Nanoseconds since midnight. */
  function TimeOfDay(t: Timestamp): int {
    ((t.hour * 60 + t.minute) * 60 + t.second) * 1000000000 + t.micro * 1000 + t.nano
  }

  /** Nanoseconds since the epoch, the quantity pandas orders and compares Timestamps by. */
  function Instant(t: Timestamp): int {
    t.day * NanosPerDay + TimeOfDay(t)
  }

  lemma TimeOfDayRange(t: Timestamp)
    ensures 0 <= TimeOfDay(t) < NanosPerDay
    ensures IsDatestamp(t) <==> TimeOfDay(t) < 1000
  {
  }

  /** Normalising gives a midnight date-stamp on the same day, no later than the stamp and less than a day before it. */
  lemma NormalizeFloor(t: Timestamp)
    ensures IsDatestamp(Normalize(t)) && Normalize(t).day == t.day && Normalize(t).nano == 0
    ensures Instant(Normalize(t)) <= Instant(t) < Instant(Normalize(t)) + NanosPerDay
  {
    TimeOfDayRange(t);
  }

  /** Normalising is idempotent, and it is the identity exactly on midnights. */
  lemma NormalizeFixedPoints(t: Timestamp)
    ensures Normalize(Normalize(t)) == Normalize(t)
    ensures Normalize(t) == t <==> IsDatestamp(t) && t.nano == 0
  {
  }

  /** The order of instants refines the order of days. */
  lemma InstantOrdersDays(a: Timestamp, b: Timestamp)
    ensures a.day < b.day ==> Instant(a) < Instant(b)
    ensures Instant(a) <= Instant(b) ==> a.day <= b.day
  {
    TimeOfDayRange(a);
    TimeOfDayRange(b);
  }

  lemma MulFacts(a: int, b: int, k: int)
    ensures b * k == a * k + (b - a) * k
    ensures b - a - 1 >= 0 && k >= 0 ==> (b - a - 1) * k >= 0
  {
  }

  /** A number written in a mixed radix has one digit per position. */
  lemma RadixUnique(x: int, r: int, y: int, q: int, k: int)
    requires 0 < k && 0 <= r < k && 0 <= q < k
    requires x * k + r == y * k + q
    ensures x == y && r == q
  {
    MulFacts(x, y, k);
    MulFacts(y, x, k);
  }

  /** Distinct stamps are distinct instants. */
  lemma InstantInjective(a: Timestamp, b: Timestamp)
    requires Instant(a) == Instant(b)
    ensures a == b
  {
    TimeOfDayRange(a);
    TimeOfDayRange(b);
    RadixUnique(a.day, TimeOfDay(a), b.day, TimeOfDay(b), NanosPerDay);
    RadixUnique((a.hour * 60 + a.minute) * 60 + a.second, a.micro * 1000 + a.nano,
                (b.hour * 60 + b.minute) * 60 + b.second, b.micro * 1000 + b.nano, 1000000000);
    RadixUnique(a.micro, a.nano, b.micro, b.nano, 1000);
    RadixUnique(a.hour * 60 + a.minute, a.second, b.hour * 60 + b.minute, b.second, 60);
    RadixUnique(a.hour, a.minute, b.hour, b.minute, 60);
  }

  /** The fraction `str(Timestamp)` appends: nine digits with nanoseconds, six with microseconds only, else none. */
  function Fraction(t: Timestamp): string {
    if t.nano != 0 then "." + Padded(t.micro * 1000 + t.nano, 9)
    else if t.micro != 0 then "." + Padded(t.micro, 6)
    else ""
  }

  /** `str(t)` of a Timestamp (and of a `datetime`): "YYYY-MM-DD HH:MM:SS" and the fraction. */
  function StampText(t: Timestamp): (s: string)
    ensures |s| >= 19 && s[..10] == IsoDate(t.day) && s[10] == ' '
  {
    IsoDateRoundTrip(t.day);
    var clock := " " + Padded(t.hour, 2) + ":" + Padded(t.minute, 2) + ":" + Padded(t.second, 2) + Fraction(t);
    assert |clock| >= 9 && clock[0] == ' ';
    var s := IsoDate(t.day) + clock;
    assert s[..10] == IsoDate(t.day) && s[10] == clock[0];
    s
  }

  /**
   * `format_timestamp` / `stamp_to_str` on a Timestamp: the ISO date of a
   * date-stamp, the full `str(t)` otherwise.
   */
  function FormatTimestamp(t: Timestamp): (s: string)
    ensures ReadIsoDate(s) == if IsDatestamp(t) then Some(t.day) else None
    ensures |s| >= 10 && s[..10] == IsoDate(t.day)
  {
    IsoDateRoundTrip(t.day);
    if IsDatestamp(t) then IsoDate(t.day) else StampText(t)
  }
}
