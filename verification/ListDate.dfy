/** Modification times of LIST lines, from the tokens the line patterns match. */
module ListDate {
  import opened Calendar
  import opened Wrappers

  const MINUTE: nat := 60_000_000
  const DAY: nat := 24 * 60 * MINUTE

  datatype Error = ValueError | OverflowError

  /** A wall-clock time: the microsecond within its day. */
  datatype Stamp = Stamp(date: Date, micros: nat)

  datatype TimeOrYear = Clock(hour: nat, minute: nat) | Year(year: nat)

  datatype Meridiem = AM | PM

  predicate ValidStamp(t: Stamp) {
    ValidDate(t.date) && t.micros < DAY
  }

  function Instant(t: Stamp): int
    requires ValidStamp(t)
  {
    Ordinal(t.date) * DAY + t.micros
  }

  function DateTime(d: Date, hour: nat, minute: nat): Result<Stamp, Error> {
    if ValidDate(d) && hour < 24 && minute < 60 then Ok(Stamp(d, (hour * 60 + minute) * MINUTE))
    else Err(ValueError)
  }

  /** The last instant that is not in the future: `now` and a day of clock skew. */
  function Horizon(now: Stamp): int
    requires ValidStamp(now)
  {
    Instant(now) + DAY
  }

  function UnixDatetime(month: int, day: nat, token: TimeOrYear, now: Stamp): Result<Stamp, Error>
    requires ValidStamp(now) && 1 <= month <= 12
  {
    match token
    case Year(y) => DateTime(Date(y, month, day), 0, 0)
    case Clock(h, m) =>
      match DateTime(Date(now.date.year, month, day), h, m) {
        case Err(e) => Err(e)
        case Ok(t) =>
          if now.date == Date(MAX_YEAR, 12, 31) then Err(OverflowError)
          else if Instant(t) <= Horizon(now) then Ok(t)
          else DateTime(t.date.(year := t.date.year - 1), h, m)
      }
  }

  /** The MS-DOS form: two- or four-digit year, twelve-hour clock. */
  function DosDatetime(month: nat, day: nat, year: nat, hour: nat, minute: nat, half: Meridiem): Result<Stamp, Error> {
    DateTime(Date(if year < 100 then year + 2000 else year, month, day),
             hour % 12 + (if half.PM? then 12 else 0), minute)
  }

  /** A minute-precision time as `ls -l` prints a recent file. */
  predicate OnTheMinute(t: Stamp) {
    ValidStamp(t) && t.micros % MINUTE == 0
  }

  function HourOf(t: Stamp): nat {
    t.micros / MINUTE / 60
  }

  function MinuteOf(t: Stamp): nat {
    t.micros / MINUTE % 60
  }

  function ReadBack(t: Stamp, now: Stamp): Result<Stamp, Error>
    requires ValidStamp(now) && OnTheMinute(t)
  {
    UnixDatetime(t.date.month, t.date.day, Clock(HourOf(t), MinuteOf(t)), now)
  }

  lemma ClockRoundTrip(t: Stamp, d: Date)
    requires OnTheMinute(t)
    ensures HourOf(t) < 24 && MinuteOf(t) < 60
    ensures DateTime(d, HourOf(t), MinuteOf(t)) == if ValidDate(d) then Ok(Stamp(d, t.micros)) else Err(ValueError)
  {
    var m := t.micros / MINUTE;
    assert t.micros == m * MINUTE;
    assert m == m / 60 * 60 + m % 60;
  }

  /** Is this date, moved into `now`'s year, past the horizon? */
  predicate AheadThisYear(t: Stamp, now: Stamp)
    requires ValidStamp(now) && OnTheMinute(t)
  {
    var d := t.date.(year := now.date.year);
    ValidDate(d) && Instant(Stamp(d, t.micros)) > Horizon(now)
  }

  /** Exactly which times survive being printed without a year and parsed again. */
  lemma RoundTripIff(t: Stamp, now: Stamp)
    requires ValidStamp(now) && OnTheMinute(t)
    ensures ReadBack(t, now) == Ok(t) <==>
      && now.date != Date(MAX_YEAR, 12, 31)
      && if t.date.year == now.date.year then Instant(t) <= Horizon(now)
         else t.date.year == now.date.year - 1 && AheadThisYear(t, now)
  {
    var d := t.date.(year := now.date.year);
    ClockRoundTrip(t, d);
    ClockRoundTrip(t, d.(year := d.year - 1));
    assert t.date.year == d.year ==> d == t.date;
    assert t.date.year == d.year - 1 ==> d.(year := d.year - 1) == t.date;
  }

  /** The promise: a time of the last 364 days, or at most a day ahead, comes back, unless its
      year is out of reach or it is 29 February of the year before. */
  lemma RecentTimesRoundTrip(t: Stamp, now: Stamp)
    requires ValidStamp(now) && OnTheMinute(t) && now.date != Date(MAX_YEAR, 12, 31)
    requires Instant(now) - 364 * DAY < Instant(t) <= Horizon(now)
    requires t.date.year == now.date.year
          || (t.date.year == now.date.year - 1 && !(t.date.month == 2 && t.date.day == 29))
    ensures ReadBack(t, now) == Ok(t)
  {
    RoundTripIff(t, now);
    if t.date.year < now.date.year {
      LastYearIsAhead(t, now);
    }
  }

  lemma LastYearIsAhead(t: Stamp, now: Stamp)
    requires ValidStamp(now) && OnTheMinute(t) && Instant(now) - 364 * DAY < Instant(t)
    requires t.date.year == now.date.year - 1 && !(t.date.month == 2 && t.date.day == 29)
    ensures AheadThisYear(t, now)
  {
    var d := t.date.(year := t.date.year + 1);
    assert ValidDate(d) && d == t.date.(year := now.date.year);
    SameDayNextYear(t.date);
    YearAhead(Ordinal(t.date), Ordinal(d), t.micros, Instant(now));
  }

  lemma YearAhead(last: int, next: int, micros: int, now: int)
    requires next >= last + 365 && now - 364 * DAY < last * DAY + micros
    ensures next * DAY + micros > now + DAY
  {
  }

  /** 29 February of the year before cannot be parsed at all, however recent. */
  lemma LeapDayIsRefused(t: Stamp, now: Stamp)
    requires ValidStamp(now) && OnTheMinute(t)
    requires t.date.month == 2 && t.date.day == 29 && t.date.year == now.date.year - 1
    ensures ReadBack(t, now) == Err(ValueError)
  {
    ClockRoundTrip(t, t.date.(year := now.date.year));
  }

  /** A concrete case: noon of 29 February 2024, listed on 1 February 2025. */
  lemma LeapDayWitness() returns (t: Stamp, now: Stamp)
    ensures ValidStamp(now) && OnTheMinute(t)
    ensures Instant(now) - 364 * DAY < Instant(t) <= Instant(now)
    ensures ReadBack(t, now) == Err(ValueError)
  {
    t, now := Stamp(Date(2024, 2, 29), 720 * MINUTE), Stamp(Date(2025, 2, 1), 0);
    assert DaysBeforeYear(2025) - DaysBeforeYear(2024) == 366;
    assert DaysBeforeMonth(2024, 2) == 31 == DaysBeforeMonth(2025, 2);
    LeapDayIsRefused(t, now);
  }

  /** Nothing without a year is dated more than a day ahead, and only in two years. */
  lemma NeverBeyondHorizon(month: int, day: nat, hour: nat, minute: nat, now: Stamp)
    requires ValidStamp(now) && 1 <= month <= 12
    ensures var r := UnixDatetime(month, day, Clock(hour, minute), now);
      r.Ok? ==> && ValidStamp(r.value)
                && Instant(r.value) <= Horizon(now)
                && r.value.date == Date(r.value.date.year, month, day)
                && now.date.year - 1 <= r.value.date.year <= now.date.year
  {
    var r := UnixDatetime(month, day, Clock(hour, minute), now);
    if r.Ok? && r.value.date.year == now.date.year - 1 {
      assert Earlier(r.value.date, now.date);
      OrdinalOrders(r.value.date, now.date);
    }
  }

  /** The dated form keeps the day and loses the time. */
  lemma YearFormKeepsDay(t: Stamp, now: Stamp)
    requires ValidStamp(t) && ValidStamp(now)
    ensures var r := UnixDatetime(t.date.month, t.date.day, Year(t.date.year), now);
      r == Ok(Stamp(t.date, 0)) && (r == Ok(t) <==> t.micros == 0)
  {
  }

  /** Twelve-hour clock and century rule: what a server prints comes back. */
  lemma DosRoundTrip(t: Stamp, twoDigits: bool)
    requires OnTheMinute(t)
    ensures var (h, y) := (HourOf(t), if twoDigits then t.date.year % 100 else t.date.year);
      DosDatetime(t.date.month, t.date.day, y, if h % 12 == 0 then 12 else h % 12, MinuteOf(t),
                  if h < 12 then AM else PM) == Ok(t)
      <==> if twoDigits then 2000 <= t.date.year < 2100 else t.date.year >= 100
  {
    var y := if twoDigits then t.date.year % 100 else t.date.year;
    var year := if y < 100 then y + 2000 else y;
    ClockRoundTrip(t, t.date.(year := year));
    assert t.date.(year := year) == t.date <==> year == t.date.year;
  }
}
