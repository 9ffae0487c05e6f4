/** Aware datetimes as the cursor codec uses them: the proleptic Gregorian calendar and conversion to UTC. */
module Calendar {
  datatype Date = Date(year: nat, month: nat, day: nat)

  /** Microseconds of a day. */
  const DAY := 86_400_000_000

  /** A local date, the microseconds since its midnight, and the UTC offset in microseconds. */
  datatype Moment = Moment(date: Date, micros: nat, offset: int)

  predicate IsLeap(y: nat) {
    y % 4 == 0 && (y % 100 != 0 || y % 400 == 0)
  }

  function DaysIn(y: nat, m: nat): nat
    requires 1 <= m <= 12
  {
    if m == 2 then (if IsLeap(y) then 29 else 28)
    else if m in {4, 6, 9, 11} then 30
    else 31
  }

  predicate ValidDate(d: Date) {
    1 <= d.year <= 9999 && 1 <= d.month <= 12 && 1 <= d.day <= DaysIn(d.year, d.month)
  }

  predicate ValidMoment(m: Moment) {
    ValidDate(m.date) && m.micros < DAY && -DAY < m.offset < DAY
  }

  function DaysBeforeYear(y: nat): int
    requires y >= 1
  {
    365 * (y - 1) + (y - 1) / 4 - (y - 1) / 100 + (y - 1) / 400
  }

  function DaysBeforeMonth(y: nat, m: nat): nat
    requires 1 <= m <= 12
  {
    [0, 31, 59, 90, 120, 151, 181, 212, 243, 273, 304, 334][m - 1] + (if m > 2 && IsLeap(y) then 1 else 0)
  }

  /** `date.toordinal()`: day 1 is 0001-01-01. */
  function Ordinal(d: Date): int
    requires ValidDate(d)
  {
    DaysBeforeYear(d.year) + DaysBeforeMonth(d.year, d.month) + d.day
  }

  /** The point in time, in microseconds. */
  function Instant(m: Moment): int
    requires ValidMoment(m)
  {
    Ordinal(m.date) * DAY + m.micros - m.offset
  }

  function NextDay(d: Date): Date
    requires ValidDate(d)
  {
    if d.day < DaysIn(d.year, d.month) then d.(day := d.day + 1)
    else if d.month < 12 then Date(d.year, d.month + 1, 1)
    else Date(d.year + 1, 1, 1)
  }

  function PreviousDay(d: Date): Date
    requires ValidDate(d)
  {
    if d.day > 1 then d.(day := d.day - 1)
    else if d.month > 1 then Date(d.year, d.month - 1, DaysIn(d.year, d.month - 1))
    else Date(if d.year > 0 then d.year - 1 else 0, 12, 31)
  }

  lemma Fourths(y: nat)
    requires y >= 1
    ensures y / 4 == (y - 1) / 4 + (if y % 4 == 0 then 1 else 0)
  {
  }

  lemma Hundredths(y: nat)
    requires y >= 1
    ensures y / 100 == (y - 1) / 100 + (if y % 100 == 0 then 1 else 0) && (y % 100 == 0 ==> y % 4 == 0)
  {
  }

  lemma FourHundredths(y: nat)
    requires y >= 1
    ensures y / 400 == (y - 1) / 400 + (if y % 400 == 0 then 1 else 0) && (y % 400 == 0 ==> y % 100 == 0)
  {
  }

  lemma YearLength(y: nat)
    requires y >= 1
    ensures DaysBeforeYear(y + 1) == DaysBeforeYear(y) + (if IsLeap(y) then 366 else 365)
  {
    Fourths(y);
    Hundredths(y);
    FourHundredths(y);
  }

  lemma NextDayOrdinal(d: Date)
    requires ValidDate(d) && d != Date(9999, 12, 31)
    ensures ValidDate(NextDay(d)) && Ordinal(NextDay(d)) == Ordinal(d) + 1
  {
    if d.day == DaysIn(d.year, d.month) && d.month == 12 {
      YearLength(d.year);
    }
  }

  lemma PreviousDayOrdinal(d: Date)
    requires ValidDate(d) && d != Date(1, 1, 1)
    ensures ValidDate(PreviousDay(d)) && Ordinal(PreviousDay(d)) == Ordinal(d) - 1
  {
    if d.day == 1 && d.month == 1 {
      YearLength(d.year - 1);
    }
  }

  datatype Utc = OutOfRange | Utc(date: Date, micros: nat)

  /** `astimezone(UTC)`; the calendar ends at the years 1 and 9999. */
  function ToUtc(m: Moment): Utc
    requires ValidMoment(m)
  {
    var t := m.micros - m.offset;
    if t < 0 then (if m.date == Date(1, 1, 1) then OutOfRange else Utc(PreviousDay(m.date), t + DAY))
    else if t >= DAY then (if m.date == Date(9999, 12, 31) then OutOfRange else Utc(NextDay(m.date), t - DAY))
    else Utc(m.date, t)
  }

  lemma UtcInstant(m: Moment)
    requires ValidMoment(m) && ToUtc(m).Utc?
    ensures var u := Moment(ToUtc(m).date, ToUtc(m).micros, 0); ValidMoment(u) && Instant(u) == Instant(m)
  {
    if m.micros < m.offset {
      PreviousDayOrdinal(m.date);
    } else if m.micros - m.offset >= DAY {
      NextDayOrdinal(m.date);
    }
  }

  lemma UtcRange(m: Moment)
    requires ValidMoment(m)
    ensures ToUtc(m).OutOfRange? <==>
      Instant(m) < Instant(Moment(Date(1, 1, 1), 0, 0)) || Instant(m) >= Instant(Moment(Date(9999, 12, 31), 0, 0)) + DAY
  {
    OrdinalBounds(m.date);
  }

  /** Conversion to UTC keeps the instant, and fails exactly outside the calendar. */
  lemma ToUtcKeepsInstant(m: Moment)
    requires ValidMoment(m)
    ensures ToUtc(m).Utc? ==>
      var u := Moment(ToUtc(m).date, ToUtc(m).micros, 0); ValidMoment(u) && Instant(u) == Instant(m)
    ensures ToUtc(m).OutOfRange? <==>
      Instant(m) < Instant(Moment(Date(1, 1, 1), 0, 0)) || Instant(m) >= Instant(Moment(Date(9999, 12, 31), 0, 0)) + DAY
  {
    UtcRange(m);
    if ToUtc(m).Utc? {
      UtcInstant(m);
    }
  }

  lemma {:induction false} YearsGrow(y: nat, z: nat)
    requires 1 <= y < z
    ensures DaysBeforeYear(y) + (if IsLeap(y) then 366 else 365) <= DaysBeforeYear(z)
  {
    YearLength(z - 1);
    if y < z - 1 {
      YearsGrow(y, z - 1);
    }
  }

  lemma DayOfYear(d: Date)
    requires ValidDate(d)
    ensures 1 <= DaysBeforeMonth(d.year, d.month) + d.day <= if IsLeap(d.year) then 366 else 365
    ensures DaysBeforeMonth(d.year, d.month) + d.day == 1 ==> d.month == 1 && d.day == 1
    ensures DaysBeforeMonth(d.year, d.month) + d.day == (if IsLeap(d.year) then 366 else 365) ==>
      d.month == 12 && d.day == 31
  {
  }

  lemma AfterFirst(d: Date)
    requires ValidDate(d) && d != Date(1, 1, 1)
    ensures Ordinal(d) > 1
  {
    DayOfYear(d);
    if d.year > 1 {
      YearsGrow(1, d.year);
      assert DaysBeforeYear(1) == 0;
    }
  }

  lemma BeforeLast(d: Date)
    requires ValidDate(d) && d != Date(9999, 12, 31)
    ensures Ordinal(d) < DaysBeforeYear(9999) + 365
  {
    DayOfYear(d);
    assert !IsLeap(9999);
    if d.year < 9999 {
      YearsGrow(d.year, 9999);
    }
  }

  /** The first and the last date have the least and the greatest ordinal. */
  lemma OrdinalBounds(d: Date)
    requires ValidDate(d)
    ensures d == Date(1, 1, 1) || Ordinal(Date(1, 1, 1)) < Ordinal(d)
    ensures d == Date(9999, 12, 31) || Ordinal(d) < Ordinal(Date(9999, 12, 31))
  {
    assert DaysBeforeYear(1) == 0;
    if d != Date(1, 1, 1) {
      AfterFirst(d);
    }
    if d != Date(9999, 12, 31) {
      BeforeLast(d);
      assert Ordinal(Date(9999, 12, 31)) == DaysBeforeYear(9999) + 365;
    }
  }
}
