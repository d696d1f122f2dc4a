/** Timer ticks to calendar date (kernel/datetime.c). */
module Calendar {

  const TIMER_FREQ := 10_000_000
  const TZ_OFFSET := 7200
  const UINT64 := 0x1_0000_0000_0000_0000
  const INT := 0x8000_0000

  datatype Date = Date(year: int, month: int, day: int, hour: int, minute: int, second: int)

  // ---------------------------------------------------------------- the Gregorian calendar

  predicate IsLeap(year: int) {
    year % 4 == 0 && (year % 100 != 0 || year % 400 == 0)
  }

  function YearLength(year: int): nat {
    if IsLeap(year) then 366 else 365
  }

  function MonthLength(leap: bool, month: int): nat
    requires 1 <= month <= 12
  {
    if month == 2 then (if leap then 29 else 28) else if month in {4, 6, 9, 11} then 30 else 31
  }

  /** Leap years up to and including this one. */
  function LeapsThrough(year: int): int {
    year / 4 - year / 100 + year / 400
  }

  /** Days from 1 January 1970 to 1 January of the year. */
  function DaysToYear(year: int): int {
    365 * (year - 1970) + LeapsThrough(year - 1) - LeapsThrough(1969)
  }

  /** Days from the start of the year to the start of the month; month 13 is the next year. */
  function DaysToMonth(leap: bool, month: int): nat
    requires 1 <= month <= 13
  {
    if month == 1 then 0 else DaysToMonth(leap, month - 1) + MonthLength(leap, month - 1)
  }

  predicate ValidDate(d: Date) {
    && 1970 <= d.year && 1 <= d.month <= 12 && 1 <= d.day <= MonthLength(IsLeap(d.year), d.month)
    && 0 <= d.hour < 24 && 0 <= d.minute < 60 && 0 <= d.second < 60
  }

  /** Seconds from the epoch to a date, by the closed form. */
  function Seconds(d: Date): int
    requires 1 <= d.month <= 12
  {
    (((DaysToYear(d.year) + DaysToMonth(IsLeap(d.year), d.month) + d.day - 1) * 24 + d.hour) * 60 + d.minute) * 60
    + d.second
  }

  lemma Quarters(year: int)
    ensures year / 4 - (year - 1) / 4 == if year % 4 == 0 then 1 else 0
  {
    var q, r := year / 4, year % 4;
    assert year - 1 == if r == 0 then 4 * (q - 1) + 3 else 4 * q + (r - 1);
  }

  lemma Centuries(year: int)
    ensures year / 100 - (year - 1) / 100 == if year % 100 == 0 then 1 else 0
    ensures year % 100 == 0 ==> year % 4 == 0
  {
    var q, r := year / 100, year % 100;
    assert year - 1 == if r == 0 then 100 * (q - 1) + 99 else 100 * q + (r - 1);
    assert r == 0 ==> year == 4 * (25 * q);
  }

  lemma Cycles(year: int)
    ensures year / 400 - (year - 1) / 400 == if year % 400 == 0 then 1 else 0
    ensures year % 400 == 0 ==> year % 100 == 0
  {
    var q, r := year / 400, year % 400;
    assert year - 1 == if r == 0 then 400 * (q - 1) + 399 else 400 * q + (r - 1);
    assert r == 0 ==> year == 100 * (4 * q);
  }

  /** Only a leap year adds to their number. */
  lemma LeapStep(year: int)
    ensures LeapsThrough(year) - LeapsThrough(year - 1) == if IsLeap(year) then 1 else 0
  {
    var q, c, y := year / 4 - (year - 1) / 4, year / 100 - (year - 1) / 100, year / 400 - (year - 1) / 400;
    assert LeapsThrough(year) - LeapsThrough(year - 1) == q - c + y;
    Quarters(year);
    Centuries(year);
    Cycles(year);
  }

  lemma NextYear(year: int)
    ensures DaysToYear(year + 1) == DaysToYear(year) + YearLength(year)
  {
    hide LeapsThrough, IsLeap;
    LeapStep(year);
  }

  lemma YearEnd(leap: bool)
    ensures DaysToMonth(leap, 13) == if leap then 366 else 365
  {
    assert DaysToMonth(leap, 2) == 31;
    assert DaysToMonth(leap, 3) == 31 + (if leap then 29 else 28);
    assert DaysToMonth(leap, 5) == DaysToMonth(leap, 3) + 31 + 30;
    assert DaysToMonth(leap, 7) == DaysToMonth(leap, 5) + 31 + 30;
    assert DaysToMonth(leap, 9) == DaysToMonth(leap, 7) + 31 + 31;
    assert DaysToMonth(leap, 11) == DaysToMonth(leap, 9) + 30 + 31;
  }

  // ---------------------------------------------------------------- the conversion

  /** get_datetime of a 64-bit tick count: a valid date, which names exactly that second,
      two hours ahead of the boot epoch's clock. */
  method GetDatetime(mtime: nat, epoch: nat) returns (d: Date)
    requires mtime < UINT64 && epoch < 0x100_0000_0000
    ensures ValidDate(d) && Seconds(d) == mtime / TIMER_FREQ + epoch + TZ_OFFSET
  {
    var secs := mtime / TIMER_FREQ + epoch;
    secs := secs + TZ_OFFSET;
    assert secs < UINT64;
    var second := secs % 60;
    secs := secs / 60;
    var minute := secs % 60;
    secs := secs / 60;
    var hour := secs % 24;
    ghost var total := secs / 24;
    assert total < INT;
    var year, days := YearOf(secs / 24);
    var month, rest := MonthOf(days, IsLeap(year));
    d := Date(year, month, rest + 1, hour, minute, second);
    assert DaysToYear(d.year) + DaysToMonth(IsLeap(d.year), d.month) + d.day - 1 == total;
  }

  /** The loop over years; days is an int and stays one. */
  method YearOf(total: nat) returns (year: int, days: nat)
    requires total < INT
    ensures year >= 1970 && days < YearLength(year) && DaysToYear(year) + days == total
  {
    days := total;
    year := 1970;
    while true
      invariant year >= 1970 && DaysToYear(year) + days == total
      decreases days
    {
      var daysInYear := if IsLeap(year) then 366 else 365;
      if days < daysInYear {
        break;
      }
      NextYear(year);
      days := days - daysInYear;
      year := year + 1;
    }
  }

  /** The loop over months, which never runs past December. */
  method MonthOf(dayOfYear: nat, leap: bool) returns (month: int, days: nat)
    requires dayOfYear < if leap then 366 else 365
    ensures 1 <= month <= 12 && days < MonthLength(leap, month) && DaysToMonth(leap, month) + days == dayOfYear
  {
    YearEnd(leap);
    month := 1;
    days := dayOfYear;
    while days >= MonthLength(leap, month)
      invariant 1 <= month <= 12 && DaysToMonth(leap, month) + days == dayOfYear
      decreases 12 - month
    {
      days := days - MonthLength(leap, month);
      month := month + 1;
    }
  }
}
