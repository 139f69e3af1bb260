/** Proleptic Gregorian calendar dates, as JavaScript's `Date` handles them
    in local time for the stay-window derivation of the pricing endpoint:
    day arithmetic through `setDate`, which rolls over months and years, and
    the `YYYY-MM-DD` rendering of `formatDate`. */
module Calendar {

  import opened Json
  import opened Text

  datatype Date = Date(year: int, month: int, day: int)

  predicate IsLeapYear(y: int)
  {
    y % 4 == 0 && (y % 100 != 0 || y % 400 == 0)
  }

  function DaysInMonth(y: int, m: int): (n: int)
    requires 1 <= m <= 12
    ensures 28 <= n <= 31
  {
    if m == 2 then (if IsLeapYear(y) then 29 else 28)
    else if m == 4 || m == 6 || m == 9 || m == 11 then 30
    else 31
  }

  function DaysInYear(y: int): int
  {
    if IsLeapYear(y) then 366 else 365
  }

  predicate ValidDate(d: Date)
  {
    1 <= d.month <= 12 && 1 <= d.day <= DaysInMonth(d.year, d.month)
  }

  /** The calendar day after `d`. */
  function NextDay(d: Date): (r: Date)
    requires ValidDate(d)
    ensures ValidDate(r)
  {
    if d.day < DaysInMonth(d.year, d.month) then d.(day := d.day + 1)
    else if d.month < 12 then Date(d.year, d.month + 1, 1)
    else Date(d.year + 1, 1, 1)
  }

  /** The calendar day before `d`. */
  function PrevDay(d: Date): (r: Date)
    requires ValidDate(d)
    ensures ValidDate(r)
  {
    if d.day > 1 then d.(day := d.day - 1)
    else if d.month > 1 then Date(d.year, d.month - 1, DaysInMonth(d.year, d.month - 1))
    else Date(d.year - 1, 12, 31)
  }

  lemma NextPrev(d: Date)
    requires ValidDate(d)
    ensures PrevDay(NextDay(d)) == d
    ensures NextDay(PrevDay(d)) == d
  {
  }

  /** `k` days after `d` (before it when `k` is negative). */
  function AddDays(d: Date, k: int): (r: Date)
    requires ValidDate(d)
    ensures ValidDate(r)
    decreases if k < 0 then -k else k
  {
    if k == 0 then d
    else if k > 0 then AddDays(NextDay(d), k - 1)
    else AddDays(PrevDay(d), k + 1)
  }

  /** `new Date(y, m - 1, n)` and `setDate(n)`: day `n` counted from the
      first of the month, rolling into neighbouring months and years when
      `n` is outside the month. */
  function MakeDay(y: int, m: int, n: int): (r: Date)
    requires 1 <= m <= 12
    ensures ValidDate(r)
  {
    AddDays(Date(y, m, 1), n - 1)
  }

  /** `d.setDate(n)`. */
  function SetDate(d: Date, n: int): (r: Date)
    requires ValidDate(d)
    ensures ValidDate(r)
  {
    MakeDay(d.year, d.month, n)
  }

  // ---------------------------------------------------------------------
  // Day numbers: an independent count of days, to say what "one day
  // before" and "one day after" mean.

  /** Days of year `y` before the first of month `m`, from the cumulative
      month table. */
  function DaysBeforeMonth(y: int, m: int): int
    requires 1 <= m <= 12
  {
    [0, 31, 59, 90, 120, 151, 181, 212, 243, 273, 304, 334][m - 1]
    + (if m > 2 && IsLeapYear(y) then 1 else 0)
  }

  /** Days from 1 January of year 1 to 1 January of year `y`. */
  function DaysBeforeYear(y: int): int
  {
    var p := y - 1;
    365 * p + p / 4 - p / 100 + p / 400
  }

  /** A running count of days: consecutive calendar days have consecutive
      numbers (1 January of year 1 is day 1). */
  function DayNumber(d: Date): int
    requires ValidDate(d)
  {
    DaysBeforeYear(d.year) + DaysBeforeMonth(d.year, d.month) + d.day
  }

  lemma YearLength(y: int)
    ensures DaysBeforeYear(y + 1) == DaysBeforeYear(y) + DaysInYear(y)
  {
    LeapCounts(y);
  }

  /** The multiples of 4, 100 and 400 up to `y` are those up to `y - 1`,
      plus `y` itself when it is one. */
  lemma LeapCounts(y: int)
    ensures y / 4 == (y - 1) / 4 + (if y % 4 == 0 then 1 else 0)
    ensures y / 100 == (y - 1) / 100 + (if y % 100 == 0 then 1 else 0)
    ensures y / 400 == (y - 1) / 400 + (if y % 400 == 0 then 1 else 0)
  {
  }

  /** `NextDay` is exactly one day later. */
  lemma NextDayNumber(d: Date)
    requires ValidDate(d)
    ensures DayNumber(NextDay(d)) == DayNumber(d) + 1
  {
    if d.day == DaysInMonth(d.year, d.month) && d.month == 12 {
      YearLength(d.year);
    }
  }

  /** Different valid dates have different day numbers. */
  lemma DayNumberInjective(a: Date, b: Date)
    requires ValidDate(a) && ValidDate(b) && DayNumber(a) == DayNumber(b)
    ensures a == b
  {
    if a.year < b.year {
      YearsApart(a.year, b.year);
    } else if b.year < a.year {
      YearsApart(b.year, a.year);
    } else if a.month < b.month {
      MonthsApart(a.year, a.month, b.month);
    } else if b.month < a.month {
      MonthsApart(a.year, b.month, a.month);
    }
  }

  lemma {:induction false} YearsApart(y: int, z: int)
    requires y < z
    ensures DaysBeforeYear(z) >= DaysBeforeYear(y) + DaysInYear(y)
    decreases z - y
  {
    YearLength(y);
    if y + 1 < z {
      YearsApart(y + 1, z);
    }
  }

  lemma MonthsApart(y: int, m: int, n: int)
    requires 1 <= m < n <= 12
    ensures DaysBeforeMonth(y, n) >= DaysBeforeMonth(y, m) + DaysInMonth(y, m)
  {
  }

  /** `AddDays` moves the day number by exactly `k`. */
  lemma {:induction false} AddDaysNumber(d: Date, k: int)
    requires ValidDate(d)
    ensures DayNumber(AddDays(d, k)) == DayNumber(d) + k
    decreases if k < 0 then -k else k
  {
    if k > 0 {
      NextDayNumber(d);
      AddDaysNumber(NextDay(d), k - 1);
    } else if k < 0 {
      NextPrev(d);
      NextDayNumber(PrevDay(d));
      AddDaysNumber(PrevDay(d), k + 1);
    }
  }

  /** `setDate(getDate() - 1)` is the previous calendar day and
      `setDate(getDate() + 1)` the next one, across month and year ends. */
  lemma SetDateNeighbours(d: Date)
    requires ValidDate(d)
    ensures SetDate(d, d.day - 1) == PrevDay(d)
    ensures SetDate(d, d.day + 1) == NextDay(d)
  {
    SetDatePrev(d);
    SetDateNext(d);
  }

  lemma SetDatePrev(d: Date)
    requires ValidDate(d)
    ensures SetDate(d, d.day - 1) == PrevDay(d)
  {
    var first := Date(d.year, d.month, 1);
    AddDaysNumber(first, d.day - 1);
    AddDaysNumber(first, d.day - 2);
    NextPrev(d);
    NextDayNumber(PrevDay(d));
    DayNumberInjective(AddDays(first, d.day - 2), PrevDay(d));
  }

  lemma SetDateNext(d: Date)
    requires ValidDate(d)
    ensures SetDate(d, d.day + 1) == NextDay(d)
  {
    var first := Date(d.year, d.month, 1);
    AddDaysNumber(first, d.day - 1);
    AddDaysNumber(first, d.day);
    NextDayNumber(d);
    DayNumberInjective(AddDays(first, d.day), NextDay(d));
  }

  /** Within the month, `new Date(y, m - 1, n)` is day `n` itself. */
  lemma MakeDayWithin(y: int, m: int, n: int)
    requires 1 <= m <= 12 && 1 <= n <= DaysInMonth(y, m)
    ensures MakeDay(y, m, n) == Date(y, m, n)
  {
    AddDaysNumber(Date(y, m, 1), n - 1);
    DayNumberInjective(MakeDay(y, m, n), Date(y, m, n));
  }

  // ---------------------------------------------------------------------
  // YYYY-MM-DD

  /** `formatDate`: the year as `String(getFullYear())`, month and day
      zero-padded to two digits, joined by `-`. */
  function FormatDate(d: Date): string
    requires ValidDate(d)
  {
    IntToString(d.year) + "-" + Pad2(NatToString(d.month)) + "-" + Pad2(NatToString(d.day))
  }

  predicate AllDigits(s: string)
  {
    forall i :: 0 <= i < |s| ==> IsDigit(s[i])
  }

  /** Reads a `full-date` of section 5.6 of RFC 3339 (`YYYY-MM-DD`). */
  function ParseFullDate(s: string): (r: Option<Date>)
    ensures r.Some? ==> ValidDate(r.value)
  {
    if |s| == 10 && s[4] == '-' && s[7] == '-'
       && AllDigits(s[..4]) && AllDigits(s[5..7]) && AllDigits(s[8..])
    then
      var d := Date(ParseDigits(s[..4]), ParseDigits(s[5..7]), ParseDigits(s[8..]));
      if ValidDate(d) then Some(d) else None
    else None
  }

  lemma Pad2Digits(n: nat)
    requires 1 <= n <= 31
    ensures |Pad2(NatToString(n))| == 2 && AllDigits(Pad2(NatToString(n)))
    ensures ParseDigits(Pad2(NatToString(n))) == n
  {
    NatToStringLength(n);
    ParseNatToString(n);
    var t := NatToString(n);
    if n < 10 {
      var p := Pad2(t);
      assert p == ['0'] + t;
      assert p[..1] == ['0'];
      assert ParseDigits(['0']) == 0 by {
        assert ['0'][..0] == [];
      }
      assert p[..|p| - 1] == ['0'];
    }
  }

  /** For four-digit years the rendering is a `full-date`, and reading it
      back gives the same date. */
  lemma {:induction false} FormatDateRoundTrip(d: Date)
    requires ValidDate(d) && 1000 <= d.year <= 9999
    ensures |FormatDate(d)| == 10
    ensures ParseFullDate(FormatDate(d)) == Some(d)
  {
    NatToStringLength(d.year);
    ParseNatToString(d.year);
    Pad2Digits(d.month);
    Pad2Digits(d.day);
    var y := NatToString(d.year);
    var mm := Pad2(NatToString(d.month));
    var dd := Pad2(NatToString(d.day));
    var s := FormatDate(d);
    assert s == y + "-" + mm + "-" + dd;
    assert s[..4] == y;
    assert s[5..7] == mm;
    assert s[8..] == dd;
  }

  /** Every date after year 999 is rendered as four year digits, two month
      digits and two day digits joined by `-`. */
  lemma FormatDateShape(d: Date)
    requires ValidDate(d) && 1000 <= d.year <= 9999
    ensures var s := FormatDate(d);
      |s| == 10 && s[4] == '-' && s[7] == '-'
      && AllDigits(s[..4]) && AllDigits(s[5..7]) && AllDigits(s[8..])
  {
    FormatDateRoundTrip(d);
  }
}
