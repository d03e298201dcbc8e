/**
 Calendar dates and certificate expiry (certificates/variables.py, lines 30-53).

 A date is placed on the time line by `Ordinal`, the proleptic Gregorian day number that
 Python's `date.toordinal` gives. Every result about expiry is stated against it.
 */
module Calendar {
  import opened Basics

  datatype Date = Date(year: int, month: int, day: int)

  const MIN_YEAR := 1
  const MAX_YEAR := 9999

  predicate IsLeap(year: int) {
    year % 4 == 0 && (year % 100 != 0 || year % 400 == 0)
  }

  function DaysInMonth(year: int, month: int): int {
    if month == 2 then (if IsLeap(year) then 29 else 28)
    else if month in {4, 6, 9, 11} then 30
    else 31
  }

  predicate Valid(d: Date) {
    && MIN_YEAR <= d.year <= MAX_YEAR
    && 1 <= d.month <= 12
    && 1 <= d.day <= DaysInMonth(d.year, d.month)
  }

  type CalendarDate = d: Date | Valid(d) witness Date(1, 1, 1)

  /** Python compares dates field by field. */
  predicate Before(a: Date, b: Date) {
    || a.year < b.year
    || (a.year == b.year && a.month < b.month)
    || (a.year == b.year && a.month == b.month && a.day < b.day)
  }

  // ------------------------------------------------------------ day numbers

  function DaysBeforeYear(year: int): int {
    365 * (year - 1) + (year - 1) / 4 - (year - 1) / 100 + (year - 1) / 400
  }

  function DaysBeforeMonth(year: int, month: int): int
    decreases month
  {
    if month <= 1 then 0 else DaysBeforeMonth(year, month - 1) + DaysInMonth(year, month - 1)
  }

  function Ordinal(d: Date): int {
    DaysBeforeYear(d.year) + DaysBeforeMonth(d.year, d.month) + d.day
  }

  // ------------------------------------------------------------ month line

  /** Months counted from January of year 0. */
  function MonthIndex(year: int, month: int): int {
    12 * year + month - 1
  }

  function MonthLength(i: int): (n: int)
    ensures 28 <= n <= 31
  {
    DaysInMonth(i / 12, i % 12 + 1)
  }

  /** Day number of the last day before month `i`. */
  function MonthStart(i: int): int {
    DaysBeforeYear(i / 12) + DaysBeforeMonth(i / 12, i % 12 + 1)
  }

  lemma {:induction false} DecemberClosesYear(year: int)
    ensures DaysBeforeMonth(year, 12) + 31 == if IsLeap(year) then 366 else 365
  {
    assert DaysBeforeMonth(year, 2) == 31;
    assert DaysBeforeMonth(year, 4) == DaysBeforeMonth(year, 2) + DaysInMonth(year, 2) + 31;
    assert DaysBeforeMonth(year, 7) == DaysBeforeMonth(year, 4) + 91;
    assert DaysBeforeMonth(year, 10) == DaysBeforeMonth(year, 7) + 92;
    assert DaysBeforeMonth(year, 12) == DaysBeforeMonth(year, 10) + 61;
  }

  /** The day numbers of the calendar: how many days of a common and of a leap year lie before each month. */
  const BEFORE_MONTH: seq<int> := [0, 31, 59, 90, 120, 151, 181, 212, 243, 273, 304, 334]

  lemma {:induction false} MonthTable(year: int, month: int)
    requires 1 <= month <= 12
    ensures DaysBeforeMonth(year, month) == BEFORE_MONTH[month - 1] + if month > 2 && IsLeap(year) then 1 else 0
  {
    hide IsLeap;
    var leap := if IsLeap(year) then 1 else 0;
    assert DaysBeforeMonth(year, 2) == 31 && DaysBeforeMonth(year, 3) == 59 + leap;
    assert DaysBeforeMonth(year, 4) == 90 + leap && DaysBeforeMonth(year, 5) == 120 + leap;
    assert DaysBeforeMonth(year, 6) == 151 + leap && DaysBeforeMonth(year, 7) == 181 + leap;
    assert DaysBeforeMonth(year, 8) == 212 + leap && DaysBeforeMonth(year, 9) == 243 + leap;
    assert DaysBeforeMonth(year, 10) == 273 + leap && DaysBeforeMonth(year, 11) == 304 + leap;
  }

  lemma YearLength(year: int)
    ensures DaysBeforeYear(year + 1) - DaysBeforeYear(year) == if IsLeap(year) then 366 else 365
  {
    QuotientStep(year, 4);
    QuotientStep(year, 100);
    QuotientStep(year, 400);
  }

  lemma QuotientStep(n: int, k: int)
    requires k > 1
    ensures n / k - (n - 1) / k == if n % k == 0 then 1 else 0
  {
    var q, r := n / k, n % k;
    assert n == q * k + r;
    if r == 0 {
      assert n - 1 == (q - 1) * k + (k - 1);
      DivisionIs(n - 1, k, q - 1, k - 1);
    } else {
      assert n - 1 == q * k + (r - 1);
      DivisionIs(n - 1, k, q, r - 1);
    }
  }

  lemma DivisionIs(n: int, k: int, q: int, r: int)
    requires k > 0 && 0 <= r < k && n == q * k + r
    ensures n / k == q && n % k == r
  {
    var d := n / k - q;
    assert d * k == r - n % k;
    assert d >= 1 ==> d * k >= k;
    assert d <= -1 ==> d * k <= -k;
  }

  lemma MonthStartStep(i: int)
    ensures MonthStart(i + 1) == MonthStart(i) + MonthLength(i)
  {
    var y, m := i / 12, i % 12;
    if m < 11 {
      DivisionIs(i + 1, 12, y, m + 1);
    } else {
      DivisionIs(i + 1, 12, y + 1, 0);
      DecemberClosesYear(y);
      YearLength(y);
    }
  }

  lemma {:induction false} MonthSpan(i: int, n: nat)
    ensures 28 * n <= MonthStart(i + n) - MonthStart(i) <= 31 * n
    decreases n
  {
    hide MonthStart;
    if n > 0 {
      MonthSpan(i, n - 1);
      MonthStartStep(i + n - 1);
      assert i + n - 1 + 1 == i + n;
    }
  }

  lemma TwelveMonths(i: int)
    ensures 365 <= MonthStart(i + 12) - MonthStart(i) <= 366
  {
    var y, m := i / 12, i % 12;
    DivisionIs(i + 12, 12, y + 1, m);
    YearLength(y);
    YearLength(y + 1);
    LeapShift(y, m + 1);
  }

  lemma {:induction false} LeapShift(year: int, month: int)
    requires 1 <= month <= 12
    ensures DaysBeforeMonth(year + 1, month) - DaysBeforeMonth(year, month)
         == if month <= 2 then 0 else DaysInMonth(year + 1, 2) - DaysInMonth(year, 2)
    decreases month
  {
    if month > 1 {
      LeapShift(year, month - 1);
    }
  }

  lemma OnMonthLine(d: Date)
    requires Valid(d)
    ensures Ordinal(d) == MonthStart(MonthIndex(d.year, d.month)) + d.day
    ensures 1 <= d.day <= MonthLength(MonthIndex(d.year, d.month))
    ensures DaysInMonth(d.year, d.month) == MonthLength(MonthIndex(d.year, d.month))
  {
    DivisionIs(MonthIndex(d.year, d.month), 12, d.year, d.month - 1);
  }

  lemma LaterMonthIsLater(i: int, j: int)
    requires i < j
    ensures MonthStart(i) + MonthLength(i) <= MonthStart(j)
  {
    hide MonthStart;
    assert i + 1 + (j - i - 1) == j;
    MonthStartStep(i);
    MonthSpan(i + 1, j - i - 1);
  }

  /** Field-by-field order and day numbers tell the same story, so a day number names one date. */
  lemma OrdinalOrder(a: Date, b: Date)
    requires Valid(a) && Valid(b)
    ensures Before(a, b) <==> Ordinal(a) < Ordinal(b)
    ensures a == b <==> Ordinal(a) == Ordinal(b)
  {
    var i, j := MonthIndex(a.year, a.month), MonthIndex(b.year, b.month);
    hide MonthStart, MonthLength, Ordinal;
    OnMonthLine(a);
    OnMonthLine(b);
    if i < j {
      LaterMonthIsLater(i, j);
    } else if j < i {
      LaterMonthIsLater(j, i);
    }
  }

  // ------------------------------------------------------------ arithmetic

  datatype DateError = OutOfRange

  function AddMonths(d: Date, months: int): Result<Date, DateError> {
    var month := d.month - 1 + months;
    var year := d.year + month / 12;
    var target := month % 12 + 1;
    var day := Min(d.day, DaysInMonth(year, target));
    if MIN_YEAR <= year <= MAX_YEAR then Ok(Date(year, target, day)) else Err(OutOfRange)
  }

  function NextDay(d: Date): Date {
    if d.day < DaysInMonth(d.year, d.month) then d.(day := d.day + 1)
    else if d.month < 12 then Date(d.year, d.month + 1, 1)
    else Date(d.year + 1, 1, 1)
  }

  function PreviousDay(d: Date): Date {
    if d.day > 1 then d.(day := d.day - 1)
    else if d.month > 1 then Date(d.year, d.month - 1, DaysInMonth(d.year, d.month - 1))
    else Date(d.year - 1, 12, 31)
  }

  function Forward(d: Date, days: nat): Result<Date, DateError>
    decreases days
  {
    if days == 0 then Ok(d)
    else if NextDay(d).year > MAX_YEAR then Err(OutOfRange)
    else Forward(NextDay(d), days - 1)
  }

  function Backward(d: Date, days: nat): Result<Date, DateError>
    decreases days
  {
    if days == 0 then Ok(d)
    else if PreviousDay(d).year < MIN_YEAR then Err(OutOfRange)
    else Backward(PreviousDay(d), days - 1)
  }

  /** `date + timedelta(days)`, walked one day at a time. */
  function AddDays(d: Date, days: int): Result<Date, DateError> {
    if days >= 0 then Forward(d, days) else Backward(d, -days)
  }

  lemma NextDayIsNext(d: Date)
    requires Valid(d)
    ensures Ordinal(NextDay(d)) == Ordinal(d) + 1
    ensures NextDay(d).year <= MAX_YEAR ==> Valid(NextDay(d))
    ensures NextDay(d).year > MAX_YEAR ==> d == Date(MAX_YEAR, 12, 31)
  {
    YearLength(d.year);
    DecemberClosesYear(d.year);
    hide IsLeap, DaysBeforeYear;
    assert DaysBeforeMonth(d.year, d.month + 1) == DaysBeforeMonth(d.year, d.month) + DaysInMonth(d.year, d.month);
  }

  lemma PreviousDayIsPrevious(d: Date)
    requires Valid(d)
    ensures Ordinal(PreviousDay(d)) == Ordinal(d) - 1
    ensures PreviousDay(d).year >= MIN_YEAR ==> Valid(PreviousDay(d))
    ensures PreviousDay(d).year < MIN_YEAR ==> d == Date(MIN_YEAR, 1, 1)
  {
    YearLength(d.year - 1);
    DecemberClosesYear(d.year - 1);
    hide IsLeap, DaysBeforeYear;
  }

  lemma FirstDay()
    ensures Ordinal(Date(1, 1, 1)) == 1
  {
  }

  lemma LastDay()
    ensures Ordinal(Date(9999, 12, 31)) == 3652059
  {
    DecemberClosesYear(9999);
  }

  lemma OrdinalRange(d: Date)
    requires Valid(d)
    ensures 1 <= Ordinal(d) <= 3652059
  {
    LastDay();
    OrdinalOrder(d, Date(9999, 12, 31));
    OrdinalOrder(Date(1, 1, 1), d);
  }

  ghost predicate ExactShift(d: Date, days: int, r: Result<Date, DateError>) {
    match r
    case Ok(e) => Valid(e) && Ordinal(e) == Ordinal(d) + days
    case Err(_) => !(1 <= Ordinal(d) + days <= 3652059)
  }

  lemma {:induction false} ForwardExact(d: Date, days: nat)
    requires Valid(d)
    ensures ExactShift(d, days, Forward(d, days))
    decreases days
  {
    LastDay();
    NextDayIsNext(d);
    hide Ordinal, NextDay, Valid;
    if days > 0 && NextDay(d).year <= MAX_YEAR {
      ForwardExact(NextDay(d), days - 1);
    }
  }

  lemma {:induction false} BackwardExact(d: Date, days: nat)
    requires Valid(d)
    ensures ExactShift(d, 0 - days, Backward(d, days))
    decreases days
  {
    if days > 0 {
      PreviousDayIsPrevious(d);
      if PreviousDay(d).year >= MIN_YEAR {
        hide Ordinal, PreviousDay, Valid, DaysInMonth, DaysBeforeMonth, DaysBeforeYear;
        BackwardExact(PreviousDay(d), days - 1);
      } else {
        FirstDay();
        hide Ordinal, PreviousDay, Valid, DaysInMonth, DaysBeforeMonth, DaysBeforeYear;
        assert Ordinal(d) == 1;
      }
    }
  }

  /** Adding days is exact on day numbers and fails just when the result leaves years 1 to 9999. */
  lemma AddDaysExact(d: Date, days: int)
    requires Valid(d)
    ensures ExactShift(d, days, AddDays(d, days))
    ensures AddDays(d, days).Err? <==> !(1 <= Ordinal(d) + days <= 3652059)
  {
    if days >= 0 {
      ForwardExact(d, days);
    } else {
      BackwardExact(d, -days);
    }
    if AddDays(d, days).Ok? {
      OrdinalRange(AddDays(d, days).value);
    }
  }

  lemma AddMonthsLands(d: Date, months: int, e: Date)
    requires Valid(d) && AddMonths(d, months) == Ok(e)
    ensures Valid(e)
    ensures MonthIndex(e.year, e.month) == MonthIndex(d.year, d.month) + months
    ensures e.day == Min(d.day, MonthLength(MonthIndex(e.year, e.month)))
  {
    var i := MonthIndex(d.year, d.month) + months;
    var month := d.month - 1 + months;
    assert i == 12 * (d.year + month / 12) + month % 12;
    DivisionIs(i, 12, d.year + month / 12, month % 12);
  }

  lemma ClampedSpan(i: int, n: int, day: int, landed: int)
    requires n > 0 && 1 <= day <= MonthLength(i)
    requires landed == Min(day, MonthLength(i + n))
    ensures 28 * n <= (MonthStart(i + n) + landed) - (MonthStart(i) + day) <= 31 * n
  {
    hide MonthStart, MonthLength;
    MonthSpan(i, n);
    MonthSpan(i + 1, n - 1);
    MonthStartStep(i);
    assert i + 1 + (n - 1) == i + n;
  }

  /** Adding m > 0 months moves a date forward by 28m to 31m days. */
  lemma MonthsBounds(d: Date, months: int, e: Date)
    requires Valid(d) && months > 0 && AddMonths(d, months) == Ok(e)
    ensures Valid(e)
    ensures 28 * months <= Ordinal(e) - Ordinal(d) <= 31 * months
  {
    AddMonthsLands(d, months, e);
    OnMonthLine(d);
    OnMonthLine(e);
    hide MonthStart, MonthLength, Ordinal, AddMonths, DaysInMonth;
    ClampedSpan(MonthIndex(d.year, d.month), months, d.day, e.day);
  }

  /** A later issue date never expires earlier. */
  lemma AddMonthsMonotone(a: Date, b: Date, months: int, ea: Date, eb: Date)
    requires Valid(a) && Valid(b) && Ordinal(a) <= Ordinal(b)
    requires AddMonths(a, months) == Ok(ea) && AddMonths(b, months) == Ok(eb)
    ensures Ordinal(ea) <= Ordinal(eb)
  {
    AddMonthsLands(a, months, ea);
    AddMonthsLands(b, months, eb);
    hide MonthLength, Ordinal, AddMonths, DaysInMonth;
    OrdinalOrder(a, b);
    OrdinalOrder(ea, eb);
  }

  /**
   Two additions against one: same year and month, never a later day, at most 3 days earlier,
   and earlier exactly when the stop-over month is shorter than both the start day and the
   month of arrival allow.
   */
  lemma AddMonthsCompose(d: Date, a: int, b: int, mid: Date, twice: Date, once: Date)
    requires Valid(d)
    requires AddMonths(d, a) == Ok(mid) && AddMonths(mid, b) == Ok(twice) && AddMonths(d, a + b) == Ok(once)
    ensures (twice.year, twice.month) == (once.year, once.month)
    ensures once.day - 3 <= twice.day <= once.day
    ensures d.day <= 28 ==> twice == once
    ensures twice == once <==> Min(d.day, DaysInMonth(once.year, once.month)) <= DaysInMonth(mid.year, mid.month)
    ensures Ordinal(once) - 3 <= Ordinal(twice) <= Ordinal(once)
  {
    AddMonthsLands(d, a, mid);
    AddMonthsLands(mid, b, twice);
    AddMonthsLands(d, a + b, once);
    OnMonthLine(mid);
    OnMonthLine(twice);
    OnMonthLine(once);
    hide MonthStart, MonthLength, Ordinal, AddMonths, DaysInMonth, IsLeap, Valid;
    assert MonthIndex(twice.year, twice.month) == MonthIndex(once.year, once.month);
    SameMonthIndex(twice, once);
  }

  lemma SameMonthIndex(a: Date, b: Date)
    requires Valid(a) && Valid(b)
    requires MonthIndex(a.year, a.month) == MonthIndex(b.year, b.month)
    ensures a.year == b.year && a.month == b.month
  {
  }

  lemma {:induction false} YearSpan(i: int, years: nat)
    ensures 365 * years <= MonthStart(i + 12 * years) - MonthStart(i) <= 366 * years
    decreases years
  {
    hide MonthStart;
    if years > 0 {
      YearSpan(i, years - 1);
      TwelveMonths(i + 12 * (years - 1));
      assert i + 12 * (years - 1) + 12 == i + 12 * years;
    }
  }

  /** A year addition lowers the day only from February 29 to February 28. */
  lemma OnlyLeapDayClamps(d: Date, years: int, e: Date)
    requires Valid(d) && AddMonths(d, years * 12) == Ok(e)
    ensures e.year == d.year + years && e.month == d.month
    ensures e.day == d.day || (d.month == 2 && d.day == 29 && e.day == 28)
  {
    DivisionIs(d.month - 1 + years * 12, 12, years, d.month - 1);
  }

  lemma ClampedYears(i: int, years: int, day: int, landed: int)
    requires years > 0
    requires landed == day || (day == MonthLength(i) == 29 && landed == MonthLength(i + 12 * years) == 28)
    ensures 365 * years <= (MonthStart(i + 12 * years) + landed) - (MonthStart(i) + day) <= 366 * years
  {
    hide MonthStart, MonthLength;
    YearSpan(i, years);
    // From the end of a leap February the span is a whole number of years that starts in March.
    YearSpan(i + 1, years);
    MonthStartStep(i);
    MonthStartStep(i + 12 * years);
    assert i + 1 + 12 * years == i + 12 * years + 1;
  }

  /** Adding v > 0 years moves a date forward by 365v to 366v days, also from February 29. */
  lemma YearsBounds(d: Date, years: int, e: Date)
    requires Valid(d) && years > 0 && AddMonths(d, years * 12) == Ok(e)
    ensures Valid(e)
    ensures 365 * years <= Ordinal(e) - Ordinal(d) <= 366 * years
  {
    AddMonthsLands(d, years * 12, e);
    OnlyLeapDayClamps(d, years, e);
    OnMonthLine(d);
    OnMonthLine(e);
    LeapDay(d);
    hide MonthStart, MonthLength, Ordinal, AddMonths, DaysInMonth;
    ClampedYears(MonthIndex(d.year, d.month), years, d.day, e.day);
  }

  lemma LeapDay(d: Date)
    requires Valid(d)
    ensures d.month == 2 && d.day == 29 ==> DaysInMonth(d.year, d.month) == 29
  {
  }

  // ------------------------------------------------------------ expiry

  /** The expiry rule; `None` for the value stands for Python's `None`. */
  function ComputeExpiryDate(issueDate: Option<Date>, mode: string, value: Option<int>)
    : Result<Option<Date>, DateError>
    requires issueDate.Some? ==> Valid(issueDate.value)
  {
    if mode == "" || mode == "none" || issueDate.None? then Ok(None)
    else if mode == "date" then Ok(None)
    else if value.None? || value.value == 0 then Ok(None)
    else
      var result :=
        if mode == "days" then Lift(AddDays(issueDate.value, value.value))
        else if mode == "months" then Lift(AddMonths(issueDate.value, value.value))
        else if mode == "years" then Lift(AddMonths(issueDate.value, value.value * 12))
        else Ok(None);
      result
  }

  function Lift(r: Result<Date, DateError>): Result<Option<Date>, DateError> {
    match r
    case Ok(d) => Ok(Some(d))
    case Err(e) => Err(e)
  }

  /** The expiry `months` months on: that month, and the day of issue or the month's last day before it. */
  predicate MonthsLater(issued: Date, months: int, expiry: Date) {
    && 12 * expiry.year + expiry.month == 12 * issued.year + issued.month + months
    && 1 <= expiry.month <= 12
    && (expiry.day == issued.day || (expiry.day < issued.day && expiry.day == DaysInMonth(expiry.year, expiry.month)))
    && expiry.day <= DaysInMonth(expiry.year, expiry.month)
  }

  lemma MonthsLaterIs(issued: Date, months: int)
    requires Valid(issued)
    ensures match AddMonths(issued, months)
            case Ok(e) => Valid(e) && MonthsLater(issued, months, e)
            case Err(_) => !(12 <= 12 * issued.year + issued.month - 1 + months <= 12 * MAX_YEAR + 11)
  {
    var month := issued.month - 1 + months;
    var year := issued.year + month / 12;
    assert 12 * issued.year + month == 12 * year + month % 12;
    if AddMonths(issued, months).Ok? {
      AddMonthsLands(issued, months, AddMonths(issued, months).value);
    }
  }

  /** How many months a validity period of this mode is. */
  function MonthsOf(mode: string, value: int): int {
    if mode == "years" then 12 * value else value
  }

  /**
   When there is an expiry and which one it is: exactly with a value other than 0 in days, months or
   years, counted from the issue date; and it fails exactly when the count leaves years 1 to 9999.
   */
  lemma ExpiryDecided(issued: Date, mode: string, value: Option<int>)
    requires Valid(issued)
    ensures var counted := mode in {"days", "months", "years"} && value.Some? && value.value != 0;
            match ComputeExpiryDate(Some(issued), mode, value)
            case Ok(None) => !counted
            case Ok(Some(e)) =>
              && counted && Valid(e)
              && (mode == "days" ==> Ordinal(e) == Ordinal(issued) + value.value)
              && (mode != "days" ==> MonthsLater(issued, MonthsOf(mode, value.value), e))
            case Err(_) =>
              && counted
              && (mode == "days" ==> !(1 <= Ordinal(issued) + value.value <= 3652059))
              && (mode != "days" ==>
                    !(12 <= 12 * issued.year + issued.month - 1 + MonthsOf(mode, value.value) <= 12 * MAX_YEAR + 11))
  {
    if value.Some? {
      AddDaysExact(issued, value.value);
      MonthsLaterIs(issued, value.value);
      MonthsLaterIs(issued, value.value * 12);
    }
    hide Ordinal, AddDays, AddMonths, Valid, DaysInMonth;
  }

  /** What a positive validity period promises the holder, whichever unit it is given in. */
  lemma ExpiryBounds(issued: Date, mode: string, value: int, expiry: Date)
    requires Valid(issued) && value > 0
    requires ComputeExpiryDate(Some(issued), mode, Some(value)) == Ok(Some(expiry))
    ensures Valid(expiry) && Before(issued, expiry)
    ensures mode in {"days", "months", "years"}
    ensures mode == "days" ==> Ordinal(expiry) == Ordinal(issued) + value
    ensures mode == "months" ==> 28 * value <= Ordinal(expiry) - Ordinal(issued) <= 31 * value
    ensures mode == "years" ==> 365 * value <= Ordinal(expiry) - Ordinal(issued) <= 366 * value
  {
    if mode == "days" {
      AddDaysExact(issued, value);
    } else if mode == "months" {
      MonthsBounds(issued, value, expiry);
    } else {
      YearsBounds(issued, value, expiry);
    }
    OrdinalOrder(issued, expiry);
  }

  /** Every mode keeps the order of issue dates. */
  lemma ExpiryMonotone(a: Date, b: Date, mode: string, value: int, ea: Date, eb: Date)
    requires Valid(a) && Valid(b) && Ordinal(a) <= Ordinal(b)
    requires ComputeExpiryDate(Some(a), mode, Some(value)) == Ok(Some(ea))
    requires ComputeExpiryDate(Some(b), mode, Some(value)) == Ok(Some(eb))
    ensures Ordinal(ea) <= Ordinal(eb)
  {
    if mode == "days" {
      AddDaysExact(a, value);
      AddDaysExact(b, value);
    } else {
      AddMonthsMonotone(a, b, if mode == "months" then value else value * 12, ea, eb);
    }
  }
}
