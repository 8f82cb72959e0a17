/** Calendar dates and their day numbers: the arithmetic behind business dates. */
module Calendar {
  import opened Wrappers

  datatype Date = Date(year: nat, month: nat, day: nat)

  predicate IsLeap(year: nat) {
    year % 4 == 0 && (year % 100 != 0 || year % 400 == 0)
  }

  function DaysInMonth(year: nat, month: nat): (days: nat)
    ensures 28 <= days <= 31
  {
    if month == 2 then (if IsLeap(year) then 29 else 28)
    else if month == 4 || month == 6 || month == 9 || month == 11 then 30 else 31
  }

  predicate IsDate(d: Date) {
    1 <= d.year && 1 <= d.month <= 12 && 1 <= d.day <= DaysInMonth(d.year, d.month)
  }

  /** The day after. */
  function NextDate(d: Date): (r: Date)
    requires IsDate(d)
    ensures IsDate(r)
  {
    if d.day < DaysInMonth(d.year, d.month) then Date(d.year, d.month, d.day + 1)
    else if d.month < 12 then Date(d.year, d.month + 1, 1)
    else Date(d.year + 1, 1, 1)
  }

  /** The date of a day number; day 0 is the first day of year 1. */
  function DateOf(n: nat): (d: Date)
    ensures IsDate(d)
  {
    if n == 0 then Date(1, 1, 1) else NextDate(DateOf(n - 1))
  }

  // ---------------------------------------------------------------------------
  // Day numbers in closed form
  // ---------------------------------------------------------------------------

  function DaysBeforeMonth(year: nat, month: nat): nat {
    if month <= 1 then 0 else DaysBeforeMonth(year, month - 1) + DaysInMonth(year, month - 1)
  }

  function DaysInYear(year: nat): nat {
    if IsLeap(year) then 366 else 365
  }

  function DaysBeforeYear(year: nat): nat {
    if year <= 1 then 0 else DaysBeforeYear(year - 1) + DaysInYear(year - 1)
  }

  function DayNumber(d: Date): nat
    requires IsDate(d)
  {
    DaysBeforeYear(d.year) + DaysBeforeMonth(d.year, d.month) + d.day - 1
  }

  lemma QuotientsMove(x: nat)
    requires 1 <= x
    ensures x / 4 - (x - 1) / 4 == if x % 4 == 0 then 1 else 0
    ensures x / 100 - (x - 1) / 100 == if x % 100 == 0 then 1 else 0
    ensures x / 400 - (x - 1) / 400 == if x % 400 == 0 then 1 else 0
    ensures (x % 400 == 0 ==> x % 100 == 0) && (x % 100 == 0 ==> x % 4 == 0)
  {
  }

  /** The days before a year in closed form: a leap day every fourth year, but not in three of four centuries. */
  lemma {:induction false} YearsInClosedForm(year: nat)
    requires 1 <= year
    ensures DaysBeforeYear(year) == 365 * (year - 1) + (year - 1) / 4 - (year - 1) / 100 + (year - 1) / 400
  {
    if year > 1 {
      YearsInClosedForm(year - 1);
      QuotientsMove(year - 1);
      assert DaysBeforeYear(year) == DaysBeforeYear(year - 1) + DaysInYear(year - 1);
    }
  }

  /** The days before a month in closed form. */
  lemma {:induction false} MonthsInClosedForm(year: nat, month: nat)
    requires 1 <= month <= 12
    ensures DaysBeforeMonth(year, month) ==
            (367 * month - 362) / 12 - if month <= 2 then 0 else if IsLeap(year) then 1 else 2
  {
    if month > 1 { MonthsInClosedForm(year, month - 1); }
  }

  /** The day on which the clock of the platform starts counting. */
  lemma Epoch()
    ensures DayNumber(Date(1970, 1, 1)) == 719162 && DateOf(719162) == Date(1970, 1, 1)
  {
    hide DateOf, DaysBeforeYear;
    YearsInClosedForm(1970);
    DateOfNumber(Date(1970, 1, 1));
  }

  lemma YearHasItsDays(year: nat)
    ensures DaysBeforeMonth(year, 12) + DaysInMonth(year, 12) == DaysInYear(year)
  {
    assert DaysBeforeMonth(year, 2) == 31;
    assert DaysBeforeMonth(year, 4) == 62 + DaysInMonth(year, 2);
    assert DaysBeforeMonth(year, 6) == DaysBeforeMonth(year, 4) + 61;
    assert DaysBeforeMonth(year, 8) == DaysBeforeMonth(year, 6) + 61;
    assert DaysBeforeMonth(year, 10) == DaysBeforeMonth(year, 8) + 61;
    assert DaysBeforeMonth(year, 12) == DaysBeforeMonth(year, 10) + 61;
  }

  lemma NextDateIsNextNumber(d: Date)
    requires IsDate(d)
    ensures DayNumber(NextDate(d)) == DayNumber(d) + 1
  {
    YearHasItsDays(d.year);
    hide DaysInMonth, DaysInYear;
  }

  lemma {:induction false} NumberOfDate(n: nat)
    ensures DayNumber(DateOf(n)) == n
  {
    if n > 0 {
      NumberOfDate(n - 1);
      NextDateIsNextNumber(DateOf(n - 1));
    }
  }

  predicate IsBefore(a: Date, b: Date) {
    a.year < b.year || (a.year == b.year && (a.month < b.month || (a.month == b.month && a.day < b.day)))
  }

  lemma {:induction false} MonthsAddUp(year: nat, m: nat, n: nat)
    requires 1 <= m < n
    ensures DaysBeforeMonth(year, m) + DaysInMonth(year, m) <= DaysBeforeMonth(year, n)
    decreases n
  {
    if m < n - 1 { MonthsAddUp(year, m, n - 1); }
  }

  lemma {:induction false} YearsAddUp(y: nat, z: nat)
    requires 1 <= y < z
    ensures DaysBeforeYear(y) + DaysInYear(y) <= DaysBeforeYear(z)
    decreases z
  {
    if y < z - 1 { YearsAddUp(y, z - 1); }
  }

  lemma DayIsInItsYear(d: Date)
    requires IsDate(d)
    ensures DaysBeforeYear(d.year) <= DayNumber(d) < DaysBeforeYear(d.year) + DaysInYear(d.year)
  {
    YearHasItsDays(d.year);
    if d.month < 12 { MonthsAddUp(d.year, d.month, 12); }
  }

  lemma EarlierDateHasSmallerNumber(a: Date, b: Date)
    requires IsDate(a) && IsDate(b) && IsBefore(a, b)
    ensures DayNumber(a) < DayNumber(b)
  {
    hide DaysBeforeMonth, DaysBeforeYear, DaysInMonth, DaysInYear;
    if a.year < b.year {
      YearsAddUp(a.year, b.year);
      DayIsInItsYear(a);
      DayIsInItsYear(b);
    } else if a.month < b.month {
      MonthsAddUp(a.year, a.month, b.month);
    }
  }

  /** Day numbers and dates name each other. */
  lemma DateOfNumber(d: Date)
    requires IsDate(d)
    ensures DateOf(DayNumber(d)) == d
  {
    var e := DateOf(DayNumber(d));
    NumberOfDate(DayNumber(d));
    hide DateOf, DayNumber;
    if IsBefore(e, d) { EarlierDateHasSmallerNumber(e, d); }
    if IsBefore(d, e) { EarlierDateHasSmallerNumber(d, e); }
  }

  // ---------------------------------------------------------------------------
  // A day of the year that comes every year
  // ---------------------------------------------------------------------------

  lemma OneYearOn(year: nat, month: nat, day: nat)
    requires 1 <= year && 1 <= month <= 12 && 1 <= day <= 28
    ensures DayNumber(Date(year + 1, month, day)) - DayNumber(Date(year, month, day)) <= 366
  {
    DaysBeforeMonthVaries(year, month);
  }

  /** February moves the later months by at most the leap day, and the year then has it as well. */
  lemma {:induction false} DaysBeforeMonthVaries(year: nat, month: nat)
    requires 1 <= month <= 12
    ensures DaysBeforeMonth(year, month) == DaysBeforeMonth(year + 1, month)
            + if month <= 2 then 0 else (if IsLeap(year) then 1 else 0) - (if IsLeap(year + 1) then 1 else 0)
  {
    if month > 1 { DaysBeforeMonthVaries(year, month - 1); }
  }

  /** A month and day up to the 28th comes around within any 366 days. */
  lemma ComesAround(n: nat, month: nat, day: nat) returns (k: nat)
    requires 1 <= month <= 12 && 1 <= day <= 28
    ensures n <= k < n + 366 && DateOf(k).month == month && DateOf(k).day == day
  {
    var y := DateOf(n).year;
    var base, next := Date(y, month, day), Date(y + 1, month, day);
    NumberOfDate(n);
    hide DateOf;
    if n <= DayNumber(base) {
      k := DayNumber(base);
      DayIsInItsYear(base);
      DayIsInItsYear(DateOf(n));
      DateOfNumber(base);
    } else {
      k := DayNumber(next);
      OneYearOn(y, month, day);
      DayIsInItsYear(next);
      DayIsInItsYear(DateOf(n));
      DateOfNumber(next);
    }
  }

  // ---------------------------------------------------------------------------
  // Months of service
  // ---------------------------------------------------------------------------

  /** Months since the beginning of the era. */
  function MonthIndex(d: Date): int {
    d.year * 12 + d.month - 1
  }

  /** So many months after the month of hire lies the month of `asOf` or an earlier one; in the month itself the day of
      hire has to come first. */
  predicate HasServed(hired: Date, asOf: Date, months: int) {
    || MonthIndex(hired) + months < MonthIndex(asOf)
    || (MonthIndex(hired) + months == MonthIndex(asOf) && hired.day <= asOf.day)
  }

  /** `serviceMonthsBetween` */
  function ServiceMonths(hired: Date, asOf: Date): int {
    var months := (asOf.year - hired.year) * 12 + (asOf.month - hired.month);
    if asOf.day >= hired.day then months else months - 1
  }

  lemma ServedIff(hired: Date, asOf: Date, months: int)
    ensures HasServed(hired, asOf, months) <==> months <= ServiceMonths(hired, asOf)
  {
  }

  /** Nobody loses months of service as time goes by, and nobody hired by a date has a negative number of them. */
  lemma ServiceOnlyGrows(hired: Date, a: Date, b: Date)
    requires IsDate(hired) && IsDate(a) && IsDate(b) && !IsBefore(b, a)
    ensures ServiceMonths(hired, a) <= ServiceMonths(hired, b)
    ensures !IsBefore(a, hired) ==> 0 <= ServiceMonths(hired, a)
  {
  }

  // ---------------------------------------------------------------------------
  // Months later
  // ---------------------------------------------------------------------------

  /** `addMonthsToBusinessDate`: the same day of a later month, or the last one when that month has no such day. */
  function AddMonths(d: Date, months: nat): (r: Date)
    requires IsDate(d)
    ensures IsDate(r) && MonthIndex(r) == MonthIndex(d) + months
    ensures r.day == if d.day <= DaysInMonth(r.year, r.month) then d.day else DaysInMonth(r.year, r.month)
  {
    var total := d.year * 12 + (d.month - 1) + months;
    var year, month := total / 12, total % 12 + 1;
    var last := DaysInMonth(year, month);
    Date(year, month, if d.day <= last then d.day else last)
  }

  lemma BeforeByMonth(a: Date, b: Date)
    requires IsDate(a) && IsDate(b)
    ensures IsBefore(a, b) <==> MonthIndex(a) < MonthIndex(b) || (MonthIndex(a) == MonthIndex(b) && a.day < b.day)
  {
  }

  /** Adding months never goes back, keeps the order of dates, and gives as many months of service, one less when the
      day had to be cut. */
  lemma MonthsLater(a: Date, b: Date, months: nat)
    requires IsDate(a) && IsDate(b)
    ensures !IsBefore(AddMonths(a, months), a)
    ensures IsBefore(AddMonths(b, months), AddMonths(a, months)) ==> IsBefore(b, a)
    ensures ServiceMonths(a, AddMonths(a, months)) ==
            if AddMonths(a, months).day == a.day then months else months - 1
  {
    var later, other := AddMonths(a, months), AddMonths(b, months);
    hide AddMonths, IsBefore;
    BeforeByMonth(later, a);
    BeforeByMonth(other, later);
    BeforeByMonth(b, a);
    if MonthIndex(later) == MonthIndex(other) { SameMonth(later, other); }
    if months == 0 { SameMonth(a, later); }
  }

  lemma SameMonth(a: Date, b: Date)
    requires IsDate(a) && IsDate(b) && MonthIndex(a) == MonthIndex(b)
    ensures a.year == b.year && a.month == b.month
  {
  }

  /** `expiryOf`, on day numbers. */
  function ExpiryOf(day: nat, months: Option<nat>): Option<nat> {
    match months
    case None => None
    case Some(n) => Some(DayNumber(AddMonths(DateOf(day), n)))
  }

  /** A grant expires on the day so many months later, on no day before its own, and one that is granted no earlier
      expires no earlier. */
  lemma ExpiryFollowsTheGrant(day: nat, later: nat, months: nat)
    requires day <= later
    ensures day <= ExpiryOf(day, Some(months)).value <= ExpiryOf(later, Some(months)).value
    ensures DateOf(ExpiryOf(day, Some(months)).value) == AddMonths(DateOf(day), months)
  {
    var a, b := DateOf(day), DateOf(later);
    NumberOfDate(day);
    NumberOfDate(later);
    MonthsLater(a, b, months);
    DateOfNumber(AddMonths(a, months));
    hide DateOf, DayNumber, IsBefore, AddMonths;
    NumbersFollowDates(a, b);
    NumbersFollowDates(a, AddMonths(a, months));
    NumbersFollowDates(AddMonths(a, months), AddMonths(b, months));
  }

  lemma NumbersFollowDates(a: Date, b: Date)
    requires IsDate(a) && IsDate(b)
    ensures DayNumber(a) <= DayNumber(b) <==> !IsBefore(b, a)
  {
    hide DayNumber;
    if IsBefore(b, a) {
      EarlierDateHasSmallerNumber(b, a);
    } else if IsBefore(a, b) {
      EarlierDateHasSmallerNumber(a, b);
    } else {
      assert a == b;
    }
  }

  /** `isAnniversary`: the same month and day. */
  predicate IsAnniversary(hired: Date, on: Date) {
    hired.month == on.month && hired.day == on.day
  }

  /** Someone hired on a day that every year has gets an anniversary every year; someone hired on
      29 February only in leap years. */
  lemma AnniversaryComesIff(hired: Date, year: nat)
    requires IsDate(hired) && 1 <= year
    ensures (exists on: Date :: IsDate(on) && on.year == year && IsAnniversary(hired, on))
            <==> (hired.month == 2 && hired.day == 29 ==> IsLeap(year))
  {
    var on := Date(year, hired.month, hired.day);
    assert IsDate(on) <==> (hired.month == 2 && hired.day == 29 ==> IsLeap(year));
    assert IsAnniversary(hired, on);
    assert forall o: Date :: o.year == year && IsAnniversary(hired, o) ==> o == on;
  }
}
