/** Dates as numbers of days: what going back some days means, whatever months and leap years lie between. */
module DayNumbers {
  import opened Calendar

  /** The days before this year. */
  function DaysBeforeYear(year: nat): nat {
    if year == 0 then 0 else DaysBeforeYear(year - 1) + if IsLeap(year - 1) then 366 else 365
  }

  /** The days of the year before this month. */
  function DaysBeforeMonth(year: nat, month: nat): nat
    requires 1 <= month <= 12
  {
    if month == 1 then 0 else DaysBeforeMonth(year, month - 1) + DaysIn(year, month - 1)
  }

  function DayNumber(d: Date): nat
    requires Valid(d)
  {
    DaysBeforeYear(d.year) + DaysBeforeMonth(d.year, d.month) + d.day - 1
  }

  lemma {:induction false} LeapYears(year: nat)
    ensures DaysBeforeYear(year) == 365 * year + (year + 3) / 4 - (year + 99) / 100 + (year + 399) / 400
    decreases year
  {
    if year > 0 {
      LeapYears(year - 1);
      OneMoreYear(year - 1);
    }
  }

  function Divides(m: nat, n: nat): nat
    requires m > 0
  {
    if n % m == 0 then 1 else 0
  }

  lemma OneMoreYear(year: nat)
    ensures (year + 4) / 4 - (year + 100) / 100 + (year + 400) / 400 ==
            (year + 3) / 4 - (year + 99) / 100 + (year + 399) / 400 + if IsLeap(year) then 1 else 0
  {
    NextOfFour(year);
    NextOfHundred(year);
    NextOfFourHundred(year);
    LeapsAreCounted(year);
  }

  lemma LeapsAreCounted(year: nat)
    ensures Divides(4, year) - Divides(100, year) + Divides(400, year) == if IsLeap(year) then 1 else 0
  {
    assert year % 100 == 0 ==> year % 4 == 0;
    assert year % 400 == 0 ==> year % 100 == 0;
  }

  lemma NextOfFour(n: nat)
    ensures (n + 4) / 4 == (n + 3) / 4 + Divides(4, n)
  {
  }

  lemma NextOfHundred(n: nat)
    ensures (n + 100) / 100 == (n + 99) / 100 + Divides(100, n)
  {
  }

  lemma NextOfFourHundred(n: nat)
    ensures (n + 400) / 400 == (n + 399) / 400 + Divides(400, n)
  {
  }

  lemma LastMonth(year: nat)
    ensures DaysBeforeMonth(year, 12) + 31 == if IsLeap(year) then 366 else 365
  {
    assert DaysBeforeMonth(year, 4) == 90 + if IsLeap(year) then 1 else 0 by {
      assert DaysBeforeMonth(year, 3) == DaysBeforeMonth(year, 2) + DaysIn(year, 2);
    }
    assert DaysBeforeMonth(year, 8) == DaysBeforeMonth(year, 4) + 122 by {
      assert DaysBeforeMonth(year, 6) == DaysBeforeMonth(year, 4) + 61;
    }
    assert DaysBeforeMonth(year, 10) == DaysBeforeMonth(year, 8) + 61;
  }

  lemma DayBeforeIsOneLess(d: Date)
    requires Valid(d) && (d.year > 0 || d.month > 1 || d.day > 1)
    ensures DayNumber(DayBefore(d)) + 1 == DayNumber(d)
  {
    if d.day > 1 {
      assert DayBefore(d) == Date(d.year, d.month, d.day - 1);
    } else if d.month > 1 {
      assert DayBefore(d) == Date(d.year, d.month - 1, DaysIn(d.year, d.month - 1));
      MonthBefore(d.year, d.month);
    } else {
      assert DayBefore(d) == Date(d.year - 1, 12, 31);
      YearBefore(d.year);
    }
  }

  lemma MonthBefore(year: nat, month: nat)
    requires 1 < month <= 12
    ensures DaysBeforeMonth(year, month) == DaysBeforeMonth(year, month - 1) + DaysIn(year, month - 1)
  {
  }

  lemma YearBefore(year: nat)
    requires year > 0
    ensures DaysBeforeYear(year) + DaysBeforeMonth(year, 1) == DaysBeforeYear(year - 1) + DaysBeforeMonth(year - 1, 12) + 31
  {
    LastMonth(year - 1);
  }

  lemma {:induction false} GoingBack(d: Date, n: nat)
    requires Valid(d) && d.year * 12 + d.month > n + 1
    ensures DayNumber(MinusDays(d, n)) + n == DayNumber(d)
    decreases n
  {
    if n > 0 {
      DayBeforeIsOneLess(d);
      GoingBack(DayBefore(d), n - 1);
    }
  }

  lemma {:induction false} MonthsAddUp(year: nat, m: nat, n: nat)
    requires 1 <= m < n <= 12
    ensures DaysBeforeMonth(year, m) + DaysIn(year, m) <= DaysBeforeMonth(year, n)
    decreases n
  {
    if m < n - 1 {
      MonthsAddUp(year, m, n - 1);
    }
  }

  lemma {:induction false} YearsAddUp(y: nat, z: nat)
    requires y < z
    ensures DaysBeforeYear(y) + (if IsLeap(y) then 366 else 365) <= DaysBeforeYear(z)
    decreases z
  {
    if y < z - 1 {
      YearsAddUp(y, z - 1);
    }
  }

  lemma DayOfYear(d: Date)
    requires Valid(d)
    ensures DaysBeforeMonth(d.year, d.month) + d.day <= if IsLeap(d.year) then 366 else 365
  {
    LastMonth(d.year);
    if d.month < 12 {
      MonthsAddUp(d.year, d.month, 12);
    }
  }

  lemma EarlierIsLess(a: Date, b: Date)
    requires Valid(a) && Valid(b) && NotAfter(a, b) && a != b
    ensures DayNumber(a) < DayNumber(b)
  {
    if a.year < b.year {
      YearsAddUp(a.year, b.year);
      DayOfYear(a);
    } else if a.month < b.month {
      MonthsAddUp(a.year, a.month, b.month);
    }
  }

  /** Dates are in order exactly as their numbers are. */
  lemma NumbersFollowDates(a: Date, b: Date)
    requires Valid(a) && Valid(b)
    ensures NotAfter(a, b) <==> DayNumber(a) <= DayNumber(b)
  {
    if a != b {
      if NotAfter(a, b) {
        EarlierIsLess(a, b);
      } else {
        EarlierIsLess(b, a);
      }
    }
  }
}
