/** Local calendar dates, their fixed-width text, and the order of that text. */
module Calendar {
  import opened Text
  import opened TextOrder

  datatype Date = Date(year: nat, month: nat, day: nat)

  predicate IsLeap(year: nat) {
    year % 4 == 0 && (year % 100 != 0 || year % 400 == 0)
  }

  function DaysIn(year: nat, month: nat): (days: nat)
    ensures 28 <= days <= 31
  {
    if month == 2 then (if IsLeap(year) then 29 else 28)
    else if month == 4 || month == 6 || month == 9 || month == 11 then 30
    else 31
  }

  predicate Valid(d: Date) {
    d.year <= 9999 && 1 <= d.month <= 12 && 1 <= d.day <= DaysIn(d.year, d.month)
  }

  /** Four-digit years, late enough that every cutoff is one too. */
  predicate Recent(d: Date) {
    Valid(d) && d.year >= 4
  }

  predicate NotAfter(a: Date, b: Date) {
    || a.year < b.year
    || (a.year == b.year && (a.month < b.month || (a.month == b.month && a.day <= b.day)))
  }

  function DayBefore(d: Date): (p: Date)
    requires Valid(d) && (d.year > 0 || d.month > 1 || d.day > 1)
    ensures Valid(p) && NotAfter(p, d) && p != d && p.year * 12 + p.month + 1 >= d.year * 12 + d.month
  {
    if d.day > 1 then Date(d.year, d.month, d.day - 1)
    else if d.month > 1 then Date(d.year, d.month - 1, DaysIn(d.year, d.month - 1))
    else Date(d.year - 1, 12, 31)
  }

  /** The date `n` days earlier. */
  function MinusDays(d: Date, n: nat): (p: Date)
    requires Valid(d) && d.year * 12 + d.month > n + 1
    ensures Valid(p) && NotAfter(p, d)
    decreases n
  {
    if n == 0 then d else MinusDays(DayBefore(d), n - 1)
  }

  /** Months counted from the year zero. */
  function MonthIndex(d: Date): nat
    requires Valid(d)
  {
    d.year * 12 + d.month - 1
  }

  // ---- text -----------------------------------------------------------------------------------------------

  function Pad2(n: nat): (s: string)
    requires n < 100
    ensures |s| == 2
  {
    [DigitChar(n / 10), DigitChar(n % 10)]
  }

  function Pad4(n: nat): (s: string)
    requires n < 10000
    ensures |s| == 4
  {
    Pad2(n / 100) + Pad2(n % 100)
  }

  function MonthText(year: nat, month: nat): (s: string)
    requires year < 10000 && month < 100
    ensures |s| == 7
  {
    Pad4(year) + "-" + Pad2(month)
  }

  function DayText(d: Date): (s: string)
    requires Valid(d)
    ensures |s| == 10
  {
    MonthText(d.year, d.month) + "-" + Pad2(d.day)
  }

  lemma Pad2Order(m: nat, n: nat)
    requires m < 100 && n < 100
    ensures TextLe(Pad2(m), Pad2(n)) <==> m <= n
    ensures Pad2(m) == Pad2(n) <==> m == n
  {
    var a, b := Pad2(m), Pad2(n);
    assert a[1..][1..] == [] && b[1..][1..] == [];
    assert a[0] == b[0] <==> m / 10 == n / 10;
    assert a[0] < b[0] <==> m / 10 < n / 10;
    assert a[1..][0] == a[1] && b[1..][0] == b[1];
    assert TextLe(a[1..], b[1..]) <==> m % 10 <= n % 10;
  }

  lemma Pad4Order(m: nat, n: nat)
    requires m < 10000 && n < 10000
    ensures TextLe(Pad4(m), Pad4(n)) <==> m <= n
    ensures Pad4(m) == Pad4(n) <==> m == n
  {
    Pad2Order(m / 100, n / 100);
    Pad2Order(m % 100, n % 100);
    TextLeSplit(Pad2(m / 100), Pad2(m % 100), Pad2(n / 100), Pad2(n % 100));
    assert Pad4(m)[..2] == Pad2(m / 100) && Pad4(m)[2..] == Pad2(m % 100);
    assert Pad4(n)[..2] == Pad2(n / 100) && Pad4(n)[2..] == Pad2(n % 100);
  }

  /** Months written out compare as months do. */
  lemma MonthTextOrder(y1: nat, m1: nat, y2: nat, m2: nat)
    requires y1 < 10000 && y2 < 10000 && m1 < 100 && m2 < 100
    ensures TextLe(MonthText(y1, m1), MonthText(y2, m2)) <==> y1 < y2 || (y1 == y2 && m1 <= m2)
    ensures MonthText(y1, m1) == MonthText(y2, m2) <==> y1 == y2 && m1 == m2
  {
    var a, b := MonthText(y1, m1), MonthText(y2, m2);
    assert a == Pad4(y1) + ("-" + Pad2(m1)) && b == Pad4(y2) + ("-" + Pad2(m2));
    Pad4Order(y1, y2);
    Pad2Order(m1, m2);
    TextLeSplit(Pad4(y1), "-" + Pad2(m1), Pad4(y2), "-" + Pad2(m2));
    TextLeSplit("-", Pad2(m1), "-", Pad2(m2));
    assert a[..4] == Pad4(y1) && a[5..] == Pad2(m1) && b[..4] == Pad4(y2) && b[5..] == Pad2(m2);
  }

  /** Dates written out compare as dates do. */
  lemma DayTextOrder(a: Date, b: Date)
    requires Valid(a) && Valid(b)
    ensures TextLe(DayText(a), DayText(b)) <==> NotAfter(a, b)
    ensures DayText(a) == DayText(b) <==> a == b
  {
    var x, y := MonthText(a.year, a.month), MonthText(b.year, b.month);
    assert DayText(a) == x + ("-" + Pad2(a.day)) && DayText(b) == y + ("-" + Pad2(b.day));
    MonthTextOrder(a.year, a.month, b.year, b.month);
    Pad2Order(a.day, b.day);
    TextLeSplit(x, "-" + Pad2(a.day), y, "-" + Pad2(b.day));
    TextLeSplit("-", Pad2(a.day), "-", Pad2(b.day));
    assert DayText(a)[..7] == x && DayText(a)[8..] == Pad2(a.day) && DayText(b)[..7] == y && DayText(b)[8..] == Pad2(b.day);
  }

  function Dashes(s: string): nat {
    if s == [] then 0 else (if s[0] == '-' then 1 else 0) + Dashes(s[1..])
  }

  lemma {:induction false} DashesConcat(a: string, b: string)
    ensures Dashes(a + b) == Dashes(a) + Dashes(b)
  {
    if a == [] {
      assert a + b == b;
    } else {
      assert (a + b)[1..] == a[1..] + b;
      DashesConcat(a[1..], b);
    }
  }

  lemma Pad2HasNoDash(n: nat)
    requires n < 100
    ensures Dashes(Pad2(n)) == 0
  {
    assert Pad2(n)[1..] == [DigitChar(n % 10)] && [DigitChar(n % 10)][1..] == [];
    assert DigitChar(n / 10) != '-' && DigitChar(n % 10) != '-';
    assert Dashes([]) == 0;
    assert Dashes([DigitChar(n % 10)]) == 0;
    assert Dashes(Pad2(n)) == Dashes(Pad2(n)[1..]);
  }

  /** A day has two dashes, a month one: that is how buckets are told apart. */
  lemma DashesTellPeriods(d: Date)
    requires Valid(d)
    ensures Dashes(MonthText(d.year, d.month)) == 1 && Dashes(DayText(d)) == 2
  {
    Pad2HasNoDash(d.year / 100);
    Pad2HasNoDash(d.year % 100);
    Pad2HasNoDash(d.month);
    Pad2HasNoDash(d.day);
    DashesConcat(Pad2(d.year / 100), Pad2(d.year % 100));
    assert "-"[1..] == [];
    DashesConcat(Pad4(d.year), "-");
    DashesConcat(Pad4(d.year) + "-", Pad2(d.month));
    DashesConcat(MonthText(d.year, d.month), "-");
    DashesConcat(MonthText(d.year, d.month) + "-", Pad2(d.day));
  }
}
