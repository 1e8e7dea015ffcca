/** The part of Python's `datetime` that a week key needs: dates of the
    proleptic Gregorian calendar as ordinals (0001-01-01 is day 1), the
    ordinal-to-date conversion CPython uses, `weekday()`, and the
    `strftime("%Y-%m-%d")` rendering as the GNU C library prints it, which
    from year 1000 on is the full-date form of section 5.6 of RFC 3339. */
module Calendar {

  datatype Date = Date(year: int, month: int, day: int)

  /** The ordinal of 9999-12-31, the last date Python can represent. */
  const MaxOrdinal: int := 3652059

  predicate IsLeap(y: int) {
    y % 4 == 0 && (y % 100 != 0 || y % 400 == 0)
  }

  function DaysInYear(y: int): int {
    if IsLeap(y) then 366 else 365
  }

  /** `_DAYS_IN_MONTH`, without the leap day. */
  function DaysInMonthTable(m: int): int
    requires 1 <= m <= 12
  {
    if m == 2 then 28
    else if m == 4 || m == 6 || m == 9 || m == 11 then 30
    else 31
  }

  /** `_DAYS_BEFORE_MONTH`, without the leap day. */
  function DaysBeforeMonthTable(m: int): int
    requires 1 <= m <= 12
  {
    if m == 1 then 0 else if m == 2 then 31 else if m == 3 then 59
    else if m == 4 then 90 else if m == 5 then 120 else if m == 6 then 151
    else if m == 7 then 181 else if m == 8 then 212 else if m == 9 then 243
    else if m == 10 then 273 else if m == 11 then 304 else 334
  }

  function DaysInMonth(y: int, m: int): int
    requires 1 <= m <= 12
  {
    DaysInMonthTable(m) + (if m == 2 && IsLeap(y) then 1 else 0)
  }

  function DaysBeforeMonth(y: int, m: int): int
    requires 1 <= m <= 12
  {
    DaysBeforeMonthTable(m) + (if m > 2 && IsLeap(y) then 1 else 0)
  }

  /** Days in the years 1 .. y-1 (CPython's `_days_before_year`). */
  function DaysBeforeYear(y: int): int
    requires y >= 1
  {
    var p := y - 1;
    p * 365 + p / 4 - p / 100 + p / 400
  }

  ghost predicate ValidDate(d: Date) {
    1 <= d.year && 1 <= d.month <= 12 && 1 <= d.day <= DaysInMonth(d.year, d.month)
  }

  /** CPython's `_ymd2ord`. */
  function ToOrdinal(d: Date): int
    requires d.year >= 1 && 1 <= d.month <= 12
  {
    DaysBeforeYear(d.year) + DaysBeforeMonth(d.year, d.month) + d.day
  }

  /** CPython's `_ord2ymd`: split off 400-, 100-, 4- and 1-year cycles, then
      place the remaining day of the year in its month. */
  function FromOrdinal(n: int): Date
    requires n >= 1
  {
    var n0 := n - 1;
    var n400, r400 := n0 / 146097, n0 % 146097;
    var n100, r100 := r400 / 36524, r400 % 36524;
    var n4, r4 := r100 / 1461, r100 % 1461;
    var n1, r1 := r4 / 365, r4 % 365;
    FromCycles(n400, n100, n4, n1, r1)
  }

  /** The tail of `_ord2ymd`: the year from the cycle counts, Dec 31 of the
      previous year when a 4- or 400-year cycle is full, otherwise the month
      estimate `(n + 50) >> 5`, corrected down by one if it overshoots. */
  function FromCycles(n400: int, n100: int, n4: int, n1: int, r1: int): Date
    requires 0 <= r1 < 365
  {
    var year := n400 * 400 + 1 + n100 * 100 + n4 * 4 + n1;
    if n1 == 4 || n100 == 4 then
      Date(year - 1, 12, 31)
    else
      var leap := n1 == 3 && (n4 != 24 || n100 == 3);
      var month := (r1 + 50) / 32;
      var preceding := DaysBeforeMonthTable(month) + (if month > 2 && leap then 1 else 0);
      if preceding > r1 then
        var m := month - 1;
        var p := preceding - (DaysInMonthTable(m) + (if m == 2 && leap then 1 else 0));
        Date(year, m, r1 - p + 1)
      else
        Date(year, month, r1 - preceding + 1)
  }

  /** Python's `date.weekday()`: Monday is 0, Sunday is 6. */
  function Weekday(n: int): (w: int)
    ensures 0 <= w < 7
  {
    (n + 6) % 7
  }

  // ---------------------------------------------------------------------
  // Arithmetic behind the conversion

  lemma {:induction false} MulAtLeast(k: int, d: int)
    requires k > 0 && d >= 1
    ensures k * d >= k
    decreases d
  {
    if d > 1 {
      MulAtLeast(k, d - 1);
      assert k * d == k * (d - 1) + k;
    }
  }

  /** Quotient and remainder are unique. */
  lemma DivMod(x: int, k: int, q: int, r: int)
    requires k > 0 && x == k * q + r && 0 <= r < k
    ensures x / k == q && x % k == r
  {
    var q', r' := x / k, x % k;
    assert k * (q' - q) == r - r' by {
      assert k * q' + r' == k * q + r;
    }
    if q' > q {
      MulAtLeast(k, q' - q);
    } else if q' < q {
      assert k * (q - q') == r' - r;
      MulAtLeast(k, q - q');
    }
  }

  /** Advancing p by one bumps p / k exactly when p + 1 is a multiple of k. */
  lemma DivSucc(p: int, k: int)
    requires p >= 0 && k > 0
    ensures (p + 1) / k == p / k + (if (p + 1) % k == 0 then 1 else 0)
  {
    var q, r := p / k, p % k;
    if r + 1 < k {
      DivMod(p + 1, k, q, r + 1);
    } else {
      assert p + 1 == k * (q + 1) + 0;
      DivMod(p + 1, k, q + 1, 0);
    }
  }

  /** Days before the year y that starts a+b+c+e cycles after year 1. */
  lemma DaysBeforeYearCycles(y: int, a: int, b: int, c: int, e: int)
    requires a >= 0 && 0 <= b <= 3 && 0 <= c <= 24 && 0 <= e <= 3
    requires y == 400 * a + 100 * b + 4 * c + e + 1
    ensures DaysBeforeYear(y) == 146097 * a + 36524 * b + 1461 * c + 365 * e
  {
    var p := y - 1;
    DivMod(p, 4, 100 * a + 25 * b + c, e);
    DivMod(p, 100, 4 * a + b, 4 * c + e);
    DivMod(p, 400, a, 100 * b + 4 * c + e);
  }

  lemma LeapOfCycles(y: int, a: int, b: int, c: int, e: int)
    requires a >= 0 && 0 <= b <= 3 && 0 <= c <= 24 && 0 <= e <= 3
    requires y == 400 * a + 100 * b + 4 * c + e + 1
    ensures IsLeap(y) <==> (e == 3 && (c != 24 || b == 3))
  {
    DivMod(y, 4, 100 * a + 25 * b + c + (e + 1) / 4, (e + 1) % 4);
    if e == 3 {
      DivMod(y, 100, 4 * a + b + (4 * c + 4) / 100, (4 * c + 4) % 100);
      DivMod(y, 400, a + (100 * b + 4 * c + 4) / 400, (100 * b + 4 * c + 4) % 400);
    }
  }

  /** The month estimate of `_ord2ymd` finds the month holding day-of-year r. */
  lemma MonthOfDay(y: int, r: int)
    requires 0 <= r < DaysInYear(y)
    ensures var leap := IsLeap(y);
            var month := (r + 50) / 32;
            1 <= month <= 12 &&
            var preceding := DaysBeforeMonthTable(month) + (if month > 2 && leap then 1 else 0);
            (preceding > r ==>
               month >= 2 &&
               var m := month - 1;
               var p := preceding - (DaysInMonthTable(m) + (if m == 2 && leap then 1 else 0));
               p == DaysBeforeMonth(y, m) && p <= r < p + DaysInMonth(y, m)) &&
            (preceding <= r ==>
               preceding == DaysBeforeMonth(y, month) && r < preceding + DaysInMonth(y, month))
  {
  }

  /** Multiples of 400 are multiples of 100, which are multiples of 4. */
  lemma DivisibilityChain(y: int)
    requires y >= 0
    ensures y % 400 == 0 ==> y % 100 == 0
    ensures y % 100 == 0 ==> y % 4 == 0
  {
    if y % 400 == 0 {
      DivMod(y, 100, 4 * (y / 400), 0);
    }
    if y % 100 == 0 {
      DivMod(y, 4, 25 * (y / 100), 0);
    }
  }

  lemma DaysBeforeYearStep(y: int)
    requires y >= 1
    ensures DaysBeforeYear(y + 1) == DaysBeforeYear(y) + DaysInYear(y)
  {
    var p := y - 1;
    DivSucc(p, 4);
    DivSucc(p, 100);
    DivSucc(p, 400);
    DivisibilityChain(y);
    assert DaysBeforeYear(y + 1) == (p + 1) * 365 + y / 4 - y / 100 + y / 400;
    assert (p + 1) * 365 == p * 365 + 365;
  }

  lemma {:induction false} DaysBeforeYearMonotone(y1: int, y2: int)
    requires 1 <= y1 < y2
    ensures DaysBeforeYear(y1) + DaysInYear(y1) <= DaysBeforeYear(y2)
    decreases y2 - y1
  {
    DaysBeforeYearStep(y1);
    if y1 + 1 < y2 {
      DaysBeforeYearMonotone(y1 + 1, y2);
    }
  }

  lemma MonthsMonotone(y: int, m1: int, m2: int)
    requires 1 <= m1 < m2 <= 12
    ensures DaysBeforeMonth(y, m1) + DaysInMonth(y, m1) <= DaysBeforeMonth(y, m2)
  {
  }

  /** A valid date lies inside its own year. */
  lemma OrdinalInYear(d: Date)
    requires ValidDate(d)
    ensures DaysBeforeYear(d.year) < ToOrdinal(d) <= DaysBeforeYear(d.year) + DaysInYear(d.year)
  {
    if d.month < 12 {
      MonthsMonotone(d.year, d.month, 12);
    }
  }

  // ---------------------------------------------------------------------
  // The conversion is a bijection between ordinals >= 1 and valid dates

  /** What the four divisions of `_ord2ymd` leave: n - 1 as a sum of cycles. */
  lemma CyclesOf(n: int)
    requires n >= 1
    ensures var n0 := n - 1;
            var a, r400 := n0 / 146097, n0 % 146097;
            var b, r100 := r400 / 36524, r400 % 36524;
            var c, r4 := r100 / 1461, r100 % 1461;
            var e, r1 := r4 / 365, r4 % 365;
            CycleCounts(a, b, c, e, r1) && n == 146097 * a + 36524 * b + 1461 * c + 365 * e + r1 + 1
  {
  }

  ghost predicate CycleCounts(a: int, b: int, c: int, e: int, r: int) {
    a >= 0 && 0 <= b <= 4 && 0 <= c <= 24 && 0 <= e <= 4 && 0 <= r < 365 &&
    (b == 4 ==> c == 0 && e == 0 && r == 0) &&
    (e == 4 ==> r == 0 && c <= 23)
  }

  lemma FromCyclesCorrect(a: int, b: int, c: int, e: int, r: int)
    requires CycleCounts(a, b, c, e, r)
    ensures ValidDate(FromCycles(a, b, c, e, r))
    ensures ToOrdinal(FromCycles(a, b, c, e, r)) == 146097 * a + 36524 * b + 1461 * c + 365 * e + r + 1
  {
    if b == 4 {
      LastDayOf400Years(a);
    } else if e == 4 {
      LastDayOf4Years(a, b, c);
    } else {
      var y := FromCycles(a, b, c, e, r).year;
      assert y == 400 * a + 100 * b + 4 * c + e + 1;
      DaysBeforeYearCycles(y, a, b, c, e);
      LeapOfCycles(y, a, b, c, e);
      MonthOfDay(y, r);
    }
  }

  /** The last day of a 400-year cycle is Dec 31 of a year divisible by 400. */
  lemma LastDayOf400Years(a: int)
    requires a >= 0
    ensures ValidDate(FromCycles(a, 4, 0, 0, 0))
    ensures ToOrdinal(FromCycles(a, 4, 0, 0, 0)) == 146097 * a + 36524 * 4 + 1
  {
    var d := FromCycles(a, 4, 0, 0, 0);
    assert d == Date(400 * a + 400, 12, 31);
    DaysBeforeYearCycles(d.year, a, 3, 24, 3);
    DivMod(d.year, 400, a + 1, 0);
    DivMod(d.year, 100, 4 * a + 4, 0);
    assert IsLeap(d.year);
  }

  /** The last day of a 4-year cycle is Dec 31 of a leap year. */
  lemma LastDayOf4Years(a: int, b: int, c: int)
    requires a >= 0 && 0 <= b <= 3 && 0 <= c <= 23
    ensures ValidDate(FromCycles(a, b, c, 4, 0))
    ensures ToOrdinal(FromCycles(a, b, c, 4, 0)) == 146097 * a + 36524 * b + 1461 * c + 365 * 4 + 1
  {
    var d := FromCycles(a, b, c, 4, 0);
    assert d == Date(400 * a + 100 * b + 4 * c + 4, 12, 31);
    DaysBeforeYearCycles(d.year, a, b, c, 3);
    LeapOfCycles(d.year, a, b, c, 3);
    assert IsLeap(d.year);
  }

  /** `_ord2ymd` yields a valid date whose `_ymd2ord` is the ordinal given. */
  lemma FromOrdinalCorrect(n: int)
    requires n >= 1
    ensures ValidDate(FromOrdinal(n))
    ensures ToOrdinal(FromOrdinal(n)) == n
  {
    CyclesOf(n);
    var n0 := n - 1;
    var a, r400 := n0 / 146097, n0 % 146097;
    var b, r100 := r400 / 36524, r400 % 36524;
    var c, r4 := r100 / 1461, r100 % 1461;
    var e, r1 := r4 / 365, r4 % 365;
    FromCyclesCorrect(a, b, c, e, r1);
  }

  lemma ToOrdinalInjective(d1: Date, d2: Date)
    requires ValidDate(d1) && ValidDate(d2)
    requires ToOrdinal(d1) == ToOrdinal(d2)
    ensures d1 == d2
  {
    OrdinalInYear(d1);
    OrdinalInYear(d2);
    if d1.year < d2.year {
      DaysBeforeYearMonotone(d1.year, d2.year);
    } else if d2.year < d1.year {
      DaysBeforeYearMonotone(d2.year, d1.year);
    } else if d1.month < d2.month {
      MonthsMonotone(d1.year, d1.month, d2.month);
    } else if d2.month < d1.month {
      MonthsMonotone(d1.year, d2.month, d1.month);
    }
  }

  /** `_ymd2ord` is at least 1 on valid dates, and `_ord2ymd` undoes it. */
  lemma ToOrdinalCorrect(d: Date)
    requires ValidDate(d)
    ensures ToOrdinal(d) >= 1
    ensures FromOrdinal(ToOrdinal(d)) == d
  {
    var p := d.year - 1;
    assert p / 100 <= p / 4;
    FromOrdinalCorrect(ToOrdinal(d));
    ToOrdinalInjective(FromOrdinal(ToOrdinal(d)), d);
  }

  lemma BeyondYear9999(d: Date)
    requires ValidDate(d) && d.year > 9999
    ensures ToOrdinal(d) > MaxOrdinal
  {
    OrdinalInYear(d);
    if d.year > 10000 {
      DaysBeforeYearMonotone(10000, d.year);
    }
  }

  /** Ordinals up to MaxOrdinal are dates in the years 1 .. 9999. */
  lemma FromOrdinalYearBound(n: int)
    requires 1 <= n <= MaxOrdinal
    ensures 1 <= FromOrdinal(n).year <= 9999
  {
    FromOrdinalCorrect(n);
    if FromOrdinal(n).year > 9999 {
      BeyondYear9999(FromOrdinal(n));
    }
  }

  /** The ordinal of 1000-01-01, the first date whose year has four digits. */
  const FirstOrdinalOfYear1000: int := 364878

  lemma BeforeYear1000(d: Date)
    requires ValidDate(d) && d.year < 1000
    ensures ToOrdinal(d) < FirstOrdinalOfYear1000
  {
    OrdinalInYear(d);
    DaysBeforeYearMonotone(d.year, 1000);
  }

  /** Ordinals from 1000-01-01 to MaxOrdinal are dates in the years 1000 .. 9999. */
  lemma FromOrdinalFourDigitYear(n: int)
    requires FirstOrdinalOfYear1000 <= n <= MaxOrdinal
    ensures 1000 <= FromOrdinal(n).year <= 9999
  {
    FromOrdinalYearBound(n);
    FromOrdinalCorrect(n);
    if FromOrdinal(n).year < 1000 {
      BeforeYear1000(FromOrdinal(n));
    }
  }

  // ---------------------------------------------------------------------
  // strftime("%Y-%m-%d")

  predicate IsDigit(c: char) {
    '0' <= c <= '9'
  }

  function DigitChar(k: int): (c: char)
    requires 0 <= k < 10
    ensures IsDigit(c)
  {
    ('0' as int + k) as char
  }

  function Pow10(w: nat): (p: nat)
    ensures p >= 1
  {
    if w == 0 then 1 else 10 * Pow10(w - 1)
  }

  /** The last `width` decimal digits of n, zero padded. */
  function Digits(n: nat, width: nat): (s: string)
    ensures |s| == width
    ensures forall i :: 0 <= i < |s| ==> IsDigit(s[i])
  {
    if width == 0 then [] else Digits(n / 10, width - 1) + [DigitChar(n % 10)]
  }

  /** The number a string of decimal digits denotes. */
  function DigitsValue(s: string): nat
    requires forall i :: 0 <= i < |s| ==> IsDigit(s[i])
  {
    if s == [] then 0
    else
      var c := s[|s| - 1];
      assert IsDigit(c);
      DigitsValue(s[..|s| - 1]) * 10 + (c as int - '0' as int)
  }

  lemma {:induction false} DigitsRoundTrip(n: nat, width: nat)
    requires n < Pow10(width)
    ensures DigitsValue(Digits(n, width)) == n
  {
    if width > 0 {
      var s := Digits(n, width);
      assert s[..|s| - 1] == Digits(n / 10, width - 1);
      DigitsRoundTrip(n / 10, width - 1);
    }
  }

  /** A positive number in decimal without padding, as the C library's
      `%Y` prints a year. */
  function Decimal(n: nat): (s: string)
    requires n >= 1
    ensures |s| >= 1 && s[0] != '0'
    ensures forall i :: 0 <= i < |s| ==> IsDigit(s[i])
  {
    if n < 10 then [DigitChar(n)] else Decimal(n / 10) + [DigitChar(n % 10)]
  }

  lemma {:induction false} DecimalRoundTrip(n: nat)
    requires n >= 1
    ensures DigitsValue(Decimal(n)) == n
  {
    var s := Decimal(n);
    if n < 10 {
      assert s[..|s| - 1] == [];
    } else {
      assert s[..|s| - 1] == Decimal(n / 10);
      DecimalRoundTrip(n / 10);
    }
  }

  /** A number of exactly w digits prints as its w-digit padded form. */
  lemma {:induction false} DecimalOfWidth(n: nat, w: nat)
    requires w >= 1 && Pow10(w - 1) <= n < Pow10(w)
    ensures Decimal(n) == Digits(n, w)
  {
    if w > 1 {
      assert Pow10(w - 1) == 10 * Pow10(w - 2);
      assert n / 10 >= Pow10(w - 2) by {
        DivMod(n, 10, n / 10, n % 10);
      }
      DecimalOfWidth(n / 10, w - 1);
    } else {
      assert Digits(n / 10, 0) == [];
    }
  }

  /** RFC 3339 full-date shape: four digits, '-', two digits, '-', two digits. */
  predicate IsFullDateShape(s: string) {
    |s| == 10 && s[4] == '-' && s[7] == '-' &&
    forall i :: 0 <= i < 10 && i != 4 && i != 7 ==> IsDigit(s[i])
  }

  /** What `%Y-%m-%d` prints: a year of one or more digits, then '-', two
      digits, '-', two digits. */
  predicate IsDateKeyShape(s: string) {
    |s| >= 7 && s[|s| - 6] == '-' && s[|s| - 3] == '-' &&
    forall i :: 0 <= i < |s| && i != |s| - 6 && i != |s| - 3 ==> IsDigit(s[i])
  }

  /** `strftime("%Y-%m-%d")` as glibc renders it: the year unpadded, the
      month and day zero padded to two digits. */
  function FormatDate(d: Date): (s: string)
    requires 1 <= d.year && 0 <= d.month && 0 <= d.day
    ensures IsDateKeyShape(s)
  {
    Decimal(d.year) + "-" + Digits(d.month, 2) + "-" + Digits(d.day, 2)
  }

  /** From year 1000 on the rendering is the RFC 3339 full-date. */
  lemma FormatDateFullDate(d: Date)
    requires 1000 <= d.year <= 9999 && 0 <= d.month && 0 <= d.day
    ensures IsFullDateShape(FormatDate(d))
  {
    assert Pow10(3) == 1000 && Pow10(4) == 10000;
    DecimalOfWidth(d.year, 4);
  }

  /** Before year 1000 the year is not padded: 0005-01-01 prints as "5-01-01". */
  lemma ShortYearUnpadded()
    ensures FormatDate(Date(5, 1, 1)) == "5-01-01"
    ensures !IsFullDateShape(FormatDate(Date(5, 1, 1)))
  {
    assert Decimal(5) == "5";
    assert Digits(1, 2) == "01" by {
      assert Digits(0, 1) == "0";
    }
  }

  /** The rendering of a day from 1000-01-01 on is an RFC 3339 full-date. */
  lemma FormatFullDateFrom1000(n: int)
    requires 1 <= n <= MaxOrdinal
    ensures FromOrdinal(n).year >= 1
    ensures n >= FirstOrdinalOfYear1000 ==> IsFullDateShape(FormatDate(FromOrdinal(n)))
  {
    FromOrdinalCorrect(n);
    FromOrdinalYearBound(n);
    if n >= FirstOrdinalOfYear1000 {
      FromOrdinalFourDigitYear(n);
      FormatDateFullDate(FromOrdinal(n));
    }
  }

  /** Reads a rendered date back; the reference inverse of FormatDate. */
  function ParseDate(s: string): Date
    requires IsDateKeyShape(s)
  {
    Date(DigitsValue(s[..|s| - 6]), DigitsValue(s[|s| - 5..|s| - 3]), DigitsValue(s[|s| - 2..]))
  }

  lemma FormatDateRoundTrip(d: Date)
    requires ValidDate(d)
    ensures ParseDate(FormatDate(d)) == d
  {
    var s := FormatDate(d);
    var y := Decimal(d.year);
    assert s[..|s| - 6] == y;
    assert s[|s| - 5..|s| - 3] == Digits(d.month, 2);
    assert s[|s| - 2..] == Digits(d.day, 2);
    assert Pow10(2) == 100;
    DecimalRoundTrip(d.year);
    DigitsRoundTrip(d.month, 2);
    DigitsRoundTrip(d.day, 2);
  }
}
