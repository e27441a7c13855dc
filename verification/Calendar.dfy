/** Days since the Unix epoch as civil dates.  Both closed forms of the
    repository against the Gregorian calendar stepped day by day (leap rule of
    Appendix C of RFC 3339). */
module Calendar {

  datatype Date = Date(year: int, month: int, day: int)

  const EPOCH := Date(1970, 1, 1)

  // ----- the calendar ----------------------------------------------------------

  predicate IsLeap(year: int) {
    year % 4 == 0 && (year % 100 != 0 || year % 400 == 0)
  }

  function DaysInMonth(year: int, month: int): int {
    if month == 2 then (if IsLeap(year) then 29 else 28)
    else if month in {4, 6, 9, 11} then 30
    else 31
  }

  predicate IsDate(d: Date) {
    1 <= d.month <= 12 && 1 <= d.day <= DaysInMonth(d.year, d.month)
  }

  function NextDay(d: Date): Date {
    if d.day < DaysInMonth(d.year, d.month) then Date(d.year, d.month, d.day + 1)
    else if d.month < 12 then Date(d.year, d.month + 1, 1)
    else Date(d.year + 1, 1, 1)
  }

  /** The date `n` days after the epoch, counted one by one. */
  function Stepped(n: nat): Date {
    if n == 0 then EPOCH else NextDay(Stepped(n - 1))
  }

  // ----- the closed forms --------------------------------------------------------

  /** Division as the program's machine integers do it: toward zero. */
  function Quotient(a: int, b: int): int
    requires b > 0
  {
    if a >= 0 then a / b else -((-a) / b)
  }

  function YearOf(dayOfEra: int): int {
    Quotient(dayOfEra - Quotient(dayOfEra, 1460) + Quotient(dayOfEra, 36524) - Quotient(dayOfEra, 146096), 365)
  }

  function DayOf(dayOfEra: int, yearOfEra: int): int {
    dayOfEra - (365 * yearOfEra + Quotient(yearOfEra, 4) - Quotient(yearOfEra, 100))
  }

  /** Day `d` of the March-based year that starts in calendar year `y`. */
  function MarchDate(y: int, d: int): Date {
    var monthPrime := Quotient(5 * d + 2, 153);
    var day := d - Quotient(153 * monthPrime + 2, 5) + 1;
    var month := if monthPrime < 10 then monthPrime + 3 else monthPrime - 9;
    Date(if month <= 2 then y + 1 else y, month, day)
  }

  /** The part both forms share, from an era and the day within it. */
  function FromEra(era: int, dayOfEra: int): Date {
    var yearOfEra := YearOf(dayOfEra);
    MarchDate(yearOfEra + era * 400, DayOf(dayOfEra, yearOfEra))
  }

  /** The logger's form; its argument is never negative there. */
  function DaysToCivil(days: int): Date {
    var shifted := days + 719468;
    var era := Quotient(shifted, 146097);
    FromEra(era, shifted - era * 146097)
  }

  /** The probe's form, for days before the epoch as well. */
  function CivilFromDays(z: int): Date {
    var shifted := z + 719468;
    var era := Quotient(if shifted >= 0 then shifted else shifted - 146096, 146097);
    FromEra(era, shifted - era * 146097)
  }

  // ----- the structure of an era -----------------------------------------------------

  /** A day of a 400-year era, by century, four-year cycle, year and day; years
      start in March, so a leap day is the last day of its year. */
  predicate Splits(dayOfEra: int, b: int, k: int, j: int, d: int) {
    && 0 <= b <= 3 && 0 <= k <= 24 && 0 <= j <= 3 && 0 <= d <= 365
    && (d == 365 ==> j == 3 && (k < 24 || b == 3))
    && dayOfEra == 36524 * b + 1461 * k + 365 * j + d
  }

  lemma Split(dayOfEra: int) returns (b: int, k: int, j: int, d: int)
    requires 0 <= dayOfEra <= 146096
    ensures Splits(dayOfEra, b, k, j, d)
  {
    b := if dayOfEra / 36524 > 3 then 3 else dayOfEra / 36524;
    var r := dayOfEra - 36524 * b;
    k := if r / 1461 > 24 then 24 else r / 1461;
    var q := r - 1461 * k;
    j := if q / 365 > 3 then 3 else q / 365;
    d := q - 365 * j;
  }

  /** The corrections of the closed form add up to exactly the year. */
  lemma YearOfEra(dayOfEra: int, b: int, k: int, j: int, d: int)
    requires Splits(dayOfEra, b, k, j, d)
    ensures YearOf(dayOfEra) == 100 * b + 4 * k + j
  {
    var rest := 24 * b + k + 365 * j + d;
    var extra := if rest >= 1460 then 1 else 0;
    assert dayOfEra == 1460 * (25 * b + k + extra) + (rest - 1460 * extra) && 0 <= rest - 1460 * extra < 1460;
    assert dayOfEra / 1460 == 25 * b + k + extra;
    var last := if dayOfEra == 146096 then 1 else 0;
    assert dayOfEra / 36524 == b + last && dayOfEra / 146096 == last;
    assert 0 <= d - extra <= 364;
  }

  lemma DayOfYear(dayOfEra: int, b: int, k: int, j: int, d: int)
    requires Splits(dayOfEra, b, k, j, d)
    ensures DayOf(dayOfEra, 100 * b + 4 * k + j) == d
  {
    var y := 100 * b + 4 * k + j;
    assert y / 4 == 25 * b + k && y / 100 == b;
  }

  /** The first day of the March-based month `m`. */
  function MonthStart(m: int): int {
    (153 * m + 2) / 5
  }

  function MonthOf(m: int): int {
    if m < 10 then m + 3 else m - 9
  }

  /** Day `d` of a March-based year falls in month `m` of it. */
  lemma MonthOfDay(d: int)
    requires 0 <= d <= 365
    ensures var m := (5 * d + 2) / 153;
            0 <= m <= 11 && MonthStart(m) <= d && (m < 11 ==> d < MonthStart(m + 1))
  {}

  lemma MarchDateForm(y: int, d: int, m: int)
    requires 0 <= d <= 365 && 0 <= m <= 11 && MonthStart(m) <= d && (m < 11 ==> d < MonthStart(m + 1))
    ensures MarchDate(y, d) == Date(if MonthOf(m) <= 2 then y + 1 else y, MonthOf(m), d - MonthStart(m) + 1)
  {
    assert (5 * d + 2) / 153 == m;
  }

  /** The last day of a March-based year ends the next calendar year's February. */
  function LastDay(y: int): int {
    if IsLeap(y + 1) then 365 else 364
  }

  lemma MarchDateNext(y: int, d: int)
    requires 0 <= d <= LastDay(y)
    ensures NextDay(MarchDate(y, d)) == if d < LastDay(y) then MarchDate(y, d + 1) else MarchDate(y + 1, 0)
    ensures IsDate(MarchDate(y, d))
  {
    MonthOfDay(d);
    var m := (5 * d + 2) / 153;
    MarchDateForm(y, d, m);
    if d == LastDay(y) {
      MarchDateForm(y + 1, 0, 0);
    } else if m < 11 && d + 1 == MonthStart(m + 1) {
      MarchDateForm(y, d + 1, m + 1);
    } else {
      MarchDateForm(y, d + 1, m);
    }
    MonthEnds(y, m);
  }

  /** The closed form's months have the calendar's lengths. */
  lemma MonthEnds(y: int, m: int)
    requires 0 <= m <= 11
    ensures DaysInMonth(if MonthOf(m) <= 2 then y + 1 else y, MonthOf(m)) ==
              (if m < 11 then MonthStart(m + 1) else LastDay(y) + 1) - MonthStart(m)
  {
    assert m in {0, 1, 2, 3, 4, 5, 6, 7, 8, 9, 10, 11};
  }

  lemma Residue4(q: int, x: int)
    ensures (4 * q + x) % 4 == x % 4
  {
    assert 4 * q + x == 4 * (q + x / 4) + x % 4;
  }

  lemma Residue100(q: int, x: int)
    ensures (100 * q + x) % 100 == x % 100
  {
    assert 100 * q + x == 100 * (q + x / 100) + x % 100;
  }

  lemma Residue400(q: int, x: int)
    ensures (400 * q + x) % 400 == x % 400
  {
    assert 400 * q + x == 400 * (q + x / 400) + x % 400;
  }

  /** Which March-based years of an era are leap: the last of each four-year
      cycle, except three of the four that end a century. */
  lemma LeapInEra(era: int, b: int, k: int, j: int)
    requires 0 <= b <= 3 && 0 <= k <= 24 && 0 <= j <= 3
    ensures LastDay(400 * era + 100 * b + 4 * k + j) == if j == 3 && (k < 24 || b == 3) then 365 else 364
  {
    var y := 400 * era + 100 * b + 4 * k + j + 1;
    Residue4(100 * era + 25 * b + k, j + 1);
    assert y == 4 * (100 * era + 25 * b + k) + (j + 1);
    Residue100(4 * era + b, 4 * k + j + 1);
    assert y == 100 * (4 * era + b) + (4 * k + j + 1);
    Residue400(era, 100 * b + 4 * k + j + 1);
    assert y == 400 * era + (100 * b + 4 * k + j + 1);
    LeapResidues(b, k, j, y);
  }

  lemma LeapResidues(b: int, k: int, j: int, y: int)
    requires 0 <= b <= 3 && 0 <= k <= 24 && 0 <= j <= 3
    requires y % 4 == (j + 1) % 4 && y % 100 == (4 * k + j + 1) % 100 && y % 400 == (100 * b + 4 * k + j + 1) % 400
    ensures IsLeap(y) <==> j == 3 && (k < 24 || b == 3)
  {}

  /** Day `dayOfEra` of the era is day `d` of the March-based year `y`. */
  ghost predicate At(era: int, dayOfEra: int, y: int, d: int) {
    exists b, k, j :: Splits(dayOfEra, b, k, j, d) && y == 400 * era + 100 * b + 4 * k + j
  }

  lemma AtIntro(era: int, dayOfEra: int, y: int, b: int, k: int, j: int, d: int)
    requires Splits(dayOfEra, b, k, j, d) && y == 400 * era + 100 * b + 4 * k + j
    ensures At(era, dayOfEra, y, d)
  {}

  lemma Locate(era: int, dayOfEra: int) returns (y: int, d: int)
    requires 0 <= dayOfEra <= 146096
    ensures At(era, dayOfEra, y, d)
  {
    var b, k, j;
    b, k, j, d := Split(dayOfEra);
    y := 400 * era + 100 * b + 4 * k + j;
  }

  lemma AtDate(era: int, dayOfEra: int, y: int, d: int)
    requires At(era, dayOfEra, y, d)
    ensures FromEra(era, dayOfEra) == MarchDate(y, d)
  {
    var b, k, j :| Splits(dayOfEra, b, k, j, d) && y == 400 * era + 100 * b + 4 * k + j;
    YearOfEra(dayOfEra, b, k, j, d);
    DayOfYear(dayOfEra, b, k, j, d);
  }

  lemma AtRange(era: int, dayOfEra: int, y: int, d: int)
    requires At(era, dayOfEra, y, d)
    ensures 0 <= d <= LastDay(y)
  {
    var b, k, j :| Splits(dayOfEra, b, k, j, d) && y == 400 * era + 100 * b + 4 * k + j;
    LeapInEra(era, b, k, j);
  }

  lemma AtNext(era: int, dayOfEra: int, y: int, d: int)
    requires At(era, dayOfEra, y, d) && dayOfEra < 146096
    ensures if d < LastDay(y) then At(era, dayOfEra + 1, y, d + 1) else At(era, dayOfEra + 1, y + 1, 0)
  {
    var b, k, j :| Splits(dayOfEra, b, k, j, d) && y == 400 * era + 100 * b + 4 * k + j;
    LeapInEra(era, b, k, j);
    if d < LastDay(y) {
      assert Splits(dayOfEra + 1, b, k, j, d + 1);
    } else if j < 3 {
      assert Splits(dayOfEra + 1, b, k, j + 1, 0) && y + 1 == 400 * era + 100 * b + 4 * k + (j + 1);
    } else if k < 24 {
      assert Splits(dayOfEra + 1, b, k + 1, 0, 0) && y + 1 == 400 * era + 100 * b + 4 * (k + 1) + 0;
    } else {
      assert Splits(dayOfEra + 1, b + 1, 0, 0, 0) && y + 1 == 400 * era + 100 * (b + 1) + 4 * 0 + 0;
    }
  }

  lemma AtNextDay(era: int, dayOfEra: int, y: int, d: int) returns (y': int, d': int)
    requires At(era, dayOfEra, y, d) && dayOfEra < 146096
    ensures At(era, dayOfEra + 1, y', d') && MarchDate(y', d') == NextDay(MarchDate(y, d))
  {
    AtRange(era, dayOfEra, y, d);
    MarchDateNext(y, d);
    AtNext(era, dayOfEra, y, d);
    y', d' := if d < LastDay(y) then y else y + 1, if d < LastDay(y) then d + 1 else 0;
  }

  /** Within an era, one day later is the next calendar day. */
  lemma EraStep(era: int, dayOfEra: int)
    requires 0 <= dayOfEra < 146096
    ensures FromEra(era, dayOfEra + 1) == NextDay(FromEra(era, dayOfEra))
  {
    var y, d := Locate(era, dayOfEra);
    var y', d' := AtNextDay(era, dayOfEra, y, d);
    AtDate(era, dayOfEra, y, d);
    AtDate(era, dayOfEra + 1, y', d');
  }

  lemma AtTurn(era: int, y: int)
    requires y == 400 * era + 399
    ensures At(era, 146096, y, 365) && At(era + 1, 0, y + 1, 0)
  {
    AtIntro(era, 146096, y, 3, 24, 3, 365);
    AtIntro(era + 1, 0, y + 1, 0, 0, 0, 0);
  }

  lemma TurnNext(era: int, y: int)
    requires At(era, 146096, y, 365)
    ensures NextDay(MarchDate(y, 365)) == MarchDate(y + 1, 0)
  {
    AtRange(era, 146096, y, 365);
    MarchDateNext(y, 365);
  }

  /** The last day of an era is followed by the first of the next. */
  lemma EraTurn(era: int)
    ensures FromEra(era + 1, 0) == NextDay(FromEra(era, 146096))
  {
    var y := 400 * era + 399;
    AtTurn(era, y);
    AtDate(era, 146096, y, 365);
    AtDate(era + 1, 0, y + 1, 0);
    TurnNext(era, y);
  }

  lemma EraOf(z: int)
    ensures var e := if z >= 0 then z else z - 146096; Quotient(e, 146097) == z / 146097
  {}

  lemma SignedForm(z: int)
    ensures var n := z + 719468; CivilFromDays(z) == FromEra(n / 146097, n % 146097)
  {
    EraOf(z + 719468);
  }

  /** One day later is the next calendar day, before the epoch and after. */
  lemma CivilStep(z: int)
    ensures CivilFromDays(z + 1) == NextDay(CivilFromDays(z))
  {
    SignedForm(z);
    SignedForm(z + 1);
    var n := z + 719468;
    if n % 146097 < 146096 {
      assert (n + 1) / 146097 == n / 146097 && (n + 1) % 146097 == n % 146097 + 1;
      EraStep(n / 146097, n % 146097);
    } else {
      assert (n + 1) / 146097 == n / 146097 + 1 && (n + 1) % 146097 == 0;
      EraTurn(n / 146097);
    }
  }

  // ----- the theorems -------------------------------------------------------------------

  lemma EraAtEpoch()
    ensures FromEra(4, 135080) == EPOCH
  {
    assert Splits(135080, 3, 17, 1, 306) && 1969 == 400 * 4 + 100 * 3 + 4 * 17 + 1;
    AtDate(4, 135080, 1969, 306);
    MarchDateForm(1969, 306, 10);
  }

  lemma CivilAtEpoch()
    ensures CivilFromDays(0) == EPOCH
  {
    EraAtEpoch();
    SignedForm(0);
  }

  /** The closed form is the calendar: its value after `n` days is what `n`
      single steps from 1970-01-01 reach. */
  lemma {:induction false} CivilIsStepped(n: nat)
    ensures CivilFromDays(n) == Stepped(n)
    decreases n
  {
    if n == 0 {
      CivilAtEpoch();
    } else {
      CivilIsStepped(n - 1);
      CivilStep(n - 1);
    }
  }

  /** The logger's form agrees with the signed one from the first day of year 0
      (in March) on, in particular for every day count it is ever given. */
  lemma FormsAgree(days: int)
    requires days >= -719468
    ensures DaysToCivil(days) == CivilFromDays(days)
  {}

  lemma LoggerFormIsStepped(n: nat)
    ensures DaysToCivil(n) == Stepped(n)
  {
    FormsAgree(n);
    CivilIsStepped(n);
  }

  /** Every value is a real date. */
  lemma CivilValid(z: int)
    ensures IsDate(CivilFromDays(z))
  {
    SignedForm(z);
    var n := z + 719468;
    var y, d := Locate(n / 146097, n % 146097);
    AtDate(n / 146097, n % 146097, y, d);
    AtRange(n / 146097, n % 146097, y, d);
    MarchDateNext(y, d);
  }

  /** Calendar order of dates. */
  predicate Before(a: Date, b: Date) {
    a.year < b.year || (a.year == b.year && (a.month < b.month || (a.month == b.month && a.day < b.day)))
  }

  lemma NextDayLater(a: Date)
    requires IsDate(a)
    ensures Before(a, NextDay(a)) && IsDate(NextDay(a))
  {}

  lemma CivilLater(z: int)
    ensures Before(CivilFromDays(z), CivilFromDays(z + 1))
  {
    CivilValid(z);
    CivilStep(z);
    NextDayLater(CivilFromDays(z));
  }

  /** Earlier days are earlier dates. */
  lemma {:induction false} CivilMonotone(x: int, y: int)
    requires x < y
    ensures Before(CivilFromDays(x), CivilFromDays(y))
    decreases y - x
  {
    CivilLater(y - 1);
    if x < y - 1 { CivilMonotone(x, y - 1); }
  }

  // ----- the inverse --------------------------------------------------------------------

  /** The day count of a date. */
  function DayNumber(date: Date): int {
    var y := if date.month <= 2 then date.year - 1 else date.year;
    var yearOfEra := y % 400;
    var dayOfYear := MonthStart(if date.month > 2 then date.month - 3 else date.month + 9) + date.day - 1;
    y / 400 * 146097 + (365 * yearOfEra + yearOfEra / 4 - yearOfEra / 100 + dayOfYear) - 719468
  }

  /** Days of an era before its March-based year `r`. */
  function YearStart(r: int): int {
    365 * r + r / 4 - r / 100
  }

  lemma MarchDayNumber(y: int, d: int)
    requires 0 <= d <= 365
    ensures DayNumber(MarchDate(y, d)) == y / 400 * 146097 + (YearStart(y % 400) + d) - 719468
  {
    MonthOfDay(d);
    MarchDateForm(y, d, (5 * d + 2) / 153);
  }

  lemma AtNumber(era: int, dayOfEra: int, y: int, d: int)
    requires At(era, dayOfEra, y, d)
    ensures y / 400 == era && YearStart(y % 400) + d == dayOfEra
  {
    var b, k, j :| Splits(dayOfEra, b, k, j, d) && y == 400 * era + 100 * b + 4 * k + j;
    var r := 100 * b + 4 * k + j;
    assert y / 400 == era && y % 400 == r;
    assert r / 4 == 25 * b + k && r / 100 == b;
  }

  /** The closed form can be undone. */
  lemma CivilInverts(z: int)
    ensures DayNumber(CivilFromDays(z)) == z
  {
    SignedForm(z);
    var n := z + 719468;
    var y, d := Locate(n / 146097, n % 146097);
    AtDate(n / 146097, n % 146097, y, d);
    AtRange(n / 146097, n % 146097, y, d);
    AtNumber(n / 146097, n % 146097, y, d);
    MarchDayNumber(y, d);
  }

  lemma AtYear(y: int, d: int)
    requires 0 <= d <= LastDay(y)
    ensures At(y / 400, YearStart(y % 400) + d, y, d) && 0 <= YearStart(y % 400) + d <= 146096
  {
    var r := y % 400;
    var b, k, j := r / 100, r % 100 / 4, r % 4;
    assert r == 100 * b + 4 * k + j;
    assert r / 4 == 25 * b + k;
    LeapInEra(y / 400, b, k, j);
    assert Splits(YearStart(r) + d, b, k, j, d);
  }

  lemma EraDivides(n: int, era: int, dayOfEra: int)
    requires 0 <= dayOfEra <= 146096 && n == era * 146097 + dayOfEra
    ensures n / 146097 == era && n % 146097 == dayOfEra
  {}

  lemma CivilIsEra(z: int, era: int, dayOfEra: int)
    requires 0 <= dayOfEra <= 146096 && z + 719468 == era * 146097 + dayOfEra
    ensures CivilFromDays(z) == FromEra(era, dayOfEra)
  {
    EraDivides(z + 719468, era, dayOfEra);
    SignedForm(z);
  }

  lemma AtCivil(z: int, era: int, dayOfEra: int, y: int, d: int)
    requires At(era, dayOfEra, y, d) && 0 <= dayOfEra <= 146096 && z + 719468 == era * 146097 + dayOfEra
    ensures CivilFromDays(z) == MarchDate(y, d)
  {
    CivilIsEra(z, era, dayOfEra);
    AtDate(era, dayOfEra, y, d);
  }

  /** The closed form at day `d` of March-based year `y`. */
  lemma CivilOfYear(z: int, y: int, d: int)
    requires 0 <= d <= LastDay(y) && z == y / 400 * 146097 + (YearStart(y % 400) + d) - 719468
    ensures CivilFromDays(z) == MarchDate(y, d)
  {
    AtYear(y, d);
    AtCivil(z, y / 400, YearStart(y % 400) + d, y, d);
  }

  /** A day of a month is a day of its March-based year, in that month. */
  lemma DateInYear(date: Date) returns (y: int, d: int)
    requires IsDate(date)
    ensures 0 <= d <= LastDay(y) && MarchDate(y, d) == date
  {
    y := if date.month <= 2 then date.year - 1 else date.year;
    var m := if date.month > 2 then date.month - 3 else date.month + 9;
    d := MonthStart(m) + date.day - 1;
    MonthEnds(y, m);
    assert m in {0, 1, 2, 3, 4, 5, 6, 7, 8, 9, 10, 11};
    MarchDateForm(y, d, m);
  }

  /** Every date is the value of a day count: with the inverse above, of
      exactly one. */
  lemma CivilOnto(date: Date)
    requires IsDate(date)
    ensures CivilFromDays(DayNumber(date)) == date
  {
    var y, d := DateInYear(date);
    MarchDayNumber(y, d);
    CivilOfYear(DayNumber(date), y, d);
  }
}
