/**
 * Business days: the civil calendar as ECMAScript's `Date` computes it (section
 * 21.4.1 of ECMA-262), Easter, the Cuban holidays and the delivery deadline.
 * Years start in 1583, the first whole year of the Gregorian calendar.
 */
module Calendar {
  import opened Wrappers

  datatype Civil = Civil(year: int, month: int, day: int)

  // ---------------- Day numbers ----------------

  const FIRST_YEAR := 1583

  predicate Leap(y: int) {
    y % 4 == 0 && (y % 100 != 0 || y % 400 == 0)
  }

  function YearLength(y: int): int {
    if Leap(y) then 366 else 365
  }

  /** Days from 1 January 1970 to 1 January of the year. */
  function DayFromYear(y: int): int {
    365 * (y - 1970) + (y - 1969) / 4 - (y - 1901) / 100 + (y - 1601) / 400
  }

  /** Days of the year before the month starts. */
  function MonthStart(m: int, leap: bool): int {
    var extra := if leap then 1 else 0;
    if m <= 1 then 0
    else if m == 2 then 31
    else if m == 3 then 59 + extra
    else if m == 4 then 90 + extra
    else if m == 5 then 120 + extra
    else if m == 6 then 151 + extra
    else if m == 7 then 181 + extra
    else if m == 8 then 212 + extra
    else if m == 9 then 243 + extra
    else if m == 10 then 273 + extra
    else if m == 11 then 304 + extra
    else if m == 12 then 334 + extra
    else 365 + extra
  }

  predicate Exists(c: Civil) {
    && c.year >= FIRST_YEAR && 1 <= c.month <= 12
    && 1 <= c.day <= MonthStart(c.month + 1, Leap(c.year)) - MonthStart(c.month, Leap(c.year))
  }

  /** `Date.UTC(y, m - 1, d)` in days; the day may overflow the month on either side. */
  function UtcDay(y: int, m: int, d: int): int {
    DayFromYear(y) + MonthStart(m, Leap(y)) + d - 1
  }

  function DayNumber(c: Civil): int {
    UtcDay(c.year, c.month, c.day)
  }

  /** `getUTCDay`: 0 is Sunday. */
  function WeekDay(n: int): int {
    (n + 4) % 7
  }

  /** The largest year that starts on or before the day, searched from `y` on. */
  function YearFrom(n: int, y: int): int
    decreases n - DayFromYear(y)
  {
    YearGrows(y);
    if DayFromYear(y + 1) <= n then YearFrom(n, y + 1) else y
  }

  function MonthOf(inYear: int, leap: bool): int {
    if inYear < MonthStart(2, leap) then 1
    else if inYear < MonthStart(3, leap) then 2
    else if inYear < MonthStart(4, leap) then 3
    else if inYear < MonthStart(5, leap) then 4
    else if inYear < MonthStart(6, leap) then 5
    else if inYear < MonthStart(7, leap) then 6
    else if inYear < MonthStart(8, leap) then 7
    else if inYear < MonthStart(9, leap) then 8
    else if inYear < MonthStart(10, leap) then 9
    else if inYear < MonthStart(11, leap) then 10
    else if inYear < MonthStart(12, leap) then 11
    else 12
  }

  /** The civil date of a day number: `getUTCFullYear`, `getUTCMonth`, `getUTCDate`. */
  function FromDay(n: int): Civil {
    var y := YearFrom(n, FIRST_YEAR);
    var inYear := n - DayFromYear(y);
    var m := MonthOf(inYear, Leap(y));
    Civil(y, m, inYear - MonthStart(m, Leap(y)) + 1)
  }

  lemma FourthsGrow(y: int)
    ensures (y - 1968) / 4 == (y - 1969) / 4 + if y % 4 == 0 then 1 else 0
  {
  }

  lemma CenturiesGrow(y: int)
    ensures (y - 1900) / 100 == (y - 1901) / 100 + if y % 100 == 0 then 1 else 0
  {
  }

  lemma FourCenturiesGrow(y: int)
    ensures (y - 1600) / 400 == (y - 1601) / 400 + if y % 400 == 0 then 1 else 0
  {
  }

  /** Every fourth century is a century, and every century a fourth year. */
  lemma RoundYears(y: int)
    ensures y % 400 == 0 ==> y % 100 == 0
    ensures y % 100 == 0 ==> y % 4 == 0
  {
    HundredsOfFours(y);
    FourHundreds(y);
  }

  lemma HundredsOfFours(y: int)
    ensures y % 100 == 0 ==> y % 4 == 0
  {
    assert y == 100 * (y / 100) + y % 100;
    if y % 100 == 0 {
      assert y == 4 * (25 * (y / 100));
    }
  }

  lemma FourHundreds(y: int)
    ensures y % 400 == 0 ==> y % 100 == 0
  {
    assert y == 400 * (y / 400) + y % 400;
    if y % 400 == 0 {
      assert y == 100 * (4 * (y / 400));
    }
  }

  lemma YearGrows(y: int)
    ensures DayFromYear(y + 1) == DayFromYear(y) + YearLength(y)
  {
    FourthsGrow(y);
    CenturiesGrow(y);
    FourCenturiesGrow(y);
    RoundYears(y);
  }

  lemma {:induction false} YearFromIs(n: int, from: int, y: int)
    requires from <= y && DayFromYear(y) <= n < DayFromYear(y + 1)
    ensures YearFrom(n, from) == y
    decreases y - from
  {
    if from < y {
      YearsGrow(from + 1, y);
      YearFromIs(n, from + 1, y);
    }
  }

  lemma {:induction false} YearsGrow(a: int, b: int)
    requires a <= b
    ensures DayFromYear(b) >= DayFromYear(a) + 365 * (b - a)
    decreases b - a
  {
    if a < b {
      YearGrows(b - 1);
      YearsGrow(a, b - 1);
    }
  }

  lemma {:induction false} YearFromBounds(n: int, from: int)
    requires DayFromYear(from) <= n
    ensures var y := YearFrom(n, from); from <= y && DayFromYear(y) <= n < DayFromYear(y + 1)
    decreases n - DayFromYear(from)
  {
    hide DayFromYear, Leap;
    YearGrows(from);
    if DayFromYear(from + 1) <= n {
      YearFromBounds(n, from + 1);
    }
  }

  /** Date to day number and back. */
  lemma DateRoundTrip(c: Civil)
    requires Exists(c)
    ensures FromDay(DayNumber(c)) == c
  {
    hide YearFrom, DayFromYear, MonthOf, MonthStart, Leap;
    DayInYear(c);
    YearGrows(c.year);
    YearFromIs(DayNumber(c), FIRST_YEAR, c.year);
  }

  /** A date lies in its year, on a day that its month and no other has. */
  lemma DayInYear(c: Civil)
    requires Exists(c)
    ensures var leap := Leap(c.year);
            var inYear := MonthStart(c.month, leap) + c.day - 1;
            0 <= inYear < YearLength(c.year) && MonthOf(inYear, leap) == c.month
  {
  }

  /** Day number to date and back; every such date exists. */
  lemma DayRoundTrip(n: int)
    requires n >= DayFromYear(FIRST_YEAR)
    ensures Exists(FromDay(n)) && DayNumber(FromDay(n)) == n
  {
    hide YearFrom, DayFromYear, MonthOf, MonthStart, Leap;
    var y := YearFrom(n, FIRST_YEAR);
    YearFromBounds(n, FIRST_YEAR);
    YearGrows(y);
    MonthFits(n - DayFromYear(y), Leap(y));
  }

  /** The month of a day of the year starts on or before it, and the next one after it. */
  lemma MonthFits(inYear: int, leap: bool)
    requires 0 <= inYear < if leap then 366 else 365
    ensures var m := MonthOf(inYear, leap);
            1 <= m <= 12 && MonthStart(m, leap) <= inYear < MonthStart(m + 1, leap)
  {
  }

  /** The months as everybody knows them, the leap years, and where the counting of days starts. */
  lemma MonthsAre(c: Civil)
    ensures Exists(c) <==>
            && c.year >= 1583 && 1 <= c.month <= 12 && 1 <= c.day
            && c.day <= (if c.month in {4, 6, 9, 11} then 30
                         else if c.month != 2 then 31
                         else if c.year % 4 == 0 && (c.year % 100 != 0 || c.year % 400 == 0) then 29
                         else 28)
    ensures DayNumber(Civil(1970, 1, 1)) == 0 && WeekDay(DayNumber(Civil(1970, 1, 1))) == 4
  {
  }

  // ---------------- Easter ----------------

  /** `domingoDePascua`: the Meeus/Jones/Butcher algorithm, month and day. */
  function Easter(y: int): (int, int) {
    var a := y % 19;
    var b := y / 100;
    var c := y % 100;
    var d := b / 4;
    var e := b % 4;
    var f := (b + 8) / 25;
    var g := (b - f + 1) / 3;
    var h := (19 * a + b - d - g + 15) % 30;
    var i := c / 4;
    var k := c % 4;
    var l := (32 + 2 * e + 2 * i - h - k) % 7;
    var m := (a + 11 * h + 22 * l) / 451;
    ((h + l - 7 * m + 114) / 31, (h + l - 7 * m + 114) % 31 + 1)
  }

  /** Days from 21 March to the paschal full moon, before the two exceptions of the Gregorian tables. */
  function MoonAge(y: int): int {
    var b := y / 100;
    (19 * (y % 19) + b - b / 4 - (b - (b + 8) / 25 + 1) / 3 + 15) % 30
  }

  /** Days from the day after the (unadjusted) full moon to a Sunday. */
  function ToSunday(y: int): int {
    (32 + 2 * (y / 100 % 4) + 2 * (y % 100 / 4) - MoonAge(y) - y % 100 % 4) % 7
  }

  /** The two exceptions of the tables: the full moon is pulled in by one day. */
  predicate Exceptional(y: int) {
    MoonAge(y) == 29 || (MoonAge(y) == 28 && y % 19 > 10)
  }

  /** The paschal full moon as a day number: 21 March plus the tabular age, with the two exceptional years pulled in. */
  function PaschalFullMoon(y: int): int {
    UtcDay(y, 3, 21) + MoonAge(y) - if Exceptional(y) then 1 else 0
  }

  /** Days from 22 March to Easter. */
  function EasterOffset(y: int): int {
    MoonAge(y) + ToSunday(y) - if Exceptional(y) && ToSunday(y) == 6 then 7 else 0
  }

  /** Day number of 22 March in terms of the quotients the algorithm takes of the year. */
  lemma MarchDay(y: int, d: int, e: int, i: int, k: int)
    requires 0 <= e < 4 && 0 <= i < 25 && 0 <= k < 4
    requires y == 400 * d + 100 * e + 4 * i + k
    ensures UtcDay(y, 3, 22) == 146097 * d + 36524 * e + 1461 * i + 365 * k - 719447
  {
    hide Leap;
    FourthsOf(y, 100 * d + 25 * e + i, k);
    CenturiesOf(y, 4 * d + e, 4 * i + k);
    FourCenturiesOf(y, d, 100 * e + 4 * i + k);
    LeapIf(y, d, e, i, k);
  }

  lemma FourthsOf(y: int, q: int, k: int)
    requires y == 4 * q + k && 0 <= k < 4
    ensures (y - 1969) / 4 == q - 493 + if k == 0 then 0 else 1
  {
    if k == 0 {
      ByFour(y - 1969, q - 493, 3);
    } else {
      ByFour(y - 1969, q - 492, k - 1);
    }
  }

  lemma CenturiesOf(y: int, q: int, c: int)
    requires y == 100 * q + c && 0 <= c < 100
    ensures (y - 1901) / 100 == q - 20 + if c == 0 then 0 else 1
  {
    if c == 0 {
      ByHundred(y - 1901, q - 20, 99);
    } else {
      ByHundred(y - 1901, q - 19, c - 1);
    }
  }

  lemma FourCenturiesOf(y: int, d: int, r: int)
    requires y == 400 * d + r && 0 <= r < 400
    ensures (y - 1601) / 400 == d - 5 + if r == 0 then 0 else 1
  {
    if r == 0 {
      ByFourHundred(y - 1601, d - 5, 399);
    } else {
      ByFourHundred(y - 1601, d - 4, r - 1);
    }
  }

  lemma LeapIf(y: int, d: int, e: int, i: int, k: int)
    requires 0 <= e < 4 && 0 <= i < 25 && 0 <= k < 4
    requires y == 400 * d + 100 * e + 4 * i + k
    ensures Leap(y) <==> k == 0 && (i != 0 || e == 0)
  {
    ByFour(y, 100 * d + 25 * e + i, k);
    ByHundred(y, 4 * d + e, 4 * i + k);
    ByFourHundred(y, d, 100 * e + 4 * i + k);
  }

  lemma ByFour(x: int, q: int, r: int)
    requires x == 4 * q + r && 0 <= r < 4
    ensures x / 4 == q && x % 4 == r
  {
  }

  lemma ByHundred(x: int, q: int, r: int)
    requires x == 100 * q + r && 0 <= r < 100
    ensures x / 100 == q && x % 100 == r
  {
  }

  lemma ByFourHundred(x: int, q: int, r: int)
    requires x == 400 * q + r && 0 <= r < 400
    ensures x / 400 == q && x % 400 == r
  {
  }

  /** The quotients the algorithm takes of the year make it up. */
  lemma YearParts(y: int)
    requires y >= 0
    ensures var b, c := y / 100, y % 100;
            && 0 <= b % 4 < 4 && 0 <= c / 4 < 25 && 0 <= c % 4 < 4
            && y == 400 * (b / 4) + 100 * (b % 4) + 4 * (c / 4) + c % 4
  {
    var b, c := y / 100, y % 100;
    assert y == 100 * b + c;
    assert b == 4 * (b / 4) + b % 4;
    assert c == 4 * (c / 4) + c % 4;
  }

  /** Weeks fit between 22 March, the moon's age and the term that leads to a Sunday. */
  lemma WholeWeeks(d: int, e: int, i: int, k: int, h: int, s: int)
    requires s == (32 + 2 * e + 2 * i - h - k) % 7
    ensures (146097 * d + 36524 * e + 1461 * i + 365 * k - 719447 + 4 + h + s) % 7 == 0
  {
    var t := 32 + 2 * e + 2 * i - h - k;
    assert t == 7 * (t / 7) + s;
    SevensVanish(146097 * d + 36524 * e + 1461 * i + 365 * k - 719447 + 4 + h + s,
                 20871 * d + 5218 * e + 209 * i + 52 * k - 102773 - t / 7);
  }

  lemma SevensVanish(x: int, q: int)
    requires x == 7 * q
    ensures x % 7 == 0
  {
  }

  /** The weekday term of the algorithm: what 22 March plus the moon's age lacks to a Sunday. */
  lemma MarchWeekDay(y: int)
    requires y >= 0
    ensures (UtcDay(y, 3, 22) + 4 + MoonAge(y) + ToSunday(y)) % 7 == 0
  {
    hide UtcDay, MoonAge;
    var b, c := y / 100, y % 100;
    YearParts(y);
    MarchDay(y, b / 4, b % 4, c / 4, c % 4);
    WholeWeeks(b / 4, b % 4, c / 4, c % 4, MoonAge(y), ToSunday(y));
  }

  /** The last correction of the algorithm is the one the exceptions of the tables ask for. */
  lemma EasterIs(y: int)
    requires y >= 0
    ensures 0 <= EasterOffset(y) <= 34
    ensures Easter(y) == ((EasterOffset(y) + 114) / 31, (EasterOffset(y) + 114) % 31 + 1)
  {
    var h, l := MoonAge(y), ToSunday(y);
    var m := (y % 19 + 11 * h + 22 * l) / 451;
    assert m == if Exceptional(y) && l == 6 then 1 else 0;
  }

  lemma EasterDay(y: int)
    requires y >= FIRST_YEAR
    ensures var (month, day) := Easter(y);
            && ((month == 3 && 22 <= day <= 31) || (month == 4 && 1 <= day <= 25))
            && Exists(Civil(y, month, day))
            && UtcDay(y, month, day) == UtcDay(y, 3, 22) + EasterOffset(y)
  {
    hide Easter, EasterOffset, DayFromYear;
    EasterIs(y);
  }

  /** Easter is a date between 22 March and 25 April, and that date is a Sunday. */
  lemma EasterIsSunday(y: int)
    requires y >= FIRST_YEAR
    ensures var (month, day) := Easter(y);
            && ((month == 3 && 22 <= day <= 31) || (month == 4 && 1 <= day <= 25))
            && Exists(Civil(y, month, day))
            && WeekDay(UtcDay(y, month, day)) == 0
  {
    hide Easter, MoonAge, ToSunday, UtcDay;
    EasterDay(y);
    MarchWeekDay(y);
  }

  /** And it is the first Sunday strictly after the paschal full moon: what the algorithm is for. */
  lemma EasterFollowsFullMoon(y: int)
    requires y >= FIRST_YEAR
    ensures var n := UtcDay(y, Easter(y).0, Easter(y).1);
            && WeekDay(n) == 0
            && PaschalFullMoon(y) < n <= PaschalFullMoon(y) + 7
  {
    hide Easter, MoonAge, DayFromYear, Exceptional;
    EasterIsSunday(y);
    EasterDay(y);
  }

  // ---------------- The same by epacts ----------------

  /**
   * The age of the moon by the tables of Clavius, as The Art of Computer Programming gives them (volume 1,
   * section 1.3.2, exercise 14), with its two exceptions.
   */
  function Epact(y: int): int {
    var golden, century := y % 19 + 1, y / 100 + 1;
    var e := (11 * golden + 20 + (8 * century + 5) / 25 - 5 - (3 * century / 4 - 12)) % 30;
    if e == 24 || (e == 25 && golden > 11) then e + 1 else e
  }

  /** Days from the end of February to the first full moon of spring by that age. */
  function SpringFullMoon(y: int): int {
    if 44 - Epact(y) < 21 then 74 - Epact(y) else 44 - Epact(y)
  }

  lemma SolarTerm(b: int)
    requires b >= 0
    ensures 3 * (b + 1) / 4 == b - b / 4
  {
    var q, r := b / 4, b % 4;
    assert b == 4 * q + r;
    assert 3 * (b + 1) == 4 * (3 * q) + 3 * (r + 1);
  }

  lemma LunarTerm(b: int)
    requires b >= 0
    ensures (b - (b + 8) / 25 + 1) / 3 == (8 * b + 13) / 25
  {
    var k, r := b / 25, b % 25;
    ByTwentyFive(b + 8, k + if r >= 17 then 1 else 0, if r >= 17 then r - 17 else r + 8);
    LunarTable(r);
    ByTwentyFive(8 * b + 13, 8 * k + (8 * r + 13) / 25, (8 * r + 13) % 25);
    ByThree(b - (b + 8) / 25 + 1, 8 * k, r + 1 - if r >= 17 then 1 else 0);
  }

  lemma LunarTable(r: int)
    requires 0 <= r < 25
    ensures (r + 1 - if r >= 17 then 1 else 0) / 3 == (8 * r + 13) / 25
  {
  }

  lemma ByTwentyFive(x: int, q: int, r: int)
    requires x == 25 * q + r && 0 <= r < 25
    ensures x / 25 == q
  {
  }

  lemma ByThree(x: int, q: int, r: int)
    requires x == 3 * q + r
    ensures x / 3 == q + r / 3
  {
  }

  /** Without the exceptions, age and days to the full moon make up a month and a bit. */
  lemma AgesAddUp(h: int, e: int)
    requires 0 <= h < 30 && 0 <= e < 30 && (h + e - 23) % 30 == 0
    ensures h == if e <= 23 then 23 - e else 53 - e
  {
  }

  lemma MoonAgeIs(y: int)
    requires y >= 0
    ensures var e := (11 * (y % 19 + 1) + 20 + (8 * (y / 100 + 1) + 5) / 25 - 5 - (3 * (y / 100 + 1) / 4 - 12)) % 30;
            MoonAge(y) == if e <= 23 then 23 - e else 53 - e
  {
    var a, b := y % 19, y / 100;
    var lunar, solar := (8 * b + 13) / 25, b - b / 4;
    SolarTerm(b);
    LunarTerm(b);
    var u, v := 19 * a + solar - lunar + 15, 11 * a + 38 + lunar - solar;
    assert u + v - 23 == 30 * (a + 1);
    ModuloThirty(u, v, a + 1);
    AgesAddUp(u % 30, v % 30);
  }

  lemma ModuloThirty(u: int, v: int, q: int)
    requires u + v - 23 == 30 * q
    ensures (u % 30 + v % 30 - 23) % 30 == 0
  {
    var i, j := u / 30, v / 30;
    assert u == 30 * i + u % 30 && v == 30 * j + v % 30;
    assert u % 30 + v % 30 - 23 == 30 * (q - i - j);
  }

  /**
   * The algorithm gives the first Sunday after the full moon of the tables: the tables are
   * reached by epacts, with other constants and other divisions.
   */
  lemma EasterByEpacts(y: int)
    requires y >= FIRST_YEAR
    ensures var n := UtcDay(y, Easter(y).0, Easter(y).1);
            && WeekDay(n) == 0
            && UtcDay(y, 3, SpringFullMoon(y)) < n <= UtcDay(y, 3, SpringFullMoon(y)) + 7
  {
    hide Easter, MoonAge, DayFromYear;
    EasterFollowsFullMoon(y);
    MoonAgeIs(y);
  }

  // ---------------- Holidays ----------------

  function FixedHolidays(y: int): seq<Civil> {
    [Civil(y, 1, 1), Civil(y, 1, 2), Civil(y, 5, 1), Civil(y, 7, 25), Civil(y, 7, 26), Civil(y, 7, 27),
     Civil(y, 10, 10), Civil(y, 12, 25), Civil(y, 12, 31)]
  }

  /** Two days before Easter; in early April that is still March. */
  function GoodFriday(y: int): Civil {
    FromDay(UtcDay(y, Easter(y).0, Easter(y).1 - 2))
  }

  /** `feriadosCubanos`. */
  function Holidays(y: int): seq<Civil> {
    FixedHolidays(y) + [GoodFriday(y)]
  }

  /** Good Friday is a Friday of the same year, from 20 March to 23 April. */
  lemma GoodFridayIsFriday(y: int)
    requires y >= FIRST_YEAR
    ensures var c := GoodFriday(y);
            && Exists(c) && c.year == y && WeekDay(DayNumber(c)) == 5
            && UtcDay(y, 3, 20) <= DayNumber(c) <= UtcDay(y, 4, 23)
  {
    hide Easter, UtcDay, DayFromYear, YearFrom, MonthOf, DayNumber, WeekDay, Exists;
    var n := UtcDay(y, Easter(y).0, Easter(y).1 - 2);
    TwoDaysBefore(y);
    SpringIsInside(y);
    YearsGrow(FIRST_YEAR, y);
    DayRoundTrip(n);
    YearFromIs(n, FIRST_YEAR, y);
  }

  /** Two days before Easter, as a day number. */
  lemma TwoDaysBefore(y: int)
    requires y >= FIRST_YEAR
    ensures var n := UtcDay(y, Easter(y).0, Easter(y).1 - 2);
            WeekDay(n) == 5 && UtcDay(y, 3, 20) <= n <= UtcDay(y, 4, 23)
  {
    hide Easter, DayFromYear, Exists;
    EasterIsSunday(y);
    FridayBeforeSunday(UtcDay(y, Easter(y).0, Easter(y).1));
  }

  lemma FridayBeforeSunday(n: int)
    requires WeekDay(n) == 0
    ensures WeekDay(n - 2) == 5
  {
  }

  lemma SpringIsInside(y: int)
    ensures DayFromYear(y) <= UtcDay(y, 3, 20) && UtcDay(y, 4, 23) < DayFromYear(y + 1)
  {
    hide DayFromYear;
    YearGrows(y);
  }

  lemma HolidaysExist(y: int)
    requires y >= FIRST_YEAR
    ensures |Holidays(y)| == 10
    ensures forall i :: 0 <= i < 10 ==> Exists(Holidays(y)[i]) && Holidays(y)[i].year == y
    ensures Holidays(y)[0] == Civil(y, 1, 1)
  {
    hide GoodFriday, DayFromYear;
    GoodFridayIsFriday(y);
  }

  /** Ten different dates: Good Friday never falls on a fixed holiday. */
  lemma TenHolidays(y: int)
    requires y >= FIRST_YEAR
    ensures forall i, j :: 0 <= i < j < 10 ==> Holidays(y)[i] != Holidays(y)[j]
  {
    hide GoodFriday, DayFromYear;
    GoodFridayIsFriday(y);
  }

  /** The nine fixed dates and the Friday before Easter, and no other. */
  lemma HolidaysAre(c: Civil)
    requires Exists(c)
    ensures c in Holidays(c.year) <==>
            || (c.month, c.day) in {(1, 1), (1, 2), (5, 1), (7, 25), (7, 26), (7, 27), (10, 10), (12, 25), (12, 31)}
            || DayNumber(c) == UtcDay(c.year, Easter(c.year).0, Easter(c.year).1) - 2
  {
    hide Easter, FromDay, DayFromYear, MonthStart, Leap;
    var y := c.year;
    var friday := GoodFriday(y);
    GoodFridayIsFriday(y);
    FridayIsTwoBefore(y);
    if DayNumber(c) == DayNumber(friday) {
      DateRoundTrip(c);
      DateRoundTrip(friday);
    }
    FixedHolidaysAre(c);
  }

  lemma FixedHolidaysAre(c: Civil)
    ensures c in FixedHolidays(c.year) <==>
            (c.month, c.day) in {(1, 1), (1, 2), (5, 1), (7, 25), (7, 26), (7, 27), (10, 10), (12, 25), (12, 31)}
  {
    assert c == Civil(c.year, c.month, c.day);
  }

  lemma FridayIsTwoBefore(y: int)
    requires y >= FIRST_YEAR
    ensures DayNumber(GoodFriday(y)) == UtcDay(y, Easter(y).0, Easter(y).1) - 2
  {
    hide Easter, DayFromYear, YearFrom, MonthOf, MonthStart, Leap;
    TwoDaysBefore(y);
    SpringIsInside(y);
    YearsGrow(FIRST_YEAR, y);
    DayRoundTrip(UtcDay(y, Easter(y).0, Easter(y).1 - 2));
  }

  // ---------------- Business days ----------------

  /** `esHabil`. */
  predicate Business(c: Civil) {
    WeekDay(DayNumber(c)) != 0 && c !in Holidays(c.year)
  }

  /** Every day but Sundays, the nine fixed dates and the Friday before Easter. */
  lemma BusinessDaysAre(c: Civil)
    requires Exists(c)
    ensures Business(c) <==>
            && WeekDay(DayNumber(c)) != 0
            && (c.month, c.day) !in {(1, 1), (1, 2), (5, 1), (7, 25), (7, 26), (7, 27), (10, 10), (12, 25), (12, 31)}
            && DayNumber(c) != UtcDay(c.year, Easter(c.year).0, Easter(c.year).1) - 2
  {
    hide Easter, FromDay, DayFromYear, MonthStart, Leap, Holidays, WeekDay, DayNumber, UtcDay;
    HolidaysAre(c);
  }

  /** `siguienteDia`. */
  function NextDay(c: Civil): Civil {
    FromDay(UtcDay(c.year, c.month, c.day + 1))
  }

  predicate BusinessOn(n: int) {
    Business(FromDay(n))
  }

  /** Business days in (a, b]. */
  function Count(a: int, b: int): nat
    decreases b - a
  {
    if b <= a then 0 else Count(a, b - 1) + if BusinessOn(b) then 1 else 0
  }

  /** Counting is counting: the business days after `a` and up to `b`. */
  lemma {:induction false} CountIs(a: int, b: int)
    ensures Count(a, b) == |set n | a < n <= b && BusinessOn(n)|
    decreases b - a
  {
    hide BusinessOn;
    var days := set n | a < n <= b && BusinessOn(n);
    if a < b {
      CountIs(a, b - 1);
      assert days - {b} == set n | a < n <= b - 1 && BusinessOn(n);
    } else {
      assert days == {};
    }
  }

  const ROUNDS := 400

  /** The day the loop stops on, `left` business days and `fuel` rounds before it does. */
  function Walk(n: int, left: int, fuel: nat): int
    decreases fuel
  {
    if fuel == 0 || left <= 0 then n
    else Walk(n + 1, if BusinessOn(n + 1) then left - 1 else left, fuel - 1)
  }

  /** `finDelPlazo`, up to the civil date it ends on. */
  function Deadline(start: Civil, days: Option<int>): (end: Option<Civil>)
    ensures end.None? <==> days.None? || days.value <= 0
  {
    if days.None? || days.value <= 0 then None
    else Some(FromDay(Walk(DayNumber(start), days.value, ROUNDS)))
  }

  /** `siguienteDia` is the next day number, whatever month or year it falls in. */
  lemma NextDayIs(c: Civil)
    requires Exists(c)
    ensures Exists(NextDay(c)) && DayNumber(NextDay(c)) == DayNumber(c) + 1
    ensures BusinessOn(DayNumber(c) + 1) <==> Business(NextDay(c))
  {
    hide FromDay, DayFromYear, Business;
    StartInRange(c);
    DayRoundTrip(DayNumber(c) + 1);
  }

  lemma WalkStep(n: int, left: int, fuel: nat)
    ensures Walk(n, left, fuel) == if fuel == 0 || left <= 0 then n
                                   else Walk(n + 1, if BusinessOn(n + 1) then left - 1 else left, fuel - 1)
  {
  }

  method FinDelPlazo(start: Civil, days: Option<int>) returns (end: Option<Civil>)
    requires Exists(start)
    ensures end == Deadline(start, days)
    ensures end.None? <==> days.None? || days.value <= 0
    ensures end.Some? ==> Exists(end.value) && DayNumber(start) < DayNumber(end.value) <= DayNumber(start) + 400
  {
    hide UtcDay, DayNumber, Exists, FromDay, NextDay, Business, BusinessOn, Walk;
    if days.None? || days.value <= 0 {
      return None;
    }
    var date, counted, round := start, 0, 0;
    while round < ROUNDS && counted < days.value
      invariant 0 <= counted <= round <= ROUNDS
      invariant Exists(date) && DayNumber(date) == DayNumber(start) + round
      invariant Walk(DayNumber(date), days.value - counted, ROUNDS - round)
                == Walk(DayNumber(start), days.value, ROUNDS)
    {
      WalkStep(DayNumber(date), days.value - counted, ROUNDS - round);
      NextDayIs(date);
      date := NextDay(date);
      if Business(date) {
        counted := counted + 1;
      }
      round := round + 1;
    }
    WalkStep(DayNumber(date), days.value - counted, ROUNDS - round);
    DateRoundTrip(date);
    end := Some(date);
  }

  // ---------------- What the deadline is ----------------

  lemma {:induction false} CountSplits(a: int, b: int, c: int)
    requires a <= b <= c
    ensures Count(a, c) == Count(a, b) + Count(b, c)
    decreases c - b
  {
    hide BusinessOn;
    if b < c {
      CountSplits(a, b, c - 1);
    }
  }

  /** The loop stops on the first day by which enough business days have gone by, or after the last round. */
  lemma {:induction false} WalkStops(n: int, left: int, fuel: nat)
    ensures var d := Walk(n, left, fuel);
            && n <= d <= n + fuel
            && (forall x :: n <= x < d ==> Count(n, x) < left)
            && (Count(n, d) >= left || d == n + fuel)
            && (n < d && Count(n, d) >= left ==> Count(n, d) == left && BusinessOn(d))
    decreases fuel
  {
    hide BusinessOn;
    if fuel > 0 && left > 0 {
      var step := if BusinessOn(n + 1) then 1 else 0;
      assert Count(n, n + 1) == step by {
        assert Count(n, n) == 0;
      }
      WalkStops(n + 1, left - step, fuel - 1);
      var d := Walk(n, left, fuel);
      CountSplits(n, n + 1, d);
      forall x | n <= x < d ensures Count(n, x) < left {
        if n < x {
          CountSplits(n, n + 1, x);
        }
      }
    }
  }

  /** Holidays of the year on or before the day. */
  function Rank(hs: seq<Civil>, n: int): nat {
    if hs == [] then 0
    else Rank(hs[..|hs| - 1], n) + if DayNumber(hs[|hs| - 1]) <= n then 1 else 0
  }

  lemma {:induction false} RankBounds(hs: seq<Civil>, n: int)
    ensures Rank(hs, n) <= |hs|
    ensures forall i :: 0 <= i < |hs| && DayNumber(hs[i]) <= n ==> Rank(hs, n) >= 1
  {
    if hs != [] {
      RankBounds(hs[..|hs| - 1], n);
    }
  }

  lemma {:induction false} RankGrows(hs: seq<Civil>, n: int)
    ensures Rank(hs, n + 1) >= Rank(hs, n)
    ensures (exists i :: 0 <= i < |hs| && DayNumber(hs[i]) == n + 1) ==> Rank(hs, n + 1) >= Rank(hs, n) + 1
  {
    if hs != [] {
      RankGrows(hs[..|hs| - 1], n);
    }
  }

  /** Sundays and holidays gone by: never more than what this counts. */
  function Closed(n: int): int {
    var y := FromDay(n).year;
    (n + 4) / 7 + 10 * y + Rank(Holidays(y), n)
  }

  lemma ClosedGrows(n: int)
    requires n >= DayFromYear(FIRST_YEAR)
    ensures Closed(n + 1) >= Closed(n) + if BusinessOn(n + 1) then 0 else 1
  {
    hide FromDay, DayFromYear, Holidays, UtcDay, Rank;
    DayRoundTrip(n);
    DayRoundTrip(n + 1);
    var c, d := FromDay(n), FromDay(n + 1);
    NextYear(n);
    HolidaysExist(c.year);
    HolidaysExist(d.year);
    if d.year == c.year {
      RankGrows(Holidays(c.year), n);
    } else {
      RankBounds(Holidays(c.year), n);
      RankBounds(Holidays(d.year), n + 1);
      assert Holidays(d.year)[0] == d;
      assert DayNumber(Holidays(d.year)[0]) <= n + 1;
    }
    if d in Holidays(d.year) {
      var i :| 0 <= i < 10 && Holidays(d.year)[i] == d;
      assert DayNumber(Holidays(d.year)[i]) == n + 1;
    }
  }

  /** The day after belongs to the same year, or is 1 January of the next. */
  lemma NextYear(n: int)
    requires n >= DayFromYear(FIRST_YEAR)
    ensures var c, d := FromDay(n), FromDay(n + 1);
            d.year == c.year || (d.year == c.year + 1 && d == Civil(d.year, 1, 1))
  {
    hide YearFrom, DayFromYear;
    YearFromBounds(n, FIRST_YEAR);
    var y := YearFrom(n, FIRST_YEAR);
    YearGrows(y);
    YearGrows(y + 1);
    YearFromIs(n + 1, FIRST_YEAR, if n + 1 < DayFromYear(y + 1) then y else y + 1);
  }

  lemma {:induction false} ClosedBounds(a: int, len: nat)
    requires a >= DayFromYear(FIRST_YEAR)
    ensures len - Count(a, a + len) <= Closed(a + len) - Closed(a)
  {
    hide Closed, BusinessOn, DayFromYear;
    if len > 0 {
      ClosedBounds(a, len - 1);
      ClosedGrows(a + len - 1);
    }
  }

  /** Any 400 consecutive days hold at most 58 Sundays and 30 holidays. */
  lemma EnoughBusinessDays(a: int)
    requires a >= DayFromYear(FIRST_YEAR)
    ensures Count(a, a + ROUNDS) >= 312
  {
    hide YearFrom, Holidays, Rank, Count, MonthOf, DayFromYear;
    ClosedBounds(a, ROUNDS);
    var y, y' := YearFrom(a, FIRST_YEAR), YearFrom(a + ROUNDS, FIRST_YEAR);
    YearFromBounds(a, FIRST_YEAR);
    YearFromBounds(a + ROUNDS, FIRST_YEAR);
    if y' > y + 2 {
      YearsGrow(y + 1, y');
    }
    YearGrows(y);
    HolidaysExist(y');
    RankBounds(Holidays(y'), a + ROUNDS);
  }

  /**
   * The deadline is the business day such that exactly `days` business days lie
   * after the start and up to it; up to 312 days the cap on the rounds never
   * decides.
   */
  lemma DeadlineIs(start: Civil, days: int)
    requires Exists(start) && 1 <= days
    ensures var a, d := DayNumber(start), Deadline(start, Some(days)).value;
            && Exists(d) && a < DayNumber(d)
            && (Count(a, a + 400) >= days <==> Count(a, DayNumber(d)) == days)
            && (Count(a, a + 400) >= days ==> Business(d))
            && (days <= 312 ==> Count(a, DayNumber(d)) == days && Business(d))
  {
    hide Walk, Count, UtcDay, FromDay, DayFromYear, Business;
    var a := DayNumber(start);
    StartInRange(start);
    var n := Walk(a, days, ROUNDS);
    WalkStops(a, days, ROUNDS);
    EnoughBusinessDays(a);
    DayRoundTrip(n);
    CountNone(a);
    CountSplits(a, n, a + ROUNDS);
  }

  lemma CountNone(a: int)
    ensures Count(a, a) == 0
  {
  }

  lemma StartInRange(c: Civil)
    requires Exists(c)
    ensures DayNumber(c) >= DayFromYear(FIRST_YEAR)
  {
    YearsGrow(FIRST_YEAR, c.year);
  }

  /** A longer term or a later start never ends earlier. */
  lemma DeadlineMonotone(start: Civil, later: Civil, days: int, more: int)
    requires Exists(start) && Exists(later) && 1 <= days <= more
    requires DayNumber(start) <= DayNumber(later)
    ensures DayNumber(Deadline(start, Some(days)).value) <= DayNumber(Deadline(later, Some(more)).value)
  {
    hide Walk, Count, UtcDay, FromDay, DayFromYear, BusinessOn;
    var a, b := DayNumber(start), DayNumber(later);
    var d, e := Walk(a, days, ROUNDS), Walk(b, more, ROUNDS);
    StartInRange(start);
    WalkStops(a, days, ROUNDS);
    WalkStops(b, more, ROUNDS);
    DayRoundTrip(d);
    DayRoundTrip(e);
    if e < d {
      CountSplits(a, b, e);
    }
  }

  /** Past 400 days the cap does decide: no term that long is ever counted out. */
  lemma CapCutsLongTerms(start: Civil, days: int)
    requires Exists(start) && days > 400
    ensures DayNumber(Deadline(start, Some(days)).value) == DayNumber(start) + 400
  {
    hide Walk, Count, UtcDay, FromDay, DayFromYear, BusinessOn;
    var a := DayNumber(start);
    StartInRange(start);
    WalkStops(a, days, ROUNDS);
    CountAtMost(a, Walk(a, days, ROUNDS));
    DayRoundTrip(Walk(a, days, ROUNDS));
  }

  lemma {:induction false} CountAtMost(a: int, b: int)
    requires a <= b
    ensures Count(a, b) <= b - a
    decreases b - a
  {
    hide BusinessOn;
    if a < b {
      CountAtMost(a, b - 1);
    }
  }
}
