/** `ngx_gmtime` of `ngx_times.c`: the date of a number of seconds since 1970. */
module GmTime {

  const DAY: nat := 86400
  const INT_MAX: int := 0x7fff_ffff
  const TIME_MAX: nat := 0x7fff_ffff_ffff_ffff

  datatype Tm = Tm(year: int, mon: int, mday: int, hour: int, min: int, sec: int, wday: int)

  // ---------- the calendar ----------

  predicate Leap(y: int) {
    y % 4 == 0 && (y % 100 != 0 || y % 400 == 0)
  }

  function YearLength(y: int): int {
    if Leap(y) then 366 else 365
  }

  function MonthLength(y: int, m: int): int {
    if m == 2 then (if Leap(y) then 29 else 28) else if m in {4, 6, 9, 11} then 30 else 31
  }

  /** The days from the first of January 1970 to that of a year. */
  function YearStart(y: int): int
    requires y >= 1970
    decreases y
  {
    if y == 1970 then 0 else YearStart(y - 1) + YearLength(y - 1)
  }

  /** The days of a year before a month. */
  function MonthStart(y: int, m: int): int
    requires 1 <= m <= 12
    decreases m
  {
    if m == 1 then 0 else MonthStart(y, m - 1) + MonthLength(y, m - 1)
  }

  predicate ValidDate(y: int, m: int, d: int) {
    y >= 1970 && 1 <= m <= 12 && 1 <= d <= MonthLength(y, m)
  }

  function DayNumber(y: int, m: int, d: int): int
    requires ValidDate(y, m, d)
  {
    YearStart(y) + MonthStart(y, m) + d - 1
  }

  // ---------- the code ----------

  /** The first of March of a year, in days since that of the year 0. */
  function March(y: int): int {
    365 * y + y / 4 - y / 100 + y / 400
  }

  /** The estimate of the year that begins in March. */
  function Estimate(days: int): int {
    (days + 2) * 400 / (365 * 400 + 100 - 4 + 1)
  }

  /** A cast to a 32-bit int. */
  function ToInt(y: int): int {
    (y + 0x8000_0000) % 0x1_0000_0000 - 0x8000_0000
  }

  /** The date before the year is cast. */
  function Civil(t: nat): Tm {
    var days0 := t / DAY;
    var wday := (4 + days0) % 7;
    var n := t % DAY;
    var days := days0 - (31 + 28) + 719527;
    var year0 := Estimate(days);
    var yday0 := days - March(year0);
    var yday := if yday0 < 0 then 365 + (if Leap(year0) then 1 else 0) + yday0 else yday0;
    var year := if yday0 < 0 then year0 - 1 else year0;
    var mon := (yday + 31) * 10 / 306;
    var mday := yday - (367 * mon / 12 - 30) + 1;
    Tm(if yday >= 306 then year + 1 else year, if yday >= 306 then mon - 10 else mon + 2, mday,
       n / 3600, n % 3600 / 60, n % 3600 % 60, wday)
  }

  /** `ngx_gmtime` */
  function Gmtime(t: nat): Tm
    requires t <= TIME_MAX
  {
    var tm := Civil(t);
    tm.(year := ToInt(tm.year))
  }

  // ---------- the proof ----------

  /** From one March to the next is a year, with the February in it. */
  lemma MarchStep(y: int)
    ensures March(y) - March(y - 1) == 365 + (if Leap(y) then 1 else 0)
  {
    Step4(y);
    Step100(y);
    Step400(y);
  }

  lemma Step4(y: int)
    ensures y / 4 - (y - 1) / 4 == if y % 4 == 0 then 1 else 0
  {
  }

  lemma Step100(y: int)
    ensures y / 100 - (y - 1) / 100 == if y % 100 == 0 then 1 else 0
    ensures y % 100 == 0 ==> y % 4 == 0
  {
    assert y % 100 == 0 ==> y == 4 * (25 * (y / 100));
  }

  lemma Step400(y: int)
    ensures y / 400 - (y - 1) / 400 == if y % 400 == 0 then 1 else 0
    ensures y % 400 == 0 ==> y % 100 == 0
  {
    assert y % 400 == 0 ==> y == 100 * (4 * (y / 400));
  }

  /** The estimate is right, or one too large for the last days of a February. */
  lemma EstimateNear(days: int)
    requires days >= 0
    ensures March(Estimate(days)) - 3 <= days < March(Estimate(days) + 1)
  {
    var y := Estimate(days);
    assert 146097 * y <= 400 * (days + 2) < 146097 * (y + 1);
    var z := y + 1;
    assert 400 * (y / 4) <= 100 * y && 400 * (y / 100) >= 4 * y - 396 && 400 * (y / 400) <= y;
    assert 400 * (z / 4) >= 100 * z - 300 && 400 * (z / 100) <= 4 * z && 400 * (z / 400) >= z - 399;
  }

  lemma {:induction false} YearStartIs(y: int)
    requires y >= 1970
    ensures YearStart(y) == March(y - 1) + 306 - 719468
    decreases y
  {
    if y > 1970 {
      YearStartIs(y - 1);
      MarchStep(y - 1);
    }
  }

  /** The days before a month, counted from March on. */
  function FromMarch(m: int): int {
    367 * m / 12 - 30
  }

  lemma MonthStartIs(y: int, m: int)
    requires 1 <= m <= 12
    ensures MonthStart(y, m) == if m <= 2 then FromMarch(m + 10) - 306 else FromMarch(m - 2) + 59 + (if Leap(y) then 1 else 0)
  {
    var l := if Leap(y) then 1 else 0;
    assert MonthStart(y, 2) == 31 && MonthStart(y, 3) == 59 + l;
    assert MonthStart(y, 4) == 90 + l && MonthStart(y, 5) == 120 + l && MonthStart(y, 6) == 151 + l && MonthStart(y, 7) == 181 + l;
    assert MonthStart(y, 8) == 212 + l && MonthStart(y, 9) == 243 + l && MonthStart(y, 10) == 273 + l;
    assert MonthStart(y, 11) == 304 + l && MonthStart(y, 12) == 334 + l;
  }

  /** The formula for the month: its days are the ones between its start and that of the next. */
  lemma MonthOf(yday: int)
    requires 0 <= yday <= 365
    ensures var m := (yday + 31) * 10 / 306;
      1 <= m <= 12 && FromMarch(m) <= yday && (yday >= 306 <==> m >= 11) && (m < 12 ==> yday < FromMarch(m + 1))
  {
  }

  /** Every time has a date, and it is the one that is this many days after the first of January
      1970. */
  lemma CivilDate(t: nat)
    ensures var tm := Civil(t);
      ValidDate(tm.year, tm.mon, tm.mday) && DayNumber(tm.year, tm.mon, tm.mday) == t / DAY
  {
    var days := t / DAY - 59 + 719527;
    var year0 := Estimate(days);
    EstimateNear(days);
    MarchStep(year0);
    var year := if days < March(year0) then year0 - 1 else year0;
    var yday := days - March(year);
    MarchStep(year + 1);
    assert 0 <= yday < 365 + (if Leap(year + 1) then 1 else 0);
    MonthOf(yday);
    CivilIs(t, year, yday);
    DayOf(year, yday);
  }

  lemma CivilIs(t: nat, year: int, yday: int)
    requires var days := t / DAY + 719468;
      var year0 := Estimate(days);
      year == (if days < March(year0) then year0 - 1 else year0) && yday == days - March(year) && yday >= 0
    ensures var tm, m := Civil(t), (yday + 31) * 10 / 306;
      && tm.year == (if yday >= 306 then year + 1 else year)
      && tm.mon == (if yday >= 306 then m - 10 else m + 2) && tm.mday == yday - FromMarch(m) + 1
  {
    var year0 := Estimate(t / DAY + 719468);
    MarchStep(year0);
  }

  /** A day of a year that begins in March is a date. */
  lemma DayOf(year: int, yday: int)
    requires 0 <= yday < 365 + (if Leap(year + 1) then 1 else 0) && March(year) + yday >= 719468
    ensures var m := (yday + 31) * 10 / 306;
      var y, mon, d := if yday >= 306 then year + 1 else year, if yday >= 306 then m - 10 else m + 2, yday - FromMarch(m) + 1;
      ValidDate(y, mon, d) && DayNumber(y, mon, d) == March(year) + yday - 719468
  {
    MonthOf(yday);
    var m := (yday + 31) * 10 / 306;
    var y, mon := if yday >= 306 then year + 1 else year, if yday >= 306 then m - 10 else m + 2;
    YearAtLeast(year, yday);
    MonthLengthIs(y, mon);
    MonthStartIs(y, mon);
    YearStartIs(y);
    MarchStep(y);
  }

  lemma YearAtLeast(year: int, yday: int)
    requires 0 <= yday <= 365 && March(year) + yday >= 719468
    ensures year >= 1969 && (yday < 306 ==> year >= 1970)
  {
    if year < 1970 {
      assert March(1969) == 719162;
      MarchGrows(year, 1969);
    }
  }

  lemma {:induction false} MarchGrows(x: int, y: int)
    requires x <= y
    ensures March(x) + 365 * (y - x) <= March(y)
    decreases y - x
  {
    if x < y {
      MarchStep(y);
      MarchGrows(x, y - 1);
    }
  }

  lemma MonthLengthIs(y: int, m: int)
    requires 1 <= m <= 12
    ensures MonthLength(y, m) ==
      if m == 2 then 28 + (if Leap(y) then 1 else 0) else if m == 1 then FromMarch(12) - FromMarch(11) else FromMarch(m - 1) - FromMarch(m - 2)
  {
  }

  // ---------- the results ----------

  lemma {:induction false} MonthsGrow(y: int, m: int, n: int)
    requires 1 <= m <= n <= 12
    ensures MonthStart(y, m) + (if m < n then MonthLength(y, m) else 0) <= MonthStart(y, n)
    ensures MonthStart(y, n) + MonthLength(y, n) <= YearLength(y)
    decreases n - m
  {
    MonthStartIs(y, n);
    if m < n {
      MonthsGrow(y, m, n - 1);
    }
  }

  lemma {:induction false} YearsGrow(y: int, z: int)
    requires 1970 <= y < z
    ensures YearStart(y) + YearLength(y) <= YearStart(z)
    decreases z
  {
    if y < z - 1 {
      YearsGrow(y, z - 1);
    }
  }

  predicate DateLess(y: int, m: int, d: int, y': int, m': int, d': int) {
    y < y' || (y == y' && (m < m' || (m == m' && d < d')))
  }

  lemma DayNumberGrows(y: int, m: int, d: int, y': int, m': int, d': int)
    requires ValidDate(y, m, d) && ValidDate(y', m', d') && DateLess(y, m, d, y', m', d')
    ensures DayNumber(y, m, d) < DayNumber(y', m', d')
  {
    if y < y' {
      YearsGrow(y, y');
      MonthsGrow(y, 1, m);
      MonthsGrow(y', 1, m');
    } else if m < m' {
      MonthsGrow(y, m, m');
    }
  }

  /** A day has one date. */
  lemma OneDate(y: int, m: int, d: int, y': int, m': int, d': int)
    requires ValidDate(y, m, d) && ValidDate(y', m', d') && DayNumber(y, m, d) == DayNumber(y', m', d')
    ensures y == y' && m == m' && d == d'
  {
    if DateLess(y, m, d, y', m', d') {
      DayNumberGrows(y, m, d, y', m', d');
    } else if DateLess(y', m', d', y, m, d) {
      DayNumberGrows(y', m', d', y, m, d);
    }
  }

  /** The time of day, and the day of the week: the first of January 1970 was a Thursday. */
  lemma CivilClock(t: nat)
    ensures var tm := Civil(t);
      && 0 <= tm.hour < 24 && 0 <= tm.min < 60 && 0 <= tm.sec < 60 && t % DAY == tm.hour * 3600 + tm.min * 60 + tm.sec
      && 0 <= tm.wday < 7 && (t < DAY ==> tm.wday == 4) && Civil(t + DAY).wday == (if tm.wday == 6 then 0 else tm.wday + 1)
  {
    Clock(t % DAY);
    NextDay(t);
    Weekday(t / DAY);
  }

  lemma Clock(n: nat)
    requires n < DAY
    ensures n / 3600 < 24 && n % 3600 / 60 < 60 && n == n / 3600 * 3600 + n % 3600 / 60 * 60 + n % 3600 % 60
  {
  }

  lemma NextDay(t: nat)
    ensures (t + DAY) / DAY == t / DAY + 1
  {
  }

  lemma Weekday(d: nat)
    ensures (4 + (d + 1)) % 7 == if (4 + d) % 7 == 6 then 0 else (4 + d) % 7 + 1
  {
  }

  predicate TmLess(a: Tm, b: Tm) {
    DateLess(a.year, a.mon, a.mday, b.year, b.mon, b.mday) ||
      (a.year == b.year && a.mon == b.mon && a.mday == b.mday && DateLess(a.hour, a.min, a.sec, b.hour, b.min, b.sec))
  }

  /** Later times have later dates. */
  lemma OrderKept(t: nat, u: nat)
    ensures t < u <==> TmLess(Civil(t), Civil(u))
  {
    if t < u {
      LaterDate(t, u);
    } else if u < t {
      LaterDate(u, t);
    }
  }

  lemma LaterDate(t: nat, u: nat)
    requires t < u
    ensures TmLess(Civil(t), Civil(u)) && !TmLess(Civil(u), Civil(t))
  {
    CivilDate(t);
    CivilDate(u);
    CivilClock(t);
    CivilClock(u);
    var a, b := Civil(t), Civil(u);
    hide Civil, DayNumber;
    assert t / DAY <= u / DAY && (t / DAY == u / DAY ==> t % DAY < u % DAY);
    if DateLess(b.year, b.mon, b.mday, a.year, a.mon, a.mday) {
      DayNumberGrows(b.year, b.mon, b.mday, a.year, a.mon, a.mday);
    } else if DateLess(a.year, a.mon, a.mday, b.year, b.mon, b.mday) {
      DayNumberGrows(a.year, a.mon, a.mday, b.year, b.mon, b.mday);
    }
  }

  /** The first second of the year 2147483648, which an int does not hold. */
  const YEARS_END: nat := 67767976233532800

  /** `ngx_gmtime` gives the date of the time when and only when its year fits an int. */
  lemma GmtimeDate(t: nat)
    requires t <= TIME_MAX
    ensures var tm := Gmtime(t);
      t < YEARS_END <==> ValidDate(tm.year, tm.mon, tm.mday) && DayNumber(tm.year, tm.mon, tm.mday) == t / DAY
  {
    CivilDate(t);
    GmtimeIsCivil(t);
    var tm := Civil(t);
    assert Gmtime(t) == tm.(year := ToInt(tm.year));
    hide Civil, Gmtime, YearStart, MonthStart, MonthLength;
    if ValidDate(ToInt(tm.year), tm.mon, tm.mday) && DayNumber(ToInt(tm.year), tm.mon, tm.mday) == t / DAY {
      OneDate(tm.year, tm.mon, tm.mday, ToInt(tm.year), tm.mon, tm.mday);
    }
  }

  lemma CastYear(y: int)
    requires y >= 0
    ensures ToInt(y) == y <==> y <= INT_MAX
  {
  }

  lemma LateYear(tm: Tm, e: int)
    requires ValidDate(tm.year, tm.mon, tm.mday) && 1970 <= e <= tm.year
    ensures YearStart(e) <= DayNumber(tm.year, tm.mon, tm.mday)
  {
    MonthsGrow(tm.year, 1, tm.mon);
    if e < tm.year {
      YearsGrow(e, tm.year);
    }
  }

  lemma EarlyYear(tm: Tm, e: int)
    requires ValidDate(tm.year, tm.mon, tm.mday) && tm.year < e
    ensures DayNumber(tm.year, tm.mon, tm.mday) < YearStart(e)
  {
    MonthsGrow(tm.year, 1, tm.mon);
    YearsGrow(tm.year, e);
  }

  /** The order is kept by `ngx_gmtime` for all times whose year fits. */
  lemma GmtimeOrderKept(t: nat, u: nat)
    requires t < YEARS_END && u < YEARS_END
    ensures t < u <==> TmLess(Gmtime(t), Gmtime(u))
  {
    GmtimeIsCivil(t);
    GmtimeIsCivil(u);
    OrderKept(t, u);
    hide Civil, Gmtime;
  }

  lemma GmtimeIsCivil(t: nat)
    requires t <= TIME_MAX
    ensures t < YEARS_END <==> Gmtime(t) == Civil(t)
  {
    var tm, e := Civil(t), INT_MAX + 1;
    CivilDate(t);
    CastYear(tm.year);
    YearStartIs(e);
    assert YearStart(e) * DAY == YEARS_END;
    assert Gmtime(t) == tm.(year := ToInt(tm.year));
    hide March, Civil, YearStart, MonthStart, MonthLength, ToInt, Gmtime;
    if t < YEARS_END {
      if tm.year >= e {
        LateYear(tm, e);
      }
    } else if tm.year < e {
      EarlyYear(tm, e);
    }
  }
}
