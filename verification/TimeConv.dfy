/** time_to_tm (compat-2.6.32.c): seconds since 1970 as a Gregorian date, with a year loop that guesses and corrects. */
module TimeConv {
  import opened Arith

  // ---- The calendar, counted year by year and month by month ----

  predicate IsLeap(y: int) {
    y % 4 == 0 && (y % 100 != 0 || y % 400 == 0)
  }

  function YearDays(y: int): (n: nat) {
    if IsLeap(y) then 366 else 365
  }

  /** Days from 1 January 1970 to 1 January of year `y`. */
  function YearStart(y: int): int
    decreases if y >= 1970 then y - 1970 else 1970 - y
  {
    if y == 1970 then 0
    else if y > 1970 then YearStart(y - 1) + YearDays(y - 1)
    else YearStart(y + 1) - YearDays(y)
  }

  function MonthDays(m: nat, leap: bool): (n: nat)
    requires m < 12
    ensures 28 <= n <= 31
  {
    if m == 1 then (if leap then 29 else 28)
    else if m == 3 || m == 5 || m == 8 || m == 10 then 30
    else 31
  }

  /** Days from 1 January to the first of month `m`. */
  function MonthStart(m: nat, leap: bool): (n: nat)
    requires m <= 12
  {
    if m == 0 then 0 else MonthStart(m - 1, leap) + MonthDays(m - 1, leap)
  }

  // ---- The source's arithmetic: C division truncates ----

  function TDiv(a: int, b: int): int
    requires b > 0
  {
    if a >= 0 then a / b else -(-a / b)
  }

  function TMod(a: int, b: int): int
    requires b > 0
  {
    a - TDiv(a, b) * b
  }

  /** math_div */
  function MathDiv(a: int, b: int): (q: int)
    requires b > 0
  {
    TDiv(a, b) - (if TMod(a, b) < 0 then 1 else 0)
  }

  /** math_div rounds down, for negative numerators too. */
  lemma MathDivFloors(a: int, b: int)
    requires b > 0
    ensures MathDiv(a, b) == a / b
    ensures MathDiv(a, b) * b <= a < MathDiv(a, b) * b + b
  {
    if a < 0 {
      var n := -a;
      var q, r := n / b, n % b;
      assert n == q * b + r;
      if r == 0 {
        assert a == (-q) * b;
        DivModUnique(a, b, -q, 0);
      } else {
        assert a == (-q - 1) * b + (b - r);
        DivModUnique(a, b, -q - 1, b - r);
      }
    }
  }

  /** Leap years before year `y`, counted from a fixed origin. */
  function Leaps(y: int): int {
    (y - 1) / 4 - (y - 1) / 100 + (y - 1) / 400
  }

  /** leaps_between */
  function LeapsBetween(y1: int, y2: int): int {
    var leaps1 := MathDiv(y1 - 1, 4) - MathDiv(y1 - 1, 100) + MathDiv(y1 - 1, 400);
    var leaps2 := MathDiv(y2 - 1, 4) - MathDiv(y2 - 1, 100) + MathDiv(y2 - 1, 400);
    leaps2 - leaps1
  }

  lemma LeapsBetweenIs(y1: int, y2: int)
    ensures LeapsBetween(y1, y2) == Leaps(y2) - Leaps(y1)
  {
    hide MathDiv;
    MathDivFloors(y1 - 1, 4);
    MathDivFloors(y1 - 1, 100);
    MathDivFloors(y1 - 1, 400);
    MathDivFloors(y2 - 1, 4);
    MathDivFloors(y2 - 1, 100);
    MathDivFloors(y2 - 1, 400);
  }

  lemma LeapStep(y: int)
    ensures Leaps(y + 1) - Leaps(y) == if IsLeap(y) then 1 else 0
  {
    FloorStep(y, 4);
    FloorStep(y, 100);
    FloorStep(y, 400);
    Centuries(y);
  }

  lemma Centuries(y: int)
    ensures y % 400 == 0 ==> y % 100 == 0
    ensures y % 100 == 0 ==> y % 4 == 0
  {
    if y % 400 == 0 {
      DivModUnique(y, 100, 4 * (y / 400), 0);
    }
    if y % 100 == 0 {
      DivModUnique(y, 4, 25 * (y / 100), 0);
    }
  }

  lemma FloorStep(y: int, m: int)
    requires m > 1
    ensures y / m - (y - 1) / m == if y % m == 0 then 1 else 0
  {
    var q, r := y / m, y % m;
    assert y == q * m + r;
    if r == 0 {
      assert y - 1 == (q - 1) * m + (m - 1);
      DivModUnique(y - 1, m, q - 1, m - 1);
    } else {
      DivModUnique(y - 1, m, q, r - 1);
    }
  }

  /** Counting year by year agrees with the closed form. */
  lemma {:induction false} YearStartClosed(y: int)
    ensures YearStart(y) == (y - 1970) * 365 + Leaps(y) - Leaps(1970)
    decreases if y >= 1970 then y - 1970 else 1970 - y
  {
    hide Leaps, IsLeap;
    if y > 1970 {
      YearStartClosed(y - 1);
      LeapStep(y - 1);
    } else if y < 1970 {
      YearStartClosed(y + 1);
      LeapStep(y);
    }
  }

  /** The correction that the loop applies is the distance between two New Year's Days. */
  lemma CorrectionExact(y1: int, y2: int)
    ensures (y2 - y1) * 365 + LeapsBetween(y1, y2) == YearStart(y2) - YearStart(y1)
  {
    hide YearStart, Leaps, LeapsBetween;
    YearStartClosed(y1);
    YearStartClosed(y2);
    LeapsBetweenIs(y1, y2);
  }

  /** At most one leap year in four. */
  lemma LeapsBound(y: int, n: nat)
    ensures 0 <= Leaps(y + n) - Leaps(y) <= (n + 3) / 4
  {
    var x, x' := y - 1, y + n - 1;
    var w, w' := x / 4, x' / 4;
    var z, z' := x / 100, x' / 100;
    assert z == w / 25 && z' == w' / 25;
    assert x / 400 == z / 4 && x' / 400 == z' / 4;
    assert w <= w' && z <= z';
    assert w' - w <= (n + 3) / 4;
    assert 0 <= z' / 4 - z / 4 <= z' - z;
    assert z' - z <= w' - w;
  }

  // ---- The year loop ends ----

  predicate InYear(days: int, y: int) {
    0 <= days < YearDays(y)
  }

  function Away(days: int, y: int): (n: nat) {
    if InYear(days, y) then 0 else 1 + (if days < 0 then -days else days)
  }

  /** Each correction brings the day count strictly closer to its year. */
  lemma CorrectionApproaches(days: int, y: int)
    requires !InYear(days, y)
    ensures var yg := y + days / 365;
            Away(days - (YearStart(yg) - YearStart(y)), yg) < Away(days, y)
  {
    hide YearStart, Leaps;
    var q, r := days / 365, days % 365;
    YearStartClosed(y);
    YearStartClosed(y + q);
    if days < 0 {
      LeapsBound(y + q, -q);
      if q == -1 {
        LeapStep(y - 1);
      }
    } else {
      LeapsBound(y, q);
    }
  }

  // ---- 64-bit arithmetic ----

  predicate InLong(x: int) {
    -0x8000_0000_0000_0000 <= x < 0x8000_0000_0000_0000
  }

  /** The states of the year loop for day number `d`. */
  predicate OnWay(d: int, days: int, y: int) {
    YearStart(y) + days == d && Away(days, y) <= Away(d, 1970)
  }

  lemma YearNearStart(y: int, bound: int)
    requires -bound <= YearStart(y) <= bound
    ensures -bound <= y - 1970 <= bound
  {
    hide Leaps, YearStart;
    YearStartClosed(y);
    if y >= 1970 {
      LeapsBound(1970, y - 1970);
    } else {
      LeapsBound(y, 1970 - y);
    }
  }

  /** For every day number that 64 bits of seconds can give, no value that a turn of the year loop computes leaves the
      range of a 64-bit long. */
  lemma TurnFits(d: int, days: int, y: int)
    requires -0x8000_0000_0000 <= d <= 0x8000_0000_0000 && OnWay(d, days, y)
    ensures InLong(days) && InLong(y) && InLong(MathDiv(days, 365))
    ensures var yg := y + MathDiv(days, 365);
            && InLong(yg) && InLong(yg - y) && InLong((yg - y) * 365)
            && InLong(y - 1) && InLong(yg - 1) && InLong(LeapsBetween(y, yg))
            && InLong((yg - y) * 365 + LeapsBetween(y, yg))
            && InLong(days - ((yg - y) * 365 + LeapsBetween(y, yg)))
  {
    hide YearStart, MathDiv, LeapsBetween;
    YearNearStart(y, 0x1_0000_0000_0001 + 366);
    MathDivFloors(days, 365);
    var yg := y + MathDiv(days, 365);
    LeapsBetweenIs(y, yg);
  }

  /** The same for the loops before it. */
  lemma SplitFits(totalsecs: int, offset: int, days: int, rem: int)
    requires InLong(totalsecs) && -0x8000_0000 <= offset < 0x8000_0000
    requires SECS_PER_DAY * days + rem == totalsecs + offset && -0x8001_5180 < rem < 0x8001_5180
    ensures InLong(rem) && InLong(rem + SECS_PER_DAY) && InLong(rem - SECS_PER_DAY)
    ensures -0x8000_0000_0000 < days - 1 && days + 1 < 0x8000_0000_0000 && InLong(4 + days)
  {
  }

  // ---- time_to_tm ----

  const SECS_PER_HOUR := 3600
  const SECS_PER_DAY := 86400

  datatype Tm = Tm(sec: int, min: int, hour: int, mday: int, mon: int, year: int, wday: int, yday: int)

  const MON_YDAY: seq<seq<int>> := [
    [0, 31, 59, 90, 120, 151, 181, 212, 243, 273, 304, 334, 365],
    [0, 31, 60, 91, 121, 152, 182, 213, 244, 274, 305, 335, 366]
  ]

  lemma TableIsMonthStart(m: nat, leap: bool)
    requires m <= 12
    ensures MON_YDAY[if leap then 1 else 0][m] == MonthStart(m, leap)
  {
    if m > 0 {
      TableIsMonthStart(m - 1, leap);
      assert m == 1 || m == 2 || m == 3 || m == 4 || m == 5 || m == 6 || m == 7 || m == 8 || m == 9 || m == 10
          || m == 11 || m == 12;
    }
  }

  predicate InRange(t: Tm) {
    && 0 <= t.sec < 60 && 0 <= t.min < 60 && 0 <= t.hour < 24
    && 0 <= t.mon < 12 && 1 <= t.mday <= MonthDays(t.mon, IsLeap(t.year + 1900))
  }

  /** Days from 1 January 1970 to the date. */
  function DayNumber(t: Tm): int
    requires 0 <= t.mon < 12
  {
    YearStart(t.year + 1900) + MonthStart(t.mon, IsLeap(t.year + 1900)) + t.mday - 1
  }

  /** Seconds from the epoch to the date and time. */
  function Seconds(t: Tm): int
    requires 0 <= t.mon < 12
  {
    SECS_PER_DAY * DayNumber(t) + SECS_PER_HOUR * t.hour + 60 * t.min + t.sec
  }

  /** For every time and offset: fields in range that denote exactly that instant, with its day of the year and its
      weekday (1 January 1970 was a Thursday). */
  method TimeToTm(totalsecs: int, offset: int) returns (t: Tm)
    ensures InRange(t) && Seconds(t) == totalsecs + offset
    ensures t.yday == MonthStart(t.mon, IsLeap(t.year + 1900)) + t.mday - 1
    ensures t.wday == (4 + DayNumber(t)) % 7
  {
    var days, rem := Split(totalsecs, offset);
    ghost var day0 := days;
    var hour := rem / SECS_PER_HOUR;
    rem := rem % SECS_PER_HOUR;
    var min, sec := rem / 60, rem % 60;
    var wday := TMod(4 + days, 7);
    if wday < 0 {
      wday := wday + 7;
    }
    assert wday == (4 + day0) % 7;
    var y;
    days, y := FindYear(days);
    var yday := days;
    var mon;
    days, mon := FindMonth(days, IsLeap(y));
    t := Tm(sec, min, hour, days + 1, mon, y - 1900, wday, yday);
  }

  function AbsOf(x: int): nat {
    if x < 0 then -x else x
  }

  /** The two loops that carry the offset into whole days. */
  method Split(totalsecs: int, offset: int) returns (days: int, rem: int)
    ensures 0 <= rem < SECS_PER_DAY && SECS_PER_DAY * days + rem == totalsecs + offset
  {
    days := TDiv(totalsecs, SECS_PER_DAY);
    rem := TMod(totalsecs, SECS_PER_DAY);
    rem := rem + offset;
    while rem < 0
      invariant SECS_PER_DAY * days + rem == totalsecs + offset && -rem - SECS_PER_DAY < AbsOf(offset)
      invariant rem < SECS_PER_DAY + AbsOf(offset)
      decreases -rem
    {
      rem := rem + SECS_PER_DAY;
      days := days - 1;
    }
    while rem >= SECS_PER_DAY
      invariant 0 <= rem < SECS_PER_DAY + AbsOf(offset) && SECS_PER_DAY * days + rem == totalsecs + offset
      decreases rem
    {
      rem := rem - SECS_PER_DAY;
      days := days + 1;
    }
  }

  /** The year loop: guess a year as if all had 365 days, correct by the leap years in between, repeat. */
  method FindYear(dayNumber: int) returns (days: int, y: int)
    ensures 0 <= days < YearDays(y) && YearStart(y) + days == dayNumber
  {
    hide YearStart, MathDiv, LeapsBetween;
    days, y := dayNumber, 1970;
    EpochYear();
    while days < 0 || days >= (if IsLeap(y) then 366 else 365)
      invariant OnWay(dayNumber, days, y)
      decreases Away(days, y)
    {
      MathDivFloors(days, 365);
      var yg := y + MathDiv(days, 365);
      CorrectionExact(y, yg);
      CorrectionApproaches(days, y);
      days := days - ((yg - y) * 365 + LeapsBetween(y, yg));
      y := yg;
    }
  }

  lemma EpochYear()
    ensures YearStart(1970) == 0
  {
  }

  /** The month loop: from December down to the month that holds the day. */
  method FindMonth(yday: int, leap: bool) returns (days: int, mon: nat)
    requires 0 <= yday < if leap then 366 else 365
    ensures mon < 12 && 0 <= days < MonthDays(mon, leap) && MonthStart(mon, leap) + days == yday
  {
    var ip := MON_YDAY[if leap then 1 else 0];
    mon := 11;
    TableIsMonthStart(12, leap);
    TableIsMonthStart(11, leap);
    while yday < ip[mon]
      invariant 0 <= mon <= 11 && yday < MonthStart(mon + 1, leap)
      invariant ip[mon] == MonthStart(mon, leap)
      decreases mon
    {
      mon := mon - 1;
      TableIsMonthStart(mon, leap);
    }
    days := yday - ip[mon];
  }

  // ---- The date is unique ----

  lemma {:induction false} YearStartGrows(y: int, z: int)
    requires y < z
    ensures YearStart(y) + YearDays(y) <= YearStart(z)
    decreases z - y
  {
    if y + 1 < z {
      YearStartGrows(y + 1, z);
    }
    NextYear(y);
  }

  lemma NextYear(y: int)
    ensures YearStart(y + 1) == YearStart(y) + YearDays(y)
  {
  }

  lemma {:induction false} MonthStartGrows(m: nat, n: nat, leap: bool)
    requires m < n <= 12
    ensures MonthStart(m, leap) + MonthDays(m, leap) <= MonthStart(n, leap)
    decreases n - m
  {
    if m + 1 < n {
      MonthStartGrows(m + 1, n, leap);
    }
  }

  lemma DayInYear(t: Tm)
    requires InRange(t)
    ensures YearStart(t.year + 1900) <= DayNumber(t) < YearStart(t.year + 1900) + YearDays(t.year + 1900)
  {
    hide YearStart, MonthStart;
    var leap := IsLeap(t.year + 1900);
    MonthStartGrows(t.mon, 12, leap);
    TableIsMonthStart(12, leap);
  }

  /** No other date and time in range denotes the same instant. */
  lemma DateUnique(t: Tm, u: Tm)
    requires InRange(t) && InRange(u) && Seconds(t) == Seconds(u)
    ensures t.(wday := 0, yday := 0) == u.(wday := 0, yday := 0)
  {
    hide YearStart, MonthStart, DayNumber, IsLeap, MonthDays;
    SameClock(DayNumber(t), t.hour, t.min, t.sec, DayNumber(u), u.hour, u.min, u.sec);
    SameDay(t, u);
  }

  lemma SameClock(d: int, h: int, m: int, s: int, e: int, i: int, n: int, r: int)
    requires 0 <= h < 24 && 0 <= m < 60 && 0 <= s < 60 && 0 <= i < 24 && 0 <= n < 60 && 0 <= r < 60
    requires SECS_PER_DAY * d + SECS_PER_HOUR * h + 60 * m + s == SECS_PER_DAY * e + SECS_PER_HOUR * i + 60 * n + r
    ensures d == e && h == i && m == n && s == r
  {
    SameDigits(1440 * d + 60 * h + m, s, 1440 * e + 60 * i + n, r, 60);
    SameDigits(24 * d + h, m, 24 * e + i, n, 60);
    SameDigits(d, h, e, i, 24);
  }

  lemma SameDigits(a: int, r: int, b: int, q: int, base: int)
    requires 0 <= r < base && 0 <= q < base && a * base + r == b * base + q
    ensures a == b && r == q
  {
    Arith.DivModUnique(a * base + r, base, a, r);
    Arith.DivModUnique(b * base + q, base, b, q);
  }

  lemma SameDay(t: Tm, u: Tm)
    requires InRange(t) && InRange(u) && DayNumber(t) == DayNumber(u)
    ensures t.year == u.year && t.mon == u.mon && t.mday == u.mday
  {
    hide YearStart, MonthStart, IsLeap;
    DayInYear(t);
    DayInYear(u);
    if t.year < u.year {
      YearStartGrows(t.year + 1900, u.year + 1900);
    } else if u.year < t.year {
      YearStartGrows(u.year + 1900, t.year + 1900);
    }
    var leap := IsLeap(t.year + 1900);
    if t.mon < u.mon {
      MonthStartGrows(t.mon, u.mon, leap);
    } else if u.mon < t.mon {
      MonthStartGrows(u.mon, t.mon, leap);
    }
  }
}
