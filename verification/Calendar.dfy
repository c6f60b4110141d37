/**
 * Civil dates from a count of days (crates/allod-graph/src/ops.rs:52-78). The day count of a date is
 * defined by adding up Gregorian year and month lengths; the program's arithmetic inverts it.
 */
module Calendar {

  newtype U64 = n: int | 0 <= n < 0x1_0000_0000_0000_0000

  newtype I64 = n: int | -0x8000_0000_0000_0000 <= n < 0x8000_0000_0000_0000

  datatype Date = Date(year: int, month: int, day: int)

  predicate Leap(y: int) {
    y % 4 == 0 && (y % 100 != 0 || y % 400 == 0)
  }

  function MonthLength(y: int, m: int): int {
    if m == 2 then (if Leap(y) then 29 else 28)
    else if m in {4, 6, 9, 11} then 30
    else 31
  }

  predicate Valid(date: Date) {
    1 <= date.month <= 12 && 1 <= date.day <= MonthLength(date.year, date.month)
  }

  function YearLength(y: int): int {
    if Leap(y) then 366 else 365
  }

  /** Days from 1970-01-01 to the first of January of a year. */
  function NewYear(y: int): int
    requires y >= 1970
  {
    if y == 1970 then 0 else NewYear(y - 1) + YearLength(y - 1)
  }

  function DaysBefore(y: int, m: int): int
    requires 1 <= m <= 12
  {
    if m == 1 then 0 else DaysBefore(y, m - 1) + MonthLength(y, m - 1)
  }

  /** Days from 1970-01-01 to a date. */
  function DayCount(date: Date): int
    requires date.year >= 1970 && Valid(date)
  {
    NewYear(date.year) + DaysBefore(date.year, date.month) + date.day - 1
  }

  // ---------------------------------------------------------------- the program's arithmetic

  function YearOfEra(doe: int): int {
    (doe - doe / 1460 + doe / 36_524 - doe / 146_096) / 365
  }

  function DayOfYear(doe: int): int {
    doe - (365 * YearOfEra(doe) + YearOfEra(doe) / 4 - YearOfEra(doe) / 100)
  }

  /** Year, month and day of a day count. */
  function CivilOf(days: nat): Date {
    var z := days + 719_468;
    var doy := DayOfYear(z % 146_097);
    var mp := (5 * doy + 2) / 153;
    var m := if mp < 10 then mp + 3 else mp - 9;
    Date(YearOfEra(z % 146_097) + z / 146_097 * 400 + (if m <= 2 then 1 else 0), m, doy - (153 * mp + 2) / 5 + 1)
  }

  /** A day of an era: century, four-year group, year of the group, day of that year. */
  lemma EraSplit(doe: int) returns (c: int, f: int, k: int, doy: int)
    requires 0 <= doe < 146_097
    ensures 0 <= c <= 3 && 0 <= f <= 24 && 0 <= k <= 3
    ensures doe == 36_524 * c + 1461 * f + 365 * k + doy
    ensures 0 <= doy <= 364 || (doy == 365 && k == 3 && (f == 24 ==> c == 3))
  {
    c := if doe / 36_524 > 3 then 3 else doe / 36_524;
    var r := doe - 36_524 * c;
    f := r / 1461;
    var s := r - 1461 * f;
    k := if s / 365 > 3 then 3 else s / 365;
    doy := s - 365 * k;
  }

  lemma YearOfEraIs(doe: int, c: int, f: int, k: int, doy: int)
    requires 0 <= c <= 3 && 0 <= f <= 24 && 0 <= k <= 3
    requires doe == 36_524 * c + 1461 * f + 365 * k + doy
    requires 0 <= doy <= 364 || (doy == 365 && k == 3 && (f == 24 ==> c == 3))
    ensures YearOfEra(doe) == 100 * c + 4 * f + k
    ensures DayOfYear(doe) == doy
  {
    var s := 365 * k + doy;
    var e := if f + s + 24 * c >= 1460 then 1 else 0;
    FourYears(doe, c, f, s, e);
    Centuries(doe, c, f, s);
    assert doe - doe / 1460 + doe / 36_524 - doe / 146_096 == 365 * (100 * c + 4 * f + k) + (doy - e);
    assert 0 <= doy - e < 365;
    YearDays(c, f, k);
  }

  lemma FourYears(doe: int, c: int, f: int, s: int, e: int)
    requires 0 <= c <= 3 && 0 <= f <= 24 && 0 <= s <= 1460
    requires doe == 36_524 * c + 1461 * f + s
    requires e == if f + s + 24 * c >= 1460 then 1 else 0
    ensures doe / 1460 == 25 * c + f + e
  {
    assert doe == 1460 * (25 * c + f) + (f + s + 24 * c);
  }

  lemma Centuries(doe: int, c: int, f: int, s: int)
    requires 0 <= c <= 3 && 0 <= f <= 24 && 0 <= s <= 1460
    requires s == 1460 && f == 24 ==> c == 3
    requires doe == 36_524 * c + 1461 * f + s
    ensures doe / 36_524 - doe / 146_096 == c
  {
  }

  lemma YearDays(c: int, f: int, k: int)
    requires 0 <= c <= 3 && 0 <= f <= 24 && 0 <= k <= 3
    ensures var y := 100 * c + 4 * f + k; 365 * y + y / 4 - y / 100 == 36_524 * c + 1461 * f + 365 * k
  {
    assert (100 * c + 4 * f + k) / 4 == 25 * c + f;
    assert (100 * c + 4 * f + k) / 100 == c;
  }

  // ---------------------------------------------------------------- the calendar's own count

  function LeapsBefore(y: int): int {
    (y - 1) / 4 - (y - 1) / 100 + (y - 1) / 400
  }

  lemma LeapCounts(y: int)
    ensures LeapsBefore(y + 1) == LeapsBefore(y) + if Leap(y) then 1 else 0
  {
    NextMultiple(y, 4);
    NextMultiple(y, 100);
    NextMultiple(y, 400);
  }

  lemma NextMultiple(y: int, n: int)
    requires n in {4, 100, 400}
    ensures y / n == (y - 1) / n + if y % n == 0 then 1 else 0
  {
  }

  lemma {:induction false} NewYearCloses(y: int)
    requires y >= 1970
    ensures NewYear(y) == 365 * (y - 1970) + LeapsBefore(y) - 477
  {
    if y > 1970 {
      NewYearCloses(y - 1);
      LeapCounts(y - 1);
    }
  }

  /** The first of March, and the following first of January. */
  lemma MarchFirst(era: int, c: int, f: int, k: int)
    requires 0 <= c <= 3 && 0 <= f <= 24 && 0 <= k <= 3
    requires 400 * era + 100 * c + 4 * f + k >= 1969
    ensures var y := 400 * era + 100 * c + 4 * f + k;
            && NewYear(y + 1) == 146_097 * era + 36_524 * c + 1461 * f + 365 * k - 719_468 + 306
            && (y >= 1970 ==> NewYear(y) + YearLength(y) == NewYear(y + 1))
            && (Leap(y + 1) <==> k == 3 && (f == 24 ==> c == 3))
  {
    var y := 400 * era + 100 * c + 4 * f + k;
    NewYearCloses(y + 1);
    assert y / 4 == 100 * era + 25 * c + f && y / 100 == 4 * era + c && y / 400 == era;
    LeapAfter(era, c, f, k);
  }

  lemma LeapAfter(era: int, c: int, f: int, k: int)
    requires 0 <= c <= 3 && 0 <= f <= 24 && 0 <= k <= 3
    ensures Leap(400 * era + 100 * c + 4 * f + k + 1) <==> k == 3 && (f == 24 ==> c == 3)
  {
    var q := 4 * f + k + 1;
    Remainder4(100 * era, 100 * c + q);
    Remainder100(4 * era, 100 * c + q);
    Remainder400(era, 100 * c + q);
    assert (100 * c + q) % 4 == 0 <==> k == 3;
    assert (100 * c + q) % 100 == 0 <==> q == 100;
    assert (100 * c + q) % 400 == 0 <==> q == 100 && c == 3;
    hide Leap;
    LeapByRemainder(400 * era + 100 * c + q, 100 * c + q);
  }

  lemma Remainder4(q: int, r: int)
    ensures (4 * q + r) % 4 == r % 4
  {
  }

  lemma Remainder100(q: int, r: int)
    ensures (100 * q + r) % 100 == r % 100
  {
  }

  lemma Remainder400(q: int, r: int)
    ensures (400 * q + r) % 400 == r % 400
  {
  }

  lemma LeapByRemainder(y: int, r: int)
    requires y % 4 == r % 4 && y % 100 == r % 100 && y % 400 == r % 400
    ensures Leap(y) <==> r % 4 == 0 && (r % 100 != 0 || r % 400 == 0)
  {
  }

  lemma MonthStarts(y: int)
    ensures DaysBefore(y, 2) == 31
    ensures forall m :: 3 <= m <= 12 ==> DaysBefore(y, m) == 59 + (if Leap(y) then 1 else 0) + (153 * (m - 3) + 2) / 5
  {
    hide Leap;
    var feb := 28 + if Leap(y) then 1 else 0;
    assert DaysBefore(y, 1) == 0 && DaysBefore(y, 2) == 31 && DaysBefore(y, 3) == 31 + feb;
    assert DaysBefore(y, 4) == 62 + feb && DaysBefore(y, 5) == 92 + feb && DaysBefore(y, 6) == 123 + feb;
    assert DaysBefore(y, 7) == 153 + feb && DaysBefore(y, 8) == 184 + feb && DaysBefore(y, 9) == 215 + feb;
    assert DaysBefore(y, 10) == 245 + feb && DaysBefore(y, 11) == 276 + feb && DaysBefore(y, 12) == 306 + feb;
    forall m | 3 <= m <= 12 ensures DaysBefore(y, m) == 31 + feb + (153 * (m - 3) + 2) / 5 {
    }
  }

  /** The months from March: the day of the March-based year falls in the month the program names. */
  lemma MonthOfDay(doy: int, mp: int)
    requires 0 <= doy <= 365 && mp == (5 * doy + 2) / 153
    ensures 0 <= mp <= 11
    ensures 0 <= doy - (153 * mp + 2) / 5
    ensures mp < 11 ==> doy < (153 * (mp + 1) + 2) / 5
    ensures (153 * 10 + 2) / 5 == 306 && (153 * 11 + 2) / 5 == 337
    ensures mp >= 10 <==> doy >= 306
  {
  }

  lemma MonthGap(m: int, y: int)
    requires 3 <= m <= 12
    ensures (153 * (m - 2) + 2) / 5 - (153 * (m - 3) + 2) / 5 == MonthLength(y, m)
  {
  }

  lemma FromMarch(y: int, mp: int, doy: int)
    requires y >= 1970 && 0 <= mp <= 9
    requires (153 * mp + 2) / 5 <= doy < (153 * (mp + 1) + 2) / 5
    ensures var date := Date(y, mp + 3, doy - (153 * mp + 2) / 5 + 1);
            Valid(date) && DayCount(date) == NewYear(y) + YearLength(y) - 306 + doy
  {
    hide Leap, NewYear;
    MonthStarts(y);
    MonthGap(mp + 3, y);
  }

  lemma BeforeMarch(y: int, mp: int, doy: int)
    requires y >= 1970 && 10 <= mp <= 11
    requires (153 * mp + 2) / 5 <= doy <= 365 && (mp == 10 ==> doy < 337) && (doy == 365 ==> Leap(y))
    ensures var date := Date(y, mp - 9, doy - (153 * mp + 2) / 5 + 1);
            Valid(date) && DayCount(date) == NewYear(y) - 306 + doy
  {
    hide Leap, NewYear;
    MonthStarts(y);
    assert DaysBefore(y, 1) == 0;
  }

  /** Counting the days back from the date gives the input, and the date is a date. */
  lemma CivilInverts(days: nat)
    ensures CivilOf(days).year >= 1970 && Valid(CivilOf(days))
    ensures DayCount(CivilOf(days)) == days
  {
    hide *;
    var era, doe := (days + 719_468) / 146_097, (days + 719_468) % 146_097;
    var c, f, k, doy := EraSplit(doe);
    YearOfEraIs(doe, c, f, k, doy);
    var y, mp := 400 * era + 100 * c + 4 * f + k, (5 * doy + 2) / 153;
    EraIsRecent(days, era, c, f, k, doy);
    MarchFirst(era, c, f, k);
    MonthOfDay(doy, mp);
    CivilIs(days, y, doy, mp);
    if mp < 10 {
      FromMarch(y, mp, doy);
    } else {
      BeforeMarch(y + 1, mp, doy);
    }
  }

  lemma CivilIs(days: nat, y: int, doy: int, mp: int)
    requires y == YearOfEra((days + 719_468) % 146_097) + 400 * ((days + 719_468) / 146_097)
    requires doy == DayOfYear((days + 719_468) % 146_097) && mp == (5 * doy + 2) / 153 && 0 <= mp <= 11
    ensures CivilOf(days) == (if mp < 10 then Date(y, mp + 3, doy - (153 * mp + 2) / 5 + 1)
                              else Date(y + 1, mp - 9, doy - (153 * mp + 2) / 5 + 1))
  {
    hide YearOfEra, DayOfYear;
  }

  lemma EraIsRecent(days: nat, era: int, c: int, f: int, k: int, doy: int)
    requires 0 <= c <= 3 && 0 <= f <= 24 && 0 <= k <= 3 && 0 <= doy <= 365
    requires days + 719_468 == 146_097 * era + 36_524 * c + 1461 * f + 365 * k + doy
    ensures 400 * era + 100 * c + 4 * f + k >= 1969
    ensures 400 * era + 100 * c + 4 * f + k == 1969 ==> doy >= 306
  {
    var y := 400 * era + 100 * c + 4 * f + k;
    assert era >= 4;
    if era == 4 {
      assert c == 3;
      assert f >= 17;
    }
  }

  // ---------------------------------------------------------------- order

  predicate Earlier(a: Date, b: Date) {
    || a.year < b.year
    || (a.year == b.year && a.month < b.month)
    || (a.year == b.year && a.month == b.month && a.day < b.day)
  }

  lemma {:induction false} YearsAdd(a: int, b: int)
    requires 1970 <= a < b
    ensures NewYear(a) + YearLength(a) <= NewYear(b)
  {
    hide Leap;
    if b > a + 1 {
      YearsAdd(a, b - 1);
    }
  }

  lemma {:induction false} MonthsAdd(y: int, a: int, b: int)
    requires 1 <= a < b <= 12
    ensures DaysBefore(y, a) + MonthLength(y, a) <= DaysBefore(y, b)
  {
    hide Leap;
    if b > a + 1 {
      MonthsAdd(y, a, b - 1);
    }
  }

  lemma YearHolds(y: int, m: int)
    requires 1 <= m <= 12
    ensures 0 <= DaysBefore(y, m) && DaysBefore(y, m) + MonthLength(y, m) <= YearLength(y)
  {
    hide Leap;
    if m < 12 {
      MonthsAdd(y, m, 12);
    }
    if m > 1 {
      MonthsAdd(y, 1, m);
    }
    MonthStarts(y);
  }

  lemma CountIsMonotone(a: Date, b: Date)
    requires a.year >= 1970 && b.year >= 1970 && Valid(a) && Valid(b)
    requires Earlier(a, b)
    ensures DayCount(a) < DayCount(b)
  {
    YearHolds(a.year, a.month);
    YearHolds(b.year, b.month);
    if a.year < b.year {
      YearsAdd(a.year, b.year);
    } else if a.month < b.month {
      MonthsAdd(a.year, a.month, b.month);
    }
  }

  /** Later days have later dates, and every date from 1970 on is the date of its own count. */
  lemma CivilIsMonotone(m: nat, n: nat)
    ensures m < n <==> Earlier(CivilOf(m), CivilOf(n))
  {
    CivilInverts(m);
    CivilInverts(n);
    hide CivilOf;
    var a, b := CivilOf(m), CivilOf(n);
    if Earlier(a, b) {
      CountIsMonotone(a, b);
    } else if Earlier(b, a) {
      CountIsMonotone(b, a);
    }
  }

  lemma EveryDateIsReached(date: Date)
    requires date.year >= 1970 && Valid(date)
    ensures DayCount(date) >= 0
    ensures CivilOf(DayCount(date)) == date
  {
    YearHolds(date.year, date.month);
    if date.year > 1970 {
      YearsAdd(1970, date.year);
    }
    var n := DayCount(date);
    CivilInverts(n);
    hide CivilOf, Valid;
    if Earlier(date, CivilOf(n)) {
      CountIsMonotone(date, CivilOf(n));
    } else if Earlier(CivilOf(n), date) {
      CountIsMonotone(CivilOf(n), date);
    }
  }

  // ---------------------------------------------------------------- the method

  datatype Stamp = Stamp(date: Date, hour: int, minute: int, second: int)

  method EraFields(days: U64) returns (era: I64, doe: U64)
    requires days <= 213_503_982_334_601
    ensures era as int == (days as int + 719_468) / 146_097 && doe as int == (days as int + 719_468) % 146_097
  {
    var z := days as I64 + 719_468;
    assert z >= 0; // so the program's branch for negative days is never taken
    era := z / 146_097;
    doe := (z - era * 146_097) as U64;
  }

  method YearFields(doe: U64) returns (yoe: U64, doy: U64)
    requires doe < 146_097
    ensures yoe as int == YearOfEra(doe as int) && doy as int == DayOfYear(doe as int)
    ensures yoe < 400 && doy <= 365
  {
    ghost var c, f, k, day := EraSplit(doe as int);
    YearOfEraIs(doe as int, c, f, k, day);
    yoe := (doe - doe / 1460 + doe / 36_524 - doe / 146_096) / 365;
    doy := doe - (365 * yoe + yoe / 4 - yoe / 100);
  }

  method MonthFields(doy: U64) returns (m: U64, d: U64)
    requires doy <= 365
    ensures var mp := (5 * doy as int + 2) / 153;
            m as int == (if mp < 10 then mp + 3 else mp - 9) && d as int == doy as int - (153 * mp + 2) / 5 + 1
  {
    var mp := (5 * doy + 2) / 153;
    MonthOfDay(doy as int, mp as int);
    d := doy - (153 * mp + 2) / 5 + 1;
    m := if mp < 10 then mp + 3 else mp - 9;
  }

  method DateFields(days: U64) returns (date: Date)
    requires days <= 213_503_982_334_601
    ensures date == CivilOf(days as int)
  {
    hide YearOfEra, DayOfYear;
    var era, doe := EraFields(days);
    var yoe, doy := YearFields(doe);
    var m, d := MonthFields(doy);
    var y := yoe as I64 + era * 400 + (if m <= 2 then 1 else 0);
    date := Date(y as int, m as int, d as int);
  }

  method ClockFields(rem: U64) returns (hour: U64, minute: U64, second: U64)
    requires rem < 86_400
    ensures hour < 24 && minute < 60 && second < 60
    ensures 3600 * hour as int + 60 * minute as int + second as int == rem as int
  {
    hour, minute, second := rem / 3600, rem % 3600 / 60, rem % 60;
    var left := rem % 3600;
    assert left % 60 == second;
  }

  /** The fields of the time stamp, in the program's machine integers: no step of it overflows. */
  method StampOf(secs: U64) returns (stamp: Stamp)
    ensures stamp.date.year >= 1970 && Valid(stamp.date)
    ensures 0 <= stamp.hour < 24 && 0 <= stamp.minute < 60 && 0 <= stamp.second < 60
    ensures 86_400 * DayCount(stamp.date) + 3600 * stamp.hour + 60 * stamp.minute + stamp.second == secs as int
  {
    hide *;
    var days, rem := secs / 86_400, secs % 86_400;
    var date := DateFields(days);
    var hour, minute, second := ClockFields(rem);
    CivilInverts(days as int);
    stamp := Stamp(date, hour as int, minute as int, second as int);
    assert secs as int == 86_400 * days as int + rem as int;
  }
}
