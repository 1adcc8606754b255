/** The UTC formatting of port/ptp/ptp_core.c: the civil date of a day number, the
    time of day, and the decimal fields. */
module PtpUtc {
  import opened CInt
  import opened Common
  import opened PtpClock

  // ----- The calendar ------------------------------------------------------

  datatype Date = Date(y: int, m: int, d: int)

  predicate Leap(y: int) {
    y % 4 == 0 && (y % 100 != 0 || y % 400 == 0)
  }

  function DaysInMonth(y: int, m: int): int {
    if m == 2 then (if Leap(y) then 29 else 28)
    else if m == 4 || m == 6 || m == 9 || m == 11 then 30 else 31
  }

  predicate Valid(date: Date) {
    1 <= date.m <= 12 && 1 <= date.d <= DaysInMonth(date.y, date.m)
  }

  /** The day after, by the calendar. */
  function Tomorrow(date: Date): Date {
    if date.d < DaysInMonth(date.y, date.m) then date.(d := date.d + 1)
    else if date.m < 12 then Date(date.y, date.m + 1, 1)
    else Date(date.y + 1, 1, 1)
  }

  /** Days from 1970-01-01 to the first of January of y. */
  function YearStart(y: int): int {
    365 * y + (y - 1) / 4 - (y - 1) / 100 + (y - 1) / 400 - 719527
  }

  /** Days of year y before month m. */
  function MonthStart(y: int, m: int): int
    requires 1 <= m <= 12
  {
    [0, 31, 59, 90, 120, 151, 181, 212, 243, 273, 304, 334][m - 1] + if m > 2 && Leap(y) then 1 else 0
  }

  function DayNumber(date: Date): int
    requires 1 <= date.m <= 12
  {
    YearStart(date.y) + MonthStart(date.y, date.m) + date.d - 1
  }

  lemma YearLength(y: int)
    ensures YearStart(y + 1) == YearStart(y) + if Leap(y) then 366 else 365
  {
    var a, b, c := y / 4, y / 100, y / 400;
    assert y % 4 == 0 ==> (y - 1) / 4 == a - 1;
    assert y % 4 != 0 ==> (y - 1) / 4 == a;
    assert y % 100 == 0 ==> (y - 1) / 100 == b - 1;
    assert y % 100 != 0 ==> (y - 1) / 100 == b;
    assert y % 400 == 0 ==> (y - 1) / 400 == c - 1;
    assert y % 400 != 0 ==> (y - 1) / 400 == c;
  }

  lemma MonthLength(y: int, m: int)
    requires 1 <= m < 12
    ensures MonthStart(y, m + 1) == MonthStart(y, m) + DaysInMonth(y, m)
    ensures MonthStart(y, 12) + 31 == if Leap(y) then 366 else 365
  {
  }

  lemma TomorrowCounts(date: Date)
    requires Valid(date)
    ensures Valid(Tomorrow(date)) && DayNumber(Tomorrow(date)) == DayNumber(date) + 1
  {
    YearLength(date.y);
    MonthLength(date.y, if date.m < 12 then date.m else 11);
  }

  lemma {:induction false} YearsAscend(y: int, z: int)
    requires y < z
    ensures YearStart(y + 1) <= YearStart(z)
    decreases z - y
  {
    if y + 1 < z {
      YearsAscend(y, z - 1);
      YearLength(z - 1);
    }
  }

  lemma MonthsAscend(y: int, m: int, n: int)
    requires 1 <= m < n <= 12
    ensures MonthStart(y, m) + DaysInMonth(y, m) <= MonthStart(y, n)
  {
  }

  lemma InYear(date: Date)
    requires Valid(date)
    ensures YearStart(date.y) <= DayNumber(date) < YearStart(date.y + 1)
  {
    YearLength(date.y);
    MonthLength(date.y, 1);
    if date.m < 12 { MonthsAscend(date.y, date.m, 12); }
  }

  /** A day number is the number of only one date. */
  lemma DayNumberIsInjective(a: Date, b: Date)
    requires Valid(a) && Valid(b) && DayNumber(a) == DayNumber(b)
    ensures a == b
  {
    InYear(a);
    InYear(b);
    if a.y < b.y { YearsAscend(a.y, b.y); }
    if b.y < a.y { YearsAscend(b.y, a.y); }
    if a.m < b.m { MonthsAscend(a.y, a.m, b.m); }
    if b.m < a.m { MonthsAscend(a.y, b.m, a.m); }
  }

  // ----- The date of a day number ------------------------------------------

  function EraOf(zz: int): int {
    Quot(if zz >= 0 then zz else zz - 146096, 146097)
  }

  function YearOfEra(doe: int): int {
    (doe - doe / 1460 + doe / 36524 - doe / 146096) / 365
  }

  function CivilFromDays(z: int): Date {
    var zz := z + 719468;
    var era := EraOf(zz);
    var doe := zz - era * 146097;
    var yoe := YearOfEra(doe);
    var doy := doe - (365 * yoe + yoe / 4 - yoe / 100);
    var mp := (5 * doy + 2) / 153;
    var d := doy - (153 * mp + 2) / 5 + 1;
    var m := if mp < 10 then mp + 3 else mp - 9;
    Date(yoe + era * 400 + if m <= 2 then 1 else 0, m, d)
  }

  lemma EraIsFloor(zz: int)
    ensures EraOf(zz) == zz / 146097 && 0 <= zz - EraOf(zz) * 146097 < 146097
  {
    if zz < 0 { FloorIs(-(zz - 146096), 146097, -(zz / 146097)); }
  }

  /** A day of the era is in century c, four-year cycle q of it, year r of that, and
      k days into that year, which begins in March. */
  ghost predicate Parts(doe: int, c: int, q: int, r: int, k: int) {
    && 0 <= c <= 3 && 0 <= q <= 24 && 0 <= r <= 3 && 0 <= k <= 365
    && doe == 36524 * c + 1461 * q + 365 * r + k
    && (k == 365 ==> r == 3 && (q < 24 || c == 3))
  }

  lemma PartsOf(doe: int) returns (c: int, q: int, r: int, k: int)
    requires 0 <= doe < 146097
    ensures Parts(doe, c, q, r, k)
  {
    c := if doe / 36524 < 3 then doe / 36524 else 3;
    var a := doe - 36524 * c;
    q := if a / 1461 < 24 then a / 1461 else 24;
    var b := a - 1461 * q;
    r := if b / 365 < 3 then b / 365 else 3;
    k := b - 365 * r;
  }

  lemma FourYears(doe: int, c: int, q: int, r: int, k: int, s: int, late: int)
    requires Parts(doe, c, q, r, k) && s == 24 * c + q + 365 * r + k && late == if s >= 1460 then 1 else 0
    ensures doe / 1460 == 25 * c + q + late
  {
    assert doe == 1460 * (25 * c + q) + s;
  }

  lemma Centuries(doe: int, c: int, q: int, r: int, k: int)
    requires Parts(doe, c, q, r, k)
    ensures doe / 36524 - doe / 146096 == c
  {
  }

  lemma YearOfEraIs(doe: int, c: int, q: int, r: int, k: int)
    requires Parts(doe, c, q, r, k)
    ensures YearOfEra(doe) == 100 * c + 4 * q + r
  {
    var s := 24 * c + q + 365 * r + k;
    var late := if s >= 1460 then 1 else 0;
    FourYears(doe, c, q, r, k, s, late);
    Centuries(doe, c, q, r, k);
    assert doe - doe / 1460 + doe / 36524 - doe / 146096 == 365 * (100 * c + 4 * q + r) + (k - late);
    assert 0 <= k - late < 365;
  }

  lemma DayOfYearIs(doe: int, c: int, q: int, r: int, k: int)
    requires Parts(doe, c, q, r, k)
    ensures var yoe := YearOfEra(doe); doe - (365 * yoe + yoe / 4 - yoe / 100) == k
  {
    YearOfEraIs(doe, c, q, r, k);
    var yoe := 100 * c + 4 * q + r;
    assert yoe / 4 == 25 * c + q && yoe / 100 == c;
  }

  /** The months of a year that begins in March. */
  function MarchStart(mp: int): int
    requires 0 <= mp <= 12
  {
    [0, 31, 61, 92, 122, 153, 184, 214, 245, 275, 306, 337, 367][mp]
  }

  lemma MonthOfDay(doy: int)
    requires 0 <= doy <= 365
    ensures var mp := (5 * doy + 2) / 153;
            0 <= mp <= 11 && MarchStart(mp) == (153 * mp + 2) / 5 && MarchStart(mp) <= doy < MarchStart(mp + 1)
  {
    var mp := (5 * doy + 2) / 153;
    assert mp == 0 || mp == 1 || mp == 2 || mp == 3 || mp == 4 || mp == 5 || mp == 6 || mp == 7 || mp == 8 || mp == 9
        || mp == 10 || mp == 11;
  }

  /** The year that begins in March of year y of the era has 366 days when the
      February at its end has 29. */
  lemma LeapAtEnd(c: int, q: int, r: int, era: int)
    requires 0 <= c <= 3 && 0 <= q <= 24 && 0 <= r <= 3
    ensures Leap(100 * c + 4 * q + r + 400 * era + 1) <==> r == 3 && (q < 24 || c == 3)
  {
    var y := 100 * c + 4 * q + r + 400 * era + 1;
    Divisible(y, 4, 25 * c + q + 100 * era, r + 1);
    Divisible(y, 100, c + 4 * era, 4 * q + r + 1);
    Divisible(y, 400, era, 100 * c + 4 * q + r + 1);
  }

  lemma Divisible(y: int, b: int, q: int, r: int)
    requires b > 0 && y == b * q + r && 1 <= r <= b
    ensures y % b == 0 <==> r == b
  {
    if r == b {
      assert y == b * (q + 1);
      FloorIs(y, b, q + 1);
    } else {
      FloorIs(y, b, q);
    }
  }

  /** Years of the era, counted from March, begin where the calendar says. */
  lemma MarchOfYear(c: int, q: int, r: int, era: int)
    requires 0 <= c <= 3 && 0 <= q <= 24 && 0 <= r <= 3
    ensures var y := 100 * c + 4 * q + r + 400 * era;
            YearStart(y) + MonthStart(y, 3) == 146097 * era - 719468 + 36524 * c + 1461 * q + 365 * r
  {
    var u := 100 * c + 4 * q + r;
    var y := u + 400 * era;
    YearLength(y);
    assert y / 4 == 25 * c + q + 100 * era;
    assert y / 100 == c + 4 * era;
    assert y / 400 == era;
  }

  /** A date by its parts. */
  function DateOf(c: int, q: int, r: int, k: int, era: int): Date
    requires 0 <= k <= 365
  {
    MonthOfDay(k);
    var y, mp := 100 * c + 4 * q + r + 400 * era, (5 * k + 2) / 153;
    if mp < 10 then Date(y, mp + 3, k - MarchStart(mp) + 1) else Date(y + 1, mp - 9, k - MarchStart(mp) + 1)
  }

  lemma CivilByParts(z: int, c: int, q: int, r: int, k: int, era: int)
    requires era == EraOf(z + 719468) && Parts(z + 719468 - era * 146097, c, q, r, k)
    ensures CivilFromDays(z) == DateOf(c, q, r, k, era)
  {
    var doe := z + 719468 - era * 146097;
    YearOfEraIs(doe, c, q, r, k);
    DayOfYearIs(doe, c, q, r, k);
    hide EraOf, YearOfEra, Parts;
    MonthOfDay(k);
  }

  lemma DateOfParts(z: int, c: int, q: int, r: int, k: int, era: int)
    requires Parts(z + 719468 - era * 146097, c, q, r, k)
    ensures Valid(DateOf(c, q, r, k, era)) && DayNumber(DateOf(c, q, r, k, era)) == z
  {
    MonthOfDay(k);
    LeapAtEnd(c, q, r, era);
    MarchOfYear(c, q, r, era);
    YearLength(100 * c + 4 * q + r + 400 * era);
    hide YearStart, Leap;
  }

  /** For every day number the result is a date of the calendar, and the day
      number of that date is the day it was computed from. */
  lemma CivilIsRight(z: int)
    ensures Valid(CivilFromDays(z)) && DayNumber(CivilFromDays(z)) == z
  {
    var zz := z + 719468;
    EraIsFloor(zz);
    var era := EraOf(zz);
    var c, q, r, k := PartsOf(zz - era * 146097);
    hide CivilFromDays, DateOf, Valid, DayNumber, EraOf;
    CivilByParts(z, c, q, r, k, era);
    DateOfParts(z, c, q, r, k, era);
  }

  /** Consecutive days have consecutive dates and day 0 is 1970-01-01: the code
      computes the proleptic Gregorian calendar. */
  lemma CivilAdvances(z: int)
    ensures CivilFromDays(z + 1) == Tomorrow(CivilFromDays(z))
  {
    hide CivilFromDays, DayNumber, Valid, Tomorrow;
    CivilIsRight(z);
    CivilIsRight(z + 1);
    ValidMonth(CivilFromDays(z));
    ValidMonth(CivilFromDays(z + 1));
    TomorrowCounts(CivilFromDays(z));
    DayNumberIsInjective(CivilFromDays(z + 1), Tomorrow(CivilFromDays(z)));
  }

  lemma CivilBegins()
    ensures CivilFromDays(0) == Date(1970, 1, 1)
  {
    hide CivilFromDays;
    CivilIsRight(0);
    DayNumberIsInjective(CivilFromDays(0), Date(1970, 1, 1));
  }

  lemma ValidMonth(date: Date)
    requires Valid(date)
    ensures 1 <= date.m <= 12
  {
  }

  // ----- The time of day ---------------------------------------------------

  datatype Fields = Fields(date: Date, hour: int, minute: int, second: int, micros: int)

  function Seconds(utc: int): int {
    Quot(utc, NsPerSec) - if Rem(utc, NsPerSec) < 0 then 1 else 0
  }

  function Nanos(utc: int): int {
    Rem(utc, NsPerSec) + if Rem(utc, NsPerSec) < 0 then NsPerSec else 0
  }

  function DayOf(secs: int): int {
    if secs >= 0 then secs / 86400 else Quot(secs - 86399, 86400)
  }

  function FieldsOf(utc: int): Fields {
    var secs := Seconds(utc);
    var z := DayOf(secs);
    var sod := secs - z * 86400;
    Fields(CivilFromDays(z), sod / 3600, (sod / 60) % 60, sod % 60, Nanos(utc) / 1000)
  }

  /** The instant the fields name, in microseconds since 1970. */
  function Instant(f: Fields): int
    requires 1 <= f.date.m <= 12
  {
    (((DayNumber(f.date) * 24 + f.hour) * 60 + f.minute) * 60 + f.second) * 1_000_000 + f.micros
  }

  lemma SecondsAreFloor(utc: int)
    ensures Seconds(utc) == utc / NsPerSec && Nanos(utc) == utc % NsPerSec
  {
    QuotBounds(utc, NsPerSec);
    FloorIs(utc, NsPerSec, Seconds(utc));
  }

  lemma DayIsFloor(secs: int)
    ensures DayOf(secs) == secs / 86400
  {
    if secs < 0 { FloorIs(-(secs - 86399), 86400, -(secs / 86400)); }
  }

  /** The fields are those of a clock and a calendar, and together they are the
      instant they were computed from, to the microsecond below, before 1970 too. */
  lemma FieldsAreRight(utc: int)
    ensures var f := FieldsOf(utc);
            && Valid(f.date) && 0 <= f.hour < 24 && 0 <= f.minute < 60 && 0 <= f.second < 60
            && 0 <= f.micros < 1_000_000
            && Instant(f) == utc / 1000
  {
    var secs := Seconds(utc);
    SecondsAreFloor(utc);
    DayIsFloor(secs);
    CivilIsRight(DayOf(secs));
    hide CivilFromDays, DayNumber, Valid, Quot, Rem;
    ValidMonth(CivilFromDays(DayOf(secs)));
    var sod := secs - DayOf(secs) * 86400;
    assert (sod / 60) / 60 == sod / 3600;
    assert utc / 1000 == secs * 1_000_000 + Nanos(utc) / 1000;
  }

  // ----- The text ----------------------------------------------------------

  /** The last `width` decimal digits. */
  function Digits(v: nat, width: nat): (t: string)
    ensures |t| == width
  {
    if width == 0 then "" else Digits(v / 10, width - 1) + [Digit(v % 10)]
  }

  function Value(t: string): nat
    requires forall i :: 0 <= i < |t| ==> '0' <= t[i] <= '9'
  {
    if t == "" then 0 else Value(t[..|t| - 1]) * 10 + (t[|t| - 1] - '0') as nat
  }

  lemma {:induction false} DigitsHaveValue(v: nat, width: nat)
    ensures forall i :: 0 <= i < width ==> '0' <= Digits(v, width)[i] <= '9'
    ensures Value(Digits(v, width)) == v % Pow10(width)
  {
    if width > 0 {
      DigitsHaveValue(v / 10, width - 1);
      var t := Digits(v, width);
      assert t[..|t| - 1] == Digits(v / 10, width - 1);
      ModStep(v, Pow10(width - 1));
    }
  }

  lemma ModStep(v: nat, p: nat)
    requires p > 0
    ensures (v / 10 % p) * 10 + v % 10 == v % (10 * p)
  {
    var a, r := v / 10, v / 10 % p;
    var q := a / p;
    assert a == p * q + r && v == 10 * a + v % 10;
    assert v == (10 * p) * q + (r * 10 + v % 10);
    FloorIs(v, 10 * p, q);
  }

  predicate Natural(f: Fields) {
    f.date.m >= 0 && f.date.d >= 0 && f.hour >= 0 && f.minute >= 0 && f.second >= 0 && f.micros >= 0
  }

  function Field(before: string, v: nat, width: nat, sep: char): (t: string)
    ensures |t| == |before| + width + 1
  {
    before + Digits(v, width) + [sep]
  }

  /** The first n fields of the text: year, month, day, hour, minute, second and
      microsecond. The year is printed as an unsigned 32-bit number. */
  function Text(f: Fields, n: nat): (t: string)
    requires Natural(f) && n <= 7
    ensures |t| == [0, 5, 8, 11, 14, 17, 20, 27][n]
  {
    if n == 0 then ""
    else if n == 1 then Field(Text(f, 0), f.date.y % 0x1_0000_0000, 4, '-')
    else if n == 2 then Field(Text(f, 1), f.date.m, 2, '-')
    else if n == 3 then Field(Text(f, 2), f.date.d, 2, ' ')
    else if n == 4 then Field(Text(f, 3), f.hour, 2, ':')
    else if n == 5 then Field(Text(f, 4), f.minute, 2, ':')
    else if n == 6 then Field(Text(f, 5), f.second, 2, '.')
    else Field(Text(f, 6), f.micros, 6, '\0')
  }

  lemma FieldReads(before: string, v: nat, width: nat, sep: char)
    ensures var t := Field(before, v, width, sep);
            before <= t && Reads(t[|before|..|before| + width], v % Pow10(width)) && t[|before| + width] == sep
  {
    DigitsHaveValue(v, width);
    var t := Field(before, v, width, sep);
    assert t[|before|..|before| + width] == Digits(v, width);
  }

  lemma {:induction false} TextBegins(f: Fields, n: nat)
    requires Natural(f) && n <= 7
    ensures Text(f, n) <= Text(f, 7)
    decreases 7 - n
  {
    if n < 7 {
      TextBegins(f, n + 1);
      hide Digits;
      assert Text(f, n) <= Text(f, n + 1);
    }
  }

  lemma SliceOfPrefix(t: string, p: string, a: nat, b: nat)
    requires p <= t && a <= b <= |p|
    ensures t[a..b] == p[a..b]
  {
  }

  /** The marks between the fields: 2024-01-31 23:59:59.999999, with a terminator. */
  predicate Punctuated(t: string) {
    |t| == 27 && t[4] == t[7] == '-' && t[10] == ' ' && t[13] == t[16] == ':' && t[19] == '.' && t[26] == '\0'
  }

  lemma MarkOfText(f: Fields, n: nat, v: nat, width: nat, sep: char)
    requires Natural(f) && n < 7 && Text(f, n + 1) == Field(Text(f, n), v, width, sep)
    ensures var at := |Text(f, n)| + width; at < 27 && Text(f, 7)[at] == sep
  {
    TextBegins(f, n + 1);
    hide Text;
    FieldReads(Text(f, n), v, width, sep);
  }

  lemma TextIsPunctuated(f: Fields)
    requires Natural(f)
    ensures Punctuated(Text(f, 7))
  {
    hide Field;
    MarkOfText(f, 0, f.date.y % 0x1_0000_0000, 4, '-');
    MarkOfText(f, 1, f.date.m, 2, '-');
    MarkOfText(f, 2, f.date.d, 2, ' ');
    MarkOfText(f, 3, f.hour, 2, ':');
    MarkOfText(f, 4, f.minute, 2, ':');
    MarkOfText(f, 5, f.second, 2, '.');
    MarkOfText(f, 6, f.micros, 6, '\0');
  }

  /** Every field can be read back from the text; the year if and only if it is one
      from 0 to 9999, and otherwise the last four digits of its unsigned 32-bit value. */
  lemma TextIsReadable(f: Fields)
    requires Natural(f) && f.date.m < 100 && f.date.d < 100
    requires f.hour < 100 && f.minute < 100 && f.second < 100 && f.micros < 1_000_000
    ensures var t := Text(f, 7);
            && Reads(t[0..4], f.date.y % 0x1_0000_0000 % 10_000) && Reads(t[5..7], f.date.m)
            && Reads(t[8..10], f.date.d)
            && Reads(t[11..13], f.hour) && Reads(t[14..16], f.minute) && Reads(t[17..19], f.second)
            && Reads(t[20..26], f.micros)
            && (Reads(t[0..4], f.date.y) <==> 0 <= f.date.y < 10_000)
  {
    Powers();
    hide Field, Reads, Pow10;
    YearReads(f);
    FieldIs(f, 1, f.date.m, 2, '-');
    FieldIs(f, 2, f.date.d, 2, ' ');
    FieldIs(f, 3, f.hour, 2, ':');
    FieldIs(f, 4, f.minute, 2, ':');
    FieldIs(f, 5, f.second, 2, '.');
    FieldIs(f, 6, f.micros, 6, '\0');
  }

  lemma YearReads(f: Fields)
    requires Natural(f)
    ensures Reads(Text(f, 7)[0..4], f.date.y % 0x1_0000_0000 % 10_000)
    ensures Reads(Text(f, 7)[0..4], f.date.y) <==> 0 <= f.date.y < 10_000
  {
    Powers();
    FieldOfText(f, 0, f.date.y % 0x1_0000_0000, 4, '-');
    OneValue(Text(f, 7)[0..4], f.date.y % 0x1_0000_0000 % 10_000, f.date.y);
    hide Field, Reads, Pow10;
  }

  lemma FieldIs(f: Fields, n: nat, v: nat, width: nat, sep: char)
    requires Natural(f) && n < 7 && Text(f, n + 1) == Field(Text(f, n), v, width, sep) && v < Pow10(width)
    ensures var from := |Text(f, n)|; from + width <= 27 && Reads(Text(f, 7)[from..from + width], v)
  {
    hide Field, Reads, Text;
    FieldOfText(f, n, v, width, sep);
    FloorIs(v, Pow10(width), 0);
  }

  lemma OneValue(t: string, v: int, y: int)
    requires v == y % 0x1_0000_0000 % 10_000
    ensures Reads(t, v) ==> (Reads(t, y) <==> 0 <= y < 10_000)
  {
  }

  lemma FieldOfText(f: Fields, n: nat, v: nat, width: nat, sep: char)
    requires Natural(f) && n < 7 && Text(f, n + 1) == Field(Text(f, n), v, width, sep)
    ensures var from := |Text(f, n)|; from + width <= 27 && Reads(Text(f, 7)[from..from + width], v % Pow10(width))
  {
    hide Field, Reads;
    FieldReads(Text(f, n), v, width, sep);
    TextBegins(f, n + 1);
    SliceOfPrefix(Text(f, 7), Text(f, n + 1), |Text(f, n)|, |Text(f, n)| + width);
  }

  ghost predicate Reads(t: string, v: int) {
    (forall i :: 0 <= i < |t| ==> '0' <= t[i] <= '9') && Value(t) == v
  }

  /** An instant of a signed 64-bit count of nanoseconds is in the years 1677 to 2262. */
  lemma YearsOfInt64(utc: int)
    requires Int64(utc)
    ensures 1677 <= FieldsOf(utc).date.y <= 2262
  {
    hide CivilFromDays, DayNumber, Valid, DayOf, Seconds;
    var z := DayOf(Seconds(utc));
    DaysOfInt64(utc);
    CivilIsRight(z);
    YearOfDay(CivilFromDays(z));
  }

  lemma DaysOfInt64(utc: int)
    requires Int64(utc)
    ensures -106_752 <= DayOf(Seconds(utc)) <= 106_751
  {
    SecondsAreFloor(utc);
    DayIsFloor(Seconds(utc));
    hide DayOf, Seconds, Nanos;
    assert -9_223_372_037 <= utc / NsPerSec <= 9_223_372_036;
  }

  lemma YearOfDay(date: Date)
    requires Valid(date) && -106_752 <= DayNumber(date) <= 106_751
    ensures 1677 <= date.y <= 2262
  {
    InYear(date);
    assert YearStart(1677) == -107_015 && YearStart(2263) == 107_016;
    hide YearStart, DayNumber;
    if date.y < 1677 { YearsAscend(date.y, 1677); }
    if date.y > 2262 { YearsAscend(2262, date.y); }
  }

  ghost function Number(t: string): nat {
    if forall i :: 0 <= i < |t| ==> '0' <= t[i] <= '9' then Value(t) else 0
  }

  /** What a reader makes of the text. */
  ghost function ReadFields(t: string): Fields
    requires |t| == 27
  {
    Fields(Date(Number(t[0..4]), Number(t[5..7]), Number(t[8..10])),
           Number(t[11..13]), Number(t[14..16]), Number(t[17..19]), Number(t[20..26]))
  }

  lemma NumberReads(t: string, v: int)
    requires Reads(t, v)
    ensures Number(t) == v
  {
  }

  /** The round trip: for every instant the code can be given, reading the text back
      gives the fields, which name the instant to the microsecond below. */
  lemma TextRoundTrip(utc: int)
    requires Int64(utc)
    ensures var f := FieldsOf(utc);
            && Natural(f) && 1 <= f.date.m <= 12
            && ReadFields(Text(f, 7)) == f && Instant(f) == utc / 1000
  {
    YearsOfInt64(utc);
    FieldsAreRight(utc);
    var f := FieldsOf(utc);
    DaysOfMonth(f.date);
    hide FieldsOf, Instant, Valid, Text, Reads, Number;
    TextIsReadable(f);
    var t := Text(f, 7);
    NumberReads(t[0..4], f.date.y);
    NumberReads(t[5..7], f.date.m);
    NumberReads(t[8..10], f.date.d);
    NumberReads(t[11..13], f.hour);
    NumberReads(t[14..16], f.minute);
    NumberReads(t[17..19], f.second);
    NumberReads(t[20..26], f.micros);
  }

  lemma DaysOfMonth(date: Date)
    requires Valid(date)
    ensures 1 <= date.m <= 12 && 1 <= date.d <= 31
  {
  }

  lemma Powers()
    ensures Pow10(2) == 100 && Pow10(4) == 10_000 && Pow10(6) == 1_000_000
  {
    assert Pow10(4) == 100 * Pow10(2) && Pow10(6) == 100 * Pow10(4);
  }

  /** Write the digits of v from the last to the first. */
  method PutNum(buf: array<char>, from: nat, v: nat, width: nat)
    requires from + width <= buf.Length
    modifies buf
    ensures buf[from..from + width] == Digits(v, width)
    ensures forall k :: 0 <= k < buf.Length && !(from <= k < from + width) ==> buf[k] == old(buf[k])
  {
    var i, rest := width, v;
    while i > 0
      invariant 0 <= i <= width
      invariant Digits(v, width) == Digits(rest, i) + buf[from + i..from + width]
      invariant forall k :: 0 <= k < buf.Length && !(from + i <= k < from + width) ==> buf[k] == old(buf[k])
    {
      ghost var tail := buf[from + i..from + width];
      buf[from + i - 1] := Digit(rest % 10);
      assert buf[from + i - 1..from + width] == [Digit(rest % 10)] + tail;
      rest := rest / 10;
      i := i - 1;
    }
  }

  /** A number and the character behind it. */
  method PutField(buf: array<char>, from: nat, v: nat, width: nat, sep: char)
    requires from + width < buf.Length
    modifies buf
    ensures buf[..from + width + 1] == Field(old(buf[..from]), v, width, sep)
    ensures forall k :: from + width < k < buf.Length ==> buf[k] == old(buf[k])
  {
    hide Digits;
    PutNum(buf, from, v, width);
    assert buf[..from] == old(buf[..from]);
    buf[from + width] := sep;
    assert buf[..from + width] == buf[..from] + buf[from..from + width];
  }

  method FormatUtc(utc: int, buf: array<char>)
    requires buf.Length >= 27
    modifies buf
    ensures Natural(FieldsOf(utc)) && buf[..27] == Text(FieldsOf(utc), 7)
    ensures Punctuated(buf[..27]) && (Int64(utc) ==> ReadFields(buf[..27]) == FieldsOf(utc))
    ensures forall k :: 27 <= k < buf.Length ==> buf[k] == old(buf[k])
  {
    FieldsAreRight(utc);
    ValidMonth(FieldsOf(utc).date);
    if Int64(utc) { TextRoundTrip(utc); }
    var f := FieldsOf(utc);
    TextIsPunctuated(f);
    hide FieldsOf, Instant, Field, ReadFields, Punctuated;
    assert buf[..0] == Text(f, 0);
    PutField(buf, 0, f.date.y % 0x1_0000_0000, 4, '-');
    assert buf[..5] == Text(f, 1);
    PutField(buf, 5, f.date.m, 2, '-');
    assert buf[..8] == Text(f, 2);
    PutField(buf, 8, f.date.d, 2, ' ');
    assert buf[..11] == Text(f, 3);
    PutField(buf, 11, f.hour, 2, ':');
    assert buf[..14] == Text(f, 4);
    PutField(buf, 14, f.minute, 2, ':');
    assert buf[..17] == Text(f, 5);
    PutField(buf, 17, f.second, 2, '.');
    assert buf[..20] == Text(f, 6);
    PutField(buf, 20, f.micros, 6, '\0');
  }
}
