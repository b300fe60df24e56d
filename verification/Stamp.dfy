/**
 The vault's timestamps: `YYYY-MM-DDTHH:MM:SSZ` text, the Gregorian date and time it spells, and
 the count of seconds that date stands for. Section 5.1 of RFC 3339 says such text sorts like time.
 */
module Stamp {
  import opened Wrappers
  import opened Text

  /** A UTC date and time to the second. */
  datatype Civil = Civil(year: int, month: int, day: int, hour: int, minute: int, second: int)

  predicate Leap(year: int) {
    year % 4 == 0 && (year % 100 != 0 || year % 400 == 0)
  }

  function DaysInMonth(year: int, month: int): int {
    if month == 2 then (if Leap(year) then 29 else 28)
    else if month in {4, 6, 9, 11} then 30
    else 31
  }

  /** Days from 0001-01-01 to the first of January of `year`. */
  function DaysBeforeYear(year: int): int {
    var past := year - 1;
    365 * past + past / 4 - past / 100 + past / 400
  }

  /** Days from the first of January to the first of `month`. */
  function DaysBeforeMonth(year: int, month: nat): int {
    if month <= 1 then 0 else DaysBeforeMonth(year, month - 1) + DaysInMonth(year, month - 1)
  }

  predicate ValidCivil(c: Civil) {
    && 1 <= c.year <= 9999 && 1 <= c.month <= 12 && 1 <= c.day <= DaysInMonth(c.year, c.month)
    && 0 <= c.hour < 24 && 0 <= c.minute < 60 && 0 <= c.second < 60
  }

  function DayNumber(c: Civil): int
    requires c.month >= 0
  {
    DaysBeforeYear(c.year) + DaysBeforeMonth(c.year, c.month) + c.day - 1
  }

  function TimeOfDay(c: Civil): int {
    3600 * c.hour + 60 * c.minute + c.second
  }

  /** Seconds since 0001-01-01T00:00:00Z, so that a difference is `timedelta.total_seconds()`. */
  function Seconds(c: Civil): int
    requires c.month >= 0
  {
    86400 * DayNumber(c) + TimeOfDay(c)
  }

  // ----- text ------------------------------------------------------------------------------

  function Assemble(y: string, mo: string, d: string, h: string, mi: string, s: string): string {
    y + ("-" + (mo + ("-" + (d + ("T" + (h + (":" + (mi + (":" + (s + "Z"))))))))))
  }

  function Render(c: Civil): string
    requires ValidCivil(c)
  {
    Assemble(Pad(c.year, 4), Pad(c.month, 2), Pad(c.day, 2), Pad(c.hour, 2), Pad(c.minute, 2), Pad(c.second, 2))
  }

  predicate Shaped(ts: string) {
    && |ts| == 20
    && ts[4] == '-' && ts[7] == '-' && ts[10] == 'T' && ts[13] == ':' && ts[16] == ':' && ts[19] == 'Z'
    && AllDigits(ts[..4]) && AllDigits(ts[5..7]) && AllDigits(ts[8..10])
    && AllDigits(ts[11..13]) && AllDigits(ts[14..16]) && AllDigits(ts[17..19])
  }

  /** `strptime` on the fixed-width form; `None` is the `ValueError`. */
  function Parse(ts: string): (r: Option<Civil>)
    ensures r.Some? ==> ValidCivil(r.value)
  {
    if !Shaped(ts) then
      None
    else
      var c := Civil(Num(ts[..4]), Num(ts[5..7]), Num(ts[8..10]), Num(ts[11..13]), Num(ts[14..16]), Num(ts[17..19]));
      if ValidCivil(c) then Some(c) else None
  }

  lemma FieldOrder(a: nat, b: nat, width: nat, sep: string, x: string, y: string)
    requires a < Pow10(width) && b < Pow10(width)
    ensures StrLt(Pad(a, width) + (sep + x), Pad(b, width) + (sep + y)) <==> a < b || (a == b && StrLt(x, y))
  {
    PadOrder(a, b, width);
    StrLtConcat(Pad(a, width), Pad(b, width), sep + x, sep + y);
    StrLtPrefix(sep, x, y);
  }

  predicate Earlier(a: Civil, b: Civil) {
    || a.year < b.year
    || (a.year == b.year && (a.month < b.month
    || (a.month == b.month && (a.day < b.day
    || (a.day == b.day && (a.hour < b.hour
    || (a.hour == b.hour && (a.minute < b.minute
    || (a.minute == b.minute && a.second < b.second)))))))))
  }

  lemma RenderOrder(a: Civil, b: Civil)
    requires ValidCivil(a) && ValidCivil(b)
    ensures StrLt(Render(a), Render(b)) <==> Earlier(a, b)
  {
    assert Pow10(2) == 100 && Pow10(4) == 10000;
    var sa, sb := "Z", "Z";
    StrLtIrreflexive("Z");
    StrLtConcat(Pad(a.second, 2), Pad(b.second, 2), "Z", "Z");
    PadOrder(a.second, b.second, 2);
    sa, sb := Pad(a.second, 2) + "Z", Pad(b.second, 2) + "Z";
    FieldOrder(a.minute, b.minute, 2, ":", sa, sb);
    sa, sb := Pad(a.minute, 2) + (":" + sa), Pad(b.minute, 2) + (":" + sb);
    FieldOrder(a.hour, b.hour, 2, ":", sa, sb);
    sa, sb := Pad(a.hour, 2) + (":" + sa), Pad(b.hour, 2) + (":" + sb);
    FieldOrder(a.day, b.day, 2, "T", sa, sb);
    sa, sb := Pad(a.day, 2) + ("T" + sa), Pad(b.day, 2) + ("T" + sb);
    FieldOrder(a.month, b.month, 2, "-", sa, sb);
    sa, sb := Pad(a.month, 2) + ("-" + sa), Pad(b.month, 2) + ("-" + sb);
    FieldOrder(a.year, b.year, 4, "-", sa, sb);
  }

  lemma Cut(field: string, sep: string, tail: string)
    requires |sep| == 1
    ensures var s := field + (sep + tail);
      |s| == |field| + 1 + |tail| && s[..|field|] == field && s[|field|] == sep[0] && s[|field| + 1..] == tail
  {
  }

  lemma Fields(y: string, mo: string, d: string, h: string, mi: string, s: string)
    requires |y| == 4 && |mo| == |d| == |h| == |mi| == |s| == 2
    ensures var ts := Assemble(y, mo, d, h, mi, s);
      && |ts| == 20
      && ts[4] == '-' && ts[7] == '-' && ts[10] == 'T' && ts[13] == ':' && ts[16] == ':' && ts[19] == 'Z'
      && ts[..4] == y && ts[5..7] == mo && ts[8..10] == d
      && ts[11..13] == h && ts[14..16] == mi && ts[17..19] == s
  {
    var t5 := s + "Z";
    var t4 := mi + (":" + t5);
    var t3 := h + (":" + t4);
    var t2 := d + ("T" + t3);
    var t1 := mo + ("-" + t2);
    var ts := Assemble(y, mo, d, h, mi, s);
    Cut(mi, ":", t5);
    Cut(h, ":", t4);
    Cut(d, "T", t3);
    Cut(mo, "-", t2);
    Cut(y, "-", t1);
    assert ts[8..] == t1[3..] && ts[11..] == t2[3..] && ts[14..] == t3[3..] && ts[17..] == t4[3..];
    assert ts[5..7] == t1[..2] && ts[8..10] == t2[..2] && ts[11..13] == t3[..2] && ts[14..16] == t4[..2];
  }

  lemma ParseRender(c: Civil)
    requires ValidCivil(c)
    ensures Parse(Render(c)) == Some(c)
  {
    assert Pow10(2) == 100 && Pow10(4) == 10000;
    Fields(Pad(c.year, 4), Pad(c.month, 2), Pad(c.day, 2), Pad(c.hour, 2), Pad(c.minute, 2), Pad(c.second, 2));
    NumPad(c.year, 4);
    NumPad(c.month, 2);
    NumPad(c.day, 2);
    NumPad(c.hour, 2);
    NumPad(c.minute, 2);
    NumPad(c.second, 2);
  }

  lemma Reassemble(ts: string)
    requires Shaped(ts)
    ensures Assemble(ts[..4], ts[5..7], ts[8..10], ts[11..13], ts[14..16], ts[17..19]) == ts
  {
  }

  lemma RenderParse(ts: string)
    requires Parse(ts).Some?
    ensures Render(Parse(ts).value) == ts
  {
    PadNum(ts[..4]);
    PadNum(ts[5..7]);
    PadNum(ts[8..10]);
    PadNum(ts[11..13]);
    PadNum(ts[14..16]);
    PadNum(ts[17..19]);
    Reassemble(ts);
  }

  // ----- order of seconds --------------------------------------------------------------------

  lemma {:induction false} MonthsMonotone(year: int, m: nat, n: nat)
    requires 1 <= m <= n
    ensures DaysBeforeMonth(year, m) <= DaysBeforeMonth(year, n)
    ensures m < n ==> DaysBeforeMonth(year, m) + DaysInMonth(year, m) <= DaysBeforeMonth(year, n)
    decreases n
  {
    if m < n {
      MonthsMonotone(year, m, n - 1);
    }
  }

  lemma MonthsFillYear(year: int)
    ensures DaysBeforeMonth(year, 13) == if Leap(year) then 366 else 365
  {
    var feb := if Leap(year) then 29 else 28;
    assert DaysBeforeMonth(year, 2) == 31;
    assert DaysBeforeMonth(year, 3) == 31 + feb;
    assert DaysBeforeMonth(year, 4) == 62 + feb;
    assert DaysBeforeMonth(year, 5) == 92 + feb;
    assert DaysBeforeMonth(year, 6) == 123 + feb;
    assert DaysBeforeMonth(year, 7) == 153 + feb;
    assert DaysBeforeMonth(year, 8) == 184 + feb;
    assert DaysBeforeMonth(year, 9) == 215 + feb;
    assert DaysBeforeMonth(year, 10) == 245 + feb;
    assert DaysBeforeMonth(year, 11) == 276 + feb;
    assert DaysBeforeMonth(year, 12) == 306 + feb;
  }

  lemma Quarters(n: int)
    ensures n / 4 == (n - 1) / 4 + (if n % 4 == 0 then 1 else 0)
  {
  }

  lemma Centuries(n: int)
    ensures n / 100 == (n - 1) / 100 + (if n % 100 == 0 then 1 else 0)
  {
  }

  lemma Cycles(n: int)
    ensures n / 400 == (n - 1) / 400 + (if n % 400 == 0 then 1 else 0)
    ensures n % 400 == 0 ==> n % 100 == 0
  {
  }

  lemma CenturyIsQuarter(n: int)
    ensures n % 100 == 0 ==> n % 4 == 0
  {
  }

  lemma YearLength(year: int)
    ensures DaysBeforeYear(year + 1) == DaysBeforeYear(year) + if Leap(year) then 366 else 365
  {
    Quarters(year);
    Centuries(year);
    Cycles(year);
    CenturyIsQuarter(year);
  }

  lemma {:induction false} YearsMonotone(a: int, b: int)
    requires a <= b
    ensures DaysBeforeYear(a) + 365 * (b - a) <= DaysBeforeYear(b)
    decreases b - a
  {
    if a < b {
      YearLength(b - 1);
      YearsMonotone(a, b - 1);
    }
  }

  lemma DayWithinYear(c: Civil)
    requires ValidCivil(c)
    ensures DaysBeforeYear(c.year) <= DayNumber(c) < DaysBeforeYear(c.year + 1)
  {
    MonthsMonotone(c.year, 1, c.month);
    MonthsMonotone(c.year, c.month, 13);
    MonthsFillYear(c.year);
    YearLength(c.year);
  }

  lemma EarlierDay(a: Civil, b: Civil)
    requires ValidCivil(a) && ValidCivil(b)
    requires a.year < b.year || (a.year == b.year && (a.month < b.month || (a.month == b.month && a.day < b.day)))
    ensures DayNumber(a) < DayNumber(b)
  {
    if a.year < b.year {
      DayWithinYear(a);
      DayWithinYear(b);
      YearsMonotone(a.year + 1, b.year);
    } else if a.month < b.month {
      MonthsMonotone(a.year, a.month, b.month);
    }
  }

  lemma EarlierSeconds(a: Civil, b: Civil)
    requires ValidCivil(a) && ValidCivil(b) && Earlier(a, b)
    ensures Seconds(a) < Seconds(b)
  {
    if a.year != b.year || a.month != b.month || a.day != b.day {
      EarlierDay(a, b);
    }
  }

  function SecondsOf(ts: string): int
    requires Parse(ts).Some?
  {
    Seconds(Parse(ts).value)
  }

  /** String order is time order, across month ends and leap years, on every canonical stamp. */
  lemma StringOrderIsTimeOrder(a: string, b: string)
    requires Parse(a).Some? && Parse(b).Some?
    ensures StrLt(a, b) <==> SecondsOf(a) < SecondsOf(b)
    ensures StrLe(a, b) <==> SecondsOf(a) <= SecondsOf(b)
    ensures a == b <==> SecondsOf(a) == SecondsOf(b)
  {
    RenderParse(a);
    RenderParse(b);
    var ca, cb := Parse(a).value, Parse(b).value;
    RenderOrder(ca, cb);
    RenderOrder(cb, ca);
    if Earlier(ca, cb) {
      EarlierSeconds(ca, cb);
    } else if Earlier(cb, ca) {
      EarlierSeconds(cb, ca);
    } else {
      assert ca == cb;
    }
  }

  // ----- the clock ---------------------------------------------------------------------------

  /** The year that holds day number `day`, searched upward from a year that starts no later. */
  function YearFrom(day: int, year: int): (r: int)
    requires DaysBeforeYear(year) <= day
    ensures year <= r && DaysBeforeYear(r) <= day < DaysBeforeYear(r + 1)
    decreases day - DaysBeforeYear(year)
  {
    YearLength(year);
    if day < DaysBeforeYear(year + 1) then year else YearFrom(day, year + 1)
  }

  function MonthFrom(year: int, day: int, month: nat): (r: nat)
    requires 1 <= month <= 12 && DaysBeforeMonth(year, month) <= day < DaysBeforeMonth(year, 13)
    ensures 1 <= r <= 12 && DaysBeforeMonth(year, r) <= day < DaysBeforeMonth(year, r) + DaysInMonth(year, r)
    decreases 12 - month
  {
    if day < DaysBeforeMonth(year, month) + DaysInMonth(year, month) then month
    else MonthFrom(year, day, month + 1)
  }

  function Micros(seconds: int): int {
    1_000_000 * seconds
  }

  /** Truncation of a clock reading to whole seconds. */
  function WholeSeconds(micros: int): int {
    micros / 1_000_000
  }

  /** Microseconds from year 1 to the end of year 9999. */
  const END_OF_TIME := 315_537_897_600_000_000

  /** The clock counts microseconds from 0001-01-01T00:00:00Z; it stays within `datetime`'s years. */
  predicate InRange(micros: int) {
    0 <= micros < END_OF_TIME
  }

  /** The date with day number `day`, at midnight. */
  function DateOf(day: int): Civil
    requires 0 <= day
  {
    var year := YearFrom(day, 1);
    MonthsFillYear(year);
    YearLength(year);
    var month := MonthFrom(year, day - DaysBeforeYear(year), 1);
    Civil(year, month, day - DaysBeforeYear(year) - DaysBeforeMonth(year, month) + 1, 0, 0, 0)
  }

  lemma WithinCalendar(year: int, day: int)
    requires DaysBeforeYear(year) <= day < 3_652_059
    ensures year <= 9999
  {
    if year > 9999 {
      YearsMonotone(10000, year);
    }
  }

  lemma DateOfDay(day: int)
    requires 0 <= day < 3_652_059
    ensures ValidCivil(DateOf(day)) && DayNumber(DateOf(day)) == day
  {
    MonthsFillYear(DateOf(day).year);
    YearLength(DateOf(day).year);
    WithinCalendar(DateOf(day).year, day);
  }

  function CivilAt(micros: int): Civil
    requires InRange(micros)
  {
    var secs := WholeSeconds(micros);
    var rest := secs % 86400;
    DateOf(secs / 86400).(hour := rest / 3600, minute := rest / 60 % 60, second := rest % 60)
  }

  lemma CivilAtSeconds(micros: int)
    requires InRange(micros)
    ensures ValidCivil(CivilAt(micros)) && Seconds(CivilAt(micros)) == WholeSeconds(micros)
  {
    var secs := WholeSeconds(micros);
    DateOfDay(secs / 86400);
    var c, date, rest := CivilAt(micros), DateOf(secs / 86400), secs % 86400;
    assert DayNumber(c) == DayNumber(date);
    assert rest / 60 == 60 * (rest / 3600) + rest / 60 % 60 by {
      assert rest / 3600 == rest / 60 / 60;
    }
    assert TimeOfDay(c) == rest;
  }

  /** `now_iso()` read when the clock shows `micros`: truncated to the second. */
  function NowIso(micros: int): string
    requires InRange(micros)
  {
    CivilAtSeconds(micros);
    Render(CivilAt(micros))
  }

  lemma NowIsoParses(micros: int)
    requires InRange(micros)
    ensures Parse(NowIso(micros)).Some? && SecondsOf(NowIso(micros)) == WholeSeconds(micros)
  {
    CivilAtSeconds(micros);
    ParseRender(CivilAt(micros));
  }

  /** Two readings of the clock compare as text exactly as their whole seconds do. */
  lemma NowIsoOrder(a: int, b: int)
    requires InRange(a) && InRange(b)
    ensures StrLe(NowIso(a), NowIso(b)) <==> WholeSeconds(a) <= WholeSeconds(b)
  {
    NowIsoParses(a);
    NowIsoParses(b);
    StringOrderIsTimeOrder(NowIso(a), NowIso(b));
  }

  // ----- the Gregorian calendar ----------------------------------------------------------------

  /** The days there are: thirty hath September, April, June and November. */
  predicate InCalendar(year: int, month: int, day: int) {
    && 1 <= year <= 9999
    && (|| (month in {1, 3, 5, 7, 8, 10, 12} && 1 <= day <= 31)
        || (month in {4, 6, 9, 11} && 1 <= day <= 30)
        || (month == 2 && 1 <= day <= 28)
        || (month == 2 && day == 29 && year % 4 == 0 && (year % 100 != 0 || year % 400 == 0)))
  }

  /** A text parses exactly when it has the fixed-width form and names a day and a time there is. */
  lemma ParsesExactly(ts: string)
    ensures Parse(ts).Some? <==>
      && Shaped(ts) && InCalendar(Num(ts[..4]), Num(ts[5..7]), Num(ts[8..10]))
      && Num(ts[11..13]) <= 23 && Num(ts[14..16]) <= 59 && Num(ts[17..19]) <= 59
    ensures Parse(ts).Some? ==>
      Parse(ts).value == Civil(Num(ts[..4]), Num(ts[5..7]), Num(ts[8..10]),
                               Num(ts[11..13]), Num(ts[14..16]), Num(ts[17..19]))
  {
    hide Num;
  }

  /** Where each month begins, in closed form. */
  lemma MonthStarts(year: int, month: nat)
    requires 1 <= month <= 12
    ensures DaysBeforeMonth(year, month)
         == (367 * month - 362) / 12
            - (if month <= 2 then 0 else if year % 4 == 0 && (year % 100 != 0 || year % 400 == 0) then 1 else 2)
  {
    if month > 1 {
      MonthStarts(year, month - 1);
    }
  }

  /** The seconds that a stamp stands for, from its own digits. */
  lemma SecondsInClosedForm(ts: string)
    requires Parse(ts).Some?
    ensures var y, m, d := Num(ts[..4]), Num(ts[5..7]), Num(ts[8..10]);
      var leap := y % 4 == 0 && (y % 100 != 0 || y % 400 == 0);
      var days := 365 * (y - 1) + (y - 1) / 4 - (y - 1) / 100 + (y - 1) / 400
                  + (367 * m - 362) / 12 - (if m <= 2 then 0 else if leap then 1 else 2) + d - 1;
      SecondsOf(ts) == 86400 * days + 3600 * Num(ts[11..13]) + 60 * Num(ts[14..16]) + Num(ts[17..19])
  {
    hide Num;
    hide DaysBeforeMonth;
    ParsesExactly(ts);
    MonthStarts(Num(ts[..4]), Num(ts[5..7]));
  }

  const EPOCH := "1970-01-01T00:00:00Z"

  /** The Unix epoch is 62135596800 seconds from the first second of year 1, and is spelled so. */
  lemma EpochAnchor()
    ensures Parse(EPOCH).Some? && SecondsOf(EPOCH) == 62_135_596_800
    ensures InRange(Micros(62_135_596_800)) && NowIso(Micros(62_135_596_800)) == EPOCH
  {
    EpochDigits();
    ParsesExactly(EPOCH);
    SecondsInClosedForm(EPOCH);
    NowIsoParses(Micros(62_135_596_800));
    StringOrderIsTimeOrder(NowIso(Micros(62_135_596_800)), EPOCH);
  }

  lemma EpochDigits()
    ensures Shaped(EPOCH)
    ensures Num(EPOCH[..4]) == 1970 && Num(EPOCH[5..7]) == 1 && Num(EPOCH[8..10]) == 1
    ensures Num(EPOCH[11..13]) == 0 && Num(EPOCH[14..16]) == 0 && Num(EPOCH[17..19]) == 0
  {
    hide Num;
    assert EPOCH[..4] == "1970" && EPOCH[5..7] == "01" && EPOCH[8..10] == "01";
    assert EPOCH[11..13] == "00" && EPOCH[14..16] == "00" && EPOCH[17..19] == "00";
    FourDigits("1970");
    TwoDigits("01");
    TwoDigits("00");
  }

  /** The value of a digit. */
  function Digit(c: char): int {
    c as int - '0' as int
  }

  lemma TwoDigits(s: string)
    requires |s| == 2 && AllDigits(s)
    ensures Num(s) == 10 * Digit(s[0]) + Digit(s[1])
  {
    var t := s[..1];
    assert t[..0] == "" && Num(t[..0]) == 0;
    assert Num(t) == 10 * Num(t[..0]) + Digit(t[0]);
    assert Num(s) == 10 * Num(t) + Digit(s[1]);
  }

  lemma FourDigits(s: string)
    requires |s| == 4 && AllDigits(s)
    ensures Num(s) == 1000 * Digit(s[0]) + 100 * Digit(s[1]) + 10 * Digit(s[2]) + Digit(s[3])
  {
    var t := s[..3];
    TwoDigits(t[..2]);
    assert Num(t) == 10 * Num(t[..2]) + Digit(t[2]);
    assert Num(s) == 10 * Num(t) + Digit(s[3]);
  }
}
