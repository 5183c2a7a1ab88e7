/** `Date.prototype.toISOString` and the `split("T")[0]` the routes apply to it.
    An instant is an integer count of milliseconds since 1970-01-01T00:00:00Z,
    as a JavaScript `Date` holds it; the string is the ISO 8601 extended format
    `YYYY-MM-DDTHH:mm:ss.sssZ` in UTC, with the six-digit signed year that
    ECMAScript uses outside years 0000-9999. */
module IsoTime {
  import opened Strings

  const MsPerDay: int := 86400000

  /** The UTC day an instant falls on, counted from 1970-01-01 (day 0). Dafny's
      `/` by a positive divisor rounds down, so instants before 1970 land on
      negative days as they do for `Date`. */
  function DayNumber(t: int): int
  {
    t / MsPerDay
  }

  /** Milliseconds since the start of the instant's UTC day. */
  function TimeOfDay(t: int): (ms: int)
    ensures 0 <= ms < MsPerDay
  {
    t % MsPerDay
  }

  /** The year of a 400-year era (counted from 1 March of its first year) that
      a day of the era falls in: the day count with the era's leap days taken
      out, in years of 365 days. */
  function YearOfEra(doe: int): int
  {
    (doe - doe / 1460 + doe / 36524 - doe / 146096) / 365
  }

  /** The day of the year (from 1 March) that a day of the era falls on. */
  function DayOfYear(doe: int): int
  {
    var yoe := YearOfEra(doe);
    doe - (365 * yoe + yoe / 4 - yoe / 100)
  }

  /** The proleptic Gregorian (year, month, day) of a day number: the
      civil-from-days conversion on 400-year eras of 146097 days, with years
      starting on 1 March so that the leap day comes last. */
  function CivilFromDays(days: int): (int, int, int)
  {
    var z := days + 719468;
    var era := z / 146097;
    var doe := z % 146097;
    var yoe := YearOfEra(doe);
    var doy := DayOfYear(doe);
    var mp := (5 * doy + 2) / 153;
    var d := doy - (153 * mp + 2) / 5 + 1;
    var m := if mp < 10 then mp + 3 else mp - 9;
    (yoe + era * 400 + (if m <= 2 then 1 else 0), m, d)
  }

  /** Every day of an era falls on one of the 366 days of a year. The proof
      splits the day into its century `c`, its four-year block `k` within the
      century, and the day `v` of the block; `e` is the one leap day the
      `doe / 1460` term counts ahead of time, and `w` the year within the block. */
  lemma DayOfYearRange(doe: int)
    requires 0 <= doe < 146097
    ensures 0 <= DayOfYear(doe) <= 365
  {
    if doe == 146096 {
      assert YearOfEra(doe) == 399;
    } else {
      var c := doe / 36524;
      assert 0 <= c <= 3;
      var u := doe - 36524 * c;
      var k := u / 1461;
      var v := u - 1461 * k;
      assert 0 <= k <= 24 && 0 <= v <= 1460;
      var e := if 24 * c + k + v >= 1460 then 1 else 0;
      assert doe / 1460 == 25 * c + k + e;
      assert doe / 146096 == 0;
      var w := (v - e) / 365;
      assert 0 <= v - e <= 1459;
      assert 0 <= w <= 3;
      var yoe := 100 * c + 4 * k + w;
      assert YearOfEra(doe) == yoe;
      assert yoe / 4 == 25 * c + k;
      assert yoe / 100 == c;
      assert DayOfYear(doe) == v - 365 * w;
    }
  }

  /** Months run from 1 to 12 and days from 1 to 31. */
  lemma CivilFromDaysRange(days: int)
    ensures 1 <= CivilFromDays(days).1 <= 12
    ensures 1 <= CivilFromDays(days).2 <= 31
  {
    var doe := (days + 719468) % 146097;
    DayOfYearRange(doe);
    var doy := DayOfYear(doe);
    var mp := (5 * doy + 2) / 153;
    assert 0 <= mp <= 11;
    var before := (153 * mp + 2) / 5;
    assert before <= doy <= before + 30;
  }

  /** The characters an ISO date is written with. */
  predicate DateChar(c: char)
  {
    IsDigit(c) || c == '-' || c == '+'
  }

  /** `YYYY-MM-DD`: four digits, a dash, two digits, a dash, two digits. */
  predicate IsoDateShape(r: string)
  {
    && |r| == 10 && r[4] == '-' && r[7] == '-'
    && forall k :: 0 <= k < 10 && k != 4 && k != 7 ==> IsDigit(r[k])
  }

  /** The year field: four digits for 0000-9999, else a sign and six digits. */
  function YearText(y: int): (r: string)
    ensures forall k :: 0 <= k < |r| ==> DateChar(r[k])
    ensures 0 <= y <= 9999 ==> |r| == 4 && AllDigits(r)
  {
    if 0 <= y <= 9999 then
      assert TenTo(4) == 10000;
      DecimalFits(y, 4);
      PaddedDigits(Decimal(y), 4);
      PadStart(Decimal(y), 4)
    else (if y < 0 then "-" else "+") + PadStart(Decimal(if y < 0 then -y else y), 6)
  }

  /** A two- or three-digit field. */
  function Field(n: int, width: nat): (r: string)
    ensures forall k :: 0 <= k < |r| ==> DateChar(r[k])
  {
    PadStart(IntText(n), width)
  }

  /** A field whose value fits its width is exactly `width` digits. */
  lemma FieldDigits(n: int, width: nat)
    requires 1 <= width && 0 <= n < TenTo(width)
    ensures |Field(n, width)| == width && AllDigits(Field(n, width))
  {
    DecimalFits(n, width);
    PaddedDigits(Decimal(n), width);
  }

  predicate AllDateChars(s: string)
  {
    forall k :: 0 <= k < |s| ==> DateChar(s[k])
  }

  lemma DateCharsJoin(a: string, b: string)
    requires AllDateChars(a) && AllDateChars(b)
    ensures AllDateChars(a + b)
  {
    forall k | 0 <= k < |a + b|
      ensures DateChar((a + b)[k])
    {
      if k >= |a| {
        assert (a + b)[k] == b[k - |a|];
      }
    }
  }

  /** The text of a date. */
  function DateText(y: int, m: int, d: int): (r: string)
    ensures forall k :: 0 <= k < |r| ==> DateChar(r[k])
  {
    var ys, ms, ds := YearText(y), Field(m, 2), Field(d, 2);
    assert AllDateChars("-");
    DateCharsJoin(ys, "-");
    DateCharsJoin(ys + "-", ms);
    DateCharsJoin(ys + "-" + ms, "-");
    DateCharsJoin(ys + "-" + ms + "-", ds);
    ys + "-" + ms + "-" + ds
  }

  /** Four digits, two digits and two digits joined by dashes are a date of
      the `YYYY-MM-DD` shape. */
  lemma DashedShape(ys: string, ms: string, ds: string)
    requires |ys| == 4 && |ms| == 2 && |ds| == 2
    requires AllDigits(ys) && AllDigits(ms) && AllDigits(ds)
    ensures IsoDateShape(ys + "-" + ms + "-" + ds)
  {
    var r := ys + "-" + ms + "-" + ds;
    forall k | 0 <= k < 10 && k != 4 && k != 7
      ensures IsDigit(r[k])
    {
      if k < 4 {
        assert r[k] == ys[k];
      } else if k < 7 {
        assert r[k] == ms[k - 5];
      } else {
        assert r[k] == ds[k - 8];
      }
    }
  }

  /** A year of 0000-9999 with a month and day of two digits is written
      `YYYY-MM-DD`. */
  lemma DateTextShape(y: int, m: int, d: int)
    requires 1 <= m <= 12 && 1 <= d <= 31
    ensures 0 <= y <= 9999 ==> IsoDateShape(DateText(y, m, d))
  {
    if 0 <= y <= 9999 {
      assert TenTo(2) == 100;
      FieldDigits(m, 2);
      FieldDigits(d, 2);
      DashedShape(YearText(y), Field(m, 2), Field(d, 2));
    }
  }

  /** The date part `YYYY-MM-DD` of the instant's ISO string: written with
      digits and signs and dashes only, and for the years 0000-9999 exactly
      ten characters in the `YYYY-MM-DD` positions. */
  function IsoDate(t: int): (r: string)
    ensures forall k :: 0 <= k < |r| ==> DateChar(r[k])
    ensures 0 <= CivilFromDays(DayNumber(t)).0 <= 9999 ==> IsoDateShape(r)
  {
    var (y, m, d) := CivilFromDays(DayNumber(t));
    CivilFromDaysRange(DayNumber(t));
    DateTextShape(y, m, d);
    DateText(y, m, d)
  }

  /** The time part `HH:mm:ss.sssZ` of the instant's ISO string. */
  function IsoClock(t: int): (r: string)
    ensures |r| == 13 && r[2] == ':' && r[5] == ':' && r[8] == '.' && r[12] == 'Z'
  {
    var ms := TimeOfDay(t);
    ClockFieldsFit(ms);
    ClockShape(Field(ms / 3600000, 2), Field(ms / 60000 % 60, 2), Field(ms / 1000 % 60, 2), Field(ms % 1000, 3));
    Field(ms / 3600000, 2) + ":" + Field(ms / 60000 % 60, 2) + ":" + Field(ms / 1000 % 60, 2) + "." + Field(ms % 1000, 3) + "Z"
  }

  /** The hour, minute, second and millisecond of a time of day fill their
      fields exactly. */
  lemma ClockFieldsFit(ms: int)
    requires 0 <= ms < MsPerDay
    ensures |Field(ms / 3600000, 2)| == 2 && |Field(ms / 60000 % 60, 2)| == 2
    ensures |Field(ms / 1000 % 60, 2)| == 2 && |Field(ms % 1000, 3)| == 3
  {
    assert TenTo(2) == 100 && TenTo(3) == 1000;
    assert ms / 3600000 < 24;
    FieldDigits(ms / 3600000, 2);
    FieldDigits(ms / 60000 % 60, 2);
    FieldDigits(ms / 1000 % 60, 2);
    FieldDigits(ms % 1000, 3);
  }

  /** Fields of two, two, two and three characters joined as a clock. */
  lemma ClockShape(h: string, m: string, s: string, f: string)
    requires |h| == 2 && |m| == 2 && |s| == 2 && |f| == 3
    ensures var r := h + ":" + m + ":" + s + "." + f + "Z";
      |r| == 13 && r[2] == ':' && r[5] == ':' && r[8] == '.' && r[12] == 'Z'
  {
  }

  /** A ten-character date and a clock joined by `T`. */
  lemma TimestampShape(date: string, clock: string)
    requires |clock| == 13 && clock[12] == 'Z'
    ensures var r := date + "T" + clock;
      |date| == 10 ==> |r| == 24 && r[10] == 'T' && r[23] == 'Z'
  {
  }

  /** `new Date(t).toISOString()`. */
  function IsoTimestamp(t: int): (r: string)
    ensures 0 <= CivilFromDays(DayNumber(t)).0 <= 9999 ==> |r| == 24 && r[10] == 'T' && r[23] == 'Z'
  {
    TimestampShape(IsoDate(t), IsoClock(t));
    IsoDate(t) + "T" + IsoClock(t)
  }

  /** `stamp.split("T")[0]`: the date part of a timestamp. */
  function DatePart(stamp: string): string
  {
    Split(stamp, 'T')[0]
  }

  /** `new Date(t).toISOString().split("T")[0]`: what the routes call "today". */
  function Today(t: int): (r: string)
    ensures r == IsoDate(t)
  {
    DateHasNoT(t);
    SplitFirstPiece(IsoDate(t), 'T', IsoClock(t));
    DatePart(IsoTimestamp(t))
  }

  /** The date part holds no `T`. */
  lemma DateHasNoT(t: int)
    ensures 'T' !in IsoDate(t)
  {
    var date := IsoDate(t);
    forall k | 0 <= k < |date| ensures date[k] != 'T' {
      assert DateChar(date[k]);
    }
  }

  /** "today" is exactly the date part of the timestamp: the date holds no `T`,
      so splitting at the first `T` cuts the timestamp where the date ends. */
  lemma TodayIsIsoDate(t: int)
    ensures Today(t) == IsoDate(t)
    ensures IsoTimestamp(t) == Today(t) + "T" + IsoClock(t)
  {
    DateHasNoT(t);
    SplitFirstPiece(IsoDate(t), 'T', IsoClock(t));
  }

  /** Two instants of the same UTC day have the same "today". */
  lemma SameDaySameToday(t1: int, t2: int)
    requires DayNumber(t1) == DayNumber(t2)
    ensures Today(t1) == Today(t2)
  {
    TodayIsIsoDate(t1);
    TodayIsIsoDate(t2);
  }

  /** Adding 30 whole days to an instant moves its day number by exactly 30. */
  lemma ThirtyDaysLater(t: int)
    ensures DayNumber(t + 30 * MsPerDay) == DayNumber(t) + 30
  {
  }
}
