/** Time as the model sees it. A timestamp is an integer count of
    microseconds since 1970-01-01T00:00:00 (the resolution of Python's
    `datetime`); a date is an integer count of days since 1970-01-01. */
module Calendar {
  import Text

  const MicrosPerDay: int := 86_400_000_000

  /** The date a timestamp falls on (`dt.date()`). */
  function DayOf(ts: int): int {
    ts / MicrosPerDay
  }

  /** The first instant of day `d`, 00:00:00.000000. */
  function StartOfDay(d: int): int {
    d * MicrosPerDay
  }

  /** The last instant of day `d`, 23:59:59.999999. */
  function EndOfDay(d: int): int {
    (d + 1) * MicrosPerDay - 1
  }

  /** A timestamp lies between the start and the end of a day exactly when
      it falls on that day. */
  lemma WithinDay(ts: int, d: int)
    ensures StartOfDay(d) <= ts <= EndOfDay(d) <==> DayOf(ts) == d
  {
  }

  /** `StartOfDay(first) <= ts <= EndOfDay(last)` holds exactly when the date
      of `ts` lies in `[first, last]`: both ends are inclusive. */
  lemma WithinDays(ts: int, first: int, last: int)
    ensures StartOfDay(first) <= ts <= EndOfDay(last) <==> first <= DayOf(ts) <= last
  {
    var q := DayOf(ts);
    assert q * MicrosPerDay <= ts < (q + 1) * MicrosPerDay;
    if first <= q {
      assert first * MicrosPerDay <= q * MicrosPerDay;
    }
    if q <= last {
      assert (q + 1) * MicrosPerDay <= (last + 1) * MicrosPerDay;
    }
    if q < first {
      assert (q + 1) * MicrosPerDay <= first * MicrosPerDay;
    }
    if last < q {
      assert (last + 1) * MicrosPerDay <= q * MicrosPerDay;
    }
  }

  /** `(later - earlier).days`: whole days, rounded towards minus infinity as
      `timedelta.days` is. */
  function WholeDays(later: int, earlier: int): (r: int)
    ensures r * MicrosPerDay <= later - earlier < (r + 1) * MicrosPerDay
  {
    (later - earlier) / MicrosPerDay
  }

  /** `date.weekday()`: Monday is 0 and Sunday is 6; 1970-01-01 was a Thursday. */
  function Weekday(d: int): (r: int)
    ensures 0 <= r < 7
  {
    (d + 3) % 7
  }

  const Friday: int := 4

  /** Proleptic Gregorian year, month and day of a date. */
  datatype CivilDate = CivilDate(year: int, month: int, day: int)

  function CivilFromDays(d: int): CivilDate {
    var z := d + 719468;
    var era := z / 146097;
    var doe := z - era * 146097;
    var yoe := (doe - doe / 1460 + doe / 36524 - doe / 146096) / 365;
    var doy := doe - (365 * yoe + yoe / 4 - yoe / 100);
    var mp := (5 * doy + 2) / 153;
    var day := doy - (153 * mp + 2) / 5 + 1;
    var month := if mp < 10 then mp + 3 else mp - 9;
    var year := yoe + era * 400 + (if month <= 2 then 1 else 0);
    CivilDate(year, month, day)
  }

  /** Decimal text of `n`, left-padded with zeros to `width` characters. */
  function ZeroPad(n: int, width: nat): (r: string)
    ensures |r| >= width
  {
    var digits := Text.IntToString(n);
    if |digits| >= width then digits else Text.Repeat('0', width - |digits|) + digits
  }

  /** `strftime('%Y-%m-%d')`. */
  function IsoDateText(d: int): string {
    var c := CivilFromDays(d);
    ZeroPad(c.year, 4) + "-" + ZeroPad(c.month, 2) + "-" + ZeroPad(c.day, 2)
  }

  /** `strftime('%m/%d')`. */
  function MonthDayText(d: int): string {
    var c := CivilFromDays(d);
    ZeroPad(c.month, 2) + "/" + ZeroPad(c.day, 2)
  }

  /** `strftime('%m/%d/%Y')`. */
  function MonthDayYearText(d: int): string {
    MonthDayText(d) + "/" + ZeroPad(CivilFromDays(d).year, 4)
  }
}
