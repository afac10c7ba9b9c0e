/**
 * The two strptime formats the parser reads, `%b %d, %Y` for dates and
 * `%I:%M %p` for times, and the strftime formats it writes back,
 * `%Y-%m-%d` for dates and `%I:%M %p` for times. Parsing gives a calendar
 * date (year, month, day) and a 24-hour clock time (hour, minute); a record's
 * check-in moment orders lexicographically on the five numbers.
 */
module DateTime {
  import opened Wrappers

  datatype Date = Date(year: nat, month: nat, day: nat)

  /** A time of day on the 24-hour clock. */
  datatype Time = Time(hour: nat, minute: nat)

  /** A date together with a time, as `pd.to_datetime` builds from the two columns. */
  datatype Stamp = Stamp(date: Date, time: Time)

  /** A day of the proleptic Gregorian calendar with a four-digit year: what the date parser can produce. */
  predicate ValidDate(d: Date)
  {
    1 <= d.year <= 9999 && 1 <= d.month <= 12 && 1 <= d.day <= DaysIn(d.year, d.month)
  }

  predicate IsLeapYear(year: nat)
  {
    year % 4 == 0 && (year % 100 != 0 || year % 400 == 0)
  }

  /** The number of days of a month. */
  function DaysIn(year: nat, month: nat): (n: nat)
    ensures 28 <= n <= 31
    ensures n == 29 <==> month == 2 && IsLeapYear(year)
  {
    if month == 2 then (if IsLeapYear(year) then 29 else 28)
    else if month == 4 || month == 6 || month == 9 || month == 11 then 30
    else 31
  }

  predicate ValidTime(t: Time)
  {
    t.hour < 24 && t.minute < 60
  }

  const MonthNames: seq<string> :=
    ["Jan", "Feb", "Mar", "Apr", "May", "Jun", "Jul", "Aug", "Sep", "Oct", "Nov", "Dec"]

  predicate IsDigit(c: char)
  {
    '0' <= c <= '9'
  }

  predicate AllDigits(s: string)
  {
    forall k :: 0 <= k < |s| ==> IsDigit(s[k])
  }

  function DigitChar(n: nat): (c: char)
    requires n < 10
    ensures IsDigit(c)
  {
    ('0' as int + n) as char
  }

  /** The value of a string of decimal digits. */
  function Number(s: string): nat
    requires AllDigits(s)
  {
    if s == [] then 0
    else Number(s[..|s| - 1]) * 10 + (s[|s| - 1] as int - '0' as int)
  }

  function Pow10(n: nat): nat
  {
    if n == 0 then 1 else 10 * Pow10(n - 1)
  }

  lemma {:induction false} NumberBound(s: string)
    requires AllDigits(s)
    ensures Number(s) < Pow10(|s|)
  {
    if s != [] {
      NumberBound(s[..|s| - 1]);
    }
  }

  /** A run of one or two digits, the widths strptime accepts for `%d`, `%I` and `%M`. */
  function SmallNumber(s: string): (r: Option<nat>)
    ensures r.Some? ==> r.value < 100
  {
    if 1 <= |s| <= 2 && AllDigits(s) then
      NumberBound(s);
      assert Pow10(2) == 100;
      Some(Number(s))
    else None
  }

  /** The month number of an abbreviated English month name. */
  function MonthOf(s: string): (r: Option<nat>)
    ensures r.Some? ==> 1 <= r.value <= 12 && MonthNames[r.value - 1] == s
    ensures r.None? ==> s !in MonthNames
  {
    MonthFrom(s, 0)
  }

  function MonthFrom(s: string, k: nat): (r: Option<nat>)
    requires k <= 12
    ensures r.Some? ==> k < r.value <= 12 && MonthNames[r.value - 1] == s
    ensures r.None? ==> forall j :: k <= j < 12 ==> MonthNames[j] != s
    decreases 12 - k
  {
    if k == 12 then None
    else if SameName(MonthNames[k], s) then Some(k + 1)
    else MonthFrom(s, k + 1)
  }

  /** Two three-letter names, compared letter by letter. */
  predicate SameName(a: string, b: string)
    ensures SameName(a, b) ==> a == b
  {
    |a| == 3 && |b| == 3 && a[0] == b[0] && a[1] == b[1] && a[2] == b[2]
  }

  /**
   * `strptime(s, '%b %d, %Y')`, restricted to a capitalised three-letter month,
   * one space, a day of one or two digits, a comma, one space and a four-digit
   * year, with nothing left over; the year must be at least 1 and the day must
   * exist in that month of that year, or strptime raises.
   */
  function ParseDate(s: string): (r: Option<Date>)
    ensures r.Some? ==> ValidDate(r.value)
  {
    if |s| < 11 || |s| > 12 then None
    else
      var w := |s| - 11;
      var yearText := s[7 + w..];
      match (MonthOf(s[..3]), SmallNumber(s[4..5 + w]))
      case (Some(month), Some(day)) =>
        if s[3] == ' ' && s[5 + w] == ',' && s[6 + w] == ' ' && AllDigits(yearText) then
          YearBound(yearText);
          var year := Number(yearText);
          if 1 <= year && 1 <= day <= DaysIn(year, month) then Some(Date(year, month, day)) else None
        else None
      case _ => None
  }

  lemma YearBound(s: string)
    requires |s| == 4 && AllDigits(s)
    ensures Number(s) <= 9999
  {
    NumberBound(s);
    assert Pow10(4) == 10000;
  }

  /**
   * `strptime(s, '%I:%M %p')`, restricted to an hour of one or two digits with
   * value 1 to 12, a colon, a minute of one or two digits below 60, one space
   * and "AM" or "PM" in capitals. Twelve o'clock AM is hour 0; PM adds twelve
   * to every hour but 12.
   */
  function ParseTime(s: string): (r: Option<Time>)
    ensures r.Some? ==> ValidTime(r.value)
    ensures r.Some? ==> |s| >= 2 && (r.value.hour < 12 <==> s[|s| - 2..] == "AM")
  {
    var c := if |s| > 1 && s[1] == ':' then 1 else 2;
    if |s| < c + 5 || |s| > c + 6 || s[c] != ':' || s[|s| - 3] != ' ' then None
    else
      var marker := s[|s| - 2..];
      match (SmallNumber(s[..c]), SmallNumber(s[c + 1..|s| - 3]))
      case (Some(hour), Some(minute)) =>
        if 1 <= hour <= 12 && minute < 60 && (marker == "AM" || marker == "PM") then
          var pm := marker == "PM";
          Some(Time(if hour == 12 then (if pm then 12 else 0) else (if pm then hour + 12 else hour), minute))
        else None
      case _ => None
  }

  /** Two decimal digits, zero padded (`%d`, `%m`, `%I`, `%M`). */
  function Pad2(n: nat): (r: string)
    requires n < 100
    ensures |r| == 2 && AllDigits(r) && Number(r) == n
  {
    var r := [DigitChar(n / 10), DigitChar(n % 10)];
    assert r[..1] == [r[0]] && r[..1][..0] == [];
    assert Number(r[..1]) == n / 10;
    assert Number(r) == Number(r[..1]) * 10 + n % 10;
    r
  }

  /** Four decimal digits, zero padded (`%Y`). */
  function Pad4(n: nat): (r: string)
    requires n < 10000
    ensures |r| == 4 && AllDigits(r) && Number(r) == n
  {
    var r := Pad2(n / 100) + Pad2(n % 100);
    assert r[..3][..2] == Pad2(n / 100) && r[..3] == Pad2(n / 100) + [r[2]] && r[..4] == r;
    r
  }

  /** `strftime('%Y-%m-%d')`: the form the parser rewrites dates into. */
  function IsoDate(d: Date): (r: string)
    requires ValidDate(d)
  {
    Pad4(d.year) + "-" + Pad2(d.month) + "-" + Pad2(d.day)
  }

  /**
   * A number below 100 as `%d`, `%I` or `%M` match it: two digits, zero padded,
   * as strftime writes it (`wide`), or a single digit, which strptime also reads.
   */
  function Digits(n: nat, wide: bool): (r: string)
    requires n < 100 && (wide || n < 10)
    ensures |r| == (if wide then 2 else 1) && SmallNumber(r) == Some(n)
  {
    if wide then Pad2(n)
    else
      var r := [DigitChar(n)];
      OneDigit(r);
      r
  }

  /** A date as `%b %d, %Y` matches it, with the day of two digits or, below 10, of one. */
  function DateText(d: Date, wideDay: bool): (r: string)
    requires ValidDate(d) && (wideDay || d.day < 10)
  {
    MonthNames[d.month - 1] + " " + Digits(d.day, wideDay) + ", " + Pad4(d.year)
  }

  /** The hour a 12-hour clock shows: 12 for midnight and noon. */
  function ClockHour(t: Time): (h: nat)
    ensures 1 <= h <= 12
  {
    if t.hour % 12 == 0 then 12 else t.hour % 12
  }

  /** A time as `%I:%M %p` matches it, with hour and minute of two digits or, below 10, of one. */
  function TimeText(t: Time, wideHour: bool, wideMinute: bool): (r: string)
    requires ValidTime(t) && (wideHour || ClockHour(t) < 10) && (wideMinute || t.minute < 10)
  {
    Digits(ClockHour(t), wideHour) + ":" + Digits(t.minute, wideMinute) + " " + (if t.hour < 12 then "AM" else "PM")
  }

  /** `strftime('%I:%M %p')`: the 12-hour form, both in the export and after reformatting. */
  function ShowTime(t: Time): (r: string)
    requires ValidTime(t)
  {
    TimeText(t, true, true)
  }

  /**
   * `strftime('%I:%M %p')` writes eight characters: the clock hour and the
   * minute zero padded, a colon, a space and the marker, `AM` before noon.
   */
  lemma ShowTimeParts(t: Time)
    requires ValidTime(t)
    ensures var s := ShowTime(t);
      |s| == 8 && s[..2] == Pad2(ClockHour(t)) && s[2] == ':' && s[3..5] == Pad2(t.minute) && s[5] == ' '
      && s[6..] == (if t.hour < 12 then "AM" else "PM")
  {
    TimeTextSlices(Pad2(ClockHour(t)), Pad2(t.minute), if t.hour < 12 then "AM" else "PM");
  }

  /**
   * Every valid date parses back to itself, written as strftime writes it
   * (`wideDay`) or with a one-digit day.
   */
  lemma DateTextRoundTrip(d: Date, wideDay: bool)
    requires ValidDate(d) && (wideDay || d.day < 10)
    ensures ParseDate(DateText(d, wideDay)) == Some(d)
  {
    var name, day, year := MonthNames[d.month - 1], Digits(d.day, wideDay), Pad4(d.year);
    MonthOfName(d.month);
    var w := |day| - 1;
    var p := name + " ";
    var q := p + day + ", ";
    var s := q + year;
    assert s == DateText(d, wideDay);
    assert |p| == 4 && |q| == 7 + w && |s| == 11 + w;
    assert s[3] == ' ' && s[5 + w] == ',' && s[6 + w] == ' ';
    assert s[..3] == name && s[4..5 + w] == q[4..5 + w] == day && s[7 + w..] == year;
  }

  /** Each month's abbreviation has three letters and names that month. */
  lemma MonthOfName(month: nat)
    requires 1 <= month <= 12
    ensures |MonthNames[month - 1]| == 3 && MonthOf(MonthNames[month - 1]) == Some(month)
  {
  }

  /**
   * Every valid time parses back to itself, written as strftime writes it or with
   * a one-digit hour or minute; reformatting the time columns loses nothing.
   */
  lemma TimeTextRoundTrip(t: Time, wideHour: bool, wideMinute: bool)
    requires ValidTime(t) && (wideHour || ClockHour(t) < 10) && (wideMinute || t.minute < 10)
    ensures ParseTime(TimeText(t, wideHour, wideMinute)) == Some(t)
  {
    var hour, minute := Digits(ClockHour(t), wideHour), Digits(t.minute, wideMinute);
    var marker := if t.hour < 12 then "AM" else "PM";
    TimeTextSlices(hour, minute, marker);
  }

  /** Where hour, minute and marker sit in a text of the form `%I:%M %p`. */
  lemma TimeTextSlices(hour: string, minute: string, marker: string)
    requires |marker| == 2
    ensures var s := hour + ":" + minute + " " + marker;
      var c := |hour|;
      |s| == c + |minute| + 4 && s[c] == ':' && s[..c] == hour && s[c + 1..|s| - 3] == minute
      && s[|s| - 3] == ' ' && s[|s| - 2..] == marker
  {
    var s := hour + ":" + minute + " " + marker;
    var q := hour + ":" + minute;
    assert s == q + " " + marker;
    assert s[..|q|] == q;
    assert q[|hour| + 1..] == minute;
  }

  /** The only texts the date parser accepts are the renderings of the date it returns. */
  lemma ParseDateIsDateText(s: string)
    ensures ParseDate(s).Some? ==>
      exists wideDay :: (wideDay || ParseDate(s).value.day < 10) && s == DateText(ParseDate(s).value, wideDay)
  {
    if ParseDate(s).Some? {
      var d := ParseDate(s).value;
      var w := |s| - 11;
      SmallNumberDigits(s[4..5 + w]);
      FourDigits(s[7 + w..]);
      assert s == s[..3] + " " + s[4..5 + w] + ", " + s[7 + w..];
      assert s == DateText(d, w == 1);
    }
  }

  /** The only texts the time parser accepts are the renderings of the time it returns. */
  lemma ParseTimeIsTimeText(s: string)
    ensures ParseTime(s).Some? ==>
      exists wideHour, wideMinute ::
        (wideHour || ClockHour(ParseTime(s).value) < 10) && (wideMinute || ParseTime(s).value.minute < 10)
        && s == TimeText(ParseTime(s).value, wideHour, wideMinute)
  {
    if ParseTime(s).Some? {
      var t := ParseTime(s).value;
      var c := if |s| > 1 && s[1] == ':' then 1 else 2;
      var hour, minute := s[..c], s[c + 1..|s| - 3];
      SmallNumberDigits(hour);
      SmallNumberDigits(minute);
      assert ClockHour(t) == SmallNumber(hour).value;
      assert s == hour + ":" + minute + " " + s[|s| - 2..];
      assert s == TimeText(t, c == 2, |minute| == 2);
    }
  }

  /** A run of one or two digits is the rendering of its value. */
  lemma SmallNumberDigits(t: string)
    requires SmallNumber(t).Some?
    ensures (|t| == 2 || SmallNumber(t).value < 10) && t == Digits(SmallNumber(t).value, |t| == 2)
  {
    if |t| == 1 {
      OneDigit(t);
    } else {
      TwoDigits(t);
    }
  }

  lemma OneDigit(t: string)
    requires |t| == 1 && IsDigit(t[0])
    ensures AllDigits(t) && Number(t) == t[0] as int - '0' as int
    ensures Number(t) < 10 && t == [DigitChar(Number(t))]
  {
    assert t[..0] == [];
  }

  lemma TwoDigits(t: string)
    requires |t| == 2 && AllDigits(t)
    ensures Number(t) < 100 && t == Pad2(Number(t))
  {
    var a, b := t[..1], t[1..];
    OneDigit(a);
    OneDigit(b);
    assert t[..|t| - 1] == a;
    var n := Number(t);
    assert n == Number(a) * 10 + Number(b);
    assert n / 10 == Number(a) && n % 10 == Number(b);
  }

  /** Four digits are the zero-padded rendering of their value. */
  lemma FourDigits(t: string)
    requires |t| == 4 && AllDigits(t)
    ensures Number(t) < 10000 && t == Pad4(Number(t))
  {
    var hi, lo := t[..2], t[2..];
    TwoDigits(hi);
    TwoDigits(lo);
    NumberOfFour(t);
    var n := Number(t);
    assert n == Number(hi) * 100 + Number(lo);
    assert n / 100 == Number(hi) && n % 100 == Number(lo);
    assert t == hi + lo;
  }

  lemma NumberOfFour(t: string)
    requires |t| == 4 && AllDigits(t)
    ensures Number(t) == Number(t[..2]) * 100 + Number(t[2..])
  {
    var d2, d3 := t[2] as int - '0' as int, t[3] as int - '0' as int;
    assert t[..3][..2] == t[..2];
    assert Number(t) == (Number(t[..2]) * 10 + d2) * 10 + d3;
    OneDigit(t[2..3]);
    assert t[2..][..1] == t[2..3];
    assert Number(t[2..]) == d2 * 10 + d3;
  }

  /** Reformatted dates are equal only for equal dates, so grouping by the text groups by the day. */
  lemma IsoDateInjective(a: Date, b: Date)
    requires ValidDate(a) && ValidDate(b) && IsoDate(a) == IsoDate(b)
    ensures a == b
  {
    IsoDateParts(a);
    IsoDateParts(b);
  }

  /** Where the year, the month and the day sit in an ISO date. */
  lemma IsoDateParts(d: Date)
    requires ValidDate(d)
    ensures |IsoDate(d)| == 10
    ensures IsoDate(d)[..4] == Pad4(d.year) && IsoDate(d)[4] == '-'
    ensures IsoDate(d)[5..7] == Pad2(d.month) && IsoDate(d)[7] == '-'
    ensures IsoDate(d)[8..] == Pad2(d.day)
  {
    var p := Pad4(d.year) + "-";
    var q := p + Pad2(d.month) + "-";
    assert |p| == 5 && |q| == 8;
    assert IsoDate(d) == q + Pad2(d.day);
    assert p[..4] == Pad4(d.year);
    assert q[5..7] == Pad2(d.month);
  }

  /** The order `sort_values(by='datetime_in')` uses: year, month, day, hour, minute. */
  predicate StampLe(a: Stamp, b: Stamp)
  {
    DateLt(a.date, b.date) || (a.date == b.date && TimeLe(a.time, b.time))
  }

  predicate DateLt(a: Date, b: Date)
  {
    a.year < b.year || (a.year == b.year && (a.month < b.month || (a.month == b.month && a.day < b.day)))
  }

  predicate TimeLe(a: Time, b: Time)
  {
    a.hour < b.hour || (a.hour == b.hour && a.minute <= b.minute)
  }

  /** The check-in order is a total preorder, which is what sorting by it needs. */
  lemma StampLeTotalPreorder(a: Stamp, b: Stamp, c: Stamp)
    ensures StampLe(a, a)
    ensures StampLe(a, b) || StampLe(b, a)
    ensures StampLe(a, b) && StampLe(b, c) ==> StampLe(a, c)
  {
  }
}
