/** Military date formatting and day arithmetic. `new Date(...)` parsing and the
    browser's time zone are outside the model: a date arrives as the local
    calendar date the JavaScript `Date` denotes, and the zone as the UTC offset
    local time has at each midnight. */
module DateUtils {
  import opened Wrappers
  import opened Text

  type Month = m: int | 1 <= m <= 12 witness 1
  type Day = d: int | 1 <= d <= 31 witness 1

  /** A local calendar date, as `getFullYear()`, `getMonth() + 1` and `getDate()` report it. */
  datatype CalendarDate = CalendarDate(year: int, month: Month, day: Day)

  /** A formatter's argument: falsy (`null`, `undefined`, `''`), a value `new Date`
      cannot read (an Invalid Date, whose getters give NaN), or a date. */
  datatype DateInput = Missing | Invalid | At(date: CalendarDate)

  const MonthNames: seq<string> :=
    ["Jan", "Feb", "Mar", "Apr", "May", "Jun", "Jul", "Aug", "Sep", "Oct", "Nov", "Dec"]

  // ---------------------------------------------------------------------------
  // Formatting

  /** `formatMilitary`: `DD Mon YYYY`. */
  function FormatMilitary(x: DateInput): (r: string)
    ensures r == "" <==> x.Missing?
    ensures x.Invalid? ==> r == "NaN undefined NaN"
  {
    match x
    case Missing => ""
    case Invalid => assert |"NaN undefined NaN"| > 0; "NaN undefined NaN"
    case At(c) => Pad2(c.day) + " " + MonthNames[c.month - 1] + " " + IntToString(c.year)
  }

  /** `formatNumeric`: `YYYYMMDD`. */
  function FormatNumeric(x: DateInput): (r: string)
    ensures r == "" <==> x.Missing?
    ensures x.Invalid? ==> r == "NaNNaNNaN"
  {
    match x
    case Missing => ""
    case Invalid => "NaNNaNNaN"
    case At(c) => IntToString(c.year) + Pad2(c.month) + Pad2(c.day)
  }

  /** `formatISO`: `YYYY-MM-DD`, the value format of a date input field. */
  function FormatISO(x: DateInput): (r: string)
    ensures r == "" <==> x.Missing?
    ensures x.Invalid? ==> r == "NaN-NaN-NaN"
  {
    match x
    case Missing => ""
    case Invalid => "NaN-NaN-NaN"
    case At(c) => IntToString(c.year) + "-" + Pad2(c.month) + "-" + Pad2(c.day)
  }

  /** A date string stored in a package, as the views hand it to a formatter:
      `null` and `''` are falsy and show nothing, anything else goes through
      `new Date`, which is the parameter `parse`. */
  function StoredDate(v: Option<string>, parse: string -> DateInput): (r: DateInput)
    ensures v.None? || v == Some("") ==> r == Missing
    ensures v.Some? && v.value != "" ==> r == parse(v.value)
  {
    if v.None? || v.value == "" then Missing else parse(v.value)
  }

  /** A stored date an editor shows in a date input and saves back unchanged:
      none, or a non-empty string the input displays as itself. */
  predicate SurvivesDateInput(v: Option<string>, parse: string -> DateInput) {
    v.None? || (v.value != "" && FormatISO(parse(v.value)) == v.value)
  }

  /** Reads a `YYYY-MM-DD` value with a four-digit year, as a date input holds it. */
  function ParseISODate(s: string): (r: Option<CalendarDate>)
    ensures r.Some? ==> |s| == 10 && s[4] == '-' && s[7] == '-'
  {
    if |s| == 10 && s[4] == '-' && s[7] == '-'
       && AllDigits(s[..4]) && AllDigits(s[5..7]) && AllDigits(s[8..])
    then
      var m, d := ParseNat(s[5..7]), ParseNat(s[8..]);
      if 1 <= m <= 12 && 1 <= d <= 31 then Some(CalendarDate(ParseNat(s[..4]), m, d)) else None
    else None
  }

  /** A date with a four-digit year survives a trip through `formatISO` and back:
      the edit dialogs show a stored date in the form the date input returns. */
  lemma ISORoundTrip(c: CalendarDate)
    requires 1000 <= c.year <= 9999
    ensures ParseISODate(FormatISO(At(c))) == Some(c)
  {
    var y, m, d := IntToString(c.year), Pad2(c.month), Pad2(c.day);
    var s := y + "-" + m + "-" + d;
    assert s[..4] == y && s[5..7] == m && s[8..] == d;
  }

  /** The month number a three-letter month name stands for. */
  function MonthNumber(name: string): (r: Option<Month>)
    ensures r.Some? ==> MonthNames[r.value - 1] == name
  {
    if name == "Jan" then Some(1) else if name == "Feb" then Some(2)
    else if name == "Mar" then Some(3) else if name == "Apr" then Some(4)
    else if name == "May" then Some(5) else if name == "Jun" then Some(6)
    else if name == "Jul" then Some(7) else if name == "Aug" then Some(8)
    else if name == "Sep" then Some(9) else if name == "Oct" then Some(10)
    else if name == "Nov" then Some(11) else if name == "Dec" then Some(12)
    else None
  }

  lemma MonthNamesAreDistinct(m: Month)
    ensures MonthNumber(MonthNames[m - 1]) == Some(m)
    ensures |MonthNames[m - 1]| == 3
  {
  }

  /** Reads `DD Mon YYYY` with a non-negative year. */
  function ParseMilitary(s: string): Option<CalendarDate> {
    if |s| >= 8 && s[2] == ' ' && s[6] == ' '
       && AllDigits(s[..2]) && AllDigits(s[7..]) && MonthNumber(s[3..6]).Some?
    then
      var d := ParseNat(s[..2]);
      if 1 <= d <= 31 then Some(CalendarDate(ParseNat(s[7..]), MonthNumber(s[3..6]).value, d)) else None
    else None
  }

  /** `formatMilitary` loses nothing for a date of year 0 or later. */
  lemma MilitaryRoundTrip(c: CalendarDate)
    requires c.year >= 0
    ensures ParseMilitary(FormatMilitary(At(c))) == Some(c)
  {
    var d, mon, y := Pad2(c.day), MonthNames[c.month - 1], IntToString(c.year);
    MonthNamesAreDistinct(c.month);
    assert |mon| == 3;
    var s := d + " " + mon + " " + y;
    assert s[..2] == d && s[2] == ' ' && s[3..6] == mon && s[6] == ' ' && s[7..] == y;
  }

  /** `s` with every `-` removed. */
  function WithoutHyphens(s: string): (r: string)
    ensures |r| <= |s|
  {
    if s == [] then []
    else (if s[0] == '-' then [] else [s[0]]) + WithoutHyphens(s[1..])
  }

  lemma {:induction false} WithoutHyphensAppend(s: string, t: string)
    ensures WithoutHyphens(s + t) == WithoutHyphens(s) + WithoutHyphens(t)
  {
    if s == [] {
      assert s + t == t;
    } else {
      assert (s + t)[0] == s[0] && (s + t)[1..] == s[1..] + t;
      WithoutHyphensAppend(s[1..], t);
    }
  }

  lemma {:induction false} WithoutHyphensOfDigits(s: string)
    requires AllDigits(s)
    ensures WithoutHyphens(s) == s
  {
    if s != [] {
      WithoutHyphensOfDigits(s[1..]);
    }
  }

  /** For a year of 0 or later, `formatNumeric` is `formatISO` without its
      separators. */
  lemma NumericIsISOWithoutSeparators(x: DateInput)
    requires x.At? ==> x.date.year >= 0
    ensures x.At? ==> FormatNumeric(x) == WithoutHyphens(FormatISO(x))
  {
    if x.At? {
      var y, m, d := IntToString(x.date.year), Pad2(x.date.month), Pad2(x.date.day);
      WithoutHyphensAppend(y + "-" + m + "-", d);
      WithoutHyphensAppend(y + "-" + m, "-");
      WithoutHyphensAppend(y + "-", m);
      WithoutHyphensAppend(y, "-");
      WithoutHyphensOfDigits(y);
      WithoutHyphensOfDigits(m);
      WithoutHyphensOfDigits(d);
    }
  }

  // ---------------------------------------------------------------------------
  // Days until a deadline

  const DayMs: int := 1000 * 60 * 60 * 24
  const HourMs: int := 1000 * 60 * 60

  /** Days since 1 January 1970 of a proleptic Gregorian date. */
  function DayNumber(c: CalendarDate): int {
    var y := if c.month <= 2 then c.year - 1 else c.year;
    var era := y / 400;
    var yoe := y - era * 400;
    var mp := if c.month > 2 then c.month - 3 else c.month + 9;
    var doy := (153 * mp + 2) / 5 + c.day - 1;
    var doe := yoe * 365 + yoe / 4 - yoe / 100 + doy;
    era * 146097 + doe - 719468
  }

  lemma DayNumberOfEpoch()
    ensures DayNumber(CalendarDate(1970, 1, 1)) == 0
  {
  }

  /** The next day of the same month is one day later. */
  lemma DayNumberNextDay(c: CalendarDate)
    requires c.day < 31
    ensures DayNumber(c.(day := c.day + 1)) == DayNumber(c) + 1
  {
  }

  /** The local time zone: the offset from UTC, in ms, of local time at the
      midnight that starts each date (negative west of Greenwich). */
  type Zone = CalendarDate -> int

  /** The epoch time of local midnight, what `setHours(0, 0, 0, 0)` leaves. */
  function LocalMidnight(c: CalendarDate, zone: Zone): int {
    DayNumber(c) * DayMs - zone(c)
  }

  /** `Math.ceil(a / b)` for a positive divisor. */
  function CeilDiv(a: int, b: int): (r: int)
    requires b > 0
    ensures (r - 1) * b < a <= r * b
  {
    -((-a) / b)
  }

  /** `Math.round(a / b)` (halves up) for a positive divisor. */
  function RoundDiv(a: int, b: int): (r: int)
    requires b > 0
    ensures 2 * r * b - b <= 2 * a < 2 * r * b + b
  {
    (2 * a + b) / (2 * b)
  }

  /** What `daysUntil` returns: null, NaN or a whole number of days. */
  datatype DayCount = NoDeadline | NotANumber | Count(days: int)

  /** `daysUntil(deadline)` as written: the difference of the two local midnights
      divided by a day and rounded up. */
  function DaysUntilAsWritten(deadline: DateInput, today: CalendarDate, zone: Zone): (r: DayCount)
    ensures deadline.Missing? <==> r.NoDeadline?
    ensures deadline.Invalid? <==> r.NotANumber?
  {
    match deadline
    case Missing => NoDeadline
    case Invalid => NotANumber
    case At(t) => Count(CeilDiv(LocalMidnight(t, zone) - LocalMidnight(today, zone), DayMs))
  }

  /** When the zone's offset is the same on both dates, `daysUntil` as written is
      the number of calendar days between them. */
  lemma DaysUntilAsWrittenWithoutOffsetChange(t: CalendarDate, today: CalendarDate, zone: Zone)
    requires zone(t) == zone(today)
    ensures DaysUntilAsWritten(At(t), today, zone) == Count(DayNumber(t) - DayNumber(today))
  {
    var n := DayNumber(t) - DayNumber(today);
    var q := CeilDiv(LocalMidnight(t, zone) - LocalMidnight(today, zone), DayMs);
    assert LocalMidnight(t, zone) - LocalMidnight(today, zone) == n * DayMs;
    assert (q - 1) * DayMs < n * DayMs <= q * DayMs;
    MulLt(q - 1, n, DayMs);
    MulLt(n, q, DayMs);
  }

  /** With a positive `d`, a product below another means a smaller factor. */
  lemma MulLt(a: int, b: int, d: int)
    requires d > 0
    ensures a * d < b * d ==> a < b
    ensures a * d <= b * d ==> a <= b
  {
    if a > b {
      assert a * d - b * d == (a - b) * d;
    }
  }

  /** US Eastern time around the end of daylight saving time in 2024, at each
      local midnight: the clocks go back at 02:00 on 3 November, so that day's
      midnight is still UTC-4, and UTC-5 holds from 4 November on. */
  function EasternAutumn2024(c: CalendarDate): int {
    if c.year == 2024 && (c.month < 11 || (c.month == 11 && c.day <= 3)) then -4 * HourMs
    else -5 * HourMs
  }

  /** From 1 November to 10 November 2024 in US Eastern time is 9 calendar days,
      but the span between the two midnights holds the extra hour of the clock
      change, so `daysUntil` as written rounds 9 days and 1 hour up to 10. */
  lemma DaysUntilAsWrittenCountsClockChange()
    ensures DayNumber(CalendarDate(2024, 11, 10)) - DayNumber(CalendarDate(2024, 11, 1)) == 9
    ensures DaysUntilAsWritten(At(CalendarDate(2024, 11, 10)), CalendarDate(2024, 11, 1), EasternAutumn2024)
            == Count(10)
  {
    var t, today := CalendarDate(2024, 11, 10), CalendarDate(2024, 11, 1);
    assert LocalMidnight(t, EasternAutumn2024) - LocalMidnight(today, EasternAutumn2024) == 9 * DayMs + HourMs;
  }

  /** `daysUntil` rounding to the nearest day instead of up: the count of calendar
      days whenever the zone's offset changes by less than half a day between the
      two dates. */
  function DaysUntil(deadline: DateInput, today: CalendarDate, zone: Zone): (r: DayCount)
    ensures deadline.Missing? <==> r.NoDeadline?
    ensures deadline.Invalid? <==> r.NotANumber?
    ensures deadline.At? && -DayMs < 2 * (zone(deadline.date) - zone(today)) < DayMs ==>
      r == Count(DayNumber(deadline.date) - DayNumber(today))
  {
    match deadline
    case Missing => NoDeadline
    case Invalid => NotANumber
    case At(t) =>
      NearestDay(DayNumber(t) - DayNumber(today), zone(t) - zone(today));
      Count(RoundDiv(LocalMidnight(t, zone) - LocalMidnight(today, zone), DayMs))
  }

  /** A span of `n` days lengthened or shortened by less than half a day rounds
      to `n` days. */
  lemma NearestDay(n: int, shift: int)
    ensures -DayMs < 2 * shift < DayMs ==> RoundDiv(n * DayMs - shift, DayMs) == n
  {
    var q := RoundDiv(n * DayMs - shift, DayMs);
    MulLt(2 * q - 1, 2 * n + 1, DayMs);
    MulLt(2 * n - 1, 2 * q + 1, DayMs);
  }

  // ---------------------------------------------------------------------------
  // Relative deadline text

  /** The cases `getRelativeTime` distinguishes. */
  datatype Relative =
    | NoText
    | NaNMonths
    | Overdue(days: nat)
    | DueToday
    | DueTomorrow
    | DaysRemaining(days: nat)
    | WeeksRemaining(weeks: nat)
    | MonthsRemaining(months: nat)

  function Classify(d: DayCount): (r: Relative)
    ensures d.NoDeadline? <==> r.NoText?
    ensures d.NotANumber? <==> r.NaNMonths?
    ensures d.Count? && d.days < 0 <==> r.Overdue?
    ensures r.Overdue? ==> r.days == -d.days && r.days > 0
    ensures d.Count? && d.days == 0 <==> r.DueToday?
    ensures d.Count? && d.days == 1 <==> r.DueTomorrow?
    ensures r.DaysRemaining? <==> d.Count? && 2 <= d.days <= 7
    ensures r.DaysRemaining? ==> r.days == d.days
    ensures r.WeeksRemaining? <==> d.Count? && 8 <= d.days <= 30
    ensures r.WeeksRemaining? ==> 2 <= r.weeks <= 5 && 7 * (r.weeks - 1) < d.days <= 7 * r.weeks
    ensures r.MonthsRemaining? <==> d.Count? && d.days > 30
    ensures r.MonthsRemaining? ==> r.months >= 2 && 30 * (r.months - 1) < d.days <= 30 * r.months
  {
    match d
    case NoDeadline => NoText
    // NaN fails every comparison and falls through to the months branch.
    case NotANumber => NaNMonths
    case Count(n) =>
      if n < 0 then Overdue(-n)
      else if n == 0 then DueToday
      else if n == 1 then DueTomorrow
      else if n <= 7 then DaysRemaining(n)
      else if n <= 30 then WeeksRemaining(CeilDiv(n, 7))
      else MonthsRemaining(CeilDiv(n, 30))
  }

  function Render(r: Relative): string {
    match r
    case NoText => ""
    case NaNMonths => "NaN months remaining"
    case Overdue(n) => NatToString(n) + " days overdue"
    case DueToday => "Due today"
    case DueTomorrow => "Due tomorrow"
    case DaysRemaining(n) => NatToString(n) + " days remaining"
    case WeeksRemaining(w) => NatToString(w) + " weeks remaining"
    case MonthsRemaining(m) => NatToString(m) + " months remaining"
  }

  /** `getRelativeTime(date)`: the text for the day count `daysUntil` as written
      returns. */
  function GetRelativeTime(deadline: DateInput, today: CalendarDate, zone: Zone): (r: string)
    ensures deadline.Missing? <==> r == ""
    ensures deadline.Invalid? ==> r == "NaN months remaining"
    ensures var d := DaysUntilAsWritten(deadline, today, zone);
      && (d.Count? && d.days < 0 ==> r == NatToString(-d.days) + " days overdue")
      && (d == Count(0) ==> r == "Due today")
      && (d == Count(1) ==> r == "Due tomorrow")
      && (d.Count? && 2 <= d.days <= 7 ==> r == NatToString(d.days) + " days remaining")
      && (d.Count? && 8 <= d.days <= 30 ==> r == NatToString(CeilDiv(d.days, 7)) + " weeks remaining")
      && (d.Count? && d.days > 30 ==> r == NatToString(CeilDiv(d.days, 30)) + " months remaining")
  {
    Render(Classify(DaysUntilAsWritten(deadline, today, zone)))
  }

  /** Where the zone's offset is the same on both dates, the text counts calendar
      days, as it would with the rounding of `DaysUntil`. */
  lemma RelativeTimeWithoutOffsetChange(t: CalendarDate, today: CalendarDate, zone: Zone)
    requires zone(t) == zone(today)
    ensures GetRelativeTime(At(t), today, zone) == Render(Classify(Count(DayNumber(t) - DayNumber(today))))
    ensures GetRelativeTime(At(t), today, zone) == Render(Classify(DaysUntil(At(t), today, zone)))
  {
    DaysUntilAsWrittenWithoutOffsetChange(t, today, zone);
  }

  /** A deadline one calendar week after 1 November 2024 in US Eastern time is
      shown as two weeks away: the extra hour of the clock change makes
      `daysUntil` count 8 days, where the calendar (and `DaysUntil`) count 7. */
  lemma RelativeTimeAcrossClockChange()
    ensures GetRelativeTime(At(CalendarDate(2024, 11, 8)), CalendarDate(2024, 11, 1), EasternAutumn2024)
            == "2 weeks remaining"
    ensures Render(Classify(DaysUntil(At(CalendarDate(2024, 11, 8)), CalendarDate(2024, 11, 1), EasternAutumn2024)))
            == "7 days remaining"
  {
    ClockChangeWeek();
    var w := Render(WeeksRemaining(2));
    assert NatToString(2) == "2";
    assert w == "2 weeks remaining";
    var d := Render(DaysRemaining(7));
    assert NatToString(7) == "7";
    assert d == "7 days remaining";
  }

  /** The day counts of that week: 8 as written, 7 rounding to the nearest day. */
  lemma ClockChangeWeek()
    ensures Classify(DaysUntilAsWritten(At(CalendarDate(2024, 11, 8)), CalendarDate(2024, 11, 1), EasternAutumn2024))
            == WeeksRemaining(2)
    ensures Classify(DaysUntil(At(CalendarDate(2024, 11, 8)), CalendarDate(2024, 11, 1), EasternAutumn2024))
            == DaysRemaining(7)
  {
    var t, today := CalendarDate(2024, 11, 8), CalendarDate(2024, 11, 1);
    assert DayNumber(t) - DayNumber(today) == 7;
    assert LocalMidnight(t, EasternAutumn2024) - LocalMidnight(today, EasternAutumn2024) == 7 * DayMs + HourMs;
    assert DaysUntilAsWritten(At(t), today, EasternAutumn2024) == Count(8);
    assert CeilDiv(8, 7) == 2;
  }

  // ---------------------------------------------------------------------------
  // Age

  /** `a` comes strictly before `b` in the calendar. */
  predicate Before(a: CalendarDate, b: CalendarDate) {
    a.year < b.year || (a.year == b.year && (a.month < b.month || (a.month == b.month && a.day < b.day)))
  }

  /** The month and day of `c` in another year. */
  function InYear(c: CalendarDate, year: int): CalendarDate {
    c.(year := year)
  }

  /** `calculateAge(dob)`; None stands for an Invalid Date and NaN. The age is the
      number of birthdays passed: the one of that age is not after today and the
      next one is after today. */
  function CalculateAge(birth: Option<CalendarDate>, today: CalendarDate): (r: Option<int>)
    ensures birth.None? <==> r.None?
    ensures r.Some? ==> !Before(today, InYear(birth.value, birth.value.year + r.value))
    ensures r.Some? ==> Before(today, InYear(birth.value, birth.value.year + r.value + 1))
  {
    match birth
    case None => None
    case Some(b) =>
      var age := today.year - b.year;
      var m := today.month - b.month;
      if m < 0 || (m == 0 && today.day < b.day) then Some(age - 1) else Some(age)
  }
}
