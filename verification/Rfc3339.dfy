/**
 UTC timestamps as RFC 3339 text (section 5.6), the form SQLite stores and the cursor
 carries. Years have exactly four digits; a fraction of up to nine digits is written
 without trailing zeros and left out when it is zero.
 */
module Rfc3339 {
  import opened Keyset
  import opened Decimal

  datatype Time = Time(year: int, month: int, day: int, hour: int, minute: int, second: int, nanos: int)

  predicate IsLeap(year: int) {
    year % 4 == 0 && (year % 100 != 0 || year % 400 == 0)
  }

  function DaysIn(year: int, month: int): int {
    if month == 2 then (if IsLeap(year) then 29 else 28)
    else if month == 4 || month == 6 || month == 9 || month == 11 then 30
    else 31
  }

  predicate Valid(t: Time) {
    && 1 <= t.month <= 12 && 1 <= t.day <= DaysIn(t.year, t.month)
    && 0 <= t.hour < 24 && 0 <= t.minute < 60 && 0 <= t.second < 60
    && 0 <= t.nanos < 1_000_000_000
  }

  /** A year the four-digit text can hold. */
  predicate FourDigitYear(t: Time) {
    0 <= t.year <= 9999
  }

  predicate WholeSecond(t: Time) {
    t.nanos == 0
  }

  // ---------------------------------------------------------------------------
  // Chronological order: nanoseconds on the proleptic Gregorian time line
  // ---------------------------------------------------------------------------

  function DaysBeforeYear(year: int): int {
    var y := year - 1;
    365 * year + y / 4 - y / 100 + y / 400
  }

  function DaysBeforeMonth(year: int, month: int): int
    requires 1 <= month <= 12
  {
    if month == 1 then 0 else DaysBeforeMonth(year, month - 1) + DaysIn(year, month - 1)
  }

  function Day(t: Time): int
    requires Valid(t)
  {
    DaysBeforeYear(t.year) + DaysBeforeMonth(t.year, t.month) + t.day - 1
  }

  function SecondOfDay(t: Time): int {
    t.hour * 3600 + t.minute * 60 + t.second
  }

  function Instant(t: Time): int
    requires Valid(t)
  {
    (Day(t) * 86400 + SecondOfDay(t)) * 1_000_000_000 + t.nanos
  }

  lemma NextQuotients(n: int)
    ensures n / 4 == (n - 1) / 4 + if n % 4 == 0 then 1 else 0
    ensures n / 100 == (n - 1) / 100 + if n % 100 == 0 then 1 else 0
    ensures n / 400 == (n - 1) / 400 + if n % 400 == 0 then 1 else 0
  {
  }

  lemma FourTimes(x: int)
    ensures 4 * x % 4 == 0
  {
  }

  lemma HundredTimes(x: int)
    ensures 100 * x % 100 == 0
  {
  }

  lemma MultiplesOf(n: int)
    ensures n % 100 == 0 ==> n % 4 == 0
    ensures n % 400 == 0 ==> n % 100 == 0
  {
    if n % 100 == 0 {
      FourTimes(25 * (n / 100));
      assert n == 100 * (n / 100);
    }
    if n % 400 == 0 {
      HundredTimes(4 * (n / 400));
      assert n == 400 * (n / 400);
    }
  }

  lemma YearLength(year: int)
    ensures DaysBeforeYear(year + 1) == DaysBeforeYear(year) + if IsLeap(year) then 366 else 365
  {
    NextQuotients(year);
    MultiplesOf(year);
  }

  lemma {:induction false} EarlierYear(a: int, b: int)
    requires a < b
    ensures DaysBeforeYear(a) + (if IsLeap(a) then 366 else 365) <= DaysBeforeYear(b)
    decreases b - a
  {
    YearLength(b - 1);
    if a < b - 1 {
      EarlierYear(a, b - 1);
    }
  }

  lemma {:induction false} EarlierMonth(year: int, a: int, b: int)
    requires 1 <= a < b <= 12
    ensures DaysBeforeMonth(year, a) + DaysIn(year, a) <= DaysBeforeMonth(year, b)
    decreases b - a
  {
    if a < b - 1 {
      EarlierMonth(year, a, b - 1);
    }
  }

  lemma YearTotal(year: int)
    ensures DaysBeforeMonth(year, 12) + 31 == if IsLeap(year) then 366 else 365
  {
    assert DaysBeforeMonth(year, 2) == 31;
    assert DaysBeforeMonth(year, 3) == 31 + DaysIn(year, 2);
    assert DaysBeforeMonth(year, 5) == DaysBeforeMonth(year, 3) + 61;
    assert DaysBeforeMonth(year, 7) == DaysBeforeMonth(year, 5) + 61;
    assert DaysBeforeMonth(year, 9) == DaysBeforeMonth(year, 7) + 62;
    assert DaysBeforeMonth(year, 11) == DaysBeforeMonth(year, 9) + 61;
  }

  lemma DaysFitTheYear(year: int, month: int, day: int)
    requires 1 <= month <= 12 && 1 <= day <= DaysIn(year, month)
    ensures 0 <= DaysBeforeMonth(year, month) + day - 1 < if IsLeap(year) then 366 else 365
  {
    if month > 1 {
      EarlierMonth(year, 1, month);
    }
    if month < 12 {
      EarlierMonth(year, month, 12);
    }
    YearTotal(year);
  }

  // ---------------------------------------------------------------------------
  // The calendar, against its written-out lengths
  // ---------------------------------------------------------------------------

  function FirstOf(year: int, month: int): Time {
    Time(year, month, 1, 0, 0, 0, 0)
  }

  /** From the first of a month to the first of the next: thirty days in four months, 28 or 29 in February, else 31. */
  lemma MonthsHaveTheirLengths(year: int, month: int)
    requires 1 <= month <= 12
    ensures var next := if month == 12 then FirstOf(year + 1, 1) else FirstOf(year, month + 1);
      Day(next) - Day(FirstOf(year, month)) ==
        if month == 4 || month == 6 || month == 9 || month == 11 then 30
        else if month != 2 then 31
        else if (year % 4 == 0 && year % 100 != 0) || year % 400 == 0 then 29 else 28
  {
    MultiplesOf(year);
    if month == 12 {
      YearLength(year);
      YearTotal(year);
    }
  }

  lemma FourHundredYears(year: int)
    ensures DaysBeforeYear(year + 400) == DaysBeforeYear(year) + 146097
  {
    var y := year - 1;
    assert (y + 400) / 4 == y / 4 + 100;
    assert (y + 400) / 100 == y / 100 + 4;
    assert (y + 400) / 400 == y / 400 + 1;
  }

  /** Days count on within a month, 400 years are 146097 days, and 1970 begins on day 719527. */
  lemma DaysCountOn(t: Time)
    requires Valid(t)
    ensures Day(t) - Day(FirstOf(t.year, t.month)) == t.day - 1
    ensures Day(FirstOf(t.year + 400, 1)) - Day(FirstOf(t.year, 1)) == 146097
    ensures Day(FirstOf(1970, 1)) == 719527
    ensures Instant(t) == (((Day(t) * 24 + t.hour) * 60 + t.minute) * 60 + t.second) * 1_000_000_000 + t.nanos
  {
    FourHundredYears(t.year);
    assert DaysBeforeYear(1970) == 719527;
    hide DaysBeforeYear;
  }

  /** A date within those lengths and a time of day are all it takes to be valid. */
  lemma ValidDates(t: Time)
    ensures Valid(t) <==>
      && 1 <= t.month <= 12
      && 1 <= t.day <= (
        if t.month == 4 || t.month == 6 || t.month == 9 || t.month == 11 then 30
        else if t.month != 2 then 31
        else if (t.year % 4 == 0 && t.year % 100 != 0) || t.year % 400 == 0 then 29 else 28)
      && 0 <= t.hour <= 23 && 0 <= t.minute <= 59 && 0 <= t.second <= 59 && 0 <= t.nanos <= 999_999_999
  {
    MultiplesOf(t.year);
  }

  /** The calendar fields, most significant first. */
  function Fields(t: Time): seq<int> {
    [t.year, t.month, t.day, t.hour, t.minute, t.second]
  }

  /** Order of two field lists: the first difference decides. */
  predicate FieldsBefore(a: seq<int>, b: seq<int>) {
    && a != [] && b != []
    && (a[0] < b[0] || (a[0] == b[0] && FieldsBefore(a[1..], b[1..])))
  }

  lemma DayOrder(a: Time, b: Time)
    requires Valid(a) && Valid(b)
    ensures Day(a) < Day(b) <==>
      a.year < b.year || (a.year == b.year && (a.month < b.month || (a.month == b.month && a.day < b.day)))
    ensures Day(a) == Day(b) <==> a.year == b.year && a.month == b.month && a.day == b.day
  {
    DaysFitTheYear(a.year, a.month, a.day);
    DaysFitTheYear(b.year, b.month, b.day);
    if a.year < b.year {
      EarlierYear(a.year, b.year);
    } else if b.year < a.year {
      EarlierYear(b.year, a.year);
    } else if a.month < b.month {
      EarlierMonth(a.year, a.month, b.month);
    } else if b.month < a.month {
      EarlierMonth(a.year, b.month, a.month);
    }
  }

  /** Two times denote the same instant only when they are the same. */
  lemma InstantsAreDistinct(a: Time, b: Time)
    requires Valid(a) && Valid(b)
    ensures Instant(a) == Instant(b) <==> a == b
  {
    DayOrder(a, b);
  }

  lemma FieldsAsLists(t: Time)
    ensures [t.second] + [] == [t.second] && [t.minute] + [t.second] == [t.minute, t.second]
    ensures [t.hour] + [t.minute, t.second] == [t.hour, t.minute, t.second]
    ensures [t.day] + [t.hour, t.minute, t.second] == [t.day, t.hour, t.minute, t.second]
    ensures [t.month] + [t.day, t.hour, t.minute, t.second] == [t.month, t.day, t.hour, t.minute, t.second]
    ensures [t.year] + [t.month, t.day, t.hour, t.minute, t.second] == Fields(t)
  {
  }

  lemma FieldsStep(m: int, xs: seq<int>, n: int, ys: seq<int>)
    ensures FieldsBefore([m] + xs, [n] + ys) <==> m < n || (m == n && FieldsBefore(xs, ys))
  {
    assert ([m] + xs)[1..] == xs && ([n] + ys)[1..] == ys;
  }

  lemma FieldOrderUnfolded(a: Time, b: Time)
    ensures FieldsBefore(Fields(a), Fields(b)) <==>
      a.year < b.year || (a.year == b.year && (
        a.month < b.month || (a.month == b.month && (
          a.day < b.day || (a.day == b.day && (
            a.hour < b.hour || (a.hour == b.hour && (
              a.minute < b.minute || (a.minute == b.minute && a.second < b.second)))))))))
  {
    FieldsStep(a.second, [], b.second, []);
    FieldsStep(a.minute, [a.second], b.minute, [b.second]);
    FieldsStep(a.hour, [a.minute, a.second], b.hour, [b.minute, b.second]);
    FieldsStep(a.day, [a.hour, a.minute, a.second], b.day, [b.hour, b.minute, b.second]);
    FieldsStep(a.month, [a.day, a.hour, a.minute, a.second], b.month, [b.day, b.hour, b.minute, b.second]);
    FieldsStep(a.year, [a.month, a.day, a.hour, a.minute, a.second],
      b.year, [b.month, b.day, b.hour, b.minute, b.second]);
    FieldsAsLists(a);
    FieldsAsLists(b);
  }

  /** For whole seconds, earlier on the time line is earlier in the fields. */
  lemma ChronologicalIsFieldOrder(a: Time, b: Time)
    requires Valid(a) && Valid(b) && WholeSecond(a) && WholeSecond(b)
    ensures Instant(a) < Instant(b) <==> FieldsBefore(Fields(a), Fields(b))
    ensures Instant(a) == Instant(b) <==> a == b
  {
    DayOrder(a, b);
    FieldOrderUnfolded(a, b);
  }

  // ---------------------------------------------------------------------------
  // Text
  // ---------------------------------------------------------------------------

  /** Everything up to the seconds. */
  function ToSeconds(t: Time): string {
    Digits(t.year, 4) + "-" + Digits(t.month, 2) + "-" + Digits(t.day, 2) + "T"
    + Digits(t.hour, 2) + ":" + Digits(t.minute, 2) + ":" + Digits(t.second, 2)
  }

  /** The form SQLite stores: sub-second precision is dropped. */
  function FormatSeconds(t: Time): string {
    ToSeconds(t) + "Z"
  }

  function Fraction(nanos: int): string {
    var digits := TrimZeros(Digits(nanos, 9));
    if digits == "" then "" else "." + digits
  }

  /** The form JSON carries: as many fraction digits as it takes. */
  function FormatNanos(t: Time): string {
    ToSeconds(t) + Fraction(t.nanos) + "Z"
  }

  function ParseFraction(s: string): Option<int> {
    if s == "" then Some(0)
    else if s[0] != '.' || |s| == 1 || !AllDigits(s[1..]) then None
    else Some(Value((s[1..] + "000000000")[..9]))
  }

  /** Reads a UTC timestamp with or without a fraction; any field out of range is an error. */
  function Parse(s: string): (r: Option<Time>)
    ensures r.Some? ==> Valid(r.value) && FourDigitYear(r.value)
  {
    if |s| < 20 || s[|s| - 1] != 'Z' then None
    else if s[4] != '-' || s[7] != '-' || s[10] != 'T' || s[13] != ':' || s[16] != ':' then None
    else if !AllDigits(s[0..4]) || !AllDigits(s[5..7]) || !AllDigits(s[8..10]) then None
    else if !AllDigits(s[11..13]) || !AllDigits(s[14..16]) || !AllDigits(s[17..19]) then None
    else
      var nanos := ParseFraction(s[19..|s| - 1]);
      if nanos.None? then None
      else
        var t := Time(Value(s[0..4]), Value(s[5..7]), Value(s[8..10]),
          Value(s[11..13]), Value(s[14..16]), Value(s[17..19]), nanos.value);
        if Valid(t) && FourDigitYear(t) then Some(t) else None
  }

  lemma FractionRoundTrip(nanos: int)
    requires 0 <= nanos < 1_000_000_000
    ensures ParseFraction(Fraction(nanos)) == Some(nanos)
  {
    assert Pow10(9) == 1_000_000_000 by { PowersOfTen(); }
    DigitsValue(nanos, 9);
    TrimmedPadsBack(Digits(nanos, 9));
    if TrimZeros(Digits(nanos, 9)) == "" {
      var zeros := "000000000";
      assert "" + zeros == zeros && zeros[..9] == zeros;
      assert Digits(nanos, 9) == zeros;
      ZerosAreZero(zeros);
      assert nanos == 0;
    } else {
      assert Fraction(nanos)[1..] == TrimZeros(Digits(nanos, 9));
    }
  }

  /** Every field can be written with its digits. */
  predicate FitsDigits(t: Time) {
    && 0 <= t.year <= 9999 && 0 <= t.month <= 99 && 0 <= t.day <= 99
    && 0 <= t.hour <= 99 && 0 <= t.minute <= 99 && 0 <= t.second <= 99
  }

  lemma SecondsLayout(t: Time, rest: string)
    ensures var s := ToSeconds(t) + rest;
      && |ToSeconds(t)| == 19
      && s[0..4] == Digits(t.year, 4) && s[4] == '-' && s[5..7] == Digits(t.month, 2) && s[7] == '-'
        && s[8..10] == Digits(t.day, 2)
      && s[10] == 'T' && s[11..13] == Digits(t.hour, 2) && s[13] == ':' && s[14..16] == Digits(t.minute, 2)
        && s[16] == ':'
      && s[17..19] == Digits(t.second, 2)
      && s[19..] == rest
  {
    hide Digits;
  }

  lemma FieldsFitTheirDigits(t: Time)
    requires FitsDigits(t)
    ensures AllDigits(Digits(t.year, 4)) && Value(Digits(t.year, 4)) == t.year
    ensures AllDigits(Digits(t.month, 2)) && Value(Digits(t.month, 2)) == t.month
    ensures AllDigits(Digits(t.day, 2)) && Value(Digits(t.day, 2)) == t.day
    ensures AllDigits(Digits(t.hour, 2)) && Value(Digits(t.hour, 2)) == t.hour
    ensures AllDigits(Digits(t.minute, 2)) && Value(Digits(t.minute, 2)) == t.minute
    ensures AllDigits(Digits(t.second, 2)) && Value(Digits(t.second, 2)) == t.second
  {
    PowersOfTen();
    DigitsValue(t.year, 4);
    DigitsValue(t.month, 2);
    DigitsValue(t.day, 2);
    DigitsValue(t.hour, 2);
    DigitsValue(t.minute, 2);
    DigitsValue(t.second, 2);
  }

  lemma ParseOfLayout(t: Time, fraction: string, nanos: int)
    requires FitsDigits(t) && ParseFraction(fraction) == Some(nanos)
    ensures Parse(ToSeconds(t) + fraction + "Z")
      == if Valid(t.(nanos := nanos)) then Some(t.(nanos := nanos)) else None
  {
    var s := ToSeconds(t) + (fraction + "Z");
    SecondsLayout(t, fraction + "Z");
    FieldsFitTheirDigits(t);
    hide Digits, Valid, ToSeconds, ParseFraction;
    assert ToSeconds(t) + fraction + "Z" == s;
    assert s[19..|s| - 1] == s[19..][..|fraction|] == fraction;
    assert s[|s| - 1] == 'Z';
  }

  /** Reading back what was written gives the same time, to the nanosecond. */
  lemma NanosRoundTrip(t: Time)
    requires Valid(t) && FourDigitYear(t)
    ensures Parse(FormatNanos(t)) == Some(t)
  {
    FractionRoundTrip(t.nanos);
    ParseOfLayout(t, Fraction(t.nanos), t.nanos);
  }

  /** What SQLite stores reads back as the time with its sub-second part dropped. */
  lemma SecondsRoundTrip(t: Time)
    requires Valid(t) && FourDigitYear(t)
    ensures Parse(FormatSeconds(t)) == Some(t.(nanos := 0))
  {
    ParseOfLayout(t, "", 0);
    assert ToSeconds(t) + "" + "Z" == FormatSeconds(t);
  }

  /** Of all six-field texts exactly those of dates on the calendar are read, each as itself: 31 March, not 31 April. */
  lemma ReadsTheCalendar(t: Time)
    requires 0 <= t.year <= 9999 && 0 <= t.month <= 99 && 0 <= t.day <= 99
    requires 0 <= t.hour <= 99 && 0 <= t.minute <= 99 && 0 <= t.second <= 99 && t.nanos == 0
    ensures Parse(FormatSeconds(t)) == (
      if && 1 <= t.month <= 12
         && 1 <= t.day <= (
           if t.month == 4 || t.month == 6 || t.month == 9 || t.month == 11 then 30
           else if t.month != 2 then 31
           else if (t.year % 4 == 0 && t.year % 100 != 0) || t.year % 400 == 0 then 29 else 28)
         && t.hour <= 23 && t.minute <= 59 && t.second <= 59
      then Some(t) else None)
  {
    ParseOfLayout(t, "", 0);
    assert ToSeconds(t) + "" + "Z" == FormatSeconds(t);
    ValidDates(t);
    hide Parse, FormatSeconds, Valid;
  }

  lemma DigitsOfOneTime()
    ensures Digits(2024, 4) == "2024" && Digits(3, 2) == "03" && Digits(31, 2) == "31"
    ensures Digits(12, 2) == "12" && Digits(5, 2) == "05" && Digits(9, 2) == "09"
  {
    assert Digits(20, 2) == "20";
  }

  lemma LastZeroIsTrimmed(n: int, w: nat)
    ensures TrimZeros(Digits(10 * n, w + 1)) == TrimZeros(Digits(n, w))
  {
    assert Digits(10 * n, w + 1) == Digits(n, w) + "0" by {
      assert 10 * n / 10 == n && 10 * n % 10 == 0;
    }
    assert (Digits(n, w) + "0")[..w] == Digits(n, w);
  }

  lemma FractionOfOneTime()
    ensures Fraction(500_000_000) == ".5"
  {
    assert TrimZeros(Digits(5, 1)) == "5" by { assert Digits(5, 1) == "5"; }
    hide Digits, TrimZeros;
    LastZeroIsTrimmed(5, 1);
    LastZeroIsTrimmed(50, 2);
    LastZeroIsTrimmed(500, 3);
    LastZeroIsTrimmed(5_000, 4);
    LastZeroIsTrimmed(50_000, 5);
    LastZeroIsTrimmed(500_000, 6);
    LastZeroIsTrimmed(5_000_000, 7);
    LastZeroIsTrimmed(50_000_000, 8);
  }

  /** The layout itself, on one time. */
  lemma LayoutOfOneTime()
    ensures FormatSeconds(Time(2024, 3, 31, 12, 5, 9, 500_000_000)) == "2024-03-31T12:05:09Z"
    ensures FormatNanos(Time(2024, 3, 31, 12, 5, 9, 500_000_000)) == "2024-03-31T12:05:09.5Z"
  {
    DigitsOfOneTime();
    FractionOfOneTime();
    hide Digits, Fraction;
  }

  // ---------------------------------------------------------------------------
  // Text order is time order
  // ---------------------------------------------------------------------------

  lemma TwoDigitsThen(m: int, n: int, sep: string, r: string, q: string)
    requires 0 <= m < 100 && 0 <= n < 100
    ensures TextLess(Digits(m, 2) + sep + r, Digits(n, 2) + sep + q) <==> m < n || (m == n && TextLess(r, q))
  {
    PowersOfTen();
    FieldThen(m, n, 2, sep, r, q);
  }

  function FromSecond(t: Time): string { Digits(t.second, 2) + "Z" + "" }

  function FromMinute(t: Time): string { Digits(t.minute, 2) + ":" + FromSecond(t) }

  function FromHour(t: Time): string { Digits(t.hour, 2) + ":" + FromMinute(t) }

  function FromDay(t: Time): string { Digits(t.day, 2) + "T" + FromHour(t) }

  function FromMonth(t: Time): string { Digits(t.month, 2) + "-" + FromDay(t) }

  lemma FormatFromFront(t: Time)
    ensures FormatSeconds(t) == Digits(t.year, 4) + "-" + FromMonth(t)
  {
  }

  lemma TextOrderUnfolded(a: Time, b: Time)
    requires Valid(a) && Valid(b) && FourDigitYear(a) && FourDigitYear(b)
    ensures TextLess(FormatSeconds(a), FormatSeconds(b)) <==>
      a.year < b.year || (a.year == b.year && (
        a.month < b.month || (a.month == b.month && (
          a.day < b.day || (a.day == b.day && (
            a.hour < b.hour || (a.hour == b.hour && (
              a.minute < b.minute || (a.minute == b.minute && a.second < b.second)))))))))
  {
    PowersOfTen();
    hide Digits, TextLess;
    FieldThen(a.year, b.year, 4, "-", FromMonth(a), FromMonth(b));
    TwoDigitsThen(a.month, b.month, "-", FromDay(a), FromDay(b));
    TwoDigitsThen(a.day, b.day, "T", FromHour(a), FromHour(b));
    TwoDigitsThen(a.hour, b.hour, ":", FromMinute(a), FromMinute(b));
    TwoDigitsThen(a.minute, b.minute, ":", FromSecond(a), FromSecond(b));
    TwoDigitsThen(a.second, b.second, "Z", "", "");
    LessIsIrreflexive("");
    FormatFromFront(a);
    FormatFromFront(b);
  }

  /** For whole seconds, bytewise order of the text is chronological order, and equal text is equal time. */
  lemma TextOrderIsTimeOrder(a: Time, b: Time)
    requires Valid(a) && Valid(b) && FourDigitYear(a) && FourDigitYear(b) && WholeSecond(a) && WholeSecond(b)
    ensures TextLess(FormatSeconds(a), FormatSeconds(b)) <==> Instant(a) < Instant(b)
    ensures FormatSeconds(a) == FormatSeconds(b) <==> Instant(a) == Instant(b)
  {
    TextOrderUnfolded(a, b);
    FieldOrderUnfolded(a, b);
    ChronologicalIsFieldOrder(a, b);
    SecondsRoundTrip(a);
    SecondsRoundTrip(b);
  }
}
