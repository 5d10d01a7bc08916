/**
 * Calendar dates as `datetime.strptime(s, "%m/%d/%Y")` reads them and
 * `strftime("%m/%d/%Y")` writes them. `%m` accepts `1[0-2]|0[1-9]|[1-9]`,
 * `%d` accepts `3[01]|[12]\d|0[1-9]|[1-9]| [1-9]`, `%Y` exactly four digits;
 * the whole string must be consumed and the day must exist in that month
 * of that year (year 0 does not exist).
 */
module Dates {
  import opened Wrappers
  import opened Text

  /** A `datetime` with no time of day, as strptime builds it. */
  datatype Date = Date(year: int, month: int, day: int)

  predicate IsLeapYear(y: int)
  {
    y % 4 == 0 && (y % 100 != 0 || y % 400 == 0)
  }

  function DaysInMonth(y: int, m: int): int
  {
    if m == 2 then (if IsLeapYear(y) then 29 else 28)
    else if m == 4 || m == 6 || m == 9 || m == 11 then 30
    else 31
  }

  /** The dates `datetime` can represent. */
  predicate Valid(d: Date)
  {
    1 <= d.year <= 9999 && 1 <= d.month <= 12 && 1 <= d.day <= DaysInMonth(d.year, d.month)
  }

  /** Chronological order, which is lexicographic on (year, month, day). */
  predicate Before(a: Date, b: Date)
  {
    a.year < b.year || (a.year == b.year && (a.month < b.month || (a.month == b.month && a.day < b.day)))
  }

  /** Chronological order is a strict total order on dates. */
  lemma BeforeIsStrictTotal(a: Date, b: Date, c: Date)
    ensures !Before(a, a)
    ensures Before(a, b) ==> !Before(b, a)
    ensures Before(a, b) && Before(b, c) ==> Before(a, c)
    ensures a != b ==> Before(a, b) || Before(b, a)
  {
  }

  predicate IsDigit(ch: char) { '0' <= ch <= '9' }

  function DigitValue(ch: char): int
    requires IsDigit(ch)
  {
    ch as int - '0' as int
  }

  function DigitChar(n: int): char
    requires 0 <= n <= 9
  {
    ('0' as int + n) as char
  }

  /** The `%m` field. */
  function ParseMonth(p: string): (r: Option<int>)
    ensures r.Some? ==> 1 <= r.value <= 12
  {
    if |p| == 1 && '1' <= p[0] <= '9' then Some(DigitValue(p[0]))
    else if |p| == 2 && p[0] == '0' && '1' <= p[1] <= '9' then Some(DigitValue(p[1]))
    else if |p| == 2 && p[0] == '1' && '0' <= p[1] <= '2' then Some(10 + DigitValue(p[1]))
    else None
  }

  /** The `%d` field, including its space-padded form. */
  function ParseDay(p: string): (r: Option<int>)
    ensures r.Some? ==> 1 <= r.value <= 31
  {
    if |p| == 1 && '1' <= p[0] <= '9' then Some(DigitValue(p[0]))
    else if |p| == 2 && p[0] == '3' && '0' <= p[1] <= '1' then Some(30 + DigitValue(p[1]))
    else if |p| == 2 && '1' <= p[0] <= '2' && IsDigit(p[1]) then Some(10 * DigitValue(p[0]) + DigitValue(p[1]))
    else if |p| == 2 && (p[0] == '0' || p[0] == ' ') && '1' <= p[1] <= '9' then Some(DigitValue(p[1]))
    else None
  }

  /** The `%Y` field. */
  function ParseYear(p: string): (r: Option<int>)
    ensures r.Some? ==> 0 <= r.value <= 9999
  {
    if |p| == 4 && IsDigit(p[0]) && IsDigit(p[1]) && IsDigit(p[2]) && IsDigit(p[3]) then
      Some(1000 * DigitValue(p[0]) + 100 * DigitValue(p[1]) + 10 * DigitValue(p[2]) + DigitValue(p[3]))
    else None
  }

  /** `datetime.strptime(s, "%m/%d/%Y")`; `None` stands for the `ValueError` it raises. */
  function ParseDate(s: string): (r: Option<Date>)
    ensures r.Some? ==> Valid(r.value)
  {
    var parts := Split(s, '/');
    if |parts| != 3 then None
    else
      var m := ParseMonth(parts[0]);
      var d := ParseDay(parts[1]);
      var y := ParseYear(parts[2]);
      if m.Some? && d.Some? && y.Some? && y.value >= 1 && d.value <= DaysInMonth(y.value, m.value)
      then Some(Date(y.value, m.value, d.value))
      else None
  }

  function Pad2(n: int): string
    requires 0 <= n <= 99
  {
    [DigitChar(n / 10), DigitChar(n % 10)]
  }

  function Pad4(n: int): string
    requires 0 <= n <= 9999
  {
    [DigitChar(n / 1000), DigitChar(n / 100 % 10), DigitChar(n / 10 % 10), DigitChar(n % 10)]
  }

  /** `d.strftime("%m/%d/%Y")`: zero-padded month and day, four-digit year. */
  function FormatDate(d: Date): (r: string)
    requires Valid(d)
    ensures |r| == 10 && r[2] == '/' && r[5] == '/'
  {
    Pad2(d.month) + "/" + Pad2(d.day) + "/" + Pad4(d.year)
  }

  lemma ParseMonthPad(m: int)
    requires 1 <= m <= 12
    ensures ParseMonth(Pad2(m)) == Some(m)
  {
    if m >= 10 {
      assert Pad2(m) == ['1', DigitChar(m - 10)];
    } else {
      assert Pad2(m) == ['0', DigitChar(m)];
    }
  }

  lemma ParseDayPad(d: int)
    requires 1 <= d <= 31
    ensures ParseDay(Pad2(d)) == Some(d)
  {
    if d >= 30 {
      assert Pad2(d) == ['3', DigitChar(d - 30)];
    } else if d >= 20 {
      assert Pad2(d) == ['2', DigitChar(d - 20)];
    } else if d >= 10 {
      assert Pad2(d) == ['1', DigitChar(d - 10)];
    } else {
      assert Pad2(d) == ['0', DigitChar(d)];
    }
  }

  lemma ParseYearPad(y: int)
    requires 0 <= y <= 9999
    ensures ParseYear(Pad4(y)) == Some(y)
  {
    var t, h := y / 10, y / 100;
    assert h == t / 10;
    assert y / 1000 == h / 10;
    var a, b, c, e := h / 10, h % 10, t % 10, y % 10;
    assert 0 <= a <= 9 && 0 <= b <= 9 && 0 <= c <= 9 && 0 <= e <= 9;
    assert y == 10 * t + e;
    assert t == 10 * h + c;
    assert h == 10 * a + b;
    var p := Pad4(y);
    assert DigitValue(p[0]) == a && DigitValue(p[1]) == b;
    assert DigitValue(p[2]) == c && DigitValue(p[3]) == e;
  }

  /** Formatting a date and reading it back with the same pattern gives the same date. */
  lemma ParseFormatRoundTrip(d: Date)
    requires Valid(d)
    ensures ParseDate(FormatDate(d)) == Some(d)
  {
    var pm, pd, py := Pad2(d.month), Pad2(d.day), Pad4(d.year);
    JoinThree(pm, pd, py, '/');
    SplitJoin([pm, pd, py], '/');
    ParseMonthPad(d.month);
    ParseDayPad(d.day);
    ParseYearPad(d.year);
  }

  /** A two-character `%m` or `%d` field without a space is the zero-padded form of its value. */
  lemma PadOfTwoDigits(p: string, v: int)
    requires |p| == 2 && p[0] != ' '
    requires ParseMonth(p) == Some(v) || ParseDay(p) == Some(v)
    ensures 0 <= v <= 99 && Pad2(v) == p
  {
    assert v == 10 * DigitValue(p[0]) + DigitValue(p[1]);
  }

  /** A four-digit `%Y` field is the zero-padded form of its value. */
  lemma PadOfFourDigits(p: string, v: int)
    requires ParseYear(p) == Some(v)
    ensures Pad4(v) == p
  {
    var a, b, c, e := DigitValue(p[0]), DigitValue(p[1]), DigitValue(p[2]), DigitValue(p[3]);
    assert v == 1000 * a + 100 * b + 10 * c + e;
    assert v / 1000 == a;
    assert v / 100 == 10 * a + b;
    assert v / 100 % 10 == b;
    assert v / 10 == 100 * a + 10 * b + c;
    assert v / 10 % 10 == c;
    assert v % 10 == e;
  }

  /** A string that parses is its three fields with a slash between each pair. */
  lemma FieldsOfParsed(s: string)
    requires ParseDate(s).Some?
    ensures var parts := Split(s, '/');
      |parts| == 3 && s == parts[0] + "/" + parts[1] + "/" + parts[2]
  {
    var parts := Split(s, '/');
    JoinSplit(s, '/');
    assert parts == [parts[0], parts[1], parts[2]];
    JoinThree(parts[0], parts[1], parts[2], '/');
  }

  /**
   * A ten-character string without spaces that parses is exactly the canonical
   * rendering of the date it denotes, so formatting reproduces it.
   */
  lemma FormatParseRoundTrip(s: string)
    requires |s| == 10 && ' ' !in s
    requires ParseDate(s).Some?
    ensures FormatDate(ParseDate(s).value) == s
  {
    var parts := Split(s, '/');
    var d := ParseDate(s).value;
    FieldsOfParsed(s);
    var a, b, c := parts[0], parts[1], parts[2];
    assert |a| == 2 && |b| == 2 && |c| == 4;
    assert a[0] == s[0] && b[0] == s[3];
    PadOfTwoDigits(a, d.month);
    PadOfTwoDigits(b, d.day);
    PadOfFourDigits(c, d.year);
  }

  /** The header word of a card export is not a date (strptime raises ValueError on it). */
  lemma PostedDateIsNotADate()
    ensures ParseDate("Posted Date") == None
  {
    SplitNoSeparator("Posted Date", '/');
  }
}
