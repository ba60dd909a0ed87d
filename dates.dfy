/**
 * The calendar dates the activity report reads and writes: `datetime.strptime` with the
 * formats "%Y-%m-%d", "%d/%m/%Y" and "%Y/%m/%d", and `strftime("%Y-%m-%d")`.
 */
module Dates {
  import opened Values
  import opened Text

  datatype Date = Date(year: int, month: int, day: int)

  predicate IsLeapYear(y: int) {
    y % 4 == 0 && (y % 100 != 0 || y % 400 == 0)
  }

  function DaysInMonth(y: int, m: int): (n: int)
    requires 1 <= m <= 12
    ensures 28 <= n <= 31
  {
    if m == 2 then (if IsLeapYear(y) then 29 else 28)
    else if m == 4 || m == 6 || m == 9 || m == 11 then 30
    else 31
  }

  /** A date `datetime` accepts whose year `%Y` can spell. */
  predicate ValidDate(d: Date) {
    1 <= d.year <= 9999 && 1 <= d.month <= 12 && 1 <= d.day <= DaysInMonth(d.year, d.month)
  }

  /** `%Y`: exactly four ASCII digits. */
  predicate IsYearText(s: string) {
    |s| == 4 && IsDigits(s)
  }

  /** `%m`: 1 to 12, with or without a leading zero. */
  predicate IsMonthText(s: string) {
    IsDigits(s) && ((|s| == 1 && s[0] != '0') || (|s| == 2 && 1 <= DigitsValue(s) <= 12))
  }

  /** `%d`: 1 to 31, with a leading zero, a leading space or neither. */
  predicate IsDayText(s: string) {
    || (|s| == 1 && IsDigit(s[0]) && s[0] != '0')
    || (|s| == 2 && IsDigit(s[0]) && IsDigit(s[1]) && 1 <= DigitsValue(s) <= 31)
    || (|s| == 2 && s[0] == ' ' && IsDigit(s[1]) && s[1] != '0')
  }

  function DayValue(s: string): nat
    requires IsDayText(s)
  {
    if s[0] == ' ' then DigitVal(s[1]) else DigitsValue(s)
  }

  /** The three layouts tried, in order: year-month-day or day-month-year around one separator. */
  datatype Format = YearFirst(sep: char) | DayFirst(sep: char)

  const Formats: seq<Format> := [YearFirst('-'), DayFirst('/'), YearFirst('/')]

  /** `datetime.strptime(s, fmt)`: the date, or None where it raises ValueError. */
  function ParseWith(s: string, fmt: Format): (r: Option<Date>)
    ensures r.Some? ==> ValidDate(r.value)
  {
    var parts := Split(s, fmt.sep);
    if |parts| != 3 then None
    else
      var (y, m, d) := if fmt.YearFirst? then (parts[0], parts[1], parts[2]) else (parts[2], parts[1], parts[0]);
      if IsYearText(y) && IsMonthText(m) && IsDayText(d) then
        var date := Date(DigitsValue(y), DigitsValue(m), DayValue(d));
        if ValidDate(date) then Some(date) else None
      else None
  }

  /** The first result of `parse` over `xs` that is not None: a loop that stops at the first success. */
  function FirstSome<A, B>(parse: A -> Option<B>, xs: seq<A>): Option<B> {
    if xs == [] then None
    else if parse(xs[0]).Some? then parse(xs[0])
    else FirstSome(parse, xs[1..])
  }

  lemma {:induction false} FirstSomeSpec<A, B>(parse: A -> Option<B>, xs: seq<A>)
    ensures FirstSome(parse, xs).Some? <==> exists i :: 0 <= i < |xs| && parse(xs[i]).Some?
    ensures FirstSome(parse, xs).Some? ==> exists i ::
      && 0 <= i < |xs| && parse(xs[i]) == FirstSome(parse, xs)
      && forall j :: 0 <= j < i ==> parse(xs[j]).None?
  {
    if xs != [] && parse(xs[0]).None? {
      var rest := xs[1..];
      FirstSomeSpec(parse, rest);
      assert forall i :: 1 <= i < |xs| ==> xs[i] == rest[i - 1];
      if FirstSome(parse, xs).Some? {
        var i :| 0 <= i < |rest| && parse(rest[i]) == FirstSome(parse, rest)
          && forall j :: 0 <= j < i ==> parse(rest[j]).None?;
        assert parse(xs[i + 1]) == FirstSome(parse, xs);
        forall j | 0 <= j < i + 1 ensures parse(xs[j]).None? {
          if j > 0 { assert xs[j] == rest[j - 1]; }
        }
      }
      if exists i :: 0 <= i < |xs| && parse(xs[i]).Some? {
        var i :| 0 <= i < |xs| && parse(xs[i]).Some?;
        assert parse(rest[i - 1]).Some?;
      }
    } else if xs != [] {
      assert parse(xs[0]) == FirstSome(parse, xs);
    }
  }

  /** `strptime` with one format, as a value the format loop can be given. */
  function Parser(s: string): Format -> Option<Date> {
    fmt => ParseWith(s, fmt)
  }

  /** The date of the first format in `fmts` that accepts `s`. */
  function ParseFirst(s: string, fmts: seq<Format>): Option<Date> {
    FirstSome(Parser(s), fmts)
  }

  /** Trying the formats in turn finds a date exactly when one of them parses, and then it is the
      date of the first that does. */
  lemma ParseFirstSpec(s: string, fmts: seq<Format>)
    ensures ParseFirst(s, fmts).Some? <==> exists i :: 0 <= i < |fmts| && ParseWith(s, fmts[i]).Some?
    ensures ParseFirst(s, fmts).Some? ==> exists i ::
      && 0 <= i < |fmts| && ParseWith(s, fmts[i]) == ParseFirst(s, fmts)
      && forall j :: 0 <= j < i ==> ParseWith(s, fmts[j]).None?
  {
    FirstSomeSpec(Parser(s), fmts);
    assert forall i :: 0 <= i < |fmts| ==> Parser(s)(fmts[i]) == ParseWith(s, fmts[i]);
  }

  /** The date the report reads from a task's `data` string, or None when no format fits. */
  function ParseDate(s: string): (r: Option<Date>)
    ensures r.Some? ==> ValidDate(r.value)
    ensures r.Some? <==> exists i :: 0 <= i < |Formats| && ParseWith(s, Formats[i]).Some?
  {
    ParseFirstSpec(s, Formats);
    ParseFirst(s, Formats)
  }

  /** `strftime("%Y-%m-%d")`. */
  function Render(d: Date): (s: string)
    requires ValidDate(d)
    ensures |s| >= 10 && s[..4] == Pad(d.year, 4) && s[4] == '-'
  {
    PadWidth(d.year, 4);
    Pad(d.year, 4) + "-" + Pad(d.month, 2) + "-" + Pad(d.day, 2)
  }

  lemma DigitsHaveNoSeparator(s: string, sep: char)
    requires IsDigits(s) && !IsDigit(sep)
    ensures sep !in s
  {
  }

  /** The rendered date is ten characters, year-month-day, zero-padded. */
  lemma RenderShape(d: Date)
    requires ValidDate(d)
    ensures |Render(d)| == 10 && Render(d)[4] == '-' && Render(d)[7] == '-'
    ensures Render(d)[..4] == Pad(d.year, 4) && Render(d)[5..7] == Pad(d.month, 2) && Render(d)[8..] == Pad(d.day, 2)
  {
    PadWidth(d.year, 4);
    PadWidth(d.month, 2);
    PadWidth(d.day, 2);
  }

  /** The rendered date splits on '-' into its three padded components. */
  lemma RenderSplit(d: Date)
    requires ValidDate(d)
    ensures Split(Render(d), '-') == [Pad(d.year, 4), Pad(d.month, 2), Pad(d.day, 2)]
  {
    var y, m, dd := Pad(d.year, 4), Pad(d.month, 2), Pad(d.day, 2);
    DigitsHaveNoSeparator(y, '-');
    DigitsHaveNoSeparator(m, '-');
    DigitsHaveNoSeparator(dd, '-');
    SplitAt(y, m + "-" + dd, '-');
    SplitTwo(m, dd, '-');
    assert Render(d) == y + ['-'] + (m + ['-'] + dd);
  }

  /** Each padded component is read back by its directive as the number it renders. */
  lemma RenderParts(d: Date)
    requires ValidDate(d)
    ensures var y, m, dd := Pad(d.year, 4), Pad(d.month, 2), Pad(d.day, 2);
      && IsYearText(y) && IsMonthText(m) && IsDayText(dd)
      && DigitsValue(y) == d.year && DigitsValue(m) == d.month && DayValue(dd) == d.day
  {
    var y, m, dd := Pad(d.year, 4), Pad(d.month, 2), Pad(d.day, 2);
    PadWidth(d.year, 4);
    PadWidth(d.month, 2);
    PadWidth(d.day, 2);
    PadValue(d.year, 4);
    PadValue(d.month, 2);
    PadValue(d.day, 2);
    assert IsDayText(dd) by {
      assert dd[0] != ' ';
      assert 1 <= DigitsValue(dd) <= 31;
    }
  }

  /** What the report writes reads back as the same date, by the first format. */
  lemma RenderParse(d: Date)
    requires ValidDate(d)
    ensures ParseWith(Render(d), Formats[0]) == Some(d)
    ensures ParseDate(Render(d)) == Some(d)
  {
    RenderSplit(d);
    RenderParts(d);
    assert Formats[0] == YearFirst('-');
    assert ParseWith(Render(d), YearFirst('-')) == Some(d);
  }

  /** A date read by any format is a real calendar date, and its text had the shape of that format. */
  lemma ParseWithShape(s: string, fmt: Format)
    requires ParseWith(s, fmt).Some?
    ensures |Split(s, fmt.sep)| == 3
    ensures 8 <= |s| <= 10
  {
    var parts := Split(s, fmt.sep);
    JoinSplit(s, fmt.sep);
    assert s == Join(parts, fmt.sep);
    assert parts[1..][1..] == [parts[2]];
    assert Join(parts[1..], fmt.sep) == parts[1] + [fmt.sep] + parts[2];
  }
}
