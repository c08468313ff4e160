/**
  The `'%Y-%m-%d'` date text of the DCA page, read with `datetime.strptime`
  and written back with `strftime`.

  CPython's `strptime` turns the format into a regular expression: `%Y` is
  exactly four digits, `%m` is one or two digits naming a month 1..12 (`"1"`,
  `"01"` and `"12"` are all accepted), `%d` is one or two digits naming a day
  1..31 or a space followed by a non-zero digit (`" 5"`), the dashes are
  literal, and the whole text must be consumed. The fields then have to form
  a real date (year 1..9999, a day the month has), otherwise `ValueError`.
*/
module DateText {
  import opened Wrappers
  import opened Calendar
  import Text

  predicate IsDigit(c: char) {
    '0' <= c <= '9'
  }

  function DigitValue(c: char): nat
    requires IsDigit(c)
  {
    c as int - '0' as int
  }

  function DigitChar(n: nat): (c: char)
    requires n < 10
    ensures IsDigit(c) && DigitValue(c) == n
  {
    ('0' as int + n) as char
  }

  predicate AllDigits(s: string) {
    forall k :: 0 <= k < |s| ==> IsDigit(s[k])
  }

  /** The decimal number a run of digits spells. */
  function Value(s: string): nat
    requires AllDigits(s)
  {
    if |s| == 0 then 0 else Value(s[..|s| - 1]) * 10 + DigitValue(s[|s| - 1])
  }

  function Pow10(n: nat): nat {
    if n == 0 then 1 else 10 * Pow10(n - 1)
  }

  /** `n` written with exactly `width` digits, zero-padded on the left. */
  function Digits(n: nat, width: nat): (s: string)
    ensures |s| == width && AllDigits(s)
  {
    if width == 0 then "" else Digits(n / 10, width - 1) + [DigitChar(n % 10)]
  }

  /** Zero-padded digits read back as the number they were written from. */
  lemma {:induction false} DigitsValue(n: nat, width: nat)
    requires n < Pow10(width)
    ensures Value(Digits(n, width)) == n
    decreases width
  {
    if width > 0 {
      var s := Digits(n, width);
      assert s[..|s| - 1] == Digits(n / 10, width - 1);
      DigitsValue(n / 10, width - 1);
    }
  }

  /** The text `%m` accepts: one or two digits naming a month. */
  predicate MonthToken(t: string) {
    1 <= |t| <= 2 && AllDigits(t) && 1 <= Value(t) <= 12
  }

  /** The text `%d` accepts: one or two digits naming a day, or a space and a non-zero digit. */
  predicate DayToken(t: string) {
    || (1 <= |t| <= 2 && AllDigits(t) && 1 <= Value(t) <= 31)
    || (|t| == 2 && t[0] == ' ' && IsDigit(t[1]) && t[1] != '0')
  }

  function DayValue(t: string): nat
    requires DayToken(t)
  {
    if t[0] == ' ' then DigitValue(t[1]) else Value(t)
  }

  /**
    `datetime.strptime(s, '%Y-%m-%d')`, with `None` for `ValueError`. Every
    parsed date is a real calendar date, and it is read off the text: four
    year digits, a dash, the month text up to the next dash, then the day
    text to the end.
  */
  function ParseDate(s: string): (r: Option<Date>)
    ensures r.Some? ==> Valid(r.value)
    ensures r.Some? ==> |s| >= 5 && AllDigits(s[..4]) && s[4] == '-' && r.value.year == Value(s[..4])
  {
    if |s| < 5 || !AllDigits(s[..4]) || s[4] != '-' then None
    else
      var rest := s[5..];
      match Text.Find(rest, "-")
      case None => None
      case Some(i) =>
        var m := rest[..i];
        var d := rest[i + 1..];
        if !MonthToken(m) || !DayToken(d) then None
        else
          var date := Date(Value(s[..4]), Value(m), DayValue(d));
          if Valid(date) then Some(date) else None
  }

  /** `date.strftime('%Y-%m-%d')`: four year digits, two month digits, two day digits. */
  function FormatDate(d: Date): (s: string)
    requires Valid(d)
    ensures |s| == 10 && s[4] == '-' && s[7] == '-'
  {
    Digits(d.year, 4) + "-" + Digits(d.month, 2) + "-" + Digits(d.day, 2)
  }

  /** Formatting a date and parsing the text back gives the same date. */
  lemma FormatParse(d: Date)
    requires Valid(d)
    ensures ParseDate(FormatDate(d)) == Some(d)
  {
    var y, m, dd := Digits(d.year, 4), Digits(d.month, 2), Digits(d.day, 2);
    DigitsValue(d.year, 4);
    DigitsValue(d.month, 2);
    DigitsValue(d.day, 2);
    var s := FormatDate(d);
    assert s[..4] == y;
    var rest := s[5..];
    assert rest == m + "-" + dd;
    DashAfterDigits(m, dd);
    assert rest[..2] == m && rest[3..] == dd;
  }

  /** The first dash after a run of digits is the one that ends it. */
  lemma DashAfterDigits(m: string, dd: string)
    requires AllDigits(m)
    ensures Text.Find(m + "-" + dd, "-") == Some(|m|)
  {
    var rest := m + "-" + dd;
    assert Text.OccursAt(rest, "-", |m|);
    forall j | 0 <= j < |m|
      ensures !Text.OccursAt(rest, "-", j)
    {
      assert rest[j] == m[j];
    }
  }

  /** Distinct dates are written as distinct texts. */
  lemma FormatInjective(a: Date, b: Date)
    requires Valid(a) && Valid(b)
    ensures FormatDate(a) == FormatDate(b) <==> a == b
  {
    if FormatDate(a) == FormatDate(b) {
      FormatParse(a);
      FormatParse(b);
    }
  }

  /**
    `strptime` is lenient where `strftime` is not: a one-digit month and a
    day written as a space and one digit are read as the same date.
  */
  lemma ParseShortFields(d: Date)
    requires Valid(d) && d.month < 10 && d.day < 10
    ensures ParseDate(Digits(d.year, 4) + "-" + [DigitChar(d.month)] + "-" + [' ', DigitChar(d.day)]) == Some(d)
  {
    var y := Digits(d.year, 4);
    var m, dd := [DigitChar(d.month)], [' ', DigitChar(d.day)];
    var s := y + "-" + m + "-" + dd;
    DigitsValue(d.year, 4);
    assert s[..4] == y;
    var rest := s[5..];
    assert rest == m + "-" + dd;
    DashAfterDigits(m, dd);
    assert rest[..1] == m && rest[2..] == dd;
    assert Value(m) == d.month by {
      assert m[..0] == [];
    }
  }

  /**
    Ten characters without a space that parse are exactly the formatted
    date: the only texts `strftime` produces are the canonical ones.
  */
  lemma ParseCanonical(s: string)
    requires |s| == 10 && forall k :: 0 <= k < |s| ==> s[k] != ' '
    requires ParseDate(s).Some?
    ensures s == FormatDate(ParseDate(s).value)
  {
    var d := ParseDate(s).value;
    var rest := s[5..];
    var i := Text.Find(rest, "-").value;
    var m, dd := rest[..i], rest[i + 1..];
    assert |m| + |dd| == 4;
    assert |m| == 2 && |dd| == 2;
    FixedWidthValue(s[..4], 4);
    FixedWidthValue(m, 2);
    FixedWidthValue(dd, 2);
    assert s == s[..4] + "-" + m + "-" + dd;
  }

  /** A run of digits is the zero-padded writing of its own value. */
  lemma {:induction false} FixedWidthValue(t: string, width: nat)
    requires |t| == width && AllDigits(t)
    ensures Value(t) < Pow10(width) && Digits(Value(t), width) == t
    decreases width
  {
    if width > 0 {
      var init := t[..width - 1];
      FixedWidthValue(init, width - 1);
      assert t == init + [t[width - 1]];
    }
  }

  /** The ways `%m` can spell month `m`: two digits, or one digit below 10. */
  predicate MonthSpelling(t: string, m: nat) {
    t == Digits(m, 2) || (m < 10 && t == Digits(m, 1))
  }

  /**
    The ways `%d` can spell day `n`: two digits, or below 10 one digit or a
    space and one digit.
  */
  predicate DaySpelling(t: string, n: nat) {
    t == Digits(n, 2) || (n < 10 && (t == Digits(n, 1) || t == [' '] + Digits(n, 1)))
  }

  /**
    `s` spells the date `d` in a way `'%Y-%m-%d'` accepts: four year digits
    and a dash, one of the month's spellings, a dash, and one of the day's
    spellings ending the text.
  */
  predicate SpelledAs(s: string, d: Date) {
    && Valid(d) && |s| >= 5 && s[..5] == Digits(d.year, 4) + "-"
    && exists i :: 5 <= i < |s| && s[i] == '-' && MonthSpelling(s[5..i], d.month) && DaySpelling(s[i + 1..], d.day)
  }

  /**
    What `strptime(s, '%Y-%m-%d')` accepts, exactly: it reads `s` as `d`
    if and only if `s` is one of the spellings of the valid date `d`.
  */
  lemma ParseExactly(s: string, d: Date)
    ensures ParseDate(s) == Some(d) <==> SpelledAs(s, d)
  {
    if ParseDate(s) == Some(d) {
      ParseSpelled(s);
    }
    if SpelledAs(s, d) {
      SpelledParses(s, d);
    }
  }

  lemma OneDigit(n: nat)
    requires n < 10
    ensures Digits(n, 1) == [DigitChar(n)]
  {
  }

  /** A month token is one of the spellings of the month it names. */
  lemma MonthWritten(t: string)
    requires MonthToken(t)
    ensures MonthSpelling(t, Value(t))
  {
    FixedWidthValue(t, |t|);
  }

  /** A spelling of a month is a month token naming it. */
  lemma MonthRead(t: string, m: nat)
    requires 1 <= m <= 12 && MonthSpelling(t, m)
    ensures MonthToken(t) && Value(t) == m
  {
    assert Pow10(1) == 10 && Pow10(2) == 100;
    if t == Digits(m, 2) { DigitsValue(m, 2); } else { DigitsValue(m, 1); }
  }

  /** A day token is one of the spellings of the day it names. */
  lemma DayWritten(t: string)
    requires DayToken(t)
    ensures DaySpelling(t, DayValue(t))
  {
    if t[0] == ' ' {
      var n := DigitValue(t[1]);
      OneDigit(n);
      assert t == [' '] + [t[1]];
    } else {
      FixedWidthValue(t, |t|);
    }
  }

  /** A spelling of a day is a day token naming it. */
  lemma DayRead(t: string, n: nat)
    requires 1 <= n <= 31 && DaySpelling(t, n)
    ensures DayToken(t) && DayValue(t) == n
  {
    assert Pow10(1) == 10 && Pow10(2) == 100;
    if t == Digits(n, 2) {
      DigitsValue(n, 2);
    } else if t == Digits(n, 1) {
      DigitsValue(n, 1);
    } else {
      OneDigit(n);
      assert t[1] == DigitChar(n);
    }
  }

  /** Every text the parser accepts spells the date it gives. */
  lemma ParseSpelled(s: string)
    requires ParseDate(s).Some?
    ensures SpelledAs(s, ParseDate(s).value)
  {
    var d := ParseDate(s).value;
    var i := Text.Find(s[5..], "-").value;
    var m, dd := s[5..5 + i], s[5 + i + 1..];
    assert s[5..][..i] == m && s[5..][i + 1..] == dd;
    FieldsSpelled(s, d, 5 + i);
  }

  /** Four year digits, a dash, a month token, a dash at `i` and a day token spell the date they name. */
  lemma FieldsSpelled(s: string, d: Date, i: nat)
    requires 5 <= i < |s| && AllDigits(s[..4]) && s[4] == '-' && s[i] == '-'
    requires MonthToken(s[5..i]) && DayToken(s[i + 1..]) && Valid(d)
    requires d == Date(Value(s[..4]), Value(s[5..i]), DayValue(s[i + 1..]))
    ensures SpelledAs(s, d)
  {
    FixedWidthValue(s[..4], 4);
    assert s[..5] == s[..4] + "-";
    MonthWritten(s[5..i]);
    DayWritten(s[i + 1..]);
  }

  /** Every spelling of a valid date is accepted and read as that date. */
  lemma SpelledParses(s: string, d: Date)
    requires SpelledAs(s, d)
    ensures ParseDate(s) == Some(d)
  {
    var i :| 5 <= i < |s| && s[i] == '-' && MonthSpelling(s[5..i], d.month) && DaySpelling(s[i + 1..], d.day);
    SpelledFieldsRead(s, d, i);
    DashSplits(s, i);
    FieldsParse(s, i - 5);
  }

  /** The fields of a spelling read back as the date's year, month and day. */
  lemma SpelledFieldsRead(s: string, d: Date, i: nat)
    requires Valid(d) && |s| >= 5 && s[..5] == Digits(d.year, 4) + "-"
    requires 5 <= i < |s| && MonthSpelling(s[5..i], d.month) && DaySpelling(s[i + 1..], d.day)
    ensures AllDigits(s[..4]) && s[4] == '-' && Value(s[..4]) == d.year
    ensures MonthToken(s[5..i]) && Value(s[5..i]) == d.month
    ensures DayToken(s[i + 1..]) && DayValue(s[i + 1..]) == d.day
  {
    assert s[..4] == Digits(d.year, 4) && s[4] == '-' by {
      assert s[..4] == s[..5][..4];
    }
    DigitsValue(d.year, 4);
    MonthRead(s[5..i], d.month);
    DayRead(s[i + 1..], d.day);
  }

  /** After the year, the month digits run up to the first dash, at `i`. */
  lemma DashSplits(s: string, i: nat)
    requires 5 <= i < |s| && s[i] == '-' && AllDigits(s[5..i])
    ensures Text.Find(s[5..], "-") == Some(i - 5)
    ensures s[5..][..i - 5] == s[5..i] && s[5..][i - 5 + 1..] == s[i + 1..]
  {
    assert s[5..] == s[5..i] + "-" + s[i + 1..];
    DashAfterDigits(s[5..i], s[i + 1..]);
  }

  /** The parser's reading once the four checks on the text have passed. */
  lemma FieldsParse(s: string, i: nat)
    requires |s| >= 5 && AllDigits(s[..4]) && s[4] == '-'
    requires Text.Find(s[5..], "-") == Some(i)
    requires MonthToken(s[5..][..i]) && DayToken(s[5..][i + 1..])
    requires Valid(Date(Value(s[..4]), Value(s[5..][..i]), DayValue(s[5..][i + 1..])))
    ensures ParseDate(s) == Some(Date(Value(s[..4]), Value(s[5..][..i]), DayValue(s[5..][i + 1..])))
  {
  }
}
