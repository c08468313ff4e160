/**
  The dollar-cost-averaging page: `calculate_dca`, which turns a start date,
  an end date, an interval name and an amount into the list of investment
  dates and the total invested, and the `/dca` form handler that validates
  the three form fields before calling it.

  The BTC valuation (prices, current value, ROI, rounding) and the price
  download are outside the model; the download succeeds or fails as the
  `downloadFails` parameter says, and a failure gives the same all-zero
  answer as a bad date.
*/
module Dca {
  import opened Wrappers
  import opened Calendar
  import opened Schedule
  import opened DateText
  import Text

  /**
    What `calculate_dca` returns, reduced to the total invested and the
    formatted investment dates, or the uncaught `OverflowError` that ends
    the request with a server error.
  */
  datatype Outcome =
    | Summary(totalInvested: real, investmentDates: seq<string>)
    | Crashed

  /** The `0, 0, 0, [], []` answer of every early return. */
  const NoResult: Outcome := Summary(0.0, [])

  /** The investment dates as `strftime('%Y-%m-%d')` writes them, in order. */
  function Formatted(ds: seq<Date>): (ts: seq<string>)
    requires forall k :: 0 <= k < |ds| ==> Valid(ds[k])
    ensures |ts| == |ds|
    ensures forall k :: 0 <= k < |ds| ==> ts[k] == FormatDate(ds[k])
  {
    if ds == [] then [] else [FormatDate(ds[0])] + Formatted(ds[1..])
  }

  /** Every formatted date reads back as the date it was written from. */
  lemma FormattedParses(ds: seq<Date>)
    requires forall k :: 0 <= k < |ds| ==> Valid(ds[k])
    ensures forall k :: 0 <= k < |ds| ==> ParseDate(Formatted(ds)[k]) == Some(ds[k])
  {
    forall k | 0 <= k < |ds|
      ensures ParseDate(Formatted(ds)[k]) == Some(ds[k])
    {
      FormatParse(ds[k]);
    }
  }

  /**
    `calculate_dca`. Dates that do not parse give the all-zero answer;
    otherwise the answer is decided by the two dates.
  */
  function CalculateDca(startText: string, endText: string, interval: string,
                        amount: real, downloadFails: bool): (r: Outcome)
    ensures ParseDate(startText).None? || ParseDate(endText).None? ==> r == NoResult
    ensures downloadFails ==> r == NoResult || r.Crashed?
    ensures r.Summary? ==> r.totalInvested == Invested(amount, |r.investmentDates|)
  {
    var ps, pe := ParseDate(startText), ParseDate(endText);
    if ps.None? || pe.None? then NoResult
    else DcaOnDates(ps.value, pe.value, FrequencyOf(interval), amount, downloadFails)
  }

  /**
    The rest of `calculate_dca` once both dates are parsed. An end before
    the start gives the all-zero answer; the schedule loop or the day after
    the end date (computed for the price query) can overflow; otherwise the
    total is one amount per scheduled date.
  */
  function DcaOnDates(start: Date, end: Date, f: Frequency, amount: real, downloadFails: bool): (r: Outcome)
    requires Valid(start) && Valid(end)
    ensures Before(end, start) ==> r == NoResult
    ensures downloadFails ==> r == NoResult || r.Crashed?
    ensures r.Summary? ==> r.totalInvested == Invested(amount, |r.investmentDates|)
  {
    NoneInvested(amount);
    if Before(end, start) then NoResult
    else
      ScheduleOrdered(start, end, f);
      match ScheduleFrom(start, end, f)
      case Overflowed => Crashed
      case Completed(ds) =>
        if end == MaxDate then Crashed
        else if downloadFails then NoResult
        else var ts := Formatted(ds); Summary(Invested(amount, |ts|), ts)
  }

  /** One amount per investment date. */
  function Invested(amount: real, count: nat): real {
    amount * count as real
  }

  lemma NoneInvested(amount: real)
    ensures Invested(amount, |NoResult.investmentDates|) == NoResult.totalInvested
    ensures NoResult.Summary?
  {
  }

  /**
    The investment dates are written in `%Y-%m-%d` form, each reads back as
    a date between the start and end dates, they are strictly increasing,
    and the first one is the start date.
  */
  lemma DcaDates(startText: string, endText: string, interval: string, amount: real, downloadFails: bool)
    ensures var r := CalculateDca(startText, endText, interval, amount, downloadFails);
      r.Summary? && r.investmentDates != [] ==>
        && ParseDate(startText).Some? && ParseDate(endText).Some?
        && var start, end, ts := ParseDate(startText).value, ParseDate(endText).value, r.investmentDates;
        && ts[0] == FormatDate(start)
        && forall k :: 0 <= k < |ts| ==>
             && ParseDate(ts[k]).Some?
             && !Before(ParseDate(ts[k]).value, start) && !Before(end, ParseDate(ts[k]).value)
             && (k + 1 < |ts| ==> Before(ParseDate(ts[k]).value, ParseDate(ts[k + 1]).value))
  {
    var r := CalculateDca(startText, endText, interval, amount, downloadFails);
    if r.Summary? && r.investmentDates != [] {
      var start, end := ParseDate(startText).value, ParseDate(endText).value;
      var f := FrequencyOf(interval);
      ScheduleStart(start, end, f);
      ScheduleOrdered(start, end, f);
      FormattedParses(ScheduleFrom(start, end, f).dates);
    }
  }

  /**
    On the success path the listed dates are exactly the schedule's dates,
    in order, each written as `%Y-%m-%d`.
  */
  lemma DcaListsSchedule(start: Date, end: Date, f: Frequency, amount: real)
    requires Valid(start) && Valid(end) && !Before(end, start)
    ensures var r := DcaOnDates(start, end, f, amount, false);
      r.Summary? ==>
        && ScheduleFrom(start, end, f).Completed?
        && (ScheduleOrdered(start, end, f); r.investmentDates == Formatted(ScheduleFrom(start, end, f).dates))
  {
    ScheduleOrdered(start, end, f);
  }

  /**
    Whenever dates are listed, the schedule completed and the listed texts
    read back, one by one, as its dates.
  */
  lemma ListedDates(start: Date, end: Date, f: Frequency, amount: real, downloadFails: bool)
    requires Valid(start) && Valid(end)
    ensures var r, run := DcaOnDates(start, end, f, amount, downloadFails), ScheduleFrom(start, end, f);
      r.Summary? && r.investmentDates != [] ==>
        && !Before(end, start) && run.Completed?
        && |r.investmentDates| == |run.dates|
        && forall k :: 0 <= k < |r.investmentDates| ==> ParseDate(r.investmentDates[k]) == Some(run.dates[k])
  {
    var r := DcaOnDates(start, end, f, amount, downloadFails);
    if r.Summary? && r.investmentDates != [] {
      ScheduleOrdered(start, end, f);
      FormattedParses(ScheduleFrom(start, end, f).dates);
    }
  }

  /**
    A monthly plan lists one date per calendar month: each date after the
    first is in the month after its predecessor, on the start day clamped
    to 28.
  */
  lemma DcaMonthlySteps(startText: string, endText: string, amount: real, downloadFails: bool)
    ensures var r := CalculateDca(startText, endText, "monthly", amount, downloadFails);
      r.Summary? && r.investmentDates != [] ==>
        ParseDate(startText).Some? && MonthlyTexts(r.investmentDates, ParseDate(startText).value.day)
  {
    var r := CalculateDca(startText, endText, "monthly", amount, downloadFails);
    if r.Summary? && r.investmentDates != [] {
      MonthlyListed(ParseDate(startText).value, ParseDate(endText).value, amount, downloadFails);
    }
  }

  /**
    Texts that read as dates, each in the calendar month after the one
    before, on `day` clamped to 28.
  */
  predicate MonthlyTexts(ts: seq<string>, day: int) {
    && (forall i :: 0 <= i < |ts| ==> ParseDate(ts[i]).Some?)
    && (forall i, j :: 0 <= i < |ts| && j == i + 1 && j < |ts| ==>
          ParseDate(ts[i]).Some? && ParseDate(ts[j]).Some? &&
          MonthIndex(ParseDate(ts[j]).value) == MonthIndex(ParseDate(ts[i]).value) + 1)
    && (forall i :: 1 <= i < |ts| ==> ParseDate(ts[i]).Some? && ParseDate(ts[i]).value.day == Min(day, 28))
  }

  lemma MonthlyListed(start: Date, end: Date, amount: real, downloadFails: bool)
    requires Valid(start) && Valid(end)
    ensures var r := DcaOnDates(start, end, Monthly, amount, downloadFails);
      r.Summary? ==> MonthlyTexts(r.investmentDates, start.day)
  {
    var r := DcaOnDates(start, end, Monthly, amount, downloadFails);
    if r.Summary? && r.investmentDates != [] {
      ListedDates(start, end, Monthly, amount, downloadFails);
      MonthlySteps(start, end);
      var ts, ds := r.investmentDates, ScheduleFrom(start, end, Monthly).dates;
      forall i, j | 0 <= i < |ts| && j == i + 1 && j < |ts|
        ensures MonthIndex(ParseDate(ts[j]).value) == MonthIndex(ParseDate(ts[i]).value) + 1
      {
        assert ParseDate(ts[i]) == Some(ds[i]) && ParseDate(ts[j]) == Some(ds[j]);
      }
    }
  }

  /**
    A daily or weekly plan is evenly spaced: the i-th listed date lies i
    steps of 1 or 7 days after the start date.
  */
  lemma DcaFixedSpacing(startText: string, endText: string, interval: string, amount: real, downloadFails: bool)
    requires interval == "daily" || interval == "weekly"
    ensures var r := CalculateDca(startText, endText, interval, amount, downloadFails);
      r.Summary? && r.investmentDates != [] ==>
        && ParseDate(startText).Some?
        && forall i :: 0 <= i < |r.investmentDates| ==>
             && ParseDate(r.investmentDates[i]).Some?
             && Ordinal(ParseDate(r.investmentDates[i]).value) == Ordinal(ParseDate(startText).value) + StepDays(FrequencyOf(interval)) * i
  {
    var r := CalculateDca(startText, endText, interval, amount, downloadFails);
    if r.Summary? && r.investmentDates != [] {
      var start, end, f := ParseDate(startText).value, ParseDate(endText).value, FrequencyOf(interval);
      ListedDates(start, end, f, amount, downloadFails);
      FixedStepSpacing(start, end, f);
    }
  }

  /**
    When the request ends in a server error: only when both dates parse,
    the end is not before the start, and either the end date is
    9999-12-31 (its next day overflows) or a weekly step overshoots it.
    Daily and monthly schedules never overflow before the end date does.
  */
  lemma DcaCrashes(startText: string, endText: string, interval: string, amount: real, downloadFails: bool)
    ensures CalculateDca(startText, endText, interval, amount, downloadFails).Crashed? <==>
      && ParseDate(startText).Some? && ParseDate(endText).Some?
      && var start, end := ParseDate(startText).value, ParseDate(endText).value;
      && !Before(end, start)
      && (end == MaxDate || (FrequencyOf(interval) == Weekly && Ordinal(start) + 7 * WeeksThrough(start, end) > MaxOrdinal))
  {
    var ps, pe := ParseDate(startText), ParseDate(endText);
    if ps.Some? && pe.Some? && !Before(pe.value, ps.value) {
      var start, end := ps.value, pe.value;
      match FrequencyOf(interval)
      case Daily => DailyOverflows(start, end);
      case Weekly => WeeklyOverflows(start, end);
      case Monthly => MonthlyNeverOverflows(start, end);
      case Unrecognised => UnrecognisedSchedule(start, end, interval);
    }
  }

  /*
    The overflow facts of the four kinds of schedule, each on its own so
    that `DcaCrashes` sees only the one it needs.
  */

  lemma DailyOverflows(start: Date, end: Date)
    requires Valid(start) && Valid(end) && !Before(end, start)
    ensures ScheduleFrom(start, end, Daily).Overflowed? <==> end == MaxDate
  {
    DailyCount(start, end);
  }

  lemma WeeklyOverflows(start: Date, end: Date)
    requires Valid(start) && Valid(end) && !Before(end, start)
    ensures ScheduleFrom(start, end, Weekly).Overflowed? <==> Ordinal(start) + 7 * WeeksThrough(start, end) > MaxOrdinal
  {
    WeeklyCount(start, end);
  }

  lemma MonthlyNeverOverflows(start: Date, end: Date)
    requires Valid(start) && Valid(end) && !Before(end, start)
    ensures ScheduleFrom(start, end, Monthly).Completed?
  {
    MonthlyEnds(start, end);
  }

  /** A daily plan invests once per day from the start to the end date inclusive. */
  lemma DcaDailyCount(startText: string, endText: string, amount: real)
    requires ParseDate(startText).Some? && ParseDate(endText).Some?
    requires var start, end := ParseDate(startText).value, ParseDate(endText).value;
      !Before(end, start) && end != MaxDate
    ensures var start, end := ParseDate(startText).value, ParseDate(endText).value;
      var r := CalculateDca(startText, endText, "daily", amount, false);
      r.Summary? && |r.investmentDates| == Ordinal(end) - Ordinal(start) + 1
  {
    DailyCount(ParseDate(startText).value, ParseDate(endText).value);
  }

  /** A weekly plan that completes invests once per started week. */
  lemma DcaWeeklyCount(startText: string, endText: string, amount: real)
    requires ParseDate(startText).Some? && ParseDate(endText).Some?
    requires var start, end := ParseDate(startText).value, ParseDate(endText).value;
      !Before(end, start)
    ensures var start, end := ParseDate(startText).value, ParseDate(endText).value;
      var r := CalculateDca(startText, endText, "weekly", amount, false);
      r.Summary? ==> |r.investmentDates| == WeeksThrough(start, end)
  {
    WeeklyCount(ParseDate(startText).value, ParseDate(endText).value);
  }

  /** An interval name the loop does not know invests once, on the start date. */
  lemma DcaUnknownInterval(startText: string, endText: string, interval: string, amount: real)
    requires ParseDate(startText).Some? && ParseDate(endText).Some?
    requires var start, end := ParseDate(startText).value, ParseDate(endText).value;
      !Before(end, start) && end != MaxDate
    requires interval != "daily" && interval != "weekly" && interval != "monthly"
    ensures CalculateDca(startText, endText, interval, amount, false) ==
      Summary(Invested(amount, 1), [FormatDate(ParseDate(startText).value)])
  {
    UnrecognisedSchedule(ParseDate(startText).value, ParseDate(endText).value, interval);
  }

  /** Why the form is shown again with an error message. */
  datatype Rejection = MissingField | InvalidAmount | InvalidRange

  /** What a POST to `/dca` renders. */
  datatype Page =
    | Rejected(reason: Rejection)
    | Shown(startText: string, endText: string, interval: string, amount: real,
            totalInvested: real, investmentDates: seq<string>)
    | ServerError

  const RangeSeparator := " to "

  /**
    The POST branch of the `/dca` handler. Each field is stripped; a blank
    field, then an amount that `float()` rejects (`parseFloat` gives `None`)
    or that is not positive, then a range that does not split into exactly
    two pieces around `" to "`, sends the form back. Otherwise the two
    pieces are the start and end texts handed to `calculate_dca`.
  */
  function HandleDca(dateRange: string, interval: string, amount: string,
                     parseFloat: string -> Option<real>, downloadFails: bool): (p: Page)
    ensures p == Rejected(MissingField) <==>
      Text.AllSpace(dateRange) || Text.AllSpace(interval) || Text.AllSpace(amount)
    ensures p == Rejected(InvalidAmount) <==>
      && !(Text.AllSpace(dateRange) || Text.AllSpace(interval) || Text.AllSpace(amount))
      && (var x := parseFloat(Text.Strip(amount)); x.None? || x.value <= 0.0)
    ensures p == Rejected(InvalidRange) <==>
      && !(Text.AllSpace(dateRange) || Text.AllSpace(interval) || Text.AllSpace(amount))
      && (var x := parseFloat(Text.Strip(amount)); x.Some? && x.value > 0.0)
      && |Text.Split(Text.Strip(dateRange), RangeSeparator)| != 2
    ensures p.Shown? ==>
      && p.startText + RangeSeparator + p.endText == Text.Strip(dateRange)
      && !Text.Contains(p.startText, RangeSeparator) && !Text.Contains(p.endText, RangeSeparator)
      && p.interval == Text.Strip(interval) && p.interval != []
      && Some(p.amount) == parseFloat(Text.Strip(amount)) && p.amount > 0.0
      && p.totalInvested == Invested(p.amount, |p.investmentDates|)
      && CalculateDca(p.startText, p.endText, p.interval, p.amount, downloadFails) == Summary(p.totalInvested, p.investmentDates)
    ensures p.Shown? ==> [p.startText, p.endText] == Text.Split(Text.Strip(dateRange), RangeSeparator)
    ensures var parts, x := Text.Split(Text.Strip(dateRange), RangeSeparator), parseFloat(Text.Strip(amount));
      p.ServerError? <==>
        && !(Text.AllSpace(dateRange) || Text.AllSpace(interval) || Text.AllSpace(amount))
        && x.Some? && x.value > 0.0 && |parts| == 2
        && CalculateDca(parts[0], parts[1], Text.Strip(interval), x.value, downloadFails).Crashed?
  {
    var range, iv, am := Text.Strip(dateRange), Text.Strip(interval), Text.Strip(amount);
    if range == [] || iv == [] || am == [] then Rejected(MissingField)
    else match parseFloat(am)
      case None => Rejected(InvalidAmount)
      case Some(x) =>
        if x <= 0.0 then Rejected(InvalidAmount)
        else
          var parts := Text.Split(range, RangeSeparator);
          if |parts| != 2 then Rejected(InvalidRange)
          else
            assert Text.Join(parts[1..], RangeSeparator) == parts[1];
            match CalculateDca(parts[0], parts[1], iv, x, downloadFails)
            case Crashed => ServerError
            case Summary(total, ts) => Shown(parts[0], parts[1], iv, x, total, ts)
  }

  /** A formatted date has no spaces in it, so no `" to "` either. */
  lemma FormattedHasNoSpace(d: Date)
    requires Valid(d)
    ensures forall k :: 0 <= k < 10 ==> FormatDate(d)[k] != ' '
    ensures !Text.Contains(FormatDate(d), RangeSeparator)
  {
    var s := FormatDate(d);
    assert s == Digits(d.year, 4) + "-" + Digits(d.month, 2) + "-" + Digits(d.day, 2);
    forall k | 0 <= k < 10
      ensures s[k] != ' '
    {
      if k < 4 { assert IsDigit(Digits(d.year, 4)[k]); }
      else if 5 <= k < 7 { assert IsDigit(Digits(d.month, 2)[k - 5]); }
      else if 8 <= k { assert IsDigit(Digits(d.day, 2)[k - 8]); }
    }
    forall i | 0 <= i <= |s|
      ensures !Text.OccursAt(s, RangeSeparator, i)
    {
      if i + |RangeSeparator| <= |s| {
        assert s[i..i + |RangeSeparator|][0] == s[i] != ' ';
      }
    }
  }

  /**
    The text the date-range picker produces, two `%Y-%m-%d` dates joined by
    `" to "`, survives stripping and is split back into exactly those two
    dates.
  */
  lemma PickerRangeSplits(a: Date, b: Date)
    requires Valid(a) && Valid(b)
    ensures var s := FormatDate(a) + RangeSeparator + FormatDate(b);
      Text.Strip(s) == s && Text.Split(s, RangeSeparator) == [FormatDate(a), FormatDate(b)]
  {
    var fa, fb := FormatDate(a), FormatDate(b);
    var s := fa + RangeSeparator + fb;
    FormattedHasNoSpace(a);
    FormattedHasNoSpace(b);
    assert s[0] == fa[0] && s[|s| - 1] == fb[9];
    Text.StripKeeps(s);
    assert Text.OccursAt(s, RangeSeparator, 10);
    forall j | 0 <= j < 10
      ensures !Text.OccursAt(s, RangeSeparator, j)
    {
      assert s[j] == fa[j];
    }
    assert Text.Find(s, RangeSeparator) == Some(10);
    assert s[..10] == fa && s[14..] == fb;
    assert Text.Find(fb, RangeSeparator).None?;
  }

  /**
    A request as the page's date-range picker sends it, with a positive
    amount and an interval name without surrounding blanks, is never sent
    back: the handler passes the picker's two date texts to
    `calculate_dca` unchanged and shows its answer, or fails with it.
  */
  lemma PickerRequest(a: Date, b: Date, interval: string, amount: string,
                      parseFloat: string -> Option<real>, downloadFails: bool)
    requires Valid(a) && Valid(b)
    requires interval != [] && Text.Strip(interval) == interval
    requires !Text.AllSpace(amount)
    requires parseFloat(Text.Strip(amount)).Some? && parseFloat(Text.Strip(amount)).value > 0.0
    ensures var p := HandleDca(FormatDate(a) + RangeSeparator + FormatDate(b), interval, amount, parseFloat, downloadFails);
      var r := CalculateDca(FormatDate(a), FormatDate(b), interval, parseFloat(Text.Strip(amount)).value, downloadFails);
      && !p.Rejected?
      && (p == ServerError <==> r.Crashed?)
      && (p.Shown? ==>
            && p.startText == FormatDate(a) && p.endText == FormatDate(b)
            && p.totalInvested == r.totalInvested && p.investmentDates == r.investmentDates)
  {
    PickerRangeSplits(a, b);
  }
}
