/**
  How the price chart in `main.js` plans its request to
  `/api/bitcoin-historical-data`: `fetchData` turns a range button, or a
  custom pair of dates, into a candle width and a time window, and
  `determineInterval` picks the width for a custom window.

  Times are milliseconds since the Unix epoch, as `getTime()` and
  `Date.now()` give them; the current time is a parameter.
*/
module Chart {
  import opened Wrappers

  const DayMillis := 24 * 60 * 60 * 1000
  const WeekMillis := 7 * DayMillis

  /** `new Date('2017-01-01').getTime()`: 2017-01-01T00:00:00Z, the start of the ten-year view. */
  const TenYearStart := 1483228800000

  /** The `limit` the backend sends with every candle query (`HW3/app.py`). */
  const KlineLimit := 1000

  /** The candle widths the chart asks for. */
  datatype Candle = ThreeMinutes | FifteenMinutes | OneHour | TwelveHours | OneDay | ThreeDays | OneWeek

  /** The interval name sent to the backend. */
  function Label(c: Candle): string {
    match c
    case ThreeMinutes => "3m"
    case FifteenMinutes => "15m"
    case OneHour => "1h"
    case TwelveHours => "12h"
    case OneDay => "1d"
    case ThreeDays => "3d"
    case OneWeek => "1w"
  }

  /** How long one candle lasts, in milliseconds. */
  function Width(c: Candle): (w: nat)
    ensures w >= 3 * 60 * 1000
  {
    match c
    case ThreeMinutes => 3 * 60 * 1000
    case FifteenMinutes => 15 * 60 * 1000
    case OneHour => 60 * 60 * 1000
    case TwelveHours => 12 * 60 * 60 * 1000
    case OneDay => DayMillis
    case ThreeDays => 3 * DayMillis
    case OneWeek => WeekMillis
  }

  /** Distinct candles have distinct names. */
  lemma LabelsDistinct(a: Candle, b: Candle)
    ensures Label(a) == Label(b) <==> a == b
  {
  }

  /**
    The most candles that can open inside a window of `span` milliseconds:
    one per started candle width.
  */
  function MaxCandles(span: int, c: Candle): int {
    span / Width(c) + 1
  }

  /**
    `determineInterval`: 15-minute candles up to a week, hourly up to 30
    days, 12-hour up to a year, daily beyond. A window of up to a year never
    needs more than 731 candles, well inside the backend's limit.
  */
  function DetermineInterval(startTime: int, endTime: int): (c: Candle)
    ensures c == FifteenMinutes || c == OneHour || c == TwelveHours || c == OneDay
    ensures 0 <= endTime - startTime <= 365 * DayMillis ==> MaxCandles(endTime - startTime, c) <= 731
  {
    var diff := endTime - startTime;
    if diff <= 7 * DayMillis then FifteenMinutes
    else if diff <= 30 * DayMillis then OneHour
    else if diff <= 365 * DayMillis then TwelveHours
    else OneDay
  }

  /** The three thresholds, each a window length in days, with both directions. */
  lemma DetermineThresholds(startTime: int, endTime: int)
    ensures var c, diff := DetermineInterval(startTime, endTime), endTime - startTime;
      && (c == FifteenMinutes <==> diff <= 7 * DayMillis)
      && (c == OneHour <==> 7 * DayMillis < diff <= 30 * DayMillis)
      && (c == TwelveHours <==> 30 * DayMillis < diff <= 365 * DayMillis)
      && (c == OneDay <==> 365 * DayMillis < diff)
  {
  }

  /** A longer window never gets a finer candle. */
  lemma DetermineMonotone(s1: int, e1: int, s2: int, e2: int)
    requires e1 - s1 <= e2 - s2
    ensures Width(DetermineInterval(s1, e1)) <= Width(DetermineInterval(s2, e2))
  {
  }

  /** What `fetchData` sends to the backend. */
  datatype Request = Request(interval: Candle, startTime: int, endTime: int)

  /**
    The `switch` of `fetchData` for every range other than `custom`: a
    window ending now and reaching back the button's number of days, except
    the ten-year view, which starts at 2017-01-01. Unknown names fall back
    to the one-day view.
  */
  function Preset(range: string, now: int): (r: Request)
    ensures r.endTime == now
    ensures r.interval == OneWeek <==> range == "10y"
    ensures range != "10y" ==> r.startTime < now && MaxCandles(now - r.startTime, r.interval) <= KlineLimit
  {
    if range == "1d" then Request(ThreeMinutes, now - 1 * DayMillis, now)
    else if range == "7d" then Request(FifteenMinutes, now - 7 * DayMillis, now)
    else if range == "1mo" then Request(OneHour, now - 30 * DayMillis, now)
    else if range == "1y" then Request(TwelveHours, now - 365 * DayMillis, now)
    else if range == "3y" then Request(ThreeDays, now - 3 * 365 * DayMillis, now)
    else if range == "10y" then Request(OneWeek, TenYearStart, now)
    else Request(ThreeMinutes, now - 1 * DayMillis, now)
  }

  /**
    `fetchData(range, startDate, endDate)`: `None` where it alerts and
    returns without a request, which happens only for a custom range with a
    date missing. Every other range ends its window now.
  */
  function FetchPlan(range: string, now: int, startDate: Option<int>, endDate: Option<int>): (r: Option<Request>)
    ensures r.None? <==> range == "custom" && (startDate.None? || endDate.None?)
    ensures r.Some? && range != "custom" ==> r.value.endTime == now
    ensures r.Some? && range == "custom" ==> r.value.startTime == startDate.value && r.value.endTime == endDate.value
    ensures r.Some? && range == "custom" ==> r.value.interval == DetermineInterval(startDate.value, endDate.value)
  {
    if range == "custom" then
      if startDate.None? || endDate.None? then None
      else Some(Request(DetermineInterval(startDate.value, endDate.value), startDate.value, endDate.value))
    else Some(Preset(range, now))
  }

  /** The button names of the page, each with its candle and the days its window spans. */
  const Buttons: seq<(string, Candle, nat)> := [
    ("1d", ThreeMinutes, 1), ("7d", FifteenMinutes, 7), ("1mo", OneHour, 30),
    ("1y", TwelveHours, 365), ("3y", ThreeDays, 1095)
  ]

  /**
    Each fixed-length button asks for the window of its number of days
    ending now, with its own candle, and that window fits in one backend
    query.
  */
  lemma ButtonWindows(now: int)
    ensures forall k :: 0 <= k < |Buttons| ==>
      var (name, candle, days) := Buttons[k];
      && FetchPlan(name, now, None, None) == Some(Request(candle, now - days * DayMillis, now))
      && MaxCandles(days * DayMillis, candle) <= KlineLimit
  {
  }

  /** A range name the page does not know behaves like the one-day button, whatever dates are given. */
  lemma UnknownRangeIsOneDay(range: string, now: int, startDate: Option<int>, endDate: Option<int>)
    requires range !in {"custom", "1d", "7d", "1mo", "1y", "3y", "10y"}
    ensures FetchPlan(range, now, startDate, endDate) == FetchPlan("1d", now, None, None)
  {
  }

  /**
    The ten-year view starts at 2017-01-01 whatever the time. Once that
    instant has passed, the bound `MaxCandles` on its weekly candles stays
    within the backend's 1000 exactly while fewer than 1000 weeks have
    passed since.
  */
  lemma TenYearWindow(now: int, startDate: Option<int>, endDate: Option<int>)
    ensures FetchPlan("10y", now, startDate, endDate) == Some(Request(OneWeek, TenYearStart, now))
    ensures now >= TenYearStart ==>
      (MaxCandles(now - TenYearStart, OneWeek) <= KlineLimit <==> now - TenYearStart < KlineLimit * WeekMillis)
  {
    if now >= TenYearStart {
      WeeksBelowLimit(now - TenYearStart);
    }
  }

  lemma WeeksBelowLimit(span: int)
    requires span >= 0
    ensures span / WeekMillis + 1 <= KlineLimit <==> span < KlineLimit * WeekMillis
  {
  }

  /**
    The 7-day, 30-day and one-year buttons ask for exactly what a custom
    range over the same window would.
  */
  lemma ButtonsMatchCustom(range: string, now: int)
    requires range in {"7d", "1mo", "1y"}
    ensures var r := FetchPlan(range, now, None, None).value;
      FetchPlan("custom", now, Some(r.startTime), Some(r.endTime)) == Some(r)
  {
  }

  /**
    The one-day and three-year buttons do not: a custom range over the same
    window would get 15-minute and daily candles instead of 3-minute and
    3-day ones.
  */
  lemma ButtonsDifferFromCustom(now: int)
    ensures FetchPlan("custom", now, Some(now - DayMillis), Some(now)).value.interval == FifteenMinutes
    ensures FetchPlan("1d", now, None, None).value.interval == ThreeMinutes
    ensures FetchPlan("custom", now, Some(now - 3 * 365 * DayMillis), Some(now)).value.interval == OneDay
    ensures FetchPlan("3y", now, None, None).value.interval == ThreeDays
  {
  }
}
