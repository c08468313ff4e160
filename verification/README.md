# DCA schedule and chart request planning of the HW3 Bitcoin app

This project models the two pieces of logic in HW3 of the 113-DB repository
that decide *what* is computed or fetched, leaving out the I/O that fetches
it:

- The `/dca` page of the Flask app (`HW3/app.py`). The form handler strips
  and validates the three fields. `calculate_dca` then parses the two dates
  with `strptime('%Y-%m-%d')`. Its loop walks from the start date to the end
  date in daily, weekly or monthly steps. Monthly steps roll December over
  into January and clamp the day to 28. The total invested is one amount per
  scheduled date. The dates are written back with `strftime`.
- The price chart in `HW3/static/js/main.js`. `fetchData` turns a range
  button (`1d`, `7d`, `1mo`, `1y`, `3y`, `10y`) or a custom date pair into a
  candle width and a time window. `determineInterval` picks the width for a
  custom window.

Modules, one per file:

| file | module | models |
|---|---|---|
| `wrappers.dfy` | `Wrappers` | `Option`, `Min` |
| `calendar.dfy` | `Calendar` | Python `datetime` dates: validity, order, `toordinal`, `+ timedelta`, the monthly `replace` |
| `schedule.dfy` | `Schedule` | the schedule loop of `calculate_dca` |
| `text.dfy` | `Text` | `str.strip()` and `str.split(sep)` |
| `datetext.dfy` | `DateText` | `strptime` / `strftime` with `'%Y-%m-%d'` |
| `dca.dfy` | `Dca` | `calculate_dca` and the POST branch of `dca()` |
| `chart.dfy` | `Chart` | `determineInterval` and the request planning of `fetchData` |

Python's date arithmetic fails in two places, and the model keeps both:

- `+ timedelta` past 9999-12-31 raises `OverflowError`. Nothing catches it,
  so the request ends in a server error. This happens in the daily and weekly
  steps, and also when computing the day after the end date for the price
  query, whatever the interval.
- `replace(year=10000)` raises `ValueError`. The loop catches it and stops.
  So the monthly loop's error branch is reachable, but only from December
  9999.

The schedule loop has a reference definition, `Schedule.ScheduleFrom`, and
the loop itself, `Schedule.BuildSchedule`, is proved to compute exactly that.

## Model

| member | source | states |
|---|---|---|
| Calendar.OrdinalOrder | HW3/app.py:176-184 | comparing two datetimes (`end_date < start_date`, `current_date <= end_date`) is comparing day ordinals, in both directions, and equal ordinals mean equal dates |
| Calendar.NextDay | HW3/app.py:186-187 | adding one day gives the valid date whose ordinal is one larger, and fails exactly on 9999-12-31 |
| Calendar.AddDays | HW3/app.py:188-189 | adding n days succeeds exactly when the target ordinal is at most that of 9999-12-31, and then lands n ordinals later |
| Calendar.NextMonth | HW3/app.py:190-201 | the monthly step is always a valid, later date in the next calendar month, on the old day clamped to 28; it fails exactly in December 9999 |
| Schedule.Advance | HW3/app.py:186-204 | one loop step: a continuing step moves to a valid later date; it overflows exactly for a daily or weekly step past 9999-12-31; it stops exactly for an unknown interval or a monthly step from December 9999; a daily or weekly step lands 1 or 7 days later and a monthly step is the next-month date |
| Schedule.ScheduleStart | HW3/app.py:181-185 | the date list is empty exactly when the end is before the start, and otherwise begins with the start date |
| Schedule.ScheduleOrdered | HW3/app.py:184-204 | every scheduled date is valid and lies between start and end, and the dates strictly increase |
| Schedule.DailyCount | HW3/app.py:184-187 | a daily schedule has (end - start) + 1 dates, and overflows exactly when the end date is 9999-12-31 |
| Schedule.WeeklyCount | HW3/app.py:184-189 | a weekly schedule has floor((end - start) / 7) + 1 dates, and overflows exactly when the week after the last one passes 9999-12-31 |
| Schedule.FixedStepSpacing | HW3/app.py:184-189 | the i-th daily or weekly date is i steps of 1 or 7 days after the start |
| Schedule.MonthlyEnds | HW3/app.py:190-201 | a monthly schedule never overflows and is never empty; its last date is in December 9999 or its next month lies past the end date |
| Schedule.MonthlySteps | HW3/app.py:190-198 | each monthly date after the first is in the calendar month after its predecessor, on the start day clamped to 28 |
| Schedule.UnrecognisedSchedule | HW3/app.py:202-204 | an interval other than daily, weekly or monthly schedules the start date alone |
| Schedule.BuildSchedule | HW3/app.py:181-204 | the while loop, with its list appends and early breaks, computes the reference schedule |
| Text.Strip | HW3/app.py:107-109 | the stripped text is the piece of the input after its leading whitespace; all that is cut is whitespace, the piece starts and ends with a non-space, and it is empty exactly when the input is all whitespace |
| Text.StripIdempotent | HW3/app.py:107-109 | stripping twice gives what stripping once gives |
| Text.Split | HW3/app.py:130 | there is at least one piece, joining the pieces with the separator gives back the input, no piece contains the separator, and each cut is at the leftmost occurrence: no piece followed by the separator contains it before that separator ends |
| Text.SplitUnique | HW3/app.py:130 | any cutting of the text that joins back to it, with no piece containing the separator and every cut leftmost, is exactly the one `split` makes |
| DateText.ParseDate | HW3/app.py:169-170 | every accepted text gives a valid date whose year is read from four leading digits followed by a dash; DateText.ParseExactly says which texts give which date |
| DateText.FormatDate | HW3/app.py:256 | `strftime('%Y-%m-%d')` writes ten characters with dashes at positions 4 and 7 (and, with DateText.FormatParse, a text that parses back to the date) |
| DateText.FormatParse | HW3/app.py:256 | parsing the formatted text of a valid date gives the date back |
| DateText.FormatInjective | HW3/app.py:256 | distinct dates are formatted as distinct texts |
| DateText.DashAfterDigits | HW3/app.py:169-170 | in a date text, the month digits end at the first dash after them |
| DateText.ParseExactly | HW3/app.py:169-170 | a text is read as a date exactly when it spells that valid date: four year digits and a dash, the month as two digits or (below 10) one, a dash, and the day as two digits or (below 10) one digit or a space and one digit, with nothing after it |
| DateText.ParseSpelled | HW3/app.py:169-170 | every accepted text is one of the spellings of the date it is read as |
| DateText.SpelledParses | HW3/app.py:169-170 | every spelling of a valid date is accepted and read as that date |
| DateText.ParseShortFields | HW3/app.py:169-170 | the parser also accepts a one-digit month and a day written as a space and a digit, and reads them as the same date |
| DateText.ParseCanonical | HW3/app.py:169-170 | an accepted ten-character text without spaces is exactly the formatted form of the date it parses to |
| Dca.Formatted | HW3/app.py:249-261 | the formatted list has one text per investment date, in order, each the `strftime` text of its date, whatever the price lookup finds |
| Dca.FormattedParses | HW3/app.py:249-261 | every text in the formatted list parses back to the date it was written from |
| Dca.CalculateDca | HW3/app.py:163-206 | a start or end text that does not parse gives the all-zero answer, so does a failed price download unless the request crashes first, and any answer invests exactly one amount per listed date; with Dca.DcaListsSchedule, Dca.DcaMonthlySteps and Dca.DcaFixedSpacing the listed dates are the schedule's |
| Dca.DcaOnDates | HW3/app.py:176-240 | an end before the start gives the all-zero answer, a failed price download gives the all-zero answer unless the request crashes first, and any answer invests one amount per listed date (Dca.DcaListsSchedule: the listed dates are the schedule's) |
| Dca.DcaListsSchedule | HW3/app.py:181-206 | when the download succeeds and an answer is shown, the schedule completed and the listed dates are exactly its dates, in order, formatted; so the total is one amount per scheduled date |
| Dca.ListedDates | HW3/app.py:181-261 | whenever dates are listed, the schedule completed and the listed texts read back one by one as its dates |
| Dca.DcaMonthlySteps | HW3/app.py:190-201 | the dates a monthly plan lists read back as dates each in the calendar month after the one before, on the start day clamped to 28 |
| Dca.MonthlyListed | HW3/app.py:190-201 | the same, for a plan on already-parsed dates |
| Dca.DcaFixedSpacing | HW3/app.py:184-189 | the i-th date a daily or weekly plan lists reads back as the date i steps of 1 or 7 days after the start |
| Dca.DcaDates | HW3/app.py:184-261 | the listed dates parse back to strictly increasing dates between start and end, the first being the start date |
| Dca.DcaCrashes | HW3/app.py:184-218 | the request fails with a server error exactly when both dates parse, the end is not before the start, and either the end is 9999-12-31 or a weekly step passes 9999-12-31 |
| Dca.DcaDailyCount | HW3/app.py:184-206 | when the price download succeeds, a daily plan ending before 9999-12-31 lists (end - start) + 1 dates |
| Dca.DcaWeeklyCount | HW3/app.py:184-206 | when the price download succeeds, a weekly plan that completes lists one date per started week |
| Dca.DcaUnknownInterval | HW3/app.py:202-206 | when the price download succeeds and the end date is before 9999-12-31, an unknown interval name invests one amount, on the start date |
| Dca.HandleDca | HW3/app.py:105-140 | the missing-field rejection happens exactly when a field is all whitespace; the amount rejection happens exactly when no field is blank and float() fails or gives a non-positive number; the range rejection happens exactly when the amount is accepted and the stripped range does not split into two pieces around " to "; a shown result has as start and end texts exactly the two pieces of the stripped range split around " to ", the stripped interval, the parsed positive amount, and the answer calculate_dca gives for them, one amount per date; a server error happens exactly when every check passes and calculate_dca crashes on those pieces |
| Dca.PickerRangeSplits | HW3/app.py:107-132 | a range written by the date picker survives stripping and splits into exactly its two dates |
| Dca.PickerRequest | HW3/app.py:105-140 | a picker range with a positive amount and a clean interval is never rejected: the two date texts reach calculate_dca unchanged and its answer is shown, or its crash becomes a server error |
| Chart.DetermineInterval | HW3/static/js/main.js:193-200 | the result is one of 15m, 1h, 12h and 1d, and a window of up to a year needs at most 731 candles |
| Chart.DetermineThresholds | HW3/static/js/main.js:193-200 | 15m exactly up to 7 days, 1h exactly above 7 and up to 30 days, 12h exactly above 30 and up to 365 days, 1d exactly beyond |
| Chart.DetermineMonotone | HW3/static/js/main.js:193-200 | a longer window never gets a narrower candle |
| Chart.LabelsDistinct | HW3/static/js/main.js:108-137 | distinct candle widths are sent under distinct names |
| Chart.Preset | HW3/static/js/main.js:109-136 | every preset window ends now; the weekly candle is used exactly for the ten-year view; every other preset window starts before now and its candle bound fits one 1000-candle backend query |
| Chart.FetchPlan | HW3/static/js/main.js:95-137 | no request is made exactly when the range is custom and a date is missing; a custom request spans the given dates with the candle `determineInterval` picks for them; every other request ends now |
| Chart.ButtonWindows | HW3/static/js/main.js:110-129 | each fixed-length button asks for a window of its number of days (1, 7, 30, 365, 1095) ending now, with its own candle, and the window fits in one backend query of 1000 candles |
| Chart.UnknownRangeIsOneDay | HW3/static/js/main.js:134-136 | an unknown range name behaves exactly like the one-day button |
| Chart.TenYearWindow | HW3/static/js/main.js:130-133 | the ten-year view starts at 2017-01-01T00:00:00Z and ends now; once that instant has passed, the bound `MaxCandles` on its weekly candles stays within 1000 exactly while fewer than 1000 weeks have passed since |
| Chart.ButtonsMatchCustom | HW3/static/js/main.js:100-125 | the 7d, 1mo and 1y buttons request exactly what a custom range over the same window would |
| Chart.ButtonsDifferFromCustom | HW3/static/js/main.js:100-129 | the 1d and 3y buttons use 3-minute and 3-day candles, where a custom range over the same window would get 15-minute and daily ones |

## Left out

- The BTC valuation in `calculate_dca`: the price map, BTC bought, current value, ROI and per-date values. These are floating-point computations on downloaded prices.
- The price download (the request loop and its pagination). `downloadFails` stands for a request exception, which gives the all-zero answer. A successful download changes nothing the model states.
- Dca.CalculateDca: the total is the exact product `amount * count` of real numbers, not double arithmetic: Python's product rounds, and it becomes `inf` when an amount near the largest double meets two or more dates. It is also not rounded to two decimals, because `round` on floats is not modelled. The zero answer uses `0` where Python returns integer zeros.
- Dca.HandleDca: `float()` is the `parseFloat` parameter. NaN and infinity have no `real` counterpart. NaN passes the `amount <= 0` test in Python and is not modelled.
- The session writes, the GET branch and template rendering of `dca()`.
- Local-time conversion of the price window (`timestamp()`), and any failure it raises for extreme dates.
- DateText.ParseDate: accepts ASCII digits only. Python's regular expression and `int()` also accept other Unicode decimal digits.
- DateText.FormatDate: always writes four year digits. On glibc, older Python versions write years below 1000 without padding, so those texts do not parse back.
- The chart's DOM work: alerts, the loading indicator, the AJAX call and its callbacks, chart and zoom updates, and the flatpickr widget.
- Chart.FetchPlan: `Date.now()` and `getTime()` become integer parameters. JavaScript numbers are doubles, which are exact for these values. An invalid `Date` (NaN time) is not modelled.
- The backend candle endpoint is left out. It forwards the window with a fixed limit of 1000 candles. Only that limit appears here, as `Chart.KlineLimit`.
- There is no price cache, cache lock or backfill of missing days in the code. Nothing of the kind is modelled.
- HW1, HW2 and the MongoDB log routes of HW3 are outside this model.
