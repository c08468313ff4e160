/**
  The investment-date loop of `calculate_dca` in HW3/app.py: starting at the
  start date, append the current date while it is not after the end date and
  advance it by a day, a week or a month; any other interval string records
  the start date alone.
*/
module Schedule {
  import opened Wrappers
  import opened Calendar

  datatype Frequency = Daily | Weekly | Monthly | Unrecognised

  /** The interval strings the loop compares against. */
  function FrequencyOf(interval: string): Frequency {
    if interval == "daily" then Daily
    else if interval == "weekly" then Weekly
    else if interval == "monthly" then Monthly
    else Unrecognised
  }

  /** What one pass of the loop body does after appending the current date. */
  datatype Step = Continue(next: Date) | Stop | Crash

  /**
    Daily and weekly add a `timedelta` (an `OverflowError` there is not
    caught: `Crash`); monthly calls `replace` inside `try` and breaks on its
    `ValueError` (`Stop`); an unrecognised interval breaks at once.
  */
  function Advance(cur: Date, f: Frequency): (s: Step)
    requires Valid(cur)
    ensures s.Continue? ==> Valid(s.next) && Before(cur, s.next)
    ensures s.Crash? <==> f in {Daily, Weekly} && Ordinal(cur) + StepDays(f) > MaxOrdinal
    ensures s.Stop? <==> f == Unrecognised || (f == Monthly && cur.year == MaxYear && cur.month == 12)
    ensures s.Continue? && (f == Daily || f == Weekly) ==> Ordinal(s.next) == Ordinal(cur) + StepDays(f)
    ensures s.Continue? && f == Monthly ==> NextMonth(cur) == Some(s.next)
  {
    OrdinalAtMostMax(cur);
    match f
    case Daily =>
      (match NextDay(cur)
       case Some(n) => OrdinalOrder(cur, n); Continue(n)
       case None => Crash)
    case Weekly =>
      (match AddDays(cur, 7)
       case Some(n) => OrdinalOrder(cur, n); Continue(n)
       case None => Crash)
    case Monthly =>
      (match NextMonth(cur)
       case Some(n) => Continue(n)
       case None => Stop)
    case Unrecognised => Stop
  }

  /** Days added per step by the fixed-length frequencies. */
  function StepDays(f: Frequency): nat {
    match f
    case Daily => 1
    case Weekly => 7
    case _ => 0
  }

  /** The loop either finishes with its list of dates or dies with `OverflowError`. */
  datatype Run = Completed(dates: seq<Date>) | Overflowed

  function Prepend(d: Date, r: Run): Run {
    match r
    case Completed(ds) => Completed([d] + ds)
    case Overflowed => Overflowed
  }

  /** Reference definition of the loop from the current date onward. */
  function ScheduleFrom(cur: Date, end: Date, f: Frequency): Run
    requires Valid(cur) && Valid(end)
    decreases Ordinal(end) - Ordinal(cur)
  {
    OrdinalOrder(end, cur);
    if Before(end, cur) then Completed([])
    else match Advance(cur, f)
      case Stop => Completed([cur])
      case Crash => Overflowed
      case Continue(n) => OrdinalOrder(cur, n); Prepend(cur, ScheduleFrom(n, end, f))
  }

  predicate StrictlyIncreasing(ds: seq<Date>) {
    forall i :: 0 <= i < |ds| - 1 ==> Before(ds[i], ds[i + 1])
  }

  /**
    A schedule is empty exactly when the end precedes the start; otherwise
    its first date is the start date.
  */
  lemma ScheduleStart(cur: Date, end: Date, f: Frequency)
    requires Valid(cur) && Valid(end)
    ensures ScheduleFrom(cur, end, f).Completed? ==>
      var ds := ScheduleFrom(cur, end, f).dates;
      && (ds == [] <==> Before(end, cur))
      && (ds != [] ==> ds[0] == cur)
  {
    OrdinalOrder(end, cur);
    if !Before(end, cur) {
      var s := Advance(cur, f);
      if s.Continue? {
        Unfold(cur, end, s.next, f);
      }
    }
  }

  /**
    Every scheduled date is a real date between the start and the end date,
    and the dates are strictly increasing.
  */
  lemma {:induction false} ScheduleOrdered(cur: Date, end: Date, f: Frequency)
    requires Valid(cur) && Valid(end)
    ensures ScheduleFrom(cur, end, f).Completed? ==>
      var ds := ScheduleFrom(cur, end, f).dates;
      && (forall i :: 0 <= i < |ds| ==> Valid(ds[i]) && !Before(ds[i], cur) && !Before(end, ds[i]))
      && StrictlyIncreasing(ds)
    decreases Ordinal(end) - Ordinal(cur)
  {
    OrdinalOrder(end, cur);
    if !Before(end, cur) {
      var s := Advance(cur, f);
      if s.Continue? {
        Unfold(cur, end, s.next, f);
        ScheduleOrdered(s.next, end, f);
        ScheduleStart(s.next, end, f);
        var r := ScheduleFrom(s.next, end, f);
        if r.Completed? {
          PrependOrdered(cur, s.next, end, r.dates);
        }
      }
    }
  }

  /** Putting an earlier date in front of an ordered run keeps it ordered. */
  lemma PrependOrdered(cur: Date, next: Date, end: Date, rest: seq<Date>)
    requires Valid(cur) && Before(cur, next) && !Before(end, cur)
    requires rest != [] ==> rest[0] == next
    requires forall i :: 0 <= i < |rest| ==> Valid(rest[i]) && !Before(rest[i], next) && !Before(end, rest[i])
    requires StrictlyIncreasing(rest)
    ensures var ds := [cur] + rest;
      && (forall i :: 0 <= i < |ds| ==> Valid(ds[i]) && !Before(ds[i], cur) && !Before(end, ds[i]))
      && StrictlyIncreasing(ds)
  {
    var ds := [cur] + rest;
    forall i | 0 <= i < |ds| - 1
      ensures Before(ds[i], ds[i + 1])
    {
      if i > 0 {
        assert ds[i] == rest[i - 1] && ds[i + 1] == rest[i];
      }
    }
    forall i | 0 <= i < |ds|
      ensures Valid(ds[i]) && !Before(ds[i], cur) && !Before(end, ds[i])
    {
      if i > 0 {
        assert ds[i] == rest[i - 1];
      }
    }
  }

  /**
    Daily schedules run through the end date itself: there are
    (end - start) + 1 dates, and the loop overflows exactly when the end date
    is 9999-12-31 (the step after it is not representable).
  */
  lemma {:induction false} DailyCount(cur: Date, end: Date)
    requires Valid(cur) && Valid(end) && !Before(end, cur)
    ensures ScheduleFrom(cur, end, Daily).Overflowed? <==> end == MaxDate
    ensures ScheduleFrom(cur, end, Daily).Completed? ==>
      |ScheduleFrom(cur, end, Daily).dates| == Ordinal(end) - Ordinal(cur) + 1
    decreases Ordinal(end) - Ordinal(cur)
  {
    OrdinalOrder(end, cur);
    OrdinalAtMostMax(end);
    var s := Advance(cur, Daily);
    if s.Continue? {
      Unfold(cur, end, s.next, Daily);
      if !Before(end, s.next) {
        DailyCount(s.next, end);
      }
    }
  }

  /** One weekly date per started week from `cur` through `end`. */
  function WeeksThrough(cur: Date, end: Date): nat
    requires Valid(cur) && Valid(end) && !Before(end, cur)
  {
    OrdinalOrder(end, cur);
    (Ordinal(end) - Ordinal(cur)) / 7 + 1
  }

  /**
    Weekly schedules hold floor((end - start) / 7) + 1 dates, and the loop
    overflows exactly when the week after the last of them would pass
    9999-12-31.
  */
  lemma WeeklyCount(cur: Date, end: Date)
    requires Valid(cur) && Valid(end) && !Before(end, cur)
    ensures ScheduleFrom(cur, end, Weekly).Overflowed? <==> Ordinal(cur) + 7 * WeeksThrough(cur, end) > MaxOrdinal
    ensures ScheduleFrom(cur, end, Weekly).Completed? ==> |ScheduleFrom(cur, end, Weekly).dates| == WeeksThrough(cur, end)
  {
    OrdinalOrder(end, cur);
    FloorWeeks(Ordinal(end) - Ordinal(cur));
    WeeksCounted(cur, end, WeeksThrough(cur, end));
  }

  lemma FloorWeeks(x: int)
    requires x >= 0
    ensures var n := x / 7 + 1; n >= 1 && 7 * (n - 1) <= x < 7 * n
  {
  }

  /** `WeeklyCount` with the number of weeks pinned down without division. */
  lemma {:induction false} WeeksCounted(cur: Date, end: Date, n: nat)
    requires Valid(cur) && Valid(end)
    requires 7 * (n - 1) <= Ordinal(end) - Ordinal(cur) < 7 * n
    ensures ScheduleFrom(cur, end, Weekly).Overflowed? <==> Ordinal(cur) + 7 * n > MaxOrdinal
    ensures ScheduleFrom(cur, end, Weekly).Completed? ==> |ScheduleFrom(cur, end, Weekly).dates| == n
    decreases n
  {
    OrdinalOrder(end, cur);
    if n == 0 {
      OrdinalAtMostMax(cur);
      assert ScheduleFrom(cur, end, Weekly) == Completed([]);
    } else {
      var s := Advance(cur, Weekly);
      if s.Continue? {
        Unfold(cur, end, s.next, Weekly);
        if Before(end, s.next) {
          assert n == 1 && ScheduleFrom(s.next, end, Weekly) == Completed([]);
        } else {
          WeeksCounted(s.next, end, n - 1);
        }
      }
    }
  }

  /**
    Daily and weekly schedules are evenly spaced: the i-th date lies exactly
    i steps (of 1 or 7 days) after the start.
  */
  lemma {:induction false} FixedStepSpacing(cur: Date, end: Date, f: Frequency)
    requires Valid(cur) && Valid(end)
    requires f == Daily || f == Weekly
    ensures ScheduleFrom(cur, end, f).Completed? ==>
      var ds := ScheduleFrom(cur, end, f).dates;
      forall i :: 0 <= i < |ds| ==> Valid(ds[i]) && Ordinal(ds[i]) == Ordinal(cur) + StepDays(f) * i
    decreases Ordinal(end) - Ordinal(cur)
  {
    OrdinalOrder(end, cur);
    if !Before(end, cur) {
      var s := Advance(cur, f);
      if s.Continue? {
        Unfold(cur, end, s.next, f);
        var rest := ScheduleFrom(s.next, end, f);
        FixedStepSpacing(s.next, end, f);
        if rest.Completed? {
          var ds := [cur] + rest.dates;
          var k := StepDays(f);
          forall i | 0 <= i < |ds|
            ensures Valid(ds[i]) && Ordinal(ds[i]) == Ordinal(cur) + k * i
          {
            if i > 0 {
              assert ds[i] == rest.dates[i - 1];
              assert Ordinal(ds[i]) == Ordinal(cur) + k + k * (i - 1);
            }
          }
        }
      }
    }
  }

  /** One step of the loop, unfolded. */
  lemma Unfold(cur: Date, end: Date, next: Date, f: Frequency)
    requires Valid(cur) && Valid(end) && !Before(end, cur)
    requires Advance(cur, f) == Continue(next)
    ensures Valid(next) && Ordinal(cur) < Ordinal(next)
    ensures Before(end, next) <==> Ordinal(end) < Ordinal(next)
    ensures ScheduleFrom(cur, end, f) == Prepend(cur, ScheduleFrom(next, end, f))
  {
    OrdinalOrder(end, cur);
    OrdinalOrder(end, next);
    OrdinalOrder(cur, next);
  }

  /**
    Why a monthly loop stops after `last`: the following month would fall
    in year 10000 (the `ValueError` branch), or it lies past the end date.
  */
  predicate MonthlyStopsAfter(last: Date, end: Date)
    requires Valid(last)
  {
    || (last.year == MaxYear && last.month == 12)
    || (NextMonth(last).Some? && Before(end, NextMonth(last).value))
  }

  /**
    Monthly schedules never overflow, and they end only where the following
    month would pass the end date or leave year 9999: only a schedule
    reaching December 9999 takes the second exit.
  */
  lemma {:induction false} MonthlyEnds(cur: Date, end: Date)
    requires Valid(cur) && Valid(end) && !Before(end, cur)
    ensures ScheduleFrom(cur, end, Monthly).Completed?
    ensures
      var ds := ScheduleFrom(cur, end, Monthly).dates;
      |ds| >= 1 && Valid(ds[|ds| - 1]) && MonthlyStopsAfter(ds[|ds| - 1], end)
    decreases Ordinal(end) - Ordinal(cur)
  {
    OrdinalOrder(end, cur);
    var s := Advance(cur, Monthly);
    if s.Stop? {
      assert ScheduleFrom(cur, end, Monthly) == Completed([cur]);
      assert MonthlyStopsAfter(cur, end);
    } else {
      assert NextMonth(cur) == Some(s.next);
      Unfold(cur, end, s.next, Monthly);
      if Before(end, s.next) {
        assert ScheduleFrom(cur, end, Monthly) == Completed([cur]);
        assert MonthlyStopsAfter(cur, end);
      } else {
        MonthlyEnds(s.next, end);
        var rest := ScheduleFrom(s.next, end, Monthly).dates;
        assert ScheduleFrom(cur, end, Monthly) == Completed([cur] + rest);
        assert ([cur] + rest)[|rest|] == rest[|rest| - 1];
      }
    }
  }

  /**
    Each date of a monthly schedule after the first lies in the calendar
    month after its predecessor, on the start day clamped to 28.
  */
  lemma {:induction false} MonthlySteps(cur: Date, end: Date)
    requires Valid(cur) && Valid(end)
    ensures ScheduleFrom(cur, end, Monthly).Completed? ==>
      var ds := ScheduleFrom(cur, end, Monthly).dates;
      forall i :: 1 <= i < |ds| ==>
        && MonthIndex(ds[i]) == MonthIndex(ds[i - 1]) + 1
        && ds[i].day == Min(cur.day, 28)
        && ds[i].day <= 28
    decreases Ordinal(end) - Ordinal(cur)
  {
    OrdinalOrder(end, cur);
    if !Before(end, cur) {
      var s := Advance(cur, Monthly);
      if s.Continue? {
        Unfold(cur, end, s.next, Monthly);
        MonthlySteps(s.next, end);
        var r := ScheduleFrom(s.next, end, Monthly);
        if r.Completed? {
          var rest := r.dates;
          var ds := [cur] + rest;
          forall i | 1 <= i < |ds|
            ensures MonthIndex(ds[i]) == MonthIndex(ds[i - 1]) + 1
            ensures ds[i].day == Min(cur.day, 28) && ds[i].day <= 28
          {
            assert ds[i] == rest[i - 1];
            if i > 1 {
              assert ds[i - 1] == rest[i - 2];
            } else {
              assert rest[0] == s.next by { ScheduleStart(s.next, end, Monthly); }
            }
          }
        }
      }
    }
  }

  /** Any interval other than the three recognised ones schedules the start date alone. */
  lemma UnrecognisedSchedule(cur: Date, end: Date, interval: string)
    requires Valid(cur) && Valid(end) && !Before(end, cur)
    requires interval != "daily" && interval != "weekly" && interval != "monthly"
    ensures ScheduleFrom(cur, end, FrequencyOf(interval)) == Completed([cur])
  {
  }

  /** Splices the dates already appended onto the run of the rest of the loop. */
  function After(done: seq<Date>, r: Run): Run {
    match r
    case Completed(ds) => Completed(done + ds)
    case Overflowed => Overflowed
  }

  lemma AfterPrepend(done: seq<Date>, d: Date, r: Run)
    ensures After(done, Prepend(d, r)) == After(done + [d], r)
  {
    if r.Completed? {
      assert done + ([d] + r.dates) == (done + [d]) + r.dates;
    }
  }

  /** The `while current_date <= end_date` loop itself, as written. */
  method BuildSchedule(start: Date, end: Date, interval: string) returns (r: Run)
    requires Valid(start) && Valid(end)
    ensures r == ScheduleFrom(start, end, FrequencyOf(interval))
  {
    var f := FrequencyOf(interval);
    var dates: seq<Date> := [];
    var cur := start;
    while !Before(end, cur)
      invariant Valid(cur)
      invariant After(dates, ScheduleFrom(cur, end, f)) == ScheduleFrom(start, end, f)
      decreases Ordinal(end) - Ordinal(cur)
    {
      OrdinalOrder(end, cur);
      dates := dates + [cur];
      var s := Advance(cur, f);
      if s.Crash? {
        return Overflowed;
      } else if s.Stop? {
        return Completed(dates);
      }
      Unfold(cur, end, s.next, f);
      AfterPrepend(dates[..|dates| - 1], cur, ScheduleFrom(s.next, end, f));
      assert dates[..|dates| - 1] + [cur] == dates;
      cur := s.next;
    }
    assert dates + [] == dates;
    r := Completed(dates);
  }
}
