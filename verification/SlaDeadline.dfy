/** Deadlines of SLA timers.

    Instants are whole milliseconds since the Unix epoch and days are whole UTC days since the
    epoch, so day 0 is Thursday 1 January 1970. Adding one to the UTC date of an instant, whatever
    month or year boundary that crosses, adds exactly one UTC day to it.
 */
module SlaDeadline {

  const HOUR_MS := 3_600_000
  const DAY_MS := 86_400_000
  const MAX_ITERATIONS: nat := 2000

  /** The fewest weekdays that any 2000 consecutive days hold: 285 whole weeks and three days. */
  const SAFE_WINDOW := 1428

  datatype WindowUnit = HOURS | DAYS | WORKING_DAYS

  datatype DayType = HOLIDAY | HALF_DAY | SHUTDOWN

  /** One clearing-calendar row; `day` stands for its ISO date. */
  datatype CalendarDay = CalendarDay(funder: nat, region: string, day: int, dayType: DayType)

  function DayOf(instant: int): int {
    instant / DAY_MS
  }

  /** 0 is Sunday and 6 is Saturday, as `getUTCDay` numbers them. */
  function DayOfWeek(day: int): int {
    (day + 4) % 7
  }

  predicate IsWeekday(day: int) {
    DayOfWeek(day) != 0 && DayOfWeek(day) != 6
  }

  predicate IsWorkingDay(day: int, exclusions: set<int>) {
    IsWeekday(day) && day !in exclusions
  }

  /** The days the calendar query excludes. An empty region leaves the region out of the query. */
  function Exclusions(calendar: seq<CalendarDay>, funder: nat, region: string): set<int> {
    set row | row in calendar && row.funder == funder && (region == "" || row.region == region) &&
              row.dayType != HALF_DAY :: row.day
  }

  // ---------------------------------------------------------------------------------------------
  // What the loop computes
  // ---------------------------------------------------------------------------------------------

  /** The working days in (day, day + k]. */
  function Count(day: int, k: nat, exclusions: set<int>): nat {
    if k == 0 then 0
    else Count(day, k - 1, exclusions) + if IsWorkingDay(day + k, exclusions) then 1 else 0
  }

  /** The days the loop moves on from `day` when `window` working days are still to be counted
      and `limit` iterations are left. */
  function Span(day: int, window: int, exclusions: set<int>, limit: nat): nat
    decreases limit, day
  {
    if window <= 0 || limit == 0 then 0
    else 1 + Span(day + 1, if IsWorkingDay(day + 1, exclusions) then window - 1 else window,
                  exclusions, limit - 1)
  }

  function Deadline(unit: WindowUnit, window: int, startedAt: int, exclusions: set<int>): int {
    match unit
    case HOURS => startedAt + window * HOUR_MS
    case DAYS => startedAt + window * DAY_MS
    case WORKING_DAYS =>
      startedAt + Span(DayOf(startedAt), window, exclusions, MAX_ITERATIONS) * DAY_MS
  }

  method ComputeDeadline(unit: WindowUnit, window: int, startedAt: int, calendar: seq<CalendarDay>,
                         funder: nat, region: string)
    returns (deadline: int)
    ensures deadline == Deadline(unit, window, startedAt, Exclusions(calendar, funder, region))
  {
    if unit == HOURS {
      return startedAt + window * HOUR_MS;
    }
    if unit == DAYS {
      return startedAt + window * DAY_MS;
    }
    var exclusions := Exclusions(calendar, funder, region);
    deadline := startedAt;
    var counted := 0;
    var i := 0;
    while counted < window && i < MAX_ITERATIONS
      invariant 0 <= i <= MAX_ITERATIONS
      invariant deadline == startedAt + i * DAY_MS
      invariant Span(DayOf(startedAt), window, exclusions, MAX_ITERATIONS)
             == i + Span(DayOf(startedAt) + i, window - counted, exclusions, MAX_ITERATIONS - i)
      decreases MAX_ITERATIONS - i
    {
      deadline := deadline + DAY_MS;
      i := i + 1;
      if IsWorkingDay(DayOf(deadline), exclusions) {
        counted := counted + 1;
      }
    }
  }

  // ---------------------------------------------------------------------------------------------
  // Counting
  // ---------------------------------------------------------------------------------------------

  lemma {:induction false} CountAdds(day: int, a: nat, b: nat, exclusions: set<int>)
    ensures Count(day, a + b, exclusions) == Count(day, a, exclusions) + Count(day + a, b, exclusions)
  {
    if b > 0 {
      CountAdds(day, a, b - 1, exclusions);
      assert day + (a + b) == (day + a) + b;
    }
  }

  lemma {:induction false} CountGrows(day: int, j: nat, k: nat, exclusions: set<int>)
    requires j <= k
    ensures Count(day, j, exclusions) <= Count(day, k, exclusions)
  {
    CountAdds(day, j, k - j, exclusions);
  }

  lemma {:induction false} CountShrinksWithExclusions(day: int, k: nat, fewer: set<int>, more: set<int>)
    requires fewer <= more
    ensures Count(day, k, more) <= Count(day, k, fewer)
  {
    if k > 0 {
      CountShrinksWithExclusions(day, k - 1, fewer, more);
    }
  }

  /** Weekdays up to and including `day`, counted from a fixed Monday. */
  function WeekdaysUpTo(day: int): int {
    var fromMonday := (day + 3) % 7;
    5 * ((day + 3) / 7) + if fromMonday < 5 then fromMonday + 1 else 5
  }

  lemma WeekdayStep(day: int)
    ensures WeekdaysUpTo(day) == WeekdaysUpTo(day - 1) + if IsWeekday(day) then 1 else 0
  {
  }

  lemma {:induction false} WeekdayCount(day: int, k: nat)
    ensures Count(day, k, {}) == WeekdaysUpTo(day + k) - WeekdaysUpTo(day)
  {
    hide WeekdaysUpTo, IsWeekday;
    if k > 0 {
      WeekdayCount(day, k - 1);
      WeekdayStep(day + k);
    }
  }

  function ExcludedWeekdays(day: int, k: nat, exclusions: set<int>): set<int> {
    set d | d in exclusions && day < d <= day + k && IsWeekday(d)
  }

  lemma ExcludedWeekdayStep(day: int, k: nat, exclusions: set<int>)
    requires k > 0
    ensures |ExcludedWeekdays(day, k, exclusions)|
         == |ExcludedWeekdays(day, k - 1, exclusions)|
          + if IsWeekday(day + k) && day + k in exclusions then 1 else 0
  {
    hide IsWeekday;
    var before, after := ExcludedWeekdays(day, k - 1, exclusions), ExcludedWeekdays(day, k, exclusions);
    if day + k in after {
      assert after == before + {day + k};
    } else {
      assert after == before;
    }
  }

  lemma {:induction false} CountWithExclusions(day: int, k: nat, exclusions: set<int>)
    ensures Count(day, k, exclusions)
         == WeekdaysUpTo(day + k) - WeekdaysUpTo(day) - |ExcludedWeekdays(day, k, exclusions)|
  {
    if k == 0 {
      assert ExcludedWeekdays(day, k, exclusions) == {};
    } else {
      hide WeekdaysUpTo, IsWeekday, ExcludedWeekdays;
      CountWithExclusions(day, k - 1, exclusions);
      WeekdayStep(day + k);
      ExcludedWeekdayStep(day, k, exclusions);
    }
  }

  // ---------------------------------------------------------------------------------------------
  // The loop stops at the least day that completes the window
  // ---------------------------------------------------------------------------------------------

  /** `k` is the first day count, at most `limit`, that holds `window` working days. */
  ghost predicate IsLeast(day: int, window: int, exclusions: set<int>, limit: nat, k: nat) {
    && k <= limit
    && (forall j: nat :: j < k ==> Count(day, j, exclusions) < window)
    && (k < limit ==> Count(day, k, exclusions) >= window)
  }

  lemma {:induction false} SpanIsLeast(day: int, window: int, exclusions: set<int>, limit: nat)
    ensures IsLeast(day, window, exclusions, limit, Span(day, window, exclusions, limit))
    ensures window >= 0 ==> Count(day, Span(day, window, exclusions, limit), exclusions) <= window
    decreases limit, day
  {
    hide IsWorkingDay;
    if window > 0 && limit > 0 {
      var first := if IsWorkingDay(day + 1, exclusions) then 1 else 0;
      var rest := Span(day + 1, window - first, exclusions, limit - 1);
      SpanIsLeast(day + 1, window - first, exclusions, limit - 1);
      assert Count(day, 1, exclusions) == first by {
        assert Count(day, 0, exclusions) == 0;
      }
      CountAdds(day, 1, rest, exclusions);
      forall j: nat | j < 1 + rest
        ensures Count(day, j, exclusions) < window
      {
        if j > 0 {
          CountAdds(day, 1, j - 1, exclusions);
        }
      }
    }
  }

  /** No earlier day holds the window, whatever day it is measured against. */
  lemma SpanAtMost(day: int, window: int, exclusions: set<int>, limit: nat, k: nat)
    requires Count(day, k, exclusions) >= window
    ensures Span(day, window, exclusions, limit) <= k
  {
    SpanIsLeast(day, window, exclusions, limit);
  }

  /** Only one day count is least, so whatever is least is what the loop computes. */
  lemma LeastIsSpan(day: int, window: int, exclusions: set<int>, limit: nat, k: nat)
    requires IsLeast(day, window, exclusions, limit, k)
    ensures k == Span(day, window, exclusions, limit)
  {
    SpanIsLeast(day, window, exclusions, limit);
    var span := Span(day, window, exclusions, limit);
    assert Count(day, span, exclusions) < window || k <= span;
    assert Count(day, k, exclusions) < window || span <= k;
  }

  /** The guard cuts a window short exactly when 2000 days hold too few working days. */
  predicate GuardBites(day: int, window: int, exclusions: set<int>) {
    Count(day, MAX_ITERATIONS, exclusions) < window
  }

  /** A deadline that the guard did not cut short falls on a working day, at the start's time of
      day, with exactly `window` working days after the start and none to spare. */
  lemma DeadlineIsExact(window: int, startedAt: int, exclusions: set<int>)
    requires window > 0
    ensures var deadline := Deadline(WORKING_DAYS, window, startedAt, exclusions);
            var day, k := DayOf(startedAt), DayOf(deadline) - DayOf(startedAt);
            && deadline % DAY_MS == startedAt % DAY_MS
            && 0 < k <= MAX_ITERATIONS
            && (if GuardBites(day, window, exclusions)
                then k == MAX_ITERATIONS && Count(day, k, exclusions) < window
                else && Count(day, k, exclusions) == window
                     && Count(day, k - 1, exclusions) == window - 1
                     && IsWorkingDay(day + k, exclusions))
  {
    var day := DayOf(startedAt);
    var k := Span(day, window, exclusions, MAX_ITERATIONS);
    SpanIsLeast(day, window, exclusions, MAX_ITERATIONS);
    assert DayOf(startedAt + k * DAY_MS) == day + k;
    assert k > 0;
    assert Count(day, k - 1, exclusions) < window;
    if k < MAX_ITERATIONS {
      CountGrows(day, k, MAX_ITERATIONS, exclusions);
    }
  }

  // ---------------------------------------------------------------------------------------------
  // Hours and days
  // ---------------------------------------------------------------------------------------------

  /** A window in days moves the day by so many, whatever the calendar, and keeps the time of day. */
  lemma DaysMoveTheDay(window: int, startedAt: int, exclusions: set<int>)
    ensures var due := Deadline(DAYS, window, startedAt, exclusions);
            DayOf(due) == DayOf(startedAt) + window && due % DAY_MS == startedAt % DAY_MS
  {
  }

  /** A day is twenty-four hours of sixty minutes of sixty seconds of a thousand milliseconds. */
  lemma HoursFillDays(window: int, startedAt: int, exclusions: set<int>)
    ensures Deadline(HOURS, 24 * window, startedAt, exclusions) == Deadline(DAYS, window, startedAt, exclusions)
    ensures Deadline(HOURS, 1, startedAt, exclusions) - startedAt == 60 * 60 * 1000
    ensures DayOf(24 * 60 * 60 * 1000 * window) == window
  {
  }

  /** In hours and in days windows add up, and no calendar plays a part. */
  lemma ClockWindowsCompose(unit: WindowUnit, a: int, b: int, startedAt: int, exclusions: set<int>, others: set<int>)
    requires unit != WORKING_DAYS
    ensures Deadline(unit, a + b, startedAt, exclusions)
         == Deadline(unit, b, Deadline(unit, a, startedAt, exclusions), others)
  {
    match unit
    case HOURS => assert (a + b) * HOUR_MS == a * HOUR_MS + b * HOUR_MS;
    case DAYS => assert (a + b) * DAY_MS == a * DAY_MS + b * DAY_MS;
  }

  lemma {:induction false} CountIsAtMost(day: int, k: nat, exclusions: set<int>)
    ensures Count(day, k, exclusions) <= k
  {
    if k > 0 {
      CountIsAtMost(day, k - 1, exclusions);
    }
  }

  /** Working days take at least as long as days, except where the iteration guard cuts them short. */
  lemma WorkingDaysTakeLonger(window: nat, startedAt: int, exclusions: set<int>)
    requires !GuardBites(DayOf(startedAt), window, exclusions)
    ensures Deadline(DAYS, window, startedAt, exclusions) <= Deadline(WORKING_DAYS, window, startedAt, exclusions)
  {
    var day := DayOf(startedAt);
    var k := Span(day, window, exclusions, MAX_ITERATIONS);
    SpanIsLeast(day, window, exclusions, MAX_ITERATIONS);
    CountIsAtMost(day, k, exclusions);
    hide Span, Count;
    assert window <= k;
  }

  // ---------------------------------------------------------------------------------------------
  // When the iteration guard can bite
  // ---------------------------------------------------------------------------------------------

  /** The guard bites exactly when the weekdays of the next 2000 days, less the excluded ones among
      them, are fewer than the window. */
  lemma GuardBitesIff(day: int, window: int, exclusions: set<int>)
    ensures GuardBites(day, window, exclusions)
       <==> WeekdaysUpTo(day + MAX_ITERATIONS) - WeekdaysUpTo(day)
            < window + |ExcludedWeekdays(day, MAX_ITERATIONS, exclusions)|
  {
    CountWithExclusions(day, MAX_ITERATIONS, exclusions);
  }

  lemma FewWindowsAreSafe(day: int, window: int, exclusions: set<int>)
    requires window + |ExcludedWeekdays(day, MAX_ITERATIONS, exclusions)| <= SAFE_WINDOW
    ensures !GuardBites(day, window, exclusions)
  {
    GuardBitesIff(day, window, exclusions);
  }

  lemma WeekOfFriday(friday: int) returns (week: int)
    requires DayOfWeek(friday) == 5
    ensures friday == 7 * week + 4 - 3
  {
    week := (friday + 3) / 7;
  }

  lemma WeekdaysFromFriday(friday: int)
    requires DayOfWeek(friday) == 5
    ensures WeekdaysUpTo(friday + MAX_ITERATIONS) - WeekdaysUpTo(friday) == SAFE_WINDOW
  {
    hide WeekdaysUpTo, IsWeekday, LastWeekday, DayOfWeek;
    var week := WeekOfFriday(friday);
    WeekdaysOfWeek(week, 4);
    WeekdaysOfWeek(week + 286, 2);
    assert friday + MAX_ITERATIONS == 7 * (week + 286) + 2 - 3;
  }

  /** The bound is the best possible: from a Friday, one more working day is already lost. */
  lemma SafeWindowIsSharp(friday: int)
    requires DayOfWeek(friday) == 5
    ensures GuardBites(friday, SAFE_WINDOW + 1, {})
    ensures Span(friday, SAFE_WINDOW + 1, {}, MAX_ITERATIONS) == MAX_ITERATIONS
    ensures Count(friday, MAX_ITERATIONS, {}) == SAFE_WINDOW
  {
    hide Span, Count, WeekdaysUpTo, IsWeekday, DayOfWeek;
    WeekdaysFromFriday(friday);
    WeekdayCount(friday, MAX_ITERATIONS);
    SpanIsLeast(friday, SAFE_WINDOW + 1, {}, MAX_ITERATIONS);
    CountGrows(friday, Span(friday, SAFE_WINDOW + 1, {}, MAX_ITERATIONS), MAX_ITERATIONS, {});
  }

  // ---------------------------------------------------------------------------------------------
  // Closed form
  // ---------------------------------------------------------------------------------------------

  /** The last weekday on or before `day`. */
  function LastWeekday(day: int): int {
    if DayOfWeek(day) == 6 then day - 1 else if DayOfWeek(day) == 0 then day - 2 else day
  }

  /** Whole weeks first, then the remaining days, plus a weekend when they cross one. */
  function ClosedForm(day: int, window: int): int {
    var base, r := LastWeekday(day), window % 5;
    base + 7 * (window / 5) + r + if DayOfWeek(base) + r > 5 then 2 else 0
  }

  lemma Sevenths(q: int, i: int)
    requires 0 <= i < 7
    ensures (7 * q + i) / 7 == q && (7 * q + i) % 7 == i
  {
  }

  /** The days of week `week`, counted from Monday. */
  lemma WeekdaysOfWeek(week: int, i: int)
    requires 0 <= i < 7
    ensures WeekdaysUpTo(7 * week + i - 3) == 5 * week + if i < 5 then i + 1 else 5
    ensures IsWeekday(7 * week + i - 3) <==> i < 5
    ensures LastWeekday(7 * week + i - 3) == 7 * week + (if i < 5 then i else 4) - 3
    ensures i < 5 ==> DayOfWeek(7 * week + i - 3) == i + 1
  {
    var day := 7 * week + i - 3;
    Sevenths(week, i);
    assert day + 3 == 7 * week + i;
    if i < 6 {
      Sevenths(week, i + 1);
      assert day + 4 == 7 * week + (i + 1);
    } else {
      Sevenths(week + 1, 0);
      assert day + 4 == 7 * (week + 1) + 0;
    }
  }

  lemma WeekdaysUpToClosedForm(day: int, window: int)
    requires window >= 1
    ensures WeekdaysUpTo(ClosedForm(day, window)) == WeekdaysUpTo(day) + window
    ensures IsWeekday(ClosedForm(day, window))
    ensures ClosedForm(day, window) > day
  {
    hide WeekdaysUpTo, IsWeekday, LastWeekday, DayOfWeek;
    var week, n := (day + 3) / 7, (day + 3) % 7;
    WeekdaysOfWeek(week, n);
    var i := if n < 5 then n else 4;
    WeekdaysOfWeek(week, i);
    var weeks, r := window / 5, window % 5;
    assert window == 5 * weeks + r;
    if i + r > 4 {
      WeekdaysOfWeek(week + weeks + 1, i + r - 5);
    } else {
      WeekdaysOfWeek(week + weeks, i + r);
    }
  }

  lemma ClosedFormIsLeast(day: int, window: int)
    requires 1 <= window <= SAFE_WINDOW
    ensures ClosedForm(day, window) == day + Span(day, window, {}, MAX_ITERATIONS)
  {
    hide ClosedForm, WeekdaysUpTo, Span, Count, ExcludedWeekdays;
    var k: nat := Span(day, window, {}, MAX_ITERATIONS);
    var target := ClosedForm(day, window);
    WeekdaysUpToClosedForm(day, window);
    SpanIsLeast(day, window, {}, MAX_ITERATIONS);
    NothingExcluded(day);
    FewWindowsAreSafe(day, window, {});
    WeekdayCount(day, target - day);
    WeekdayCount(day, target - day - 1);
    WeekdayStep(target);
    SpanAtMost(day, window, {}, MAX_ITERATIONS, target - day);
    if k <= target - day - 1 {
      CountGrows(day, k, target - day - 1, {});
    }
  }

  lemma NothingExcluded(day: int)
    ensures |ExcludedWeekdays(day, MAX_ITERATIONS, {})| == 0
  {
    assert ExcludedWeekdays(day, MAX_ITERATIONS, {}) == {};
  }

  /** Without exclusions the loop computes the closed form. */
  lemma DeadlineClosedForm(window: int, startedAt: int)
    requires 1 <= window <= SAFE_WINDOW
    ensures Deadline(WORKING_DAYS, window, startedAt, {})
         == ClosedForm(DayOf(startedAt), window) * DAY_MS + startedAt % DAY_MS
  {
    ClosedFormIsLeast(DayOf(startedAt), window);
  }

  // ---------------------------------------------------------------------------------------------
  // Composition and monotonicity
  // ---------------------------------------------------------------------------------------------

  lemma SpansCompose(day: int, a: nat, b: nat, exclusions: set<int>)
    requires !GuardBites(day, a + b, exclusions)
    ensures var first := Span(day, a, exclusions, MAX_ITERATIONS);
            Span(day, a + b, exclusions, MAX_ITERATIONS)
            == first + Span(day + first, b, exclusions, MAX_ITERATIONS)
  {
    hide Span, Count;
    var whole := Span(day, a + b, exclusions, MAX_ITERATIONS);
    var first := Span(day, a, exclusions, MAX_ITERATIONS);
    SpanIsLeast(day, a + b, exclusions, MAX_ITERATIONS);
    SpanIsLeast(day, a, exclusions, MAX_ITERATIONS);
    SpanAtMost(day, a, exclusions, MAX_ITERATIONS, whole);
    assert Count(day, first, exclusions) == a;
    var mid := day + first;
    forall j: nat | j < whole - first
      ensures Count(mid, j, exclusions) < b
    {
      CountAdds(day, first, j, exclusions);
    }
    CountAdds(day, first, whole - first, exclusions);
    LeastIsSpan(mid, b, exclusions, MAX_ITERATIONS, whole - first);
  }

  /** Waiting for a + b working days is waiting for a and then for b. */
  lemma DeadlinesCompose(a: nat, b: nat, startedAt: int, exclusions: set<int>)
    requires !GuardBites(DayOf(startedAt), a + b, exclusions)
    ensures Deadline(WORKING_DAYS, a + b, startedAt, exclusions)
         == Deadline(WORKING_DAYS, b, Deadline(WORKING_DAYS, a, startedAt, exclusions), exclusions)
  {
    SpansCompose(DayOf(startedAt), a, b, exclusions);
    DeadlineDay(a, startedAt, exclusions);
  }

  /** Excluding more days never brings a deadline forward. */
  lemma MoreExclusionsNeverEarlier(window: int, startedAt: int, fewer: set<int>, more: set<int>)
    requires fewer <= more
    ensures Deadline(WORKING_DAYS, window, startedAt, fewer) <= Deadline(WORKING_DAYS, window, startedAt, more)
  {
    var day := DayOf(startedAt);
    var k := Span(day, window, more, MAX_ITERATIONS);
    SpanIsLeast(day, window, fewer, MAX_ITERATIONS);
    SpanIsLeast(day, window, more, MAX_ITERATIONS);
    if k < MAX_ITERATIONS {
      CountShrinksWithExclusions(day, k, fewer, more);
      SpanAtMost(day, window, fewer, MAX_ITERATIONS, k);
    }
  }

  /** A timer that names a region is never due later than the same timer without one, because a
      timer without a region is held up by the days of every region. */
  lemma RegionNeverLater(unit: WindowUnit, window: int, startedAt: int, calendar: seq<CalendarDay>,
                         funder: nat, region: string)
    ensures Deadline(unit, window, startedAt, Exclusions(calendar, funder, region))
         <= Deadline(unit, window, startedAt, Exclusions(calendar, funder, ""))
  {
    if unit == WORKING_DAYS {
      MoreExclusionsNeverEarlier(window, startedAt, Exclusions(calendar, funder, region),
                                 Exclusions(calendar, funder, ""));
    }
  }

  /** Excluding more days leaves a deadline where it is exactly when none of them is a working day on the way, or when
      the guard had already been reached. */
  lemma SameDeadlineIff(window: int, startedAt: int, fewer: set<int>, more: set<int>)
    requires fewer <= more
    ensures var day, k := DayOf(startedAt), Span(DayOf(startedAt), window, fewer, MAX_ITERATIONS);
            Deadline(WORKING_DAYS, window, startedAt, fewer) == Deadline(WORKING_DAYS, window, startedAt, more)
            <==> k == MAX_ITERATIONS || NoneExcluded(day, k, fewer, more)
  {
    hide Count, Span;
    var day := DayOf(startedAt);
    var k, k' := Span(day, window, fewer, MAX_ITERATIONS), Span(day, window, more, MAX_ITERATIONS);
    MoreExclusionsNeverEarlier(window, startedAt, fewer, more);
    SpanIsLeast(day, window, fewer, MAX_ITERATIONS);
    SpanIsLeast(day, window, more, MAX_ITERATIONS);
    SameCountIff(day, k, fewer, more);
    CountShrinksWithExclusions(day, k, fewer, more);
    if k < MAX_ITERATIONS && window >= 0 && Count(day, k, more) >= window {
      SpanAtMost(day, window, more, MAX_ITERATIONS, k);
    }
    if window < 0 {
      NothingToCount(day, window, fewer);
      NothingToCount(day, window, more);
    }
  }

  /** No working day among the next `k` days is lost to the further exclusions. */
  ghost predicate NoneExcluded(day: int, k: nat, fewer: set<int>, more: set<int>) {
    forall d :: day < d <= day + k && IsWorkingDay(d, fewer) ==> d !in more
  }

  lemma NothingToCount(day: int, window: int, exclusions: set<int>)
    requires window <= 0
    ensures Span(day, window, exclusions, MAX_ITERATIONS) == 0
  {
  }

  lemma {:induction false} SameCountIff(day: int, k: nat, fewer: set<int>, more: set<int>)
    requires fewer <= more
    ensures Count(day, k, fewer) == Count(day, k, more) <==> NoneExcluded(day, k, fewer, more)
  {
    if k > 0 {
      SameCountIff(day, k - 1, fewer, more);
      CountShrinksWithExclusions(day, k - 1, fewer, more);
      assert NoneExcluded(day, k, fewer, more)
        <==> NoneExcluded(day, k - 1, fewer, more) && (IsWorkingDay(day + k, fewer) ==> day + k !in more);
    }
  }

  /** What the deadlines promise, that the days of a region hold up only the timers of that region, is kept for a timer
      without a region exactly when no weekday up to its deadline is excluded in any region. */
  lemma RegionlessIsOnTimeIff(window: int, startedAt: int, calendar: seq<CalendarDay>, funder: nat)
    requires 1 <= window <= SAFE_WINDOW
    ensures var day, all := DayOf(startedAt), Exclusions(calendar, funder, "");
            var due := ClosedForm(day, window);
            var onTime :=
              Deadline(WORKING_DAYS, window, startedAt, all) == Deadline(WORKING_DAYS, window, startedAt, {});
            var noneOnTheWay := forall d :: day < d <= due && IsWeekday(d) ==> d !in all;
            && (onTime <==> due == day + MAX_ITERATIONS || noneOnTheWay)
            && (!GuardBites(day, window, all) ==> (onTime <==> noneOnTheWay))
  {
    var day, all := DayOf(startedAt), Exclusions(calendar, funder, "");
    var k := Span(day, window, {}, MAX_ITERATIONS);
    ClosedFormIsLeast(day, window);
    SameDeadlineIff(window, startedAt, {}, all);
    assert NoneExcluded(day, k, {}, all) <==> forall d :: day < d <= day + k && IsWeekday(d) ==> d !in all;
    if k == MAX_ITERATIONS && !GuardBites(day, window, all) {
      SpanIsLeast(day, window, {}, MAX_ITERATIONS);
      CountShrinksWithExclusions(day, k, {}, all);
      SameCountIff(day, k, {}, all);
    }
  }

  /** A one-day timer without a region, started on any Friday, is held up until Tuesday by the Monday holiday of any
      region, while the timer of another region is due on the Monday. */
  lemma ForeignHolidayDelays(startedAt: int, funder: nat, holidayRegion: string, otherRegion: string)
    requires DayOfWeek(DayOf(startedAt)) == 5 && otherRegion != "" && otherRegion != holidayRegion
    ensures var calendar := [CalendarDay(funder, holidayRegion, DayOf(startedAt) + 3, HOLIDAY)];
            && Deadline(WORKING_DAYS, 1, startedAt, Exclusions(calendar, funder, "")) == startedAt + 4 * DAY_MS
            && Deadline(WORKING_DAYS, 1, startedAt, Exclusions(calendar, funder, otherRegion)) == startedAt + 3 * DAY_MS
  {
    var day := DayOf(startedAt);
    var row := CalendarDay(funder, holidayRegion, day + 3, HOLIDAY);
    assert row in [row];
    assert Exclusions([row], funder, "") == {day + 3};
    assert Exclusions([row], funder, otherRegion) == {};
    FridayToTuesday(day);
  }

  lemma FridayToTuesday(friday: int)
    requires DayOfWeek(friday) == 5
    ensures Span(friday, 1, {friday + 3}, MAX_ITERATIONS) == 4
    ensures Span(friday, 1, {}, MAX_ITERATIONS) == 3
  {
    var held: set<int> := {friday + 3};
    hide Span;
    assert forall j: nat :: j < 4 ==> Count(friday, j, held) == 0 by {
      assert Count(friday, 0, held) == 0 && Count(friday, 1, held) == 0;
      assert Count(friday, 2, held) == 0 && Count(friday, 3, held) == 0;
    }
    assert Count(friday, 4, held) == 1;
    LeastIsSpan(friday, 1, held, MAX_ITERATIONS, 4);
    assert forall j: nat :: j < 3 ==> Count(friday, j, {}) == 0 by {
      assert Count(friday, 0, {}) == 0 && Count(friday, 1, {}) == 0 && Count(friday, 2, {}) == 0;
    }
    assert Count(friday, 3, {}) == 1;
    LeastIsSpan(friday, 1, {}, MAX_ITERATIONS, 3);
  }

  /** Whether a row of the calendar holds the timers of a funder and a region up on its day. */
  predicate Holds(row: CalendarDay, funder: nat, region: string) {
    && row.funder == funder && row.dayType in {HOLIDAY, SHUTDOWN}
    && (region == "" || row.region == region)
  }

  /** One more row in the calendar moves a deadline exactly when it is a holiday or a shutdown of the funder, of the
      region if one is named, on what was a working day on the way, and the 2000 days of the guard were not used up.
      Half days and the rows of others move nothing. */
  lemma RowDelaysIff(window: int, startedAt: int, calendar: seq<CalendarDay>, row: CalendarDay, funder: nat,
                     region: string)
    ensures var fewer, more := Exclusions(calendar, funder, region), Exclusions(calendar + [row], funder, region);
            var due := Deadline(WORKING_DAYS, window, startedAt, fewer);
            due != Deadline(WORKING_DAYS, window, startedAt, more)
            <==> && Holds(row, funder, region) && IsWorkingDay(row.day, fewer)
                 && DayOf(startedAt) < row.day <= DayOf(due) < DayOf(startedAt) + 2000
  {
    var fewer, more := Exclusions(calendar, funder, region), Exclusions(calendar + [row], funder, region);
    var day := DayOf(startedAt);
    var k := Span(day, window, fewer, MAX_ITERATIONS);
    OneMoreRow(calendar, row, funder, region);
    DeadlineDay(window, startedAt, fewer);
    SameDeadlineIff(window, startedAt, fewer, more);
    hide Deadline, DayOf, Span, Exclusions, IsWorkingDay;
    assert NoneExcluded(day, k, fewer, more)
      <==> !(Holds(row, funder, region) && day < row.day <= day + k && IsWorkingDay(row.day, fewer)) by {
      WorkingDaysAreNotExcluded(fewer);
    }
    SpanIsLeast(day, window, fewer, MAX_ITERATIONS);
  }

  lemma WorkingDaysAreNotExcluded(exclusions: set<int>)
    ensures forall d :: IsWorkingDay(d, exclusions) ==> d !in exclusions
  {
  }

  lemma OneMoreRow(calendar: seq<CalendarDay>, row: CalendarDay, funder: nat, region: string)
    ensures Exclusions(calendar + [row], funder, region)
         == Exclusions(calendar, funder, region) + if Holds(row, funder, region) then {row.day} else {}
  {
    var fewer, more := Exclusions(calendar, funder, region), Exclusions(calendar + [row], funder, region);
    assert forall r :: r in calendar + [row] <==> r in calendar || r == row;
    forall d ensures d in more <==> d in fewer || (Holds(row, funder, region) && d == row.day) {
      if d in fewer {
        var r :| r in calendar && r.funder == funder && (region == "" || r.region == region) && r.dayType != HALF_DAY
                 && r.day == d;
        assert r in calendar + [row];
      }
      if Holds(row, funder, region) {
        assert row in calendar + [row];
      }
    }
  }

  lemma DeadlineDay(window: int, startedAt: int, exclusions: set<int>)
    ensures DayOf(Deadline(WORKING_DAYS, window, startedAt, exclusions))
         == DayOf(startedAt) + Span(DayOf(startedAt), window, exclusions, MAX_ITERATIONS)
  {
  }

  /** Starting on a later day never brings the deadline's day forward. */
  lemma LaterStartNeverEarlier(window: int, start: int, later: int, exclusions: set<int>)
    requires DayOf(start) <= DayOf(later)
    ensures DayOf(Deadline(WORKING_DAYS, window, start, exclusions))
         <= DayOf(Deadline(WORKING_DAYS, window, later, exclusions))
  {
    hide Deadline, DayOf, Span, Count;
    var d, d' := DayOf(start), DayOf(later);
    var k' := Span(d', window, exclusions, MAX_ITERATIONS);
    DeadlineDay(window, start, exclusions);
    DeadlineDay(window, later, exclusions);
    SpanIsLeast(d, window, exclusions, MAX_ITERATIONS);
    SpanIsLeast(d', window, exclusions, MAX_ITERATIONS);
    if k' < MAX_ITERATIONS {
      CountAdds(d, d' - d, k', exclusions);
      SpanAtMost(d, window, exclusions, MAX_ITERATIONS, d' - d + k');
    }
  }
}
