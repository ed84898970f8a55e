/** Local time to UTC and the list periods (packages/ai/src/kyiv-calendar.ts). */
module KyivCalendar {
  // The time zone is an abstract offset function: `offset(u)` is what the local clock is ahead of UTC
  // at instant `u`, both in milliseconds. Dates are Gregorian years, months and days, as `Date.UTC`
  // reads them.

  type Zone = int -> int

  const SECOND := 1000
  const DAY := 86400000

  /** What the local clock shows at `u`, read as if it were UTC. */
  function Shown(offset: Zone, u: int): int {
    u + offset(u)
  }

  /** `zonedLocalToUtcMs`, given `utcGuess`: two probes of the offset. */
  function LocalToUtc(offset: Zone, guess: int): int {
    var first := guess - offset(guess);
    if offset(first) != offset(guess) then guess - offset(first) else first
  }

  /** One change of the offset in a stretch of time: `before` until `at`, `after` from then on. */
  ghost predicate ChangesOnce(offset: Zone, lo: int, hi: int, at: int, before: int, after: int) {
    forall u :: lo <= u <= hi ==> offset(u) == if u < at then before else after
  }

  /** Around the guess the offset changes at most once, and local time is ahead of UTC. */
  ghost predicate Regular(offset: Zone, guess: int, at: int, before: int, after: int) {
    && 0 < before && 0 < after
    && ChangesOnce(offset, guess - before - after, guess + before + after, at, before, after)
  }

  /** `u` lies within reach of the guess. */
  predicate Near(guess: int, u: int, before: int, after: int) {
    guess - before - after <= u <= guess + before + after
  }

  /** Wherever an instant shows the wanted local time, the two probes find one; on a doubled
      hour it is the later of the two. */
  lemma InversionFindsAnAnswer(offset: Zone, guess: int, at: int, before: int, after: int, u: int)
    requires Regular(offset, guess, at, before, after)
    requires Near(guess, u, before, after) && Shown(offset, u) == guess
    ensures Shown(offset, LocalToUtc(offset, guess)) == guess && u <= LocalToUtc(offset, guess)
  {
    assert offset(guess) == if guess < at then before else after;
    var first := guess - offset(guess);
    assert offset(first) == if first < at then before else after;
    assert offset(u) == if u < at then before else after;
  }

  /** On a local time that a forward change skips, the answer is off by exactly what was skipped. */
  lemma SkippedTimeMovesForward(offset: Zone, guess: int, at: int, before: int, after: int)
    requires Regular(offset, guess, at, before, after)
    requires forall u :: Near(guess, u, before, after) ==> Shown(offset, u) != guess
    ensures after > before && Shown(offset, LocalToUtc(offset, guess)) == guess + (after - before)
  {
    assert offset(guess) == if guess < at then before else after;
    assert Near(guess, guess - before, before, after) && Near(guess, guess - after, before, after);
    assert Shown(offset, guess - before) != guess && Shown(offset, guess - after) != guess;
    var first := guess - offset(guess);
    assert offset(first) == if first < at then before else after;
    assert offset(guess - before) == if guess - before < at then before else after;
    assert offset(guess - after) == if guess - after < at then before else after;
  }

  /** So the two probes meet the wanted local time exactly when some instant shows it. */
  lemma InversionExactly(offset: Zone, guess: int, at: int, before: int, after: int)
    requires Regular(offset, guess, at, before, after)
    ensures Shown(offset, LocalToUtc(offset, guess)) == guess
       <==> exists u :: Near(guess, u, before, after) && Shown(offset, u) == guess
  {
    if u :| Near(guess, u, before, after) && Shown(offset, u) == guess {
      InversionFindsAnAnswer(offset, guess, at, before, after, u);
    }
    var first := guess - offset(guess);
    assert offset(guess) == if guess < at then before else after;
    assert offset(first) == if first < at then before else after;
    assert Near(guess, LocalToUtc(offset, guess), before, after);
  }

  // ------------------------------------------------------------ dates

  datatype Date = Date(year: int, month: int, day: int)

  predicate Leap(y: int) {
    y % 4 == 0 && (y % 100 != 0 || y % 400 == 0)
  }

  function YearDays(y: int): nat {
    if Leap(y) then 366 else 365
  }

  function MonthDays(y: int, m: int): nat {
    if m == 2 then (if Leap(y) then 29 else 28) else if m in {4, 6, 9, 11} then 30 else 31
  }

  /** Days from the start of 1970 to the start of the year. */
  function YearStart(y: int): int
    decreases if y < 1970 then 1970 - y else y - 1970
  {
    if y == 1970 then 0
    else if y > 1970 then YearStart(y - 1) + YearDays(y - 1)
    else YearStart(y + 1) - YearDays(y)
  }

  function MonthStart(y: int, m: int): int
    requires 1 <= m <= 13
    decreases m
  {
    if m == 1 then YearStart(y) else MonthStart(y, m - 1) + MonthDays(y, m - 1)
  }

  /** The day number of `Date.UTC(y, m - 1, d)`; `d` may lie outside the month. */
  function UtcDay(y: int, m: int, d: int): int
    requires 1 <= m <= 13
  {
    MonthStart(y, m) + d - 1
  }

  predicate Valid(d: Date) {
    1 <= d.month <= 12 && 1 <= d.day <= MonthDays(d.year, d.month)
  }

  function DayNumber(d: Date): int
    requires 1 <= d.month <= 12
  {
    UtcDay(d.year, d.month, d.day)
  }

  /** Twelve months are a year. */
  lemma YearIsItsMonths(y: int)
    ensures MonthStart(y, 13) == YearStart(y + 1) == YearStart(y) + YearDays(y)
  {
    assert MonthStart(y, 4) == YearStart(y) + 31 + MonthDays(y, 2) + 31;
    assert MonthStart(y, 7) == MonthStart(y, 4) + 30 + 31 + 30;
    assert MonthStart(y, 10) == MonthStart(y, 7) + 31 + 31 + 30;
    assert MonthStart(y, 13) == MonthStart(y, 10) + 31 + 30 + 31;
  }

  lemma NextYear(y: int)
    ensures YearStart(y + 1) == YearStart(y) + YearDays(y)
  {}

  function YearOf(n: int, y: int): (r: int)
    ensures YearStart(r) <= n < YearStart(r + 1)
    decreases if n < YearStart(y) then YearStart(y) - n else n - YearStart(y)
  {
    NextYear(y);
    NextYear(y - 1);
    if n < YearStart(y - 1) then YearOf(n, y - 1)
    else if n < YearStart(y) then y - 1
    else if n < YearStart(y + 1) then y
    else YearOf(n, y + 1)
  }

  function MonthOf(n: int, y: int, m: int): (r: int)
    requires 1 <= m <= 12 && MonthStart(y, m) <= n < MonthStart(y, 13)
    ensures m <= r <= 12 && MonthStart(y, r) <= n < MonthStart(y, r + 1)
    decreases 12 - m
  {
    if m == 12 || n < MonthStart(y, m + 1) then m else MonthOf(n, y, m + 1)
  }

  /** What `getUTCFullYear`, `getUTCMonth` and `getUTCDate` read off a day. */
  function DateOf(n: int): (d: Date)
    ensures Valid(d) && DayNumber(d) == n
  {
    var y := YearOf(n, 1970);
    YearIsItsMonths(y);
    var m := MonthOf(n, y, 1);
    Date(y, m, n - MonthStart(y, m) + 1)
  }

  function AddCalendarDays(d: Date, days: int): Date
    requires 1 <= d.month <= 12
  {
    DateOf(UtcDay(d.year, d.month, d.day + days))
  }

  /** `getUTCDay`: the epoch was a Thursday. */
  function Weekday(n: int): nat {
    (n + 4) % 7
  }

  function MondayOfWeek(d: Date): Date
    requires 1 <= d.month <= 12
  {
    AddCalendarDays(d, -((Weekday(DayNumber(d)) + 6) % 7))
  }

  function LastDayOfMonth(d: Date): Date
    requires 1 <= d.month <= 12
  {
    DateOf(UtcDay(d.year, d.month + 1, 0))
  }

  /** An earlier month ends before a later one starts. */
  lemma {:induction false} YearsInOrder(y: int, z: int)
    requires y <= z
    ensures YearStart(y) + (if y < z then YearDays(y) else 0) <= YearStart(z)
    decreases z - y
  {
    if y < z {
      YearIsItsMonths(z - 1);
      YearsInOrder(y, z - 1);
    }
  }

  lemma {:induction false} MonthsInOrder(y: int, m: int, n: int)
    requires 1 <= m < n <= 13
    ensures MonthStart(y, m) + MonthDays(y, m) <= MonthStart(y, n)
    decreases n
  {
    if m < n - 1 { MonthsInOrder(y, m, n - 1); }
  }

  /** A valid date lies between the first and the last of a month exactly when it is in it. */
  lemma InMonthExactly(d: Date, y: int, m: int)
    requires Valid(d) && 1 <= m <= 12
    ensures UtcDay(y, m, 1) <= DayNumber(d) <= UtcDay(y, m + 1, 0) <==> d.year == y && d.month == m
  {
    YearIsItsMonths(y);
    YearIsItsMonths(d.year);
    if d.year < y {
      YearsInOrder(d.year, y);
    } else if d.year > y {
      YearsInOrder(y, d.year);
    }
    MonthStartInYear(y, m);
    MonthStartInYear(d.year, d.month);
    if d.year == y && d.month < m { MonthsInOrder(y, d.month, m); }
    if d.year == y && d.month > m { MonthsInOrder(y, m, d.month); }
  }

  lemma MonthStartInYear(y: int, m: int)
    requires 1 <= m <= 12
    ensures YearStart(y) <= MonthStart(y, m) && MonthStart(y, m + 1) <= MonthStart(y, 13)
  {
    if m > 1 { MonthsInOrder(y, 1, m); }
    if m < 12 { MonthsInOrder(y, m + 1, 13); }
  }

  /** A day number belongs to one date. */
  lemma DayNumberDetermines(a: Date, b: Date)
    requires Valid(a) && Valid(b) && DayNumber(a) == DayNumber(b)
    ensures a == b
  {
    InMonthExactly(a, b.year, b.month);
  }

  // ------------------------------------------------------------ periods

  datatype Period = Today | ThisWeek | ThisMonth

  datatype Bounds = Bounds(createdFrom: int, createdTo: int)

  /** The local date of an instant. */
  function LocalDate(offset: Zone, u: int): Date {
    DateOf(Shown(offset, u) / DAY)
  }

  function StartOfDay(offset: Zone, d: Date): int
    requires 1 <= d.month <= 12
  {
    LocalToUtc(offset, DAY * DayNumber(d))
  }

  /** 23:59:59 is inverted without its milliseconds, which are added afterwards. */
  function EndOfDay(offset: Zone, d: Date): int
    requires 1 <= d.month <= 12
  {
    LocalToUtc(offset, DAY * DayNumber(d) + DAY - SECOND) + 999
  }

  function FirstDate(period: Period, today: Date): Date
    requires 1 <= today.month <= 12
  {
    match period
    case Today => today
    case ThisWeek => MondayOfWeek(today)
    case ThisMonth => Date(today.year, today.month, 1)
  }

  function LastDate(period: Period, today: Date): Date
    requires 1 <= today.month <= 12
  {
    match period
    case Today => today
    case ThisWeek => AddCalendarDays(MondayOfWeek(today), 6)
    case ThisMonth => LastDayOfMonth(today)
  }

  /** `mapOrdersListPeriod` */
  function MapOrdersListPeriod(offset: Zone, period: Period, now: int): Bounds {
    var today := LocalDate(offset, now);
    Bounds(StartOfDay(offset, FirstDate(period, today)), EndOfDay(offset, LastDate(period, today)))
  }

  /** Two dates in one period of the kind. */
  predicate SamePeriod(period: Period, a: Date, b: Date)
    requires Valid(a) && Valid(b)
  {
    match period
    case Today => a == b
    case ThisWeek => MondayOfWeek(a) == MondayOfWeek(b)
    case ThisMonth => a.year == b.year && a.month == b.month
  }

  ghost predicate Bounded(offset: Zone, most: nat) {
    forall u :: 0 <= offset(u) <= most
  }

  /** The offset does not change between the boundary and the same reading of the UTC clock. */
  ghost predicate Clean(offset: Zone, boundary: int, most: nat) {
    forall u :: boundary - most - SECOND <= u <= boundary ==> offset(u) == offset(boundary)
  }

  /** A clean local boundary splits all instants by what their clock shows. */
  lemma BoundarySplits(offset: Zone, boundary: int, most: nat, t: int)
    requires Bounded(offset, most) && Clean(offset, boundary, most)
    ensures t >= LocalToUtc(offset, boundary) <==> Shown(offset, t) >= boundary
    ensures t <= LocalToUtc(offset, boundary - SECOND) + 999 <==> Shown(offset, t) < boundary
  {
    var s := boundary - offset(boundary);
    assert offset(s) == offset(boundary) && offset(boundary - SECOND) == offset(boundary);
    assert offset(s - SECOND) == offset(boundary);
    assert 0 <= offset(t) <= most;
  }

  lemma WeekDates(today: Date, d: Date)
    requires Valid(today) && Valid(d)
    ensures var x := DayNumber(MondayOfWeek(today));
      (x <= DayNumber(d) <= x + 6) <==> MondayOfWeek(today) == MondayOfWeek(d)
  {
    var a, b := DayNumber(today), DayNumber(d);
    var x, y := DayNumber(MondayOfWeek(today)), DayNumber(MondayOfWeek(d));
    WeekStarts(a);
    WeekStarts(b);
    assert x == a - (Weekday(a) + 6) % 7 && y == b - (Weekday(b) + 6) % 7;
    if x <= b <= x + 6 {
      WeeksDoNotOverlap(x, y, b);
      DayNumberDetermines(MondayOfWeek(today), MondayOfWeek(d));
    }
  }

  /** The first and the last date of a period are those of all its dates, and no others. */
  lemma PeriodDates(period: Period, today: Date, d: Date)
    requires Valid(today) && Valid(d)
    ensures 1 <= FirstDate(period, today).month <= 12 && 1 <= LastDate(period, today).month <= 12
    ensures DayNumber(FirstDate(period, today)) <= DayNumber(d) <= DayNumber(LastDate(period, today))
       <==> SamePeriod(period, today, d)
  {
    match period
    case Today => if DayNumber(d) == DayNumber(today) { DayNumberDetermines(d, today); }
    case ThisWeek => WeekDates(today, d);
    case ThisMonth => InMonthExactly(d, today.year, today.month);
  }

  /** The Monday of a week is a Monday, at most six days back. */
  lemma WeekStarts(n: int)
    ensures var x := n - (Weekday(n) + 6) % 7; Weekday(x) == 1 && x <= n <= x + 6
  {}

  lemma WeeksDoNotOverlap(x: int, y: int, n: int)
    requires Weekday(x) == 1 && Weekday(y) == 1 && x <= n <= x + 6 && y <= n <= y + 6
    ensures x == y
  {}

  /** The bounds hold exactly the instants whose local date is in the period of the local date of
      `now`, whatever the offset does elsewhere. */
  lemma PeriodHoldsExactly(offset: Zone, most: nat, period: Period, now: int, t: int)
    requires Bounded(offset, most)
    requires var today := LocalDate(offset, now);
      && Clean(offset, DAY * DayNumber(FirstDate(period, today)), most)
      && Clean(offset, DAY * DayNumber(LastDate(period, today)) + DAY, most)
    ensures var bounds := MapOrdersListPeriod(offset, period, now);
      (bounds.createdFrom <= t <= bounds.createdTo)
      <==> SamePeriod(period, LocalDate(offset, now), LocalDate(offset, t))
  {
    var today := LocalDate(offset, now);
    var first, last := DayNumber(FirstDate(period, today)), DayNumber(LastDate(period, today));
    BoundarySplits(offset, DAY * first, most, t);
    BoundarySplits(offset, DAY * last + DAY, most, t);
    assert Shown(offset, t) >= DAY * first <==> Shown(offset, t) / DAY >= first;
    assert Shown(offset, t) < DAY * last + DAY <==> Shown(offset, t) / DAY <= last;
    PeriodDates(period, today, LocalDate(offset, t));
  }

  /** In particular `now` is always inside. */
  lemma NowIsInside(offset: Zone, most: nat, period: Period, now: int)
    requires Bounded(offset, most)
    requires var today := LocalDate(offset, now);
      && Clean(offset, DAY * DayNumber(FirstDate(period, today)), most)
      && Clean(offset, DAY * DayNumber(LastDate(period, today)) + DAY, most)
    ensures var bounds := MapOrdersListPeriod(offset, period, now); bounds.createdFrom <= now <= bounds.createdTo
  {
    PeriodHoldsExactly(offset, most, period, now, now);
  }

  lemma StartsInOrder(offset: Zone, most: nat, first: int, n: int)
    requires Bounded(offset, most) && first <= n && Clean(offset, DAY * first, most) && Clean(offset, DAY * n, most)
    ensures LocalToUtc(offset, DAY * first) <= LocalToUtc(offset, DAY * n)
  {
    BoundarySplits(offset, DAY * n, most, LocalToUtc(offset, DAY * n));
    BoundarySplits(offset, DAY * first, most, LocalToUtc(offset, DAY * n));
  }

  lemma EndsInOrder(offset: Zone, most: nat, n: int, last: int)
    requires Bounded(offset, most) && n <= last
    requires Clean(offset, DAY * n + DAY, most) && Clean(offset, DAY * last + DAY, most)
    ensures LocalToUtc(offset, DAY * n + DAY - SECOND) + 999 <= LocalToUtc(offset, DAY * last + DAY - SECOND) + 999
  {
    BoundarySplits(offset, DAY * n + DAY, most, LocalToUtc(offset, DAY * n + DAY - SECOND) + 999);
    BoundarySplits(offset, DAY * last + DAY, most, LocalToUtc(offset, DAY * n + DAY - SECOND) + 999);
  }

  /** The boundaries of the days from the `first` to the `last` are clean. */
  ghost predicate CleanDays(offset: Zone, most: nat, first: int, last: int) {
    Clean(offset, DAY * first, most) && Clean(offset, DAY * last + DAY, most)
  }

  lemma TodayInPeriod(period: Period, today: Date)
    requires Valid(today)
    ensures 1 <= FirstDate(period, today).month <= 12 && 1 <= LastDate(period, today).month <= 12
    ensures DayNumber(FirstDate(period, today)) <= DayNumber(today) <= DayNumber(LastDate(period, today))
  {
    PeriodDates(period, today, today);
  }

  lemma DaysInOrder(offset: Zone, most: nat, today: Date, first: Date, last: Date)
    requires 1 <= today.month <= 12 && 1 <= first.month <= 12 && 1 <= last.month <= 12 && Bounded(offset, most)
    requires DayNumber(first) <= DayNumber(today) <= DayNumber(last)
    requires CleanDays(offset, most, DayNumber(today), DayNumber(today))
    requires CleanDays(offset, most, DayNumber(first), DayNumber(last))
    ensures StartOfDay(offset, first) <= StartOfDay(offset, today) && EndOfDay(offset, today) <= EndOfDay(offset, last)
  {
    StartsInOrder(offset, most, DayNumber(first), DayNumber(today));
    EndsInOrder(offset, most, DayNumber(today), DayNumber(last));
  }

  /** The bounds of today lie within those of this week and of this month. */
  lemma TodayIsInside(offset: Zone, most: nat, period: Period, now: int)
    requires Bounded(offset, most)
    requires var today := LocalDate(offset, now);
      && CleanDays(offset, most, DayNumber(today), DayNumber(today))
      && CleanDays(offset, most, DayNumber(FirstDate(period, today)), DayNumber(LastDate(period, today)))
    ensures var inner, outer := MapOrdersListPeriod(offset, Today, now), MapOrdersListPeriod(offset, period, now);
      outer.createdFrom <= inner.createdFrom && inner.createdTo <= outer.createdTo
  {
    var today := LocalDate(offset, now);
    TodayInPeriod(period, today);
    DaysInOrder(offset, most, today, FirstDate(period, today), LastDate(period, today));
  }
}
