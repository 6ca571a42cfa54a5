/**
  The business-hours clock (apps/api/src/lib/business-hours.ts).

  Times are local wall-clock times. The specification counts whole minutes, so a minute
  `t` is `day * 1440 + minuteOfDay`; the program's loop works on milliseconds, because a
  start inside a minute is treated differently before and after a jump to another
 window. */
module BusinessHours {

  const MINUTES_PER_DAY := 1440
  const MS_PER_MINUTE := 60_000
  const MAX_DAY_ADVANCES := 400

  /** `holidays` holds day numbers: a date key names exactly one local day. */
  datatype Config = Config(workingDays: seq<int>, startMinute: int, endMinute: int, holidays: set<int>)

  /** What the route schema and the run-time guard together accept. */
  predicate ValidConfig(c: Config) {
    |c.workingDays| > 0 && 0 <= c.startMinute < c.endMinute <= MINUTES_PER_DAY
  }

  /** The two local getters the program reads a date through. */
  datatype LocalTime = LocalTime(day: int, minute: int)

  function Index(at: LocalTime): int { at.day * MINUTES_PER_DAY + at.minute }

  function Local(t: int): (at: LocalTime)
    ensures Index(at) == t && 0 <= at.minute < MINUTES_PER_DAY
  {
    LocalTime(t / MINUTES_PER_DAY, t % MINUTES_PER_DAY)
  }

  /** Day 0 is 1970-01-01, a Thursday; 0 is Sunday. */
  function Weekday(day: int): int { (day + 4) % 7 }

  predicate WorkingDay(c: Config, day: int) {
    Weekday(day) in c.workingDays && day !in c.holidays
  }

  predicate OnWindow(c: Config, at: LocalTime) {
    WorkingDay(c, at.day) && c.startMinute <= at.minute < c.endMinute
  }

  predicate IsWithinBusinessHours(c: Config, t: int) { OnWindow(c, Local(t)) }

  /** A day and a minute name one index. */
  lemma {:induction false} LocalOf(at: LocalTime, t: int)
    requires 0 <= at.minute < MINUTES_PER_DAY && Index(at) == t
    ensures Local(t) == at
  {
  }

  // ------------------------------------------------------------------ reference clock

  /** The minute-by-minute counter: working minutes in `[a, b)`. */
  ghost function Count(c: Config, a: int, b: int): (n: nat)
    ensures b <= a ==> n == 0
    decreases b - a
  {
    if b <= a then 0
    else Count(c, a, b - 1) + if IsWithinBusinessHours(c, b - 1) then 1 else 0
  }

  /** By `t`, `n` working minutes have passed since `from`. */
  ghost predicate Passed(c: Config, from: int, n: int, t: int) { Count(c, from, t) >= n }

  /** `t` is the least such time. */
  ghost predicate Earliest(c: Config, from: int, n: int, t: int) {
    && from <= t
    && Passed(c, from, n, t)
    && forall u :: from <= u < t ==> !Passed(c, from, n, u)
  }

  ghost predicate Idle(c: Config, a: int, b: int) {
    forall u :: a <= u < b ==> !IsWithinBusinessHours(c, u)
  }

  /** `t` is the least working minute at or after `from`. */
  ghost predicate NextWorking(c: Config, from: int, t: int) {
    from <= t && IsWithinBusinessHours(c, t) && Idle(c, from, t)
  }

  lemma {:induction false} CountSplit(c: Config, a: int, m: int, b: int)
    requires a <= m <= b
    ensures Count(c, a, b) == Count(c, a, m) + Count(c, m, b)
    decreases b - m
  {
    if m < b { CountSplit(c, a, m, b - 1); }
  }

  lemma {:induction false} CountIdle(c: Config, a: int, b: int)
    requires Idle(c, a, b)
    ensures Count(c, a, b) == 0
    decreases b - a
  {
    if a < b { CountIdle(c, a, b - 1); }
  }

  lemma {:induction false} CountFull(c: Config, a: int, b: int)
    requires a <= b
    requires forall u :: a <= u < b ==> IsWithinBusinessHours(c, u)
    ensures Count(c, a, b) == b - a
    decreases b - a
  {
    if a < b { CountFull(c, a, b - 1); }
  }

  /** A count that reaches `n` at the end of a working minute has just reached it. */
  lemma {:induction false} EarliestBy(c: Config, from: int, n: int, t: int)
    requires from < t && IsWithinBusinessHours(c, t - 1) && Count(c, from, t) == n
    ensures Earliest(c, from, n, t)
  {
    forall u | from <= u < t ensures !Passed(c, from, n, u) {
      CountSplit(c, from, u, t - 1);
    }
  }

  lemma {:induction false} EarliestMeans(c: Config, from: int, n: int, t: int)
    requires n > 0 && Earliest(c, from, n, t)
    ensures from < t && IsWithinBusinessHours(c, t - 1) && Count(c, from, t) == n
  {
    assert from < t ==> !Passed(c, from, n, t - 1);
  }

  // ------------------------------------------------------------------ days and windows

  lemma {:induction false} MinutesOfWindow(c: Config, day: int, from: int, to: int)
    requires ValidConfig(c) && WorkingDay(c, day) && c.startMinute <= from <= to <= c.endMinute
    ensures forall u :: Index(LocalTime(day, from)) <= u < Index(LocalTime(day, to)) ==> IsWithinBusinessHours(c, u)
    ensures Count(c, Index(LocalTime(day, from)), Index(LocalTime(day, to))) == to - from
  {
    var base := day * MINUTES_PER_DAY;
    forall u | base + from <= u < base + to ensures IsWithinBusinessHours(c, u) {
      LocalOf(LocalTime(day, u - base), u);
    }
    CountFull(c, base + from, base + to);
  }

  /** After the window of a day, or all through a day off, nothing counts until the next opening time. */
  lemma {:induction false} IdleUntilNextStart(c: Config, at: LocalTime)
    requires ValidConfig(c) && 0 <= at.minute <= MINUTES_PER_DAY
    requires !WorkingDay(c, at.day) || at.minute >= c.endMinute
    ensures Idle(c, Index(at), Index(LocalTime(at.day + 1, c.startMinute)))
  {
    var base := at.day * MINUTES_PER_DAY;
    forall u | Index(at) <= u < base + MINUTES_PER_DAY + c.startMinute ensures !IsWithinBusinessHours(c, u) {
      if u < base + MINUTES_PER_DAY { LocalOf(LocalTime(at.day, u - base), u); }
      else { LocalOf(LocalTime(at.day + 1, u - base - MINUTES_PER_DAY), u); }
    }
  }

  lemma {:induction false} IdleBeforeStart(c: Config, at: LocalTime)
    requires ValidConfig(c) && 0 <= at.minute < c.startMinute
    ensures Idle(c, Index(at), Index(LocalTime(at.day, c.startMinute)))
  {
    forall u | Index(at) <= u < Index(LocalTime(at.day, c.startMinute)) ensures !IsWithinBusinessHours(c, u) {
      LocalOf(LocalTime(at.day, u - at.day * MINUTES_PER_DAY), u);
    }
  }

  /** The rest of today's window, then idle time up to a later opening. */
  lemma {:induction false} CountToNextWindow(c: Config, at: LocalTime, next: int)
    requires ValidConfig(c) && OnWindow(c, at)
    requires Index(LocalTime(at.day + 1, c.startMinute)) <= next
    requires Idle(c, Index(LocalTime(at.day + 1, c.startMinute)), next)
    ensures Count(c, Index(at), next) == c.endMinute - at.minute
  {
    var close := LocalTime(at.day, c.endMinute);
    MinutesOfWindow(c, at.day, at.minute, c.endMinute);
    IdleUntilNextStart(c, close);
    CountIdle(c, Index(close), next);
    CountSplit(c, Index(at), Index(close), next);
  }

  // ------------------------------------------------------------------ the program's loops

  function NextDayStart(c: Config, at: LocalTime): LocalTime { LocalTime(at.day + 1, c.startMinute) }

  /** Where the cursor and the day counter stand when the first loop stops. */
  function Snap(c: Config, at: LocalTime, advances: nat): (LocalTime, nat)
    decreases MAX_DAY_ADVANCES - advances
  {
    if (!WorkingDay(c, at.day) || at.minute >= c.endMinute) && advances < MAX_DAY_ADVANCES
    then Snap(c, NextDayStart(c, at), advances + 1)
    else (at, advances)
  }

  function ToStart(c: Config, at: LocalTime): LocalTime {
    if at.minute < c.startMinute then LocalTime(at.day, c.startMinute) else at
  }

  function SkipDays(c: Config, at: LocalTime, advances: nat): (r: (LocalTime, nat))
    ensures advances <= r.1
    decreases MAX_DAY_ADVANCES - advances
  {
    if !WorkingDay(c, at.day) && advances < MAX_DAY_ADVANCES
    then SkipDays(c, NextDayStart(c, at), advances + 1)
    else (at, advances)
  }

  /** Final cursor and minutes still owed when the second loop stops. */
  function Countdown(c: Config, at: LocalTime, remaining: int, advances: nat): (int, int)
    decreases MAX_DAY_ADVANCES - advances
  {
    if remaining <= 0 || advances >= MAX_DAY_ADVANCES then (Index(at), remaining)
    else if remaining <= c.endMinute - at.minute then (Index(at) + remaining, 0)
    else
      var next := SkipDays(c, NextDayStart(c, at), advances + 1);
      Countdown(c, next.0, remaining - (c.endMinute - at.minute), next.1)
  }

  function Outcome(c: Config, from: int, n: int): (int, int) {
    var s := Snap(c, Local(from), 0);
    Countdown(c, ToStart(c, s.0), n, s.1)
  }

  function Add(c: Config, from: int, n: int): int { Outcome(c, from, n).0 }

  /** The circuit breaker cut the count short: minutes are still owed. */
  predicate Tripped(c: Config, from: int, n: int) { Outcome(c, from, n).1 > 0 }

  /** Midnight after the last of the 400 calendar days the clock may look at. */
  function Horizon(from: int): int { (Local(from).day + MAX_DAY_ADVANCES) * MINUTES_PER_DAY }

  // ------------------------------------------------------------------ each loop against the reference

  lemma {:induction false} SnapLands(c: Config, at: LocalTime, advances: nat)
    requires ValidConfig(c) && 0 <= at.minute < MINUTES_PER_DAY && advances <= MAX_DAY_ADVANCES
    ensures var s := Snap(c, at, advances);
            var start := ToStart(c, s.0);
            && advances <= s.1 <= MAX_DAY_ADVANCES
            && start.day - at.day == s.1 - advances
            && Idle(c, Index(at), Index(start))
            && Index(at) <= Index(start)
            && (s.1 < MAX_DAY_ADVANCES ==> OnWindow(c, start))
            && (advances < s.1 ==> start.minute == c.startMinute)
    decreases MAX_DAY_ADVANCES - advances
  {
    if (!WorkingDay(c, at.day) || at.minute >= c.endMinute) && advances < MAX_DAY_ADVANCES {
      IdleUntilNextStart(c, at);
      SnapLands(c, NextDayStart(c, at), advances + 1);
    } else if at.minute < c.startMinute {
      IdleBeforeStart(c, at);
    }
  }

  lemma {:induction false} SkipDaysLands(c: Config, at: LocalTime, advances: nat)
    requires ValidConfig(c) && advances <= MAX_DAY_ADVANCES && at.minute == c.startMinute
    ensures var s := SkipDays(c, at, advances);
            && advances <= s.1 <= MAX_DAY_ADVANCES
            && s.0.minute == c.startMinute
            && s.0.day - at.day == s.1 - advances
            && Idle(c, Index(at), Index(s.0))
            && (s.1 < MAX_DAY_ADVANCES ==> WorkingDay(c, s.0.day))
    decreases MAX_DAY_ADVANCES - advances
  {
    if !WorkingDay(c, at.day) && advances < MAX_DAY_ADVANCES {
      IdleUntilNextStart(c, at);
      SkipDaysLands(c, NextDayStart(c, at), advances + 1);
    }
  }

  /** Midnight before opening time on the day the breaker lands on. */
  function HorizonFrom(at: LocalTime, advances: int): int {
    (at.day + MAX_DAY_ADVANCES - advances) * MINUTES_PER_DAY
  }

  ghost predicate CountdownMeets(c: Config, at: LocalTime, remaining: int, advances: nat) {
    var horizon := HorizonFrom(at, advances);
    var r := Countdown(c, at, remaining, advances);
    && r.1 >= 0
    && (r.1 == 0 <==> Count(c, Index(at), horizon) >= remaining)
    && (r.1 == 0 ==>
         Index(at) < r.0 <= horizon && IsWithinBusinessHours(c, r.0 - 1) && Count(c, Index(at), r.0) == remaining)
    && (r.1 > 0 ==> r.0 == horizon + c.startMinute)
  }

  lemma {:induction false} CountdownCounts(c: Config, at: LocalTime, remaining: int, advances: nat)
    requires ValidConfig(c) && remaining > 0 && advances <= MAX_DAY_ADVANCES
    requires advances < MAX_DAY_ADVANCES ==> OnWindow(c, at)
    requires advances == MAX_DAY_ADVANCES ==> at.minute == c.startMinute
    ensures CountdownMeets(c, at, remaining, advances)
    decreases MAX_DAY_ADVANCES - advances
  {
    var horizon := HorizonFrom(at, advances);
    var available := c.endMinute - at.minute;
    if advances == MAX_DAY_ADVANCES {
    } else if remaining <= available {
      var stop := LocalTime(at.day, at.minute + remaining);
      MinutesOfWindow(c, at.day, at.minute, stop.minute);
      CountSplit(c, Index(at), Index(stop), horizon);
    } else {
      var tomorrow := NextDayStart(c, at);
      SkipDaysLands(c, tomorrow, advances + 1);
      var next := SkipDays(c, tomorrow, advances + 1);
      CountToNextWindow(c, at, Index(next.0));
      CountdownCounts(c, next.0, remaining - available, next.1);
      CountdownSteps(c, at, next.0, remaining, advances, next.1);
    }
  }

  /** One day of the second loop: what is left is counted from the next window. */
  lemma {:induction false} CountdownSteps(c: Config, at: LocalTime, next: LocalTime, remaining: int, advances: nat,
                                          advances': nat)
    requires ValidConfig(c) && OnWindow(c, at)
    requires advances < MAX_DAY_ADVANCES && remaining > c.endMinute - at.minute
    requires (next, advances') == SkipDays(c, NextDayStart(c, at), advances + 1)
    requires next.day - at.day == advances' - advances > 0 && advances' <= MAX_DAY_ADVANCES
    requires next.minute == c.startMinute
    requires Count(c, Index(at), Index(next)) == c.endMinute - at.minute
    requires CountdownMeets(c, next, remaining - (c.endMinute - at.minute), advances')
    ensures CountdownMeets(c, at, remaining, advances)
  {
    var horizon := HorizonFrom(at, advances);
    assert horizon == HorizonFrom(next, advances');
    var r := Countdown(c, next, remaining - (c.endMinute - at.minute), advances');
    assert r == Countdown(c, at, remaining, advances);
    if r.1 == 0 { CountSplit(c, Index(at), Index(next), r.0); }
    if Index(next) <= horizon { CountSplit(c, Index(at), Index(next), horizon); }
    else { CountSplit(c, Index(at), horizon, Index(next)); }
  }

  // ------------------------------------------------------------------ what the clock computes

  /** Refinement: with no trip, the skipping loops stop exactly where the minute-by-minute counter does;
      and they trip exactly when the 400 calendar days hold fewer working minutes than asked for. */
  lemma {:induction false} AddIsEarliest(c: Config, from: int, n: int)
    requires ValidConfig(c) && n > 0
    ensures Tripped(c, from, n) <==> Count(c, from, Horizon(from)) < n
    ensures !Tripped(c, from, n) ==> Earliest(c, from, n, Add(c, from, n)) && Add(c, from, n) <= Horizon(from)
    ensures Tripped(c, from, n) ==> Add(c, from, n) == Horizon(from) + c.startMinute
  {
    SnapLands(c, Local(from), 0);
    var s := Snap(c, Local(from), 0);
    var start := ToStart(c, s.0);
    CountdownCounts(c, start, n, s.1);
    assert HorizonFrom(start, s.1) == Horizon(from);
    var r := Add(c, from, n);
    if Index(start) <= Horizon(from) {
      CountFromStart(c, from, Index(start), Horizon(from));
    } else {
      CountIdle(c, from, Horizon(from));
    }
    if !Tripped(c, from, n) {
      CountFromStart(c, from, Index(start), r);
      EarliestBy(c, from, n, r);
    }
  }

  lemma {:induction false} CountFromStart(c: Config, from: int, start: int, t: int)
    requires from <= start <= t && Idle(c, from, start)
    ensures Count(c, from, t) == Count(c, start, t)
  {
    CountIdle(c, from, start);
    CountSplit(c, from, start, t);
  }

  /** With nothing to count, the clock moves to the next working minute, if the 400 days hold one. */
  lemma {:induction false} AddNothingSnaps(c: Config, from: int, n: int)
    requires ValidConfig(c) && n <= 0
    ensures !Tripped(c, from, n)
    ensures Count(c, from, Horizon(from)) > 0
            ==> NextWorking(c, from, Add(c, from, n)) && Add(c, from, n) < Horizon(from)
    ensures Count(c, from, Horizon(from)) == 0 ==> Add(c, from, n) == Horizon(from) + c.startMinute
  {
    SnapLands(c, Local(from), 0);
    var s := Snap(c, Local(from), 0);
    var start := ToStart(c, s.0);
    if s.1 == MAX_DAY_ADVANCES {
      CountIdle(c, from, Horizon(from));
    } else {
      LocalOf(start, Index(start));
      CountFromStart(c, from, Index(start), Horizon(from));
      CountSplit(c, Index(start), Index(start) + 1, Horizon(from));
    }
  }
}
