/**
  Laws of the business-hours clock, derived from what `Add` computes (`AddIsEarliest`,
  `AddNothingSnaps`) and never from how it is
 computed. */
module BusinessHoursLaws {
  import opened BusinessHours

  /** Everything there is to know about a call that may look at the days before midnight of day `limit`. */
  ghost predicate Answers(c: Config, from: int, n: int, limit: int, t: int) {
    var horizon := limit * MINUTES_PER_DAY;
    var total := Count(c, from, horizon);
    && from <= t && from <= horizon && Local(from).day + MAX_DAY_ADVANCES == limit
    && (n > 0 && total >= n ==> t <= horizon && Count(c, from, t) == n && from < t && IsWithinBusinessHours(c, t - 1))
    && (n <= 0 && total > 0 ==> t < horizon && Count(c, from, t) == 0 && IsWithinBusinessHours(c, t))
    && (total < (if n > 0 then n else 1) ==> t == horizon + c.startMinute)
  }

  function Limit(from: int): int { Local(from).day + MAX_DAY_ADVANCES }

  lemma {:induction false} AddAnswers(c: Config, from: int, n: int)
    requires ValidConfig(c)
    ensures Answers(c, from, n, Limit(from), Add(c, from, n))
    ensures Tripped(c, from, n) <==> n > 0 && Count(c, from, Limit(from) * MINUTES_PER_DAY) < n
  {
    if n > 0 {
      AddIsEarliest(c, from, n);
      if !Tripped(c, from, n) { EarliestMeans(c, from, n, Add(c, from, n)); }
    } else {
      AddNothingSnaps(c, from, n);
      if Count(c, from, Horizon(from)) > 0 { CountIdle(c, from, Add(c, from, n)); }
    }
  }

  lemma {:induction false} CountMonotone(c: Config, from: int, t: int, t': int)
    requires t <= t'
    ensures Count(c, from, t) <= Count(c, from, t')
  {
    if from <= t { CountSplit(c, from, t, t'); }
  }

  /** A working minute on or after a day is not before that day's opening. */
  lemma {:induction false} WorkingMinuteIsAfterOpening(c: Config, day: int, t: int)
    requires ValidConfig(c) && IsWithinBusinessHours(c, t) && day * MINUTES_PER_DAY <= t
    ensures day * MINUTES_PER_DAY + c.startMinute <= t
  {
    assert Local(t).day >= day;
  }

  lemma {:induction false} AnswersMonotoneInMinutes(c: Config, from: int, n: int, n': int, limit: int, t: int, t': int)
    requires ValidConfig(c) && n <= n' && Answers(c, from, n, limit, t) && Answers(c, from, n', limit, t')
    ensures t <= t'
    ensures n < n' && n' > 0 && Count(c, from, limit * MINUTES_PER_DAY) >= n' ==> t < t'
  {
    if t' < t { CountMonotone(c, from, t', t - 1); CountMonotone(c, from, t' + 1, t); }
    if t < t' { CountMonotone(c, from, t + 1, t'); }
  }

  lemma {:induction false} AnswersMonotoneInStart(c: Config, from: int, from': int, n: int, limit: int, limit': int,
      t: int, t': int)
    requires ValidConfig(c) && from <= from' && Answers(c, from, n, limit, t) && Answers(c, from', n, limit', t')
    ensures t <= t'
  {
    var horizon := limit * MINUTES_PER_DAY;
    var n1 := if n > 0 then n else 1;
    var end, end' := if n > 0 then t else t + 1, if n > 0 then t' else t' + 1;
    if Count(c, from', limit' * MINUTES_PER_DAY) >= n1 {
      CountSplit(c, from, from', end');
      assert Count(c, from, end') >= n1;
      if Count(c, from, horizon) >= n1 {
        if end' < end { CountMonotone(c, from, end', end - 1); }
      } else {
        if end' <= horizon { CountMonotone(c, from, end', horizon); }
        WorkingMinuteIsAfterOpening(c, limit, end' - 1);
      }
    }
  }

  /** The breaker bounds every answer: it lies on one of the 400 days after the start, at opening time at the latest. */
  lemma {:induction false} NeverBeyond400Days(c: Config, from: int, n: int)
    requires ValidConfig(c)
    ensures from <= Add(c, from, n) <= (Local(from).day + 400) * 1440 + c.startMinute
  {
    AddAnswers(c, from, n);
  }

  lemma {:induction false} AddMonotoneInMinutes(c: Config, from: int, n: int, n': int)
    requires ValidConfig(c) && n <= n'
    ensures Add(c, from, n) <= Add(c, from, n')
  {
    AddAnswers(c, from, n);
    AddAnswers(c, from, n');
    AnswersMonotoneInMinutes(c, from, n, n', Limit(from), Add(c, from, n), Add(c, from, n'));
  }

  lemma {:induction false} AddMonotoneInStart(c: Config, from: int, from': int, n: int)
    requires ValidConfig(c) && from <= from'
    ensures Add(c, from, n) <= Add(c, from', n)
  {
    AddAnswers(c, from, n);
    AddAnswers(c, from', n);
    AnswersMonotoneInStart(c, from, from', n, Limit(from), Limit(from'), Add(c, from, n), Add(c, from', n));
  }

  // ------------------------------------------------------------------ additivity

  lemma {:induction false} LaterLimit(from: int, t: int)
    requires from <= t
    ensures Limit(from) <= Limit(t) && Limit(from) * MINUTES_PER_DAY <= Limit(t) * MINUTES_PER_DAY
  {
  }

  /** Two working minutes by whose ends the same number has passed are one. */
  lemma {:induction false} SameCountSameEnd(c: Config, from: int, u: int, v: int)
    requires from < u && from < v && Count(c, from, u) == Count(c, from, v)
    requires IsWithinBusinessHours(c, u - 1) && IsWithinBusinessHours(c, v - 1)
    ensures u == v
  {
    if u < v { CountMonotone(c, from, u, v - 1); }
    if v < u { CountMonotone(c, from, v, u - 1); }
  }

  lemma {:induction false} AnswersAdditive(c: Config, from: int, a: nat, b: int, limit: int, limit': int, t: int,
                                           u: int, v: int)
    requires ValidConfig(c) && b > 0
    requires Answers(c, from, a, limit, t) && Answers(c, t, b, limit', u) && Answers(c, from, a + b, limit, v)
    requires Count(c, from, limit * MINUTES_PER_DAY) >= a + b
    ensures u == v
  {
    var horizon := limit * MINUTES_PER_DAY;
    assert t <= horizon && Count(c, from, t) == a;
    CountSplit(c, from, t, horizon);
    LaterLimit(from, t);
    CountMonotone(c, t, horizon, limit' * MINUTES_PER_DAY);
    assert Count(c, t, u) == b && IsWithinBusinessHours(c, u - 1);
    CountSplit(c, from, t, u);
    SameCountSameEnd(c, from, u, v);
  }

  lemma {:induction false} AnswersDrift(c: Config, from: int, a: nat, b: int, limit: int, limit': int, t: int, u: int)
    requires ValidConfig(c) && b > 0
    requires Answers(c, from, a, limit, t) && Answers(c, t, b, limit', u)
    requires Count(c, from, limit * MINUTES_PER_DAY) < a + b
    ensures u == limit * MINUTES_PER_DAY + c.startMinute <==> limit' == limit
  {
    var horizon := limit * MINUTES_PER_DAY;
    if t <= horizon { CountSplit(c, from, t, horizon); }
    if limit' > limit && u <= horizon + c.startMinute {
      if u <= horizon { CountMonotone(c, t, u, horizon); }
      else { WorkingMinuteIsAfterOpening(c, limit, u - 1); }
    }
  }

  /** `a` minutes fit into what is left of today's window, and do not end at midnight. */
  predicate EndsToday(c: Config, from: int, a: int) {
    var at := Local(from);
    var open := if at.minute < c.startMinute then c.startMinute else at.minute;
    WorkingDay(c, at.day) && at.minute < c.endMinute && a <= c.endMinute - open && open + a < MINUTES_PER_DAY
  }

  /** Minutes worked between two moments of one day whose window is open until the second. */
  lemma {:induction false} CountWithinDay(c: Config, from: int, t: int)
    requires ValidConfig(c) && from < t && IsWithinBusinessHours(c, t - 1) && Local(t - 1).day == Local(from).day
    ensures var at := Local(from);
            var open := if at.minute < c.startMinute then c.startMinute else at.minute;
            Count(c, from, t) == Local(t - 1).minute + 1 - open
  {
    var at, last := Local(from), Local(t - 1);
    var open := if at.minute < c.startMinute then c.startMinute else at.minute;
    var start := Index(LocalTime(at.day, open));
    if at.minute < c.startMinute { IdleBeforeStart(c, at); CountIdle(c, from, start); }
    MinutesOfWindow(c, at.day, open, last.minute + 1);
    CountSplit(c, from, start, t);
  }

  lemma {:induction false} DaysInOrder(from: int, t: int)
    requires from <= t
    ensures Local(from).day <= Local(t).day
  {
  }

  lemma {:induction false} EndsTodayAt(c: Config, from: int, a: nat)
    requires ValidConfig(c) && EndsToday(c, from, a)
    ensures Local(Add(c, from, a)).day == Local(from).day
  {
    var at := Local(from);
    var open := if at.minute < c.startMinute then c.startMinute else at.minute;
    assert Snap(c, at, 0) == (at, 0) && ToStart(c, at) == LocalTime(at.day, open);
    assert Add(c, from, a) == Index(LocalTime(at.day, open + a));
    LocalOf(LocalTime(at.day, open + a), Add(c, from, a));
  }

  /** The clock stays on the starting day exactly when the minutes fit into today's window and end before midnight. */
  lemma {:induction false} StaysOnDayIff(c: Config, from: int, a: nat)
    requires ValidConfig(c)
    ensures Local(Add(c, from, a)).day == Local(from).day <==> EndsToday(c, from, a)
  {
    if EndsToday(c, from, a) {
      EndsTodayAt(c, from, a);
    } else {
      var t := Add(c, from, a);
      AddAnswers(c, from, a);
      DaysInOrder(from, t);
      if t == Limit(from) * MINUTES_PER_DAY + c.startMinute { LocalOf(LocalTime(Limit(from), c.startMinute), t); }
      else if a > 0 && Local(t).day == Local(from).day { WorkedToday(c, from, a, t); }
    }
  }

  lemma {:induction false} WorkedToday(c: Config, from: int, a: nat, t: int)
    requires ValidConfig(c) && a > 0 && from < t && Local(t).day == Local(from).day
    requires IsWithinBusinessHours(c, t - 1) && Count(c, from, t) == a
    ensures EndsToday(c, from, a)
  {
    DaysInOrder(from, t - 1);
    DaysInOrder(t - 1, t);
    CountWithinDay(c, from, t);
  }

  /** Adding in two steps is adding at once, unless the sum trips the breaker and the first step does not fit into the
      starting day: then the second step looks at 400 days of its own and goes further. Both directions. */
  lemma {:induction false} AddAdditive(c: Config, from: int, a: nat, b: int)
    requires ValidConfig(c) && b > 0
    ensures Add(c, Add(c, from, a), b) == Add(c, from, a + b)
            <==> (!Tripped(c, from, a + b) || EndsToday(c, from, a))
  {
    StaysOnDayIff(c, from, a);
    var t := Add(c, from, a);
    var limit, limit' := Limit(from), Limit(t);
    AddAnswers(c, from, a);
    AddAnswers(c, from, a + b);
    AddAnswers(c, t, b);
    if Tripped(c, from, a + b) { AnswersDrift(c, from, a, b, limit, limit', t, Add(c, t, b)); }
    else { AnswersAdditive(c, from, a, b, limit, limit', t, Add(c, t, b), Add(c, from, a + b)); }
  }

  lemma {:induction false} CountAtMost(c: Config, a: int, b: int)
    requires a <= b
    ensures Count(c, a, b) <= b - a
    decreases b - a
  {
    if a < b { CountAtMost(c, a, b - 1); }
  }

  /** A clock that never stops, seven days a week. */
  const ROUND_THE_CLOCK := Config([0, 1, 2, 3, 4, 5, 6], 0, MINUTES_PER_DAY, {})

  /** 400 days after one day: the sum trips 400 days from the start, the two steps go a day further. */
  lemma {:induction false} TwoStepsGoFurther()
    ensures Add(ROUND_THE_CLOCK, Add(ROUND_THE_CLOCK, 0, MINUTES_PER_DAY), MAX_DAY_ADVANCES * MINUTES_PER_DAY)
            != Add(ROUND_THE_CLOCK, 0, MINUTES_PER_DAY + MAX_DAY_ADVANCES * MINUTES_PER_DAY)
  {
    var c, a, b := ROUND_THE_CLOCK, MINUTES_PER_DAY, MAX_DAY_ADVANCES * MINUTES_PER_DAY;
    LocalOf(LocalTime(0, 0), 0);
    CountAtMost(c, 0, b);
    AddAnswers(c, 0, a + b);
    AddAdditive(c, 0, a, b);
  }

  // ------------------------------------------------------------------ how far the breaker reaches

  ghost predicate WorkInWeek(c: Config, day: int) {
    exists d :: day <= d < day + 7 && WorkingDay(c, d)
  }

  lemma {:induction false} WeekHoldsWindow(c: Config, day: int)
    requires ValidConfig(c) && WorkInWeek(c, day)
    ensures Count(c, day * MINUTES_PER_DAY, (day + 7) * MINUTES_PER_DAY) >= c.endMinute - c.startMinute
  {
    var d :| day <= d < day + 7 && WorkingDay(c, d);
    var open, close := Index(LocalTime(d, c.startMinute)), Index(LocalTime(d, c.endMinute));
    var end := (day + 7) * MINUTES_PER_DAY;
    MinutesOfWindow(c, d, c.startMinute, c.endMinute);
    CountSplit(c, day * MINUTES_PER_DAY, open, end);
    CountSplit(c, open, close, end);
  }

  lemma {:induction false} WeeksHoldWindows(c: Config, day: int, weeks: nat)
    requires ValidConfig(c)
    requires forall d :: day <= d <= day + 7 * (weeks - 1) ==> WorkInWeek(c, d)
    ensures Count(c, day * MINUTES_PER_DAY, (day + 7 * weeks) * MINUTES_PER_DAY)
            >= weeks * (c.endMinute - c.startMinute)
    decreases weeks
  {
    if weeks > 0 {
      WeeksHoldWindows(c, day, weeks - 1);
      var last := day + 7 * (weeks - 1);
      assert WorkInWeek(c, last);
      WeekHoldsWindow(c, last);
      CountSplit(c, day * MINUTES_PER_DAY, last * MINUTES_PER_DAY, (last + 7) * MINUTES_PER_DAY);
      assert weeks * (c.endMinute - c.startMinute)
          == (weeks - 1) * (c.endMinute - c.startMinute) + (c.endMinute - c.startMinute);
    }
  }

  /** 57 whole weeks always fit behind the first, partial, day. */
  lemma {:induction false} BreakerNeverTruncates(c: Config, from: int, n: int)
    requires ValidConfig(c) && n <= 57 * (c.endMinute - c.startMinute)
    requires forall d :: Local(from).day < d <= Local(from).day + 393 ==> WorkInWeek(c, d)
    ensures !Tripped(c, from, n)
  {
    AddAnswers(c, from, n);
    var tomorrow := Local(from).day + 1;
    WeeksHoldWindows(c, tomorrow, 57);
    CountSplit(c, from, tomorrow * MINUTES_PER_DAY, Limit(from) * MINUTES_PER_DAY);
  }

  /** A schedule without holidays that names a real weekday has a working day in every week. */
  lemma {:induction false} PlainScheduleNeverTruncates(c: Config, from: int, n: int, w: int)
    requires ValidConfig(c) && n <= 57 * (c.endMinute - c.startMinute)
    requires w in c.workingDays && 0 <= w < 7 && c.holidays == {}
    ensures !Tripped(c, from, n)
  {
    forall d ensures WorkInWeek(c, d) {
      var k := (w - Weekday(d)) % 7;
      assert Weekday(d + k) == w;
      assert WorkingDay(c, d + k);
    }
    BreakerNeverTruncates(c, from, n);
  }

  // ------------------------------------------------------------------ four hours from Friday afternoon

  /** Monday to Friday with a 17:00 cutoff, and no holidays. */
  predicate OfficeWeek(c: Config) {
    ValidConfig(c) && c.workingDays == [1, 2, 3, 4, 5] && c.endMinute == 1020 && c.holidays == {}
  }

  lemma {:induction false} Weekend(c: Config, friday: int)
    requires OfficeWeek(c) && Weekday(friday) == 5
    ensures WorkingDay(c, friday) && WorkingDay(c, friday + 3)
    ensures Idle(c, Index(LocalTime(friday + 1, c.startMinute)), Index(LocalTime(friday + 3, c.startMinute)))
  {
    assert Weekday(friday + 1) == 6 && Weekday(friday + 2) == 0 && Weekday(friday + 3) == 1;
    IdleUntilNextStart(c, LocalTime(friday + 1, c.startMinute));
    IdleUntilNextStart(c, LocalTime(friday + 2, c.startMinute));
  }

  lemma {:induction false} FridayAndMonday(c: Config, friday: int, minute: int)
    requires OfficeWeek(c) && Weekday(friday) == 5 && c.startMinute <= 960 && c.startMinute < minute <= c.endMinute
    ensures var to := Index(LocalTime(friday + 3, minute));
            Count(c, Index(LocalTime(friday, 960)), to) == 60 + minute - c.startMinute
                && IsWithinBusinessHours(c, to - 1)
  {
    var at, monday := LocalTime(friday, 960), Index(LocalTime(friday + 3, c.startMinute));
    Weekend(c, friday);
    CountToNextWindow(c, at, monday);
    MinutesOfWindow(c, friday + 3, c.startMinute, minute);
    CountSplit(c, Index(at), monday, Index(LocalTime(friday + 3, minute)));
    LocalOf(LocalTime(friday + 3, minute - 1), Index(LocalTime(friday + 3, minute)) - 1);
  }

  lemma {:induction false} FridayCount(c: Config, from: int)
    requires OfficeWeek(c) && c.startMinute <= 960
    ensures var end := Add(c, from, 240);
            from < end && Count(c, from, end) == 240 && IsWithinBusinessHours(c, end - 1)
  {
    PlainScheduleNeverTruncates(c, from, 240, 1);
    AddAnswers(c, from, 240);
  }

  /** Four hours from 4pm on Friday with a 5pm cutoff: an hour on Friday and three after Monday's opening. That is 3pm
      on Monday if and only if Monday opens at noon; with a 9am opening it is noon. */
  lemma {:induction false} FridayFourHours(c: Config, friday: int)
    requires OfficeWeek(c) && Weekday(friday) == 5 && c.startMinute <= 960
    ensures var end := Add(c, Index(LocalTime(friday, 960)), 240);
            && (end == Index(LocalTime(friday + 3, 900)) <==> c.startMinute == 720)
            && (c.startMinute == 540 ==> end == Index(LocalTime(friday + 3, 720)))
  {
    if c.startMinute <= 840 { EarlyMonday(c, friday); } else { LateMonday(c, friday); }
  }

  lemma {:induction false} EarlyMonday(c: Config, friday: int)
    requires OfficeWeek(c) && Weekday(friday) == 5 && c.startMinute <= 840
    ensures Add(c, Index(LocalTime(friday, 960)), 240) == Index(LocalTime(friday + 3, c.startMinute + 180))
  {
    var from := Index(LocalTime(friday, 960));
    FridayCount(c, from);
    FridayAndMonday(c, friday, c.startMinute + 180);
    SameCountSameEnd(c, from, Add(c, from, 240), Index(LocalTime(friday + 3, c.startMinute + 180)));
  }

  lemma {:induction false} LateMonday(c: Config, friday: int)
    requires OfficeWeek(c) && Weekday(friday) == 5 && 840 < c.startMinute <= 960
    ensures Add(c, Index(LocalTime(friday, 960)), 240) != Index(LocalTime(friday + 3, 900))
  {
    FridayCount(c, Index(LocalTime(friday, 960)));
    if c.startMinute < 900 { FridayAndMonday(c, friday, 900); }
    else { LocalOf(LocalTime(friday + 3, 899), Index(LocalTime(friday + 3, 900)) - 1); }
  }

  // ------------------------------------------------------------------ weekdays, holidays and windows

  /** Whether a minute of a day counts, in the configuration's own fields. */
  predicate Counts(c: Config, day: int, minute: int) {
    day !in c.holidays && Weekday(day) in c.workingDays && c.startMinute <= minute < c.endMinute
  }

  lemma {:induction false} WithinMeans(c: Config, t: int)
    ensures IsWithinBusinessHours(c, t) <==> Counts(c, t / 1440, t % 1440)
  {
  }

  /** Weekdays follow each other round the week; 1970-01-01 and 2026-01-01 (day 20454) were Thursdays. */
  lemma {:induction false} WeekdaysAreDated(day: int)
    ensures 0 <= Weekday(day) < 7 && Weekday(day + 1) == (if Weekday(day) == 6 then 0 else Weekday(day) + 1)
    ensures Weekday(0) == 4 && Weekday(20_454) == 4
  {
  }

  /** The last minute worked before an answer lies on a day that is no holiday, on a working weekday, in the window. */
  lemma {:induction false} LastMinuteCounts(c: Config, from: int, n: int)
    requires ValidConfig(c) && n > 0 && !Tripped(c, from, n)
    ensures var last := Add(c, from, n) - 1;
            from <= last && Counts(c, last / 1440, last % 1440)
  {
    AddAnswers(c, from, n);
    WithinMeans(c, Add(c, from, n) - 1);
  }

  function WithHoliday(c: Config, d: int): Config { c.(holidays := c.holidays + {d}) }

  lemma {:induction false} HolidayOnlyRemoves(c: Config, d: int, u: int)
    ensures IsWithinBusinessHours(WithHoliday(c, d), u) <==> IsWithinBusinessHours(c, u) && u / 1440 != d
  {
    WithinMeans(c, u);
    WithinMeans(WithHoliday(c, d), u);
  }

  /** Some minute before `t` would count on day `d`. */
  ghost predicate WorkedOn(c: Config, d: int, from: int, t: int) {
    exists u :: from <= u < t && u / 1440 == d && Counts(c, d, u % 1440)
  }

  lemma {:induction false} HolidayCountsLess(c: Config, d: int, a: int, b: int)
    ensures Count(WithHoliday(c, d), a, b) <= Count(c, a, b)
    ensures WorkedOn(c, d, a, b) ==> Count(WithHoliday(c, d), a, b) < Count(c, a, b)
    decreases b - a
  {
    if a < b {
      HolidayCountsLess(c, d, a, b - 1);
      HolidayOnlyRemoves(c, d, b - 1);
      WithinMeans(c, b - 1);
      if WorkedOn(c, d, a, b) && !WorkedOn(c, d, a, b - 1) { assert (b - 1) / 1440 == d; }
    }
  }

  /** One more holiday never makes anything due earlier, and makes it later when minutes would have been worked on
      it. */
  lemma {:induction false} HolidaysPostpone(c: Config, d: int, from: int, n: int)
    requires ValidConfig(c)
    ensures Add(c, from, n) <= Add(WithHoliday(c, d), from, n)
    ensures n > 0 && !Tripped(WithHoliday(c, d), from, n) && WorkedOn(c, d, from, Add(c, from, n)) ==>
              Add(c, from, n) < Add(WithHoliday(c, d), from, n)
  {
    var c' := WithHoliday(c, d);
    var t, t' := Add(c, from, n), Add(c', from, n);
    AddAnswers(c, from, n);
    AddAnswers(c', from, n);
    HolidayAnswersLater(c, d, from, n, Limit(from), t, t');
    if n > 0 && !Tripped(c', from, n) && WorkedOn(c, d, from, t) { HolidayMoves(c, d, from, n, Limit(from), t, t'); }
  }

  lemma {:induction false} HolidayMoves(c: Config, d: int, from: int, n: int, limit: int, t: int, t': int)
    requires ValidConfig(c) && n > 0 && WorkedOn(c, d, from, t)
    requires Answers(c, from, n, limit, t) && Answers(WithHoliday(c, d), from, n, limit, t')
    requires Count(WithHoliday(c, d), from, limit * MINUTES_PER_DAY) >= n
    ensures t != t'
  {
    HolidayCountsLess(c, d, from, t);
    HolidayCountsLess(c, d, from, limit * MINUTES_PER_DAY);
  }

  lemma {:induction false} HolidayAnswersLater(c: Config, d: int, from: int, n: int, limit: int, t: int, t': int)
    requires ValidConfig(c) && Answers(c, from, n, limit, t) && Answers(WithHoliday(c, d), from, n, limit, t')
    ensures t <= t'
  {
    HolidayCountsLess(c, d, from, limit * MINUTES_PER_DAY);
    if t' < t {
      HolidayCountsLess(c, d, from, t');
      if n > 0 {
        CountMonotone(c, from, t', t - 1);
      } else {
        HolidayOnlyRemoves(c, d, t');
        CountSplit(c, from, t', t' + 1);
        CountMonotone(c, from, t' + 1, t);
      }
    }
  }

  // ------------------------------------------------------------------ milliseconds

  /** The answer lies in the window the start was already in, so seconds past the minute survive. */
  predicate StaysInWindow(c: Config, from: int, n: int) {
    IsWithinBusinessHours(c, from) && n <= c.endMinute - Local(from).minute
  }

  function AddMs(c: Config, from: int, n: int): int {
    var minute := from / MS_PER_MINUTE;
    Add(c, minute, n) * MS_PER_MINUTE + if StaysInWindow(c, minute, n) then from % MS_PER_MINUTE else 0
  }

  lemma {:induction false} StayingAdds(c: Config, from: int, n: int)
    requires ValidConfig(c) && StaysInWindow(c, from, n)
    ensures Add(c, from, n) == from + if n > 0 then n else 0
    ensures !Tripped(c, from, n)
  {
    assert Snap(c, Local(from), 0) == (Local(from), 0);
  }

  lemma {:induction false} AddMsMonotoneInMinutes(c: Config, from: int, n: int, n': int)
    requires ValidConfig(c) && n <= n'
    ensures AddMs(c, from, n) <= AddMs(c, from, n')
  {
    var m := from / MS_PER_MINUTE;
    AddMonotoneInMinutes(c, m, n, n');
    if StaysInWindow(c, m, n) && !StaysInWindow(c, m, n') {
      StayingAdds(c, m, n);
      AddAnswers(c, m, n);
      AddAnswers(c, m, n');
      AnswersMonotoneInMinutes(c, m, n, n', Limit(m), Add(c, m, n), Add(c, m, n'));
    }
  }

  lemma {:induction false} AddMsMonotoneInStart(c: Config, from: int, from': int, n: int)
    requires ValidConfig(c) && from <= from'
    ensures AddMs(c, from, n) <= AddMs(c, from', n)
  {
    var m, m' := from / MS_PER_MINUTE, from' / MS_PER_MINUTE;
    AddMonotoneInStart(c, m, m', n);
    if StaysInWindow(c, m, n) && m < m' {
      StayingAdds(c, m, n);
      AddAnswers(c, m, n);
      AddAnswers(c, m', n);
      LaterStartEndsLater(c, m, m', n, Limit(m), Limit(m'), Add(c, m, n), Add(c, m', n));
    }
  }

  lemma {:induction false} LaterStartEndsLater(c: Config, from: int, from': int, n: int, limit: int, limit': int,
      t: int, t': int)
    requires ValidConfig(c) && from < from' && StaysInWindow(c, from, n)
    requires Answers(c, from, n, limit, t) && Answers(c, from', n, limit', t')
    requires t == from + if n > 0 then n else 0
    ensures t < t'
  {
    if n > 0 && t' <= t {
      assert Count(c, from, from + 1) == 1;
      CountSplit(c, from, from + 1, from');
      CountSplit(c, from, from', t');
      CountMonotone(c, from, t', t);
    }
  }

  /** Windows that meet at midnight, a start inside a minute, a first step that ends exactly there, and a second one
      that stays in the next day. */
  predicate AcrossMidnight(c: Config, from: int, a: int, b: int) {
    var at := Local(from / MS_PER_MINUTE);
    && from % MS_PER_MINUTE != 0
    && c.startMinute == 0 && c.endMinute == MINUTES_PER_DAY
    && WorkingDay(c, at.day) && WorkingDay(c, at.day + 1)
    && a == MINUTES_PER_DAY - at.minute && b <= MINUTES_PER_DAY
  }

  /** In milliseconds additivity holds as in minutes, except across midnight: there the two steps keep the seconds past
      the minute and the single step restarts at 00:00:00. */
  lemma {:induction false} AddMsAdditive(c: Config, from: int, a: nat, b: int)
    requires ValidConfig(c) && b > 0
    ensures AddMs(c, AddMs(c, from, a), b) == AddMs(c, from, a + b) <==>
            (!Tripped(c, from / MS_PER_MINUTE, a + b) || EndsToday(c, from / MS_PER_MINUTE, a))
                && !AcrossMidnight(c, from, a, b)
  {
    var m := from / MS_PER_MINUTE;
    AddAdditive(c, m, a, b);
    assert AddMs(c, from, a) / MS_PER_MINUTE == Add(c, m, a);
    if Tripped(c, m, a + b) {
      if EndsToday(c, m, a) { TrippedSumDropsSeconds(c, m, a, b); }
    } else {
      SecondsSurviveIff(c, from, a, b);
    }
  }

  /** From half a minute past midnight: a day and then a minute end at 00:01:30, a day and a minute at once at
      00:01:00. */
  lemma {:induction false} SecondsDiffer()
    ensures AddMs(ROUND_THE_CLOCK, AddMs(ROUND_THE_CLOCK, 30_000, MINUTES_PER_DAY), 1)
            != AddMs(ROUND_THE_CLOCK, 30_000, MINUTES_PER_DAY + 1)
  {
    LocalOf(LocalTime(0, 0), 0);
    assert Weekday(0) == 4 && Weekday(1) == 5;
    AddMsAdditive(ROUND_THE_CLOCK, 30_000, MINUTES_PER_DAY, 1);
  }

  /** A sum that trips leaves today's window in its second step. */
  lemma {:induction false} TrippedSumDropsSeconds(c: Config, from: int, a: nat, b: int)
    requires ValidConfig(c) && b > 0 && Tripped(c, from, a + b) && EndsToday(c, from, a)
    ensures !StaysInWindow(c, from, a + b) && !StaysInWindow(c, Add(c, from, a), b)
  {
    var t := Add(c, from, a);
    if StaysInWindow(c, from, a + b) { StayingAdds(c, from, a + b); }
    if StaysInWindow(c, t, b) {
      StayingAdds(c, t, b);
      AddAdditive(c, from, a, b);
      AddAnswers(c, from, a + b);
      StaysOnDayIff(c, from, a);
    }
  }

  /** The seconds of the two-step answer and of the one-step answer, for a sum that does not trip. */
  lemma {:induction false} SecondsSurviveIff(c: Config, from: int, a: nat, b: int)
    requires ValidConfig(c) && b > 0 && !Tripped(c, from / MS_PER_MINUTE, a + b)
    ensures var m := from / MS_PER_MINUTE;
            ((if StaysInWindow(c, Add(c, m, a), b) && StaysInWindow(c, m, a) then from % MS_PER_MINUTE else 0)
             == if StaysInWindow(c, m, a + b) then from % MS_PER_MINUTE else 0)
            <==> !AcrossMidnight(c, from, a, b)
  {
    var m := from / MS_PER_MINUTE;
    if StaysInWindow(c, m, a) {
      StayingAdds(c, m, a);
      if a == c.endMinute - Local(m).minute { LocalAtClose(m, a); }
      else { LocalOf(LocalTime(Local(m).day, Local(m).minute + a), Add(c, m, a)); }
    }
  }

  lemma {:induction false} LocalAtClose(m: int, a: int)
    requires 0 < a <= MINUTES_PER_DAY - Local(m).minute
    ensures Local(m + a) == if a == MINUTES_PER_DAY - Local(m).minute then LocalTime(Local(m).day + 1, 0)
                            else LocalTime(Local(m).day, Local(m).minute + a)
  {
    var to := if a == MINUTES_PER_DAY - Local(m).minute then LocalTime(Local(m).day + 1, 0)
              else LocalTime(Local(m).day, Local(m).minute + a);
    LocalOf(to, m + a);
  }

  // ------------------------------------------------------------------ the loop itself

  /** A zoned date as the program reads and writes it: calendar day, minute of the day, milliseconds past the minute. */
  datatype ZonedDate = ZonedDate(at: LocalTime, rest: int)

  function FromMs(ms: int): (z: ZonedDate)
    ensures ToMs(z) == ms && 0 <= z.rest < MS_PER_MINUTE && 0 <= z.at.minute < MINUTES_PER_DAY
  {
    ZonedDate(Local(ms / MS_PER_MINUTE), ms % MS_PER_MINUTE)
  }

  function ToMs(z: ZonedDate): int { Index(z.at) * MS_PER_MINUTE + z.rest }

  /** Adding whole minutes to the underlying instant. */
  function PlusMinutes(z: ZonedDate, minutes: int): (r: ZonedDate)
    ensures Index(r.at) == Index(z.at) + minutes && r.rest == z.rest
  {
    ZonedDate(Local(Index(z.at) + minutes), z.rest)
  }

  function AtMinute(z: ZonedDate, minute: int): ZonedDate { ZonedDate(LocalTime(z.at.day, minute), 0) }

  function StartOfNextDay(z: ZonedDate): ZonedDate { ZonedDate(LocalTime(z.at.day + 1, 0), 0) }

  /** The first loop, and the move up to the window's start. */
  method SnapForward(c: Config, start: ZonedDate) returns (cursor: ZonedDate, advances: nat)
    requires ValidConfig(c) && 0 <= start.at.minute < MINUTES_PER_DAY
    ensures advances == Snap(c, start.at, 0).1 <= MAX_DAY_ADVANCES
    ensures cursor == ZonedDate(ToStart(c, Snap(c, start.at, 0).0), if OnWindow(c, start.at) then start.rest else 0)
    ensures advances < MAX_DAY_ADVANCES ==> OnWindow(c, cursor.at)
  {
    cursor, advances := start, 0;
    while (!WorkingDay(c, cursor.at.day) || cursor.at.minute >= c.endMinute) && advances < MAX_DAY_ADVANCES
      invariant 0 <= advances <= MAX_DAY_ADVANCES
      invariant Snap(c, cursor.at, advances) == Snap(c, start.at, 0)
      invariant advances == 0 ==> cursor == start
      invariant advances > 0 ==> cursor.rest == 0 && cursor.at.minute == c.startMinute && !OnWindow(c, start.at)
    {
      cursor := AtMinute(StartOfNextDay(cursor), c.startMinute);
      advances := advances + 1;
    }
    if cursor.at.minute < c.startMinute {
      cursor := AtMinute(cursor, c.startMinute);
    }
  }

  /** The second loop: spend each window in turn, skipping days off, until nothing is owed. */
  method SpendWindows(c: Config, start: ZonedDate, minutesNeeded: int, startAdvances: nat) returns (cursor: ZonedDate)
    requires ValidConfig(c) && startAdvances <= MAX_DAY_ADVANCES
    requires startAdvances < MAX_DAY_ADVANCES ==> OnWindow(c, start.at)
    ensures Index(cursor.at) == Countdown(c, start.at, minutesNeeded, startAdvances).0
    ensures cursor.rest == if minutesNeeded <= c.endMinute - start.at.minute || minutesNeeded <= 0
            || startAdvances == MAX_DAY_ADVANCES
                           then start.rest else 0
  {
    cursor := start;
    var remaining, advances := minutesNeeded, startAdvances;
    while remaining > 0 && advances < MAX_DAY_ADVANCES
      invariant startAdvances <= advances <= MAX_DAY_ADVANCES
      invariant remaining > 0 && advances < MAX_DAY_ADVANCES ==> OnWindow(c, cursor.at)
      invariant Countdown(c, cursor.at, remaining, advances) == Countdown(c, start.at, minutesNeeded, startAdvances)
      invariant advances == startAdvances ==> cursor == start && remaining == minutesNeeded
      invariant advances > startAdvances
              ==> cursor.rest == 0 && minutesNeeded > 0 && minutesNeeded > c.endMinute - start.at.minute
    {
      var minutesAvailableToday := c.endMinute - cursor.at.minute;
      if remaining <= minutesAvailableToday {
        return PlusMinutes(cursor, remaining);
      }
      remaining := remaining - minutesAvailableToday;
      cursor := AtMinute(StartOfNextDay(cursor), c.startMinute);
      advances := advances + 1;
      ghost var tomorrow, sofar := cursor.at, advances;
      while !WorkingDay(c, cursor.at.day) && advances < MAX_DAY_ADVANCES
        invariant sofar <= advances <= MAX_DAY_ADVANCES
        invariant cursor.rest == 0 && cursor.at.minute == c.startMinute
        invariant SkipDays(c, cursor.at, advances) == SkipDays(c, tomorrow, sofar)
      {
        cursor := AtMinute(StartOfNextDay(cursor), c.startMinute);
        advances := advances + 1;
      }
    }
  }

  method AddBusinessMinutes(c: Config, from: int, minutesNeeded: int) returns (r: int)
    requires ValidConfig(c)
    ensures r == AddMs(c, from, minutesNeeded)
    ensures minutesNeeded > 0 && !Tripped(c, from / 60_000, minutesNeeded) ==>
              var last := r / 60_000 - 1;
              from / 60_000 <= last && Counts(c, last / 1440, last % 1440)
    ensures var day, minute := from / 60_000 / 1440, from / 60_000 % 1440;
            Counts(c, day, minute) && 0 <= minutesNeeded <= c.endMinute - minute ==> r == from + minutesNeeded * 60_000
  {
    WithinMeans(c, from / 60_000);
    if StaysInWindow(c, from / 60_000, minutesNeeded) { StayingAdds(c, from / 60_000, minutesNeeded); }
    if minutesNeeded > 0 && !Tripped(c, from / 60_000, minutesNeeded) {
      LastMinuteCounts(c, from / 60_000, minutesNeeded);
    }
    var start := FromMs(from);
    var cursor, advances := SnapForward(c, start);
    cursor := SpendWindows(c, cursor, minutesNeeded, advances);
    return ToMs(cursor);
  }

  method IsWithinBusinessHoursAt(c: Config, at: int) returns (within: bool)
    ensures within <==> IsWithinBusinessHours(c, at / MS_PER_MINUTE)
    ensures within <==> Counts(c, at / 60_000 / 1440, at / 60_000 % 1440)
  {
    WithinMeans(c, at / 60_000);
    var zoned := FromMs(at);
    return WorkingDay(c, zoned.at.day) && zoned.at.minute >= c.startMinute && zoned.at.minute < c.endMinute;
  }
}
