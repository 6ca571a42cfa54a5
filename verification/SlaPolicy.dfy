/** SLA due dates (apps/api/src/modules/sla/sla-policy.ts) on top of the business-hours clock. */
module SlaPolicy {
  import opened BusinessHours
  import opened BusinessHoursLaws

  datatype Priority = Low | Normal | High | Urgent

  datatype Policy = Policy(firstResponseMinutes: map<Priority, int>, resolutionMinutes: map<Priority, int>)

  datatype Hours = NoHours | Hours(config: Config)

  ghost predicate Complete(p: Policy) {
    forall q: Priority :: q in p.firstResponseMinutes && q in p.resolutionMinutes
  }

  /** Stored hours are schema-checked field by field, so only the order of the two minutes can still be wrong. */
  ghost predicate StoredHours(h: Hours) {
    h.Hours? ==> |h.config.workingDays| > 0 && 0 <= h.config.startMinute && h.config.endMinute <= MINUTES_PER_DAY
  }

  function ResolveBusinessHours(h: Hours): Hours {
    if h.Hours? && |h.config.workingDays| > 0 && h.config.endMinute > h.config.startMinute then h else NoHours
  }

  function DueAt(from: int, minutes: int, h: Hours): int {
    match h
    case NoHours => from + minutes * MS_PER_MINUTE
    case Hours(c) => AddMs(c, from, minutes)
  }

  method ComputeSlaDueDates(from: int, q: Priority, p: Policy, h: Hours)
      returns (firstResponseDueAt: int, resolutionDueAt: int)
    requires Complete(p) && StoredHours(h)
    ensures firstResponseDueAt == DueAt(from, p.firstResponseMinutes[q], ResolveBusinessHours(h))
    ensures resolutionDueAt == DueAt(from, p.resolutionMinutes[q], ResolveBusinessHours(h))
    ensures p.firstResponseMinutes[q] <= p.resolutionMinutes[q] ==> firstResponseDueAt <= resolutionDueAt
    ensures h.NoHours? || h.config.workingDays == [] || h.config.endMinute <= h.config.startMinute ==>
              firstResponseDueAt == from + p.firstResponseMinutes[q] * 60_000
              && resolutionDueAt == from + p.resolutionMinutes[q] * 60_000
    ensures h.Hours? && h.config.workingDays != [] && h.config.startMinute < h.config.endMinute ==>
              firstResponseDueAt == AddMs(h.config, from, p.firstResponseMinutes[q])
              && resolutionDueAt == AddMs(h.config, from, p.resolutionMinutes[q])
  {
    var first, last := p.firstResponseMinutes[q], p.resolutionMinutes[q];
    var hours := ResolveBusinessHours(h);
    if hours.Hours? {
      firstResponseDueAt := AddBusinessMinutes(hours.config, from, first);
      resolutionDueAt := AddBusinessMinutes(hours.config, from, last);
    } else {
      firstResponseDueAt := from + first * MS_PER_MINUTE;
      resolutionDueAt := from + last * MS_PER_MINUTE;
    }
    if first <= last { DueDatesOrdered(from, first, last, hours); }
  }

  lemma DueDatesOrdered(from: int, first: int, last: int, h: Hours)
    requires h.Hours? ==> ValidConfig(h.config)
    requires first <= last
    ensures DueAt(from, first, h) <= DueAt(from, last, h)
  {
    if h.Hours? { AddMsMonotoneInMinutes(h.config, from, first, last); }
  }

  /** For targets the breaker does not cut, the due dates are ordered exactly as the policy's minutes are. */
  lemma DueDatesReflectPolicy(from: int, first: int, last: int, h: Hours)
    requires h.Hours? ==> ValidConfig(h.config) && !Tripped(h.config, from / MS_PER_MINUTE, first)
    requires first >= 1 && last >= 1
    ensures DueAt(from, first, h) <= DueAt(from, last, h) <==> first <= last
  {
    if first <= last {
      DueDatesOrdered(from, first, last, h);
    } else if h.Hours? {
      var m := from / MS_PER_MINUTE;
      AddAnswers(h.config, m, first);
      AddAnswers(h.config, m, last);
      AnswersMonotoneInMinutes(h.config, m, last, first, Limit(m), Add(h.config, m, last), Add(h.config, m, first));
      if StaysInWindow(h.config, m, first) { assert StaysInWindow(h.config, m, last); }
      if StaysInWindow(h.config, m, last) { StayingAdds(h.config, m, last); }
    }
  }
}
