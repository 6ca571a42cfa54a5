/**
  Metered billing (apps/api/src/modules/billing: usage, entitlements and overage services).

  Every database statement and every call to Stripe is one atomic step. Any number of
  requests and flushes run at once, each may stop for good between two of its steps, and
  a response from Stripe may be lost after the event was
 accepted. */
module Metering {
  import opened Options
  import opened Identifiers

  const MAX_EVENTS_PER_FLUSH := 200

  function Min(a: int, b: int): int { if a < b then a else b }

  function Max(a: int, b: int): int { if a < b then b else a }

  // ------------------------------------------------------------------ the atomic counter

  type Counters = map<Key, nat>

  function CountOf(rows: Counters, k: Key): nat { if k in rows then rows[k] else 0 }

  /** One upsert: a month's first use inserts a row, later ones increment it under the limit. `None` is unlimited.
      Which of the two statements runs does not show in the count. */
  function Consume(rows: Counters, k: Key, limit: Option<nat>, amount: nat): (r: (Counters, bool))
    ensures r.1 <==> limit.None? || CountOf(rows, k) + amount <= limit.value
    ensures CountOf(r.0, k) == CountOf(rows, k) + if r.1 then amount else 0
    ensures forall j :: j != k ==> CountOf(r.0, j) == CountOf(rows, j)
  {
    if limit.Some? && amount > limit.value then (rows, false)
    else if k !in rows then (rows[k := amount], true)
    else if limit.None? || rows[k] + amount <= limit.value then (rows[k := rows[k] + amount], true)
    else (rows, false)
  }

  // ------------------------------------------------------------------ state and steps

  datatype Source = Allowance | Overage

  /** A flush between its snapshot and its last statement. `broken` means the send loop was left early. */
  datatype Flusher = Flusher(key: Key, reported: nat, limit: nat, sent: nat, broken: bool)

  datatype Response = Accepted | AcceptedButLost | Rejected

  /** `granted` records every reply let through; `accepted` is what Stripe holds, one entry per identifier. */
  datatype State = State(
    used: Counters, counted: Counters, reported: Counters,
    accepted: set<string>,
    flushers: map<nat, Flusher>, refused: map<nat, Key>,
    granted: multiset<(Key, Source)>)

  const INIT := State(map[], map[], map[], {}, map[], map[], multiset{})

  /** A request reads the clock again for its second counter, so `AskOverage` names its own month. */
  datatype Step =
    | AskAllowance(request: nat, key: Key)
    | AskOverage(request: nat, period: string, eligible: bool)
    | DropRequest(request: nat)
    | Snapshot(flusher: nat, key: Key)
    | Send(flusher: nat, response: Response)
    | Mark(flusher: nat)
    | Crash(flusher: nat)

  /** Plan allowances by organization; an organization without an entry has no limit. */
  type Plans = map<string, nat>

  function LimitOf(plans: Plans, k: Key): Option<nat> {
    if k.org in plans then Some(plans[k.org]) else None
  }

  predicate Enabled(s: State, step: Step) {
    match step
    case AskAllowance(r, k) => Plain(k) && r !in s.refused
    case AskOverage(r, period, _) => r in s.refused && ':' !in period
    case DropRequest(r) => r in s.refused
    case Snapshot(f, k) => Plain(k) && f !in s.flushers
    case Send(f, _) => f in s.flushers && !s.flushers[f].broken && s.flushers[f].sent < s.flushers[f].limit
    case Mark(f) => f in s.flushers && (s.flushers[f].broken || s.flushers[f].sent >= s.flushers[f].limit)
    case Crash(f) => f in s.flushers
  }

  function Apply(plans: Plans, s: State, step: Step): State
    requires Enabled(s, step)
  {
    match step
    case AskAllowance(r, k) =>
      var c := Consume(s.used, k, LimitOf(plans, k), 1);
      if c.1 then s.(used := c.0, granted := s.granted + multiset{(k, Allowance)})
      else s.(refused := s.refused[r := k])
    case AskOverage(r, period, eligible) =>
      var k := Key(s.refused[r].org, period);
      var limit := LimitOf(plans, k);
      var done := s.(refused := s.refused - {r});
      if limit.None? || !eligible then done
      else
        var c := Consume(s.counted, k, limit, 1);
        if c.1 then done.(counted := c.0, granted := s.granted + multiset{(k, Overage)}) else done
    case DropRequest(r) => s.(refused := s.refused - {r})
    case Snapshot(f, k) =>
      var counted, reported := CountOf(s.counted, k), CountOf(s.reported, k);
      if counted <= reported then s
      else s.(flushers := s.flushers[f := Flusher(k, reported, Min(counted, reported + MAX_EVENTS_PER_FLUSH), reported,
          false)])
    case Send(f, response) =>
      var fl := s.flushers[f];
      var unit := fl.sent + 1;
      s.(accepted := if response.Rejected? then s.accepted else s.accepted + {Identifier(fl.key, unit)},
         flushers := s.flushers[f := if response.Accepted? then fl.(sent := unit) else fl.(broken := true)])
    case Mark(f) =>
      var fl := s.flushers[f];
      s.(reported := if fl.sent > fl.reported then s.reported[fl.key := Max(CountOf(s.reported, fl.key), fl.sent)]
          else s.reported,
         flushers := s.flushers - {f})
    case Crash(f) => s.(flushers := s.flushers - {f})
  }

  /** The state after a schedule of steps; steps that are not enabled are skipped. */
  function Run(plans: Plans, s: State, steps: seq<Step>): State
    decreases |steps|
  {
    if steps == [] then s
    else Run(plans, if Enabled(s, steps[0]) then Apply(plans, s, steps[0]) else s, steps[1..])
  }

  // ------------------------------------------------------------------ billing is exact

  /** Stripe holds exactly units 1 to `b` of this organization and month. */
  ghost predicate Holds(accepted: set<string>, k: Key, b: nat) {
    forall u: nat :: Identifier(k, u) in accepted <==> 1 <= u <= b
  }

  ghost predicate FlusherFits(s: State, fl: Flusher, b: nat) {
    && fl.reported <= fl.sent <= b
    && fl.sent <= fl.limit <= CountOf(s.counted, fl.key)
    && fl.reported <= CountOf(s.reported, fl.key)
  }

  ghost predicate Billed(s: State, k: Key, b: nat) {
    && Holds(s.accepted, k, b)
    && CountOf(s.reported, k) <= b <= CountOf(s.counted, k)
    && (forall f :: f in s.flushers && s.flushers[f].key == k ==> FlusherFits(s, s.flushers[f], b))
  }

  /** Every count is the number of replies granted from it, and no limited plan goes over its allowance twice. */
  ghost predicate Counted(plans: Plans, s: State, k: Key) {
    && CountOf(s.used, k) == s.granted[(k, Allowance)]
    && CountOf(s.counted, k) == s.granted[(k, Overage)]
    && (k.org in plans ==> CountOf(s.used, k) <= plans[k.org] && CountOf(s.counted, k) <= plans[k.org])
    && (k.org !in plans ==> CountOf(s.counted, k) == 0)
  }

  ghost predicate PlainFlushers(s: State) {
    && (forall f :: f in s.flushers ==> Plain(s.flushers[f].key))
    && (forall r :: r in s.refused ==> Plain(s.refused[r]))
  }

  lemma SendKeepsBilled(plans: Plans, s: State, step: Step, k: Key, b: nat) returns (b': nat)
    requires PlainFlushers(s) && Plain(k) && Billed(s, k, b) && Enabled(s, step) && step.Send?
    ensures Billed(Apply(plans, s, step), k, b') && b <= b' <= b + 1
  {
    var fl := s.flushers[step.flusher];
    var unit := fl.sent + 1;
    var s' := Apply(plans, s, step);
    b' := if fl.key == k && !step.response.Rejected? && unit > b then unit else b;
    assert Holds(s'.accepted, k, b') by {
      if !step.response.Rejected? { NextUnitHolds(s.accepted, k, b, fl.key, unit); }
    }
    SentFits(plans, s, step, k, b, b');
  }

  lemma SentFits(plans: Plans, s: State, step: Step, k: Key, b: nat, b': nat)
    requires Enabled(s, step) && step.Send? && b <= b'
    requires forall f :: f in s.flushers && s.flushers[f].key == k ==> FlusherFits(s, s.flushers[f], b)
    requires var fl := s.flushers[step.flusher]; fl.key == k && step.response.Accepted? ==> fl.sent + 1 <= b'
    ensures var s' := Apply(plans, s, step);
            forall f :: f in s'.flushers && s'.flushers[f].key == k ==> FlusherFits(s', s'.flushers[f], b')
  {
  }

  /** Accepting the unit after one already held, or one of another account, leaves a gap-free prefix. */
  lemma NextUnitHolds(accepted: set<string>, k: Key, b: nat, k1: Key, unit: nat)
    requires Plain(k) && Plain(k1) && Holds(accepted, k, b)
    requires k1 == k ==> 1 <= unit <= b + 1
    ensures Holds(accepted + {Identifier(k1, unit)}, k, if k1 == k && unit > b then unit else b)
  {
    forall u: nat | Identifier(k, u) == Identifier(k1, unit) ensures k == k1 && u == unit {
      IdentifierInjective(k, u, k1, unit);
    }
  }

  /** Steps that do not talk to Stripe: counters may only rise, and flushers keep fitting. */
  lemma MarkKeepsBilled(plans: Plans, s: State, step: Step, k: Key, b: nat)
    requires Billed(s, k, b) && Enabled(s, step) && step.Mark?
    ensures Billed(Apply(plans, s, step), k, b)
  {
  }

  lemma CountingOnlyRaisesCounts(plans: Plans, s: State, step: Step)
    requires Enabled(s, step) && !step.Mark? && !step.Send? && !step.Snapshot?
    ensures var s' := Apply(plans, s, step);
            && s'.accepted == s.accepted && s'.reported == s.reported
            && (forall f :: f in s'.flushers ==> f in s.flushers && s'.flushers[f] == s.flushers[f])
            && (forall j :: CountOf(s.counted, j) <= CountOf(s'.counted, j))
            && (forall j :: CountOf(s.used, j) <= CountOf(s'.used, j))
  {
  }

  lemma CountingKeepsBilled(plans: Plans, s: State, step: Step, k: Key, b: nat)
    requires Billed(s, k, b) && Enabled(s, step) && !step.Mark? && !step.Send? && !step.Snapshot?
    ensures Billed(Apply(plans, s, step), k, b)
  {
    var s' := Apply(plans, s, step);
    CountingOnlyRaisesCounts(plans, s, step);
    forall f | f in s'.flushers && s'.flushers[f].key == k ensures FlusherFits(s', s'.flushers[f], b) {
      assert f in s.flushers && s'.flushers[f] == s.flushers[f];
    }
  }

  lemma SnapshotKeepsBilled(plans: Plans, s: State, step: Step, k: Key, b: nat)
    requires Billed(s, k, b) && Enabled(s, step) && step.Snapshot?
    ensures Billed(Apply(plans, s, step), k, b)
  {
  }

  lemma StepKeepsCounted(plans: Plans, s: State, step: Step, k: Key)
    requires Counted(plans, s, k) && Enabled(s, step)
    ensures Counted(plans, Apply(plans, s, step), k)
  {
  }

  lemma StepNeverReportsLess(plans: Plans, s: State, step: Step, k: Key)
    requires Enabled(s, step) && PlainFlushers(s)
    ensures CountOf(Apply(plans, s, step).reported, k) >= CountOf(s.reported, k)
    ensures s.accepted <= Apply(plans, s, step).accepted
    ensures PlainFlushers(Apply(plans, s, step))
  {
  }

  ghost predicate Good(plans: Plans, s: State, k: Key, b: nat) {
    PlainFlushers(s) && Plain(k) && Billed(s, k, b) && Counted(plans, s, k)
  }

  lemma StepKeepsGood(plans: Plans, s: State, step: Step, k: Key, b: nat) returns (b': nat)
    requires Good(plans, s, k, b) && Enabled(s, step)
    ensures Good(plans, Apply(plans, s, step), k, b') && b <= b'
    ensures CountOf(s.reported, k) <= CountOf(Apply(plans, s, step).reported, k)
  {
    b' := b;
    if step.Send? { b' := SendKeepsBilled(plans, s, step, k, b); }
    else if step.Mark? { MarkKeepsBilled(plans, s, step, k, b); }
    else if step.Snapshot? { SnapshotKeepsBilled(plans, s, step, k, b); }
    else { CountingKeepsBilled(plans, s, step, k, b); }
    StepKeepsCounted(plans, s, step, k);
    StepNeverReportsLess(plans, s, step, k);
  }

  /** From any good state and under any schedule: Stripe's units stay a gap-free prefix between what is marked
      as reported and what was counted, the mark and the prefix only grow, and counters equal granted replies. */
  lemma {:induction false} RunIsExact(plans: Plans, s: State, steps: seq<Step>, k: Key, b: nat) returns (b': nat)
    requires Good(plans, s, k, b)
    ensures Good(plans, Run(plans, s, steps), k, b') && b <= b'
    ensures CountOf(s.reported, k) <= CountOf(Run(plans, s, steps).reported, k)
    decreases |steps|
  {
    if steps == [] {
      b' := b;
    } else if Enabled(s, steps[0]) {
      var b1 := StepKeepsGood(plans, s, steps[0], k, b);
      b' := RunIsExact(plans, Apply(plans, s, steps[0]), steps[1..], k, b1);
    } else {
      b' := RunIsExact(plans, s, steps[1..], k, b);
    }
  }

  /** The identifiers Stripe holds for one organization and month. */
  ghost function IdsOf(accepted: set<string>, k: Key): set<string> {
    set id | id in accepted && exists u: nat :: id == Identifier(k, u)
  }

  lemma {:induction false} PrefixSize(accepted: set<string>, k: Key, b: nat)
    requires Plain(k) && Holds(accepted, k, b)
    ensures |IdsOf(accepted, k)| == b
    decreases b
  {
    if b == 0 {
      assert IdsOf(accepted, k) == {};
    } else {
      var rest := accepted - {Identifier(k, b)};
      forall u: nat ensures Identifier(k, u) in rest <==> 1 <= u <= b - 1 {
        if Identifier(k, u) == Identifier(k, b) { IdentifierInjective(k, u, k, b); }
      }
      PrefixSize(rest, k, b - 1);
      assert IdsOf(accepted, k) == IdsOf(rest, k) + {Identifier(k, b)};
    }
  }

  /** What any run can bill: one unit per identifier, never more than the overage replies really granted, at most one
      extra allowance for a limited plan, and nothing at all for an unlimited one. */
  lemma NeverOverbilled(plans: Plans, steps: seq<Step>, k: Key)
    requires Plain(k)
    ensures var s := Run(plans, INIT, steps);
            var billed := |IdsOf(s.accepted, k)|;
            && Holds(s.accepted, k, billed)
            && CountOf(s.reported, k) <= billed <= s.granted[(k, Overage)]
            && (k.org in plans ==> s.granted[(k, Allowance)] <= plans[k.org] && s.granted[(k, Overage)] <= plans[k.org])
            && (k.org !in plans ==> billed == 0)
  {
    var b := RunIsExact(plans, INIT, steps, k, 0);
    PrefixSize(Run(plans, INIT, steps).accepted, k, b);
  }

  // ------------------------------------------------------------------ allowance before overage

  /** An overage reply is only ever granted once the base allowance is used up. */
  ghost predicate AllowanceFirst(plans: Plans, s: State) {
    forall k :: CountOf(s.counted, k) > 0 ==> Spent(plans, s, k)
  }

  ghost predicate Spent(plans: Plans, s: State, k: Key) {
    k.org in plans && CountOf(s.used, k) >= plans[k.org]
  }

  lemma SpentStays(plans: Plans, s: State, s': State)
    requires forall j :: CountOf(s.used, j) <= CountOf(s'.used, j)
    ensures forall k :: Spent(plans, s, k) ==> Spent(plans, s', k)
  {
  }

  /** The step that takes an overage unit from a month whose allowance is not used up. A caller can check it beforehand:
      both counters of the month the step names are below the plan. */
  predicate GrantsEarly(plans: Plans, s: State, step: Step) {
    && step.AskOverage? && Enabled(s, step) && step.eligible
    && var k := Key(s.refused[step.request].org, step.period);
       k.org in plans && CountOf(s.counted, k) < plans[k.org] && CountOf(s.used, k) < plans[k.org]
  }

  lemma StepKeepsCountedAndSpent(plans: Plans, s: State, step: Step)
    requires Enabled(s, step) && !step.AskOverage?
    ensures var s' := Apply(plans, s, step);
            s'.counted == s.counted && forall k :: Spent(plans, s, k) ==> Spent(plans, s', k)
  {
    if step.Mark? || step.Send? || step.Snapshot? { assert Apply(plans, s, step).used == s.used; }
    else { CountingOnlyRaisesCounts(plans, s, step); }
    SpentStays(plans, s, Apply(plans, s, step));
  }

  lemma AskKeepsAllowanceFirstIff(plans: Plans, s: State, step: Step)
    requires AllowanceFirst(plans, s) && Enabled(s, step) && step.AskOverage?
    ensures AllowanceFirst(plans, Apply(plans, s, step)) <==> !GrantsEarly(plans, s, step)
  {
    var s' := Apply(plans, s, step);
    var k := Key(s.refused[step.request].org, step.period);
    assert s'.used == s.used;
    assert Spent(plans, s', k) <==> Spent(plans, s, k);
    if s'.counted != s.counted { assert CountOf(s'.counted, k) == CountOf(s.counted, k) + 1; }
  }

  /** Any one step: the allowance still comes first after it if and only if it does not grant early. */
  lemma StepKeepsAllowanceFirstIff(plans: Plans, s: State, step: Step)
    requires AllowanceFirst(plans, s) && Enabled(s, step)
    ensures AllowanceFirst(plans, Apply(plans, s, step)) <==> !GrantsEarly(plans, s, step)
  {
    if step.AskOverage? {
      AskKeepsAllowanceFirstIff(plans, s, step);
    } else {
      StepKeepsCountedAndSpent(plans, s, step);
      assert forall k :: CountOf(s.counted, k) > 0 ==> Spent(plans, s, k);
    }
  }

  ghost predicate AlwaysAllowanceFirst(plans: Plans, s: State, steps: seq<Step>)
    decreases |steps|
  {
    && AllowanceFirst(plans, s)
    && (steps == []
         || AlwaysAllowanceFirst(plans, if Enabled(s, steps[0]) then Apply(plans, s, steps[0]) else s, steps[1..]))
  }

  predicate NeverGrantsEarly(plans: Plans, s: State, steps: seq<Step>)
    decreases |steps|
  {
    steps == []
    || (!GrantsEarly(plans, s, steps[0])
        && NeverGrantsEarly(plans, if Enabled(s, steps[0]) then Apply(plans, s, steps[0]) else s, steps[1..]))
  }

  /** Over any schedule and any months: the allowance comes first all along if and only if no step grants early. */
  lemma {:induction false} AllowanceFirstIff(plans: Plans, s: State, steps: seq<Step>)
    requires AllowanceFirst(plans, s)
    ensures AlwaysAllowanceFirst(plans, s, steps) <==> NeverGrantsEarly(plans, s, steps)
    decreases |steps|
  {
    if steps != [] {
      if Enabled(s, steps[0]) { StepKeepsAllowanceFirstIff(plans, s, steps[0]); }
      var s1 := if Enabled(s, steps[0]) then Apply(plans, s, steps[0]) else s;
      if AllowanceFirst(plans, s1) { AllowanceFirstIff(plans, s1, steps[1..]); }
    }
  }

  ghost predicate RefusedSpent(plans: Plans, s: State) {
    forall r :: r in s.refused ==> Spent(plans, s, s.refused[r])
  }

  /** A request asks for overage in the month its own allowance was refused in. Requests of different months may be
      mixed. */
  predicate OwnMonth(s: State, step: Step) {
    step.AskOverage? && Enabled(s, step) ==> s.refused[step.request].period == step.period
  }

  predicate OwnMonths(plans: Plans, s: State, steps: seq<Step>)
    decreases |steps|
  {
    steps == []
        || (OwnMonth(s, steps[0])
             && OwnMonths(plans, if Enabled(s, steps[0]) then Apply(plans, s, steps[0]) else s, steps[1..]))
  }

  lemma StepKeepsRefusedSpent(plans: Plans, s: State, step: Step)
    requires RefusedSpent(plans, s) && Enabled(s, step)
    ensures RefusedSpent(plans, Apply(plans, s, step))
  {
    var s' := Apply(plans, s, step);
    if step.AskOverage? { assert s'.used == s.used; } else { StepKeepsCountedAndSpent(plans, s, step); }
    SpentStays(plans, s, s);
    forall r | r in s'.refused ensures Spent(plans, s', s'.refused[r]) {
      if r in s.refused && s'.refused[r] == s.refused[r] {
        assert Spent(plans, s, s.refused[r]);
      }
    }
  }

  lemma OwnMonthIsNotEarly(plans: Plans, s: State, step: Step)
    requires RefusedSpent(plans, s) && OwnMonth(s, step)
    ensures !GrantsEarly(plans, s, step)
  {
    if step.AskOverage? && Enabled(s, step) {
      var k := s.refused[step.request];
      assert Spent(plans, s, k) && Key(k.org, k.period) == k;
    }
  }

  /** If no request straddles a month boundary, no overage is ever granted in a month with allowance left, over every
      schedule and any number of months. */
  lemma {:induction false} OverageOnlyAfterAllowance(plans: Plans, s: State, steps: seq<Step>)
    requires AllowanceFirst(plans, s) && RefusedSpent(plans, s) && OwnMonths(plans, s, steps)
    ensures AlwaysAllowanceFirst(plans, s, steps) && AllowanceFirst(plans, Run(plans, s, steps))
    decreases |steps|
  {
    if steps == [] {
    } else if Enabled(s, steps[0]) {
      OwnMonthIsNotEarly(plans, s, steps[0]);
      StepKeepsAllowanceFirstIff(plans, s, steps[0]);
      StepKeepsRefusedSpent(plans, s, steps[0]);
      OverageOnlyAfterAllowance(plans, Apply(plans, s, steps[0]), steps[1..]);
    } else {
      OverageOnlyAfterAllowance(plans, s, steps[1..]);
    }
  }

  /** Across a month boundary it can happen: a request refused in June takes its overage unit from July, whose own
      allowance nobody has touched. */
  lemma MonthBoundaryGrantsEarlyOverage(plans: Plans, org: string)
    requires plans == map[org := 1] && ':' !in org
    ensures var june, july := Key(org, "2026-06"), Key(org, "2026-07");
            var s := Run(plans, INIT, [AskAllowance(0, june), AskAllowance(1, june), AskOverage(1, "2026-07", true)]);
            s.granted[(july, Overage)] == 1 && CountOf(s.used, july) == 0 && !AllowanceFirst(plans, s)
  {
    var june, july := Key(org, "2026-06"), Key(org, "2026-07");
    var steps := [AskAllowance(0, june), AskAllowance(1, june), AskOverage(1, "2026-07", true)];
    var s1 := Apply(plans, INIT, steps[0]);
    var s2 := Apply(plans, s1, steps[1]);
    var s3 := Apply(plans, s2, steps[2]);
    assert Run(plans, INIT, steps) == Run(plans, s1, steps[1..]);
    assert steps[1..][1..] == steps[2..] && steps[2..][1..] == [];
    assert Run(plans, s1, steps[1..]) == Run(plans, s2, steps[2..]) == Run(plans, s3, []);
    assert CountOf(s3.counted, july) == 1 && !Spent(plans, s3, july);
  }

  // ------------------------------------------------------------------ a flush on its own

  /** The unit loop: send from `sent + 1` up to `limit`, stop at the first response that is not a success. */
  function SendUnits(accepted: set<string>, k: Key, sent: nat, limit: nat, responses: seq<Response>): (set<string>, nat)
    decreases |responses|
  {
    if sent >= limit || responses == [] then (accepted, sent)
    else match responses[0]
      case Accepted => SendUnits(accepted + {Identifier(k, sent + 1)}, k, sent + 1, limit, responses[1..])
      case AcceptedButLost => (accepted + {Identifier(k, sent + 1)}, sent)
      case Rejected => (accepted, sent)
  }

  function FlushLimit(s: State, k: Key): nat {
    Max(0, Min(CountOf(s.counted, k), CountOf(s.reported, k) + MAX_EVENTS_PER_FLUSH))
  }

  /** The whole of one flush while nothing else runs. `responses` is what Stripe answers, one per request. */
  function FlushAlone(s: State, k: Key, responses: seq<Response>): State {
    var reported := CountOf(s.reported, k);
    if CountOf(s.counted, k) <= reported then s
    else
      var r := SendUnits(s.accepted, k, reported, FlushLimit(s, k), responses);
      s.(accepted := r.0, reported := if r.1 > reported then s.reported[k := Max(reported, r.1)] else s.reported)
  }

  function SendSteps(f: nat, sent: nat, limit: nat, responses: seq<Response>): seq<Step>
    decreases |responses|
  {
    if sent >= limit || responses == [] then []
    else [Send(f, responses[0])] + if responses[0].Accepted? then SendSteps(f, sent + 1, limit, responses[1..]) else []
  }

  lemma {:induction false} RunConcat(plans: Plans, s: State, a: seq<Step>, b: seq<Step>)
    ensures Run(plans, s, a + b) == Run(plans, Run(plans, s, a), b)
    decreases |a|
  {
    if a == [] { assert a + b == b; }
    else {
      assert (a + b)[0] == a[0] && (a + b)[1..] == a[1..] + b;
      RunConcat(plans, if Enabled(s, a[0]) then Apply(plans, s, a[0]) else s, a[1..], b);
    }
  }

  predicate LeftEarly(sent: nat, limit: nat, responses: seq<Response>)
    decreases |responses|
  {
    sent < limit && responses != [] && (!responses[0].Accepted? || LeftEarly(sent + 1, limit, responses[1..]))
  }

  function AfterSends(s: State, f: nat, fl: Flusher, responses: seq<Response>): State {
    var r := SendUnits(s.accepted, fl.key, fl.sent, fl.limit, responses);
    s.(accepted := r.0,
        flushers := s.flushers[f := fl.(sent := r.1, broken := LeftEarly(fl.sent, fl.limit, responses))])
  }

  lemma SendOnce(plans: Plans, s: State, f: nat, fl: Flusher, response: Response)
    requires f in s.flushers && s.flushers[f] == fl && !fl.broken && fl.sent < fl.limit
    ensures Enabled(s, Send(f, response))
    ensures Apply(plans, s, Send(f, response))
            == s.(accepted := if response.Rejected? then s.accepted else s.accepted + {Identifier(fl.key, fl.sent + 1)},
                  flushers := s.flushers[f := if response.Accepted? then fl.(sent := fl.sent + 1)
                      else fl.(broken := true)])
  {
  }

  /** Sending one unit and then the rest is sending them all. */
  lemma AfterSendsUnfolds(s: State, s1: State, f: nat, fl: Flusher, responses: seq<Response>)
    requires fl.sent < fl.limit && responses != [] && responses[0].Accepted? && !fl.broken
    requires s1
            == s.(accepted := s.accepted + {Identifier(fl.key, fl.sent + 1)},
                flushers := s.flushers[f := fl.(sent := fl.sent + 1)])
    ensures AfterSends(s1, f, fl.(sent := fl.sent + 1), responses[1..]) == AfterSends(s, f, fl, responses)
  {
    var fl1 := fl.(sent := fl.sent + 1);
    var end := AfterSends(s, f, fl, responses).flushers[f];
    assert AfterSends(s1, f, fl1, responses[1..]).flushers[f] == end;
    assert s.flushers[f := fl1][f := end] == s.flushers[f := end];
  }

  lemma {:induction false} SendStepsSend(plans: Plans, s: State, f: nat, fl: Flusher, responses: seq<Response>)
    requires f in s.flushers && s.flushers[f] == fl && !fl.broken
    ensures Run(plans, s, SendSteps(f, fl.sent, fl.limit, responses)) == AfterSends(s, f, fl, responses)
    decreases |responses|
  {
    var steps := SendSteps(f, fl.sent, fl.limit, responses);
    if fl.sent < fl.limit && responses != [] {
      SendOnce(plans, s, f, fl, responses[0]);
      var s1 := Apply(plans, s, Send(f, responses[0]));
      RunOne(plans, s, Send(f, responses[0]), steps[1..]);
      assert steps == [Send(f, responses[0])] + steps[1..];
      if responses[0].Accepted? {
        AfterSendsUnfolds(s, s1, f, fl, responses);
        SendStepsSend(plans, s1, f, fl.(sent := fl.sent + 1), responses[1..]);
      } else {
        assert steps[1..] == [];
      }
    } else {
      assert s.flushers == s.flushers[f := fl];
    }
  }

  lemma RunOne(plans: Plans, s: State, step: Step, rest: seq<Step>)
    requires Enabled(s, step)
    ensures Run(plans, s, [step] + rest) == Run(plans, Apply(plans, s, step), rest)
  {
    assert ([step] + rest)[1..] == rest;
  }

  lemma {:induction false} LeavesOrFinishes(accepted: set<string>, k: Key, sent: nat, limit: nat,
                                            responses: seq<Response>)
    requires |responses| >= limit - sent
    ensures LeftEarly(sent, limit, responses) || SendUnits(accepted, k, sent, limit, responses).1 >= limit
    decreases |responses|
  {
    if sent < limit && responses != [] && responses[0].Accepted? {
      LeavesOrFinishes(accepted + {Identifier(k, sent + 1)}, k, sent + 1, limit, responses[1..]);
    }
  }

  /** A flush on its own is one of the interleavings: snapshot, sends, mark. What holds of every run holds of it. */
  lemma FlushAloneIsARun(plans: Plans, s: State, f: nat, k: Key, responses: seq<Response>) returns (steps: seq<Step>)
    requires Plain(k) && f !in s.flushers && |responses| >= MAX_EVENTS_PER_FLUSH
    ensures Run(plans, s, steps) == FlushAlone(s, k, responses)
  {
    var snap := Snapshot(f, k);
    var s1 := Apply(plans, s, snap);
    if CountOf(s.counted, k) <= CountOf(s.reported, k) {
      steps := [snap];
      RunOne(plans, s, snap, []);
    } else {
      var fl := s1.flushers[f];
      var sends := SendSteps(f, fl.sent, fl.limit, responses);
      steps := [snap] + (sends + [Mark(f)]);
      RunOne(plans, s, snap, sends + [Mark(f)]);
      RunConcat(plans, s1, sends, [Mark(f)]);
      SendStepsSend(plans, s1, f, fl, responses);
      LeavesOrFinishes(s1.accepted, k, fl.sent, fl.limit, responses);
      FlushEnds(plans, s, f, k, responses);
    }
  }

  lemma FlushEnds(plans: Plans, s: State, f: nat, k: Key, responses: seq<Response>)
    requires Plain(k) && f !in s.flushers && CountOf(s.counted, k) > CountOf(s.reported, k)
    requires var s1 := Apply(plans, s, Snapshot(f, k)); Enabled(AfterSends(s1, f, s1.flushers[f], responses), Mark(f))
    ensures var s1 := Apply(plans, s, Snapshot(f, k));
            Run(plans, AfterSends(s1, f, s1.flushers[f], responses), [Mark(f)]) == FlushAlone(s, k, responses)
  {
    var s1 := Apply(plans, s, Snapshot(f, k));
    var s2 := AfterSends(s1, f, s1.flushers[f], responses);
    MarkEnds(plans, s2, f);
    assert s2.flushers - {f} == s.flushers;
  }

  lemma MarkEnds(plans: Plans, s: State, f: nat)
    requires Enabled(s, Mark(f))
    ensures Run(plans, s, [Mark(f)]) == Apply(plans, s, Mark(f))
  {
    assert [Mark(f)] + [] == [Mark(f)];
    RunOne(plans, s, Mark(f), []);
  }

  // ------------------------------------------------------------------ progress

  predicate AllAccepted(responses: seq<Response>) {
    |responses| >= MAX_EVENTS_PER_FLUSH && forall i :: 0 <= i < |responses| ==> responses[i].Accepted?
  }

  lemma {:induction false} SendUnitsReachesLimit(accepted: set<string>, k: Key, sent: nat, limit: nat,
      responses: seq<Response>, b: nat)
    requires Plain(k) && Holds(accepted, k, b) && sent <= b && sent <= limit <= sent + |responses|
    requires forall i :: 0 <= i < |responses| ==> responses[i].Accepted?
    ensures var r := SendUnits(accepted, k, sent, limit, responses);
            r.1 == limit && Holds(r.0, k, Max(b, limit))
    decreases |responses|
  {
    if sent < limit {
      var more := accepted + {Identifier(k, sent + 1)};
      NextUnitHolds(accepted, k, b, k, sent + 1);
      SendUnitsReachesLimit(more, k, sent + 1, limit, responses[1..], Max(b, sent + 1));
    }
  }

  lemma FlushAdvances(s: State, k: Key, responses: seq<Response>, b: nat)
    requires Plain(k) && s.flushers == map[] && Billed(s, k, b) && AllAccepted(responses)
    ensures var s' := FlushAlone(s, k, responses);
            var gap := CountOf(s.counted, k) - CountOf(s.reported, k);
            && CountOf(s'.reported, k) == CountOf(s.reported, k) + Min(gap, 200)
            && Billed(s', k, Max(b, CountOf(s'.reported, k)))
            && s'.counted == s.counted && s'.flushers == map[]
            && (gap == 0 ==> s' == s)
  {
    if CountOf(s.counted, k) > CountOf(s.reported, k) {
      SendUnitsReachesLimit(s.accepted, k, CountOf(s.reported, k), FlushLimit(s, k), responses, b);
    }
  }

  function Rounds(s: State, k: Key, responses: seq<Response>, n: nat): State
    decreases n
  {
    if n == 0 then s else Rounds(FlushAlone(s, k, responses), k, responses, n - 1)
  }

  /** Without faults or new usage, `n` rounds report min(counted, reported + 200 n); so ceil(gap / 200) rounds settle
      the month, Stripe holds exactly what was counted, and any further flush changes nothing. */
  lemma {:induction false} RoundsReport(s: State, k: Key, responses: seq<Response>, n: nat, b: nat)
    requires Plain(k) && s.flushers == map[] && Billed(s, k, b) && AllAccepted(responses)
    ensures var s' := Rounds(s, k, responses, n);
            var gap := CountOf(s.counted, k) - CountOf(s.reported, k);
            && CountOf(s'.reported, k) == CountOf(s.reported, k) + Min(gap, n * 200)
            && s'.counted == s.counted
            && (n >= (gap + 200 - 1) / 200 ==>
                  CountOf(s'.reported, k) == CountOf(s.counted, k) && Holds(s'.accepted, k, CountOf(s.counted, k))
                  && FlushAlone(s', k, responses) == s')
    decreases n
  {
    if n > 0 {
      FlushAdvances(s, k, responses, b);
      var s1 := FlushAlone(s, k, responses);
      RoundsReport(s1, k, responses, n - 1, Max(b, CountOf(s1.reported, k)));
    }
  }
}
