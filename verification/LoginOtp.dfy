/**
  One login challenge under concurrent verify and resend calls
  (apps/api/src/modules/auth/auth.service.ts). Codes are compared by their hashes, which are
  plain numbers here. Each database statement is one step; a call may die between any
 two. */
module LoginOtp {

  datatype Challenge = Challenge(otpHash: nat, attempts: nat, maxAttempts: nat, consumed: bool, expiresAt: int,
                                 lastSentAt: int)

  datatype Settings = Settings(ttl: nat, cooldown: nat)

  /** When a call read the row, and how many codes had been stored by then. */
  datatype Read = Read(at: int, version: nat)

  datatype Call =
    | Reading(guess: nat, otpHash: nat, read: Read)
    | Reserved(guess: nat, otpHash: nat, read: Read)
    | Matched(guess: nat, otpHash: nat, read: Read, comparison: nat)
    | Approved(guess: nat, otpHash: nat, read: Read, comparison: nat)
    | Resending(read: Read)

  /** One comparison of a guess with a stored hash, and the call that made it. */
  datatype Comparison = Comparison(call: nat, guess: nat, otpHash: nat)

  /** `reservations`, `compared`, `successes`, `sent` and `issued` only record what happened: `issued` holds the codes
      stored for the challenge and `sent` the times, the first at creation. A call remembers its read, and a matched
      call its own comparison. */
  datatype State = State(now: int, row: Challenge, calls: map<nat, Call>, reservations: nat, compared: seq<Comparison>,
                         successes: nat, sent: seq<int>, issued: seq<nat>)

  function Resends(s: State): int { |s.sent| - 1 }

  datatype Step =
    | Tick(now: int)
    | ReadForVerify(call: nat, guess: nat)
    | Reserve(call: nat)
    | Compare(call: nat)
    | LoadUser(call: nat, active: bool)
    | Consume(call: nat)
    | ReadForResend(call: nat)
    | WriteResend(call: nat, otpHash: nat)
    | ConsumeFromElsewhere
    | Die(call: nat)

  predicate Enabled(s: State, step: Step) {
    match step
    case Tick(now) => s.now <= now
    case ReadForVerify(c, _) => c !in s.calls
    case Reserve(c) => c in s.calls && s.calls[c].Reading?
    case Compare(c) => c in s.calls && s.calls[c].Reserved?
    case LoadUser(c, _) => c in s.calls && s.calls[c].Matched?
    case Consume(c) => c in s.calls && s.calls[c].Approved?
    case ReadForResend(c) => c !in s.calls
    case WriteResend(c, _) => c in s.calls && s.calls[c].Resending?
    case ConsumeFromElsewhere => true
    case Die(c) => c in s.calls
  }

  predicate Open(row: Challenge, now: int) { !row.consumed && now <= row.expiresAt }

  function Apply(g: Settings, s: State, step: Step): State
    requires Enabled(s, step)
  {
    match step
    case Tick(now) => s.(now := now)
    case ReadForVerify(c, guess) =>
      if Open(s.row, s.now) && s.row.attempts < s.row.maxAttempts
      then s.(calls := s.calls[c := Reading(guess, s.row.otpHash, Read(s.now, |s.sent|))]) else s
    case Reserve(c) =>
      if !s.row.consumed && s.row.attempts < s.row.maxAttempts
      then s.(row := s.row.(attempts := s.row.attempts + 1), reservations := s.reservations + 1,
              calls := s.calls[c := Reserved(s.calls[c].guess, s.calls[c].otpHash, s.calls[c].read)])
      else s.(calls := s.calls - {c})
    case Compare(c) =>
      var k := s.calls[c];
      s.(compared := s.compared + [Comparison(c, k.guess, k.otpHash)],
         calls := if k.guess == k.otpHash then s.calls[c := Matched(k.guess, k.otpHash, k.read, |s.compared|)]
                  else s.calls - {c})
    case LoadUser(c, active) =>
      var k := s.calls[c];
      s.(calls := if active then s.calls[c := Approved(k.guess, k.otpHash, k.read, k.comparison)] else s.calls - {c})
    case Consume(c) =>
      if !s.row.consumed then s.(row := s.row.(consumed := true), successes := s.successes + 1, calls := s.calls - {c})
      else s.(calls := s.calls - {c})
    case ReadForResend(c) =>
      if Open(s.row, s.now) && s.now - s.row.lastSentAt >= g.cooldown
      then s.(calls := s.calls[c := Resending(Read(s.now, |s.sent|))]) else s
    case WriteResend(c, otpHash) =>
      s.(row := s.row.(otpHash := otpHash, attempts := 0, expiresAt := s.now + g.ttl, lastSentAt := s.now),
         sent := s.sent + [s.now], issued := s.issued + [otpHash], calls := s.calls - {c})
    case ConsumeFromElsewhere => s.(row := s.row.(consumed := true))
    case Die(c) => s.(calls := s.calls - {c})
  }

  function Run(g: Settings, s: State, steps: seq<Step>): State
    decreases |steps|
  {
    if steps == [] then s else Run(g, if Enabled(s, steps[0]) then Apply(g, s, steps[0]) else s, steps[1..])
  }

  function Created(g: Settings, otpHash: nat, maxAttempts: nat, now: int): State {
    State(now, Challenge(otpHash, 0, maxAttempts, false, now + g.ttl, now), map[], 0, [], 0, [now], [otpHash])
  }

  // ------------------------------------------------------------------ invariant

  ghost function Holding(calls: map<nat, Call>): set<nat> { set c | c in calls && calls[c].Reserved? }

  ghost predicate Bounded(s: State) {
    && s.row.attempts <= s.row.maxAttempts
    && |s.sent| > 0 && s.reservations <= s.row.maxAttempts * Resends(s) + s.row.attempts
    && |s.compared| + |Holding(s.calls)| <= s.reservations
  }

  ghost predicate SingleUse(s: State) {
    && s.successes <= 1
    && (s.successes == 1 ==> s.row.consumed)
    && s.row.otpHash in s.issued
    && (forall c :: c in s.calls && !s.calls[c].Resending? ==> s.calls[c].otpHash in s.issued)
    && (forall c :: c in s.calls && (s.calls[c].Matched? || s.calls[c].Approved?)
         ==> s.calls[c].guess == s.calls[c].otpHash)
  }

  lemma HoldingChanges(calls: map<nat, Call>, c: nat, call: Call)
    ensures |Holding(calls[c := call])| == |Holding(calls) - {c}| + if call.Reserved? then 1 else 0
    ensures |Holding(calls - {c})| == |Holding(calls) - {c}|
    ensures |Holding(calls) - {c}| == |Holding(calls)| - if c in calls && calls[c].Reserved? then 1 else 0
  {
    HoldingWithout(calls, c);
    HoldingAfter(calls, c, call);
    SizeWithout(Holding(calls), c);
    assert c in Holding(calls) <==> c in calls && calls[c].Reserved?;
  }

  lemma SizeWithout(h: set<nat>, c: nat)
    ensures |h - {c}| == |h| - if c in h then 1 else 0
  {
    if c !in h { assert h - {c} == h; }
  }

  lemma HoldingWithout(calls: map<nat, Call>, c: nat)
    ensures Holding(calls - {c}) == Holding(calls) - {c}
  {
  }

  lemma HoldingAfter(calls: map<nat, Call>, c: nat, call: Call)
    ensures Holding(calls[c := call]) == Holding(calls) - {c} + if call.Reserved? then {c} else {}
  {
    var after := Holding(calls[c := call]);
    assert forall d :: d != c ==> (d in after <==> d in Holding(calls));
    assert c in after <==> call.Reserved?;
  }

  lemma ResendKeepsBounded(g: Settings, s: State, step: Step)
    requires Bounded(s) && Enabled(s, step) && step.WriteResend?
    ensures Bounded(Apply(g, s, step))
  {
    HoldingChanges(s.calls, step.call, Resending(Read(0, 0)));
    assert s.row.maxAttempts * (Resends(s) + 1) == s.row.maxAttempts * Resends(s) + s.row.maxAttempts;
  }

  lemma GuessKeepsBounded(g: Settings, s: State, step: Step)
    requires Bounded(s) && Enabled(s, step) && (step.Reserve? || step.Compare?)
    ensures Bounded(Apply(g, s, step))
  {
    var k := s.calls[step.call];
    HoldingChanges(s.calls, step.call, Reserved(k.guess, k.otpHash, k.read));
    HoldingChanges(s.calls, step.call, Matched(k.guess, k.otpHash, k.read, |s.compared|));
  }

  lemma OtherStepKeepsBounded(g: Settings, s: State, step: Step)
    requires Bounded(s) && Enabled(s, step) && !step.WriteResend? && !step.Reserve? && !step.Compare?
    ensures Bounded(Apply(g, s, step))
  {
    var s' := Apply(g, s, step);
    assert Holding(s'.calls) <= Holding(s.calls);
    SubsetSize(Holding(s'.calls), Holding(s.calls));
  }

  lemma SubsetSize(a: set<nat>, b: set<nat>)
    requires a <= b
    ensures |a| <= |b|
  {
    assert b == a + (b - a);
  }

  lemma StepKeepsBounded(g: Settings, s: State, step: Step)
    requires Bounded(s) && Enabled(s, step)
    ensures Bounded(Apply(g, s, step)) && Apply(g, s, step).row.maxAttempts == s.row.maxAttempts
  {
    if step.WriteResend? { ResendKeepsBounded(g, s, step); }
    else if step.Reserve? || step.Compare? { GuessKeepsBounded(g, s, step); }
    else { OtherStepKeepsBounded(g, s, step); }
  }

  lemma StepKeepsSingleUse(g: Settings, s: State, step: Step)
    requires SingleUse(s) && Enabled(s, step)
    ensures SingleUse(Apply(g, s, step))
    ensures s.row.consumed ==> Apply(g, s, step).row.consumed && Apply(g, s, step).successes == s.successes
  {
  }

  lemma {:induction false} RunKeeps(g: Settings, s: State, steps: seq<Step>)
    requires Bounded(s) && SingleUse(s)
    ensures Bounded(Run(g, s, steps)) && SingleUse(Run(g, s, steps))
    ensures Run(g, s, steps).row.maxAttempts == s.row.maxAttempts
    ensures s.row.consumed ==> Run(g, s, steps).row.consumed && Run(g, s, steps).successes == s.successes
    decreases |steps|
  {
    if steps != [] {
      if Enabled(s, steps[0]) { StepKeepsBounded(g, s, steps[0]); StepKeepsSingleUse(g, s, steps[0]); }
      RunKeeps(g, if Enabled(s, steps[0]) then Apply(g, s, steps[0]) else s, steps[1..]);
    }
  }

  /** Under every interleaving: at most `maxAttempts` comparisons for each code sent, never more attempts than allowed,
      and at most one success, after which the challenge is consumed for good. */
  lemma GuessesAreBounded(g: Settings, otpHash: nat, maxAttempts: nat, now: int, steps: seq<Step>)
    ensures var s := Run(g, Created(g, otpHash, maxAttempts, now), steps);
            && |s.compared| <= maxAttempts * (1 + Resends(s))
            && s.row.attempts <= maxAttempts
            && s.successes <= 1 && (s.successes == 1 ==> s.row.consumed)
  {
    var start := Created(g, otpHash, maxAttempts, now);
    assert Holding(start.calls) == {};
    RunKeeps(g, start, steps);
    var s := Run(g, start, steps);
    assert maxAttempts * (1 + Resends(s)) == maxAttempts * Resends(s) + maxAttempts;
  }

  /** The comparison a matched call remembers is its own, of its own guess. */
  ghost predicate RemembersComparison(s: State, c: nat, k: Call) {
    k.Matched? || k.Approved? ==>
        k.comparison < |s.compared| && s.compared[k.comparison] == Comparison(c, k.guess, k.otpHash)
  }

  ghost predicate AllRemember(s: State) { forall c :: c in s.calls ==> RemembersComparison(s, c, s.calls[c]) }

  lemma {:induction false} PassedWasCompared(g: Settings, s: State, steps: seq<Step>)
    requires AllRemember(s)
    ensures AllRemember(Run(g, s, steps))
    decreases |steps|
  {
    if steps != [] { PassedWasCompared(g, if Enabled(s, steps[0]) then Apply(g, s, steps[0]) else s, steps[1..]); }
  }

  /** Whoever is about to consume the challenge has had its own guess compared, with a code really sent for this
      challenge, and they were equal. */
  lemma SuccessNeedsIssuedCode(g: Settings, otpHash: nat, maxAttempts: nat, now: int, steps: seq<Step>, c: nat)
    requires Enabled(Run(g, Created(g, otpHash, maxAttempts, now), steps), Consume(c))
    ensures var s := Run(g, Created(g, otpHash, maxAttempts, now), steps);
            var k := s.calls[c];
            && k.comparison < |s.compared| && s.compared[k.comparison] == Comparison(c, k.guess, k.guess)
            && k.guess == k.otpHash && k.guess in s.issued
  {
    var start := Created(g, otpHash, maxAttempts, now);
    assert Holding(start.calls) == {};
    RunKeeps(g, start, steps);
    PassedWasCompared(g, start, steps);
    assert RemembersComparison(Run(g, start, steps), c, Run(g, start, steps).calls[c]);
  }

  // ------------------------------------------------------------------ calls that nothing interrupts

  /** Whether a verify call gets to compare its guess. */
  predicate Compares(row: Challenge, now: int) { Open(row, now) && row.attempts < row.maxAttempts }

  predicate Verifies(row: Challenge, guess: nat, now: int, userActive: bool) {
    Compares(row, now) && guess == row.otpHash && userActive
  }

  function AfterVerify(row: Challenge, guess: nat, now: int, userActive: bool): Challenge {
    row.(attempts := row.attempts + (if Compares(row, now) then 1 else 0),
         consumed := row.consumed || Verifies(row, guess, now, userActive))
  }

  function VerifySteps(guess: nat, userActive: bool): seq<Step> {
    [ReadForVerify(0, guess), Reserve(0), Compare(0), LoadUser(0, userActive), Consume(0)]
  }

  /** A resend that nothing interrupts is one of the schedules. */
  lemma ResendAloneIsARun(g: Settings, s: State, otpHash: nat)
    requires s.calls == map[]
    ensures var end := Run(g, s, [ReadForResend(0), WriteResend(0, otpHash)]);
            var sent := !s.row.consumed && s.now <= s.row.expiresAt && s.now - s.row.lastSentAt >= g.cooldown;
            && end.calls == map[]
            && end.row
                 == (if sent then Challenge(otpHash, 0, s.row.maxAttempts, false, s.now + g.ttl, s.now) else s.row)
            && end.sent == if sent then s.sent + [s.now] else s.sent
  {
    var read, write := ReadForResend(0), WriteResend(0, otpHash);
    assert [read, write] == [read] + [write] && [write] == [write] + [];
    RunNext(g, s, read, [write]);
    var s1 := Apply(g, s, read);
    RunNext(g, s1, write, []);
    if s1 != s { assert Apply(g, s1, write).calls == map[]; }
  }

  lemma RunNext(g: Settings, s: State, step: Step, rest: seq<Step>)
    ensures Run(g, s, [step] + rest) == Run(g, if Enabled(s, step) then Apply(g, s, step) else s, rest)
  {
    assert ([step] + rest)[1..] == rest;
  }

  lemma {:induction false} NobodyCalls(g: Settings, s: State, steps: seq<Step>)
    requires s.calls == map[] && forall i :: 0 <= i < |steps| ==>
            steps[i] in {Reserve(0), Compare(0), LoadUser(0, true), LoadUser(0, false), Consume(0)}
    ensures Run(g, s, steps) == s
    decreases |steps|
  {
    if steps != [] { NobodyCalls(g, s, steps[1..]); }
  }

  /** A verify call that nothing interrupts is one of the schedules; it ends, compares and succeeds as stated. */
  lemma VerifyAloneIsARun(g: Settings, s: State, guess: nat, userActive: bool)
    requires s.calls == map[]
    ensures var end := Run(g, s, VerifySteps(guess, userActive));
            && end.row == AfterVerify(s.row, guess, s.now, userActive) && end.calls == map[]
            && |end.compared| == |s.compared| + (if Compares(s.row, s.now) then 1 else 0)
            && end.successes == s.successes + if Verifies(s.row, guess, s.now, userActive) then 1 else 0
  {
    var later := [Reserve(0), Compare(0), LoadUser(0, userActive), Consume(0)];
    assert VerifySteps(guess, userActive) == [ReadForVerify(0, guess)] + later;
    RunNext(g, s, ReadForVerify(0, guess), later);
    if Compares(s.row, s.now) {
      GuessAlone(g, Apply(g, s, ReadForVerify(0, guess)), guess, userActive);
    } else {
      NobodyCalls(g, s, later);
    }
  }

  lemma GuessAlone(g: Settings, s: State, guess: nat, userActive: bool)
    requires s.calls == map[0 := Reading(guess, s.row.otpHash, Read(s.now, |s.sent|))] && !s.row.consumed
            && s.row.attempts < s.row.maxAttempts
    ensures var end := Run(g, s, [Reserve(0), Compare(0), LoadUser(0, userActive), Consume(0)]);
            var ok := guess == s.row.otpHash && userActive;
            && end.row == s.row.(attempts := s.row.attempts + 1, consumed := ok) && end.calls == map[]
            && |end.compared| == |s.compared| + 1 && end.successes == s.successes + if ok then 1 else 0
  {
    var ends := [LoadUser(0, userActive), Consume(0)];
    var s1 := Apply(g, s, Reserve(0));
    var s2 := Apply(g, s1, Compare(0));
    assert [Reserve(0), Compare(0), LoadUser(0, userActive), Consume(0)] == [Reserve(0)] + ([Compare(0)] + ends);
    RunNext(g, s, Reserve(0), [Compare(0)] + ends);
    RunNext(g, s1, Compare(0), ends);
    if guess == s.row.otpHash {
      EndAlone(g, s2, userActive);
    } else {
      assert s2.calls == map[];
      NobodyCalls(g, s2, ends);
    }
  }

  lemma EndAlone(g: Settings, s: State, userActive: bool)
    requires s.calls.Keys == {0} && s.calls[0].Matched? && !s.row.consumed
    ensures var end := Run(g, s, [LoadUser(0, userActive), Consume(0)]);
            && end.row == s.row.(consumed := userActive) && end.calls == map[]
            && end.compared == s.compared && end.successes == s.successes + if userActive then 1 else 0
  {
    var s1 := Apply(g, s, LoadUser(0, userActive));
    assert [LoadUser(0, userActive), Consume(0)] == [LoadUser(0, userActive)] + [Consume(0)];
    RunNext(g, s, LoadUser(0, userActive), [Consume(0)]);
    assert [Consume(0)] == [Consume(0)] + [];
    RunNext(g, s1, Consume(0), []);
    if userActive { assert Apply(g, s1, Consume(0)).calls == map[]; } else { assert s1.calls == map[]; }
  }

  // ------------------------------------------------------------------ the row and its statements

  class ChallengeRow {
    var row: Challenge

    constructor (g: Settings, otpHash: nat, maxAttempts: nat, now: int)
      ensures row == Created(g, otpHash, maxAttempts, now).row
    {
      row := Challenge(otpHash, 0, maxAttempts, false, now + g.ttl, now);
    }

    /** Takes one guess before anything is compared; false when none is left. */
    method ReserveGuess() returns (reserved: bool)
      modifies this
      ensures reserved <==> !old(row).consumed && old(row).attempts < old(row).maxAttempts
      ensures row == if reserved then old(row).(attempts := old(row).attempts + 1) else old(row)
    {
      reserved := !row.consumed && row.attempts < row.maxAttempts;
      if reserved { row := row.(attempts := row.attempts + 1); }
    }

    method ConsumeOnce() returns (consumed: bool)
      modifies this
      ensures consumed <==> !old(row).consumed
      ensures row == old(row).(consumed := true)
    {
      consumed := !row.consumed;
      if consumed { row := row.(consumed := true); }
    }

    /** A verify call that nothing interrupts: it succeeds exactly for the current code of an open challenge with
        guesses left and an active user, and every comparison costs an attempt. */
    method VerifyLoginOtp(guess: nat, now: int, userActive: bool) returns (ok: bool)
      modifies this
      ensures ok <==> Verifies(old(row), guess, now, userActive)
      ensures ok <==> !old(row).consumed && now <= old(row).expiresAt && old(row).attempts < old(row).maxAttempts
                      && guess == old(row).otpHash && userActive
      ensures ok ==> row == old(row).(attempts := old(row).attempts + 1, consumed := true)
      ensures now > old(row).expiresAt || old(row).consumed ==> row == old(row)
      ensures row == AfterVerify(old(row), guess, now, userActive)
    {
      var challenge := row;
      if challenge.consumed || challenge.expiresAt < now { return false; }
      if challenge.attempts >= challenge.maxAttempts { return false; }
      var reserved := ReserveGuess();
      if !reserved { return false; }
      if guess != challenge.otpHash { return false; }
      if !userActive { return false; }
      ok := ConsumeOnce();
    }

    method ResendLoginOtp(g: Settings, otpHash: nat, now: int, userActive: bool) returns (sent: bool)
      modifies this
      ensures sent <==> !old(row).consumed && now <= old(row).expiresAt
                        && now - old(row).lastSentAt >= g.cooldown && userActive
      ensures row == if sent then Challenge(otpHash, 0, old(row).maxAttempts, false, now + g.ttl, now) else old(row)
    {
      if row.consumed || row.expiresAt < now { return false; }
      if now - row.lastSentAt < g.cooldown { return false; }
      if !userActive { return false; }
      row := row.(otpHash := otpHash, attempts := 0, expiresAt := now + g.ttl, lastSentAt := now);
      return true;
    }
  }
}
