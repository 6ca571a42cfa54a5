/**
  The webhook delivery queue (apps/api/src/worker/webhook-delivery.worker.ts and
  apps/api/src/modules/webhooks/webhook-delivery.service.ts), one delivery at a time: rows do
  not interact except through their endpoint's active flag.

  Any number of workers poll the row, claim it with a compare-and-set and attempt it; a worker
  may die at any point. All of them read one clock, in
 milliseconds. */
module WebhookQueue {

  const MAX_DELIVERY_ATTEMPTS := 8
  const LEASE_MS := 120_000
  const TEST_LEASE_MS := 300_000
  const BACKOFF_SECONDS: seq<int> := [30, 120, 600, 1800, 3600, 10_800, 21_600]

  function BackoffSeconds(attemptsMade: int): int {
    var low := if attemptsMade - 1 < 0 then 0 else attemptsMade - 1;
    BACKOFF_SECONDS[if low < |BACKOFF_SECONDS| - 1 then low else |BACKOFF_SECONDS| - 1]
  }

  datatype Status = Pending | Delivered | Dead

  /** The columns the queue decides on. */
  datatype Row = Row(status: Status, attempts: nat, nextAttemptAt: int)

  /** The endpoint answered, or something threw on the way; `message` is what the error says. */
  datatype Outcome = Responded(code: int) | Failed(message: string)

  predicate Accepted(o: Outcome) { o.Responded? && 200 <= o.code < 300 }

  /** What the record treats as a success: no error text. An error that says nothing looks the same. */
  predicate Success(o: Outcome) { Accepted(o) || o == Failed("") }

  predicate Gone(o: Outcome) { o.Responded? && o.code == 410 }

  // ------------------------------------------------------------------ the two conditional writes

  /** The claim: only a row that still shows what the worker read is moved behind the lease. */
  function Claimed(row: Row, seen: Row, now: int): (Row, bool) {
    if row.status.Pending? && row.attempts == seen.attempts && row.nextAttemptAt == seen.nextAttemptAt
    then (row.(nextAttemptAt := now + LEASE_MS), true)
    else (row, false)
  }

  /** The record written when an attempt ends, from what the worker read when it polled. */
  function Recorded(row: Row, seen: Row, endpointActive: bool, isTest: bool, o: Outcome, now: int): Row {
    var attemptNumber := seen.attempts + 1;
    if !endpointActive then row.(status := Dead, attempts := attemptNumber)
    else if Success(o) then row.(status := Delivered, attempts := attemptNumber)
    else if Gone(o) then row.(status := Dead, attempts := attemptNumber)
    else if attemptNumber >= MAX_DELIVERY_ATTEMPTS || isTest then Row(Dead, attemptNumber, seen.nextAttemptAt)
    else Row(Pending, attemptNumber, now + BackoffSeconds(attemptNumber) * 1000)
  }

  /** The waits of the timetable, in seconds, by the number of attempts made before. */
  const WAITS: seq<int> := [30, 120, 600, 1800, 3600, 10_800, 21_600]

  /** What an attempt that failed leaves behind: a retry after its wait, or a dead row after the eighth attempt or for a
      test event. */
  predicate LeftByFailure(r: Row, seen: Row, isTest: bool, now: int) {
    if seen.attempts < 7 && !isTest then r == Row(Pending, seen.attempts + 1, now + 1000 * WAITS[seen.attempts])
    else r == Row(Dead, seen.attempts + 1, seen.nextAttemptAt)
  }

  /** The record in the endpoint's own codes: 2xx delivers and 410 buries, anything else is a failure. */
  lemma RecordedByCode(row: Row, seen: Row, endpointActive: bool, isTest: bool, o: Outcome, now: int)
    ensures var r := Recorded(row, seen, endpointActive, isTest, o, now);
            && r.attempts == seen.attempts + 1
            && (!endpointActive ==> r.status == Dead)
            && (endpointActive && o.Responded? && 200 <= o.code <= 299 ==> r.status == Delivered)
            && (endpointActive && o == Responded(410) ==> r.status == Dead)
            && (endpointActive && o.Responded? && !(200 <= o.code <= 299) && o.code != 410 ==>
                  LeftByFailure(r, seen, isTest, now))
            && (endpointActive && o.Failed? && o.message != "" ==> LeftByFailure(r, seen, isTest, now))
  {
  }

  /** A row is recorded as delivered although the endpoint never accepted it exactly when the attempt failed with an
      empty message; every other failure leads to a retry or to the end of the row. */
  lemma DeliveredUnlessSilent(row: Row, seen: Row, endpointActive: bool, isTest: bool, o: Outcome, now: int)
    requires row.status.Pending?
    ensures var r := Recorded(row, seen, endpointActive, isTest, o, now);
            && (r.status.Delivered? && !Accepted(o) <==> endpointActive && o == Failed(""))
            && (r.status.Pending? ==> !isTest && r.attempts < MAX_DELIVERY_ATTEMPTS && r.nextAttemptAt >= now + 30_000)
            && (Accepted(o) && endpointActive ==> r.status.Delivered?)
            && r.attempts == seen.attempts + 1
  {
    BackoffGrows(1, seen.attempts + 1);
  }

  /** Waiting times never shrink, start at 30 seconds and stop growing at six hours. */
  lemma BackoffGrows(m: int, n: int)
    requires m <= n
    ensures 30 <= BackoffSeconds(m) <= BackoffSeconds(n) <= 21_600
    ensures BackoffSeconds(m) < BackoffSeconds(n) <==> m < n && n >= 2 && m < 7
  {
  }

  // ------------------------------------------------------------------ state and steps

  /** What a worker read, with the version and era of the row at that moment (bookkeeping the program does not have). */
  datatype Snapshot = Snapshot(row: Row, endpointActive: bool, version: nat, era: nat)

  datatype Worker =
    | Polled(seen: Snapshot)
    | Attempting(seen: Snapshot, claimedAt: int, leaseEnds: int)

  datatype Attempt = Attempt(startedAt: int, finishedAt: int)

  /** `history` holds the recorded attempts since the last manual retry; `version` counts writes to the row and
      `era` manual retries. `retriedAt` and `retriedVersion` say when the last of them was and which version it
      wrote. */
  datatype State = State(now: int, row: Row, endpointActive: bool, isTest: bool, workers: map<nat, Worker>,
                         history: seq<Attempt>, version: nat, era: nat, retriedAt: int, retriedVersion: nat)

  /** A dispatched delivery is due at once. */
  function Queued(now: int): State {
    State(now, Row(Pending, 0, now), true, false, map[], [], 0, 0, now, 0)
  }

  /** "Send test event" creates the row and attempts it in the same call, behind a lease of its own. */
  function TestSent(now: int): State {
    var row := Row(Pending, 0, now + TEST_LEASE_MS);
    State(now, row, true, true, map[0 := Attempting(Snapshot(row, true, 0, 0), now, now + TEST_LEASE_MS)],
          [], 0, 0, now, 0)
  }

  datatype Step =
    | Tick(now: int)
    | Poll(worker: nat)
    | Claim(worker: nat)
    | Finish(worker: nat, outcome: Outcome)
    | Die(worker: nat)
    | DisableEndpoint
    | Retry

  /** Time passes only while every attempt is inside its lease, and a manual retry waits for attempts to end: the two
      conditions mutual exclusion rests on. */
  predicate Enabled(s: State, step: Step) {
    match step
    case Tick(now) => s.now <= now && forall w :: w in s.workers && s.workers[w].Attempting? ==>
        now < s.workers[w].leaseEnds
    case Poll(w) => w !in s.workers && s.row.status.Pending? && s.row.nextAttemptAt <= s.now
    case Claim(w) => w in s.workers && s.workers[w].Polled?
    case Finish(w, _) => w in s.workers && s.workers[w].Attempting?
    case Die(w) => w in s.workers
    case DisableEndpoint => true
    case Retry => !s.row.status.Delivered? && forall w :: w in s.workers ==> s.workers[w].Polled?
  }

  function Apply(s: State, step: Step): State
    requires Enabled(s, step)
  {
    match step
    case Tick(now) => s.(now := now)
    case Poll(w) => s.(workers := s.workers[w := Polled(Snapshot(s.row, s.endpointActive, s.version, s.era))])
    case Claim(w) =>
      var seen := s.workers[w].seen;
      var c := Claimed(s.row, seen.row, s.now);
      if c.1 then s.(row := c.0, version := s.version + 1,
          workers := s.workers[w := Attempting(seen, s.now, s.now + LEASE_MS)])
      else s.(workers := s.workers - {w})
    case Finish(w, o) =>
      var a := s.workers[w];
      s.(row := Recorded(s.row, a.seen.row, a.seen.endpointActive, s.isTest, o, s.now),
         endpointActive := s.endpointActive && !(a.seen.endpointActive && Gone(o)),
         version := s.version + 1, workers := s.workers - {w},
         history := s.history + [Attempt(a.claimedAt, s.now)])
    case Die(w) => s.(workers := s.workers - {w})
    case DisableEndpoint => s.(endpointActive := false)
    case Retry =>
      s.(row := Row(Pending, 0, s.now), history := [], version := s.version + 1, era := s.era + 1,
         retriedAt := s.now, retriedVersion := s.version + 1)
  }

  function Run(s: State, steps: seq<Step>): State
    decreases |steps|
  {
    if steps == [] then s else Run(if Enabled(s, steps[0]) then Apply(s, steps[0]) else s, steps[1..])
  }

  // ------------------------------------------------------------------ mutual exclusion and the attempt budget

  /** Each recorded attempt started a full backoff after the one before it ended. */
  ghost predicate Spaced(history: seq<Attempt>, now: int) {
    && (forall i :: 0 <= i < |history| ==> history[i].startedAt <= history[i].finishedAt <= now)
    && (forall i :: 0 < i < |history| ==> history[i].startedAt >= history[i - 1].finishedAt + BackoffSeconds(i) * 1000)
  }

  /** The earliest time the next attempt may start. */
  ghost predicate NotBefore(history: seq<Attempt>, t: int) {
    |history| > 0 ==> t >= history[|history| - 1].finishedAt + BackoffSeconds(|history|) * 1000
  }

  ghost predicate Safe(s: State) {
    && (forall w :: w in s.workers && s.workers[w].Polled? ==> s.workers[w].seen.row.nextAttemptAt <= s.now)
    && (forall w :: w in s.workers && s.workers[w].Attempting? ==>
          && s.row == Row(Pending, s.workers[w].seen.row.attempts, s.workers[w].leaseEnds)
          && s.workers[w].claimedAt <= s.now < s.workers[w].leaseEnds
          && NotBefore(s.history, s.workers[w].claimedAt))
    && (forall v, w :: v in s.workers && w in s.workers && s.workers[v].Attempting? && s.workers[w].Attempting?
         ==> v == w)
    && |s.history| == s.row.attempts <= MAX_DELIVERY_ATTEMPTS
    && (s.row.status.Pending? ==> s.row.attempts < MAX_DELIVERY_ATTEMPTS && NotBefore(s.history, s.row.nextAttemptAt))
    && Spaced(s.history, s.now)
  }

  lemma ClaimKeepsSafe(s: State, w: nat)
    requires Safe(s) && Enabled(s, Claim(w))
    ensures Safe(Apply(s, Claim(w)))
  {
    var seen := s.workers[w].seen;
    if Claimed(s.row, seen.row, s.now).1 {
      forall v | v in s.workers ensures s.workers[v].Polled? { assert seen.row.nextAttemptAt <= s.now; }
      ClaimWins(s, w);
    }
  }

  /** A claim can only win when nobody is attempting. */
  lemma ClaimWins(s: State, w: nat)
    requires Safe(s) && Enabled(s, Claim(w)) && Claimed(s.row, s.workers[w].seen.row, s.now).1
    requires forall v :: v in s.workers ==> s.workers[v].Polled?
    ensures Safe(Apply(s, Claim(w)))
  {
    var s' := Apply(s, Claim(w));
    forall v | v in s'.workers ensures v == w || s'.workers[v].Polled? {
      assert v != w ==> s'.workers[v] == s.workers[v];
    }
  }

  lemma FinishKeepsSafe(s: State, w: nat, o: Outcome)
    requires Safe(s) && Enabled(s, Finish(w, o))
    ensures Safe(Apply(s, Finish(w, o)))
  {
    assert BackoffSeconds(s.row.attempts + 1) >= 0;
  }

  lemma StepKeepsSafe(s: State, step: Step)
    requires Safe(s) && Enabled(s, step)
    ensures Safe(Apply(s, step))
  {
    match step
    case Claim(w) => ClaimKeepsSafe(s, w);
    case Finish(w, o) => FinishKeepsSafe(s, w, o);
    case _ =>
  }

  /** No two workers ever attempt the delivery at once, at most eight attempts are recorded, a pending row has fewer,
      and every attempt waits out its backoff: under any schedule. */
  lemma {:induction false} RunIsSafe(s: State, steps: seq<Step>)
    requires Safe(s)
    ensures Safe(Run(s, steps))
    decreases |steps|
  {
    if steps != [] {
      if Enabled(s, steps[0]) { StepKeepsSafe(s, steps[0]); }
      RunIsSafe(if Enabled(s, steps[0]) then Apply(s, steps[0]) else s, steps[1..]);
    }
  }

  lemma BothStartsAreSafe(now: int)
    ensures Safe(Queued(now)) && Safe(TestSent(now))
    ensures Queued(now).row == Row(Pending, 0, now) && TestSent(now).row == Row(Pending, 0, now + 300_000)
  {
  }

  /** Mutual exclusion, for both ways a delivery comes to exist. */
  lemma NeverTwoAttempts(start: State, now: int, steps: seq<Step>, v: nat, w: nat)
    requires start == Queued(now) || start == TestSent(now)
    ensures var s := Run(start, steps);
            v in s.workers && w in s.workers && s.workers[v].Attempting? && s.workers[w].Attempting? ==> v == w
  {
    BothStartsAreSafe(now);
    RunIsSafe(start, steps);
  }

  ghost predicate BothAttempt(s: State, v: nat, w: nat) {
    v in s.workers && w in s.workers && s.workers[v].Attempting? && s.workers[w].Attempting?
  }

  /** The lease protects an attempt exactly as long as it lasts: a second worker that looks at time `at` gets in, and
      both attempt at once, if and only if the lease is over by then. */
  lemma LeaseProtectsExactly(s: State, w: nat, v: nat, at: int)
    requires Safe(s) && w in s.workers && s.workers[w].Attempting? && v !in s.workers && at >= s.now
    ensures var late := s.(now := at);
            && (Enabled(late, Poll(v)) <==> at >= s.workers[w].leaseEnds)
            && (Enabled(late, Poll(v)) ==> BothAttempt(Apply(Apply(late, Poll(v)), Claim(v)), v, w))
  {
  }

  /** A manual retry while `w` is attempting lets a second worker in at once. */
  lemma RetryLetsAnotherIn(s: State, w: nat, v: nat)
    requires Safe(s) && w in s.workers && s.workers[w].Attempting? && v !in s.workers
    ensures var reset := s.(row := Row(Pending, 0, s.now));
            Enabled(reset, Poll(v)) && BothAttempt(Apply(Apply(reset, Poll(v)), Claim(v)), v, w)
  {
  }

  /** Delivered rows never change; dead ones only by a manual retry. */
  lemma TerminalRowsStay(s: State, step: Step)
    requires Safe(s) && Enabled(s, step) && !s.row.status.Pending?
    ensures Apply(s, step).row == s.row || (step.Retry? && s.row.status.Dead?)
  {
  }

  /** An attempt that found its endpoint active switches it off if and only if the answer is 410. */
  lemma GoneSwitchesOff(s: State, w: nat, o: Outcome)
    requires Enabled(s, Finish(w, o)) && s.endpointActive && s.workers[w].seen.endpointActive
    ensures !Apply(s, Finish(w, o)).endpointActive <==> o == Responded(410)
  {
  }

  /** Over every schedule an endpoint is only ever switched off by hand or by an attempt that was answered 410. */
  lemma {:induction false} OnlyGoneSwitchesOff(s: State, steps: seq<Step>)
    requires s.endpointActive && !Run(s, steps).endpointActive
    ensures exists i :: 0 <= i < |steps|
              && (steps[i] == DisableEndpoint || (steps[i].Finish? && steps[i].outcome == Responded(410)))
    decreases |steps|
  {
    var s1 := if Enabled(s, steps[0]) then Apply(s, steps[0]) else s;
    if s1.endpointActive {
      OnlyGoneSwitchesOff(s1, steps[1..]);
      var i :| 0 <= i < |steps[1..]| && (steps[1..][i] == DisableEndpoint
                                         || (steps[1..][i].Finish? && steps[1..][i].outcome == Responded(410)));
      assert steps[i + 1] == steps[1..][i];
    } else {
      assert steps[0] == DisableEndpoint || (steps[0].Finish? && steps[0].outcome == Responded(410));
    }
  }

  function BackoffSum(n: nat): int { if n == 0 then 0 else BackoffSum(n - 1) + BackoffSeconds(n) }

  lemma {:induction false} AttemptsSpreadOut(history: seq<Attempt>, now: int, n: nat)
    requires Spaced(history, now) && n < |history|
    ensures history[n].startedAt >= history[0].finishedAt
            + (if n == 0 then history[0].startedAt - history[0].finishedAt else BackoffSum(n) * 1000)
    decreases n
  {
    if n > 0 { AttemptsSpreadOut(history, now, n - 1); }
  }

  /** The eighth recorded attempt starts at least 38550 seconds after the first one ended. */
  lemma EighthAttemptWaits(s: State, steps: seq<Step>)
    requires Safe(s)
    ensures var h := Run(s, steps).history;
            |h| <= 8 && (|h| == 8 ==> h[7].startedAt - h[0].finishedAt >= 38_550_000)
  {
    RunIsSafe(s, steps);
    var end := Run(s, steps);
    if |end.history| == 8 {
      AttemptsSpreadOut(end.history, end.now, 7);
      assert BackoffSum(1) == 30 && BackoffSum(2) == 150 && BackoffSum(3) == 750 && BackoffSum(4) == 2550;
      assert BackoffSum(5) == 6150 && BackoffSum(6) == 16_950 && BackoffSum(7) == 38_550;
    }
  }

  // ------------------------------------------------------------------ the stamp is never reused

  /** `a` was written before `b`: attempts first, then the time. */
  predicate Earlier(a: Row, b: Row) {
    a.attempts < b.attempts || (a.attempts == b.attempts && a.nextAttemptAt < b.nextAttemptAt)
  }

  /** Every snapshot of the current era is either of the current version, and then shows the row, or older, and then
      shows a smaller stamp than any pending row. */
  ghost predicate SnapshotFits(s: State, seen: Snapshot) {
    && seen.era <= s.era
    && (seen.era == s.era ==> seen.version <= s.version)
    && (seen.era == s.era && seen.version == s.version ==> seen.row == s.row)
    && (seen.era == s.era && seen.version < s.version && s.row.status.Pending? ==> Earlier(seen.row, s.row))
  }

  ghost predicate Fenced(s: State) {
    forall w :: w in s.workers ==> SnapshotFits(s, s.workers[w].seen)
  }

  /** A write to a pending row always raises its stamp. */
  lemma StampRises(s: State, step: Step)
    requires Safe(s) && Enabled(s, step) && !step.Retry?
    ensures var s' := Apply(s, step);
            && (s'.version == s.version ==> s'.row == s.row)
            && (s'.version != s.version ==> s'.version == s.version + 1 && s.row.status.Pending?)
            && (s'.version != s.version && s'.row.status.Pending? ==> Earlier(s.row, s'.row))
  {
  }

  lemma StepKeepsFenced(s: State, step: Step)
    requires Safe(s) && Fenced(s) && Enabled(s, step)
    ensures Fenced(Apply(s, step))
  {
    var s' := Apply(s, step);
    if !step.Retry? { StampRises(s, step); }
    forall w | w in s'.workers ensures SnapshotFits(s', s'.workers[w].seen) {
      if w in s.workers && s'.workers[w].seen == s.workers[w].seen {
        assert SnapshotFits(s, s.workers[w].seen);
      } else {
        assert step == Poll(w);
      }
    }
  }

  /** What a snapshot from before the last manual retry can still match: the row as the retry left it. Every later write
      to a pending row names a time after the retry. */
  ghost predicate OutdatedFits(s: State, seen: Snapshot) {
    seen.era < s.era ==> seen.row.nextAttemptAt <= s.retriedAt
  }

  ghost predicate RetryKept(s: State) {
    && s.retriedAt <= s.now && s.retriedVersion <= s.version
    && (s.era > 0 && s.version == s.retriedVersion ==> s.row == Row(Pending, 0, s.retriedAt))
    && (s.era > 0 && s.version > s.retriedVersion && s.row.status.Pending? ==> s.row.nextAttemptAt > s.retriedAt)
    && (forall w :: w in s.workers && s.workers[w].Polled? ==> OutdatedFits(s, s.workers[w].seen))
  }

  lemma StepKeepsRetry(s: State, step: Step)
    requires Safe(s) && Fenced(s) && RetryKept(s) && Enabled(s, step)
    ensures RetryKept(Apply(s, step))
  {
    var s' := Apply(s, step);
    if step.Finish? { assert BackoffSeconds(s.workers[step.worker].seen.row.attempts + 1) >= 30; }
    forall w | w in s'.workers && s'.workers[w].Polled? ensures OutdatedFits(s', s'.workers[w].seen) {
      if w in s.workers && s'.workers[w] == s.workers[w] { assert OutdatedFits(s, s.workers[w].seen); }
      else { assert step == Poll(w); }
    }
  }

  lemma {:induction false} RunIsFencedByRetries(s: State, steps: seq<Step>)
    requires Safe(s) && Fenced(s) && RetryKept(s)
    ensures Safe(Run(s, steps)) && Fenced(Run(s, steps)) && RetryKept(Run(s, steps))
    decreases |steps|
  {
    if steps != [] {
      if Enabled(s, steps[0]) {
        StepKeepsSafe(s, steps[0]);
        StepKeepsFenced(s, steps[0]);
        StepKeepsRetry(s, steps[0]);
      }
      RunIsFencedByRetries(if Enabled(s, steps[0]) then Apply(s, steps[0]) else s, steps[1..]);
    }
  }

  /** The snapshot shows the very stamp the last manual retry wrote, and nothing was written since the retry. */
  predicate SawTheRetry(s: State, seen: Snapshot) {
    s.version == s.retriedVersion && seen.row.attempts == 0 && seen.row.nextAttemptAt == s.retriedAt
  }

  /** When a claim wins, after any schedule. Between retries the compared values are as good as a version number: it
      wins exactly when nothing was written since the poll. A poll from before the last manual retry wins exactly when
      it saw the very stamp the retry wrote, and nothing was written since the retry. */
  lemma ClaimWinsIff(start: State, now: int, steps: seq<Step>, w: nat)
    requires start == Queued(now) || start == TestSent(now)
    requires Enabled(Run(start, steps), Claim(w))
    ensures var s := Run(start, steps);
            var seen := s.workers[w].seen;
            Claimed(s.row, seen.row, s.now).1
            <==> s.row.status.Pending?
                 && (if seen.era == s.era then seen.version == s.version else SawTheRetry(s, seen))
  {
    BothStartsAreSafe(now);
    RunIsFencedByRetries(start, steps);
    var s := Run(start, steps);
    assert SnapshotFits(s, s.workers[w].seen) && OutdatedFits(s, s.workers[w].seen);
  }

  /** A row polled in the millisecond it was queued, and retried by hand in the same one, is claimed with the poll's
      stamp although it was written since. */
  lemma RetryReusesTheStamp(now: int)
    ensures var s := Run(Queued(now), [Poll(0), Retry]);
            && Enabled(s, Claim(0)) && Claimed(s.row, s.workers[0].seen.row, s.now).1
            && s.workers[0].seen.version < s.version
  {
    var s := Queued(now);
    assert [Poll(0), Retry][1..] == [Retry] && [Retry][1..] == [];
    var s1 := Apply(s, Poll(0));
    assert Run(s, [Poll(0), Retry]) == Run(s1, [Retry]) == Run(Apply(s1, Retry), []);
  }

  // ------------------------------------------------------------------ an endpoint that always fails

  /** A lone worker takes the row as soon as it is due and the endpoint answers `o` after `took` milliseconds. */
  function Round(took: nat, o: Outcome, at: int): seq<Step> {
    [Tick(at), Poll(0), Claim(0), Tick(at + took), Finish(0, o)]
  }

  ghost predicate Waiting(s: State, attempts: nat) {
    && s.workers == map[] && s.row.status.Pending? && s.row.attempts == attempts < MAX_DELIVERY_ATTEMPTS
    && s.endpointActive && !s.isTest && s.now <= s.row.nextAttemptAt
  }

  lemma RoundFails(s: State, attempts: nat, took: nat, o: Outcome) returns (s': State)
    requires Waiting(s, attempts) && took < LEASE_MS && !Success(o) && !Gone(o)
    ensures s' == Run(s, Round(took, o, s.row.nextAttemptAt))
    ensures var end := s.row.nextAttemptAt + took;
            && s'.row.attempts == attempts + 1 && s'.now == end
            && s'.history == s.history + [Attempt(s.row.nextAttemptAt, end)]
            && (attempts + 1 < MAX_DELIVERY_ATTEMPTS ==>
                  Waiting(s', attempts + 1) && s'.row.nextAttemptAt == end + BackoffSeconds(attempts + 1) * 1000)
            && (attempts + 1 == MAX_DELIVERY_ATTEMPTS ==> s'.row.status.Dead?)
  {
    var at := s.row.nextAttemptAt;
    var steps := Round(took, o, at);
    var s1 := Apply(s, Tick(at));
    var s2 := Apply(s1, Poll(0));
    var s3 := Apply(s2, Claim(0));
    var s4 := Apply(s3, Tick(at + took));
    s' := Apply(s4, Finish(0, o));
    assert BackoffSeconds(attempts + 1) >= 0;
    assert s'.workers == map[];
    calc {
      Run(s, steps);
      { assert steps[1..] == [Poll(0), Claim(0), Tick(at + took), Finish(0, o)]; }
      Run(s1, [Poll(0), Claim(0), Tick(at + took), Finish(0, o)]);
      { assert [Poll(0), Claim(0), Tick(at + took), Finish(0, o)][1..] == [Claim(0), Tick(at + took), Finish(0, o)]; }
      Run(s2, [Claim(0), Tick(at + took), Finish(0, o)]);
      { assert [Claim(0), Tick(at + took), Finish(0, o)][1..] == [Tick(at + took), Finish(0, o)]; }
      Run(s3, [Tick(at + took), Finish(0, o)]);
      { assert [Tick(at + took), Finish(0, o)][1..] == [Finish(0, o)]; }
      Run(s4, [Finish(0, o)]);
      Run(s', []);
      s';
    }
  }

  /** The retry timetable: with an endpoint that keeps failing, the row stays pending for seven attempts, each at the
      moment its backoff ends, and the eighth buries it. */
  lemma {:induction false} FailingDeliveryDies(s: State, attempts: nat, took: nat, o: Outcome)
      returns (end: State, steps: seq<Step>)
    requires Waiting(s, attempts) && took < LEASE_MS && !Success(o) && !Gone(o)
    ensures end == Run(s, steps) && end.row.status.Dead? && end.row.attempts == MAX_DELIVERY_ATTEMPTS
    ensures |end.history| == |s.history| + MAX_DELIVERY_ATTEMPTS - attempts
    ensures end.now
            == s.row.nextAttemptAt + (MAX_DELIVERY_ATTEMPTS - attempts) * took
                + (BackoffSum(7) - BackoffSum(attempts)) * 1000
    decreases MAX_DELIVERY_ATTEMPTS - attempts
  {
    var s1 := RoundFails(s, attempts, took, o);
    steps := Round(took, o, s.row.nextAttemptAt);
    end := s1;
    if attempts + 1 < MAX_DELIVERY_ATTEMPTS {
      var rest;
      end, rest := FailingDeliveryDies(s1, attempts + 1, took, o);
      RunConcat(s, steps, rest);
      steps := steps + rest;
    }
  }

  lemma {:induction false} RunConcat(s: State, a: seq<Step>, b: seq<Step>)
    ensures Run(s, a + b) == Run(Run(s, a), b)
    decreases |a|
  {
    if a == [] { assert a + b == b; }
    else {
      assert (a + b)[0] == a[0] && (a + b)[1..] == a[1..] + b;
      RunConcat(if Enabled(s, a[0]) then Apply(s, a[0]) else s, a[1..], b);
    }
  }
}
