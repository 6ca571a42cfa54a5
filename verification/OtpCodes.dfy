/** The codes of one challenge over time: how far apart they are stored, and which of them a verify call accepts. */
module OtpCodes {
  import opened LoginOtp

  // ------------------------------------------------------------------ the resend cooldown

  predicate ResendsUnderWay(s: State, besides: nat) {
    exists d :: d in s.calls && d != besides && s.calls[d].Resending?
  }

  /** No code was stored between a resend's read and its write. Resends that read and then die do no harm. */
  predicate Uninterrupted(s: State, step: Step) {
    step.WriteResend? && Enabled(s, step) ==> s.calls[step.call].read.version == |s.sent|
  }

  predicate AlwaysUninterrupted(g: Settings, s: State, steps: seq<Step>)
    decreases |steps|
  {
    steps == []
    || (Uninterrupted(s, steps[0])
        && AlwaysUninterrupted(g, if Enabled(s, steps[0]) then Apply(g, s, steps[0]) else s, steps[1..]))
  }

  ghost predicate Spaced(sent: seq<int>, cooldown: nat) {
    forall i :: 0 < i < |sent| ==> sent[i] >= sent[i - 1] + cooldown
  }

  ghost predicate SendsKept(g: Settings, s: State) {
    && |s.sent| > 0 && s.row.lastSentAt == s.sent[|s.sent| - 1] <= s.now
    && Spaced(s.sent, g.cooldown)
    && (forall c :: c in s.calls && s.calls[c].Resending? ==>
          s.calls[c].read.version <= |s.sent|
          && (s.calls[c].read.version == |s.sent| ==> s.now - s.row.lastSentAt >= g.cooldown))
  }

  lemma StepKeepsSends(g: Settings, s: State, step: Step)
    requires SendsKept(g, s) && Enabled(s, step) && Uninterrupted(s, step)
    ensures SendsKept(g, Apply(g, s, step)) && s.sent <= Apply(g, s, step).sent
  {
  }

  lemma {:induction false} RunKeepsSends(g: Settings, s: State, steps: seq<Step>)
    requires SendsKept(g, s) && AlwaysUninterrupted(g, s, steps)
    ensures SendsKept(g, Run(g, s, steps)) && s.sent <= Run(g, s, steps).sent
    decreases |steps|
  {
    if steps != [] {
      if Enabled(s, steps[0]) { StepKeepsSends(g, s, steps[0]); }
      RunKeepsSends(g, if Enabled(s, steps[0]) then Apply(g, s, steps[0]) else s, steps[1..]);
    }
  }

  lemma {:induction false} SpacedTakesTime(sent: seq<int>, cooldown: nat, n: nat)
    requires Spaced(sent, cooldown) && n < |sent|
    ensures sent[n] - sent[0] >= n * cooldown
    decreases n
  {
    if n > 0 {
      SpacedTakesTime(sent, cooldown, n - 1);
      assert n * cooldown == (n - 1) * cooldown + cooldown;
    }
  }

  /** If no code is stored between a resend's read and its write, codes are stored a cooldown apart, and the time since
      the challenge was created bounds the comparisons. */
  lemma GuessesTakeTime(g: Settings, otpHash: nat, maxAttempts: nat, now: int, steps: seq<Step>)
    requires AlwaysUninterrupted(g, Created(g, otpHash, maxAttempts, now), steps)
    ensures var s := Run(g, Created(g, otpHash, maxAttempts, now), steps);
            && Spaced(s.sent, g.cooldown) && [now] <= s.sent && Resends(s) * g.cooldown <= s.now - now
            && (g.cooldown > 0 ==> |s.compared| <= maxAttempts * (1 + (s.now - now) / g.cooldown))
  {
    var start := Created(g, otpHash, maxAttempts, now);
    var s := Run(g, start, steps);
    RunKeepsSends(g, start, steps);
    SpacedTakesTime(s.sent, g.cooldown, Resends(s));
    GuessesAreBounded(g, otpHash, maxAttempts, now, steps);
    if g.cooldown > 0 {
      Quotient(Resends(s), g.cooldown, s.now - now);
      Scale(maxAttempts, 1 + Resends(s), 1 + (s.now - now) / g.cooldown);
    }
  }

  lemma Quotient(n: int, d: int, m: int)
    requires d > 0 && n * d <= m
    ensures n <= m / d
  {
    var q := m / d;
    assert m < (q + 1) * d by { assert m == q * d + m % d; }
    if n > q { Scale(d, q + 1, n); }
  }

  lemma Scale(k: int, m: int, n: int)
    requires k >= 0 && m <= n
    ensures k * m <= k * n
  {
    assert k * n == k * m + k * (n - m);
  }

  // ------------------------------------------------------------------ when the cooldown fails

  lemma {:induction false} NowNeverGoesBack(g: Settings, s: State, steps: seq<Step>)
    ensures s.now <= Run(g, s, steps).now
    decreases |steps|
  {
    if steps != [] { NowNeverGoesBack(g, if Enabled(s, steps[0]) then Apply(g, s, steps[0]) else s, steps[1..]); }
  }

  /** With no resend under way, nothing is stored before the cooldown since the last code is over. */
  lemma {:induction false} NextCodeWaits(g: Settings, s: State, steps: seq<Step>)
    requires forall c :: c in s.calls ==> !s.calls[c].Resending?
    requires |Run(g, s, steps).sent| > |s.sent|
    ensures Run(g, s, steps).now >= s.row.lastSentAt + g.cooldown
    decreases |steps|
  {
    if steps != [] {
      var s1 := if Enabled(s, steps[0]) then Apply(g, s, steps[0]) else s;
      assert s1.sent == s.sent && s1.row.lastSentAt == s.row.lastSentAt;
      if s1 != s && steps[0].ReadForResend? {
        NowNeverGoesBack(g, s1, steps[1..]);
      } else {
        NextCodeWaits(g, s1, steps[1..]);
      }
    }
  }

  lemma RunOnly(g: Settings, s: State, step: Step)
    requires Enabled(s, step)
    ensures Run(g, s, [step]) == Apply(g, s, step)
  {
    assert [step] == [step] + [];
    RunNext(g, s, step, []);
  }

  /** Exactly when the cooldown fails: after a code is stored, some schedule stores another one before the cooldown is
      over if and only if another resend was between its read and its write. */
  lemma NextCodeTooSoonIff(g: Settings, s: State, c: nat, otpHash: nat)
    requires Enabled(s, WriteResend(c, otpHash)) && g.cooldown > 0
    ensures var s' := Apply(g, s, WriteResend(c, otpHash));
            (exists steps :: Run(g, s', steps).now < s'.now + g.cooldown && |Run(g, s', steps).sent| > |s'.sent|)
            <==> ResendsUnderWay(s, c)
  {
    var s' := Apply(g, s, WriteResend(c, otpHash));
    if ResendsUnderWay(s, c) {
      var d :| d in s.calls && d != c && s.calls[d].Resending?;
      RunOnly(g, s', WriteResend(d, otpHash));
      var steps := [WriteResend(d, otpHash)];
      assert Run(g, s', steps).now < s'.now + g.cooldown && |Run(g, s', steps).sent| > |s'.sent|;
    } else {
      forall steps | |Run(g, s', steps).sent| > |s'.sent| ensures Run(g, s', steps).now >= s'.now + g.cooldown {
        NextCodeWaits(g, s', steps);
      }
    }
  }

  /** Two resends that both read before either writes are both granted, with no time between them. */
  lemma TwoResendsAtOnce(g: Settings, s: State, h0: nat, h1: nat)
    requires s.calls == map[] && Open(s.row, s.now) && s.now - s.row.lastSentAt >= g.cooldown
    ensures var s1 := Apply(g, Apply(g, s, ReadForResend(0)), ReadForResend(1));
            && Enabled(s1, WriteResend(0, h0)) && Enabled(Apply(g, s1, WriteResend(0, h0)), WriteResend(1, h1))
            && Apply(g, Apply(g, s1, WriteResend(0, h0)), WriteResend(1, h1)).sent == s.sent + [s.now, s.now]
  {
    assert s.sent + [s.now] + [s.now] == s.sent + [s.now, s.now];
  }

  // ------------------------------------------------------------------ which code is accepted

  /** A verify call holds the code that was current when it read the row. */
  ghost predicate HoldsVersion(s: State, k: Call) {
    !k.Resending? ==> 1 <= k.read.version <= |s.issued| && k.otpHash == s.issued[k.read.version - 1]
  }

  ghost predicate CodesKept(s: State) {
    && |s.issued| == |s.sent| > 0 && s.row.otpHash == s.issued[|s.issued| - 1]
    && forall c :: c in s.calls ==> HoldsVersion(s, s.calls[c])
  }

  lemma {:induction false} RunKeepsCodes(g: Settings, s: State, steps: seq<Step>)
    requires CodesKept(s)
    ensures CodesKept(Run(g, s, steps))
    decreases |steps|
  {
    if steps != [] { RunKeepsCodes(g, if Enabled(s, steps[0]) then Apply(g, s, steps[0]) else s, steps[1..]); }
  }

  // ------------------------------------------------------------------ expiry

  /** A call read the row while the code it read was still valid, counted from when that code was stored. */
  ghost predicate ReadInTime(g: Settings, s: State, k: Call) {
    1 <= k.read.version <= |s.sent| && k.read.at <= s.now && k.read.at <= s.sent[k.read.version - 1] + g.ttl
  }

  ghost predicate TimesKept(g: Settings, s: State) {
    && |s.sent| > 0 && s.row.expiresAt == s.sent[|s.sent| - 1] + g.ttl
    && forall c :: c in s.calls ==> ReadInTime(g, s, s.calls[c])
  }

  lemma {:induction false} RunKeepsTimes(g: Settings, s: State, steps: seq<Step>)
    requires TimesKept(g, s)
    ensures TimesKept(g, Run(g, s, steps))
    decreases |steps|
  {
    if steps != [] { RunKeepsTimes(g, if Enabled(s, steps[0]) then Apply(g, s, steps[0]) else s, steps[1..]); }
  }

  /** Expiry over every schedule: whoever is about to consume the challenge, and whoever is about to store a new code,
      read the row no later than the lifetime of the code it then held. */
  lemma NobodyActsOnAnExpiredCode(g: Settings, otpHash: nat, maxAttempts: nat, now: int, steps: seq<Step>, c: nat,
                                  h: nat)
    requires var s := Run(g, Created(g, otpHash, maxAttempts, now), steps);
             Enabled(s, Consume(c)) || Enabled(s, WriteResend(c, h))
    ensures var s := Run(g, Created(g, otpHash, maxAttempts, now), steps);
            var read := s.calls[c].read;
            1 <= read.version <= |s.sent| && read.at <= s.sent[read.version - 1] + g.ttl
  {
    RunKeepsTimes(g, Created(g, otpHash, maxAttempts, now), steps);
    var s := Run(g, Created(g, otpHash, maxAttempts, now), steps);
    assert ReadInTime(g, s, s.calls[c]);
  }

  // ------------------------------------------------------------------ the code in force

  /** The code a call is about to succeed with is the one stored when it read the row. So, codes being distinct, it is
      the current one if and only if no code was stored since. */
  lemma AcceptedIsCurrentIff(g: Settings, otpHash: nat, maxAttempts: nat, now: int, steps: seq<Step>, c: nat)
    requires Enabled(Run(g, Created(g, otpHash, maxAttempts, now), steps), Consume(c))
    ensures var s := Run(g, Created(g, otpHash, maxAttempts, now), steps);
            var k := s.calls[c];
            && 1 <= k.read.version <= |s.issued| && k.guess == s.issued[k.read.version - 1]
            && ((forall i, j :: 0 <= i < j < |s.issued| ==> s.issued[i] != s.issued[j]) ==>
                  (k.guess == s.row.otpHash <==> k.read.version == |s.issued|))
  {
    var start := Created(g, otpHash, maxAttempts, now);
    SuccessNeedsIssuedCode(g, otpHash, maxAttempts, now, steps, c);
    RunKeepsCodes(g, start, steps);
    assert HoldsVersion(Run(g, start, steps), Run(g, start, steps).calls[c]);
  }
}
