/** How many AI replies fit into ten minutes, however many runs overlap. */
module AiReplyRate {
  import opened Options
  import opened AiReply

  // ------------------------------------------------------------------ the bound

  function ThinkingRuns(runs: map<nat, Run>): set<nat> { set r | r in runs && runs[r].Thinking? }

  /** Whenever a run begins, at most `p` runs are thinking, itself included. */
  predicate AtMost(p: nat, s: State, step: Step) { step.Begin? ==> |ThinkingRuns(s.runs)| < p }

  predicate AtMostAlong(p: nat, s: State, steps: seq<Step>)
    decreases |steps|
  {
    steps == [] || (var s1 := if Enabled(s, steps[0]) then Apply(s, steps[0]) else s;
                    (Enabled(s, steps[0]) ==> AtMost(p, s, steps[0])) && AtMostAlong(p, s1, steps[1..]))
  }

  function Recent(s: State): nat { AiBetween(s.messages, s.now - WINDOW_MS, s.now) }

  function Capacity(p: nat): int { MAX_AI_REPLIES_PER_10_MIN - 1 + p }

  ghost predicate WindowsHold(messages: seq<Message>, most: int) {
    forall from: int, to: int :: to <= from + WINDOW_MS ==> AiBetween(messages, from, to) <= most
  }

  /** Replies of the last ten minutes and replies still being thought of together never exceed the capacity. */
  ghost predicate RateKept(p: nat, s: State) {
    && (forall m :: m in s.messages ==> m.createdAt <= s.now)
    && WindowsHold(s.messages, Capacity(p))
    && Recent(s) + |ThinkingRuns(s.runs)| <= Capacity(p)
  }

  lemma {:induction false} UpToMonotone(messages: seq<Message>, n: nat, from: int, to: int, from': int, to': int)
    requires n <= |messages| && from' <= from
    requires forall m :: m in messages ==> m.createdAt <= to' || to <= to'
    ensures AiUpTo(messages, n, from, to) <= AiUpTo(messages, n, from', to')
  {
    if n > 0 {
      assert messages[n - 1] in messages;
      UpToMonotone(messages, n - 1, from, to, from', to');
    }
  }

  lemma WindowMonotone(messages: seq<Message>, from: int, to: int, from': int, to': int)
    requires from' <= from
    requires forall m :: m in messages ==> m.createdAt <= to' || to <= to'
    ensures AiBetween(messages, from, to) <= AiBetween(messages, from', to')
  {
    UpToMonotone(messages, |messages|, from, to, from', to');
  }

  lemma ThinkingAfter(runs: map<nat, Run>, r: nat, run: Run)
    ensures ThinkingRuns(runs[r := run]) == if run.Thinking? then ThinkingRuns(runs) + {r} else ThinkingRuns(runs) - {r}
    ensures ThinkingRuns(runs - {r}) == ThinkingRuns(runs) - {r}
  {
  }

  lemma StillThinking(runs: map<nat, Run>, r: nat, run: Run)
    requires r !in runs && !run.Thinking?
    ensures ThinkingRuns(runs[r := run]) == ThinkingRuns(runs)
  {
  }

  /** The windows after one more message, if there is room in the ten minutes that end with it. */
  lemma RoomForOne(messages: seq<Message>, m: Message, most: int)
    requires WindowsHold(messages, most) && forall n :: n in messages ==> n.createdAt <= m.createdAt
    requires AiBetween(messages, m.createdAt - WINDOW_MS, m.createdAt) < most
    ensures WindowsHold(messages + [m], most)
  {
    forall from: int, to: int | to <= from + WINDOW_MS ensures AiBetween(messages + [m], from, to) <= most {
      WindowAppend(messages, m, from, to);
      if from < m.createdAt <= to { WindowMonotone(messages, from, to, m.createdAt - WINDOW_MS, m.createdAt); }
    }
  }

  lemma OneMoreReply(p: nat, messages: seq<Message>, m: Message, thinking: nat)
    requires m.author == AI && (forall n :: n in messages ==> n.createdAt <= m.createdAt)
            && WindowsHold(messages, Capacity(p))
    requires AiBetween(messages, m.createdAt - WINDOW_MS, m.createdAt) + thinking <= Capacity(p) && thinking > 0
    ensures (forall n :: n in messages + [m] ==> n.createdAt <= m.createdAt) && WindowsHold(messages + [m], Capacity(p))
    ensures AiBetween(messages + [m], m.createdAt - WINDOW_MS, m.createdAt) + thinking - 1 <= Capacity(p)
  {
    RoomForOne(messages, m, Capacity(p));
    WindowAppend(messages, m, m.createdAt - WINDOW_MS, m.createdAt);
  }

  lemma PostKeepsRate(p: nat, s: State, r: nat, g: Signals)
    requires RateKept(p, s) && Enabled(s, Post(r, g))
    ensures RateKept(p, Apply(s, Post(r, g)))
  {
    ThinkingAfter(s.runs, r, Tagging(s.runs[r].tags, true));
    assert r in ThinkingRuns(s.runs);
    if !KeyTaken(s.messages, AiKey(s.runs[r].messageKey)) {
      PostAdds(s, r, g);
      OneMoreReply(p, s.messages, Apply(s, Post(r, g)).messages[|s.messages|], |ThinkingRuns(s.runs)|);
    }
  }

  lemma OneMoreOther(messages: seq<Message>, m: Message, most: int)
    requires m.author != AI && (forall n :: n in messages ==> n.createdAt <= m.createdAt) && WindowsHold(messages, most)
    ensures (forall n :: n in messages + [m] ==> n.createdAt <= m.createdAt) && WindowsHold(messages + [m], most)
    ensures AiBetween(messages + [m], m.createdAt - WINDOW_MS, m.createdAt)
            == AiBetween(messages, m.createdAt - WINDOW_MS, m.createdAt)
  {
    forall from: int, to: int ensures AiBetween(messages + [m], from, to) == AiBetween(messages, from, to) {
      WindowAppend(messages, m, from, to);
    }
  }

  lemma OtherMessageKeepsRate(p: nat, s: State, m: Message, runs: map<nat, Run>)
    requires RateKept(p, s) && m.author != AI && m.createdAt == s.now && ThinkingRuns(runs) == ThinkingRuns(s.runs)
    ensures RateKept(p, s.(messages := s.messages + [m], runs := runs))
  {
    OneMoreOther(s.messages, m, Capacity(p));
  }

  lemma WriteKeepsRate(p: nat, s: State, step: Step)
    requires RateKept(p, s) && Enabled(s, step) && step.Write?
    ensures RateKept(p, Apply(s, step))
  {
    OtherMessageKeepsRate(p, s, Message(step.author, s.now, step.key, None), s.runs);
  }

  lemma RequestKeepsRate(p: nat, s: State, r: nat)
    requires RateKept(p, s) && Enabled(s, RequestHuman(r))
    ensures RateKept(p, Apply(s, RequestHuman(r)))
  {
    StillThinking(s.runs, r, Tagging(s.tags, false));
    OtherMessageKeepsRate(p, s, Message(System, s.now, Some("human-request"), None),
        s.runs[r := Tagging(s.tags, false)]);
  }

  lemma RunsOnlyKeepRate(p: nat, s: State, step: Step)
    requires RateKept(p, s) && Enabled(s, step) && AtMost(p, s, step)
    requires step.SetTicket? || step.Begin? || step.MarkHandoff? || step.Die?
    ensures RateKept(p, Apply(s, step))
  {
    if step.Begin? { ThinkingAfter(s.runs, step.run, Thinking(step.messageKey, s.tags, CountUnanswered(s.messages))); }
    if step.MarkHandoff? || step.Die? { ThinkingAfter(s.runs, step.run, Tagging({}, false)); }
  }

  lemma StepKeepsRate(p: nat, s: State, step: Step)
    requires RateKept(p, s) && Enabled(s, step) && AtMost(p, s, step)
    ensures RateKept(p, Apply(s, step))
  {
    if step.Post? { PostKeepsRate(p, s, step.run, step.signals); }
    else if step.Write? { WriteKeepsRate(p, s, step); }
    else if step.RequestHuman? { RequestKeepsRate(p, s, step.run); }
    else if step.Tick? { WindowMonotone(s.messages, step.now - WINDOW_MS, step.now, s.now - WINDOW_MS, s.now); }
    else { RunsOnlyKeepRate(p, s, step); }
  }

  /** What the guard guarantees: if at most `p` runs overlap, every ten-minute window holds at most 5 + p AI replies;
      six when runs are serialised. */
  lemma {:induction false} RateIsBounded(p: nat, s: State, steps: seq<Step>, from: int)
    requires RateKept(p, s) && AtMostAlong(p, s, steps)
    ensures AiBetween(RunAll(s, steps).messages, from, from + 600_000) <= 5 + p
    decreases |steps|
  {
    if steps != [] {
      if Enabled(s, steps[0]) {
        StepKeepsRate(p, s, steps[0]);
        RateIsBounded(p, Apply(s, steps[0]), steps[1..], from);
      } else {
        RateIsBounded(p, s, steps[1..], from);
      }
    }
  }

  lemma {:induction false} NoAiNoCount(messages: seq<Message>, n: nat, from: int, to: int)
    requires n <= |messages| && forall m :: m in messages ==> m.author != AI
    ensures AiUpTo(messages, n, from, to) == 0
  {
    if n > 0 {
      assert messages[n - 1] in messages;
      NoAiNoCount(messages, n - 1, from, to);
    }
  }

  /** A ticket without AI messages and runs meets the invariant, for every number of overlapping runs but none. */
  lemma FreshTicketKeepsRate(p: nat, s: State)
    requires s.runs == map[] && forall m :: m in s.messages ==> m.author != AI && m.createdAt <= s.now
    requires p > 0
    ensures RateKept(p, s)
  {
    forall from: int, to: int ensures AiBetween(s.messages, from, to) == 0 {
      NoAiNoCount(s.messages, |s.messages|, from, to);
    }
    assert ThinkingRuns(s.runs) == {};
  }

  // ------------------------------------------------------------------ the bound is reached

  function Below(n: nat): set<nat> { if n == 0 then {} else Below(n - 1) + {n - 1} }

  lemma {:induction false} BelowHolds(n: nat, r: nat)
    ensures r in Below(n) <==> r < n
    ensures |Below(n)| == n
  {
    if n > 0 { BelowHolds(n - 1, r); BelowHolds(n - 1, n - 1); }
  }

  /** All of the runs `0` to `n - 1` are thinking about their messages, and nobody else is. */
  ghost predicate Crowd(s: State, keys: seq<string>, n: nat) {
    && n <= |keys|
    && (forall r: nat :: r in s.runs <==> r < n)
    && (forall r: nat :: r in s.runs ==> s.runs[r].Thinking? && s.runs[r].messageKey == keys[r])
  }

  ghost predicate FreshFrom(s: State, keys: seq<string>, n: nat) {
    forall i :: n <= i < |keys| ==> !KeyTaken(s.messages, AiKey(keys[i]))
  }

  ghost predicate Fresh(s: State, keys: seq<string>) {
    Distinct(keys) && FreshFrom(s, keys, 0)
  }

  function PostAll(from: nat, to: int, g: Signals): seq<Step>
    decreases to - from
  {
    if from >= to then [] else [Post(from, g)] + PostAll(from + 1, to, g)
  }

  /** Runs `from` onwards begin, and when all have begun, all post. */
  function BeginThenPost(keys: seq<string>, from: nat, g: Signals): seq<Step>
    requires from <= |keys|
    decreases |keys| - from
  {
    if from == |keys| then PostAll(0, |keys|, g) else [Begin(from, keys[from])] + BeginThenPost(keys, from + 1, g)
  }

  /** Runs `n` onwards are still thinking about messages nobody has answered. */
  ghost predicate Waiting(s: State, keys: seq<string>, n: nat) {
    forall r: nat :: n <= r < |keys| ==>
      r in s.runs && s.runs[r].Thinking? && s.runs[r].messageKey == keys[r] && !KeyTaken(s.messages, AiKey(keys[r]))
  }

  lemma PostKeepsWaiting(s: State, keys: seq<string>, n: nat, g: Signals)
    requires Waiting(s, keys, n) && n < |keys| && Distinct(keys)
    ensures Waiting(Apply(s, Post(n, g)), keys, n + 1)
    ensures Recent(Apply(s, Post(n, g))) == Recent(s) + 1
  {
    PostAdds(s, n, g);
    var s' := Apply(s, Post(n, g));
    forall r: nat | n < r < |keys|
      ensures r in s'.runs && s'.runs[r] == s.runs[r] && !KeyTaken(s'.messages, AiKey(keys[r]))
    {
      AiKeyInjective(keys[n], keys[r]);
      KeyTakenNext(s.messages, s'.messages[|s.messages|], AiKey(keys[r]));
    }
  }

  lemma StepFirst(p: nat, s: State, a: Step, rest: seq<Step>)
    requires Enabled(s, a) && AtMost(p, s, a) && AtMostAlong(p, Apply(s, a), rest)
    ensures AtMostAlong(p, s, [a] + rest) && RunAll(s, [a] + rest) == RunAll(Apply(s, a), rest)
  {
    assert ([a] + rest)[1..] == rest;
  }

  ghost predicate Distinct(keys: seq<string>) { forall i, j :: 0 <= i < j < |keys| ==> keys[i] != keys[j] }

  lemma {:induction false} PostsNeverBegin(p: nat, s: State, n: nat, to: int, g: Signals)
    requires n <= to
    ensures AtMostAlong(p, s, PostAll(n, to, g))
    decreases if n <= to then to - n else 0
  {
    if n < to {
      var rest := PostAll(n + 1, to, g);
      assert ([Post(n, g)] + rest)[1..] == rest;
      PostsNeverBegin(p, if Enabled(s, Post(n, g)) then Apply(s, Post(n, g)) else s, n + 1, to, g);
    }
  }

  lemma {:induction false} AllPost(s: State, keys: seq<string>, n: nat, g: Signals)
    requires n <= |keys| && Waiting(s, keys, n) && Distinct(keys)
    ensures Recent(RunAll(s, PostAll(n, |keys|, g))) == Recent(s) + |keys| - n
    decreases |keys| - n
  {
    if n < |keys| {
      PostKeepsWaiting(s, keys, n, g);
      AllPost(Apply(s, Post(n, g)), keys, n + 1, g);
      RunOne(s, Post(n, g), PostAll(n + 1, |keys|, g));
    }
  }

  lemma CrowdSize(s: State, keys: seq<string>, n: nat)
    requires Crowd(s, keys, n)
    ensures |ThinkingRuns(s.runs)| == n
  {
    forall r: nat ensures r in Below(n) <==> r < n { BelowHolds(n, r); }
    BelowHolds(n, n);
    assert ThinkingRuns(s.runs) == Below(n);
  }

  lemma CrowdGrows(s: State, keys: seq<string>, n: nat)
    requires Crowd(s, keys, n) && n < |keys|
    ensures n !in s.runs && Crowd(Begun(s, n, keys[n]), keys, n + 1)
  {
  }

  lemma {:induction false} AllBeginThenPost(p: nat, s: State, keys: seq<string>, n: nat, g: Signals)
    requires MayReply(s) && Crowd(s, keys, n) && |keys| == p && Fresh(s, keys)
    ensures var steps := BeginThenPost(keys, n, g);
            AtMostAlong(p, s, steps) && Recent(RunAll(s, steps)) == Recent(s) + p
    decreases p - n
  {
    if n == p {
      AllPost(s, keys, 0, g);
      PostsNeverBegin(p, s, 0, p, g);
    } else {
      var rest := BeginThenPost(keys, n + 1, g);
      CrowdSize(s, keys, n);
      CrowdGrows(s, keys, n);
      BeginsAs(s, n, keys[n]);
      AllBeginThenPost(p, Begun(s, n, keys[n]), keys, n + 1, g);
      StepFirst(p, s, Begin(n, keys[n]), rest);
    }
  }

  const ANSWERABLE := Signals(false, NotSerious, true, Some(true))

  const FILL := MAX_AI_REPLIES_PER_10_MIN - 1

  /** One reply at a time until five are there, then everybody else at once. */
  function FillThenCrowd(keys: seq<string>, n: nat, g: Signals): seq<Step>
    requires n <= FILL <= |keys|
    decreases FILL - n
  {
    if n == FILL then BeginThenPost(keys[FILL..], 0, g)
    else [Begin(0, keys[n])] + ([Post(0, ANSWERABLE)] + FillThenCrowd(keys, n + 1, g))
  }

  /** The bound is exact: for every `p` there is a schedule with at most `p` overlapping runs after which the last ten
      minutes hold 5 + p AI replies, from any open ticket whose window is empty. */
  lemma RateBoundIsReached(p: nat, s: State, keys: seq<string>, g: Signals)
    requires p > 0 && MayReply(s) && s.runs == map[] && Recent(s) == 0
    requires Distinct(keys) && FreshFrom(s, keys, 0) && |keys| == FILL + p
    ensures var steps := FillThenCrowd(keys, 0, g);
            AtMostAlong(p, s, steps) && Recent(RunAll(s, steps)) == 5 + p
  {
    FillsThenCrowds(p, s, keys, g, 0);
  }

  lemma {:induction false} FillsThenCrowds(p: nat, s: State, keys: seq<string>, g: Signals, n: nat)
    requires p > 0 && MayReply(s) && s.runs == map[] && Recent(s) == n <= FILL
    requires Distinct(keys) && FreshFrom(s, keys, n) && |keys| == FILL + p
    ensures var steps := FillThenCrowd(keys, n, g);
            AtMostAlong(p, s, steps) && Recent(RunAll(s, steps)) == FILL + p
    decreases FILL - n
  {
    if n == FILL {
      CrowdIsFresh(s, keys);
      AllBeginThenPost(p, s, keys[FILL..], 0, g);
    } else {
      AnswersOnce(s, keys, n);
      MayBeginAlone(p, s, keys[n]);
      FillsThenCrowds(p, AfterAnswer(s, keys[n]), keys, g, n + 1);
      TwoFirst(p, s, Begin(0, keys[n]), Post(0, ANSWERABLE), FillThenCrowd(keys, n + 1, g));
    }
  }

  lemma CrowdIsFresh(s: State, keys: seq<string>)
    requires Distinct(keys) && FILL <= |keys| && FreshFrom(s, keys, FILL)
    ensures Fresh(s, keys[FILL..])
  {
  }

  lemma FreshAfter(s: State, keys: seq<string>, n: nat, m: Message)
    requires Distinct(keys) && n < |keys| && FreshFrom(s, keys, n) && m.key == Some(AiKey(keys[n]))
    ensures FreshFrom(s.(messages := s.messages + [m]), keys, n + 1)
  {
    forall i | n < i < |keys| ensures !KeyTaken(s.messages + [m], AiKey(keys[i])) {
      AiKeyInjective(keys[n], keys[i]);
      KeyTakenNext(s.messages, m, AiKey(keys[i]));
    }
  }

  function AfterAnswer(s: State, key: string): State { s.(messages := s.messages + [Reply(s, key, ANSWERABLE)]) }

  lemma AnswersOnce(s: State, keys: seq<string>, n: nat)
    requires MayReply(s) && s.runs == map[] && Recent(s) + 1 < MAX_AI_REPLIES_PER_10_MIN
    requires Distinct(keys) && n < |keys| && FreshFrom(s, keys, n)
    ensures var end := AfterAnswer(s, keys[n]);
            && RunAll(s, [Begin(0, keys[n]), Post(0, ANSWERABLE)]) == end
            && MayReply(end) && Recent(end) == Recent(s) + 1 && FreshFrom(end, keys, n + 1)
  {
    ReplyAlone(s, 0, keys[n], ANSWERABLE);
    ReplyKeepsOpen(s, keys[n], ANSWERABLE);
    FreshAfter(s, keys, n, Reply(s, keys[n], ANSWERABLE));
  }

  lemma MayBeginAlone(p: nat, s: State, key: string)
    requires p > 0 && MayReply(s) && s.runs == map[]
    ensures AtMost(p, s, Begin(0, key)) && Enabled(Apply(s, Begin(0, key)), Post(0, ANSWERABLE))
  {
    assert ThinkingRuns(s.runs) == {};
    BeginsAs(s, 0, key);
  }

  lemma TwoFirst(p: nat, s: State, a: Step, b: Step, rest: seq<Step>)
    requires Enabled(s, a) && Enabled(Apply(s, a), b) && AtMost(p, s, a) && AtMost(p, Apply(s, a), b)
    requires AtMostAlong(p, RunAll(s, [a, b]), rest)
    ensures AtMostAlong(p, s, [a] + ([b] + rest)) && RunAll(s, [a] + ([b] + rest)) == RunAll(RunAll(s, [a, b]), rest)
  {
    RunPair(s, a, b);
    StepFirst(p, Apply(s, a), b, rest);
    StepFirst(p, s, a, [b] + rest);
  }
}
