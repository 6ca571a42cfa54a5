/**
  The AI reply pipeline of one ticket (apps/api/src/modules/widget/ai-reply.service.ts).

  A run reads the ticket, thinks, stores its reply under a key that is unique per ticket, and
  then marks the handoff. Customers, agents and staff write to the ticket at any time, runs may
  overlap, and a run may die between any two of its
 statements. */
module AiReply {
  import opened Options

  const MAX_AI_REPLIES_PER_10_MIN := 6
  const WINDOW_MS := 600_000
  const MAX_UNSUCCESSFUL_BEFORE_HANDOFF := 2
  const HANDOFF_TAG := "human-handoff"

  datatype Author = Customer | Agent | AI | System

  datatype Decision = Answered | PlanLimit | HumanIntent | LowConfidence | Critical | Repeat | Unavailable

  /** A stored message that is not an internal note. `key` is its client message id. */
  datatype Message = Message(author: Author, createdAt: int, key: Option<string>, decision: Option<Decision>)

  datatype Severity = NotSerious | High | CriticalSeverity

  /** What one run learns about the message and from the services it calls. `grounded` is `None` when the AI service
      fails; otherwise it says whether there is a confident, sourced, nonempty answer. */
  datatype Signals = Signals(humanOnly: bool, severity: Severity, allowance: bool, grounded: Option<bool>)

  // ------------------------------------------------------------------ the decision

  /** `decideReply`: whether a person takes over. */
  predicate HandsOff(severity: Severity, grounded: bool) {
    if severity.CriticalSeverity? then true
    else if severity.High? then true
    else if grounded then false
    else severity.NotSerious?
  }

  /** The stored decision and whether the reply hands over. */
  function Decide(g: Signals, unsuccessful: nat): (Decision, bool) {
    if g.humanOnly then (HumanIntent, true)
    else if g.severity.CriticalSeverity? then (Critical, HandsOff(g.severity, false))
    else if !g.allowance then (PlanLimit, true)
    else
      var handoff := g.grounded.None? || HandsOff(g.severity, g.grounded.value);
      var decision := if g.grounded.None? then Unavailable else if handoff then LowConfidence else Answered;
      if decision != Answered && unsuccessful + 1 >= MAX_UNSUCCESSFUL_BEFORE_HANDOFF
      then (if decision == Unavailable then decision else Repeat, true)
      else (decision, handoff)
  }

  /** The AI answers by itself only a grounded, harmless, paid-for question; every other decision hands over. */
  lemma AnsweredMeansNoHandoff(g: Signals, unsuccessful: nat)
    ensures var d := Decide(g, unsuccessful);
            && (d.0 == Answered <==> !d.1)
            && (d.0 == Answered <==> !g.humanOnly && g.severity.NotSerious? && g.allowance && g.grounded == Some(true))
  {
  }

  /** The whole table: what is stored, and that everything but an answer hands over. A person's matter comes first, then
      a critical one, then a spent allowance, then a failing service; an answer that is not good enough is a repeat when
      an earlier AI reply handed over already. */
  lemma DecisionTable(g: Signals, unsuccessful: nat)
    ensures var d := Decide(g, unsuccessful);
            && d.1 == (d.0 != Answered)
            && (g.humanOnly ==> d.0 == HumanIntent)
            && (!g.humanOnly && g.severity == CriticalSeverity ==> d.0 == Critical)
            && (!g.humanOnly && g.severity != CriticalSeverity && !g.allowance ==> d.0 == PlanLimit)
            && (!g.humanOnly && g.severity != CriticalSeverity && g.allowance ==>
                  d.0 == if g.grounded == None then Unavailable
                         else if g.grounded == Some(true) && g.severity == NotSerious then Answered
                         else if unsuccessful >= 1 then Repeat else LowConfidence)
  {
  }

  // ------------------------------------------------------------------ state and steps

  datatype Run =
    | Thinking(messageKey: string, tags: set<string>, unsuccessful: nat)
    | Tagging(tags: set<string>, fromReply: bool)

  datatype State = State(now: int, messages: seq<Message>, tags: set<string>, closed: bool, autopilot: bool,
                         runs: map<nat, Run>)

  datatype Step =
    | Tick(now: int)
    | Write(author: Author, key: Option<string>)
    | SetTicket(tags: set<string>, closed: bool, autopilot: bool)
    | Begin(run: nat, messageKey: string)
    | Post(run: nat, signals: Signals)
    | RequestHuman(run: nat)
    | MarkHandoff(run: nat)
    | Die(run: nat)

  function AiKey(messageKey: string): string { "ai:" + messageKey }

  predicate KeyTaken(messages: seq<Message>, key: string) { exists m :: m in messages && m.key == Some(key) }

  predicate AgentReplied(messages: seq<Message>) { exists m :: m in messages && m.author == Agent }

  predicate Unanswered(m: Message) { m.author == AI && m.decision.Some? && m.decision.value != Answered }

  /** AI messages of the half-open window `(from, to]` among the first `n`. */
  function AiUpTo(messages: seq<Message>, n: nat, from: int, to: int): nat
    requires n <= |messages|
  {
    if n == 0 then 0
    else
      var m := messages[n - 1];
      AiUpTo(messages, n - 1, from, to) + if m.author == AI && from < m.createdAt <= to then 1 else 0
  }

  function AiBetween(messages: seq<Message>, from: int, to: int): nat { AiUpTo(messages, |messages|, from, to) }

  function UnansweredUpTo(messages: seq<Message>, n: nat): nat
    requires n <= |messages|
  {
    if n == 0 then 0 else UnansweredUpTo(messages, n - 1) + if Unanswered(messages[n - 1]) then 1 else 0
  }

  function CountUnanswered(messages: seq<Message>): nat { UnansweredUpTo(messages, |messages|) }

  /** Earlier AI replies that were no answers are what the run counts as unsuccessful. */
  lemma {:induction false} UnansweredCounts(messages: seq<Message>, n: nat)
    requires n <= |messages|
    ensures UnansweredUpTo(messages, n) > 0 <==>
              exists i :: 0 <= i < n && messages[i].author == AI && messages[i].decision !in {None, Some(Answered)}
  {
    if n > 0 { UnansweredCounts(messages, n - 1); }
  }

  /** The guards of a run, in the order they are checked; all must hold for it to go on. */
  predicate MayReply(s: State) {
    && s.autopilot
    && HANDOFF_TAG !in s.tags
    && !AgentReplied(s.messages)
    && !s.closed
    && AiBetween(s.messages, s.now - WINDOW_MS, s.now) < MAX_AI_REPLIES_PER_10_MIN
  }

  predicate Enabled(s: State, step: Step) {
    match step
    case Tick(now) => s.now <= now
    case Write(author, key) => author != AI && (key.Some? ==> !KeyTaken(s.messages, key.value))
    case SetTicket(_, _, _) => true
    case Begin(r, _) => r !in s.runs
    case Post(r, _) => r in s.runs && s.runs[r].Thinking?
    case RequestHuman(r) => r !in s.runs
    case MarkHandoff(r) => r in s.runs && s.runs[r].Tagging?
    case Die(r) => r in s.runs
  }

  function Apply(s: State, step: Step): State
    requires Enabled(s, step)
  {
    match step
    case Tick(now) => s.(now := now)
    case Write(author, key) => s.(messages := s.messages + [Message(author, s.now, key, None)])
    case SetTicket(tags, closed, autopilot) => s.(tags := tags, closed := closed, autopilot := autopilot)
    case Begin(r, k) =>
      if MayReply(s) then s.(runs := s.runs[r := Thinking(k, s.tags, CountUnanswered(s.messages))]) else s
    case Post(r, g) =>
      var run := s.runs[r];
      var d := Decide(g, run.unsuccessful);
      if KeyTaken(s.messages, AiKey(run.messageKey)) then s.(runs := s.runs - {r})
      else s.(messages := s.messages + [Message(AI, s.now, Some(AiKey(run.messageKey)), Some(d.0))],
              runs := if d.1 then s.runs[r := Tagging(run.tags, true)] else s.runs - {r})
    case RequestHuman(r) =>
      if HANDOFF_TAG in s.tags || KeyTaken(s.messages, "human-request") then s
      else s.(messages := s.messages + [Message(System, s.now, Some("human-request"), None)],
          runs := s.runs[r := Tagging(s.tags, false)])
    case MarkHandoff(r) =>
      var seen := s.runs[r].tags;
      s.(tags := if HANDOFF_TAG in seen then s.tags else seen + {HANDOFF_TAG}, runs := s.runs - {r})
    case Die(r) => s.(runs := s.runs - {r})
  }

  function RunAll(s: State, steps: seq<Step>): State
    decreases |steps|
  {
    if steps == [] then s else RunAll(if Enabled(s, steps[0]) then Apply(s, steps[0]) else s, steps[1..])
  }

  // ------------------------------------------------------------------ one reply per message

  ghost predicate UniqueKeys(messages: seq<Message>) {
    forall i, j :: 0 <= i < j < |messages| && messages[i].key.Some? ==> messages[i].key != messages[j].key
  }

  /** However many runs handle it and however they overlap, a customer message gets at most one AI reply. */
  lemma {:induction false} OneReplyPerMessage(s: State, steps: seq<Step>)
    requires UniqueKeys(s.messages)
    ensures UniqueKeys(RunAll(s, steps).messages)
    ensures s.messages <= RunAll(s, steps).messages
    decreases |steps|
  {
    if steps != [] {
      var s1 := if Enabled(s, steps[0]) then Apply(s, steps[0]) else s;
      assert s.messages <= s1.messages;
      assert forall i :: 0 <= i < |s.messages| ==> s.messages[i] in s.messages;
      OneReplyPerMessage(s1, steps[1..]);
    }
  }

  // ------------------------------------------------------------------ runs step by step

  lemma RunOne(s: State, step: Step, rest: seq<Step>)
    requires Enabled(s, step)
    ensures RunAll(s, [step] + rest) == RunAll(Apply(s, step), rest)
  {
    assert ([step] + rest)[1..] == rest;
  }

  lemma RunPair(s: State, a: Step, b: Step)
    requires Enabled(s, a) && Enabled(Apply(s, a), b)
    ensures RunAll(s, [a, b]) == Apply(Apply(s, a), b)
  {
    assert [a, b] == [a] + [b] && [b] == [b] + [];
    RunOne(s, a, [b]);
    RunOne(Apply(s, a), b, []);
  }

  lemma {:induction false} AiUpToPrefix(messages: seq<Message>, more: seq<Message>, n: nat, from: int, to: int)
    requires n <= |messages|
    ensures AiUpTo(messages + more, n, from, to) == AiUpTo(messages, n, from, to)
  {
    if n > 0 { AiUpToPrefix(messages, more, n - 1, from, to); }
  }

  lemma WindowAppend(messages: seq<Message>, m: Message, from: int, to: int)
    ensures AiBetween(messages + [m], from, to)
            == AiBetween(messages, from, to) + if m.author == AI && from < m.createdAt <= to then 1 else 0
  {
    AiUpToPrefix(messages, [m], |messages|, from, to);
  }

  lemma AiKeyInjective(a: string, b: string)
    ensures AiKey(a) == AiKey(b) <==> a == b
  {
    assert AiKey(a)[3..] == a && AiKey(b)[3..] == b;
  }

  lemma KeyTakenNext(messages: seq<Message>, m: Message, key: string)
    ensures KeyTaken(messages + [m], key) <==> KeyTaken(messages, key) || m.key == Some(key)
  {
    assert forall n :: n in messages + [m] <==> n in messages || n == m;
  }

  /** A post under a fresh key adds one AI message and ends the thinking. */
  lemma PostAdds(s: State, r: nat, g: Signals)
    requires Enabled(s, Post(r, g)) && !KeyTaken(s.messages, AiKey(s.runs[r].messageKey))
    ensures var s' := Apply(s, Post(r, g));
            var d := Decide(g, s.runs[r].unsuccessful);
            var m := Message(AI, s.now, Some(AiKey(s.runs[r].messageKey)), Some(d.0));
            && s' == s.(messages := s.messages + [m], runs := if d.1 then s.runs[r := Tagging(s.runs[r].tags, true)]
                 else s.runs - {r})
            && AiBetween(s'.messages, s.now - WINDOW_MS, s.now) == AiBetween(s.messages, s.now - WINDOW_MS, s.now) + 1
  {
    WindowAppend(s.messages, Apply(s, Post(r, g)).messages[|s.messages|], s.now - WINDOW_MS, s.now);
  }

  function Begun(s: State, r: nat, messageKey: string): State {
    s.(runs := s.runs[r := Thinking(messageKey, s.tags, CountUnanswered(s.messages))])
  }

  lemma BeginsAs(s: State, r: nat, messageKey: string)
    requires MayReply(s) && r !in s.runs
    ensures Apply(s, Begin(r, messageKey)) == Begun(s, r, messageKey) && MayReply(Begun(s, r, messageKey))
  {
  }

  lemma RunThree(s: State, a: Step, b: Step, c: Step)
    ensures var s1 := if Enabled(s, a) then Apply(s, a) else s;
            var s2 := if Enabled(s1, b) then Apply(s1, b) else s1;
            RunAll(s, [a, b, c]) == if Enabled(s2, c) then Apply(s2, c) else s2
  {
    var s1 := if Enabled(s, a) then Apply(s, a) else s;
    var s2 := if Enabled(s1, b) then Apply(s1, b) else s1;
    assert [a, b, c][1..] == [b, c] && [b, c][1..] == [c];
    var s3 := if Enabled(s2, c) then Apply(s2, c) else s2;
    assert RunAll(s, [a, b, c]) == RunAll(s1, [b, c]) == RunAll(s2, [c]);
    assert [c][1..] == [] && RunAll(s2, [c]) == RunAll(s3, []) == s3;
  }

  function Reply(s: State, messageKey: string, g: Signals): Message {
    Message(AI, s.now, Some(AiKey(messageKey)), Some(Decide(g, CountUnanswered(s.messages)).0))
  }

  /** A run that begins and posts while nothing else happens. */
  lemma ReplyAlone(s: State, r: nat, messageKey: string, g: Signals)
    requires MayReply(s) && r !in s.runs && !KeyTaken(s.messages, AiKey(messageKey))
    ensures RunAll(s, [Begin(r, messageKey), Post(r, g)])
         == s.(messages := s.messages + [Reply(s, messageKey, g)],
               runs := if Decide(g, CountUnanswered(s.messages)).1 then s.runs[r := Tagging(s.tags, true)] else s.runs)
  {
    var begun := Begun(s, r, messageKey);
    BeginsAs(s, r, messageKey);
    PostAdds(begun, r, g);
    RunPair(s, Begin(r, messageKey), Post(r, g));
    RunsBack(s.runs, r, begun.runs[r], Tagging(s.tags, true));
  }

  lemma RunsBack(runs: map<nat, Run>, r: nat, a: Run, b: Run)
    requires r !in runs
    ensures runs[r := a][r := b] == runs[r := b] && runs[r := a] - {r} == runs
  {
  }

  /** After a reply the ticket is as open as before, up to the rate guard. */
  lemma ReplyKeepsOpen(s: State, messageKey: string, g: Signals)
    requires MayReply(s)
    ensures var end := s.(messages := s.messages + [Reply(s, messageKey, g)]);
            && (MayReply(end) <==> AiBetween(s.messages, s.now - WINDOW_MS, s.now) + 1 < MAX_AI_REPLIES_PER_10_MIN)
            && AiBetween(end.messages, s.now - WINDOW_MS, s.now) == AiBetween(s.messages, s.now - WINDOW_MS, s.now) + 1
            && KeyTaken(end.messages, AiKey(messageKey))
  {
    var m := Reply(s, messageKey, g);
    WindowAppend(s.messages, m, s.now - WINDOW_MS, s.now);
    KeyTakenNext(s.messages, m, AiKey(messageKey));
    assert forall n :: n in s.messages + [m] <==> n in s.messages || n == m;
  }
}
