/** The sticky handoff: when an AI reply that hands over is the last AI reply, and exactly when it is not. */
module AiReplyHandoff {
  import opened Options
  import opened AiReply

  // ------------------------------------------------------------------ serialised runs

  predicate ReplyRun(r: Run) { r.Thinking? || r.fromReply }

  /** Runs are serialised: one begins only when no other is between its first read and its last write. */
  predicate Serial(s: State, step: Step) {
    step.Begin? ==> forall r :: r in s.runs ==> !ReplyRun(s.runs[r])
  }

  ghost predicate OneReplyRun(s: State) {
    forall q, r :: q in s.runs && r in s.runs && ReplyRun(s.runs[q]) && ReplyRun(s.runs[r]) ==> q == r
  }

  lemma StepKeepsOneReplyRun(s: State, step: Step)
    requires OneReplyRun(s) && Enabled(s, step) && Serial(s, step)
    ensures OneReplyRun(Apply(s, step))
  {
  }

  // ------------------------------------------------------------------ the handoff sticks

  /** Nobody takes the handoff tag off, and no run dies between its reply and its tag. */
  predicate Calm(s: State, step: Step) {
    && (step.SetTicket? && HANDOFF_TAG in s.tags ==> HANDOFF_TAG in step.tags)
    && (step.Die? && step.run in s.runs ==> s.runs[step.run].Thinking?)
  }

  predicate AllAnswered(messages: seq<Message>) { forall m :: m in messages ==> !Unanswered(m) }

  /** No AI reply follows an AI reply that handed over; so there is at most one such reply. */
  ghost predicate HandoffIsLast(messages: seq<Message>) {
    forall i, j :: 0 <= i < j < |messages| && Unanswered(messages[i]) ==> messages[j].author != AI
  }

  ghost predicate HandoffKept(s: State) {
    && HandoffIsLast(s.messages)
    && (AllAnswered(s.messages) || HANDOFF_TAG in s.tags
        || exists r :: r in s.runs && s.runs[r].Tagging? && s.runs[r].fromReply)
    && (forall r :: r in s.runs ==> HANDOFF_TAG !in s.runs[r].tags)
    && (forall r :: r in s.runs && s.runs[r].Thinking? ==> AllAnswered(s.messages) && s.runs[r].unsuccessful == 0)
    && (forall m :: m in s.messages ==> m.decision != Some(Repeat))
  }

  lemma {:induction false} AllAnsweredCountsNone(messages: seq<Message>, n: nat)
    requires AllAnswered(messages) && n <= |messages|
    ensures UnansweredUpTo(messages, n) == 0
  {
    if n > 0 {
      assert messages[n - 1] in messages;
      AllAnsweredCountsNone(messages, n - 1);
    }
  }

  lemma PostKeepsHandoff(s: State, r: nat, g: Signals)
    requires OneReplyRun(s) && HandoffKept(s) && Enabled(s, Post(r, g))
    ensures HandoffKept(Apply(s, Post(r, g)))
  {
    var s' := Apply(s, Post(r, g));
    AnsweredMeansNoHandoff(g, s.runs[r].unsuccessful);
    assert forall i :: 0 <= i < |s.messages| ==> s.messages[i] in s.messages;
    if s'.messages != s.messages {
      var m := s'.messages[|s.messages|];
      assert s'.messages == s.messages + [m];
      if Unanswered(m) { assert r in s'.runs && s'.runs[r].Tagging? && s'.runs[r].fromReply; }
      forall q | q in s'.runs ensures !s'.runs[q].Thinking? {
        assert q != r ==> q in s.runs && s'.runs[q] == s.runs[q];
      }
    }
  }

  lemma MarkKeepsHandoff(s: State, r: nat)
    requires HandoffKept(s) && Enabled(s, MarkHandoff(r))
    ensures HandoffKept(Apply(s, MarkHandoff(r)))
  {
  }

  lemma BeginKeepsHandoff(s: State, step: Step)
    requires HandoffKept(s) && Enabled(s, step) && step.Begin? && Serial(s, step)
    ensures HandoffKept(Apply(s, step))
  {
    if MayReply(s) { AllAnsweredCountsNone(s.messages, |s.messages|); }
  }

  lemma OtherKeepsHandoff(s: State, step: Step)
    requires HandoffKept(s) && Enabled(s, step) && Calm(s, step)
    requires step.Tick? || step.Write? || step.SetTicket? || step.RequestHuman? || step.Die?
    ensures HandoffKept(Apply(s, step))
  {
    var s' := Apply(s, step);
    assert forall i :: 0 <= i < |s.messages| ==> s.messages[i] in s.messages;
    if r :| r in s.runs && s.runs[r].Tagging? && s.runs[r].fromReply { assert r in s'.runs && s'.runs[r] == s.runs[r]; }
  }

  lemma StepKeepsHandoff(s: State, step: Step)
    requires OneReplyRun(s) && HandoffKept(s) && Enabled(s, step) && Serial(s, step) && Calm(s, step)
    ensures OneReplyRun(Apply(s, step)) && HandoffKept(Apply(s, step))
  {
    StepKeepsOneReplyRun(s, step);
    match step
    case Post(r, g) => PostKeepsHandoff(s, r, g);
    case MarkHandoff(r) => MarkKeepsHandoff(s, r);
    case Begin(_, _) => BeginKeepsHandoff(s, step);
    case _ => OtherKeepsHandoff(s, step);
  }

  predicate CalmSchedule(s: State, steps: seq<Step>)
    decreases |steps|
  {
    steps == [] || (var s1 := if Enabled(s, steps[0]) then Apply(s, steps[0]) else s;
                    (Enabled(s, steps[0]) ==> Serial(s, steps[0]) && Calm(s, steps[0])) && CalmSchedule(s1, steps[1..]))
  }

  /** In such a schedule at most one AI reply hands over, no AI reply follows it, and the decision for repeated failures
      is never reached. */
  lemma {:induction false} HandoffSticks(s: State, steps: seq<Step>)
    requires OneReplyRun(s) && HandoffKept(s) && CalmSchedule(s, steps)
    ensures var end := RunAll(s, steps).messages;
            HandoffIsLast(end) && forall m :: m in end ==> m.decision != Some(Repeat)
    decreases |steps|
  {
    if steps != [] {
      if Enabled(s, steps[0]) {
        StepKeepsHandoff(s, steps[0]);
        HandoffSticks(Apply(s, steps[0]), steps[1..]);
      } else {
        HandoffSticks(s, steps[1..]);
      }
    }
  }

  /** A ticket without AI messages and runs meets the invariants. */
  lemma FreshTicket(s: State)
    requires s.runs == map[] && forall m :: m in s.messages ==> m.author != AI && m.decision.None?
    ensures OneReplyRun(s) && HandoffKept(s)
  {
  }

  /** The handoff writes the tags back as its run read them: of the other tags on the ticket by then, exactly those that
      were there at that read survive, and tags taken off since come back. */
  lemma HandoffWritesTagsBack(s: State, r: nat, tag: string)
    requires Enabled(s, MarkHandoff(r)) && HANDOFF_TAG !in s.runs[r].tags && tag != HANDOFF_TAG
    ensures var tags := Apply(s, MarkHandoff(r)).tags;
            HANDOFF_TAG in tags && (tag in tags <==> tag in s.runs[r].tags)
  {
  }

  /** So a tag somebody adds while a run is between its read and its handoff is lost. */
  lemma TagAddedMeanwhileIsLost(s: State, key: string, g: Signals, tag: string)
    requires MayReply(s) && s.runs == map[] && !KeyTaken(s.messages, AiKey(key)) && g.humanOnly
    requires tag !in s.tags && tag != HANDOFF_TAG
    ensures var begun := RunAll(s, [Begin(0, key), Post(0, g)]);
            var edited := RunAll(begun, [SetTicket(s.tags + {tag}, s.closed, s.autopilot)]);
            tag in edited.tags && tag !in RunAll(edited, [MarkHandoff(0)]).tags
  {
    ReplyAlone(s, 0, key, g);
    DecisionTable(g, CountUnanswered(s.messages));
    var begun := RunAll(s, [Begin(0, key), Post(0, g)]);
    RunOnly(begun, SetTicket(s.tags + {tag}, s.closed, s.autopilot));
    RunOnly(Apply(begun, SetTicket(s.tags + {tag}, s.closed, s.autopilot)), MarkHandoff(0));
  }

  // ------------------------------------------------------------------ exactly when it does not

  predicate SomeUnanswered(messages: seq<Message>) { exists i :: 0 <= i < |messages| && Unanswered(messages[i]) }

  /** A run that reads and posts in one go gets another AI reply in, against the rule, if and only if the ticket passes
      the guards at that moment; whatever the message and the services say, and whatever other runs are alive. */
  lemma AnotherReplyIff(s: State, r: nat, key: string, g: Signals)
    requires r !in s.runs && HandoffIsLast(s.messages) && SomeUnanswered(s.messages)
    requires !KeyTaken(s.messages, AiKey(key))
    ensures HandoffIsLast(RunAll(s, [Begin(r, key), Post(r, g)]).messages) <==> !MayReply(s)
  {
    if MayReply(s) {
      ReplyAlone(s, r, key, g);
      ReplyBreaks(s.messages, Reply(s, key, g));
    } else {
      RunTwo(s, Begin(r, key), Post(r, g));
    }
  }

  lemma ReplyBreaks(messages: seq<Message>, m: Message)
    requires SomeUnanswered(messages) && m.author == AI
    ensures !HandoffIsLast(messages + [m])
  {
    var i :| 0 <= i < |messages| && Unanswered(messages[i]);
    var after := messages + [m];
    assert after[i] == messages[i] && after[|messages|] == m;
  }

  lemma RunTwo(s: State, a: Step, b: Step)
    ensures var s1 := if Enabled(s, a) then Apply(s, a) else s;
            RunAll(s, [a, b]) == if Enabled(s1, b) then Apply(s1, b) else s1
  {
    assert [a, b][1..] == [b] && [b][1..] == [];
    var s1 := if Enabled(s, a) then Apply(s, a) else s;
    var s2 := if Enabled(s1, b) then Apply(s1, b) else s1;
    assert RunAll(s, [a, b]) == RunAll(s1, [b]) == RunAll(s2, []);
  }

  lemma RunOnly(s: State, a: Step)
    requires Enabled(s, a)
    ensures RunAll(s, [a]) == Apply(s, a)
  {
    assert [a] == [a] + [];
    RunOne(s, a, []);
  }

  /** The ticket after a run that posted a handing-over reply and died before its tag. */
  function AfterDeath(s: State, key: string, g: Signals): State { s.(messages := s.messages + [Reply(s, key, g)]) }

  /** The ticket after a run that posted a handing-over reply and set its tag. */
  function AfterTag(s: State, key: string, g: Signals): State { AfterDeath(s, key, g).(tags := s.tags + {HANDOFF_TAG}) }

  /** An open ticket all of whose AI replies were answers, and a message the AI will hand over. */
  ghost predicate HandsOverNext(s: State, key: string, g: Signals) {
    && MayReply(s) && s.runs == map[] && AllAnswered(s.messages) && !KeyTaken(s.messages, AiKey(key))
    && Decide(g, CountUnanswered(s.messages)).1
  }

  lemma BothEnds(s: State, key: string, g: Signals)
    requires HandsOverNext(s, key, g)
    ensures RunAll(RunAll(s, [Begin(0, key), Post(0, g)]), [Die(0)]) == AfterDeath(s, key, g)
    ensures RunAll(RunAll(s, [Begin(0, key), Post(0, g)]), [MarkHandoff(0)]) == AfterTag(s, key, g)
  {
    ReplyAlone(s, 0, key, g);
    var posted := RunAll(s, [Begin(0, key), Post(0, g)]);
    assert posted.runs - {0} == map[];
    RunOnly(posted, Die(0));
    RunOnly(posted, MarkHandoff(0));
  }

  lemma HandedOver(s: State, key: string, g: Signals)
    requires HandsOverNext(s, key, g)
    ensures var messages := AfterDeath(s, key, g).messages; HandoffIsLast(messages) && SomeUnanswered(messages)
  {
    var m, messages := Reply(s, key, g), AfterDeath(s, key, g).messages;
    AnsweredMeansNoHandoff(g, CountUnanswered(s.messages));
    assert Unanswered(m) && messages[|s.messages|] == m;
    forall i | 0 <= i < |s.messages| ensures !Unanswered(messages[i]) { assert messages[i] in s.messages; }
  }

  lemma OtherKeyStaysFree(s: State, key: string, g: Signals, other: string)
    requires key != other && !KeyTaken(s.messages, AiKey(other))
    ensures !KeyTaken(AfterDeath(s, key, g).messages, AiKey(other))
  {
    AiKeyInjective(key, other);
    KeyTakenNext(s.messages, Reply(s, key, g), AiKey(other));
  }

  /** Replies the rate guard counts at `at` after a reply posted at `s.now`. */
  function RecentAt(s: State, at: int): nat {
    AiBetween(s.messages, at - WINDOW_MS, at) + if s.now <= at < s.now + WINDOW_MS then 1 else 0
  }

  function Later(s: State, at: int): State { s.(now := at) }

  lemma MayReplyAfterDeath(s: State, key: string, g: Signals, at: int)
    requires MayReply(s) && s.now <= at
    ensures MayReply(Later(AfterDeath(s, key, g), at)) <==> RecentAt(s, at) < MAX_AI_REPLIES_PER_10_MIN
  {
    AgentStaysAway(s, key, g);
    WindowAppend(s.messages, Reply(s, key, g), at - WINDOW_MS, at);
  }

  lemma AgentStaysAway(s: State, key: string, g: Signals)
    ensures AgentReplied(AfterDeath(s, key, g).messages) <==> AgentReplied(s.messages)
  {
    var m := Reply(s, key, g);
    assert forall n :: n in s.messages + [m] <==> n in s.messages || n == m;
  }

  lemma MayReplyAfterEdit(s: State, key: string, g: Signals, tags: set<string>, closed: bool, autopilot: bool, at: int)
    requires MayReply(s) && s.now <= at
    ensures MayReply(Later(AfterEdit(s, key, g, tags, closed, autopilot), at))
            <==> HANDOFF_TAG !in tags && !closed && autopilot && RecentAt(s, at) < MAX_AI_REPLIES_PER_10_MIN
  {
    AgentStaysAway(s, key, g);
    WindowAppend(s.messages, Reply(s, key, g), at - WINDOW_MS, at);
  }

  /** The next message, handled at a later time. */
  lemma NextReplyIff(s: State, key: string, g: Signals, at: int)
    requires s.runs == map[] && HandoffIsLast(s.messages) && SomeUnanswered(s.messages)
    requires !KeyTaken(s.messages, AiKey(key)) && s.now <= at
    ensures HandoffIsLast(RunAll(RunAll(s, [Tick(at)]), [Begin(1, key), Post(1, g)]).messages)
            <==> !MayReply(Later(s, at))
  {
    RunOnly(s, Tick(at));
    AnotherReplyIff(Later(s, at), 1, key, g);
  }

  /** First route, a death between the reply and the tag: a message handled at any later time `at` then gets another AI
      reply if and only if the rate guard has room at `at`, although nobody took a tag off and the runs do not
      overlap. */
  lemma DeathReopensIff(s: State, first: string, second: string, g: Signals, h: Signals, at: int)
    requires HandsOverNext(s, first, g) && first != second && !KeyTaken(s.messages, AiKey(second)) && s.now <= at
    ensures var died := RunAll(RunAll(s, [Begin(0, first), Post(0, g)]), [Die(0)]);
            var later := RunAll(died, [Tick(at)]);
            !HandoffIsLast(RunAll(later, [Begin(1, second), Post(1, h)]).messages)
            <==> RecentAt(s, at) < MAX_AI_REPLIES_PER_10_MIN
  {
    BothEnds(s, first, g);
    HandedOver(s, first, g);
    OtherKeyStaysFree(s, first, g, second);
    MayReplyAfterDeath(s, first, g, at);
    NextReplyIff(AfterDeath(s, first, g), second, h, at);
  }

  function AfterEdit(s: State, key: string, g: Signals, tags: set<string>, closed: bool, autopilot: bool): State {
    AfterTag(s, key, g).(tags := tags, closed := closed, autopilot := autopilot)
  }

  lemma EditsAs(s: State, tags: set<string>, closed: bool, autopilot: bool)
    ensures RunAll(s, [SetTicket(tags, closed, autopilot)])
            == s.(tags := tags, closed := closed, autopilot := autopilot)
  {
    RunOnly(s, SetTicket(tags, closed, autopilot));
  }

  /** Second route, somebody edits the ticket after a complete handoff: a message handled at any later time `at` gets
      another AI reply if and only if the edit leaves the ticket open, on autopilot and without the tag, and the rate
      guard has room at `at`. */
  lemma EditReopensIff(s: State, first: string, second: string, g: Signals, h: Signals,
                       tags: set<string>, closed: bool, autopilot: bool, at: int)
    requires HandsOverNext(s, first, g) && first != second && !KeyTaken(s.messages, AiKey(second)) && s.now <= at
    ensures var tagged := RunAll(RunAll(s, [Begin(0, first), Post(0, g)]), [MarkHandoff(0)]);
            var edited := RunAll(tagged, [SetTicket(tags, closed, autopilot)]);
            var later := RunAll(edited, [Tick(at)]);
            HANDOFF_TAG in tagged.tags
            && (!HandoffIsLast(RunAll(later, [Begin(1, second), Post(1, h)]).messages)
                <==> HANDOFF_TAG !in tags && !closed && autopilot && RecentAt(s, at) < MAX_AI_REPLIES_PER_10_MIN)
  {
    BothEnds(s, first, g);
    HandedOver(s, first, g);
    OtherKeyStaysFree(s, first, g, second);
    EditsAs(AfterTag(s, first, g), tags, closed, autopilot);
    MayReplyAfterEdit(s, first, g, tags, closed, autopilot, at);
    NextReplyIff(AfterEdit(s, first, g, tags, closed, autopilot), second, h, at);
  }

  /** Third route, two runs that overlap: the one that read before the other's handoff posts after it. The tag is set
      and the guards are shut by then; nobody died and nobody edited the ticket. */
  lemma OverlapBreaksHandoff(s: State, first: string, second: string, g: Signals, h: Signals)
    requires HandsOverNext(s, first, g) && first != second && !KeyTaken(s.messages, AiKey(second))
    ensures var begun := RunAll(s, [Begin(1, second)]);
            var tagged := RunAll(RunAll(begun, [Begin(0, first), Post(0, g)]), [MarkHandoff(0)]);
            && HANDOFF_TAG in tagged.tags && !MayReply(tagged)
            && !HandoffIsLast(RunAll(tagged, [Post(1, h)]).messages)
  {
    BeginsAs(s, 1, second);
    RunOnly(s, Begin(1, second));
    var begun := Begun(s, 1, second);
    ReplyAlone(begun, 0, first, g);
    HandedOver(s, first, g);
    OtherKeyStaysFree(s, first, g, second);
    TagThenPost(begun, AfterDeath(s, first, g).messages, second, h);
  }

  /** A run still thinking, and another one that has posted a handing-over reply and is about to tag. */
  lemma TagThenPost(begun: State, messages: seq<Message>, second: string, h: Signals)
    requires begun.runs.Keys == {1} && begun.runs[1].Thinking? && begun.runs[1].messageKey == second
    requires SomeUnanswered(messages) && !KeyTaken(messages, AiKey(second)) && HANDOFF_TAG !in begun.tags
    ensures var posted := begun.(messages := messages, runs := begun.runs[0 := Tagging(begun.tags, true)]);
            var tagged := RunAll(posted, [MarkHandoff(0)]);
            HANDOFF_TAG in tagged.tags && !HandoffIsLast(RunAll(tagged, [Post(1, h)]).messages)
  {
    var posted := begun.(messages := messages, runs := begun.runs[0 := Tagging(begun.tags, true)]);
    RunOnly(posted, MarkHandoff(0));
    var tagged := Apply(posted, MarkHandoff(0));
    RunOnly(tagged, Post(1, h));
    PostAdds(tagged, 1, h);
    ReplyBreaks(messages, Apply(tagged, Post(1, h)).messages[|messages|]);
  }

  /** Running a message again whose reply is stored changes nothing at all. */
  lemma RerunChangesNothing(s: State, key: string, g: Signals)
    requires s.runs == map[] && KeyTaken(s.messages, AiKey(key))
    ensures RunAll(s, [Begin(0, key), Post(0, g), MarkHandoff(0)]) == s
  {
    RunThree(s, Begin(0, key), Post(0, g), MarkHandoff(0));
    if MayReply(s) {
      BeginsAs(s, 0, key);
      assert Apply(Begun(s, 0, key), Post(0, g)).runs == s.runs;
    }
  }

  /** So a retry of the message whose run died never sets the missing tag, whatever the services say the second time. */
  lemma RerunNeverTags(s: State, key: string, g: Signals, h: Signals)
    requires HandsOverNext(s, key, g)
    ensures var died := RunAll(RunAll(s, [Begin(0, key), Post(0, g)]), [Die(0)]);
            && KeyTaken(died.messages, AiKey(key))
            && RunAll(died, [Begin(0, key), Post(0, h), MarkHandoff(0)]) == died && HANDOFF_TAG !in died.tags
  {
    BothEnds(s, key, g);
    ReplyKeepsOpen(s, key, g);
    RerunChangesNothing(AfterDeath(s, key, g), key, h);
  }

  // ------------------------------------------------------------------ over all schedules

  predicate NobodyEdits(steps: seq<Step>) { forall i :: 0 <= i < |steps| ==> !steps[i].SetTicket? }

  /** The guards without the clock: once the last ten minutes are over nothing else is in the way. */
  predicate StaysOpen(s: State) {
    s.autopilot && HANDOFF_TAG !in s.tags && !AgentReplied(s.messages) && !s.closed
  }

  /** A run that has passed the guards and whose reply is not stored yet. */
  predicate ReplyComing(s: State) {
    exists r :: r in s.runs && s.runs[r].Thinking? && !KeyTaken(s.messages, AiKey(s.runs[r].messageKey))
  }

  predicate Shut(s: State) { !StaysOpen(s) && !ReplyComing(s) }

  lemma KeyStaysTaken(messages: seq<Message>, m: Message, key: string)
    ensures KeyTaken(messages, key) ==> KeyTaken(messages + [m], key)
    ensures AgentReplied(messages) ==> AgentReplied(messages + [m])
  {
    assert forall n :: n in messages ==> n in messages + [m];
  }

  /** Only edits open a shut ticket: nothing else adds an AI reply or unlocks one. */
  lemma StepKeepsShut(s: State, step: Step)
    requires Shut(s) && Enabled(s, step) && !step.SetTicket?
    ensures Shut(Apply(s, step))
    ensures var messages := Apply(s, step).messages;
            messages == s.messages || exists m: Message :: m.author != AI && messages == s.messages + [m]
  {
    var s' := Apply(s, step);
    if step.Write? {
      var m := Message(step.author, s.now, step.key, None);
      forall key { KeyStaysTaken(s.messages, m, key); }
      assert m.author != AI && s'.messages == s.messages + [m];
    } else if step.RequestHuman? && s' != s {
      var m := Message(System, s.now, Some("human-request"), None);
      forall key { KeyStaysTaken(s.messages, m, key); }
      assert m.author != AI && s'.messages == s.messages + [m];
    }
  }

  lemma OtherMessageKeepsLast(messages: seq<Message>, m: Message)
    requires HandoffIsLast(messages) && m.author != AI
    ensures HandoffIsLast(messages + [m])
  {
  }

  lemma {:induction false} ShutKeepsLast(s: State, steps: seq<Step>)
    requires Shut(s) && HandoffIsLast(s.messages) && NobodyEdits(steps)
    ensures HandoffIsLast(RunAll(s, steps).messages)
    decreases |steps|
  {
    if steps != [] {
      var s1 := if Enabled(s, steps[0]) then Apply(s, steps[0]) else s;
      if Enabled(s, steps[0]) {
        StepKeepsShut(s, steps[0]);
        if s1.messages != s.messages {
          var m: Message :| m.author != AI && s1.messages == s.messages + [m];
          OtherMessageKeepsLast(s.messages, m);
        }
      }
      ShutKeepsLast(s1, steps[1..]);
    }
  }

  lemma {:induction false} OldRepliesDoNotCount(messages: seq<Message>, n: nat, from: int, to: int)
    requires n <= |messages| && forall m :: m in messages ==> m.createdAt <= from
    ensures AiUpTo(messages, n, from, to) == 0
  {
    if n > 0 {
      assert messages[n - 1] in messages;
      OldRepliesDoNotCount(messages, n - 1, from, to);
    }
  }

  /** A run number nobody uses. */
  lemma {:induction false} UnusedRun(runs: set<nat>) returns (r: nat)
    ensures forall q :: q in runs ==> q < r
    decreases |runs|
  {
    r := 0;
    if runs != {} {
      var q :| q in runs;
      var rest := UnusedRun(runs - {q});
      r := if q < rest then rest else q + 1;
      assert forall p :: p in runs ==> p == q || p in runs - {q};
    }
  }

  /** A message nobody has answered: its key is longer than every stored one. */
  lemma {:induction false} FreeKey(messages: seq<Message>, n: nat) returns (key: string)
    requires n <= |messages|
    ensures forall i :: 0 <= i < n && messages[i].key.Some? ==> |messages[i].key.value| < |AiKey(key)|
  {
    key := "";
    if n > 0 {
      key := FreeKey(messages, n - 1);
      if messages[n - 1].key.Some? { key := key + messages[n - 1].key.value + "+"; }
    }
  }

  /** After ten minutes of silence a ticket whose other guards are open gets another AI reply. */
  lemma SilenceReopens(s: State, g: Signals) returns (steps: seq<Step>)
    requires HandoffIsLast(s.messages) && SomeUnanswered(s.messages) && StaysOpen(s)
    requires forall m :: m in s.messages ==> m.createdAt <= s.now
    ensures NobodyEdits(steps) && !HandoffIsLast(RunAll(s, steps).messages)
  {
    var r := UnusedRun(s.runs.Keys);
    var key := FreeKey(s.messages, |s.messages|);
    var at := s.now + WINDOW_MS;
    var later := Later(s, at);
    OldRepliesDoNotCount(s.messages, |s.messages|, s.now, at);
    AnotherReplyIff(later, r, key, g);
    steps := [Tick(at)] + [Begin(r, key), Post(r, g)];
    RunOne(s, Tick(at), [Begin(r, key), Post(r, g)]);
  }

  lemma ComingReplyBreaks(s: State, g: Signals) returns (steps: seq<Step>)
    requires SomeUnanswered(s.messages) && ReplyComing(s)
    ensures NobodyEdits(steps) && !HandoffIsLast(RunAll(s, steps).messages)
  {
    var r :| r in s.runs && s.runs[r].Thinking? && !KeyTaken(s.messages, AiKey(s.runs[r].messageKey));
    steps := [Post(r, g)];
    RunOnly(s, Post(r, g));
    PostAdds(s, r, g);
    ReplyBreaks(s.messages, Apply(s, Post(r, g)).messages[|s.messages|]);
  }

  /** The exact condition, over every schedule in which nobody edits the ticket and whatever runs overlap or die: once
      an AI reply has handed over, some such schedule lets another AI reply follow it if and only if the ticket's guards
      other than the rate are open, or a run that passed them has yet to post. */
  lemma HandoffBreaksIff(s: State)
    requires HandoffIsLast(s.messages) && SomeUnanswered(s.messages)
    requires forall m :: m in s.messages ==> m.createdAt <= s.now
    ensures (exists steps :: NobodyEdits(steps) && !HandoffIsLast(RunAll(s, steps).messages))
            <==> StaysOpen(s) || ReplyComing(s)
  {
    var g := Signals(true, NotSerious, true, None);
    if StaysOpen(s) {
      var steps := SilenceReopens(s, g);
    } else if ReplyComing(s) {
      var steps := ComingReplyBreaks(s, g);
    } else {
      forall steps | NobodyEdits(steps) ensures HandoffIsLast(RunAll(s, steps).messages) { ShutKeepsLast(s, steps); }
    }
  }
}
