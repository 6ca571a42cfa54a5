/** The stored ticket and a run of the pipeline that nothing interrupts. */
module AiReplyService {
  import opened Options
  import opened AiReply

  datatype Reason = WrongMode | HumanHasTakenOver | AgentHasReplied | TicketClosed | RateGuard

  datatype Outcome = Skipped(reason: Reason) | Duplicate | Replied | HandedOff

  class Thread {
    var messages: seq<Message>
    var tags: set<string>
    var closed: bool
    var autopilot: bool

    ghost function View(now: int): State
      reads this
    {
      State(now, messages, tags, closed, autopilot, map[])
    }

    constructor (messages: seq<Message>, tags: set<string>, closed: bool, autopilot: bool)
      ensures this.messages == messages && this.tags == tags && this.closed == closed && this.autopilot == autopilot
    {
      this.messages, this.tags, this.closed, this.autopilot := messages, tags, closed, autopilot;
    }

    method RecentAi(after: int, now: int) returns (count: nat)
      ensures count == AiBetween(messages, after, now)
    {
      count := 0;
      for i := 0 to |messages|
        invariant count == AiUpTo(messages, i, after, now)
      {
        if messages[i].author == AI && after < messages[i].createdAt <= now { count := count + 1; }
      }
    }

    method Unsuccessful() returns (count: nat)
      ensures count == CountUnanswered(messages)
    {
      count := 0;
      for i := 0 to |messages|
        invariant count == UnansweredUpTo(messages, i)
      {
        if Unanswered(messages[i]) { count := count + 1; }
      }
    }

    /** Handling one customer message from start to end is the run's three steps; whatever stops it leaves no trace. */
    method HandleCustomerMessage(messageKey: string, g: Signals, now: int) returns (outcome: Outcome)
      modifies this`messages, this`tags
      ensures View(now) == RunAll(old(View(now)), [Begin(0, messageKey), Post(0, g), MarkHandoff(0)])
      ensures outcome.Skipped? <==> !MayReply(old(View(now)))
      ensures outcome.Duplicate? <==> MayReply(old(View(now))) && KeyTaken(old(messages), AiKey(messageKey))
      ensures outcome.Skipped? <==>
                !autopilot || "human-handoff" in old(tags) || (exists m :: m in old(messages) && m.author == Agent)
                    || closed
                || AiBetween(old(messages), now - 600_000, now) >= 6
      ensures outcome.Skipped? ==>
                outcome.reason == if !autopilot then WrongMode else if "human-handoff" in old(tags)
                    then HumanHasTakenOver
                                  else if exists m :: m in old(messages) && m.author == Agent then AgentHasReplied
                                  else if closed then TicketClosed else RateGuard
      ensures outcome.Replied? || outcome.HandedOff? ==>
                var d := Decide(g, CountUnanswered(old(messages)));
                && (outcome.Replied? <==> d.0 == Answered)
                && messages == old(messages) + [Message(AI, now, Some("ai:" + messageKey), Some(d.0))]
                && tags == if d.0 == Answered then old(tags) else old(tags) + {"human-handoff"}
      ensures outcome.Replied? || outcome.HandedOff?
              ==> KeyTaken(messages, AiKey(messageKey)) && |messages| == |old(messages)| + 1
      ensures outcome.Skipped? || outcome.Duplicate? ==> messages == old(messages) && tags == old(tags)
    {
      ghost var s0 := View(now);
      if !autopilot { WholeRunSkips(s0, messageKey, g); return Skipped(WrongMode); }
      if HANDOFF_TAG in tags { WholeRunSkips(s0, messageKey, g); return Skipped(HumanHasTakenOver); }
      if AgentReplied(messages) { WholeRunSkips(s0, messageKey, g); return Skipped(AgentHasReplied); }
      if closed { WholeRunSkips(s0, messageKey, g); return Skipped(TicketClosed); }
      var recent := RecentAi(now - WINDOW_MS, now);
      if recent >= MAX_AI_REPLIES_PER_10_MIN { WholeRunSkips(s0, messageKey, g); return Skipped(RateGuard); }
      var unsuccessful := Unsuccessful();
      var decision := Decide(g, unsuccessful);
      DecisionTable(g, unsuccessful);
      WholeRunGoesOn(s0, messageKey, g);
      if KeyTaken(messages, AiKey(messageKey)) { return Duplicate; }
      var reply := Message(AI, now, Some(AiKey(messageKey)), Some(decision.0));
      messages := messages + [reply];
      assert reply in messages;
      if decision.1 {
        tags := tags + {HANDOFF_TAG};
        return HandedOff;
      }
      return Replied;
    }
  }

  lemma WholeRunSkips(s: State, messageKey: string, g: Signals)
    requires s.runs == map[] && !MayReply(s)
    ensures RunAll(s, [Begin(0, messageKey), Post(0, g), MarkHandoff(0)]) == s
  {
    RunThree(s, Begin(0, messageKey), Post(0, g), MarkHandoff(0));
  }

  lemma WholeRunGoesOn(s: State, messageKey: string, g: Signals)
    requires s.runs == map[] && MayReply(s)
    ensures var d := Decide(g, CountUnanswered(s.messages));
            RunAll(s, [Begin(0, messageKey), Post(0, g), MarkHandoff(0)])
            == if KeyTaken(s.messages, AiKey(messageKey)) then s
               else s.(messages := s.messages + [Message(AI, s.now, Some(AiKey(messageKey)), Some(d.0))],
                       tags := if d.1 then s.tags + {HANDOFF_TAG} else s.tags)
  {
    RunThree(s, Begin(0, messageKey), Post(0, g), MarkHandoff(0));
    var s1 := Apply(s, Begin(0, messageKey));
    var s2 := Apply(s1, Post(0, g));
    if 0 in s2.runs { assert Apply(s2, MarkHandoff(0)).runs == map[]; } else { assert s2.runs == map[]; }
  }
}
