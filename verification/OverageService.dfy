/** The stored counters and the service methods that move them, one caller at a time. */
module OverageService {
  import opened Options
  import opened Identifiers
  import opened Metering

  lemma SendUnitsFrom(accepted: set<string>, k: Key, sent: nat, limit: nat, responses: seq<Response>, i: nat)
    requires sent < limit && i < |responses|
    ensures SendUnits(accepted, k, sent, limit, responses[i..])
            == if responses[i].Accepted?
                then SendUnits(accepted + {Identifier(k, sent + 1)}, k, sent + 1, limit, responses[i + 1..])
               else (if responses[i].Rejected? then accepted else accepted + {Identifier(k, sent + 1)}, sent)
  {
    assert responses[i..][1..] == responses[i + 1..];
  }

  /** The two steps of a request whose allowance is used up. */
  lemma AskAfterRefusal(plans: Plans, s: State, k: Key, eligible: bool)
    requires Plain(k) && s.refused == map[] && k.org in plans && CountOf(s.used, k) >= plans[k.org]
    ensures var s1 := Apply(plans, s, AskAllowance(0, k));
            && s1 == s.(refused := map[0 := k])
            && Apply(plans, s1, AskOverage(0, k.period, eligible))
               == if eligible && CountOf(s.counted, k) < plans[k.org]
                  then s.(counted := s.counted[k := CountOf(s.counted, k) + 1],
                      granted := s.granted + multiset{(k, Overage)})
                  else s
  {
    assert Key(k.org, k.period) == k;
    assert map[0 := k] - {0} == map[];
  }

  class UsageStore {
    var used: Counters
    var counted: Counters
    var reported: Counters
    /** Identifiers of the meter events Stripe has accepted. */
    var accepted: set<string>
    ghost var granted: multiset<(Key, Source)>

    ghost function View(): State
      reads this
    {
      State(used, counted, reported, accepted, map[], map[], granted)
    }

    constructor ()
      ensures View() == INIT
    {
      used, counted, reported, accepted, granted := map[], map[], map[], {}, multiset{};
    }

    /** `eligible` is what the availability check reads: offered, subscribed, billable and switched on. */
    method TryConsume(plans: Plans, k: Key, eligible: bool) returns (allowed: bool)
      modifies this`counted, this`granted
      ensures allowed <==> eligible && k.org in plans && CountOf(old(counted), k) < plans[k.org]
      ensures counted == if allowed then old(counted)[k := CountOf(old(counted), k) + 1] else old(counted)
      ensures granted == if allowed then old(granted) + multiset{(k, Overage)} else old(granted)
    {
      var cap := LimitOf(plans, k);
      if cap.None? || !eligible { return false; }
      var c := Consume(counted, k, cap, 1);
      if !c.1 { return false; }
      counted := c.0;
      granted := granted + multiset{(k, Overage)};
      return true;
    }

    /** One AI reply: from the allowance if any is left, otherwise from the overage. */
    method ConsumeAiReply(plans: Plans, k: Key, eligible: bool) returns (allowed: bool)
      requires Plain(k)
      modifies this`used, this`counted, this`granted
      ensures var s := old(View());
              var left := k.org !in plans || CountOf(s.used, k) < plans[k.org];
              && (allowed <==> left || (eligible && CountOf(s.counted, k) < plans[k.org]))
              && (left ==> View() == Apply(plans, s, AskAllowance(0, k)))
              && (!left ==>
                   View() == Apply(plans, Apply(plans, s, AskAllowance(0, k)), AskOverage(0, k.period, eligible)))
              && |View().granted| == |s.granted| + if allowed then 1 else 0
    {
      var c := Consume(used, k, LimitOf(plans, k), 1);
      if c.1 {
        used := c.0;
        granted := granted + multiset{(k, Allowance)};
        return true;
      }
      AskAfterRefusal(plans, View(), k, eligible);
      allowed := TryConsume(plans, k, eligible);
    }

    /** The unit loop: stops at the first response that is not a success. */
    method SendUnreported(k: Key, mark: nat, last: nat, responses: seq<Response>) returns (sent: nat)
      requires mark < last <= mark + |responses|
      modifies this`accepted
      ensures (accepted, sent) == SendUnits(old(accepted), k, mark, last, responses)
      ensures mark <= sent <= last
    {
      sent := mark;
      var unit := mark + 1;
      while unit <= last
        invariant mark < unit <= last + 1 && sent == unit - 1
        invariant SendUnits(accepted, k, sent, last, responses[sent - mark..])
                == SendUnits(old(accepted), k, mark, last, responses)
      {
        var response := responses[unit - mark - 1];
        SendUnitsFrom(accepted, k, sent, last, responses, sent - mark);
        if !response.Rejected? { accepted := accepted + {Identifier(k, unit)}; }
        if !response.Accepted? { break; }
        sent := unit;
        unit := unit + 1;
      }
    }

    /** Sends every counted but unreported unit, oldest first, at most 200 of them, then moves the high-water mark. */
    method Flush(k: Key, responses: seq<Response>) returns (sentNow: nat)
      requires |responses| >= MAX_EVENTS_PER_FLUSH
      modifies this`accepted, this`reported
      ensures View() == FlushAlone(old(View()), k, responses)
      ensures CountOf(reported, k) == CountOf(old(reported), k) + sentNow
    {
      var count, mark := CountOf(counted, k), CountOf(reported, k);
      if count <= mark { return 0; }
      var sent := SendUnreported(k, mark, Min(count, mark + MAX_EVENTS_PER_FLUSH), responses);
      if sent > mark { reported := reported[k := Max(CountOf(reported, k), sent)]; }
      return sent - mark;
    }
  }
}
