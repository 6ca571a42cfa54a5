/** Applying rules to the stored ticket: the run loop, the actions and the choice of an agent. */
module AutomationRuns {
  import opened Options
  import opened AutomationEngine

  const LEAST_LOADED := "least_loaded"

  /** The rest of the database, as actions see it. `pick` is the least-loaded choice for a team and the ticket at
      hand. */
  datatype Directory = Directory(teams: set<string>, activeUsers: set<string>,
                                 pick: (Option<string>, Ticket) -> Option<string>)

  predicate ValidStatus(s: string) { s == "open" || s == "pending" || s == "on_hold" || s == "solved" || s == "closed" }

  predicate ValidPriority(p: string) { p == "low" || p == "normal" || p == "high" || p == "urgent" }

  function Without(tags: seq<string>, tag: string): seq<string> {
    if tags == [] then [] else (if tags[0] != tag then [tags[0]] else []) + Without(tags[1..], tag)
  }

  /** The agent an action asks for. The team is read off the ticket as it was when the run began. */
  function Requested(d: Directory, seen: Ticket, row: Ticket, value: string): Option<string> {
    if value == LEAST_LOADED then d.pick(seen.teamId, row)
    else if value in d.activeUsers then Some(value)
    else None
  }

  /** One action: `seen` is the ticket as the run read it, `row` the stored ticket now. E-mail leaves the ticket
      alone. */
  function Act(d: Directory, seen: Ticket, row: Ticket, a: Action): Ticket {
    match a
    case SetPriority(v) => if ValidPriority(v) then row.(priority := v) else row
    case AssignTeam(v) => if v in d.teams then row.(teamId := Some(v)) else row
    case AddTag(v) => if v in row.tags then row else row.(tags := row.tags + [v])
    case AssignAgent(v) =>
      var agent := Requested(d, seen, row, v);
      if agent.None? || agent.value == "" || agent == seen.assigneeId then row else row.(assigneeId := agent)
    case SetStatus(v) => if ValidStatus(v) then row.(status := v, resolved := v == "solved" || v == "closed") else row
    case AddInternalNote(v) => row.(notes := row.notes + [v])
    case RemoveTag(v) => row.(tags := Without(row.tags, v))
    case StopProcessing | SendEmail(_) => row
  }

  function ActAll(d: Directory, seen: Ticket, row: Ticket, actions: seq<Action>): Ticket
    decreases |actions|
  {
    if actions == [] then row else ActAll(d, seen, Act(d, seen, row, actions[0]), actions[1..])
  }

  /** The actions of a list that take place: those whose database calls throw are logged and skipped. */
  function Performed(actions: seq<Action>, failing: set<nat>): seq<Action> {
    if actions == [] then []
    else
      var last := |actions| - 1;
      Performed(actions[..last], failing) + if last in failing then [] else [actions[last]]
  }

  lemma PerformedNext(actions: seq<Action>, failing: set<nat>, i: nat)
    requires i < |actions|
    ensures i in failing ==> Performed(actions[..i + 1], failing) == Performed(actions[..i], failing)
    ensures i !in failing ==> Performed(actions[..i + 1], failing) == Performed(actions[..i], failing) + [actions[i]]
  {
    assert actions[..i + 1][..i] == actions[..i];
  }

  lemma {:induction false} ActLast(d: Directory, seen: Ticket, row: Ticket, actions: seq<Action>, a: Action)
    ensures ActAll(d, seen, row, actions + [a]) == Act(d, seen, ActAll(d, seen, row, actions), a)
    decreases |actions|
  {
    if actions == [] {
      assert (actions + [a])[1..] == [];
    } else {
      assert (actions + [a])[1..] == actions[1..] + [a];
      ActLast(d, seen, Act(d, seen, row, actions[0]), actions[1..], a);
    }
  }

  /** Positions of failing actions, by rule id. */
  type Faults = string -> set<nat>

  function ApplyRules(d: Directory, seen: Ticket, row: Ticket, rules: seq<Rule>, faults: Faults): Ticket
    decreases |rules|
  {
    if rules == [] then row
    else ApplyRules(d, seen, ActAll(d, seen, row, Performed(rules[0].actions, faults(rules[0].id))), rules[1..], faults)
  }

  /** What the other actions write: only values of the lists, only known teams, one field each. */
  lemma FieldActions(d: Directory, seen: Ticket, row: Ticket, v: string)
    ensures Act(d, seen, row, SetPriority(v)) == if v in {"low", "normal", "high", "urgent"} then row.(priority := v)
            else row
    ensures Act(d, seen, row, SetStatus(v)) ==
              if v in {"solved", "closed"} then row.(status := v, resolved := true)
              else if v in {"open", "pending", "on_hold"} then row.(status := v, resolved := false) else row
    ensures Act(d, seen, row, AssignTeam(v)) == if v in d.teams then row.(teamId := Some(v)) else row
    ensures Act(d, seen, row, AddInternalNote(v)) == row.(notes := row.notes + [v])
    ensures Act(d, seen, row, SendEmail(v)) == row == Act(d, seen, row, StopProcessing)
    ensures v != "least_loaded" && v !in d.activeUsers ==> Act(d, seen, row, AssignAgent(v)) == row
    ensures v != "least_loaded" && v in d.activeUsers && v != "" && Some(v) != seen.assigneeId ==>
              Act(d, seen, row, AssignAgent(v)) == row.(assigneeId := Some(v))
    ensures var best := d.pick(seen.teamId, row);
            best.Some? && best.value != "" && best != seen.assigneeId ==>
              Act(d, seen, row, AssignAgent("least_loaded")) == row.(assigneeId := best)
  {
  }

  // ------------------------------------------------------------------ tags

  predicate NoRepeats(tags: seq<string>) { forall i, j :: 0 <= i < j < |tags| ==> tags[i] != tags[j] }

  lemma {:induction false} WithoutRemoves(tags: seq<string>, tag: string, t: string)
    ensures t in Without(tags, tag) <==> t in tags && t != tag
    decreases |tags|
  {
    if tags != [] { WithoutRemoves(tags[1..], tag, t); }
  }

  lemma {:induction false} WithoutAbsent(tags: seq<string>, tag: string)
    requires tag !in tags
    ensures Without(tags, tag) == tags
    decreases |tags|
  {
    if tags != [] {
      WithoutAbsent(tags[1..], tag);
      assert [tags[0]] + tags[1..] == tags;
    }
  }

  lemma {:induction false} WithoutKeepsNoRepeats(tags: seq<string>, tag: string)
    requires NoRepeats(tags)
    ensures NoRepeats(Without(tags, tag))
    decreases |tags|
  {
    if tags != [] {
      WithoutKeepsNoRepeats(tags[1..], tag);
      WithoutRemoves(tags[1..], tag, tags[0]);
    }
  }

  lemma {:induction false} WithoutAppended(tags: seq<string>, tag: string)
    requires tag !in tags
    ensures Without(tags + [tag], tag) == tags
    decreases |tags|
  {
    if tags == [] {
      assert [tag][1..] == [];
      assert Without([tag], tag) == [];
      assert tags + [tag] == [tag];
    } else {
      assert (tags + [tag])[1..] == tags[1..] + [tag];
      WithoutAppended(tags[1..], tag);
    }
  }

  /** Tag actions: adding twice is adding once, removing a tag the run added restores the list, an action changes the
      membership of its own tag only, and lists without repeats stay so. */
  lemma TagActions(d: Directory, seen: Ticket, row: Ticket, tag: string)
    ensures var added, removed := Act(d, seen, row, AddTag(tag)), Act(d, seen, row, RemoveTag(tag));
            && Act(d, seen, added, AddTag(tag)) == added && tag in added.tags
            && Act(d, seen, removed, RemoveTag(tag)) == removed && tag !in removed.tags
            && (tag !in row.tags ==> Act(d, seen, added, RemoveTag(tag)) == row)
            && (forall t :: t != tag ==> (t in added.tags <==> t in row.tags) && (t in removed.tags <==> t in row.tags))
            && (NoRepeats(row.tags) ==> NoRepeats(added.tags) && NoRepeats(removed.tags))
  {
    forall t { WithoutRemoves(row.tags, tag, t); }
    WithoutAbsent(Without(row.tags, tag), tag);
    if NoRepeats(row.tags) { WithoutKeepsNoRepeats(row.tags, tag); }
    if tag !in row.tags { WithoutAppended(row.tags, tag); }
  }

  // ------------------------------------------------------------------ assignment reads the old ticket

  /** An assignment takes effect exactly when it names somebody other than the assignee the run started with, or that
      assignee still holds the ticket: handing the ticket back to its first assignee is dropped. */
  lemma AssignmentTakesEffect(d: Directory, seen: Ticket, row: Ticket, v: string)
    requires Requested(d, seen, row, v).Some? && Requested(d, seen, row, v).value != ""
    ensures var agent := Requested(d, seen, row, v);
            Act(d, seen, row, AssignAgent(v)).assigneeId == agent <==>
                agent != seen.assigneeId || row.assigneeId == seen.assigneeId
  {
  }

  /** So a rule that moves the ticket to `b` and back to its first assignee `a` leaves it with `b`. */
  lemma HandingBackIsLost(d: Directory, seen: Ticket, a: string, b: string)
    requires seen.assigneeId == Some(a) && {a, b} <= d.activeUsers && a != b && "" !in {a, b} && LEAST_LOADED !in {a, b}
    ensures ActAll(d, seen, seen, [AssignAgent(b), AssignAgent(a)]).assigneeId == Some(b)
  {
    var row := Act(d, seen, seen, AssignAgent(b));
    assert [AssignAgent(b), AssignAgent(a)][1..] == [AssignAgent(a)];
    assert ActAll(d, seen, row, [AssignAgent(a)]) == ActAll(d, seen, Act(d, seen, row, AssignAgent(a)), []);
  }

  // ------------------------------------------------------------------ the loops

  function LoadOf(load: map<string, nat>, id: string): nat { if id in load then load[id] else 0 }

  ghost predicate FirstLightest(agents: seq<string>, load: map<string, nat>, i: int) {
    && 0 <= i < |agents|
    && (forall j :: 0 <= j < |agents| ==> LoadOf(load, agents[j]) >= LoadOf(load, agents[i]))
    && (forall j :: 0 <= j < i ==> LoadOf(load, agents[j]) > LoadOf(load, agents[i]))
  }

  /** The first agent, in the order given, with the least open tickets. */
  method PickLeastLoadedAgent(agents: seq<string>, load: map<string, nat>) returns (best: Option<string>)
    ensures best.None? <==> agents == []
    ensures best.Some? ==> exists i :: FirstLightest(agents, load, i) && agents[i] == best.value
  {
    if agents == [] { return None; }
    var b, i := agents[0], 0;
    ghost var at := 0;
    while i < |agents|
      invariant 0 <= i <= |agents| && 0 <= at < |agents| && agents[at] == b && (at < i || at == i == 0)
      invariant forall j :: 0 <= j < i ==> LoadOf(load, agents[j]) >= LoadOf(load, b)
      invariant forall j :: 0 <= j < at ==> LoadOf(load, agents[j]) > LoadOf(load, b)
    {
      if LoadOf(load, agents[i]) < LoadOf(load, b) { b, at := agents[i], i; }
      i := i + 1;
    }
    assert FirstLightest(agents, load, at);
    return Some(b);
  }

  class TicketStore {
    var row: Ticket
    /** Ids of the rules that ran, in order. */
    var runLog: seq<string>

    constructor (t: Ticket)
      ensures row == t && runLog == []
    {
      row, runLog := t, [];
    }

    /** One after the other; an action that throws does not stop the ones after it. */
    method ApplyActions(d: Directory, seen: Ticket, actions: seq<Action>, failing: set<nat>)
      modifies this`row
      ensures row == ActAll(d, seen, old(row), Performed(actions, failing))
    {
      var i := 0;
      while i < |actions|
        invariant 0 <= i <= |actions|
        invariant row == ActAll(d, seen, old(row), Performed(actions[..i], failing))
      {
        PerformedNext(actions, failing, i);
        if i !in failing {
          ActLast(d, seen, old(row), Performed(actions[..i], failing), actions[i]);
          row := Act(d, seen, row, actions[i]);
        }
        i := i + 1;
      }
      assert actions[..i] == actions;
    }

    /** A run over the active rules in position order, on the ticket as `seen`. The rules that run are exactly the
        matching ones up to and including the first that stops, all judged on `seen` and never on what earlier rules
        wrote; a stop counts even when other actions of its rule fail. */
    method Run(f: Platform, s: Stored, d: Directory, seen: Ticket, rules: seq<Rule>, messageText: Option<string>,
               now: int, faults: Faults)
      modifies this
      ensures var x := FullContext(s, seen, messageText, now);
              && row == ApplyRules(d, seen, old(row), ReachedFrom(f, rules, x, |rules|), faults)
              && runLog == old(runLog) + Ids(ReachedFrom(f, rules, x, |rules|))
    {
      if rules == [] { return; }
      var x := BuildContext(s, seen, AllConditions(rules), messageText, now);
      SameFired(f, s, seen, rules, rules, messageText, now);
      FiredExactly(f, rules, FullContext(s, seen, messageText, now));
      var i := 0;
      while i < |rules|
        invariant 0 <= i <= |rules|
        invariant ApplyRules(d, seen, row, Fired(f, rules[i..], x), faults)
                == ApplyRules(d, seen, old(row), Fired(f, rules, x), faults)
        invariant runLog + Ids(Fired(f, rules[i..], x)) == old(runLog) + Ids(Fired(f, rules, x))
      {
        var rule := rules[i];
        FiredNext(f, rules, x, i);
        i := i + 1;
        if Verdict(f, rule, x) {
          ApplyFirst(d, seen, row, runLog, rule, if Stops(rule) then [] else Fired(f, rules[i..], x), faults);
          ApplyActions(d, seen, rule.actions, faults(rule.id));
          runLog := runLog + [rule.id];
          if Stops(rule) { return; }
        }
      }
    }
  }

  function Ids(rules: seq<Rule>): seq<string> { if rules == [] then [] else [rules[0].id] + Ids(rules[1..]) }

  lemma ApplyFirst(d: Directory, seen: Ticket, row: Ticket, log: seq<string>, r: Rule, rest: seq<Rule>, faults: Faults)
    ensures ApplyRules(d, seen, row, [r] + rest, faults)
         == ApplyRules(d, seen, ActAll(d, seen, row, Performed(r.actions, faults(r.id))), rest, faults)
    ensures log + Ids([r] + rest) == log + [r.id] + Ids(rest)
  {
    assert ([r] + rest)[1..] == rest;
  }

  /** The shared lazy context fires the same rules as everything loaded. */
  lemma {:induction false} SameFired(f: Platform, s: Stored, seen: Ticket, all: seq<Rule>, rules: seq<Rule>,
                                     messageText: Option<string>, now: int)
    requires forall r :: r in rules ==> r in all
    ensures Fired(f, rules, BuildContext(s, seen, AllConditions(all), messageText, now))
            == Fired(f, rules, FullContext(s, seen, messageText, now))
    decreases |rules|
  {
    if rules != [] {
      SimulationAgrees(f, s, seen, all, rules[0], messageText, now);
      SameFired(f, s, seen, all, rules[1..], messageText, now);
    }
  }

  /** The dry run of one rule: its verdict per condition, and its actions if all of them hold. */
  method Simulate(f: Platform, s: Stored, r: Rule, t: Ticket, messageText: Option<string>, now: int)
    returns (wouldMatch: bool, matched: seq<bool>, actions: seq<Action>)
    ensures wouldMatch == Verdict(f, r, FullContext(s, t, messageText, now))
    ensures |matched| == |r.conditions|
    ensures forall i :: 0 <= i < |matched| ==>
            matched[i] == Evaluate(f, r.conditions[i], FullContext(s, t, messageText, now))
    ensures actions == if wouldMatch then r.actions else []
  {
    var x := BuildContext(s, t, r.conditions, messageText, now);
    matched, wouldMatch := [], true;
    for i := 0 to |r.conditions|
      invariant |matched| == i
      invariant forall j :: 0 <= j < i ==>
              matched[j] == Evaluate(f, r.conditions[j], FullContext(s, t, messageText, now))
      invariant wouldMatch <==> forall j :: 0 <= j < i ==> matched[j]
    {
      LazyReadsTheSame(f, s, t, r.conditions, r.conditions[i], messageText, now);
      var ok := Evaluate(f, r.conditions[i], x);
      matched := matched + [ok];
      wouldMatch := wouldMatch && ok;
    }
    actions := if wouldMatch then r.actions else [];
  }
}
