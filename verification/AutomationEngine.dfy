/**
  The automation rule engine (apps/api/src/modules/automations/automation-engine.service.ts).
  Case folding and number syntax belong to the platform and are
 parameters. */
module AutomationEngine {
  import opened Options
  import opened JsText
  import opened BusinessHours
  import opened SlaPolicy
  import L = BusinessHoursLaws

  /** `number` is `None` where JavaScript has NaN; `show` prints an age in hours. */
  datatype Platform = Platform(lower: string -> string, number: string -> Option<real>, show: int -> string)

  datatype Field = Subject | MessageText | CustomerTags | Channel | TicketPriority | TicketStatus | Team
    | InBusinessHours | CustomerVip | CustomerEmailDomain | TicketAgeHours | Sentiment | Assignee | UnknownField

  datatype Operator = Contains | Equals | NotEquals | In | NotContains | Gt | Lt

  datatype Condition = Condition(field: Field, op: Operator, value: string)

  datatype Ticket = Ticket(subject: string, channel: string, priority: string, status: string, teamId: Option<string>,
                           assigneeId: Option<string>, sentiment: Option<string>, createdAt: int, tags: seq<string>,
                           resolved: bool, notes: seq<string>)

  /** The evaluation context; absent parts were not loaded. */
  datatype Context = Context(ticket: Ticket, messageText: Option<string>, customerTags: Option<seq<string>>,
                             customerIsVip: Option<bool>, customerEmail: Option<string>, isBusinessHours: Option<bool>,
                             now: int)

  datatype Customer = Customer(tags: seq<string>, isVip: bool, email: Option<string>)

  datatype Stored = Stored(customer: Option<Customer>, hours: Hours)

  // ------------------------------------------------------------------ operators

  datatype Actual = One(text: string) | Many(texts: seq<string>)

  predicate Includes(text: string, part: string) {
    exists i :: 0 <= i <= |text| && part <= text[i..]
  }

  function Join(texts: seq<string>, separator: string): string {
    if texts == [] then "" else if |texts| == 1 then texts[0] else texts[0] + separator + Join(texts[1..], separator)
  }

  /** The text cut at every comma. */
  function Split(text: string): (parts: seq<string>)
    ensures |parts| > 0
  {
    if text == [] then [""]
    else
      var parts := Split(text[1..]);
      if text[0] == ',' then [""] + parts else [[text[0]] + parts[0]] + parts[1..]
  }

  function Default<T>(o: Option<T>, d: T): T { if o.Some? then o.value else d }

  predicate Compare(f: Platform, actual: Actual, op: Operator, expected: string)
    requires op.Gt? || op.Lt?
  {
    var a := if actual.Many? then Some(|actual.texts| as real) else f.number(actual.text);
    var e := f.number(expected);
    a.Some? && e.Some? && if op.Gt? then a.value > e.value else a.value < e.value
  }

  predicate ApplyOperator(f: Platform, actual: Actual, op: Operator, expected: string) {
    var e := f.lower(expected);
    match op
    case Gt | Lt => Compare(f, actual, op, expected)
    case NotContains => !Includes(f.lower(if actual.Many? then Join(actual.texts, "\n") else actual.text), e)
    case Contains => if actual.Many? then exists t :: t in actual.texts && f.lower(t) == e
                     else Includes(f.lower(actual.text), e)
    case Equals => if actual.Many? then exists t :: t in actual.texts && f.lower(t) == e else f.lower(actual.text) == e
    case NotEquals => if actual.Many? then forall t :: t in actual.texts ==> f.lower(t) != e
                      else f.lower(actual.text) != e
    case In => if actual.Many? then exists t :: t in actual.texts && f.lower(t) == e
               else exists p :: p in Split(e) && Trim(p) == f.lower(actual.text)
  }

  /** Each negative operator is the exact opposite of its positive one on a single text, and "not equals" on a list
      too. */
  lemma NegativesAreOpposite(f: Platform, actual: Actual, expected: string)
    ensures ApplyOperator(f, actual, NotEquals, expected) <==> !ApplyOperator(f, actual, Equals, expected)
    ensures actual.One?
            ==> (ApplyOperator(f, actual, NotContains, expected) <==> !ApplyOperator(f, actual, Contains, expected))
  {
  }

  /** Case folding that treats the lines of a text one by one. It may change their lengths, as folding some letters
      does. */
  ghost predicate FoldsLines(f: Platform) {
    f.lower("") == "" && forall a, b :: f.lower(a + "\n" + b) == f.lower(a) + "\n" + f.lower(b)
  }

  lemma IncludesAt(text: string, part: string, i: nat)
    requires i + |part| <= |text| && text[i..i + |part|] == part
    ensures Includes(text, part)
  {
    assert text[i..][..|part|] == part;
  }

  lemma Occurrence(text: string, part: string) returns (i: nat)
    requires Includes(text, part)
    ensures i + |part| <= |text| && text[i..i + |part|] == part
  {
    i :| 0 <= i <= |text| && part <= text[i..];
    assert text[i..][..|part|] == part;
  }

  lemma OccurrenceCovers(text: string, part: string, i: nat, at: nat)
    requires i + |part| <= |text| && text[i..i + |part|] == part && i <= at < i + |part|
    ensures text[at] in part
  {
    assert part[at - i] == text[at];
  }

  lemma IncludesConcat(a: string, b: string, part: string)
    requires Includes(a, part) || Includes(b, part)
    ensures Includes(a + b, part)
  {
    if Includes(a, part) {
      var i := Occurrence(a, part);
      assert (a + b)[i..i + |part|] == a[i..i + |part|];
      IncludesAt(a + b, part, i);
    } else {
      var i := Occurrence(b, part);
      assert (a + b)[|a| + i..][..|part|] == b[i..][..|part|];
      IncludesAt(a + b, part, |a| + i);
    }
  }

  lemma OccurrenceBefore(a: string, b: string, part: string, i: nat)
    requires i + |part| <= |a| && (a + b)[i..i + |part|] == part
    ensures Includes(a, part)
  {
    assert (a + b)[i..i + |part|] == a[i..i + |part|];
    IncludesAt(a, part, i);
  }

  lemma OccurrenceAfter(a: string, b: string, part: string, i: nat)
    requires |a| <= i && i + |part| <= |a + b| && (a + b)[i..i + |part|] == part
    ensures Includes(b, part)
  {
    assert (a + b)[i..][..|part|] == b[i - |a|..][..|part|];
    IncludesAt(b, part, i - |a|);
  }

  /** A part without line feeds does not straddle one. */
  lemma IncludesAcrossLf(a: string, b: string, part: string)
    requires '\n' !in part
    ensures Includes(a + "\n" + b, part) <==> Includes(a, part) || Includes(b, part)
  {
    assert a + "\n" + b == a + ("\n" + b);
    if Includes(b, part) { IncludesConcat("\n", b, part); }
    if Includes(a, part) || Includes("\n" + b, part) { IncludesConcat(a, "\n" + b, part); }
    if Includes(a + "\n" + b, part) {
      var i := Occurrence(a + "\n" + b, part);
      if i <= |a| < i + |part| { OccurrenceCovers(a + "\n" + b, part, i, |a|); }
      if i + |part| <= |a| { OccurrenceBefore(a, "\n" + b, part, i); } else { OccurrenceAfter(a + "\n", b, part, i); }
    }
  }

  predicate SomeIncludes(f: Platform, texts: seq<string>, part: string) {
    exists t :: t in texts && Includes(f.lower(t), part)
  }

  lemma {:induction false} JoinedIncludes(f: Platform, texts: seq<string>, part: string)
    requires FoldsLines(f) && '\n' !in part
    ensures Includes(f.lower(Join(texts, "\n")), part) <==> SomeIncludes(f, texts, part) || (texts == [] && part == "")
    decreases |texts|
  {
    if texts == [] {
      if part == "" { IncludesAt("", "", 0); }
    } else if |texts| > 1 {
      IncludesAcrossLf(f.lower(texts[0]), f.lower(Join(texts[1..], "\n")), part);
      JoinedIncludes(f, texts[1..], part);
      assert texts == [texts[0]] + texts[1..];
    }
  }

  /** On a list "contains" asks for a whole entry while "not contains" searches every entry, so they are no opposites:
      both fail exactly when some entry contains the text and none equals it, or when the list and the folded text are
      both empty. They never both hold. */
  lemma ListContainsGap(f: Platform, texts: seq<string>, expected: string)
    requires FoldsLines(f) && '\n' !in f.lower(expected)
    ensures var contains := ApplyOperator(f, Many(texts), Contains, expected);
            var notContains := ApplyOperator(f, Many(texts), NotContains, expected);
            && (!contains && !notContains
                <==> (SomeIncludes(f, texts, f.lower(expected))
                      && forall t :: t in texts ==> f.lower(t) != f.lower(expected))
                     || (texts == [] && f.lower(expected) == ""))
            && !(contains && notContains)
  {
    var e := f.lower(expected);
    JoinedIncludes(f, texts, e);
    forall t | t in texts && f.lower(t) == e ensures SomeIncludes(f, texts, e) {
      IncludesAt(f.lower(t), e, 0);
    }
  }

  /** A customer tagged "vip-gold" is matched by neither "contains vip" nor "not contains vip". */
  lemma VipGoldIsNeither(f: Platform)
    requires f.lower("vip") == "vip" && f.lower("vip-gold") == "vip-gold"
    ensures !ApplyOperator(f, Many(["vip-gold"]), Contains, "vip")
            && !ApplyOperator(f, Many(["vip-gold"]), NotContains, "vip")
  {
    assert "vip-gold"[..3] == "vip";
    IncludesAt("vip-gold", "vip", 0);
  }

  /** Comparisons are of numbers, strict, and false without two of them; a list compares its length. */
  lemma ComparesNumbers(f: Platform, actual: Actual, expected: string)
    ensures var a := match actual case One(text) => f.number(text) case Many(texts) => Some(|texts| as real);
            var e := f.number(expected);
            && (ApplyOperator(f, actual, Gt, expected) <==> a.Some? && e.Some? && a.value > e.value)
            && (ApplyOperator(f, actual, Lt, expected) <==> a.Some? && e.Some? && a.value < e.value)
  {
  }

  /** The list of an "in" condition is the text between the commas. */
  lemma {:induction false} SplitsAtCommas(text: string)
    ensures Join(Split(text), ",") == text && forall p :: p in Split(text) ==> ',' !in p
    decreases |text|
  {
    if text != [] {
      SplitsAtCommas(text[1..]);
      var rest := Split(text[1..]);
      if text[0] == ',' {
        assert ([""] + rest)[1..] == rest && Join([""] + rest, ",") == "" + "," + Join(rest, ",");
        assert text == "," + text[1..];
      } else {
        var parts := [[text[0]] + rest[0]] + rest[1..];
        assert rest[0] in rest && parts[1..] == rest[1..];
        assert text == [text[0]] + text[1..];
        if |rest| > 1 {
          assert Join(parts, ",") == [text[0]] + rest[0] + "," + Join(rest[1..], ",");
          assert Join(rest, ",") == rest[0] + "," + Join(rest[1..], ",");
        }
      }
    }
  }

  lemma InMeans(f: Platform, text: string, expected: string)
    ensures ApplyOperator(f, One(text), In, expected) <==>
              exists p :: p in Split(f.lower(expected)) && Trim(p) == f.lower(text)
  {
  }

  // ------------------------------------------------------------------ conditions and contexts

  predicate SameFlag(f: Platform, flag: bool, value: string) {
    (if flag then "true" else "false") == f.lower(value)
  }

  /** What follows the first `@`, up to the next one. */
  function Domain(email: string): string {
    if email == [] then "" else if email[0] == '@' then UpTo(email[1..], '@') else Domain(email[1..])
  }

  function UpTo(s: string, c: char): string {
    if s == [] || s[0] == c then "" else [s[0]] + UpTo(s[1..], c)
  }

  function DropAt(s: string): string { if s != [] && s[0] == '@' then s[1..] else s }

  predicate Evaluate(f: Platform, c: Condition, x: Context) {
    match c.field
    case Subject => ApplyOperator(f, One(x.ticket.subject), c.op, c.value)
    case MessageText => ApplyOperator(f, One(Default(x.messageText, "")), c.op, c.value)
    case CustomerTags => ApplyOperator(f, Many(Default(x.customerTags, [])), c.op, c.value)
    case Channel => ApplyOperator(f, One(x.ticket.channel), c.op, c.value)
    case TicketPriority => ApplyOperator(f, One(x.ticket.priority), c.op, c.value)
    case TicketStatus => ApplyOperator(f, One(x.ticket.status), c.op, c.value)
    case Team => ApplyOperator(f, One(Default(x.ticket.teamId, "")), c.op, c.value)
    case InBusinessHours => SameFlag(f, Default(x.isBusinessHours, false), c.value)
    case CustomerVip => SameFlag(f, Default(x.customerIsVip, false), c.value)
    case CustomerEmailDomain => ApplyOperator(f, One(Domain(Default(x.customerEmail, ""))), c.op, DropAt(c.value))
    case TicketAgeHours => ApplyOperator(f, One(f.show(x.now - x.ticket.createdAt)), c.op, c.value)
    case Sentiment => ApplyOperator(f, One(Default(x.ticket.sentiment, "")), c.op, c.value)
    case Assignee => ApplyOperator(f, One(if x.ticket.assigneeId.Some? then "assigned" else "unassigned"), c.op,
        c.value)
    case UnknownField => false
  }

  /** An address's domain is what follows its `@`; a text without one has none. */
  lemma {:induction false} DomainFollowsAt(user: string, domain: string)
    requires '@' !in user && '@' !in domain
    ensures Domain(user + "@" + domain) == domain && Domain(user) == ""
    decreases |user|
  {
    if user == [] {
      assert (user + "@" + domain)[1..] == domain;
      UpToNothing(domain);
    } else {
      assert (user + "@" + domain)[1..] == user[1..] + "@" + domain;
      DomainFollowsAt(user[1..], domain);
    }
  }

  lemma {:induction false} UpToNothing(s: string)
    requires '@' !in s
    ensures UpTo(s, '@') == s
  {
    if s != [] { UpToNothing(s[1..]); }
  }

  predicate FoldsAlike(f: Platform, a: string, b: string) { f.lower(a) == f.lower(b) }

  /** Which part of the ticket and its context a condition reads, by what "equals" compares with its value. */
  lemma EqualsReadsItsField(f: Platform, x: Context, v: string)
    ensures Evaluate(f, Condition(Subject, Equals, v), x) <==> FoldsAlike(f, x.ticket.subject, v)
    ensures Evaluate(f, Condition(Channel, Equals, v), x) <==> FoldsAlike(f, x.ticket.channel, v)
    ensures Evaluate(f, Condition(TicketPriority, Equals, v), x) <==> FoldsAlike(f, x.ticket.priority, v)
    ensures Evaluate(f, Condition(TicketStatus, Equals, v), x) <==> FoldsAlike(f, x.ticket.status, v)
    ensures x.messageText.Some? ==>
              (Evaluate(f, Condition(MessageText, Equals, v), x) <==> FoldsAlike(f, x.messageText.value, v))
    ensures x.ticket.teamId.Some? ==>
              (Evaluate(f, Condition(Team, Equals, v), x) <==> FoldsAlike(f, x.ticket.teamId.value, v))
    ensures x.ticket.sentiment.Some? ==>
              (Evaluate(f, Condition(Sentiment, Equals, v), x) <==> FoldsAlike(f, x.ticket.sentiment.value, v))
    ensures Evaluate(f, Condition(TicketAgeHours, Equals, v), x)
            <==> FoldsAlike(f, f.show(x.now - x.ticket.createdAt), v)
    ensures !Evaluate(f, Condition(UnknownField, Equals, v), x)
  {
  }

  lemma EqualsReadsItsPart(f: Platform, x: Context, v: string)
    ensures x.messageText.None? ==> (Evaluate(f, Condition(MessageText, Equals, v), x) <==> FoldsAlike(f, "", v))
    ensures x.ticket.teamId.None? ==> (Evaluate(f, Condition(Team, Equals, v), x) <==> FoldsAlike(f, "", v))
    ensures x.ticket.sentiment.None? ==> (Evaluate(f, Condition(Sentiment, Equals, v), x) <==> FoldsAlike(f, "", v))
    ensures Evaluate(f, Condition(Assignee, Equals, v), x) <==>
              FoldsAlike(f, if x.ticket.assigneeId == None then "unassigned" else "assigned", v)
    ensures x.customerTags.Some? ==>
              (Evaluate(f, Condition(CustomerTags, Equals, v), x)
               <==> exists t :: t in x.customerTags.value && FoldsAlike(f, t, v))
    ensures Evaluate(f, Condition(InBusinessHours, Equals, v), x) <==>
              f.lower(v) == if x.isBusinessHours == Some(true) then "true" else "false"
    ensures Evaluate(f, Condition(CustomerVip, Equals, v), x) <==>
              f.lower(v) == if x.customerIsVip == Some(true) then "true" else "false"
    ensures x.customerEmail.Some? && v != "" && v[0] == '@' ==>
              (Evaluate(f, Condition(CustomerEmailDomain, Equals, v), x)
               <==> FoldsAlike(f, Domain(x.customerEmail.value), v[1..]))
    ensures x.customerEmail.Some? && (v == "" || v[0] != '@') ==>
              (Evaluate(f, Condition(CustomerEmailDomain, Equals, v), x)
               <==> FoldsAlike(f, Domain(x.customerEmail.value), v))
  {
  }

  predicate NeedsCustomer(c: Condition) {
    c.field.CustomerTags? || c.field.CustomerVip? || c.field.CustomerEmailDomain?
  }

  predicate WithinHours(hours: Hours, now: int) {
    var h := ResolveBusinessHours(hours);
    h.Hours? && IsWithinBusinessHours(h.config, now / MS_PER_MINUTE)
  }

  /** Loads only what the given conditions ask for. */
  function BuildContext(d: Stored, t: Ticket, conditions: seq<Condition>, messageText: Option<string>,
                        now: int): Context {
    var wantsCustomer := exists c :: c in conditions && NeedsCustomer(c);
    var wantsHours := exists c :: c in conditions && c.field.InBusinessHours?;
    Context(t, messageText,
            if wantsCustomer && d.customer.Some? then Some(d.customer.value.tags) else None,
            if wantsCustomer then Some(d.customer.Some? && d.customer.value.isVip) else None,
            if wantsCustomer && d.customer.Some? then d.customer.value.email else None,
            if wantsHours then Some(WithinHours(d.hours, now)) else None, now)
  }

  /** Everything loaded, whether asked for or not. */
  function FullContext(d: Stored, t: Ticket, messageText: Option<string>, now: int): Context {
    Context(t, messageText,
            Some(if d.customer.Some? then d.customer.value.tags else []),
            Some(d.customer.Some? && d.customer.value.isVip),
            if d.customer.Some? then d.customer.value.email else None,
            Some(WithinHours(d.hours, now)), now)
  }

  /** What is stored, as a full context shows it. */
  lemma FullContextShows(d: Stored, t: Ticket, messageText: Option<string>, now: int)
    ensures var x := FullContext(d, t, messageText, now);
            && x.ticket == t && x.messageText == messageText && x.now == now
            && (d.customer.Some? ==> x.customerTags == Some(d.customer.value.tags)
                                     && x.customerIsVip == Some(d.customer.value.isVip)
                                     && x.customerEmail == d.customer.value.email)
            && (d.customer.None? ==>
                 x.customerTags == Some([]) && x.customerIsVip == Some(false) && x.customerEmail == None)
            && x.isBusinessHours == Some(
                 match d.hours
                 case NoHours => false
                 case Hours(c) => |c.workingDays| > 0 && c.startMinute < c.endMinute
                                  && L.Counts(c, now / 60_000 / 1440, now / 60_000 % 1440))
  {
    if d.hours.Hours? { L.WithinMeans(d.hours.config, now / 60_000); }
  }

  /** A condition reads the same under any context built for a list that contains it as under everything loaded. */
  lemma LazyReadsTheSame(f: Platform, d: Stored, t: Ticket, conditions: seq<Condition>, c: Condition,
                         messageText: Option<string>, now: int)
    requires c in conditions
    ensures Evaluate(f, c, BuildContext(d, t, conditions, messageText, now))
            == Evaluate(f, c, FullContext(d, t, messageText, now))
  {
    var x, y := BuildContext(d, t, conditions, messageText, now), FullContext(d, t, messageText, now);
    if NeedsCustomer(c) { assert Default(x.customerTags, []) == Default(y.customerTags, []); }
  }

  // ------------------------------------------------------------------ rules

  datatype Action =
    | SetPriority(value: string) | AssignTeam(value: string) | AddTag(value: string) | SendEmail(value: string)
    | AssignAgent(value: string) | SetStatus(value: string) | AddInternalNote(value: string) | RemoveTag(value: string)
    | StopProcessing

  datatype Rule = Rule(id: string, conditions: seq<Condition>, actions: seq<Action>)

  predicate Verdict(f: Platform, r: Rule, x: Context) { forall c :: c in r.conditions ==> Evaluate(f, c, x) }

  predicate Stops(r: Rule) { StopProcessing in r.actions }

  function AllConditions(rules: seq<Rule>): seq<Condition> {
    if rules == [] then [] else rules[0].conditions + AllConditions(rules[1..])
  }

  lemma {:induction false} ConditionOfRule(rules: seq<Rule>, r: Rule, c: Condition)
    requires r in rules && c in r.conditions
    ensures c in AllConditions(rules)
    decreases |rules|
  {
    if r != rules[0] { ConditionOfRule(rules[1..], r, c); }
  }

  /** The dry run is honest: for the same data and clock, each rule's verdict in a run, under the context all rules
      share, is its verdict in a simulation under a context of its own, and its verdict with everything loaded. */
  lemma SimulationAgrees(f: Platform, d: Stored, t: Ticket, rules: seq<Rule>, r: Rule, messageText: Option<string>,
                         now: int)
    requires r in rules
    ensures var shared := BuildContext(d, t, AllConditions(rules), messageText, now);
            var own := BuildContext(d, t, r.conditions, messageText, now);
            Verdict(f, r, shared) == Verdict(f, r, own) == Verdict(f, r, FullContext(d, t, messageText, now))
  {
    forall c | c in r.conditions
      ensures Evaluate(f, c, BuildContext(d, t, AllConditions(rules), messageText, now))
              == Evaluate(f, c, FullContext(d, t, messageText, now))
      ensures Evaluate(f, c, BuildContext(d, t, r.conditions, messageText, now))
              == Evaluate(f, c, FullContext(d, t, messageText, now))
    {
      ConditionOfRule(rules, r, c);
      LazyReadsTheSame(f, d, t, AllConditions(rules), c, messageText, now);
      LazyReadsTheSame(f, d, t, r.conditions, c, messageText, now);
    }
  }

  /** The rules that fire, as the loop goes through them. */
  function Fired(f: Platform, rules: seq<Rule>, x: Context): seq<Rule>
    decreases |rules|
  {
    if rules == [] then []
    else if !Verdict(f, rules[0], x) then Fired(f, rules[1..], x)
    else if Stops(rules[0]) then [rules[0]]
    else [rules[0]] + Fired(f, rules[1..], x)
  }

  lemma FiredNext(f: Platform, rules: seq<Rule>, x: Context, n: nat)
    requires n < |rules|
    ensures !Verdict(f, rules[n], x) ==> Fired(f, rules[n..], x) == Fired(f, rules[n + 1..], x)
    ensures Verdict(f, rules[n], x) ==>
              Fired(f, rules[n..], x) == [rules[n]] + if Stops(rules[n]) then [] else Fired(f, rules[n + 1..], x)
  {
    assert rules[n..][1..] == rules[n + 1..];
  }

  /** Rule `i` matches and no matching rule before it stops the chain. */
  predicate Reached(f: Platform, rules: seq<Rule>, x: Context, i: nat)
    requires i < |rules|
  {
    && (forall c :: c in rules[i].conditions ==> Evaluate(f, c, x))
    && (forall j :: 0 <= j < i ==>
          StopProcessing !in rules[j].actions || exists c :: c in rules[j].conditions && !Evaluate(f, c, x))
  }

  function ReachedFrom(f: Platform, rules: seq<Rule>, x: Context, n: nat): seq<Rule>
    requires n <= |rules|
  {
    if n == 0 then [] else ReachedFrom(f, rules, x, n - 1) + if Reached(f, rules, x, n - 1) then [rules[n - 1]] else []
  }

  predicate Stopped(f: Platform, rules: seq<Rule>, x: Context) {
    exists j :: 0 <= j < |rules| && Verdict(f, rules[j], x) && Stops(rules[j])
  }

  lemma {:induction false} FiredLast(f: Platform, rules: seq<Rule>, r: Rule, x: Context)
    ensures Fired(f, rules + [r], x)
         == Fired(f, rules, x) + if Verdict(f, r, x) && !Stopped(f, rules, x) then [r] else []
    decreases |rules|
  {
    if rules == [] {
      assert (rules + [r])[1..] == [];
    } else {
      assert (rules + [r])[1..] == rules[1..] + [r];
      FiredLast(f, rules[1..], r, x);
      assert Stopped(f, rules, x) <==> (Verdict(f, rules[0], x) && Stops(rules[0])) || Stopped(f, rules[1..], x) by {
        StoppedFirst(f, rules, x);
      }
    }
  }

  lemma StoppedFirst(f: Platform, rules: seq<Rule>, x: Context)
    requires rules != []
    ensures Stopped(f, rules, x) <==> (Verdict(f, rules[0], x) && Stops(rules[0])) || Stopped(f, rules[1..], x)
  {
    if Stopped(f, rules[1..], x) {
      var j :| 0 <= j < |rules[1..]| && Verdict(f, rules[1..][j], x) && Stops(rules[1..][j]);
      assert rules[1..][j] == rules[j + 1];
    }
    if Stopped(f, rules, x) {
      var j :| 0 <= j < |rules| && Verdict(f, rules[j], x) && Stops(rules[j]);
      if j > 0 { assert rules[j] == rules[1..][j - 1]; }
    }
  }

  /** Exactly the reached rules fire, in position order. */
  lemma {:induction false} FiredAreReached(f: Platform, rules: seq<Rule>, x: Context, n: nat)
    requires n <= |rules|
    ensures Fired(f, rules[..n], x) == ReachedFrom(f, rules, x, n)
    decreases n
  {
    if n > 0 {
      var before := rules[..n - 1];
      FiredAreReached(f, rules, x, n - 1);
      assert rules[..n] == before + [rules[n - 1]];
      FiredLast(f, before, rules[n - 1], x);
      assert Reached(f, rules, x, n - 1) <==> Verdict(f, rules[n - 1], x) && !Stopped(f, before, x);
    }
  }

  lemma FiredExactly(f: Platform, rules: seq<Rule>, x: Context)
    ensures Fired(f, rules, x) == ReachedFrom(f, rules, x, |rules|)
  {
    FiredAreReached(f, rules, x, |rules|);
    assert rules[..|rules|] == rules;
  }
}
