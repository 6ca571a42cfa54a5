/**
  Subscription events without serialisation (apps/api/src/modules/billing/billing.service.ts,
  lines 270-311): any number of handlers, each of which reads the subscription row and checks
  it, reads the organization's tier, and writes both in one transaction. A handler may die
  between two of these
 statements. */
module SubscriptionRaces {
  import opened Options
  import opened SubscriptionEvents

  /** A handler that passed the checks. `seen` is the row it read when `version` writes had been made; `tier` is `None`
      until it has read the organization. */
  datatype Handler = Handler(sub: Subscription, created: int, seen: Row, tier: Option<Tier>, version: nat)

  datatype Write = Write(sub: Subscription, created: int)

  /** `log` records the writes made, oldest first; the program keeps no such record. */
  datatype State = State(db: Db, handlers: map<nat, Handler>, log: seq<Write>)

  datatype Step =
    | ReadRow(handler: nat, sub: Subscription, created: int)
    | ReadTier(handler: nat)
    | Commit(handler: nat)
    | Die(handler: nat)

  predicate Enabled(s: State, step: Step) {
    match step
    case ReadRow(h, _, _) => h !in s.handlers
    case ReadTier(h) => h in s.handlers && s.handlers[h].tier.None?
    case Commit(h) => h in s.handlers && s.handlers[h].tier.Some? && s.handlers[h].sub.customer in s.db.rows
    case Die(h) => h in s.handlers
  }

  /** The checks between the row's read and the organization's. */
  predicate Passes(p: Prices, row: Row, sub: Subscription, created: int) {
    && (sub.metaOrg.None? || sub.metaOrg.value == "" || sub.metaOrg.value == row.orgId)
    && (row.lastEventAt.Some? ==> row.lastEventAt.value <= created)
    && PaidTier(p, sub).Some?
  }

  function Written(p: Prices, h: Handler): Row
    requires h.tier.Some? && PaidTier(p, h.sub).Some?
  {
    Applied(p, h.seen, h.sub, h.created, PaidTier(p, h.sub).value, h.tier.value)
  }

  function Apply(p: Prices, s: State, step: Step): State
    requires Enabled(s, step)
  {
    match step
    case ReadRow(h, sub, created) =>
      if sub.customer in s.db.rows && Passes(p, s.db.rows[sub.customer], sub, created)
      then s.(handlers := s.handlers[h := Handler(sub, created, s.db.rows[sub.customer], None, |s.log|)])
      else s
    case ReadTier(h) =>
      var k := s.handlers[h];
      if k.seen.orgId in s.db.orgs then s.(handlers := s.handlers[h := k.(tier := Some(s.db.orgs[k.seen.orgId]))])
      else s.(handlers := s.handlers - {h})
    case Commit(h) =>
      var k := s.handlers[h];
      if PaidTier(p, k.sub).None? then s
      else
        var row := Written(p, k);
        State(s.db.(rows := s.db.rows[k.sub.customer := row], orgs := s.db.orgs[row.orgId := row.tier]),
              s.handlers - {h}, s.log + [Write(k.sub, k.created)])
    case Die(h) => s.(handlers := s.handlers - {h})
  }

  function Run(p: Prices, s: State, steps: seq<Step>): State
    decreases |steps|
  {
    if steps == [] then s else Run(p, if Enabled(s, steps[0]) then Apply(p, s, steps[0]) else s, steps[1..])
  }

  // ------------------------------------------------------------------ what a handler's read still tells

  /** Time of the last event written for customer `c` after the first `from` writes. */
  function LastWritten(log: seq<Write>, from: nat, c: string): Option<int>
    decreases |log|
  {
    if |log| <= from then None
    else if log[|log| - 1].sub.customer == c then Some(log[|log| - 1].created)
    else LastWritten(log[..|log| - 1], from, c)
  }

  lemma LastWrittenNext(log: seq<Write>, w: Write, from: nat, c: string)
    requires from <= |log|
    ensures LastWritten(log + [w], from, c) == if w.sub.customer == c then Some(w.created)
            else LastWritten(log, from, c)
  {
    assert (log + [w])[..|log|] == log;
  }

  /** A handler passed the checks on what it read, and until its customer is written again the row and the tier are
      still what it read; after that the row shows the last event written. */
  ghost predicate Remembers(p: Prices, s: State, k: Handler) {
    var c := k.sub.customer;
    && k.version <= |s.log| && c in s.db.rows && s.db.rows[c].orgId == k.seen.orgId
         && Passes(p, k.seen, k.sub, k.created)
    && (k.tier.Some? ==> k.seen.orgId in s.db.orgs)
    && match LastWritten(s.log, k.version, c)
       case None => s.db.rows[c] == k.seen && (k.tier.Some? ==> s.db.orgs[k.seen.orgId] == k.tier.value)
       case Some(at) => s.db.rows[c].lastEventAt == Some(at)
  }

  ghost predicate Sound(p: Prices, s: State) {
    Paired(s.db) && forall h :: h in s.handlers ==> Remembers(p, s, s.handlers[h])
  }

  lemma CommitKeepsRemembering(p: Prices, s: State, h: nat, k: Handler)
    requires Sound(p, s) && Enabled(s, Commit(h)) && Remembers(p, s, k)
    ensures Remembers(p, Apply(p, s, Commit(h)), k)
  {
    var w := s.handlers[h];
    LastWrittenNext(s.log, Write(w.sub, w.created), k.version, k.sub.customer);
  }

  lemma CommitKeepsPaired(p: Prices, s: State, h: nat)
    requires Sound(p, s) && Enabled(s, Commit(h))
    ensures Paired(Apply(p, s, Commit(h)).db)
  {
  }

  lemma StepKeepsSound(p: Prices, s: State, step: Step)
    requires Sound(p, s) && Enabled(s, step)
    ensures Sound(p, Apply(p, s, step))
  {
    var s' := Apply(p, s, step);
    if step.Commit? {
      CommitKeepsPaired(p, s, step.handler);
      forall h | h in s'.handlers ensures Remembers(p, s', s'.handlers[h]) {
        CommitKeepsRemembering(p, s, step.handler, s.handlers[h]);
      }
    }
  }

  lemma {:induction false} RunKeepsSound(p: Prices, s: State, steps: seq<Step>)
    requires Sound(p, s)
    ensures Sound(p, Run(p, s, steps))
    decreases |steps|
  {
    if steps != [] {
      if Enabled(s, steps[0]) { StepKeepsSound(p, s, steps[0]); }
      RunKeepsSound(p, if Enabled(s, steps[0]) then Apply(p, s, steps[0]) else s, steps[1..]);
    }
  }

  // ------------------------------------------------------------------ when the row's clock goes back

  predicate GoesBack(before: Db, after: Db, c: string)
    requires c in before.rows && c in after.rows
  {
    before.rows[c].lastEventAt.Some?
    && (after.rows[c].lastEventAt.None? || after.rows[c].lastEventAt.value < before.rows[c].lastEventAt.value)
  }

  /** After any schedule, a write moves its row's clock back if and only if the last event written for that customer
      since the handler read the row is newer than the handler's own. */
  lemma CommitGoesBackIff(p: Prices, db: Db, steps: seq<Step>, h: nat)
    requires Paired(db)
    requires Enabled(Run(p, State(db, map[], []), steps), Commit(h))
    ensures var s := Run(p, State(db, map[], []), steps);
            var k := s.handlers[h];
            var since := LastWritten(s.log, k.version, k.sub.customer);
            k.sub.customer in Apply(p, s, Commit(h)).db.rows
            && (GoesBack(s.db, Apply(p, s, Commit(h)).db, k.sub.customer) <==> since.Some? && k.created < since.value)
  {
    RunKeepsSound(p, State(db, map[], []), steps);
    var s := Run(p, State(db, map[], []), steps);
    assert Remembers(p, s, s.handlers[h]);
  }

  // ------------------------------------------------------------------ reads and writes that stay together

  /** A commit whose customer nobody has written since the handler's read. Other customers may be written freely. */
  predicate Together(s: State, step: Step) {
    step.Commit? && Enabled(s, step) ==>
      LastWritten(s.log, s.handlers[step.handler].version, s.handlers[step.handler].sub.customer).None?
  }

  predicate AllTogether(p: Prices, s: State, steps: seq<Step>)
    decreases |steps|
  {
    steps == []
        || (Together(s, steps[0])
             && AllTogether(p, if Enabled(s, steps[0]) then Apply(p, s, steps[0]) else s, steps[1..]))
  }

  /** The writes applied one after the other, each read and written at once. */
  function ApplyAll(p: Prices, db: Db, log: seq<Write>): Db
    decreases |log|
  {
    if log == [] then db else ApplyAll(p, ApplySubscription(p, db, log[0].sub, log[0].created), log[1..])
  }

  /** Such a commit is the whole handler done at that moment. */
  lemma CommitIsAtomic(p: Prices, s: State, h: nat)
    requires Sound(p, s) && Enabled(s, Commit(h)) && Together(s, Commit(h))
    ensures Apply(p, s, Commit(h)).db == ApplySubscription(p, s.db, s.handlers[h].sub, s.handlers[h].created)
  {
    assert Remembers(p, s, s.handlers[h]);
  }

  ghost predicate NoClockBack(before: Db, after: Db) {
    && before.rows.Keys <= after.rows.Keys
    && forall c :: c in before.rows && c in after.rows ==> !GoesBack(before, after, c)
  }

  lemma AtomicKeepsClock(p: Prices, db: Db, sub: Subscription, created: int)
    ensures NoClockBack(db, ApplySubscription(p, db, sub, created))
  {
  }

  lemma NoClockBackTransitive(a: Db, b: Db, c: Db)
    requires NoClockBack(a, b) && NoClockBack(b, c)
    ensures NoClockBack(a, c)
  {
    forall k | k in a.rows && k in c.rows ensures !GoesBack(a, c, k) {
      assert !GoesBack(a, b, k) && !GoesBack(b, c, k);
    }
  }

  /** A commit of this kind comes first in the serial order. */
  lemma SerialFrom(p: Prices, s: State, h: nat, end: State)
    requires Sound(p, s) && Enabled(s, Commit(h)) && Together(s, Commit(h))
    requires var s1 := Apply(p, s, Commit(h));
             s1.log <= end.log && end.db == ApplyAll(p, s1.db, end.log[|s1.log|..]) && NoClockBack(s1.db, end.db)
    ensures s.log <= end.log && end.db == ApplyAll(p, s.db, end.log[|s.log|..]) && NoClockBack(s.db, end.db)
  {
    assert Remembers(p, s, s.handlers[h]);
    var s1 := Apply(p, s, Commit(h));
    var w := Write(s.handlers[h].sub, s.handlers[h].created);
    CommitIsAtomic(p, s, h);
    AtomicKeepsClock(p, s.db, w.sub, w.created);
    NoClockBackTransitive(s.db, s1.db, end.db);
    ApplyAllFrom(p, s.db, s.log, w, end.log);
  }

  lemma ApplyAllFrom(p: Prices, db: Db, log: seq<Write>, w: Write, all: seq<Write>)
    requires log + [w] <= all
    ensures ApplyAll(p, db, all[|log|..]) == ApplyAll(p, ApplySubscription(p, db, w.sub, w.created), all[|log| + 1..])
  {
    assert all[|log|] == (log + [w])[|log|] == w;
    assert all[|log|..][1..] == all[|log| + 1..];
  }

  /** If no customer is written between a handler's read and its write, any interleaving of any number of handlers is
      the one-at-a-time handling of its writes in order, and no row's clock ever goes back. */
  lemma {:induction false} TogetherIsSerial(p: Prices, s: State, steps: seq<Step>)
    requires Sound(p, s) && AllTogether(p, s, steps)
    ensures var end := Run(p, s, steps);
            && s.log <= end.log && end.db == ApplyAll(p, s.db, end.log[|s.log|..])
            && NoClockBack(s.db, end.db)
    decreases |steps|
  {
    if steps == [] {
      assert s.log[|s.log|..] == [];
    } else if Enabled(s, steps[0]) {
      var s1 := Apply(p, s, steps[0]);
      StepKeepsSound(p, s, steps[0]);
      TogetherIsSerial(p, s1, steps[1..]);
      if s1.log != s.log { SerialFrom(p, s, steps[0].handler, Run(p, s1, steps[1..])); }
    } else {
      TogetherIsSerial(p, s, steps[1..]);
    }
  }

  // ------------------------------------------------------------------ two handlers that both read first

  lemma RunNext(p: Prices, s: State, step: Step, rest: seq<Step>)
    ensures Run(p, s, [step] + rest) == Run(p, if Enabled(s, step) then Apply(p, s, step) else s, rest)
  {
    assert ([step] + rest)[1..] == rest;
  }

  lemma RunTwo(p: Prices, s: State, a: Step, b: Step)
    requires Enabled(s, a) && Enabled(Apply(p, s, a), b)
    ensures Run(p, s, [a, b]) == Apply(p, Apply(p, s, a), b)
  {
    assert [a, b] == [a] + [b] && [b] == [b] + [];
    RunNext(p, s, a, [b]);
    RunNext(p, Apply(p, s, a), b, []);
  }

  /** Whatever happened before: of two handlers of one customer that have both read, the one that writes last decides,
      and the row ends at the older event if and only if that is the older one's. */
  lemma LastWriterDecides(p: Prices, s: State, old1: nat, new1: nat, olderLast: bool)
    requires Sound(p, s) && Enabled(s, Commit(old1)) && Enabled(s, Commit(new1))
    requires s.handlers[old1].sub.customer == s.handlers[new1].sub.customer
            && s.handlers[old1].created < s.handlers[new1].created
    ensures var c := s.handlers[old1].sub.customer;
            var end := Run(p, s, if olderLast then [Commit(new1), Commit(old1)] else [Commit(old1), Commit(new1)]);
            && c in end.db.rows && PaidTier(p, s.handlers[old1].sub).Some? && PaidTier(p, s.handlers[new1].sub).Some?
            && end.db.rows[c] == Written(p, s.handlers[if olderLast then old1 else new1])
            && (end.db.rows[c].lastEventAt == Some(s.handlers[old1].created) <==> olderLast)
  {
    assert Remembers(p, s, s.handlers[old1]) && Remembers(p, s, s.handlers[new1]);
    if olderLast { RunTwo(p, s, Commit(new1), Commit(old1)); } else { RunTwo(p, s, Commit(old1), Commit(new1)); }
  }

  function BothRead(sub0: Subscription, at0: int, sub1: Subscription, at1: int): seq<Step> {
    [ReadRow(0, sub0, at0), ReadRow(1, sub1, at1), ReadTier(0), ReadTier(1)]
  }

  lemma ReadsOfTwo(p: Prices, db: Db, sub0: Subscription, at0: int, sub1: Subscription, at1: int)
    requires sub0.customer == sub1.customer && sub0.customer in db.rows
    requires Passes(p, db.rows[sub0.customer], sub0, at0) && Passes(p, db.rows[sub0.customer], sub1, at1)
    requires db.rows[sub0.customer].orgId in db.orgs
    ensures var row := db.rows[sub0.customer];
            var tier := Some(db.orgs[row.orgId]);
            Run(p, State(db, map[], []), BothRead(sub0, at0, sub1, at1))
            == State(db, map[0 := Handler(sub0, at0, row, tier, 0), 1 := Handler(sub1, at1, row, tier, 0)], [])
  {
    var s := State(db, map[], []);
    var tiers := [ReadTier(0), ReadTier(1)];
    var s1 := Apply(p, s, ReadRow(0, sub0, at0));
    var s2 := Apply(p, s1, ReadRow(1, sub1, at1));
    assert BothRead(sub0, at0, sub1, at1) == [ReadRow(0, sub0, at0)] + ([ReadRow(1, sub1, at1)] + tiers);
    RunNext(p, s, ReadRow(0, sub0, at0), [ReadRow(1, sub1, at1)] + tiers);
    RunNext(p, s1, ReadRow(1, sub1, at1), tiers);
    RunTwo(p, s2, ReadTier(0), ReadTier(1));
  }

  /** A cancellation and the reactivation that followed it, handled at once: the reactivation commits first, so the
      organization ends on the free tier with the cancellation's time, although the newer event was applied. */
  lemma ReactivationIsLost(p: Prices)
    requires p == Prices("price_s", "price_g", "price_e")
    ensures var active := Subscription("sub", "cus", None, Active, [Item("price_g", None)], false);
            var canceled := active.(status := Canceled);
            var row := Row("org", Some("sub"), Active, Growth, None, false, None);
            var start := State(Db(map["cus" := row], map["org" := Growth], map[]), map[], []);
            var end := Run(p, Run(p, start, BothRead(canceled, 1, active, 2)), [Commit(1), Commit(0)]);
            && end.db.rows == map["cus" := Row("org", None, Canceled, Free, None, false, Some(1))]
                 && end.db.orgs == map["org" := Free]
            && end.log == [Write(active, 2), Write(canceled, 1)]
  {
    var active := Subscription("sub", "cus", None, Active, [Item("price_g", None)], false);
    var canceled := active.(status := Canceled);
    var row := Row("org", Some("sub"), Active, Growth, None, false, None);
    var db := Db(map["cus" := row], map["org" := Growth], map[]);
    assert PaidTier(p, active) == Some(Growth) && PaidTier(p, canceled) == Some(Growth);
    ReadsOfTwo(p, db, canceled, 1, active, 2);
    var s := Run(p, State(db, map[], []), BothRead(canceled, 1, active, 2));
    RunTwo(p, s, Commit(1), Commit(0));
    var s1 := Apply(p, s, Commit(1));
    assert s1.db.rows == map["cus" := Row("org", Some("sub"), Active, Growth, None, false, Some(2))];
  }
}
