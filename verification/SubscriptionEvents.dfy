/**
  Stripe subscription events (apps/api/src/modules/billing/billing.service.ts and plans.ts):
  deliveries arrive at least once, in any order, and a handler may die before or after the
  transaction that applies the event. Handling is serialised, one delivery at a
 time. */
module SubscriptionEvents {
  import opened Options

  datatype Tier = Free | Starter | Growth | Enterprise

  datatype Status = Active | Trialing | PastDue | Canceled | Unpaid | IncompleteExpired | Other(name: string)

  /** Configured price ids; an empty string means the price is not configured. */
  datatype Prices = Prices(starter: string, growth: string, enterprise: string)

  datatype Item = Item(price: string, periodEnd: Option<int>)

  datatype Subscription = Subscription(id: string, customer: string, metaOrg: Option<string>, status: Status,
                                       items: seq<Item>, cancelAtPeriodEnd: bool)

  datatype Change = CheckoutCompleted | SubscriptionChanged(sub: Subscription) | PaymentFailed | Unhandled

  datatype Event = Event(id: string, created: int, change: Change)

  datatype Row = Row(orgId: string, subscriptionId: Option<string>, status: Status, tier: Tier,
                     periodEnd: Option<int>, cancelAtPeriodEnd: bool, lastEventAt: Option<int>)

  /** `rows` by Stripe customer, `orgs` the organizations' tiers, `seen` whether an event has its processed mark. */
  datatype Db = Db(rows: map<string, Row>, orgs: map<string, Tier>, seen: map<string, bool>)

  // ------------------------------------------------------------------ plans

  function PlanForPrice(p: Prices, id: string): Option<Tier> {
    if id == "" then None
    else if id == p.starter then Some(Starter)
    else if id == p.growth then Some(Growth)
    else if id == p.enterprise then Some(Enterprise)
    else None
  }

  function TierForStatus(status: Status, paid: Tier, current: Tier): Tier {
    match status
    case Active | Trialing | PastDue => paid
    case Canceled | Unpaid | IncompleteExpired => Free
    case Other(_) => current
  }

  predicate PaidActive(status: Status) { status.Active? || status.Trialing? || status.PastDue? }

  predicate Definite(status: Status) { !status.Other? }

  /** A definite status is exactly one that decides the tier without looking at the current one. */
  lemma DefiniteDecides(status: Status, paid: Tier)
    ensures Definite(status)
            <==> forall a: Tier, b: Tier :: TierForStatus(status, paid, a) == TierForStatus(status, paid, b)
  {
    if !Definite(status) { assert TierForStatus(status, paid, Free) != TierForStatus(status, paid, Starter); }
  }

  function BaseItem(p: Prices, items: seq<Item>): Option<Item> {
    if items == [] then None
    else if PlanForPrice(p, items[0].price).Some? then Some(items[0])
    else BaseItem(p, items[1..])
  }

  function PaidTier(p: Prices, sub: Subscription): Option<Tier> {
    var base := BaseItem(p, sub.items);
    if base.Some? then PlanForPrice(p, base.value.price)
    else if sub.items != [] then PlanForPrice(p, sub.items[0].price)
    else None
  }

  function PeriodEnd(p: Prices, sub: Subscription): Option<int> {
    var base := BaseItem(p, sub.items);
    if base.Some? then base.value.periodEnd else if sub.items != [] then sub.items[0].periodEnd else None
  }

  /** The plan comes from the first configured price, wherever a metered item sits; without one there is no plan. */
  lemma {:induction false} PaidTierIsFirstKnown(p: Prices, sub: Subscription, i: nat)
    requires i < |sub.items| && PlanForPrice(p, sub.items[i].price).Some?
    requires forall j :: 0 <= j < i ==> PlanForPrice(p, sub.items[j].price).None?
    ensures PaidTier(p, sub) == PlanForPrice(p, sub.items[i].price) && PeriodEnd(p, sub) == sub.items[i].periodEnd
    decreases i
  {
    if i > 0 { PaidTierIsFirstKnown(p, sub.(items := sub.items[1..]), i - 1); }
  }

  // ------------------------------------------------------------------ handling one event

  /** The row an event leads to, given the organization's tier when it is applied. */
  function Applied(p: Prices, row: Row, sub: Subscription, created: int, paid: Tier, current: Tier): Row {
    var tier := TierForStatus(sub.status, paid, current);
    var ended := tier == Free && !PaidActive(sub.status);
    Row(row.orgId, if ended then None else Some(sub.id), sub.status, tier, PeriodEnd(p, sub), sub.cancelAtPeriodEnd,
        Some(created))
  }

  /** An event that names a known customer, agrees with its organization and carries a configured price. */
  predicate Matches(p: Prices, db: Db, e: Event) {
    && e.change.SubscriptionChanged?
    && var sub := e.change.sub;
    && sub.customer in db.rows
    && (sub.metaOrg.None? || sub.metaOrg.value == "" || sub.metaOrg.value == db.rows[sub.customer].orgId)
    && PaidTier(p, sub).Some?
    && db.rows[sub.customer].orgId in db.orgs
  }

  function ApplySubscription(p: Prices, db: Db, sub: Subscription, created: int): Db {
    if sub.customer !in db.rows then db
    else
      var row := db.rows[sub.customer];
      if sub.metaOrg.Some? && sub.metaOrg.value != "" && sub.metaOrg.value != row.orgId then db
      else if row.lastEventAt.Some? && created < row.lastEventAt.value then db
      else
        var paid := PaidTier(p, sub);
        if paid.None? || row.orgId !in db.orgs then db
        else
          var row' := Applied(p, row, sub, created, paid.value, db.orgs[row.orgId]);
          db.(rows := db.rows[sub.customer := row'], orgs := db.orgs[row.orgId := row'.tier])
  }

  datatype Fate = Completes | DiesBeforeApplying | DiesBeforeMarking

  datatype Delivery = Delivery(event: Event, fate: Fate)

  function Process(p: Prices, db: Db, d: Delivery): Db {
    var e := d.event;
    if e.id in db.seen && db.seen[e.id] then db
    else
      var db1 := if e.id in db.seen then db else db.(seen := db.seen[e.id := false]);
      if d.fate.DiesBeforeApplying? then db1
      else
        var db2 := if e.change.SubscriptionChanged? then ApplySubscription(p, db1, e.change.sub, e.created) else db1;
        if d.fate.DiesBeforeMarking? then db2 else db2.(seen := db2.seen[e.id := true])
  }

  function Run(p: Prices, db: Db, ds: seq<Delivery>): Db
    decreases |ds|
  {
    if ds == [] then db else Run(p, Process(p, db, ds[0]), ds[1..])
  }

  // ------------------------------------------------------------------ the newest event wins

  /** Customers and organizations are paired one to one, as the table's unique keys demand. */
  ghost predicate Paired(db: Db) {
    forall c, c' :: c in db.rows && c' in db.rows && db.rows[c].orgId == db.rows[c'].orgId ==> c == c'
  }

  /** The customer's row and organization show exactly event `e`. */
  ghost predicate Shows(p: Prices, db: Db, e: Event) {
    && Matches(p, db, e)
    && var sub := e.change.sub;
    && var row := db.rows[sub.customer];
    && row == Applied(p, row, sub, e.created, PaidTier(p, sub).value, db.orgs[row.orgId])
    && db.orgs[row.orgId] == row.tier
  }

  ghost predicate Marked(db: Db, e: Event) { e.id in db.seen && db.seen[e.id] }

  /** Nothing newer than `e` is in the row. */
  ghost predicate NotPast(db: Db, e: Event) {
    && e.change.SubscriptionChanged?
    && var c := e.change.sub.customer;
    && c in db.rows
    && (db.rows[c].lastEventAt.Some? ==> db.rows[c].lastEventAt.value <= e.created)
  }

  /** Among all deliveries, `top` is the newest that applies to its customer, and the only one of its time. */
  ghost predicate Newest(p: Prices, db: Db, ds: seq<Delivery>, top: Event) {
    && Matches(p, db, top) && Definite(top.change.sub.status)
    && forall i :: 0 <= i < |ds| ==>
         (ds[i].event.id == top.id ==> ds[i].event == top)
         && (Matches(p, db, ds[i].event) && ds[i].event.change.sub.customer == top.change.sub.customer
              && ds[i].event != top
             ==> ds[i].event.created < top.created)
  }

  /** A delivery touches no row but its own customer's, and never moves that row's clock back. */
  lemma ProcessIsLocal(p: Prices, db: Db, d: Delivery)
    ensures var db' := Process(p, db, d);
            && db'.rows.Keys == db.rows.Keys && db'.orgs.Keys == db.orgs.Keys
            && (forall c :: c in db.rows ==> db'.rows[c].orgId == db.rows[c].orgId)
            && (forall c :: c in db.rows && db'.rows[c] != db.rows[c]
                 ==> Matches(p, db, d.event) && d.event.change.sub.customer == c)
            && (forall c :: c in db.rows && db.rows[c].lastEventAt.Some? ==>
                  db'.rows[c].lastEventAt.Some? && db'.rows[c].lastEventAt.value >= db.rows[c].lastEventAt.value)
  {
  }

  lemma ProcessKeepsMatches(p: Prices, db: Db, d: Delivery, e: Event)
    ensures Matches(p, Process(p, db, d), e) <==> Matches(p, db, e)
  {
    ProcessIsLocal(p, db, d);
  }

  /** Once shown, the newest event stays shown: older ones are dropped, itself re-applies to the same row, and other
      customers' events do not reach this organization. */
  lemma ProcessKeepsShown(p: Prices, db: Db, d: Delivery, top: Event)
    requires Paired(db) && Shows(p, db, top) && Definite(top.change.sub.status)
    requires d.event.id == top.id ==> d.event == top
    requires Matches(p, db, d.event) && d.event.change.sub.customer == top.change.sub.customer && d.event != top
            ==> d.event.created < top.created
    ensures Shows(p, Process(p, db, d), top)
  {
  }

  /** A delivery of a matching event that is not stale writes exactly its row, unless it dies first. */
  lemma ProcessApplies(p: Prices, db: Db, d: Delivery)
    requires Matches(p, db, d.event) && NotPast(db, d.event) && !Marked(db, d.event) && !d.fate.DiesBeforeApplying?
    ensures var db' := Process(p, db, d);
            var sub := d.event.change.sub;
            var row := db.rows[sub.customer];
            var row' := Applied(p, row, sub, d.event.created, PaidTier(p, sub).value, db.orgs[row.orgId]);
            && db'.rows == db.rows[sub.customer := row'] && db'.orgs == db.orgs[row.orgId := row'.tier]
            && (Marked(db', d.event) <==> d.fate.Completes?)
  {
  }

  /** Any other delivery changes no row at all. */
  lemma ProcessIgnores(p: Prices, db: Db, d: Delivery)
    requires !(Matches(p, db, d.event) && NotPast(db, d.event)) || Marked(db, d.event) || d.fate.DiesBeforeApplying?
    ensures Process(p, db, d).rows == db.rows && Process(p, db, d).orgs == db.orgs
    ensures Marked(Process(p, db, d), d.event) <==> Marked(db, d.event) || d.fate.Completes?
  {
  }

  lemma ProcessMarksItself(p: Prices, db: Db, d: Delivery, e: Event)
    requires e.id != d.event.id
    ensures Marked(Process(p, db, d), e) <==> Marked(db, e)
  {
  }

  lemma ProcessReaches(p: Prices, db: Db, d: Delivery, top: Event)
    requires Paired(db) && Matches(p, db, top) && Definite(top.change.sub.status) && NotPast(db, top)
    requires d.event.id == top.id ==> d.event == top
    requires Matches(p, db, d.event) && d.event.change.sub.customer == top.change.sub.customer && d.event != top
            ==> d.event.created < top.created
    ensures NotPast(Process(p, db, d), top)
    ensures Marked(Process(p, db, d), top) && !Marked(db, top) ==> Shows(p, Process(p, db, d), top)
    ensures d == Delivery(top, Completes) ==> Marked(Process(p, db, d), top)
  {
    if d.event != top { ProcessMarksItself(p, db, d, top); }
    if Matches(p, db, d.event) && NotPast(db, d.event) && !Marked(db, d.event) && !d.fate.DiesBeforeApplying? {
      ProcessApplies(p, db, d);
    } else {
      ProcessIgnores(p, db, d);
    }
  }

  lemma {:induction false} NewestWinsFrom(p: Prices, db: Db, ds: seq<Delivery>, top: Event)
    requires Paired(db) && Newest(p, db, ds, top) && NotPast(db, top)
    requires Marked(db, top) ==> Shows(p, db, top)
    ensures Marked(Run(p, db, ds), top) ==> Shows(p, Run(p, db, ds), top)
    ensures Marked(db, top) || Delivery(top, Completes) in ds ==> Marked(Run(p, db, ds), top)
    decreases |ds|
  {
    if ds != [] {
      var d := ds[0];
      var db1 := Process(p, db, d);
      ProcessIsLocal(p, db, d);
      ProcessReaches(p, db, d, top);
      if Marked(db, top) { ProcessKeepsShown(p, db, d, top); }
      forall e: Event { ProcessKeepsMatches(p, db, d, e); }
      NewestWinsFrom(p, db1, ds[1..], top);
    }
  }

  /** Convergence: whatever else is delivered, however often, in whatever order and with whatever crashes, once the
      newest applicable event has been completed at least once the row and the organization show exactly that event.
      Only the newest event needs a definite status; older ones may be anything. */
  lemma NewestWins(p: Prices, db: Db, ds: seq<Delivery>, top: Event)
    requires Paired(db) && Newest(p, db, ds, top) && NotPast(db, top) && !Marked(db, top)
    requires Delivery(top, Completes) in ds
    ensures Shows(p, Run(p, db, ds), top)
  {
    NewestWinsFrom(p, db, ds, top);
  }

  predicate Configured(p: Prices, price: string) { price != "" && price in {p.starter, p.growth, p.enterprise} }

  /** Item `i` carries the plan: the first whose price is configured. */
  predicate CarriesPlan(p: Prices, items: seq<Item>, i: nat) {
    i < |items| && Configured(p, items[i].price) && forall j :: 0 <= j < i ==> !Configured(p, items[j].price)
  }

  /** What a row and its organization show of an event, in the event's own fields. Paid access lasts while a payment is
      retried and ends, with the subscription id, when it is given up; a status in between changes no tier. */
  ghost predicate ShowsPlan(p: Prices, sub: Subscription, created: int, row: Row, tier: Tier, before: Tier,
                            item: Item) {
    && row.status == sub.status && row.lastEventAt == Some(created) && row.tier == tier
    && row.periodEnd == item.periodEnd && row.cancelAtPeriodEnd == sub.cancelAtPeriodEnd
    && (sub.status in {Active, Trialing, PastDue} ==>
          && row.subscriptionId == Some(sub.id)
          && (item.price == p.starter ==> tier == Starter)
          && (item.price == p.growth && item.price != p.starter ==> tier == Growth)
          && (item.price == p.enterprise && item.price !in {p.starter, p.growth} ==> tier == Enterprise))
    && (sub.status in {Canceled, Unpaid, IncompleteExpired} ==> tier == Free && row.subscriptionId == None)
    && (sub.status.Other? ==> tier == before && row.subscriptionId == if before == Free then None else Some(sub.id))
  }

  lemma AppliedShowsPlan(p: Prices, row: Row, sub: Subscription, created: int, current: Tier, i: nat)
    requires CarriesPlan(p, sub.items, i)
    ensures PaidTier(p, sub).Some?
    ensures var row' := Applied(p, row, sub, created, PaidTier(p, sub).value, current);
            ShowsPlan(p, sub, created, row', row'.tier, current, sub.items[i])
  {
    forall j | 0 <= j <= i ensures PlanForPrice(p, sub.items[j].price).Some? <==> Configured(p, sub.items[j].price) {}
    PaidTierIsFirstKnown(p, sub, i);
  }

  /** What an organization may count on, in the event's own fields: after any history in which its newest event has
      completed, row and tier are those of the plan that event carries. */
  lemma NewestShowsItsPlan(p: Prices, db: Db, ds: seq<Delivery>, top: Event, i: nat)
    requires Paired(db) && Newest(p, db, ds, top) && NotPast(db, top) && !Marked(db, top)
    requires Delivery(top, Completes) in ds && CarriesPlan(p, top.change.sub.items, i)
    ensures var sub := top.change.sub;
            var r := Run(p, db, ds);
            && sub.customer in r.rows && r.rows[sub.customer].orgId == db.rows[sub.customer].orgId
            && r.rows[sub.customer].orgId in r.orgs
            && var row := r.rows[sub.customer];
               ShowsPlan(p, sub, top.created, row, r.orgs[row.orgId], row.tier, sub.items[i])
  {
    NewestWins(p, db, ds, top);
    RunKeepsOrg(p, db, ds, top.change.sub.customer);
    var r := Run(p, db, ds);
    var row := r.rows[top.change.sub.customer];
    AppliedShowsPlan(p, row, top.change.sub, top.created, r.orgs[row.orgId], i);
  }

  /** One delivery, whatever its status: a known customer, agreeing metadata, a configured price and a time not before
      the row's are all it takes, and then row and tier are those of the plan it carries. */
  lemma DeliveryShowsItsPlan(p: Prices, db: Db, e: Event, fate: Fate, i: nat)
    requires e.change.SubscriptionChanged? && !fate.DiesBeforeApplying? && !(e.id in db.seen && db.seen[e.id])
    requires var sub := e.change.sub;
             && sub.customer in db.rows && CarriesPlan(p, sub.items, i)
             && (sub.metaOrg.Some? ==> sub.metaOrg.value in {"", db.rows[sub.customer].orgId})
             && db.rows[sub.customer].orgId in db.orgs
             && (db.rows[sub.customer].lastEventAt.Some? ==> db.rows[sub.customer].lastEventAt.value <= e.created)
    ensures var sub := e.change.sub;
            var org := db.rows[sub.customer].orgId;
            var r := Process(p, db, Delivery(e, fate));
            && sub.customer in r.rows && r.rows[sub.customer].orgId == org && org in r.orgs
            && ShowsPlan(p, sub, e.created, r.rows[sub.customer], r.orgs[org], db.orgs[org], sub.items[i])
            && (e.id in r.seen && (r.seen[e.id] <==> fate.Completes?))
  {
    var sub := e.change.sub;
    AppliedShowsPlan(p, db.rows[sub.customer], sub, e.created, db.orgs[db.rows[sub.customer].orgId], i);
    ProcessApplies(p, db, Delivery(e, fate));
  }

  /** Two histories with the same newest event agree on the customer, however different their orders and crashes. */
  lemma OrdersAgree(p: Prices, db: Db, ds: seq<Delivery>, ds': seq<Delivery>, top: Event)
    requires Paired(db) && NotPast(db, top) && !Marked(db, top)
    requires Newest(p, db, ds, top) && Delivery(top, Completes) in ds
    requires Newest(p, db, ds', top) && Delivery(top, Completes) in ds'
    ensures var c := top.change.sub.customer;
            var r, r' := Run(p, db, ds), Run(p, db, ds');
            && c in r.rows && c in r'.rows && r.rows[c] == r'.rows[c] && r.rows[c].lastEventAt == Some(top.created)
            && r.rows[c].orgId in r.orgs && r.rows[c].orgId in r'.orgs
            && r.orgs[r.rows[c].orgId] == r'.orgs[r.rows[c].orgId] == r.rows[c].tier
  {
    NewestWins(p, db, ds, top);
    NewestWins(p, db, ds', top);
    RunKeepsOrg(p, db, ds, top.change.sub.customer);
    RunKeepsOrg(p, db, ds', top.change.sub.customer);
  }

  lemma {:induction false} RunKeepsOrg(p: Prices, db: Db, ds: seq<Delivery>, c: string)
    requires c in db.rows
    ensures var r := Run(p, db, ds);
            && c in r.rows && r.rows[c].orgId == db.rows[c].orgId
            && (db.rows[c].lastEventAt.Some? ==>
                 r.rows[c].lastEventAt.Some? && r.rows[c].lastEventAt.value >= db.rows[c].lastEventAt.value)
    decreases |ds|
  {
    if ds != [] {
      ProcessIsLocal(p, db, ds[0]);
      RunKeepsOrg(p, Process(p, db, ds[0]), ds[1..], c);
    }
  }

  // ------------------------------------------------------------------ invariants of every run

  ghost predicate TiersAgree(db: Db) {
    forall c :: c in db.rows && db.rows[c].orgId in db.orgs ==> db.orgs[db.rows[c].orgId] == db.rows[c].tier
  }

  lemma {:induction false} TiersNeverDrift(p: Prices, db: Db, ds: seq<Delivery>)
    requires Paired(db) && TiersAgree(db)
    ensures Paired(Run(p, db, ds)) && TiersAgree(Run(p, db, ds))
    decreases |ds|
  {
    if ds != [] {
      ProcessIsLocal(p, db, ds[0]);
      TiersNeverDrift(p, Process(p, db, ds[0]), ds[1..]);
    }
  }

  // ------------------------------------------------------------------ where order does matter

  /** Two events of one customer, delivered once each: the order shows exactly when the newer one has no definite status
      and the older one changes the tier. */
  lemma TwoEventsCommute(p: Prices, db: Db, old1: Event, new1: Event)
    requires Paired(db) && Matches(p, db, old1) && Matches(p, db, new1) && old1.id != new1.id
    requires old1.id !in db.seen && new1.id !in db.seen
    requires old1.change.sub.customer == new1.change.sub.customer && old1.created < new1.created
    requires NotPast(db, old1)
    ensures var c := old1.change.sub.customer;
            var org := db.rows[c].orgId;
            var inOrder := Run(p, db, [Delivery(old1, Completes), Delivery(new1, Completes)]);
            var swapped := Run(p, db, [Delivery(new1, Completes), Delivery(old1, Completes)]);
            (inOrder.rows == swapped.rows && inOrder.orgs == swapped.orgs)
            <==> Definite(new1.change.sub.status)
                 || TierForStatus(old1.change.sub.status, PaidTier(p, old1.change.sub).value, db.orgs[org])
                      == db.orgs[org]
  {
    var a, b := Delivery(old1, Completes), Delivery(new1, Completes);
    var s1, t1 := Process(p, db, a), Process(p, db, b);
    RunTwo(p, db, a, b);
    RunTwo(p, db, b, a);
    InOrder(p, db, a, b);
    Swapped(p, db, a, b);
    var c := old1.change.sub.customer;
    var r, r' := Process(p, s1, b).rows[c], Process(p, t1, a).rows[c];
    assert Process(p, s1, b).rows == Process(p, t1, a).rows ==> r == r';
  }

  /** An upgrade and a pause that followed it: delivered in order the organization keeps the upgrade, the other way
      round it never gets it. */
  lemma PauseBeforeUpgradeDiffers(p: Prices)
    requires p == Prices("price_s", "price_g", "price_e")
    ensures var active := Subscription("sub", "cus", None, Active, [Item("price_g", None)], false);
            var upgrade := Event("e1", 1, SubscriptionChanged(active));
            var pause := Event("e2", 2, SubscriptionChanged(active.(status := Other("paused"))));
            var db := Db(map["cus" := Row("org", None, Canceled, Free, None, false, None)], map["org" := Free], map[]);
            var inOrder := Run(p, db, [Delivery(upgrade, Completes), Delivery(pause, Completes)]);
            var swapped := Run(p, db, [Delivery(pause, Completes), Delivery(upgrade, Completes)]);
            inOrder.orgs == map["org" := Growth] && swapped.orgs == map["org" := Free]
  {
    var active := Subscription("sub", "cus", None, Active, [Item("price_g", None)], false);
    var upgrade := Delivery(Event("e1", 1, SubscriptionChanged(active)), Completes);
    var pause := Delivery(Event("e2", 2, SubscriptionChanged(active.(status := Other("paused")))), Completes);
    var db := Db(map["cus" := Row("org", None, Canceled, Free, None, false, None)], map["org" := Free], map[]);
    assert PaidTier(p, active) == Some(Growth) && PaidTier(p, pause.event.change.sub) == Some(Growth);
    InOrder(p, db, upgrade, pause);
    Swapped(p, db, upgrade, pause);
    RunTwo(p, db, upgrade, pause);
    RunTwo(p, db, pause, upgrade);
  }

  lemma RunTwo(p: Prices, db: Db, a: Delivery, b: Delivery)
    ensures Run(p, db, [a, b]) == Process(p, Process(p, db, a), b)
  {
    assert [a, b][1..] == [b] && [b][1..] == [];
    assert Run(p, db, [a, b]) == Run(p, Process(p, db, a), [b]) == Run(p, Process(p, Process(p, db, a), b), []);
  }

  lemma InOrder(p: Prices, db: Db, a: Delivery, b: Delivery)
    requires a.fate.Completes? && b.fate.Completes? && a.event.id != b.event.id && !Marked(db, a.event)
            && !Marked(db, b.event)
    requires Matches(p, db, a.event) && Matches(p, db, b.event) && NotPast(db, a.event)
    requires a.event.change.sub.customer == b.event.change.sub.customer && a.event.created < b.event.created
    ensures var c := a.event.change.sub.customer;
            var row := db.rows[c];
            var tier1 := TierForStatus(a.event.change.sub.status, PaidTier(p, a.event.change.sub).value,
                db.orgs[row.orgId]);
            var row' := Applied(p, row, b.event.change.sub, b.event.created, PaidTier(p, b.event.change.sub).value,
                tier1);
            var r := Process(p, Process(p, db, a), b);
            r.rows == db.rows[c := row'] && r.orgs == db.orgs[row.orgId := row'.tier]
  {
    ProcessApplies(p, db, a);
    ProcessMarksItself(p, db, a, b.event);
    ProcessApplies(p, Process(p, db, a), b);
  }

  lemma Swapped(p: Prices, db: Db, a: Delivery, b: Delivery)
    requires a.fate.Completes? && b.fate.Completes? && a.event.id != b.event.id && !Marked(db, a.event)
            && !Marked(db, b.event)
    requires Matches(p, db, a.event) && Matches(p, db, b.event) && NotPast(db, a.event)
    requires a.event.change.sub.customer == b.event.change.sub.customer && a.event.created < b.event.created
    ensures var c := a.event.change.sub.customer;
            var row := db.rows[c];
            var row' := Applied(p, row, b.event.change.sub, b.event.created, PaidTier(p, b.event.change.sub).value,
                db.orgs[row.orgId]);
            var r := Process(p, Process(p, db, b), a);
            r.rows == db.rows[c := row'] && r.orgs == db.orgs[row.orgId := row'.tier]
  {
    ProcessApplies(p, db, b);
    ProcessIgnores(p, Process(p, db, b), a);
  }
}
