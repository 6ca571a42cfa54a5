/** The stored subscription, organization and event rows, and the handlers that move them. */
module BillingService {
  import opened Options
  import opened SubscriptionEvents

  class BillingStore {
    var rows: map<string, Row>
    var orgs: map<string, Tier>
    var seen: map<string, bool>
    const prices: Prices

    ghost function View(): Db
      reads this
    {
      Db(rows, orgs, seen)
    }

    constructor (p: Prices, db: Db)
      ensures View() == db && prices == p
    {
      prices := p;
      rows, orgs, seen := db.rows, db.orgs, db.seen;
    }

    /** At most one row and one organization's tier change. An unknown customer, another organization's metadata, an
        event older than the row and a price that is not configured change nothing. */
    method ApplySubscriptionEvent(sub: Subscription, eventAt: int)
      modifies this
      ensures View() == ApplySubscription(prices, old(View()), sub, eventAt)
      ensures seen == old(seen) && rows.Keys == old(rows).Keys && orgs.Keys == old(orgs).Keys
      ensures forall c :: c in rows && c != sub.customer ==> rows[c] == old(rows)[c]
      ensures forall o :: o in orgs && orgs[o] != old(orgs)[o] ==> sub.customer in rows && o == rows[sub.customer].orgId
      ensures sub.customer in rows && rows[sub.customer] != old(rows)[sub.customer] ==>
                var row := rows[sub.customer];
                && row.lastEventAt == Some(eventAt) && row.orgId == old(rows)[sub.customer].orgId
                && row.orgId in orgs && orgs[row.orgId] == row.tier
      ensures || sub.customer !in old(rows)
              || (sub.metaOrg.Some? && sub.metaOrg.value !in {"", old(rows)[sub.customer].orgId})
              || (old(rows)[sub.customer].lastEventAt.Some? && eventAt < old(rows)[sub.customer].lastEventAt.value)
              || PaidTier(prices, sub).None?
              ==> rows == old(rows) && orgs == old(orgs)
    {
      if sub.customer !in rows { return; }
      var row := rows[sub.customer];
      if sub.metaOrg.Some? && sub.metaOrg.value != "" && sub.metaOrg.value != row.orgId { return; }
      if row.lastEventAt.Some? && eventAt < row.lastEventAt.value { return; }
      var paidTier := PaidTier(prices, sub);
      if paidTier.None? || row.orgId !in orgs { return; }
      var tier := TierForStatus(sub.status, paidTier.value, orgs[row.orgId]);
      var ended := tier == Free && !PaidActive(sub.status);
      rows := rows[sub.customer := row.(subscriptionId := if ended then None else Some(sub.id),
                                        status := sub.status, tier := tier, periodEnd := PeriodEnd(prices, sub),
                                        cancelAtPeriodEnd := sub.cancelAtPeriodEnd, lastEventAt := Some(eventAt))];
      orgs := orgs[row.orgId := tier];
    }

    /** `fate` says where, if anywhere, the process dies. */
    method ProcessEvent(e: Event, fate: Fate) returns (handled: bool, duplicate: bool)
      modifies this
      ensures View() == Process(prices, old(View()), Delivery(e, fate))
      ensures duplicate <==> Marked(old(View()), e)
      ensures handled ==> fate.Completes? && Marked(View(), e) && !e.change.Unhandled?
    {
      handled, duplicate := false, false;
      if e.id in seen {
        if seen[e.id] { duplicate := true; return; }
      } else {
        seen := seen[e.id := false];
      }
      if fate.DiesBeforeApplying? { return; }
      if e.change.SubscriptionChanged? { ApplySubscriptionEvent(e.change.sub, e.created); }
      if fate.DiesBeforeMarking? { return; }
      seen := seen[e.id := true];
      handled := !e.change.Unhandled?;
    }
  }
}
